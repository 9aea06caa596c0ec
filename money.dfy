/** Prices are stored as integer minor units (cents) and shown as
    `(cents / 100).toFixed(2)`: the signed integer part, a dot and two digits.
    The double arithmetic gives this string for |cents| < 100 * 2^46, where the
    double nearest cents/100 lies within 0.004 of it. */
module Money {
  import opened Common

  predicate IsDigit(c: char) {
    '0' <= c <= '9'
  }

  predicate AllDigits(s: string) {
    forall i :: 0 <= i < |s| ==> IsDigit(s[i])
  }

  function DigitChar(d: nat): (c: char)
    requires d < 10
    ensures IsDigit(c) && c as int - '0' as int == d
  {
    ('0' as int + d) as char
  }

  /** The decimal numeral of n, without leading zeros. */
  function Decimal(n: nat): (s: string)
    ensures |s| >= 1 && AllDigits(s)
    ensures s[0] == '0' ==> n == 0 && s == "0"
    decreases n
  {
    if n < 10 then [DigitChar(n)] else Decimal(n / 10) + [DigitChar(n % 10)]
  }

  /** The value of a string of decimal digits. */
  function DigitsValue(s: string): nat
    requires AllDigits(s)
  {
    if s == [] then 0 else 10 * DigitsValue(s[..|s| - 1]) + (s[|s| - 1] as int - '0' as int)
  }

  lemma {:induction false} DecimalValue(n: nat)
    ensures DigitsValue(Decimal(n)) == n
    decreases n
  {
    if n >= 10 {
      var s := Decimal(n);
      assert s[..|s| - 1] == Decimal(n / 10);
      DecimalValue(n / 10);
    }
  }

  /** The two decimals of r < 100 cents. */
  function TwoDigits(r: nat): (s: string)
    requires r < 100
    ensures |s| == 2 && AllDigits(s)
  {
    [DigitChar(r / 10), DigitChar(r % 10)]
  }

  /** digits.dd, the whole part without leading zeros. */
  predicate UnsignedShape(b: string) {
    && |b| >= 4 && b[|b| - 3] == '.'
    && AllDigits(b[..|b| - 3]) && AllDigits(b[|b| - 2..])
    && (b[0] == '0' ==> b[1] == '.')
  }

  /** The display string of a non-negative amount: whole units, a dot, two decimals. */
  function Unsigned(a: nat): (s: string)
    ensures UnsignedShape(s)
  {
    var w, d := Decimal(a / 100), TwoDigits(a % 100);
    assert (w + "." + d)[..|w|] == w && (w + "." + d)[|w| + 1..] == d;
    w + "." + d
  }

  /** `(cents / 100).toFixed(2)` for integer cents: "-" exactly for a negative
      amount, then whole units without leading zeros, a dot and two decimals. */
  function FormatCents(cents: int): (r: string)
    ensures |r| >= 4 && r[|r| - 3] == '.'
    ensures (r[0] == '-') == (cents < 0)
    ensures UnsignedShape(if cents < 0 then r[1..] else r)
  {
    if cents < 0 then
      assert ("-" + Unsigned(-cents))[1..] == Unsigned(-cents);
      "-" + Unsigned(-cents)
    else Unsigned(cents)
  }

  /** Reads back a string of UnsignedShape as cents. */
  function ParseUnsigned(b: string): Option<int>
  {
    if UnsignedShape(b)
    then Some(DigitsValue(b[..|b| - 3]) * 100 + DigitsValue(b[|b| - 2..]))
    else None
  }

  /** Reads back a string of the form [-]digits.dd as cents: the reference
      against which FormatCents is checked. */
  function ParseCents(s: string): Option<int>
  {
    if |s| > 0 && s[0] == '-' then
      match ParseUnsigned(s[1..])
      case Some(v) => Some(-v)
      case None => None
    else ParseUnsigned(s)
  }

  lemma TwoDigitsValue(r: nat)
    requires r < 100
    ensures DigitsValue(TwoDigits(r)) == r
  {
    var d1, d0 := r / 10, r % 10;
    var one := [DigitChar(d1)];
    var two := TwoDigits(r);
    assert one[..0] == [];
    assert DigitsValue(one) == 10 * DigitsValue([]) + d1;
    assert two[..1] == one;
    assert DigitsValue(two) == 10 * DigitsValue(one) + d0;
  }

  lemma UnsignedRoundTrip(a: nat)
    ensures ParseUnsigned(Unsigned(a)) == Some(a)
  {
    var q, r := a / 100, a % 100;
    var b := Unsigned(a);
    assert b[..|b| - 3] == Decimal(q);
    assert b[|b| - 2..] == TwoDigits(r);
    DecimalValue(q);
    TwoDigitsValue(r);
  }

  /** The display string reads back as exactly the stored cents. */
  lemma FormatCentsRoundTrip(cents: int)
    ensures ParseCents(FormatCents(cents)) == Some(cents)
  {
    if cents < 0 {
      UnsignedRoundTrip(-cents);
      assert ("-" + Unsigned(-cents))[1..] == Unsigned(-cents);
    } else {
      UnsignedRoundTrip(cents);
    }
  }

  /** Two different amounts never display alike. */
  lemma FormatCentsInjective(x: int, y: int)
    requires FormatCents(x) == FormatCents(y)
    ensures x == y
  {
    FormatCentsRoundTrip(x);
    FormatCentsRoundTrip(y);
  }

  /** A digit string that does not start with '0' has a positive value. */
  lemma {:induction false} LeadingDigitPositive(s: string)
    requires |s| >= 1 && AllDigits(s) && s[0] != '0'
    ensures DigitsValue(s) >= 1
    decreases |s|
  {
    if |s| > 1 {
      LeadingDigitPositive(s[..|s| - 1]);
    }
  }

  /** A digit string without leading zeros is the numeral of its value. */
  lemma {:induction false} DecimalOfDigits(s: string)
    requires |s| >= 1 && AllDigits(s) && (s[0] == '0' ==> |s| == 1)
    ensures Decimal(DigitsValue(s)) == s
    decreases |s|
  {
    var p, d := s[..|s| - 1], s[|s| - 1] as int - '0' as int;
    if |s| == 1 {
      assert p == [];
    } else {
      LeadingDigitPositive(p);
      var n := DigitsValue(s);
      assert n == 10 * DigitsValue(p) + d;
      assert n / 10 == DigitsValue(p) && n % 10 == d;
      DecimalOfDigits(p);
      assert s == p + [s[|s| - 1]];
    }
  }

  /** Two digits are the TwoDigits of their value. */
  lemma TwoDigitsOfDigits(t: string)
    requires |t| == 2 && AllDigits(t)
    ensures DigitsValue(t) < 100 && TwoDigits(DigitsValue(t)) == t
  {
    var d1, d0 := t[0] as int - '0' as int, t[1] as int - '0' as int;
    assert t[..1][..0] == [];
    assert DigitsValue(t[..1]) == d1;
    assert DigitsValue(t) == 10 * d1 + d0;
  }

  lemma UnsignedOfParse(b: string, v: int)
    requires ParseUnsigned(b) == Some(v)
    ensures v >= 0 && Unsigned(v) == b
  {
    var w, t := b[..|b| - 3], b[|b| - 2..];
    TwoDigitsOfDigits(t);
    DecimalOfDigits(w);
    var W, T := DigitsValue(w), DigitsValue(t);
    assert v == W * 100 + T;
    assert v / 100 == W && v % 100 == T;
    assert b == w + "." + t;
  }

  /** The other direction of the round trip: a string that ParseCents accepts,
      with "-" exactly for a negative amount, is the display string of the
      amount it reads as. So FormatCents is the only such rendering. */
  lemma ParseFormatRoundTrip(s: string, cents: int)
    requires ParseCents(s) == Some(cents)
    requires (|s| > 0 && s[0] == '-') == (cents < 0)
    ensures FormatCents(cents) == s
  {
    if |s| > 0 && s[0] == '-' {
      assert ParseUnsigned(s[1..]) == Some(-cents);
      UnsignedOfParse(s[1..], -cents);
      assert FormatCents(cents) == "-" + Unsigned(-cents);
      assert s == "-" + s[1..];
    } else {
      assert ParseUnsigned(s) == Some(cents);
      UnsignedOfParse(s, cents);
      assert FormatCents(cents) == Unsigned(cents);
    }
  }

  lemma FormatCentsExample()
    ensures FormatCents(1099) == "10.99"
    ensures FormatCents(5) == "0.05"
    ensures FormatCents(-250) == "-2.50"
  {
    assert Decimal(10) == "10" by {
      assert Decimal(10) == Decimal(1) + [DigitChar(0)];
    }
    assert Unsigned(1099) == "10.99" by {
      assert Unsigned(1099) == Decimal(10) + "." + TwoDigits(99);
      assert TwoDigits(99) == "99";
    }
    assert Unsigned(5) == "0.05" by {
      assert Unsigned(5) == Decimal(0) + "." + TwoDigits(5);
      assert Decimal(0) == "0" && TwoDigits(5) == "05";
    }
    assert Unsigned(250) == "2.50" by {
      assert Unsigned(250) == Decimal(2) + "." + TwoDigits(50);
      assert Decimal(2) == "2" && TwoDigits(50) == "50";
    }
    assert FormatCents(-250) == "-" + Unsigned(250);
  }
}
