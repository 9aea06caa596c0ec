/** A reader's history for one book: the last reading location and the
    highlights they made. updateBookHistory creates or edits the record;
    getBookHistory shows it. */
module History {
  import opened Common

  datatype Highlight = Highlight(selection: string, fill: string)

  /** A stored history record; lastLocation is None when never set. */
  datatype Record = Record(lastLocation: Option<string>, highlights: seq<Highlight>)

  /** Records are found by book and reader. */
  datatype Key = Key(book: Id, reader: Id)

  /** JavaScript truthiness of an optional string: present and not "". */
  predicate Truthy(s: Option<string>) {
    s.Some? && s.value != ""
  }

  /** `highlights?.length` is truthy: present and not empty. */
  predicate HasHighlights(hs: Option<seq<Highlight>>) {
    hs.Some? && |hs.value| > 0
  }

  /** `incoming.find((h) => h.selection === sel)` found something. */
  predicate Mentions(incoming: seq<Highlight>, sel: string) {
    exists h :: h in incoming && h.selection == sel
  }

  /** The removal filter: the stored highlights whose selection no incoming
      highlight mentions, in their stored order. */
  function RemoveSelections(stored: seq<Highlight>, incoming: seq<Highlight>): (r: seq<Highlight>)
    ensures |r| <= |stored|
    ensures forall i :: 0 <= i < |r| ==> !Mentions(incoming, r[i].selection)
    ensures forall h :: h in stored && !Mentions(incoming, h.selection) ==> h in r
    ensures forall h :: h in r ==> h in stored
  {
    if stored == [] then []
    else
      var rest := RemoveSelections(stored[1..], incoming);
      assert forall h :: h in stored && h != stored[0] ==> h in stored[1..];
      if Mentions(incoming, stored[0].selection) then rest else [stored[0]] + rest
  }

  /** Removal works element by element: it distributes over concatenation,
      so the highlights it keeps stay in their relative order. */
  lemma {:induction false} RemoveSelectionsAppend(a: seq<Highlight>, b: seq<Highlight>, incoming: seq<Highlight>)
    ensures RemoveSelections(a + b, incoming) == RemoveSelections(a, incoming) + RemoveSelections(b, incoming)
    decreases |a|
  {
    if a == [] {
      assert a + b == b;
    } else {
      assert (a + b)[1..] == a[1..] + b;
      RemoveSelectionsAppend(a[1..], b, incoming);
    }
  }

  /** Removing with a batch that mentions exactly one stored highlight's
      selection removes that one entry and no other. */
  lemma RemoveExactlyOne(before: seq<Highlight>, h: Highlight, after: seq<Highlight>, incoming: seq<Highlight>)
    requires Mentions(incoming, h.selection)
    requires forall x :: x in before ==> !Mentions(incoming, x.selection)
    requires forall x :: x in after ==> !Mentions(incoming, x.selection)
    ensures RemoveSelections(before + [h] + after, incoming) == before + after
  {
    KeepsUnmentioned(before, incoming);
    KeepsUnmentioned(after, incoming);
    RemoveSelectionsAppend(before, [h], incoming);
    var single := RemoveSelections([h], incoming);
    assert single == [] by {
      assert [h][1..] == [];
    }
    assert RemoveSelections(before + [h], incoming) == before;
    RemoveSelectionsAppend(before + [h], after, incoming);
  }

  /** A batch that mentions none of the stored selections removes nothing. */
  lemma {:induction false} KeepsUnmentioned(stored: seq<Highlight>, incoming: seq<Highlight>)
    requires forall x :: x in stored ==> !Mentions(incoming, x.selection)
    ensures RemoveSelections(stored, incoming) == stored
    decreases |stored|
  {
    if stored != [] {
      assert forall x :: x in stored[1..] ==> x in stored;
      KeepsUnmentioned(stored[1..], incoming);
      assert stored == [stored[0]] + stored[1..];
    }
  }

  /** Applying the same removal batch twice is the same as applying it once. */
  lemma RemoveSelectionsIdempotent(stored: seq<Highlight>, incoming: seq<Highlight>)
    ensures RemoveSelections(RemoveSelections(stored, incoming), incoming) == RemoveSelections(stored, incoming)
  {
    var once := RemoveSelections(stored, incoming);
    KeepsUnmentioned(once, incoming);
  }

  /** getBookHistory's view of one highlight: its fill and its selection. */
  datatype HighlightView = HighlightView(fill: string, selection: string)

  datatype HistoryView = HistoryView(lastLocation: Option<string>, highlights: seq<HighlightView>)

  /** getBookHistory: 422 for an id that is not a valid ObjectId, 404 when the
      reader has no record for the book, otherwise the last location and every
      highlight's (fill, selection) in stored order. */
  function GetBookHistory(records: map<Key, Record>, bookId: Id, readerId: Id, isValidObjectId: Id -> bool)
    : (r: Reply<HistoryView>)
    ensures !isValidObjectId(bookId) <==> r == Error(422, "Invalid book id!")
    ensures isValidObjectId(bookId) && Key(bookId, readerId) !in records <==> r == Error(404, "Invalid book id")
    ensures r.Ok? <==> isValidObjectId(bookId) && Key(bookId, readerId) in records
    ensures r.Ok? ==>
      var stored := records[Key(bookId, readerId)];
      && r.body.lastLocation == stored.lastLocation
      && |r.body.highlights| == |stored.highlights|
      && forall i :: 0 <= i < |stored.highlights| ==>
           r.body.highlights[i] == HighlightView(stored.highlights[i].fill, stored.highlights[i].selection)
  {
    if !isValidObjectId(bookId) then Error(422, "Invalid book id!")
    else if Key(bookId, readerId) !in records then Error(404, "Invalid book id")
    else
      var stored := records[Key(bookId, readerId)];
      Ok(HistoryView(stored.lastLocation,
        seq(|stored.highlights|, i requires 0 <= i < |stored.highlights| =>
          HighlightView(stored.highlights[i].fill, stored.highlights[i].selection))))
  }

  /** The history collection. */
  class HistoryStore {
    var records: map<Key, Record>

    constructor ()
      ensures records == map[]
    {
      records := map[];
    }

    /** updateBookHistory. Without a record for (book, reader), one is created
        from the request as given (also when `remove` is set). With one, a
        truthy lastLocation overwrites the stored one; then a non-empty batch of
        highlights is appended, or, when `remove` is set, every stored
        highlight whose selection the batch mentions is dropped. */
    method UpdateBookHistory(bookId: Id, readerId: Id, highlights: Option<seq<Highlight>>,
                             lastLocation: Option<string>, remove: bool)
      modifies this
      ensures Key(bookId, readerId) in records
      ensures forall k :: k != Key(bookId, readerId) ==>
        (k in records <==> k in old(records)) && (k in records ==> records[k] == old(records)[k])
      ensures Key(bookId, readerId) !in old(records) ==>
        records[Key(bookId, readerId)] == Record(lastLocation, highlights.GetOr([]))
      ensures Key(bookId, readerId) in old(records) ==>
        var before, after := old(records)[Key(bookId, readerId)], records[Key(bookId, readerId)];
        && after.lastLocation == (if Truthy(lastLocation) then lastLocation else before.lastLocation)
        && after.highlights == (if !HasHighlights(highlights) then before.highlights
                                else if remove then RemoveSelections(before.highlights, highlights.value)
                                else before.highlights + highlights.value)
    {
      var key := Key(bookId, readerId);
      var history: Record;
      if key !in records {
        history := Record(lastLocation, highlights.GetOr([]));
      } else {
        history := records[key];
        if Truthy(lastLocation) {
          history := history.(lastLocation := lastLocation);
        }
        if HasHighlights(highlights) && !remove {
          history := history.(highlights := history.highlights + highlights.value);
        }
        if HasHighlights(highlights) && remove {
          history := history.(highlights := RemoveSelections(history.highlights, highlights.value));
        }
      }
      records := records[key := history];
    }
  }
}
