/** The shopping cart: merging a batch of (product, quantity) entries into a
    user's cart, clearing it, and showing it with rendered prices. */
module Cart {
  import opened Common
  import Money

  datatype CartItem = CartItem(product: Id, quantity: int)

  /** A stored cart document. */
  datatype CartDoc = CartDoc(id: Id, items: seq<CartItem>)

  /** `items.find(...)`: the index of the first entry for product p, or -1. */
  function FindIndex(items: seq<CartItem>, p: Id): (k: int)
    ensures -1 <= k < |items|
    ensures k >= 0 ==> items[k].product == p
    ensures forall j :: 0 <= j < |items| && (k < 0 || j < k) ==> items[j].product != p
  {
    if items == [] then -1
    else if items[0].product == p then 0
    else
      var j := FindIndex(items[1..], p);
      if j < 0 then -1 else j + 1
  }

  /** One pass of the merge loop for a batch entry e: an entry already in the
      cart gets its quantity replaced by e's (`=+` assigns, it does not add) and
      is dropped when that quantity is not positive; an unseen product is
      appended whatever its quantity. The drop compares the found entry by
      identity, so it removes that one entry. */
  function ApplyEntry(items: seq<CartItem>, e: CartItem): seq<CartItem>
  {
    var k := FindIndex(items, e.product);
    if k < 0 then items + [e]
    else if e.quantity <= 0 then items[..k] + items[k + 1..]
    else items[k := items[k].(quantity := e.quantity)]
  }

  /** The whole merge: batch entries are applied left to right, each seeing the
      effect of the earlier ones. */
  function MergeBatch(items: seq<CartItem>, batch: seq<CartItem>): seq<CartItem>
    decreases |batch|
  {
    if batch == [] then items else MergeBatch(ApplyEntry(items, batch[0]), batch[1..])
  }

  predicate DistinctProducts(items: seq<CartItem>) {
    forall i, j :: 0 <= i < j < |items| ==> items[i].product != items[j].product
  }

  /** The quantity the cart holds for p (its first entry), if any. */
  function QuantityOf(items: seq<CartItem>, p: Id): Option<int> {
    var k := FindIndex(items, p);
    if k < 0 then None else Some(items[k].quantity)
  }

  /** Reference semantics of the merge for a single product: what one batch
      entry with quantity x does to the quantity the cart holds for it. */
  function Step(held: Option<int>, x: int): Option<int> {
    match held
    case None => Some(x)
    case Some(_) => if x <= 0 then None else Some(x)
  }

  function Replay(held: Option<int>, xs: seq<int>): Option<int>
    decreases |xs|
  {
    if xs == [] then held else Replay(Step(held, xs[0]), xs[1..])
  }

  /** The quantities the batch gives for product p, in batch order. */
  function QuantitiesFor(batch: seq<CartItem>, p: Id): seq<int> {
    if batch == [] then []
    else (if batch[0].product == p then [batch[0].quantity] else []) + QuantitiesFor(batch[1..], p)
  }

  function ProductsOf(batch: seq<CartItem>): set<Id> {
    set i | 0 <= i < |batch| :: batch[i].product
  }

  /** The entries of items whose product is outside s, in order. */
  function Others(items: seq<CartItem>, s: set<Id>): seq<CartItem> {
    if items == [] then []
    else (if items[0].product in s then [] else [items[0]]) + Others(items[1..], s)
  }

  lemma {:induction false} OthersAppend(a: seq<CartItem>, b: seq<CartItem>, s: set<Id>)
    ensures Others(a + b, s) == Others(a, s) + Others(b, s)
    decreases |a|
  {
    if a != [] {
      assert (a + b)[1..] == a[1..] + b;
      OthersAppend(a[1..], b, s);
    } else {
      assert a + b == b;
    }
  }

  /** Entry index k is one of the entries Others drops. */
  lemma OthersSkip(items: seq<CartItem>, k: nat, x: CartItem, s: set<Id>)
    requires k < |items| && items[k].product in s && x.product in s
    ensures Others(items[..k] + items[k + 1..], s) == Others(items, s)
    ensures Others(items[k := x], s) == Others(items, s)
  {
    assert items == items[..k] + [items[k]] + items[k + 1..];
    assert items[k := x] == items[..k] + [x] + items[k + 1..];
    OthersAppend(items[..k] + [items[k]], items[k + 1..], s);
    OthersAppend(items[..k], [items[k]], s);
    OthersAppend(items[..k] + [x], items[k + 1..], s);
    OthersAppend(items[..k], [x], s);
    OthersAppend(items[..k], items[k + 1..], s);
    assert Others([items[k]], s) == [] && Others([x], s) == [];
  }

  /** A batch changes nothing about the products it does not name: their
      entries keep their quantities and their relative order. */
  lemma {:induction false} MergeKeepsOthers(items: seq<CartItem>, batch: seq<CartItem>, s: set<Id>)
    requires ProductsOf(batch) <= s
    ensures Others(MergeBatch(items, batch), s) == Others(items, s)
    decreases |batch|
  {
    if batch != [] {
      var e := batch[0];
      assert e.product in ProductsOf(batch);
      var k := FindIndex(items, e.product);
      if k < 0 {
        OthersAppend(items, [e], s);
        assert Others([e], s) == [];
      } else {
        OthersSkip(items, k, items[k].(quantity := e.quantity), s);
      }
      assert ProductsOf(batch[1..]) <= ProductsOf(batch) by {
        forall p | p in ProductsOf(batch[1..]) ensures p in ProductsOf(batch) {
          var i :| 0 <= i < |batch[1..]| && batch[1..][i].product == p;
          assert batch[i + 1].product == p;
        }
      }
      MergeKeepsOthers(ApplyEntry(items, e), batch[1..], s);
    }
  }

  /** FindIndex on a cart whose products are distinct: the index of THE entry for p. */
  lemma FindUnique(items: seq<CartItem>, p: Id, i: nat)
    requires DistinctProducts(items) && i < |items| && items[i].product == p
    ensures FindIndex(items, p) == i
  {
  }

  lemma DistinctAfterRemove(items: seq<CartItem>, k: nat)
    requires DistinctProducts(items) && k < |items|
    ensures DistinctProducts(items[..k] + items[k + 1..])
  {
    var r := items[..k] + items[k + 1..];
    forall i, j | 0 <= i < j < |r| ensures r[i].product != r[j].product {
      assert r[i] == items[if i < k then i else i + 1];
      assert r[j] == items[if j < k then j else j + 1];
    }
  }

  lemma ApplyEntryDistinct(items: seq<CartItem>, e: CartItem)
    requires DistinctProducts(items)
    ensures DistinctProducts(ApplyEntry(items, e))
  {
    var k := FindIndex(items, e.product);
    if k >= 0 && e.quantity <= 0 {
      DistinctAfterRemove(items, k);
    }
  }

  /** If the cart's product ids are distinct, they stay distinct: an entry is
      appended only when its product is not found. */
  lemma {:induction false} MergeDistinct(items: seq<CartItem>, batch: seq<CartItem>)
    requires DistinctProducts(items)
    ensures DistinctProducts(MergeBatch(items, batch))
    decreases |batch|
  {
    if batch != [] {
      ApplyEntryDistinct(items, batch[0]);
      MergeDistinct(ApplyEntry(items, batch[0]), batch[1..]);
    }
  }

  lemma QuantityAfterAppend(items: seq<CartItem>, e: CartItem, q: Id)
    requires DistinctProducts(items) && FindIndex(items, e.product) < 0
    ensures QuantityOf(items + [e], q) == if q == e.product then Some(e.quantity) else QuantityOf(items, q)
  {
    var r := items + [e];
    var kq := FindIndex(items, q);
    if q == e.product {
      FindUnique(r, q, |items|);
    } else if kq >= 0 {
      FindUnique(r, q, kq);
    } else {
      assert forall j :: 0 <= j < |r| ==> r[j].product != q;
    }
  }

  lemma QuantityAfterRemove(items: seq<CartItem>, k: nat, q: Id)
    requires DistinctProducts(items) && k < |items|
    ensures QuantityOf(items[..k] + items[k + 1..], q)
            == if q == items[k].product then None else QuantityOf(items, q)
  {
    var r := items[..k] + items[k + 1..];
    assert forall j :: 0 <= j < |r| ==> r[j] == items[if j < k then j else j + 1];
    var kq := FindIndex(items, q);
    if q != items[k].product && kq >= 0 {
      FindUnique(r, q, if kq < k then kq else kq - 1);
    }
  }

  lemma QuantityAfterReplace(items: seq<CartItem>, k: nat, x: int, q: Id)
    requires DistinctProducts(items) && k < |items|
    ensures QuantityOf(items[k := items[k].(quantity := x)], q)
            == if q == items[k].product then Some(x) else QuantityOf(items, q)
  {
    var r := items[k := items[k].(quantity := x)];
    var kq := FindIndex(items, q);
    if q == items[k].product {
      FindUnique(r, q, k);
    } else if kq >= 0 {
      FindUnique(r, q, kq);
    } else {
      assert forall j :: 0 <= j < |r| ==> r[j].product != q;
    }
  }

  /** What one batch entry does to the quantity held for a product q: for
      e's own product it is Step (replace, drop when not positive, append when
      unseen), for any other product nothing. */
  lemma ApplyEntryQuantity(items: seq<CartItem>, e: CartItem, q: Id)
    requires DistinctProducts(items)
    ensures QuantityOf(ApplyEntry(items, e), q)
            == if q == e.product then Step(QuantityOf(items, q), e.quantity) else QuantityOf(items, q)
  {
    var k := FindIndex(items, e.product);
    if k < 0 {
      QuantityAfterAppend(items, e, q);
    } else if e.quantity <= 0 {
      QuantityAfterRemove(items, k, q);
    } else {
      QuantityAfterReplace(items, k, e.quantity, q);
    }
  }

  /** The merge, product by product: on a cart with distinct products, the
      quantity held for p after the batch is obtained by replaying the batch's
      quantities for p, in order, through Step. In particular a quantity is
      replaced, never summed, and products the batch does not name keep theirs. */
  lemma {:induction false} MergeQuantity(items: seq<CartItem>, batch: seq<CartItem>, p: Id)
    requires DistinctProducts(items)
    ensures QuantityOf(MergeBatch(items, batch), p) == Replay(QuantityOf(items, p), QuantitiesFor(batch, p))
    decreases |batch|
  {
    if batch != [] {
      var e, rest := batch[0], batch[1..];
      var next := ApplyEntry(items, e);
      var held, xs := QuantityOf(items, p), QuantitiesFor(rest, p);
      assert MergeBatch(items, batch) == MergeBatch(next, rest);
      ApplyEntryDistinct(items, e);
      MergeQuantity(next, rest, p);
      ApplyEntryQuantity(items, e, p);
      if e.product == p {
        assert QuantityOf(next, p) == Step(held, e.quantity);
        assert QuantitiesFor(batch, p) == [e.quantity] + xs;
        assert ([e.quantity] + xs)[1..] == xs;
        assert Replay(held, [e.quantity] + xs) == Replay(Step(held, e.quantity), xs);
      } else {
        assert QuantityOf(next, p) == held;
        assert QuantitiesFor(batch, p) == xs;
      }
    }
  }

  /** A product held with quantity 3 and sent again with quantity 2 ends with
      2, not 5; sent with 0 it leaves the cart. */
  lemma ReplaceNotSum(items: seq<CartItem>, p: Id)
    requires DistinctProducts(items) && QuantityOf(items, p) == Some(3)
    ensures QuantityOf(MergeBatch(items, [CartItem(p, 2)]), p) == Some(2)
    ensures QuantityOf(MergeBatch(items, [CartItem(p, 0)]), p) == None
  {
    MergeQuantity(items, [CartItem(p, 2)], p);
    MergeQuantity(items, [CartItem(p, 0)], p);
    assert QuantitiesFor([CartItem(p, 2)], p) == [2];
    assert QuantitiesFor([CartItem(p, 0)], p) == [0];
  }

  /** `cart.items.find(...)` as the loop the library runs. */
  method FindProduct(items: seq<CartItem>, p: Id) returns (k: int)
    ensures k == FindIndex(items, p)
  {
    var i := 0;
    while i < |items|
      invariant 0 <= i <= |items|
      invariant forall j :: 0 <= j < i ==> items[j].product != p
      invariant FindIndex(items, p) == -1 || i <= FindIndex(items, p)
    {
      if items[i].product == p {
        return i;
      }
      i := i + 1;
    }
    return -1;
  }

  /** The fields of a product document that getCart reads after populate. */
  datatype Product = Product(id: Id, title: string, slug: string, cover: Option<Asset>, mrp: int, sale: int)

  datatype ProductView = ProductView(
    id: Id, title: string, slug: string, cover: Option<string>, mrp: string, sale: string)

  datatype CartLineView = CartLineView(quantity: int, product: ProductView)

  datatype CartView = CartView(id: Id, items: seq<CartLineView>)

  /** The `cart.items.map(...)` projection of getCart: defined exactly when every
      entry's product exists (populate gives null otherwise and the handler
      throws); it keeps the entries' number, order and quantities, and mrp and
      sale read back as the stored cents. */
  function LineViews(items: seq<CartItem>, catalog: map<Id, Product>): (r: Option<seq<CartLineView>>)
    ensures r.Some? <==> forall i :: 0 <= i < |items| ==> items[i].product in catalog
    ensures r.Some? ==> |r.value| == |items|
    ensures r.Some? ==> forall i :: 0 <= i < |items| ==>
      var v, p := r.value[i], catalog[items[i].product];
      && v.quantity == items[i].quantity
      && v.product.id == p.id
      && v.product.title == p.title
      && v.product.slug == p.slug
      && v.product.cover == UrlOf(p.cover)
      && Money.ParseCents(v.product.mrp) == Some(p.mrp)
      && Money.ParseCents(v.product.sale) == Some(p.sale)
      && v.product.mrp == Money.FormatCents(p.mrp)
      && v.product.sale == Money.FormatCents(p.sale)
  {
    if forall i :: 0 <= i < |items| ==> items[i].product in catalog then
      var views := seq(|items|, i requires 0 <= i < |items| => LineView(items[i], catalog[items[i].product]));
      assert forall i :: 0 <= i < |items| ==> views[i] == LineView(items[i], catalog[items[i].product]);
      Some(views)
    else None
  }

  /** One cart entry with its populated product. */
  function LineView(item: CartItem, p: Product): (v: CartLineView)
    ensures v.quantity == item.quantity && v.product.id == p.id
    ensures v.product.title == p.title && v.product.slug == p.slug && v.product.cover == UrlOf(p.cover)
    ensures Money.ParseCents(v.product.mrp) == Some(p.mrp)
    ensures Money.ParseCents(v.product.sale) == Some(p.sale)
    ensures v.product.mrp == Money.FormatCents(p.mrp) && v.product.sale == Money.FormatCents(p.sale)
  {
    Money.FormatCentsRoundTrip(p.mrp);
    Money.FormatCentsRoundTrip(p.sale);
    CartLineView(item.quantity,
      ProductView(p.id, p.title, p.slug, UrlOf(p.cover), Money.FormatCents(p.mrp), Money.FormatCents(p.sale)))
  }

  /** getCart: 404 "Cart not found" when the user has no cart, otherwise the
      projected cart (or an exception when a product is missing). */
  function GetCart(carts: map<Id, CartDoc>, userId: Id, catalog: map<Id, Product>): (r: Reply<CartView>)
    ensures userId !in carts <==> r == Error(404, "Cart not found")
    ensures r.Error? ==> r == Error(404, "Cart not found")
    ensures r == Thrown <==>
      (userId in carts && exists i :: 0 <= i < |carts[userId].items| && carts[userId].items[i].product !in catalog)
    ensures r.Ok? ==> userId in carts && r.body.id == carts[userId].id
    ensures r.Ok? ==> Some(r.body.items) == LineViews(carts[userId].items, catalog)
    ensures userId in carts ==> (r.Ok? <==> forall i :: 0 <= i < |carts[userId].items| ==>
      carts[userId].items[i].product in catalog)
  {
    if userId !in carts then Error(404, "Cart not found")
    else
      match LineViews(carts[userId].items, catalog)
      case Some(lines) => Ok(CartView(carts[userId].id, lines))
      case None => Thrown
  }

  /** The cart collection, keyed by the owning user's id. */
  class CartStore {
    var carts: map<Id, CartDoc>

    constructor ()
      ensures carts == map[]
    {
      carts := map[];
    }

    /** updateCart: with no cart for the user, a cart holding the batch verbatim
        is created under newId; otherwise the batch is merged into the cart's
        items entry by entry and the cart saved. Returns the cart's id. */
    method UpdateCart(userId: Id, batch: seq<CartItem>, newId: Id) returns (cartId: Id)
      modifies this
      ensures userId !in old(carts) ==> carts == old(carts)[userId := CartDoc(newId, batch)]
      ensures userId in old(carts) ==>
        carts == old(carts)[userId := old(carts)[userId].(items := MergeBatch(old(carts)[userId].items, batch))]
      ensures cartId == carts[userId].id
    {
      if userId !in carts {
        carts := carts[userId := CartDoc(newId, batch)];
        return newId;
      }
      var cart := carts[userId];
      var items := cart.items;
      for i := 0 to |batch|
        invariant MergeBatch(items, batch[i..]) == MergeBatch(cart.items, batch)
        invariant carts == old(carts)
      {
        var item := batch[i];
        assert batch[i..][1..] == batch[i + 1..];
        var k := FindProduct(items, item.product);
        if k >= 0 {
          ghost var before := items;
          items := items[k := items[k].(quantity := item.quantity)];
          if items[k].quantity <= 0 {
            items := items[..k] + items[k + 1..];
            assert items == before[..k] + before[k + 1..];
          }
        } else {
          items := items + [CartItem(item.product, item.quantity)];
        }
      }
      assert batch[|batch|..] == [];
      assert items == MergeBatch(cart.items, batch);
      carts := carts[userId := cart.(items := items)];
      return cart.id;
    }

    /** clearCart: an existing cart keeps its id and loses every entry; a user
        without a cart still has none (the update does not upsert). */
    method ClearCart(userId: Id)
      modifies this
      ensures userId in old(carts) ==> carts == old(carts)[userId := old(carts)[userId].(items := [])]
      ensures userId !in old(carts) ==> carts == old(carts)
    {
      if userId in carts {
        carts := carts[userId := carts[userId].(items := [])];
      }
    }
  }
}
