/** Reviews: at most one review per (book, user), written by an upsert, and the
    book's averageRating recomputed from all of the book's reviews after every
    write; plus the review lookup and the public review list. */
module Reviews {
  import opened Common

  datatype Key = Key(book: Id, user: Id)

  datatype Review = Review(content: string, rating: int)

  /** Some key of a non-empty set: the order in which the aggregate visits
      the reviews, which the lemmas below show does not matter. */
  ghost function Pick(keys: set<Key>): (k: Key)
    requires keys != {}
    ensures k in keys
  {
    var k :| k in keys; k
  }

  /** The `$match: { book }` + `$group` aggregate over the reviews whose keys
      are in `keys`: the sum of the book's ratings ... */
  ghost function RatingSum(m: map<Key, Review>, keys: set<Key>, book: Id): int
    requires keys <= m.Keys
    decreases keys
  {
    if keys == {} then 0
    else
      var k := Pick(keys);
      (if k.book == book then m[k].rating else 0) + RatingSum(m, keys - {k}, book)
  }

  /** ... and the number of the book's reviews. */
  ghost function ReviewCount(keys: set<Key>, book: Id): nat
    decreases keys
  {
    if keys == {} then 0
    else
      var k := Pick(keys);
      (if k.book == book then 1 else 0) + ReviewCount(keys - {k}, book)
  }

  /** `$avg: "$rating"` over the book's reviews, as an exact rational. */
  ghost function Mean(m: map<Key, Review>, book: Id): real
    requires ReviewCount(m.Keys, book) > 0
  {
    RatingSum(m, m.Keys, book) as real / ReviewCount(m.Keys, book) as real
  }

  /** The aggregate does not depend on the order in which reviews are visited:
      any one of them can be taken out first. */
  lemma {:induction false} SumRemove(m: map<Key, Review>, keys: set<Key>, x: Key, book: Id)
    requires keys <= m.Keys && x in keys
    ensures RatingSum(m, keys, book) == (if x.book == book then m[x].rating else 0) + RatingSum(m, keys - {x}, book)
    decreases keys
  {
    var y := Pick(keys);
    if y != x {
      SumRemove(m, keys - {y}, x, book);
      SumRemove(m, keys - {x}, y, book);
      assert keys - {y} - {x} == keys - {x} - {y};
    }
  }

  lemma {:induction false} CountRemove(keys: set<Key>, x: Key, book: Id)
    requires x in keys
    ensures ReviewCount(keys, book) == (if x.book == book then 1 else 0) + ReviewCount(keys - {x}, book)
    decreases keys
  {
    var y := Pick(keys);
    if y != x {
      CountRemove(keys - {y}, x, book);
      CountRemove(keys - {x}, y, book);
      assert keys - {y} - {x} == keys - {x} - {y};
    }
  }

  /** Two stores that agree on the book's ratings have the same sum. */
  lemma {:induction false} SumAgree(m1: map<Key, Review>, m2: map<Key, Review>, keys: set<Key>, book: Id)
    requires keys <= m1.Keys && keys <= m2.Keys
    requires forall k :: k in keys && k.book == book ==> m1[k].rating == m2[k].rating
    ensures RatingSum(m1, keys, book) == RatingSum(m2, keys, book)
    decreases keys
  {
    if keys != {} {
      var k := Pick(keys);
      SumAgree(m1, m2, keys - {k}, book);
    }
  }

  /** The effect of an upsert on a book's aggregate: another book's is
      unchanged; for the review's own book, a new (book, user) key adds one
      review, and an existing one has its old rating replaced (the count does
      not grow). */
  lemma UpsertAggregate(m: map<Key, Review>, k: Key, r: Review, b: Id)
    ensures var m' := m[k := r];
      && RatingSum(m', m'.Keys, b) == (if b != k.book then RatingSum(m, m.Keys, b)
                                      else if k in m then RatingSum(m, m.Keys, b) - m[k].rating + r.rating
                                      else RatingSum(m, m.Keys, b) + r.rating)
      && ReviewCount(m'.Keys, b) == (if b != k.book || k in m then ReviewCount(m.Keys, b)
                                     else ReviewCount(m.Keys, b) + 1)
  {
    var m' := m[k := r];
    SumRemove(m', m'.Keys, k, b);
    CountRemove(m'.Keys, k, b);
    assert m'.Keys - {k} == m.Keys - {k};
    SumAgree(m', m, m.Keys - {k}, b);
    if k in m {
      SumRemove(m, m.Keys, k, b);
      CountRemove(m.Keys, k, b);
    } else {
      assert m.Keys - {k} == m.Keys;
    }
  }

  /** After an upsert the book has at least one review, so the aggregate
      yields a row and its average is defined. */
  lemma UpsertNonEmpty(m: map<Key, Review>, k: Key, r: Review)
    ensures ReviewCount(m[k := r].Keys, k.book) > 0
  {
    CountRemove(m[k := r].Keys, k, k.book);
  }

  lemma {:induction false} SumBounds(m: map<Key, Review>, keys: set<Key>, book: Id, lo: int, hi: int)
    requires keys <= m.Keys
    requires forall k :: k in m && k.book == book ==> lo <= m[k].rating <= hi
    ensures lo * ReviewCount(keys, book) <= RatingSum(m, keys, book) <= hi * ReviewCount(keys, book)
    decreases keys
  {
    if keys != {} {
      var k := Pick(keys);
      SumBounds(m, keys - {k}, book, lo, hi);
      var n := ReviewCount(keys - {k}, book);
      assert lo * (n + 1) == lo * n + lo;
      assert hi * (n + 1) == hi * n + hi;
    }
  }

  /** The average lies between the smallest and the largest rating given. */
  lemma MeanBounds(m: map<Key, Review>, book: Id, lo: int, hi: int)
    requires ReviewCount(m.Keys, book) > 0
    requires forall k :: k in m && k.book == book ==> lo <= m[k].rating <= hi
    ensures lo as real <= Mean(m, book) <= hi as real
  {
    SumBounds(m, m.Keys, book, lo, hi);
    DivideBounds(RatingSum(m, m.Keys, book), ReviewCount(m.Keys, book), lo, hi);
  }

  lemma DivideBounds(sum: int, count: nat, lo: int, hi: int)
    requires count > 0 && lo * count <= sum <= hi * count
    ensures lo as real <= sum as real / count as real <= hi as real
  {
    var n := count as real;
    assert (lo * count) as real == lo as real * n;
    assert (hi * count) as real == hi as real * n;
    assert (sum as real / n) * n == sum as real;
  }

  lemma {:induction false} NoReviewsAggregate(m: map<Key, Review>, keys: set<Key>, book: Id)
    requires keys <= m.Keys
    requires forall k :: k in keys ==> k.book != book
    ensures RatingSum(m, keys, book) == 0 && ReviewCount(keys, book) == 0
    decreases keys
  {
    if keys != {} {
      var k := Pick(keys);
      NoReviewsAggregate(m, keys - {k}, book);
    }
  }

  /** Two users rating a book that had no reviews 5 and 3 give it an average of 4. */
  lemma TwoRatingsAverage(m: map<Key, Review>, b: Id, u1: Id, u2: Id, c1: string, c2: string)
    requires forall k :: k in m ==> k.book != b
    requires u1 != u2
    ensures var m2 := m[Key(b, u1) := Review(c1, 5)][Key(b, u2) := Review(c2, 3)];
      ReviewCount(m2.Keys, b) > 0 && Mean(m2, b) == 4.0
  {
    var m1 := m[Key(b, u1) := Review(c1, 5)];
    NoReviewsAggregate(m, m.Keys, b);
    UpsertAggregate(m, Key(b, u1), Review(c1, 5), b);
    UpsertAggregate(m1, Key(b, u2), Review(c2, 3), b);
  }

  /** One addReview request. */
  datatype Call = Call(book: Id, user: Id, content: string, rating: int)

  /** The review table after a sequence of upserts, in order. */
  function ApplyCalls(m: map<Key, Review>, calls: seq<Call>): map<Key, Review>
    decreases |calls|
  {
    if calls == [] then m
    else ApplyCalls(m[Key(calls[0].book, calls[0].user) := Review(calls[0].content, calls[0].rating)], calls[1..])
  }

  /** The review the last call for key k wrote, if any. */
  function LastFor(calls: seq<Call>, k: Key): Option<Review>
    decreases |calls|
  {
    if calls == [] then None
    else match LastFor(calls[1..], k)
      case Some(r) => Some(r)
      case None =>
        if Key(calls[0].book, calls[0].user) == k then Some(Review(calls[0].content, calls[0].rating)) else None
  }

  /** Repeated reviews overwrite rather than add: after any sequence of calls
      each (book, user) holds the review of its last call, and keys no call
      named are as before. */
  lemma {:induction false} LatestReviewWins(m: map<Key, Review>, calls: seq<Call>, k: Key)
    ensures var after := ApplyCalls(m, calls);
      match LastFor(calls, k)
      case Some(r) => k in after && after[k] == r
      case None => (k in after <==> k in m) && (k in m ==> after[k] == m[k])
    decreases |calls|
  {
    if calls != [] {
      var c := calls[0];
      LatestReviewWins(m[Key(c.book, c.user) := Review(c.content, c.rating)], calls[1..], k);
    }
  }

  /** getReview: 422 for an id that is not a valid ObjectId, 404 when this
      user has not reviewed the book, otherwise the review's content and rating. */
  function GetReview(reviews: map<Key, Review>, bookId: Id, userId: Id, isValidObjectId: Id -> bool): (r: Reply<Review>)
    ensures !isValidObjectId(bookId) <==> r == Error(422, "Book Id is not valid")
    ensures isValidObjectId(bookId) && Key(bookId, userId) !in reviews <==> r == Error(404, "Review not found")
    ensures r.Ok? <==> isValidObjectId(bookId) && Key(bookId, userId) in reviews
    ensures r.Ok? ==> r.body == reviews[Key(bookId, userId)]
  {
    if !isValidObjectId(bookId) then Error(422, "Book Id is not valid")
    else if Key(bookId, userId) !in reviews then Error(404, "Review not found")
    else Ok(reviews[Key(bookId, userId)])
  }

  /** What getReview shows right after an upsert is what was written. */
  lemma ReadYourReview(m: map<Key, Review>, bookId: Id, userId: Id, r: Review, isValidObjectId: Id -> bool)
    requires isValidObjectId(bookId)
    ensures GetReview(m[Key(bookId, userId) := r], bookId, userId, isValidObjectId) == Ok(r)
  {
  }

  /** `iso.split("T")[0]`: the part of the timestamp before its first "T"
      (the whole string when there is none). */
  function DatePart(iso: string): (r: string)
    ensures r <= iso
    ensures 'T' !in r
    ensures r == iso || iso[|r|] == 'T'
  {
    if iso == [] || iso[0] == 'T' then []
    else [iso[0]] + DatePart(iso[1..])
  }

  /** For a timestamp shaped like toISOString's "YYYY-MM-DDTHH:mm:ss.sssZ", the
      date is its first ten characters. */
  lemma DatePartOfIsoTimestamp(iso: string)
    requires |iso| > 10 && iso[10] == 'T' && 'T' !in iso[..10]
    ensures DatePart(iso) == iso[..10]
  {
  }

  /** A stored review document as the find query returns it. */
  datatype ReviewDoc = ReviewDoc(id: Id, book: Id, user: Id, content: string, rating: int, createdAt: string)

  /** The user fields populated into a public review. */
  datatype PublicUser = PublicUser(id: Id, name: string, avatar: Option<Asset>)

  datatype PublicReview = PublicReview(id: Id, content: string, date: string, rating: int, user: PublicUser)

  /** `find({ book })`: the documents of that book, each as often as the store
      holds it. The store promises no order without a sort. */
  function ForBook(docs: seq<ReviewDoc>, book: Id): (r: seq<ReviewDoc>)
    ensures forall i :: 0 <= i < |r| ==> r[i].book == book
    ensures forall d :: d in docs && d.book == book ==> d in r
    ensures forall d :: d in r ==> d in docs
    ensures forall d :: multiset(r)[d] == if d.book == book then multiset(docs)[d] else 0
  {
    if docs == [] then []
    else
      assert forall d :: d in docs && d != docs[0] ==> d in docs[1..];
      assert docs == [docs[0]] + docs[1..];
      (if docs[0].book == book then [docs[0]] else []) + ForBook(docs[1..], book)
  }

  /** The `reviews.map(...)` projection: defined exactly when every review's
      user exists (populate gives null otherwise and the handler throws); one
      entry per review, in order, with its date cut from the timestamp. */
  function PublicViews(docs: seq<ReviewDoc>, users: map<Id, PublicUser>): (r: Option<seq<PublicReview>>)
    ensures r.Some? <==> forall i :: 0 <= i < |docs| ==> docs[i].user in users
    ensures r.Some? ==> |r.value| == |docs|
    ensures r.Some? ==> forall i :: 0 <= i < |docs| ==>
      r.value[i].id == docs[i].id && r.value[i].content == docs[i].content
      && r.value[i].rating == docs[i].rating && r.value[i].date == DatePart(docs[i].createdAt)
      && r.value[i].user == users[docs[i].user]
  {
    if forall i :: 0 <= i < |docs| ==> docs[i].user in users then
      Some(seq(|docs|, i requires 0 <= i < |docs| => PublicView(docs[i], users[docs[i].user])))
    else None
  }

  function PublicView(d: ReviewDoc, user: PublicUser): PublicReview
  {
    PublicReview(d.id, d.content, DatePart(d.createdAt), d.rating, user)
  }

  /** getPublicReviews: every review of the book with its author's public
      fields; it has no error response of its own. */
  function GetPublicReviews(docs: seq<ReviewDoc>, bookId: Id, users: map<Id, PublicUser>): (r: Reply<seq<PublicReview>>)
    ensures !r.Error?
    ensures r.Ok? <==> forall d :: d in docs && d.book == bookId ==> d.user in users
    ensures r.Ok? ==> |r.body| == |ForBook(docs, bookId)|
    ensures r.Ok? ==> Some(r.body) == PublicViews(ForBook(docs, bookId), users)
    ensures r.Ok? ==> forall v :: v in r.body ==>
      exists d :: d in docs && d.book == bookId && v.id == d.id && v.date == DatePart(d.createdAt)
    ensures r.Ok? ==> forall d :: d in docs && d.book == bookId ==>
      exists v :: v in r.body && v.id == d.id && v.content == d.content && v.rating == d.rating
        && v.date == DatePart(d.createdAt) && v.user == users[d.user]
  {
    var found := ForBook(docs, bookId);
    match PublicViews(found, users)
    case Some(views) =>
      ViewsMatchDocs(found, users, views);
      Ok(views)
    case None => Thrown
  }

  /** Each public view comes from one of the documents, and each document has
      its view. */
  lemma ViewsMatchDocs(found: seq<ReviewDoc>, users: map<Id, PublicUser>, views: seq<PublicReview>)
    requires PublicViews(found, users) == Some(views)
    ensures forall v :: v in views ==> exists d :: d in found && v.id == d.id && v.date == DatePart(d.createdAt)
    ensures forall d :: d in found ==>
      exists v :: v in views && v.id == d.id && v.content == d.content && v.rating == d.rating &&
                  v.date == DatePart(d.createdAt) && v.user == users[d.user]
  {
    forall v | v in views
      ensures exists d :: d in found && v.id == d.id && v.date == DatePart(d.createdAt)
    {
      var i :| 0 <= i < |views| && views[i] == v;
      assert found[i] in found;
    }
    forall d | d in found
      ensures exists v :: v in views && v.id == d.id && v.content == d.content && v.rating == d.rating &&
                          v.date == DatePart(d.createdAt) && v.user == users[d.user]
    {
      var i :| 0 <= i < |found| && found[i] == d;
      assert views[i] in views;
    }
  }

  /** The aggregate query itself: one pass over the review table, in
      whatever order the store visits it, summing and counting the ratings of
      the book's reviews. */
  method Aggregate(reviews: map<Key, Review>, bookId: Id) returns (sum: int, count: nat)
    ensures sum == RatingSum(reviews, reviews.Keys, bookId)
    ensures count == ReviewCount(reviews.Keys, bookId)
  {
    sum, count := 0, 0;
    var pending := reviews.Keys;
    while pending != {}
      invariant pending <= reviews.Keys
      invariant sum + RatingSum(reviews, pending, bookId) == RatingSum(reviews, reviews.Keys, bookId)
      invariant count + ReviewCount(pending, bookId) == ReviewCount(reviews.Keys, bookId)
      decreases pending
    {
      var k :| k in pending;
      SumRemove(reviews, pending, k, bookId);
      CountRemove(pending, k, bookId);
      if k.book == bookId {
        sum, count := sum + reviews[k].rating, count + 1;
      }
      pending := pending - {k};
    }
  }

  /** The review and book collections: the reviews by (book, user), the ids of
      the existing books, and the averageRating stored on those books that have one. */
  class ReviewStore {
    var reviews: map<Key, Review>
    var books: set<Id>
    var averageRating: map<Id, real>

    /** Every stored average is the mean of its book's current reviews. */
    ghost predicate Valid()
      reads this
    {
      && averageRating.Keys <= books
      && forall b :: b in averageRating ==> ReviewCount(reviews.Keys, b) > 0 && averageRating[b] == Mean(reviews, b)
    }

    constructor (books: set<Id>)
      ensures Valid()
      ensures this.books == books && reviews == map[] && averageRating == map[]
    {
      this.books := books;
      reviews := map[];
      averageRating := map[];
    }

    /** addReview: upsert the user's review of the book, aggregate the book's
        reviews, and store their mean on the book (when the book exists). */
    method AddReview(bookId: Id, userId: Id, content: string, rating: int)
      requires Valid()
      modifies this
      ensures Valid()
      ensures reviews == old(reviews)[Key(bookId, userId) := Review(content, rating)]
      ensures books == old(books)
      ensures ReviewCount(reviews.Keys, bookId) > 0
      ensures averageRating == if bookId in books then old(averageRating)[bookId := Mean(reviews, bookId)]
                               else old(averageRating)
    {
      var key := Key(bookId, userId);
      reviews := reviews[key := Review(content, rating)];

      var sum, count := Aggregate(reviews, bookId);
      UpsertNonEmpty(old(reviews), key, Review(content, rating));
      assert count > 0;
      if bookId in books {
        averageRating := averageRating[bookId := sum as real / count as real];
      }

      forall b | b in averageRating && b != bookId
        ensures RatingSum(reviews, reviews.Keys, b) == RatingSum(old(reviews), old(reviews).Keys, b)
        ensures ReviewCount(reviews.Keys, b) == ReviewCount(old(reviews).Keys, b)
      {
        UpsertAggregate(old(reviews), key, Review(content, rating), b);
      }
    }
  }
}
