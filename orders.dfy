/** The order handlers: the order list with its prices rendered for display,
    the "does this user own this book" status, and the guard in front of the
    payment-session lookup. */
module Orders {
  import opened Common
  import Money

  /** The fields of a book document that the order views read after populate. */
  datatype Book = Book(id: Id, title: string, slug: string, cover: Option<Asset>)

  /** One stored order line: a book reference, prices in cents, a quantity. */
  datatype OrderLine = OrderLine(book: Id, price: int, qty: int, totalPrice: int)

  /** A stored order. totalAmount is None when the document has no value. */
  datatype Order = Order(
    id: Id, stripeCustomerId: string, paymentId: string, totalAmount: Option<int>,
    paymentStatus: string, createdAt: string, orderItems: seq<OrderLine>)

  datatype OrderItemView = OrderItemView(
    id: Id, title: string, slug: string, cover: Option<string>,
    qty: int, price: string, totalPrice: string)

  datatype OrderView = OrderView(
    id: Id, stripeCustomerId: string, paymentId: string, totalAmount: string,
    paymentStatus: string, date: string, orderItem: seq<OrderItemView>)

  /** `totalAmount ? (totalAmount / 100).toFixed(2) : "0"`: a missing or zero
      amount is shown as "0", any other amount with two decimals. */
  function TotalAmountText(total: Option<int>): (r: string)
    ensures r == "0" <==> total == None || total == Some(0)
    ensures total.Some? && total.value != 0 ==> Money.ParseCents(r) == Some(total.value)
    ensures total.Some? && total.value != 0 ==> r == Money.FormatCents(total.value)
  {
    if total == None || total == Some(0) then "0"
    else Money.FormatCentsRoundTrip(total.value); Money.FormatCents(total.value)
  }

  /** The view of one order line whose book populate found. */
  function ItemView(line: OrderLine, book: Book): (v: OrderItemView)
    ensures v.qty == line.qty && v.id == book.id && v.title == book.title
    ensures v.slug == book.slug && v.cover == UrlOf(book.cover)
    ensures Money.ParseCents(v.price) == Some(line.price)
    ensures Money.ParseCents(v.totalPrice) == Some(line.totalPrice)
    ensures v.price == Money.FormatCents(line.price) && v.totalPrice == Money.FormatCents(line.totalPrice)
  {
    Money.FormatCentsRoundTrip(line.price);
    Money.FormatCentsRoundTrip(line.totalPrice);
    OrderItemView(book.id, book.title, book.slug, UrlOf(book.cover), line.qty,
                  Money.FormatCents(line.price), Money.FormatCents(line.totalPrice))
  }

  /** The `orderItems.map(...)` projection: defined exactly when every line's
      book exists (populate leaves null otherwise and the handler throws); it
      keeps the number, order and quantity of the lines, and each price reads
      back as the stored cents. */
  function ItemViews(lines: seq<OrderLine>, books: map<Id, Book>): (r: Option<seq<OrderItemView>>)
    ensures r.Some? <==> forall i :: 0 <= i < |lines| ==> lines[i].book in books
    ensures r.Some? ==> |r.value| == |lines|
    ensures r.Some? ==> forall i :: 0 <= i < |lines| ==>
      var v, line := r.value[i], lines[i];
      && v.qty == line.qty
      && v.id == books[line.book].id
      && v.title == books[line.book].title
      && v.slug == books[line.book].slug
      && v.cover == UrlOf(books[line.book].cover)
      && Money.ParseCents(v.price) == Some(line.price)
      && Money.ParseCents(v.totalPrice) == Some(line.totalPrice)
      && v.price == Money.FormatCents(line.price)
      && v.totalPrice == Money.FormatCents(line.totalPrice)
  {
    if forall i :: 0 <= i < |lines| ==> lines[i].book in books then
      Some(seq(|lines|, i requires 0 <= i < |lines| => ItemView(lines[i], books[lines[i].book])))
    else None
  }

  function OrderViewOf(order: Order, books: map<Id, Book>): Option<OrderView>
  {
    match ItemViews(order.orderItems, books)
    case Some(items) =>
      Some(OrderView(order.id, order.stripeCustomerId, order.paymentId,
                     TotalAmountText(order.totalAmount), order.paymentStatus,
                     order.createdAt, items))
    case None => None
  }

  /** The `orders.map(...)` projection: defined exactly when the book of every
      line of every order exists; one view per order, in order, keeping the
      order's fields, with totalAmount rendered with its "0" fallback and the
      lines projected by ItemViews. */
  function OrderViews(orders: seq<Order>, books: map<Id, Book>): (r: Option<seq<OrderView>>)
    ensures r.Some? <==> forall i, j :: 0 <= i < |orders| && 0 <= j < |orders[i].orderItems| ==>
      orders[i].orderItems[j].book in books
    ensures r.Some? ==> |r.value| == |orders|
    ensures r.Some? ==> forall i :: 0 <= i < |orders| ==>
      var v, o := r.value[i], orders[i];
      && v.id == o.id
      && v.stripeCustomerId == o.stripeCustomerId
      && v.paymentId == o.paymentId
      && v.paymentStatus == o.paymentStatus
      && v.date == o.createdAt
      && v.totalAmount == TotalAmountText(o.totalAmount)
      && Some(v.orderItem) == ItemViews(o.orderItems, books)
  {
    if forall i :: 0 <= i < |orders| ==> OrderViewOf(orders[i], books).Some? then
      Some(seq(|orders|, i requires 0 <= i < |orders| => OrderViewOf(orders[i], books).value))
    else None
  }

  /** getOrders: the user's orders (as the store returns them) with their lines
      populated and prices rendered. It never answers with an error response: it
      either succeeds or throws on a line whose book is missing. */
  function GetOrders(orders: seq<Order>, books: map<Id, Book>): (r: Reply<seq<OrderView>>)
    ensures !r.Error?
    ensures r.Ok? ==> Some(r.body) == OrderViews(orders, books)
    ensures r.Ok? <==> forall i, j :: 0 <= i < |orders| && 0 <= j < |orders[i].orderItems| ==>
      orders[i].orderItems[j].book in books
    ensures r.Ok? ==> |r.body| == |orders| && forall i :: 0 <= i < |orders| ==>
      var v, o := r.body[i], orders[i];
      && v.id == o.id
      && v.totalAmount == TotalAmountText(o.totalAmount)
      && |v.orderItem| == |o.orderItems|
      && forall j :: 0 <= j < |o.orderItems| ==>
           v.orderItem[j].qty == o.orderItems[j].qty
           && Money.ParseCents(v.orderItem[j].price) == Some(o.orderItems[j].price)
  {
    match OrderViews(orders, books)
    case Some(views) => Ok(views)
    case None => Thrown
  }

  /** The JSON `{ status }` of getOrderStatus, and whether the user store was queried. */
  datatype StatusReply = StatusReply(status: bool, queried: bool)

  /** getOrderStatus as written: the guard returns `status: false` without a
      lookup when the id IS a valid ObjectId; only an id that is not valid
      reaches the lookup, whose answer is whether that user owns the book.
      `owned` maps each user id to the book ids it owns. */
  function OrderStatus(bookId: Id, userId: Id, isValidObjectId: Id -> bool, owned: map<Id, seq<Id>>): (r: StatusReply)
    ensures isValidObjectId(bookId) ==> r == StatusReply(false, false)
    ensures !isValidObjectId(bookId) ==> r.queried
    ensures r.status <==> !isValidObjectId(bookId) && userId in owned && bookId in owned[userId]
  {
    if isValidObjectId(bookId) then StatusReply(false, false)
    else StatusReply(userId in owned && bookId in owned[userId], true)
  }

  /** The behaviour the comment at order.ts:59 describes: a
      malformed id answers false without a lookup, a well-formed one asks the store. */
  function OrderStatusIntended(bookId: Id, userId: Id, isValidObjectId: Id -> bool, owned: map<Id, seq<Id>>): (r: StatusReply)
    ensures !isValidObjectId(bookId) ==> r == StatusReply(false, false)
    ensures r.status <==> isValidObjectId(bookId) && userId in owned && bookId in owned[userId]
  {
    if !isValidObjectId(bookId) then StatusReply(false, false)
    else StatusReply(userId in owned && bookId in owned[userId], true)
  }

  /** The guard is inverted: an owner asking about a well-formed id of a book it
      owns is told false, where the intended handler says true. */
  lemma InvertedGuardWitness()
    ensures var valid := (s: Id) => s == "b1";
      var owned := map["u1" := ["b1"]];
      !OrderStatus("b1", "u1", valid, owned).status
      && OrderStatusIntended("b1", "u1", valid, owned).status
  {
  }

  /** For every id the two versions disagree exactly on an owned book. */
  lemma OrderStatusDiffers(bookId: Id, userId: Id, isValidObjectId: Id -> bool, owned: map<Id, seq<Id>>)
    ensures OrderStatus(bookId, userId, isValidObjectId, owned).status
            != OrderStatusIntended(bookId, userId, isValidObjectId, owned).status
            <==> userId in owned && bookId in owned[userId]
  {
  }

  /** The sessionId field of the request body: a string, or any other JSON value (or none). */
  datatype SessionParam = SessionString(s: string) | NotAString

  /** getOrderSuccessStatus: a sessionId that is not a string is answered 400
      before the payment gateway is called. A string goes to the gateway; if the
      session lookup throws, the error middleware answers. Otherwise the branch
      that would load the order tests the never-assigned `customer` variable, so
      it cannot be taken and the handler always ends in its 500 response. */
  function OrderSuccessStatus(sessionId: SessionParam, sessionLookupThrows: bool): (r: Reply<seq<OrderItemView>>)
    ensures sessionId.NotAString? ==> r == Error(400, "Invalid sessionId")
    ensures sessionId.SessionString? && sessionLookupThrows ==> r == Thrown
    ensures sessionId.SessionString? && !sessionLookupThrows ==>
      r == Error(500, "Something went wrong order not found!")
    ensures !r.Ok?
  {
    match sessionId
    case NotAString => Error(400, "Invalid sessionId")
    case SessionString(_) =>
      if sessionLookupThrows then Thrown
      else Error(500, "Something went wrong order not found!")
  }
}
