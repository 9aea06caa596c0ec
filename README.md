# Bookstore controllers: cart, reading history, reviews, orders

A Dafny model of the request handlers of a bookstore backend (Express over a
MongoDB document store) that hold collection logic of their own:

- **Cart** (`cart.dfy`): `updateCart` merges a batch of `(product, quantity)`
  entries into the user's cart in batch order. An entry for a product already
  in the cart replaces its quantity, because the source writes `=+`, which
  assigns. If the new quantity is not positive, that one entry is dropped. A
  product not yet in the cart is appended, whatever its quantity. A user
  without a cart gets one holding the batch verbatim. `clearCart` empties an
  existing cart. `getCart` shows a cart with prices rendered from cents.
  `CartStore` is a class whose `carts` map the methods reassign. The merge
  loop is proved against the specification function `MergeBatch`. Lemmas then
  compare `MergeBatch` with an independent per-product reference (`Replay` of
  `Step`).
- **Reading history** (`history.dfy`): `updateBookHistory` creates the
  record, or overwrites `lastLocation` when a truthy one is supplied, then
  either appends the incoming highlights or, with `remove`, filters out every
  stored highlight whose selection an incoming one mentions.
  `getBookHistory` guards the id and projects the record.
- **Reviews** (`reviews.dfy`): the review table is a map from `(book, user)`
  to `(content, rating)`. `addReview` upserts into it, aggregates the book's
  ratings in one pass over the table (`Aggregate`), and stores the mean as an
  exact `real` on the book. `ReviewStore.Valid` states that every stored
  average is the mean of its book's current reviews, and `AddReview`
  preserves it. `getReview` and `getPublicReviews` are guards and
  projections. The public date is the ISO timestamp's part before `"T"`.
- **Orders** (`orders.dfy`, `money.dfy`): integer cents are rendered as
  `(cents / 100).toFixed(2)`. `Money` renders the signed whole part without
  leading zeros, a dot and two digits. It proves that `ParseCents` reads the
  amount back, and that `FormatCents` is the only such rendering of the
  amount. This agrees with the double arithmetic for |cents| < 100·2^46
  (about 7.04·10^15). There the double nearest cents/100 lies within 0.004 of
  it, so `toFixed(2)` rounds back to the same two decimals. Also modelled: the `totalAmount` `"0"`
  fallback, the order-line projection, `getOrderStatus` as written, and the
  `sessionId` guard of `getOrderSuccessStatus`.

Handler outcomes are `Common.Reply`. `Ok` is the JSON body. `Error` is a
`sendErrorResponse` with its status and message. `Thrown` is an exception
that reaches the error middleware, which answers 500. Storage lookups are maps
or sequences. `isValidObjectId` is a parameter of type `Id -> bool`, so
nothing about it is assumed.

Three behaviours of the code that the model keeps:
- Quantities are replaced, not added: `cart.ts:22` writes `=+`, which assigns.
- `getOrderStatus` returns `status: false` without a lookup when the id IS
  valid (`order.ts:60`), the opposite of the comment at `order.ts:59`. See
  Findings.
- The location is updated whether or not `remove` is set (`history.ts:28`).

Two readings of the source that the model depends on:
- `cart.ts:25-27` compares the found entry's ObjectId with `!==`, which is
  reference identity. So the filter removes exactly the entry `find`
  returned, even if an earlier verbatim cart held the product twice.
  `ApplyEntry` removes that one index.
- The order-success branch at `order.ts:86` tests the never-assigned
  `customer`, not `customerId`. So it cannot be taken, and every string
  `sessionId` whose session lookup does not throw ends in the 500 at line 131.

## Model

| member | source | states |
|---|---|---|
| Cart.CartStore.UpdateCart | src/controllers/cart.ts:7-40 | No cart: a cart is created holding the batch verbatim. Otherwise the cart's items become MergeBatch of the old items and the batch, its id is kept, and no other user's cart changes. Returns the cart id. |
| Cart.FindProduct | src/controllers/cart.ts:18-20 | The `find` loop returns the index of the first entry for the product, or -1 (equals FindIndex). |
| Cart.FindIndex | src/controllers/cart.ts:18-20 | The result is -1 or an index holding the product, and no earlier entry holds it (no entry at all when -1). |
| Cart.ApplyEntryQuantity | src/controllers/cart.ts:18-34 | On a cart with distinct products, one entry changes its own product's quantity as Step says: replaced, dropped when not positive, appended when unseen (even if not positive). Every other product's quantity is unchanged. |
| Cart.MergeQuantity | src/controllers/cart.ts:17-35 | On a distinct cart, each product's quantity after the whole batch equals replaying that product's batch quantities, left to right, through Step. Each entry sees the earlier ones' effects, and unnamed products keep theirs. |
| Cart.ReplaceNotSum | src/controllers/cart.ts:21-28 | A product held with 3 and sent with 2 ends with 2, not 5. Sent with 0, it leaves the cart. |
| Cart.MergeKeepsOthers | src/controllers/cart.ts:17-35 | Entries whose product the batch does not name survive with their quantities and relative order. This holds for any cart. |
| Cart.MergeDistinct | src/controllers/cart.ts:18-34 | If the cart's product ids are distinct, they stay distinct after the merge. |
| Cart.ApplyEntryDistinct | src/controllers/cart.ts:18-34 | One merge step keeps product ids distinct, since it appends only when `find` fails. |
| Cart.CartStore.ClearCart | src/controllers/cart.ts:82-85 | An existing cart keeps its id and gets an empty item list. Without a cart nothing changes, because there is no upsert. |
| Cart.GetCart | src/controllers/cart.ts:42-80 | Returns 404 "Cart not found" exactly when the user has no cart, and no other error response. It throws exactly when the user has a cart with an entry whose product is missing. Otherwise it succeeds with the cart id and LineViews. |
| Cart.LineViews | src/controllers/cart.ts:65-77 | One view per entry, in order, with the same quantity, product id, title, slug and cover url. mrp and sale are the FormatCents rendering of the stored cents, so they read back as them and a zero price shows as "0.00". Defined exactly when every product exists. |
| History.HistoryStore.UpdateBookHistory | src/controllers/history.ts:7-44 | No record: one is created with the given highlights (empty if missing) and lastLocation, even with remove set. With a record: lastLocation is overwritten only when truthy. Highlights are unchanged when the batch is empty or missing, appended after the old ones without remove, filtered by RemoveSelections with remove. Other records are unchanged. |
| History.RemoveSelections | src/controllers/history.ts:34-38 | Every kept highlight has a selection no incoming highlight mentions. Every stored highlight whose selection is unmentioned is kept. Nothing new appears. |
| History.RemoveSelectionsAppend | src/controllers/history.ts:35-37 | Removal distributes over concatenation, so kept highlights stay in stored order. |
| History.KeepsUnmentioned | src/controllers/history.ts:35-37 | A batch that mentions no stored selection removes nothing. |
| History.RemoveExactlyOne | src/controllers/history.ts:34-38 | A batch that mentions one stored highlight's selection and no other removes exactly that entry. |
| History.RemoveSelectionsIdempotent | src/controllers/history.ts:35-37 | Applying the same removal batch twice equals applying it once. |
| History.GetBookHistory | src/controllers/history.ts:46-75 | Returns 422 exactly for an invalid id and 404 exactly for a valid id without a record. Otherwise it returns lastLocation and every highlight's (fill, selection), in stored order. |
| Reviews.ReviewStore.AddReview | src/controllers/review.ts:8-42 | The review table becomes the old one with (book, user) set to the given content and rating, so other keys are unchanged. The book has at least one review. If the book exists, only its averageRating changes, to the mean of its reviews' ratings. Valid (every stored average equals its book's mean) is preserved. |
| Reviews.Aggregate | src/controllers/review.ts:20-33 | The aggregate pass returns the sum and the number of the book's ratings, whatever order it visits the table in. |
| Reviews.SumRemove | src/controllers/review.ts:20-33 | The rating sum does not depend on visiting order: any review can be taken out first. |
| Reviews.CountRemove | src/controllers/review.ts:20-33 | The same holds for the review count. |
| Reviews.SumAgree | src/controllers/review.ts:20-33 | The aggregate depends only on the ratings of the book's own reviews. |
| Reviews.UpsertAggregate | src/controllers/review.ts:13-37 | Another book's sum and count are unchanged. For its own book, a new key adds its rating and one to the count. An existing key has its old rating replaced, and the count stays the same. |
| Reviews.UpsertNonEmpty | src/controllers/review.ts:13-36 | After the upsert the book has at least one review, so `result` at line 36 is always defined. |
| Reviews.MeanBounds | src/controllers/review.ts:20-37 | The average lies between the lowest and the highest rating given. |
| Reviews.TwoRatingsAverage | src/controllers/review.ts:13-37 | Two users rating a book without reviews 5 and 3 give it an average of 4. |
| Reviews.LatestReviewWins | src/controllers/review.ts:13-17 | After any sequence of upserts, each (book, user) holds its last call's review, and keys no call named are as before. |
| Reviews.GetReview | src/controllers/review.ts:44-69 | Returns 422 exactly for an invalid id and 404 exactly for a missing review. Otherwise it returns that review's content and rating. |
| Reviews.ReadYourReview | src/controllers/review.ts:56-68 | After an upsert with a valid id, getReview returns what was written. |
| Reviews.DatePart | src/controllers/review.ts:89 | The date is a prefix of the timestamp with no "T" in it. It is the whole timestamp or stops at its first "T". |
| Reviews.DatePartOfIsoTimestamp | src/controllers/review.ts:89 | For a "YYYY-MM-DDTHH:mm:ss.sssZ" timestamp, the date is its first ten characters. |
| Reviews.ForBook | src/controllers/review.ts:79 | The query returns each document of the book exactly as many times as the store holds it, and no other document. |
| Reviews.PublicViews | src/controllers/review.ts:85-97 | One entry per review, in order, with its id, content, rating, date part and populated user. Defined exactly when every review's user exists. |
| Reviews.GetPublicReviews | src/controllers/review.ts:78-99 | Never answers with an error response. It succeeds exactly when every author of the book's reviews exists (otherwise it throws). Then it has one entry per review of the book. Each entry comes from one of the book's reviews and carries its date part. Every review of the book appears with its id, content, rating, date part and populated user. The body is PublicViews of the found documents, in the order the query returns them. |
| Money.FormatCentsRoundTrip | src/controllers/order.ts:43-44 | `(cents / 100).toFixed(2)` reads back as exactly the stored cents. |
| Money.FormatCents | src/controllers/order.ts:43-44 | The display string starts with "-" exactly for a negative amount. After that come whole units without leading zeros, a dot and exactly two digits. |
| Money.ParseFormatRoundTrip | src/controllers/order.ts:43-44 | Any string that reads back as an amount, with "-" exactly when it is negative, is FormatCents of that amount. So the rendering is unique. |
| Money.FormatCentsInjective | src/controllers/order.ts:43-44 | Different amounts never display alike. |
| Money.FormatCentsExample | src/controllers/order.ts:43-44 | 1099 displays as "10.99", 5 as "0.05" and -250 as "-2.50". |
| Money.DecimalValue | src/controllers/order.ts:43 | The whole-unit numeral reads back as its number. |
| Orders.TotalAmountText | src/controllers/order.ts:31-32 | Gives "0" exactly when the amount is missing or zero. Otherwise it gives FormatCents of the amount, which reads back as the amount. |
| Orders.ItemViews | src/controllers/order.ts:35-46 | One view per line, in order, with the same qty, book id, title, slug and cover url. price and totalPrice are the FormatCents rendering of the stored cents, so they read back as them and a zero price shows as "0.00". Defined exactly when every line's book exists. |
| Orders.OrderViews | src/controllers/order.ts:26-49 | Defined exactly when the book of every line of every order exists. Then it has one view per order, in order, with the order's id, payment fields and createdAt. totalAmount uses the "0" fallback, and the lines are ItemViews of the order's lines. |
| Orders.GetOrders | src/controllers/order.ts:11-51 | Never answers with an error response. It succeeds exactly when every line's book exists, and then its body is OrderViews of the orders: every order's id, payment fields and date, totalAmount with the "0" fallback, and each line's qty, book fields, price and totalPrice reading back as the stored cents. |
| Orders.OrderStatus | src/controllers/order.ts:53-66 | As written: a valid ObjectId gives status false with no lookup. Otherwise the store is queried, and the status is true exactly when the user owns the book. |
| Orders.OrderStatusIntended | src/controllers/order.ts:57-60 | As the guard's comment describes: an invalid id gives false with no lookup, and a valid one is true exactly when the user owns the book. |
| Orders.InvertedGuardWitness | src/controllers/order.ts:59-60 | An owner asking about a valid id of a book it owns gets false from the code as written and true from the intended guard. |
| Orders.OrderStatusDiffers | src/controllers/order.ts:57-65 | The two guards disagree exactly when the user owns the book. |
| Orders.OrderSuccessStatus | src/controllers/order.ts:68-136 | A non-string sessionId gives 400 "Invalid sessionId" before any gateway call. A string gives either the gateway's exception or the 500 "Something went wrong order not found!". It never succeeds. |

## Findings

| source | as written | input that shows it | evidently intended | confidence | as-written member | corrected member |
|---|---|---|---|---|---|---|
| src/controllers/order.ts:60 | `if(isValidObjectId(bookId)) return res.json({ status })` returns `false` for every well-formed id and queries the store only for malformed ones | user "u1" owns book "b1", which is a valid id: the handler answers `{ status: false }` | return early when the id is NOT valid, as the comment on line 59 says, so that owners get `true` | high (not executed) | Orders.OrderStatus (with Orders.InvertedGuardWitness) | Orders.OrderStatusIntended |

The rest of the model keeps the handler as written (`Orders.OrderStatus`).

## Left out

- Stripe session and customer retrieval (`order.ts:80-129`): these are calls into the payment gateway. Their outcome is the parameter `sessionLookupThrows`, and the branch that would load the order is dead code.
- Casting of ids in queries (a malformed id makes a query throw a CastError) and ObjectId construction: ids are opaque strings. With casting, the lookup in `getOrderStatus` would only ever see malformed ids.
- Mongoose `populate` is a map lookup. A missing referenced document gives `Thrown`, because the handler dereferences null. `sort("-createdAt")` is not modelled: orders are taken in the order given.
- Generated `_id`s: `UpdateCart` takes the new cart's id as a parameter. Subdocument ids of highlights are not modelled.
- Money.FormatCents: models `toFixed(2)` for integer cents exactly. The double result is guaranteed to agree only for |cents| < 100·2^46 (about 7.04·10^15). Above that, the double nearest cents/100 can be off by more than half a cent: cents 7036874417766401 is shown as "70368744177664.02". Exponent notation above 10^21 is out of scope. `$avg` is the exact rational mean. NaN amounts are not modelled.
- Fractional quantities and ratings: `Cart.CartItem` and `Reviews.Review` hold integers. The handlers accept any JavaScript number, so a quantity of 0.5 passes the `<= 0` test at `cart.ts:24` and is kept, and a rating of 4.5 is stored and averaged (`review.ts:13-33`). The merge, filter and aggregate lemmas use only comparison, equality and addition on these values, so they carry over to fractions unchanged. The model does not represent them.
- JavaScript truthiness is modelled where the handlers branch on it (`lastLocation`, `highlights?.length`, `totalAmount`). `remove` is a boolean. Request values are assumed to have their declared types, except `sessionId`, whose type the handler checks.
- Races between the upsert, the aggregate and the book update in `addReview`: each handler runs as one atomic step.
- `addReview` answers `{ message: "Review updated" }` in every case. The model keeps only the state change.
- `src/controllers/author.ts`, `src/middlewares/error.ts`, `src/cloud/aws.ts` and `src/db/index.ts` are not part of this model. Author registration uses a slug library and store writes. Its rating display is float formatting. The others are an error-class dispatch and client bootstrap.
