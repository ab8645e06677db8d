# E-commerce storefront core in Dafny

This project models the sequential business rules of a small storefront (an
Express API over a document store, plus a React client) as pure functions
over immutable records. Prices are `real`, so arithmetic is exact rational
arithmetic. Quantities and stock are `nat`.

The modules follow the source files:

- `Common` (common.dfy): string identifiers, `Option`, `Result` with one
  `Error` per handler message, and the `Math.round` / `Math.ceil` helpers.
- `Catalog` (catalog.dfy): `server/routes/products.js`. It covers the
  product listing, the featured list and the review guard:
  - the listing keeps active products and applies the conjunctive filters
    (category, inclusive price range, minimum rating, brand, comma-split
    tag overlap);
  - it maps the `sort` parameter to a key and sorts;
  - it cuts the 1-indexed page (default page 1, default limit 12) and
    counts `total` and `pages`;
  - the featured list is at most 8 featured, active products, newest
    first;
  - a user may review a product once.
- `Carts` (cart.dfy): `server/routes/cart.js`. A cart is a sequence of lines
  `{product, quantity, price}`. Every handler returns a `Reply`, which
  carries the answer and the cart store left behind. This makes "a failure
  changes nothing" a checked contract rather than something true by
  construction. The handlers are get-or-create, add (merge or append),
  update, remove and clear.
- `Payment` (payment.dfy): `server/routes/payment.js`. It covers the
  ownership check and cents conversion when an intent is requested. It
  also covers the webhook as a function
  `(sigValid, event, orders, clock) -> (response, orders')`. The order
  status enum is `pending | processing | shipped | delivered | cancelled`.
  `Cancellable` is the client's cancel-button guard
  (client/src/pages/OrderDetail.jsx:211).
- `Utils` (utils.dfy): `calculateDiscount` and `truncateText` from
  `client/src/lib/utils.js`.
- `Pricing` (pricing.dfy): the checkout pricing rule, in
  `client/src/pages/Checkout.jsx:41-44`:
  - shipping is free strictly above 100 and 10 otherwise;
  - tax is 10 %;
  - the total is the sum.

  The cart page's summary restates the same rule, and a lemma proves the
  two agree.

Assumptions about code that is not part of this model:

- `server/models/Cart.js` is not part of this model. `calculateTotals` is
  assumed to set `totalItems = Σ quantity` and `totalPrice = Σ price ×
  quantity` over the current lines (`Carts.CalculateTotals`).
- The empty cart `get-or-create` stores (server/routes/cart.js:15) relies on
  the cart schema's defaults for `totalItems` and `totalPrice`. They are
  assumed to be 0 and 0.0 (`Carts.EmptyCart`).
- `server/models/Product.js` is not part of this model.
  `calculateAverageRating` is assumed to set `rating` to the arithmetic mean
  of the review ratings (0 with no reviews) and `numReviews` to their count
  (`Catalog.CalculateAverageRating`).

The model follows the handlers as written, including where they disagree
with the client or with each other:

- Removing from, or clearing, a user who has no cart fails with
  `CartNotFound`. It is not a no-op.
- The add stock check compares only the requested increment with the
  stock, never the cumulative line quantity. `Carts.StockCheckIsIncremental`
  exhibits two successful adds that leave a line above the stock.
- A successful payment sets the status to `processing` whatever the prior
  status was (server/routes/payment.js:86), including `cancelled` and
  `delivered`. The order page offers a cancel button only for `pending` and
  `processing` (client/src/pages/OrderDetail.jsx:211), so a late success
  re-opens cancellation of an order that was cancelled or delivered
  (`Payment.LateSuccessReopens`).
- `update` on a product that was deleted from the catalog after being added
  reads `stock` of null. That throws, and the handler answers 500
  (`ServerError`).

## Model

| member | source | states |
|---|---|---|
| Carts.EmptyCart | server/routes/cart.js:15 | (assumed schema defaults) a new cart belongs to the user, has no lines, and its totals match its lines |
| Carts.GetOrCreate | server/routes/cart.js:10-21 | returns the stored cart when the user has one; otherwise it stores and returns an empty cart, and no other user's cart changes |
| Carts.GetOrCreateIdempotent | server/routes/cart.js:12-16 | a second get-or-create returns the same cart and store as the first |
| Carts.FindLine | server/routes/cart.js:61-63 | `findIndex`: -1 exactly when no line has the product; otherwise the index of the first line that has it |
| Carts.CalculateTotals | server/routes/cart.js:77 | (assumed body) keeps user and lines, and sets totals equal to Σ quantity and Σ price×quantity over the lines |
| Carts.AddItem | server/routes/cart.js:33-84 | unknown product → ProductNotFound; stock < quantity → InsufficientStock; both leave the store unchanged. Success iff the product exists and has quantity ≤ stock. A present product gets exactly `quantity` more units on the line `findIndex` returns (`FindLine`), keeping its price and every other line. An absent product is appended at the end at the current price. Only this user's cart is replaced, its totals match, and product uniqueness is preserved |
| Carts.AddLine | server/routes/cart.js:60-74 | the line `findIndex` returns (`FindLine`) grows by the quantity and nothing else changes; otherwise one new line at the current price is appended; unique products stay unique |
| Carts.AddLineTotals | server/routes/cart.js:60-77 | the line totals grow by exactly the added units, at the merged line's captured price or the product's current price |
| Carts.AddItemTotals | server/routes/cart.js:60-77 | from matching totals, totalItems grows by exactly `quantity`. totalPrice grows by quantity × the merged line's captured price, or × the product's current price for a new line |
| Carts.StockCheckIsIncremental | server/routes/cart.js:47-67 | with stock 1, two adds of 1 both succeed and leave a single line of quantity 2 > stock |
| Carts.UpdateItem | server/routes/cart.js:96-136 | no cart → CartNotFound; product not in the cart → ItemNotFound; product gone from the catalog → ServerError; stock < quantity → InsufficientStock. Every failure leaves the store unchanged. On success the line `findIndex` returns (`FindLine`) gets quantity = `quantity`; its price and every other line are unchanged, the totals match and uniqueness is preserved |
| Carts.UpdateItemTotals | server/routes/cart.js:128-129 | the totals move by exactly (new − old quantity) units and the matching change in price × quantity |
| Carts.Without | server/routes/cart.js:159-161 | the filter keeps a line iff it is in the cart and not of that product; with no such line it returns the lines unchanged |
| Carts.RemoveItem | server/routes/cart.js:148-170 | no cart → CartNotFound with the store unchanged. Otherwise the cart keeps exactly the lines of other products; removing an absent product leaves the lines as they were; totals match; uniqueness is preserved |
| Carts.WithoutUniqueAt | server/routes/cart.js:159-161 | in a cart of unique products, removing line i's product yields `items[..i] + items[i+1..]`, so the others keep their order |
| Carts.RemoveItemExact | server/routes/cart.js:159-163 | removal takes exactly that line out and subtracts its units and price × quantity from the totals |
| Carts.ClearCart | server/routes/cart.js:182-200 | no cart → CartNotFound with the store unchanged; otherwise no lines and zero totals |
| Carts.OperationsKeepValid | server/routes/cart.js:10-207 | every operation, whether it succeeds or fails, keeps each cart filed under its owner with unique products and totals matching its lines |
| Catalog.Split | server/routes/products.js:47 | `split(',')` gives at least one piece and no piece holds a comma |
| Catalog.JoinSplit | server/routes/products.js:47 | joining the pieces with commas gives back the parameter |
| Catalog.SplitJoin | server/routes/products.js:47 | splitting comma-free parts joined by commas gives back the parts |
| Catalog.SharesTag | server/routes/products.js:46-48 | the `$in` test holds iff some tag of the product is among the wanted tags |
| Catalog.Select | server/routes/products.js:16-48 | a product is kept iff it is in the catalog and is active and meets every given filter; the result is no longer than the catalog |
| Catalog.SelectCounts | server/routes/products.js:77-83 | each matching product appears in the selection exactly as often as in the catalog, and no other product appears, so `total` counts every matching document once |
| Catalog.TagFilter | server/routes/products.js:46-48 | with only a tags filter, a product is kept iff it is active and shares a tag with the comma-split list |
| Catalog.ParseSort | server/routes/products.js:51-75 | `price-asc`, `price-desc`, `rating` and `popular` each map to their own key, iff the parameter is that string. Every other value, and an absent one, sorts newest first |
| Catalog.SortBy | server/routes/products.js:77-79 | the sorted result is a permutation of its input |
| Catalog.InsertSorted | server/routes/products.js:77-79 | inserting into a list sorted by the key keeps it sorted |
| Catalog.SortBySorted | server/routes/products.js:77-79 | the sorted result is ordered by the key, descending by its score |
| Catalog.PriceOrder | server/routes/products.js:55-60 | `price-asc` output is non-decreasing in price and `price-desc` output non-increasing |
| Catalog.OrDefault | server/routes/products.js:11-12 | the result is positive. It equals the default exactly when the parameter is missing, unparsable, 0 or the default itself; any other value is returned as given |
| Catalog.SkipSteps | server/routes/products.js:13 | `skip` is 0 for page 1, and each later page starts `limit` matches after the one before it |
| Catalog.Window | server/routes/products.js:13 | `.skip(skip).limit(limit)`: at most `limit` products; element i is element skip + i of the sorted list, and a window past the end is empty |
| Catalog.PageCount | server/routes/products.js:92 | `⌈total/limit⌉`: 0 for no matches; otherwise (pages−1)·limit < total ≤ pages·limit |
| Catalog.Arrange | server/routes/products.js:77-81 | the shown products are among the matches, sorted by the key; there are min(limit, matches − skip) of them, none when skip is past the end |
| Catalog.ListingIsWindow | server/routes/products.js:13-81 | with skip = (page−1)·limit as the handler computes it, the shown products are exactly the window `[skip, skip + limit)` of the sorted matches, min(limit, matches − skip) of them |
| Catalog.ListProducts | server/routes/products.js:9-94 | page and limit take their defaults only when missing or 0. Every listed product is in the catalog and matches. With skip = (page−1)·limit, exactly min(limit, total − skip) are listed (none past the end), in key order. `total` counts all matches, and `pages` bounds `total` as above |
| Catalog.ListingShowsPage | server/routes/products.js:11-81 | a non-empty listing is exactly the run of sorted matches that starts at skip = (page−1)·limit for the 1-indexed page |
| Catalog.TotalIgnoresPage | server/routes/products.js:83 | `total` and `pages` do not depend on the page asked for |
| Catalog.SelectFeatured | server/routes/products.js:108 | a product is selected iff it is in the catalog, featured and active, and as often as the catalog holds it |
| Catalog.TopOf | server/routes/products.js:108-111 | the first m of a list sorted by a key are drawn from it, and none of the rest scores higher than any of them |
| Catalog.Featured | server/routes/products.js:106-111 | min(8, number featured) products drawn from the featured, active catalog products, newest first; no featured, active product left out is newer than one shown |
| Catalog.CalculateAverageRating | server/routes/products.js:270 | (assumed body) only rating and numReviews change; numReviews = number of reviews and rating × count = sum of ratings (0 with none) |
| Catalog.AverageInRange | server/routes/products.js:270 | when every review rates 1 to 5 the average lies in [1, 5] |
| Catalog.AddReview | server/routes/products.js:238-272 | missing product → ProductNotFound; already reviewed by the user → AlreadyReviewed. Otherwise exactly one review `{user, name, rating, comment}` is appended after the earlier ones, and the product's rating times its review count is the sum of the ratings. Only reviews, rating and numReviews of that product change, and one review per user is preserved |
| Catalog.SecondReviewRefused | server/routes/products.js:250-260 | right after a successful review, a second one by the same user is refused |
| Payment.Cents | server/routes/payment.js:33 | `Math.round(total × 100)`: within half a cent of total × 100, halves rounded up |
| Payment.CentsExact | server/routes/payment.js:33 | a total that is a whole number n of cents converts to exactly n |
| Payment.CentsMonotone | server/routes/payment.js:33 | a larger total never converts to fewer cents |
| Payment.CreatePaymentIntent | server/routes/payment.js:10-51 | missing order → OrderNotFound; another user's order → NotAuthorized; no request in either case. Success iff the order exists and is the requester's, and then the request is for Cents(totalPrice) in usd, tagged with order and user |
| Payment.MarkPaid | server/routes/payment.js:79-86 | sets isPaid, paidAt = now, paymentResult = {id, status, update_time} and status processing; everything else is kept |
| Payment.Webhook | server/routes/payment.js:56-101 | a bad signature → 400 with no order changed. Otherwise `received`, with the same set of orders. Orders change only on a succeeded event naming an existing order; then only that order changes, and only in its four payment/status fields |
| Payment.WebhookTouchesOneOrder | server/routes/payment.js:77-87 | no event changes an order other than the one its metadata names |
| Payment.PaidOrderIsCancellable | server/routes/payment.js:73-88 | success applies whatever the prior status: the order becomes processing, and so cancellable again |
| Payment.LateSuccessReopens | client/src/pages/OrderDetail.jsx:211 | a cancelled or delivered order offers no cancel button, yet after a succeeded event it is processing and offers one again |
| Payment.WebhookIdempotent | server/routes/payment.js:73-88 | redelivering the same event with the same clock reading changes nothing further |
| Utils.CalculateDiscount | client/src/lib/utils.js:23-26 | 0 when compareAtPrice is absent, 0 or ≤ price; within [0, 100] for 0 ≤ price < compareAtPrice; exactly 100 for a free product. Otherwise (compareAtPrice non-zero and above the price) it is the saved percentage (compareAtPrice − price) / compareAtPrice × 100 rounded to the nearest whole number, halves up |
| Utils.FractionBounds | client/src/lib/utils.js:25 | for 0 ≤ price < compareAtPrice the unrounded percentage lies in (0, 100], and is exactly 100 at price 0 |
| Utils.DiscountMonotone | client/src/lib/utils.js:25 | for a fixed positive compareAtPrice, lowering the price never lowers the discount |
| Utils.TruncateText | client/src/lib/utils.js:28-31 | a text that fits is unchanged. Otherwise the result ends in "..." and has length maxLength + 3 (for maxLength ≥ 0), and is exactly "..." for a negative maxLength. It always begins with the first min(length, maxLength) characters of the text |
| Utils.TruncateIdempotent | client/src/lib/utils.js:29-30 | truncating twice is truncating once |
| Pricing.ShippingPrice | client/src/pages/Checkout.jsx:42 | shipping is 0 iff the items price is strictly above 100, and 10 otherwise |
| Pricing.CheckoutQuote | client/src/pages/Checkout.jsx:41-44 | tax is a tenth of the items price and total = items + shipping + tax, so total ≥ items for a non-negative items price |
| Pricing.QuoteForCart | client/src/pages/Checkout.jsx:41 | the items price is the cart total, which is Σ price×quantity over the lines when the totals match |
| Pricing.CartPageMatchesCheckout | client/src/pages/Cart.jsx:145-159 | the cart page's summary equals the checkout quote for the same cart |
| Pricing.WorkedExample | client/src/pages/Checkout.jsx:41-44 | lines 20×2 and 15×1 give items 55, shipping 10, tax 5.5, total 70.5 |
| Pricing.ShippingThreshold | client/src/pages/Checkout.jsx:42 | 100 pays shipping and 100.01 does not, so the total drops as the threshold is crossed |

## Left out

- Rendering, routing, the client stores, the seeding script and the image-upload wrapper. They carry no business rules.
- Free-text search (`$text`, server/routes/products.js:36-38). Its semantics belong to the database's text index.
- The query string's own parsing (`parseInt`, `parseFloat`, NaN). A `tags` parameter given twice arrives as an array, which has no `split` and makes the handler answer 500. Filters enter as parsed values, with `None` for an absent or empty parameter.
- Negative `page` or `limit` values. They are typed `nat`, because what the database driver does with a negative skip or limit is not part of this model.
- Catalog.Select: states which products are kept, not that they keep collection order. Order only matters for ties, which sorting breaks.
- Catalog.SortBy: the database leaves the order of equal keys unspecified. The model breaks ties with a stable insertion sort, and only sortedness and permutation are claimed.
- The single-product, create, update and delete product routes (server/routes/products.js:125-233). They have no rules beyond a not-found check.
- `populate` of category names and reviewers, and the `GET /config` route. They only read data.
- Request quantities are `nat`. The cart schema's own validation (e.g. a minimum of 1) is in server/models/Cart.js, which is not part of this model. So are the client guards that clamp quantities to [1, stock].
- Carts.RemoveItem: order preservation of the remaining lines is stated (in Carts.WithoutUniqueAt and Carts.RemoveItemExact) only for carts whose products are unique, the invariant every operation keeps.
- Stripe calls. Creating the intent is modelled as the request the handler makes; the returned client secret is not modelled. Signature verification against the raw body is the boolean `sigValid`.
- The clock (`Date.now()`, `toISOString()`). It enters as parameters.
- Order creation and cancellation on the server, and the admin status update. Those routes are not part of this model. Only the client's `Cancellable` guard is modelled.
- Persistence, `save` failures and other database errors. In the cart, product and intent handlers they are caught and answered with 500.
- Payment.Webhook: its update (server/routes/payment.js:72-100) is outside any `try`, so a database failure there rejects the handler with no `received` reply and no 500. The contract promises `received` for a valid signature only while the database does not fail.
- Product and order ids are assumed canonical, as the client sends them (`product._id`, `order._id`). The model looks ids up by exact string.
  - `findById` (server/routes/cart.js:38) casts a 24-hex-digit id without regard to case, while the merge test (server/routes/cart.js:62) compares strings exactly. So a product id that differs only in letter case finds the product but appends a second line for it, where the model answers `ProductNotFound`.
  - `Order.findById(orderId)` (server/routes/payment.js:14) applies the same cast. An order id that cannot be cast throws, and the handler answers 500 (server/routes/payment.js:45-49); one that differs only in letter case finds the order. `Payment.CreatePaymentIntent` answers `OrderNotFound` in both cases.
- The lost update between `findOne` and `save` when two requests hit one cart concurrently.
- IEEE-754 rounding in price × quantity, × 0.1 and `Math.round`. Prices are exact reals.
- `formatPrice`, `formatDate` and `cn`. They are library calls.
- Utils.TruncateText: measures length in Dafny characters. JavaScript measures it in UTF-16 code units, which differ for characters outside the Basic Multilingual Plane.
