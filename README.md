# Cart and order ledger of a Laravel shop backend, in Dafny

This project models the server side of a small shop: a cart per user, cart
lines upserted per product, orders placed from a cart, the product catalogue,
the JSON response envelope and the password-change validator. It proves what
each of those operations promises.

The state is one `Models.Database` object with five tables: products,
carts, cart items, orders and order items. Each table keeps its rows in
primary-key order together with its auto-increment counter (`Tables.Table`).
The controller actions that write rows are methods that take and modify that
object, and each one states its new state in terms of pure functions of the old state:

- `addToCart`, `removeFromCart` and `clearCart` (`CartLedger`);
- `placeOrder` and `cancelOrder` (`OrderLedger`);
- the product `store` (`Catalogue`).

The read-only actions (the two `index` actions and the product listing) are
functions. `Database.Valid()` is the invariant that every action keeps. It
says:

- keys are unique and below their table's counter;
- each user has at most one cart;
- each cart has at most one line per product;
- every quantity is at least 1;
- every order item refers to an order key that has already been issued.

Conventions:

- Money is integer cents, so PHP's `round(x, 2)` is the identity.
- Requests and responses are JSON values (`Json.Json`). Objects are
  ordered key lists, as PHP arrays are.
- Outside input becomes parameters:
  - the authenticated user's id and role;
  - the result of the breach lookup behind `uncompromised()`;
  - the token `uniqid()` would return;
  - the boolean the product model reports as `was_recently_created`.

An action ends with a `Reply`. It is either a response, sent with the
HTTP status equal to the envelope's `status_code`, or an exception the
framework renders itself. Those exceptions are `validate()` failing and
`findOrFail`/`firstOrFail` finding no row.

Files:

- `wrappers.dfy`: `Option`.
- `json.dfy`: JSON values, field lookup, Laravel's `required`.
- `tables.dfy`: rows, tables, `Find`/`Where`/`Insert`/`Put`/`DeleteWhere` and their laws.
- `models.dfy`: the five models and the database.
- `helpers.dfy`: `success_res` and `error_res`.
- `password_update.dfy`: `PasswordUpdateRequest`.
- `catalogue.dfy`: `ProductController`.
- `carts.dfy`: `CartController`.
- `orders.dfy`: `OrderController`.

Three behaviours of the code worth knowing:

- **Payable amount.** The payable amount and an order's grand total are sums
  of the lines' `total` column. A line that already exists keeps the
  `unit_price` it was created with. Its `total`, however, is recomputed from
  the current product price. So after a price change `total` is not
  `quantity * unit_price`. `CartLedger.StaleUnitPrice` shows such a line.
- **Empty cart.** Placing an order from a missing or empty cart answers
  403 `Cart is empty`.
- **No transaction.** `placeOrder` runs no database transaction. The model
  treats each action as one atomic step.

## Model

| member | source | states |
|---|---|---|
| Envelope.SuccessRes | app/Helpers/helpers.php:4-11 | the HTTP status equals `status_code`; the body reads back as `{success: true, status_code, message, data}` with exactly the given arguments |
| Envelope.ErrorRes | app/Helpers/helpers.php:16-23 | the HTTP status equals `status_code`; the body reads back as `{success: false, status_code, message, errors}`, so the payload sits under `errors`, not `data` |
| Envelope.FourKeys | app/Helpers/helpers.php:6-22 | each envelope has exactly four keys, in the order `success`, `status_code`, `message` and then `data` or `errors` |
| Envelope.ReadDeterminesBody | app/Helpers/helpers.php:4-23 | two bodies that read as the same envelope are identical, so the reader is a faithful inverse of the two constructors |
| Envelope.DefaultEnvelopes | app/Helpers/helpers.php:4-16 | with no arguments the helpers give 200 / `Success` / `[]` and 400 / `Error` / `[]` |
| PasswordUpdate.Authorize | app/Http/Requests/PasswordUpdateRequest.php:15-18 | every caller is authorized |
| PasswordUpdate.PasswordFailures | app/Http/Requests/PasswordUpdateRequest.php:33-37 | the `Password` rule reports nothing exactly when: the length is at least the minimum; there are a lower- and an upper-case letter with no line feed between them, a digit and a symbol (each when asked for); and the password is not breached when `uncompromised` is on |
| PasswordUpdate.MixedCaseHasBoth | app/Http/Requests/PasswordUpdateRequest.php:33-34 | a string that passes the case check has an upper- and a lower-case letter |
| PasswordUpdate.OneLineMixedCase | app/Http/Requests/PasswordUpdateRequest.php:33-34 | conversely, a string without line feeds that has both cases passes the case check |
| PasswordUpdate.LineFeedSplitsCases | app/Http/Requests/PasswordUpdateRequest.php:33-34 | `abcdef1!` and `ABCDEF` on two lines have both cases, a digit and a symbol, yet fail the case check |
| PasswordUpdate.LineFeedPasswordFailures | app/Http/Requests/PasswordUpdateRequest.php:33-37 | that password is refused for its case alone, whatever the breach lookup answers |
| PasswordUpdate.PasswordFailuresReported | app/Http/Requests/PasswordUpdateRequest.php:33-37 | each check of the `Password` rule is reported exactly when it fails: too short, no mix of cases, no symbol, no digit; the breach is reported exactly when every other check passes, `uncompromised` is on and the password is breached |
| PasswordUpdate.PasswordFailuresRanked | app/Http/Requests/PasswordUpdateRequest.php:33-37 | the failures come in the framework's order: length, then case, then symbols, then digits, and the breach last |
| PasswordUpdate.CurrentPasswordFailures | app/Http/Requests/PasswordUpdateRequest.php:28 | `current_password` passes exactly when it is present, filled and a string |
| PasswordUpdate.NewPasswordFailures | app/Http/Requests/PasswordUpdateRequest.php:29-37 | `new_password` passes exactly when all of these hold: it is a filled string; `new_password_confirmation` equals it; it has at least 8 characters; it has a lower- and an upper-case letter on one line, a digit and a symbol; and it is not breached |
| PasswordUpdate.ValidationIsPolicy | app/Http/Requests/PasswordUpdateRequest.php:25-40 | the error bag is empty, and the request passes, exactly when the stated password policy `Acceptable` holds, in both directions |
| PasswordUpdate.BagPerField | app/Http/Requests/PasswordUpdateRequest.php:25-40 | under each of the two fields the bag holds the failures of exactly that field's rules, and nothing else |
| PasswordUpdate.Rendered | app/Http/Requests/PasswordUpdateRequest.php:42-52 | every failure the bag holds for a field is rendered as that failure's message among that field's messages |
| PasswordUpdate.BagJsonShowsErrors | app/Http/Requests/PasswordUpdateRequest.php:42-52 | in the JSON error bag, a failing field maps to the array of exactly its messages, in order, when no field repeats |
| PasswordUpdate.ValidateShape | app/Http/Requests/PasswordUpdateRequest.php:25-40 | the bag holds the `current_password` entry and then the `new_password` entry, each only when that field failed |
| PasswordUpdate.ReplyCarriesMessages | app/Http/Requests/PasswordUpdateRequest.php:42-52 | a request with a failing field is refused, and the reply's `errors` object holds, under that field, the array of its messages |
| PasswordUpdate.CurrentPasswordMessages | app/Http/Requests/PasswordUpdateRequest.php:54-57 | the messages for `current_password`: only the `required` message when it is missing, the `string` message when it is not a string |
| PasswordUpdate.NewPasswordMessages | app/Http/Requests/PasswordUpdateRequest.php:29-37 | a missing new password has only the `required` failure; for a string, each broken check (confirmation, length, case, digit, symbol, and the breach once the strength checks pass) is in the bag under `new_password`; a value that is not a string has the `string` failure and, when its size is below 8, the `min` failure |
| PasswordUpdate.RequiredTexts | app/Http/Requests/PasswordUpdateRequest.php:54-58 | a missing field shows `Current password is required` or `New password is required` |
| PasswordUpdate.ConfirmedAndMinTexts | app/Http/Requests/PasswordUpdateRequest.php:59-60 | an unconfirmed or short new password shows the custom confirmation and length texts |
| PasswordUpdate.StrengthTextsAreDefaults | app/Http/Requests/PasswordUpdateRequest.php:61-64 | the case, symbol, digit and breach failures find no custom text under the keys the framework looks up, and show its default lines, which name the field `new password` |
| PasswordUpdate.ConfirmedPasswordFailures | app/Http/Requests/PasswordUpdateRequest.php:29-37 | a filled string new password that its confirmation matches fails exactly the checks of the `Password` rule |
| PasswordUpdate.WeakPasswordFailures | app/Http/Requests/PasswordUpdateRequest.php:29-37 | the confirmed new password `abcdefgh` fails exactly the case, symbol and digit checks, in that order |
| PasswordUpdate.StrengthFailuresShown | app/Http/Requests/PasswordUpdateRequest.php:61-64 | a bag with those three failures shows the three framework lines for them, in that order |
| PasswordUpdate.WeakPasswordMessages | app/Http/Requests/PasswordUpdateRequest.php:61-64 | as written, that request is refused with 422, and the reply's `errors.new_password` holds the framework's three lines, not the custom texts |
| PasswordUpdate.IntendedAgreesElsewhere | app/Http/Requests/PasswordUpdateRequest.php:54-60 | outside the four strength checks, the corrected lookup gives the same message as the one in place |
| PasswordUpdate.IntendedMixedAndSymbolTexts | app/Http/Requests/PasswordUpdateRequest.php:61-63 | with the corrected keys, the case and symbol failures show the custom texts |
| PasswordUpdate.IntendedNumberText | app/Http/Requests/PasswordUpdateRequest.php:62 | with the corrected key, the digit failure shows the custom text |
| PasswordUpdate.IntendedLeakText | app/Http/Requests/PasswordUpdateRequest.php:64 | with the corrected key, the breach shows the custom text |
| PasswordUpdate.FailedValidation | app/Http/Requests/PasswordUpdateRequest.php:42-52 | a failure answers HTTP 422 with `{success: false, status_code: 422, message: 'Validation failed', errors}`, the same body `error_res(422, …)` builds |
| PasswordUpdate.Evaluate | app/Http/Requests/PasswordUpdateRequest.php:25-52 | a request passes exactly when the password policy `Acceptable` holds; a rejected one is answered with 422 and the envelope `{success: false, status_code: 422, message: 'Validation failed', errors}` carrying the non-empty error bag |
| Catalogue.SearchFilters | app/Http/Controllers/API/ProductController.php:16-22 | with a search term PHP counts as true, a row is listed exactly when it is a product whose name or detail contains the term, compared without case |
| Catalogue.NoSearchListsAll | app/Http/Controllers/API/ProductController.php:16-19 | with no, empty or `"0"` search, the listing is a permutation of the whole table |
| Catalogue.SortPermutes | app/Http/Controllers/API/ProductController.php:23 | sorting by id keeps every row, each with its multiplicity |
| Catalogue.SortSorted | app/Http/Controllers/API/ProductController.php:23 | sorting rows with distinct ids yields strictly descending ids |
| Catalogue.ListingStrictlyDescending | app/Http/Controllers/API/ProductController.php:23 | over a valid product table the listing's ids strictly decrease |
| Catalogue.CurrentPage | app/Http/Controllers/API/ProductController.php:24 | the page is the requested one when that is a positive integer, and 1 in every other case |
| Catalogue.Page | app/Http/Controllers/API/ProductController.php:24 | a page holds at most 50 rows |
| Catalogue.PageRange | app/Http/Controllers/API/ProductController.php:24 | a page has rows exactly when the listing is not empty and the page is at most `last_page`; its rows are then the listing's consecutive rows from `from` to `to` |
| Catalogue.PagesPartition | app/Http/Controllers/API/ProductController.php:24 | pages 1..m, placed one after another, are exactly the listing's first `50 * m` rows, so consecutive pages partition the listing |
| Catalogue.RowOnItsPage | app/Http/Controllers/API/ProductController.php:24 | row k of the listing is row `k mod 50` of page `k div 50 + 1` |
| Catalogue.Index | app/Http/Controllers/API/ProductController.php:14-26 | HTTP 200 `Products fetched successfully`, carrying the paginator for the requested page of the listing: its rows, `current_page`, `from`, `last_page`, `per_page`, `to` and `total` |
| Catalogue.ZeroSearchIsIgnored | app/Http/Controllers/API/ProductController.php:19 | as written, the search `"0"` lists a product that does not contain `"0"` |
| Catalogue.IntendedSearchFilters | app/Http/Controllers/API/ProductController.php:19-22 | with the corrected condition, every non-empty search, `"0"` included, lists exactly the matching products |
| Catalogue.Validated | app/Http/Controllers/API/ProductController.php:47-52 | an accepted request has: a filled string `name` of at most 255 characters; a filled string `detail`; a `price` that is a non-negative integer or a string of digits, read by its value; and no `image` value (a JSON value is never an upload) |
| Catalogue.ValidatedExactly | app/Http/Controllers/API/ProductController.php:47-52 | conversely, a request is accepted with given fields exactly when those conditions hold for them |
| Catalogue.StringPriceAccepted | app/Http/Controllers/API/ProductController.php:47-52 | a valid request whose price is sent as the string of digits of n, as a form sends it, is accepted with price n |
| Json.Natural | app/Http/Controllers/API/ProductController.php:50 | a non-negative integer reads as itself; a number read from a value means the value was a filled non-negative integer or a string of digits |
| Json.NaturalOfDecimal | app/Http/Controllers/API/ProductController.php:50 | the string of digits of n reads as n |
| Catalogue.Identifier | app/Http/Controllers/API/ProductController.php:60 | a non-negative integer `id` is the key looked up; any key found comes from an integer or a string `id` |
| Catalogue.StringIdIsKey | app/Http/Controllers/API/ProductController.php:60 | an `id` sent as the decimal string of n looks up the same key n as the integer |
| Catalogue.UpdateOrCreate | app/Http/Controllers/API/ProductController.php:60-64 | an existing id: only that product changes, it gets the new name, detail and price, and keeps its id and image. Otherwise exactly one product is appended under the next key |
| Catalogue.SaveProduct | app/Http/Controllers/API/ProductController.php:54-66 | the products table becomes the upsert and no other table changes; the reply is 200 with the message the flag picks and the stored product: a created one as its filled fields and then its id, an updated one as its columns |
| Catalogue.Store | app/Http/Controllers/API/ProductController.php:40-67 | the role `user` gets 403 `Unauthorize access` and nothing changes; an invalid request is thrown back and nothing changes; otherwise the upsert is stored and returned, a created product as its filled fields and then its id. The message is chosen by the flag, and no other table changes |
| CartLedger.CartOf | app/Http/Controllers/API/CartController.php:17 | finds the caller's cart, or reports that no cart has that user |
| CartLedger.LineFor | app/Http/Controllers/API/CartController.php:38-41 | finds the first line with that cart and product, or reports that none exists |
| CartLedger.ParseEntry | app/Http/Controllers/API/CartController.php:26-27 | an accepted element has an integer `product_id` naming an existing product and an integer `quantity` of at least 1 |
| CartLedger.ParseEntries | app/Http/Controllers/API/CartController.php:24-28 | the request is accepted when every element is; if one element fails, the whole request is refused |
| CartLedger.ParseRequestAccepts | app/Http/Controllers/API/CartController.php:24-28 | a request is accepted exactly when `products` is a filled array and every element names an existing product with an integer quantity of at least 1 |
| CartLedger.ParsedEntriesGood | app/Http/Controllers/API/CartController.php:24-28 | every accepted entry names an existing product and a quantity of at least 1 |
| CartLedger.FirstOrCreate | app/Http/Controllers/API/CartController.php:30 | the caller ends with a cart whose id is returned. An existing cart leaves the table as it was; otherwise one cart is inserted under the next key. One cart per user is kept |
| CartLedger.FirstOrCreateReuses | app/Http/Controllers/API/CartController.php:30 | afterwards the caller has exactly one cart, and a second call reuses it without change |
| CartLedger.OnlyCart | app/Http/Controllers/API/CartController.php:30 | with one cart per user, the caller's carts are exactly the one cart found |
| CartLedger.UpsertKeepsLinesValid | app/Http/Controllers/API/CartController.php:38-51 | an upsert keeps unique keys, one line per product and positive quantities |
| CartLedger.ApplyKeepsLinesValid | app/Http/Controllers/API/CartController.php:33-52 | so does the whole loop |
| CartLedger.UpsertLineEffect | app/Http/Controllers/API/CartController.php:38-51 | the line of the upserted key gets the new quantity, not the sum. It keeps an existing `unit_price` or takes the price, and gets `total = quantity * price`. Every other key's line is unchanged |
| CartLedger.LineAfterApply | app/Http/Controllers/API/CartController.php:33-52 | after the loop: a requested product's line has the quantity of its last entry; its unit price is the old one if the line existed, else the current price; its total is quantity × current price. Lines of other products and other carts are as before |
| CartLedger.AddTwiceIsOnce | app/Http/Controllers/API/CartController.php:33-52 | with prices unchanged, applying the same request twice leaves the same cart-item table as applying it once |
| CartLedger.StaleUnitPrice | app/Http/Controllers/API/CartController.php:43-50 | a line created at 100 cents and re-added at 120 keeps unit price 100 but gets total 240 |
| CartLedger.UpsertEntries | app/Http/Controllers/API/CartController.php:33-52 | the loop computes exactly the in-order fold of the upserts |
| CartLedger.AddedResponse | app/Http/Controllers/API/CartController.php:54-60 | the reply is HTTP 200 and its `payable_amount` is the sum of the totals of all the cart's lines |
| CartLedger.AddToCart | app/Http/Controllers/API/CartController.php:22-61 | a refused request throws and changes nothing: no cart is created and no line is touched. Otherwise the cart is found or created, the lines become the fold of the upserts, the reply is built from all the cart's lines, and the invariant holds |
| CartLedger.SaveEntries | app/Http/Controllers/API/CartController.php:30-60 | once the request is accepted: the cart is found or created, the lines become the fold of the upserts, the other tables are untouched, the reply carries all the cart's lines, and the invariant holds |
| CartLedger.Index | app/Http/Controllers/API/CartController.php:15-20 | HTTP 200; `payable_amount` is 0 without a cart, else the sum of the totals of the cart's lines |
| CartLedger.CartReply | app/Http/Controllers/API/CartController.php:69-75 | the reply after a removal: HTTP 200 and the payable amount of the caller's cart, 0 when the caller has none |
| CartLedger.RemoveFromCart | app/Http/Controllers/API/CartController.php:65-76 | an absent id throws not-found and deletes nothing. Otherwise exactly the row with that key is removed, whichever cart owns it, and the caller's cart is returned |
| CartLedger.RemovedLinePayable | app/Http/Controllers/API/CartController.php:67-70 | removing a line lowers its own cart's payable sum by its total and leaves every other cart's sum unchanged |
| CartLedger.ClearCart | app/Http/Controllers/API/CartController.php:78-85 | without a cart nothing changes. Otherwise that cart's lines are deleted and the cart row is kept; the reply is `Cart cleared` |
| CartLedger.ClearEmpties | app/Http/Controllers/API/CartController.php:82 | after clearing, the cart has no lines |
| CartLedger.ClearKeepsOthers | app/Http/Controllers/API/CartController.php:80-83 | clearing one cart leaves every other cart's lines exactly as they were |
| CartLedger.ClearIdempotent | app/Http/Controllers/API/CartController.php:82 | clearing twice equals clearing once |
| OrderLedger.OrdersOf | app/Http/Controllers/API/OrderController.php:17 | exactly the caller's orders, in key order |
| OrderLedger.Index | app/Http/Controllers/API/OrderController.php:15-19 | HTTP 200 `User Order Details` carrying the caller's orders |
| OrderLedger.IndexListsOwnOrders | app/Http/Controllers/API/OrderController.php:17-18 | every listed order shows the caller as `user_id`, and every order of the caller appears in the list |
| OrderLedger.Upper | app/Http/Controllers/API/OrderController.php:31 | the length is kept; no lower-case letter remains; every other character is unchanged, and each lower-case letter becomes its capital |
| OrderLedger.OrderNumberShape | app/Http/Controllers/API/OrderController.php:31 | an order number is `ORD-` followed by the token upper-cased; it has no lower-case letter, and upper-casing it again changes nothing |
| OrderLedger.Checkout | app/Http/Controllers/API/OrderController.php:23-25 | there is nothing to check out exactly when the caller has no cart or the cart has no lines |
| OrderLedger.CopyLinesShape | app/Http/Controllers/API/OrderController.php:36-44 | exactly one item is appended per cart line, in order and under consecutive keys; item k copies line k's product, quantity, unit price and total |
| OrderLedger.CopiedPricesSum | app/Http/Controllers/API/OrderController.php:33-44 | the prices of the order's items add up to the sum of the cart lines' totals |
| OrderLedger.CreateItems | app/Http/Controllers/API/OrderController.php:36-44 | the loop computes exactly that copy |
| OrderLedger.PlaceOrder | app/Http/Controllers/API/OrderController.php:21-49 | with no cart or an empty one: 403 `Cart is empty`, and no order, item or line changes. Otherwise: one pending order for the caller with number `ORD-…` and grand total equal to the lines' sum; one item per line; the cart's lines deleted; carts and products unchanged; the reply carries the created order, its filled fields and then its id |
| OrderLedger.SaveOrder | app/Http/Controllers/API/OrderController.php:29-48 | for a given cart: one pending order for the caller numbered `ORD-…`, with grand total equal to the lines' sum; one item per line; that cart's lines deleted; carts and products unchanged; the invariant holds; the reply carries the created order with its id last |
| OrderLedger.PlacedOrderAgrees | app/Http/Controllers/API/OrderController.php:29-44 | the placed order belongs to the caller and is pending under an `ORD-` number; its grand total equals the sum of the prices of the items created for it |
| OrderLedger.PlacedCartIsEmpty | app/Http/Controllers/API/OrderController.php:47 | after placing, the cart has no lines and every other cart's lines are unchanged |
| OrderLedger.CheckoutScenario | app/Http/Controllers/API/OrderController.php:21-49 | adding three of a product at 1200 cents gives a payable amount of 3600; the order placed from that cart totals 3600 and leaves the cart without lines |
| OrderLedger.Cancel | app/Http/Controllers/API/OrderController.php:54 | the status becomes `cancelled` whatever it was. The order's other fields and every other order are unchanged |
| OrderLedger.CancelOrder | app/Http/Controllers/API/OrderController.php:51-56 | no order with that key and the caller as owner: not-found, nothing changes. Otherwise exactly that order is cancelled |
| OrderLedger.CancelTouchesOnlyOwn | app/Http/Controllers/API/OrderController.php:53-54 | the cancelled order has the given key and the caller as owner; every order not matching both is unchanged |
| OrderLedger.CancelIdempotent | app/Http/Controllers/API/OrderController.php:54 | a second cancellation finds the same order and changes nothing |

## Left out

- The React/Next.js front end, the authentication controllers, the routes and their role middlewares, and the factories and seeders are not part of this model. The caller's id and role are parameters.
- The image upload in `store` (random file name, file-system write) is not modelled. A request that carries an `image` value is refused by `Catalogue.Validated`, because a JSON value is never an uploaded file.
- Catalogue.Validated: refuses a blank `image` string too, which the framework accepts (`sometimes|image` skips a blank value when the middlewares are left out) and would store as an empty image path.
- The breach lookup of `uncompromised()` is an external service; its answer is the `breached` parameter.
- `uniqid()` is clock-based; its value is the `token` parameter. Order numbers are not checked for uniqueness, and neither does the code check them.
- `was_recently_created` is read from the product as an opaque attribute; it is the `recentlyCreated` parameter of `Catalogue.Store`, not derived from whether a row was created.
- Numbers: `product_id` and `quantity` are accepted only as JSON integers; numeric strings, which Laravel's `integer` and `exists` rules also accept, are not modelled for them. A `price` is accepted as a non-negative integer or a string of digits. Decimal prices, signs, exponents and surrounding spaces, which `numeric` also accepts, and column precision are not modelled.
- A price sent as a string is stored by its value; a created product's JSON shows it as a number, whereas the framework would echo the string as sent.
- The product `id` of `store` is a key when it is a non-negative integer or a string of decimal digits. Other strings that MySQL would coerce to a number (such as `"5abc"`) are treated as naming no product.
- `id` is assumed not to be mass-assignable on `Product`, so a product created by `store` always takes the next key, whatever `id` was sent. The model's `$fillable` list is not part of this model.
- `LIKE`: the search is a case-insensitive (ASCII) substring match. `%` and `_` in the search term are matched literally rather than as wildcards.
- Character classes of the `Password` rule are ASCII; Unicode letters, digits and symbols are not modelled. The case check's pattern lets a line feed separate the two cases (`MixedCase`); no other line terminator does, as in the framework's default pattern mode.
- Messages for which `messages()` has no custom text use the framework's English default lines (those of Laravel 10 and later). Translation files and locales are not modelled.
- The `Password` rule's nested `string` check repeats the outer one; the message bag keeps one copy of a repeated message, so the model reports `string` once.
- The `TrimStrings` and `ConvertEmptyStringsToNull` middlewares are not modelled: values are checked as sent. `required` does treat a blank string as missing, but a new password with surrounding spaces is measured with them.
- Timestamps (`created_at`, `updated_at`), the paginator's URL and `links` fields and relation loading beyond the fields shown are left out of the JSON bodies.
- Loaded rows are serialised in an assumed column order, because the migrations are not part of this model: an updated product as `id`, `name`, `detail`, `price`, `image`, the order the listing selects; a listed order with `id` first (`OrderLedger.OrderFields`); a cart line and an order item with `id` first (`CartLedger.LineJson`, `OrderLedger.ItemJson`).
- The model starts from empty tables (`Models.Database.constructor`). Seeded data is not part of this model; the seeders pick a random cart and product per line and can give two lines for one cart and product, which `Database.Valid()` excludes.
- Transactions, concurrency and racing requests are out of scope; each action is one atomic step.

## Findings

| source | as written | input that shows it | evidently intended | confidence | as-written member | corrected member |
|---|---|---|---|---|---|---|
| app/Http/Controllers/API/ProductController.php:19 | `when($search, …)` tests PHP truthiness, so the search string `"0"` skips the filter | `search = "0"` with a product named `Tea`, detail `Green`: it is listed though neither field contains `0` | every non-empty search string filters | not executed | Catalogue.ZeroSearchIsIgnored | Catalogue.IntendedSearchFilters |
| app/Http/Requests/PasswordUpdateRequest.php:61-64 | the custom texts are keyed `new_password.mixed`, `new_password.symbols`, `new_password.numbers` and `new_password.uncompromised`, but the `Password` rule reports its checks as `password.mixed` and so on, so none of those keys is ever looked up | `new_password = new_password_confirmation = "abcdefgh"`: the reply shows the framework's lines for case, symbols and digits | the four custom texts are shown | not executed | PasswordUpdate.WeakPasswordMessages | PasswordUpdate.IntendedMixedAndSymbolTexts |
