# Shop cart and inventory, modelled in Dafny

This project models the cart-and-inventory core of a small Laravel shop. The shop keeps five tables:

- `products`: price, stock quantity, an optional low-stock threshold and a soft-delete marker.
- `cart_items`: one row per (owner, product). A logged-in user's rows carry `user_id`; a guest's rows carry `session_id`.
- `orders` and `order_items`: the order and one snapshot per bought line.
- The queue of `SendLowStockNotification` jobs.

The low-stock job has its own state: cache markers `low_stock_sent_{id}` with a one-day lifetime, and an outbox of alert mails.

The modules follow the program:

- `Inventory`: the `Product` model's low-stock rule (`getLowStockThresholdValue`, `isLowStock`). The configured global threshold is a parameter; its shipped default is 5.
- `CartRows`: the cart table, its owner key and the table invariant `CartWellFormed`. The invariant says:
  - ids increase and stay below the next id;
  - every row has exactly one owner column;
  - no two rows share an upsert key.

  The module also holds the table operations the actions use:
  - `firstOrCreate` / upsert: `FindRow`, `PutQuantity`;
  - update by id: `SetQuantity`;
  - delete by id: `WithoutId`;
  - checkout's selection and bulk delete: `OwnedRows`, `WithoutOwner`.
- `CartQueries`: the read-only actions `GetCartItems` and `GetCartCount`. `GetCartItems` keeps its filter exactly as written (see Findings). `OwnerCartItems` is the corrected selection.
- `Checkout`: the pure parts of `ProcessCheckout`:
  - the validation pass (`FirstStockProblem`);
  - the total (`Subtotal`, shared with the cart page);
  - the order-item snapshots;
  - the stock after the decrements;
  - the low-stock jobs dispatched;
  - the order tables' invariant.
- `LowStockNotification`: `shouldQueue`, and the job's `handle` as the class `Notifier`. The class has a marker map from product id to expiry time and an outbox. The clock `now` (in seconds) and the admin list are parameters.
- `Shop`: the class `Store` holding the tables, with the actions as methods that update its fields in place:
  - `AddToCart` with `FindOrCreateCartItem`;
  - `UpdateCartItem`;
  - `RemoveFromCart`;
  - `ProcessCheckout`, with its validation loop `ValidateStock` and its commit loop `CommitLines`.

  Each method's `ensures` states its outcome and its whole new state, in terms of the functions above. `Valid()` is preserved by every action; it combines:
  - stock never negative;
  - a well-formed cart;
  - consistent orders.
- `Scenarios`: end-to-end runs built from the actions' contracts alone:
  - three units asked of a product with two in stock;
  - two carts holding the last lamp, checked out one after the other;
  - two runs of the job an hour apart.
- `Text`, `Seqs`, `Wrappers`: PHP's integer interpolation, a generic filter with its lemmas, and `Option`.

Error paths are outcomes, not preconditions:

- `findOrFail` or route-model binding on a missing row: `ProductNotFound` or `CartItemNotFound`.
- A cart row whose product is soft-deleted makes the source read a property of `null`: `RowProductUnavailable` for the cart page actions, `ProductUnavailable` for checkout.
- Checkout's exceptions are a `CheckoutError`, whose `Message()` is the text the controller flashes.

## Model

| member | source | states |
|---|---|---|
| Inventory.LowStockThreshold | app/Models/Product.php:25-28 | the product's own `low_stock_threshold` when set, otherwise the global threshold passed in |
| Inventory.IsLowStock | app/Models/Product.php:33-36 | low exactly when stock is strictly below the product's threshold, or below the global one when the product has none |
| Inventory.LowStockBoundary | tests/Unit/ProductTest.php:33-58 | stock equal to or above the effective threshold is not low; stock strictly below it is low |
| Inventory.LowStockMonotone | app/Models/Product.php:33-36 | lowering the stock of a low product keeps it low |
| Inventory.ProductTestScenarios | tests/Unit/ProductTest.php:5-58 | the unit tests' cases: global 10 applies when unset, own 3 overrides it, 3 < 5 is low, 5 and 10 against 5 are not |
| CartRows.Session.CartOwner | app/Actions/Cart/AddToCart.php:59-69 | a logged-in request's owner is its user, otherwise the guest session |
| CartRows.NewRow | app/Actions/Cart/AddToCart.php:60-77 | the inserted row carries the key columns of its owner (exactly one of `user_id`/`session_id`), the product and the given quantity |
| CartRows.FindRow | app/Actions/Cart/AddToCart.php:60-77 | finds the first row for (owner, product), or answers None exactly when no such row exists |
| CartRows.OneRowPerKey | app/Actions/Cart/AddToCart.php:57-78 | in a well-formed table two rows for one (owner, product) key are the same row |
| CartRows.IdsUnique | app/Actions/Cart/UpdateCartItem.php:9 | in a well-formed table two rows with one id are the same row |
| CartRows.ReplaceKeepsWellFormed | app/Actions/Cart/UpdateCartItem.php:18 | changing a row's quantity in place keeps the table invariant |
| CartRows.AppendKeepsWellFormed | app/Actions/Cart/AddToCart.php:60-77 | appending a row with the next id and a fresh key keeps the table invariant |
| CartRows.PutExistingEffect | app/Actions/Cart/AddToCart.php:48-49 | writing the quantity of an existing row: the owner then holds exactly that quantity and the table stays well formed |
| CartRows.PutNewEffect | app/Actions/Cart/AddToCart.php:60-77 | creating the row: it is appended with the next id, the owner holds the quantity and the table stays well formed with the id spent |
| CartRows.CreateThenSetEffect | app/Actions/Cart/AddToCart.php:30-49 | `firstOrCreate` (with quantity 0) followed by the write of the quantity gives the same table as one upsert |
| CartRows.PutQuantityEffect | app/Actions/Cart/AddToCart.php:30-49 | after the upsert the owner holds exactly the quantity, the table is well formed, it grows by at most one row and rows for other keys keep their places |
| CartRows.SetQuantity | app/Actions/Cart/UpdateCartItem.php:18 | the row with the id gets the quantity; every other row is unchanged and the length is kept |
| CartRows.SetQuantityIdempotent | app/Actions/Cart/UpdateCartItem.php:18 | repeating the same update changes nothing more |
| CartRows.IndexOfId | app/Actions/Cart/UpdateCartItem.php:9 | finds a row with the id, or answers None exactly when there is none |
| CartRows.FilterKeepsWellFormed | app/Actions/Cart/ProcessCheckout.php:85-91 | deleting any selection of rows keeps the table invariant |
| CartRows.WithoutIdEffect | app/Actions/Cart/RemoveFromCart.php:12 | after the delete the rows are exactly the old rows other than the one with the id |
| CartRows.OwnedRowsDistinctProducts | app/Actions/Cart/ProcessCheckout.php:21-29 | one owner's selected rows hold each product at most once |
| CartRows.WithoutOwnerClears | app/Actions/Cart/ProcessCheckout.php:85-91 | after the bulk delete the owner has no rows left |
| CartRows.WithoutOwnerKeepsOthers | app/Actions/Cart/ProcessCheckout.php:85-91 | the bulk delete leaves every other owner's rows as they were |
| CartQueries.SumQuantityAtLeast | app/Actions/Cart/GetCartCount.php:15 | the quantity sum is at least the quantity of any one row |
| CartQueries.GetCartItems | app/Actions/Cart/GetCartItems.php:12-24 | the rows whose `user_id` equals the logged-in user's id (none for a guest); the subtotal is Σ price × quantity over them, 0 when empty; an error exactly when a selected row's product is missing |
| CartQueries.GetCartCount | app/Actions/Cart/GetCartCount.php:13-16 | Σ quantity over the rows `GetCartItems` returns; an error exactly when it errs |
| CartQueries.CartCountBounds | app/Actions/Cart/GetCartCount.php:15 | an empty result counts 0; a result with a row of quantity ≥ 1 counts ≥ 1 |
| CartQueries.GuestCartIsAlwaysEmpty | app/Actions/Cart/GetCartItems.php:14 | for a guest the cart page is always empty with subtotal 0 and the count is 0 |
| CartQueries.GuestRowHiddenFromCartPage | app/Actions/Cart/GetCartItems.php:14 | a guest row as adding to the cart stores it is selected by checkout but not shown by the cart page |
| CartQueries.OwnerCartItems | app/Actions/Cart/ProcessCheckout.php:21-29 | the corrected cart page: the owner's rows by the owner's own key column, with their subtotal |
| CartQueries.GuestRowShownByOwnerCart | app/Actions/Cart/AddToCart.php:69-77 | the corrected cart page shows the guest row the written one hides, with subtotal price × quantity |
| CartQueries.OwnerCartItemsAgreeForUsers | app/Actions/Cart/GetCartItems.php:14 | for a logged-in user the corrected and the written selection agree |
| CartQueries.OwnerCartItemsForGuests | app/Actions/Cart/AddToCart.php:69-77 | for a guest the corrected selection holds exactly the rows stored under the session id |
| Checkout.AllInStock | app/Actions/Cart/ProcessCheckout.php:37-43 | every line passes validation, which implies every line's product is loaded |
| Checkout.AllInStockPrefix | app/Actions/Cart/ProcessCheckout.php:37-43 | every prefix of validated lines is validated |
| Checkout.FirstStockProblem | app/Actions/Cart/ProcessCheckout.php:37-43 | None exactly when every line is in stock; otherwise the error of the first failing line, naming its product and stock |
| Checkout.Snapshots | app/Actions/Cart/ProcessCheckout.php:63-70 | one order item per line, in order, copying name and price with subtotal price × quantity |
| Checkout.SnapshotsTotal | app/Actions/Cart/ProcessCheckout.php:46-70 | the order items' subtotals add up to the order's `total_amount` |
| Checkout.Decremented | app/Actions/Cart/ProcessCheckout.php:73 | the decrements change no product's presence in the catalogue |
| Checkout.DecrementedStock | app/Actions/Cart/ProcessCheckout.php:73 | each product loses exactly the units the lines take of it, and nothing else about it changes |
| Checkout.QuantityForDistinct | app/Actions/Cart/ProcessCheckout.php:73 | with one line per product, the units taken of a product are its line's quantity, or 0 when it is not bought |
| Checkout.CommitStep | app/Actions/Cart/ProcessCheckout.php:59-82 | one turn of the commit loop appends that line's snapshot, applies its decrement and appends its job when the product is now low |
| Checkout.LowStockJobsExact | app/Actions/Cart/ProcessCheckout.php:76-81 | a job is queued for a product exactly when it was bought and is low on its decremented stock |
| Checkout.CheckoutJobsShouldQueue | app/Jobs/SendLowStockNotification.php:25-28 | every queued job passes its own `shouldQueue` test |
| Checkout.CheckoutStockEffect | app/Actions/Cart/ProcessCheckout.php:37-43 | after a validated checkout a bought product's stock falls by exactly its line's quantity and stays ≥ 0; unbought products are unchanged |
| Checkout.CheckoutKeepsStockNonNegative | app/Actions/Cart/ProcessCheckout.php:73 | a validated checkout never makes any stock negative |
| Checkout.ItemsOfOldOrder | app/Actions/Cart/ProcessCheckout.php:63-70 | appending a new order's items leaves the items of every other order as they were |
| Checkout.ItemsOfNewOrder | app/Actions/Cart/ProcessCheckout.php:63-70 | the new order's items are exactly the ones appended for it |
| Checkout.AddOrderKeepsConsistent | app/Actions/Cart/ProcessCheckout.php:51-70 | recording an order with its items keeps every order's total and item count equal to those of its items |
| Checkout.SellOutScenario | app/Actions/Cart/ProcessCheckout.php:59-82 | buying all 5 units at the default threshold leaves 0 in stock and queues exactly one job |
| LowStockNotification.ShouldQueue | app/Jobs/SendLowStockNotification.php:25-28 | queued exactly when stock is below the effective threshold (`isLowStock`) |
| LowStockNotification.AlertsFor | app/Jobs/SendLowStockNotification.php:39-45 | one alert per admin, in admin order, each for the product |
| LowStockNotification.EachAdminAlertedOnce | app/Jobs/SendLowStockNotification.php:39-45 | a sending run mails each admin exactly one alert and no one else any |
| LowStockNotification.LiveMarkerSuppresses | app/Jobs/SendLowStockNotification.php:35-37 | a live marker means nothing is sent and no marker changes |
| LowStockNotification.SendingRunSetsMarker | app/Jobs/SendLowStockNotification.php:39-48 | without a live marker every admin is mailed and the marker expires one day after now |
| LowStockNotification.TwoRunsWithinADaySendOnce | app/Jobs/SendLowStockNotification.php:33-48 | of two runs for a product less than a day apart, at most one sends anything |
| LowStockNotification.OtherMarkersUntouched | app/Jobs/SendLowStockNotification.php:33-48 | a run for one product leaves every other product's marker as it was |
| LowStockNotification.ExpiredMarkerSendsAgain | app/Jobs/SendLowStockNotification.php:35-48 | once the clock reaches the marker's expiry the next run sends again, whatever the stock did |
| LowStockNotification.Notifier.Handle | app/Jobs/SendLowStockNotification.php:30-49 | the outbox gains the alerts a run sends and the markers become those after the run |
| Shop.Store.FindOrCreateCartItem | app/Actions/Cart/AddToCart.php:57-78 | answers the existing row for (owner, product), or appends a new row with quantity 0 and the next id |
| Shop.Store.AddToCart | app/Actions/Cart/AddToCart.php:12-55 | not found / out of stock / insufficient / already at maximum / stock limit reached / added, in the source's order; only added changes the cart, and then the owner holds exactly existing + requested ≤ stock |
| Shop.Store.AddUnits | app/Actions/Cart/AddToCart.php:30-54 | the cart-limit check after the lookup: the two limit failures leave the cart as it was; success writes existing + requested |
| Shop.Store.UpdateCartItem | app/Actions/Cart/UpdateCartItem.php:9-24 | a quantity above stock fails with that stock and changes nothing; otherwise only that row's quantity changes |
| Shop.Store.RemoveFromCart | app/Actions/Cart/RemoveFromCart.php:9-15 | answers the product's name read before the delete; the rows become the old rows other than that one |
| Shop.Store.ValidateStock | app/Actions/Cart/ProcessCheckout.php:37-43 | the loop finds exactly the first stock problem |
| Shop.Store.CommitLines | app/Actions/Cart/ProcessCheckout.php:59-82 | the loop appends the snapshots, decrements the stock and appends the low-stock jobs of all lines |
| Shop.Store.CommitLine | app/Actions/Cart/ProcessCheckout.php:63-81 | one line's snapshot, decrement and conditional job |
| Shop.Store.ProcessCheckout | app/Actions/Cart/ProcessCheckout.php:15-101 | fails (empty cart, or the first stock problem) exactly when it should, and then changes nothing; otherwise records the order, its items, the decrements and the jobs, clears only the owner's rows and reports line count, total and order id |
| Shop.Store.Purchase | app/Actions/Cart/ProcessCheckout.php:46-99 | the writes of a validated checkout and the report it returns |
| Scenarios.TwoInStockMessage | app/Actions/Cart/AddToCart.php:26 | the insufficient-stock message for 2 units |
| Scenarios.NoneLeftMessage | app/Actions/Cart/ProcessCheckout.php:41 | the checkout stock message for a lamp with 0 left |
| Scenarios.AddMoreThanStock | app/Actions/Cart/AddToCart.php:23-28 | asking 3 of 2 in stock is refused with "Only 2 items available in stock." and nothing is added |
| Scenarios.LampRowsByOwner | app/Actions/Cart/ProcessCheckout.php:21-29 | each owner's selection of the two lamp carts is its own row |
| Scenarios.LampRowsInserted | app/Actions/Cart/AddToCart.php:57-78 | each buyer's first add inserts that buyer's lamp row |
| Scenarios.FillLampCarts | app/Actions/Cart/AddToCart.php:12-55 | a user and a guest each put the last lamp in their carts |
| Scenarios.LampCheckoutFacts | app/Actions/Cart/ProcessCheckout.php:37-48 | one lamp passes validation and costs 2500 while there is one; with none left validation fails naming 0 |
| Scenarios.FirstBuyer | app/Actions/Cart/ProcessCheckout.php:15-101 | the user buys the lamp: one item, 2500, stock 0, only the guest's row left |
| Scenarios.LastUnitBoughtOnce | app/Actions/Cart/ProcessCheckout.php:37-43 | two carts hold the last unit; the first checkout succeeds, the second fails with "Not enough stock for Lamp. Only 0 available." and stock stays 0 |
| Scenarios.AlertsDeduplicated | app/Jobs/SendLowStockNotification.php:33-48 | two runs an hour apart mail each of two admins once in all |

## Left out

- Concurrency and transaction isolation. Checkout is one atomic step. The source takes no row lock and validates the product copies it loaded before the transaction; that race is not modelled.
- Products and prices as decimals. Prices are integer cents.
- Request validation that is not part of the core. Its "quantity ≥ 1" is a precondition of `AddToCart` and `UpdateCartItem`.
- The mail transport, the queue and the cache backend. The modelled queue is a sequence of jobs. The outbox is a sequence of alerts. The cache is a map from product id to expiry time.
- The admin-role lookup and its `chunkById(500)` paging. The admin addresses are a parameter, in the order the lookup returns them.
- The clock. `now` is a parameter in seconds, and a day is 86400 seconds.
- Dispatch plumbing: `shouldQueue` is modelled as the predicate it computes, and checkout queues a job precisely when `isLowStock` holds.
- Database type juggling. In `GetCartItems`, the comparison of the integer `user_id` column with a session-id string is taken to match nothing.
- Controllers, routes, pages, mail templates, the dashboard, reports and product administration. They are HTTP glue, UI or SQL aggregates.
- CartController.php:78-87 only turns checkout's exceptions into flash messages. The model stops at the exception's message (`CheckoutError.Message`).
- Ownership of the row in `UpdateCartItem` and `RemoveFromCart`. Neither action checks that the row belongs to the caller; the model keeps that, as written.
- Ids. The order id is the order's position plus one. A deleted cart row is removed from the table, and ids are never reused.
- Checkout.Decremented and Checkout.LowStockJobs: they skip a line whose product is not in the catalogue. After validation this never happens, so the result is the same as the source's.
- Shop.Store.AddUnits, Shop.Store.Purchase and Shop.Store.CommitLine are parts of `AddToCart`, `ProcessCheckout` and its loop body, split out as methods of their own. Together they do exactly what the single source method does.

## Findings

| source | as written | input that shows it | evidently intended | confidence | as-written member | corrected member |
|---|---|---|---|---|---|---|
| app/Actions/Cart/GetCartItems.php:14 | a guest's rows are selected by `user_id = session id`, but `AddToCart` stores a guest's rows with only `session_id` set | a guest with session "s" adds product 7; the cart page then shows no rows and subtotal 0, and the count is 0, while checkout buys the row | guests see the rows stored under their session id, as checkout selects them | not executed | CartQueries.GuestCartIsAlwaysEmpty | CartQueries.OwnerCartItems |
