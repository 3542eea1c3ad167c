/**
 * What checkout computes from the owner's cart lines: the first line that fails validation,
 * the order-item snapshots, the stock after the decrements and the low-stock jobs queued.
 */
module Checkout {
  import opened Wrappers
  import opened Seqs
  import opened Text
  import opened Inventory
  import opened CartRows
  import opened CartQueries
  import opened LowStockNotification

  /** An `orders` row; its id is its position in the table plus one. */
  datatype Order = Order(userId: Option<UserId>, sessionId: string, totalAmount: int, totalItems: nat)

  /** An `order_items` row: the product's name and price copied at purchase time. */
  datatype OrderItem = OrderItem(
    orderId: nat,
    productId: nat,
    productName: string,
    productPrice: int,
    quantity: nat,
    subtotal: int)

  datatype CheckoutError =
    | EmptyCart
    | NotEnoughStock(productName: string, available: int)
    | ProductUnavailable(productId: nat)
  {
    /** The exception message shown to the shopper. */
    function Message(): string {
      match this
      case EmptyCart => "Your cart is empty."
      case NotEnoughStock(name, available) =>
        "Not enough stock for " + name + ". Only " + IntToString(available) + " available."
      case ProductUnavailable(_) => "Attempt to read property \"stock_quantity\" on null"
    }
  }

  /** The line can be bought: its product is loaded and has at least the line's quantity. */
  predicate LineInStock(products: map<nat, Product>, line: CartItem) {
    Available(products, line.productId) && line.quantity <= products[line.productId].stock
  }

  /** Every line can be bought. */
  predicate AllInStock(products: map<nat, Product>, lines: seq<CartItem>)
    ensures AllInStock(products, lines) ==> AllAvailable(products, lines)
    ensures AllInStock(products, lines) ==> forall i :: 0 <= i < |lines| ==> lines[i].productId in products
  {
    forall i :: 0 <= i < |lines| ==> LineInStock(products, lines[i])
  }

  lemma AllInStockPrefix(products: map<nat, Product>, lines: seq<CartItem>, k: nat)
    requires AllInStock(products, lines) && k <= |lines|
    ensures AllInStock(products, lines[..k])
  {
    assert forall i :: 0 <= i < k ==> lines[..k][i] == lines[i];
  }

  /** Why the line cannot be bought: its product is missing, or it has too few units. */
  function LineProblem(products: map<nat, Product>, line: CartItem): CheckoutError {
    if Available(products, line.productId)
    then NotEnoughStock(products[line.productId].name, products[line.productId].stock)
    else ProductUnavailable(line.productId)
  }

  /** The validation pass: the problem of the first line that cannot be bought, if any. */
  function FirstStockProblem(products: map<nat, Product>, lines: seq<CartItem>): (r: Option<CheckoutError>)
    ensures r.None? <==> AllInStock(products, lines)
    ensures r.Some? ==> exists k :: (0 <= k < |lines| && !LineInStock(products, lines[k])
      && (forall j :: 0 <= j < k ==> LineInStock(products, lines[j]))
      && r.value == LineProblem(products, lines[k]))
  {
    if lines == [] then None
    else if !LineInStock(products, lines[0]) then Some(LineProblem(products, lines[0]))
    else
      var r := FirstStockProblem(products, lines[1..]);
      if r.Some? then
        var k :| 0 <= k < |lines| - 1 && !LineInStock(products, lines[1..][k])
          && (forall j :: 0 <= j < k ==> LineInStock(products, lines[1..][j]))
          && r.value == LineProblem(products, lines[1..][k]);
        assert lines[k + 1] == lines[1..][k];
        assert forall j :: 0 < j < k + 1 ==> lines[j] == lines[1..][j - 1];
        r
      else r
  }

  /** The snapshot of one line: name and price from the loaded product, subtotal = price × quantity. */
  function Snapshot(orderId: nat, line: CartItem, p: Product): OrderItem {
    OrderItem(orderId, line.productId, p.name, p.price, line.quantity, p.price * line.quantity)
  }

  /** One order item per line, in line order. */
  function Snapshots(orderId: nat, products: map<nat, Product>, lines: seq<CartItem>): (r: seq<OrderItem>)
    requires AllAvailable(products, lines)
    ensures |r| == |lines|
    ensures forall i :: 0 <= i < |lines| ==> r[i] == Snapshot(orderId, lines[i], products[lines[i].productId])
  {
    if lines == [] then []
    else Snapshots(orderId, products, lines[..|lines| - 1]) + [Snapshot(orderId, lines[|lines| - 1], products[lines[|lines| - 1].productId])]
  }

  function SumSubtotals(items: seq<OrderItem>): int {
    if items == [] then 0 else SumSubtotals(items[..|items| - 1]) + items[|items| - 1].subtotal
  }

  /** The order items' subtotals add up to the cart subtotal the order records. */
  lemma {:induction false} SnapshotsTotal(orderId: nat, products: map<nat, Product>, lines: seq<CartItem>)
    requires AllAvailable(products, lines)
    ensures SumSubtotals(Snapshots(orderId, products, lines)) == Subtotal(products, lines)
  {
    if lines != [] {
      var prefix := lines[..|lines| - 1];
      SnapshotsTotal(orderId, products, prefix);
      assert Snapshots(orderId, products, lines)[..|lines| - 1] == Snapshots(orderId, products, prefix);
    }
  }

  /** `stock_quantity = stock_quantity - quantity` for each line in turn, with no check of its own. */
  function Decremented(products: map<nat, Product>, lines: seq<CartItem>): (r: map<nat, Product>)
    ensures r.Keys == products.Keys
  {
    if lines == [] then products
    else
      var before := Decremented(products, lines[..|lines| - 1]);
      var line := lines[|lines| - 1];
      if line.productId in before
      then before[line.productId := before[line.productId].(stock := before[line.productId].stock - line.quantity)]
      else before
  }

  /** The units the lines take of a product. */
  function QuantityFor(lines: seq<CartItem>, productId: nat): nat {
    if lines == [] then 0
    else QuantityFor(lines[..|lines| - 1], productId)
         + (if lines[|lines| - 1].productId == productId then lines[|lines| - 1].quantity else 0)
  }

  /** Only stock changes, by the total the lines take of each product. */
  lemma {:induction false} DecrementedStock(products: map<nat, Product>, lines: seq<CartItem>, productId: nat)
    requires forall i :: 0 <= i < |lines| ==> lines[i].productId in products
    requires productId in products
    ensures Decremented(products, lines)[productId]
         == products[productId].(stock := products[productId].stock - QuantityFor(lines, productId))
  {
    if lines != [] {
      DecrementedStock(products, lines[..|lines| - 1], productId);
    }
  }

  predicate Purchases(lines: seq<CartItem>, productId: nat) {
    exists i :: 0 <= i < |lines| && lines[i].productId == productId
  }

  /** With one line per product, a product loses exactly that line's quantity, or nothing. */
  lemma {:induction false} QuantityForDistinct(lines: seq<CartItem>, productId: nat)
    requires DistinctProducts(lines)
    ensures !Purchases(lines, productId) ==> QuantityFor(lines, productId) == 0
    ensures forall i :: 0 <= i < |lines| && lines[i].productId == productId ==> QuantityFor(lines, productId) == lines[i].quantity
  {
    if lines != [] {
      var prefix := lines[..|lines| - 1];
      QuantityForDistinct(prefix, productId);
      if lines[|lines| - 1].productId == productId {
        assert !Purchases(prefix, productId);
      } else {
        assert Purchases(lines, productId) ==> Purchases(prefix, productId);
        forall i | 0 <= i < |lines| && lines[i].productId == productId
          ensures QuantityFor(lines, productId) == lines[i].quantity
        {
          assert prefix[i] == lines[i];
        }
      }
    }
  }

  /** The jobs queued after each decrement: one per line whose product is now low on stock. */
  function LowStockJobs(products: map<nat, Product>, lines: seq<CartItem>, globalThreshold: int): seq<LowStockJob> {
    if lines == [] then []
    else
      var line := lines[|lines| - 1];
      var after := Decremented(products, lines);
      LowStockJobs(products, lines[..|lines| - 1], globalThreshold)
      + (if line.productId in after && IsLowStock(after[line.productId], globalThreshold)
         then [LowStockJob(line.productId)] else [])
  }

  /** Taking one more line of the purchase loop: each record grows by that line's entry. */
  lemma CommitStep(orderId: nat, loaded: map<nat, Product>, lines: seq<CartItem>, k: nat, globalThreshold: int)
    requires AllInStock(loaded, lines) && k < |lines|
    ensures AllInStock(loaded, lines[..k]) && AllInStock(loaded, lines[..k + 1])
    ensures Snapshots(orderId, loaded, lines[..k + 1])
         == Snapshots(orderId, loaded, lines[..k]) + [Snapshot(orderId, lines[k], loaded[lines[k].productId])]
    ensures var before := Decremented(loaded, lines[..k]);
      && lines[k].productId in before
      && Decremented(loaded, lines[..k + 1])
         == before[lines[k].productId := before[lines[k].productId].(stock := before[lines[k].productId].stock - lines[k].quantity)]
    ensures LowStockJobs(loaded, lines[..k + 1], globalThreshold)
         == LowStockJobs(loaded, lines[..k], globalThreshold)
            + (if IsLowStock(Decremented(loaded, lines[..k + 1])[lines[k].productId], globalThreshold)
               then [LowStockJob(lines[k].productId)] else [])
  {
    AllInStockPrefix(loaded, lines, k);
    AllInStockPrefix(loaded, lines, k + 1);
    assert lines[..k + 1][..k] == lines[..k] && lines[..k + 1][k] == lines[k];
  }

  /** With one line per product, a job is queued for a product iff it was bought and is now low. */
  lemma {:induction false} LowStockJobsExact(products: map<nat, Product>, lines: seq<CartItem>, globalThreshold: int, productId: nat)
    requires forall i :: 0 <= i < |lines| ==> lines[i].productId in products
    requires DistinctProducts(lines)
    ensures LowStockJob(productId) in LowStockJobs(products, lines, globalThreshold)
        <==> Purchases(lines, productId) && IsLowStock(Decremented(products, lines)[productId], globalThreshold)
  {
    if lines != [] {
      var prefix := lines[..|lines| - 1];
      var line := lines[|lines| - 1];
      LowStockJobsExact(products, prefix, globalThreshold, productId);
      if line.productId == productId {
        assert !Purchases(prefix, productId);
      } else {
        assert Purchases(lines, productId) <==> Purchases(prefix, productId) by {
          if Purchases(lines, productId) {
            var i :| 0 <= i < |lines| && lines[i].productId == productId;
            assert prefix[i] == lines[i];
          }
        }
        if Purchases(prefix, productId) {
          assert Decremented(products, lines)[productId] == Decremented(products, prefix)[productId];
        }
      }
    }
  }

  /** Every job checkout queues passes the job's own `shouldQueue` test on the product's new stock. */
  lemma CheckoutJobsShouldQueue(products: map<nat, Product>, lines: seq<CartItem>, globalThreshold: int, productId: nat)
    requires forall i :: 0 <= i < |lines| ==> lines[i].productId in products
    requires DistinctProducts(lines)
    requires LowStockJob(productId) in LowStockJobs(products, lines, globalThreshold)
    ensures productId in products
    ensures ShouldQueue(Decremented(products, lines)[productId], globalThreshold)
  {
    LowStockJobsExact(products, lines, globalThreshold, productId);
  }

  /**
   * The stock effect of a validated checkout: each bought product loses exactly its line's quantity
   * and stays non-negative, every other product is unchanged.
   */
  lemma CheckoutStockEffect(products: map<nat, Product>, lines: seq<CartItem>, productId: nat)
    requires AllInStock(products, lines)
    requires DistinctProducts(lines)
    requires productId in products && 0 <= products[productId].stock
    ensures var after := Decremented(products, lines)[productId];
      && after.name == products[productId].name && after.price == products[productId].price
      && 0 <= after.stock
      && (!Purchases(lines, productId) ==> after == products[productId])
      && (forall i :: 0 <= i < |lines| && lines[i].productId == productId ==> after.stock == products[productId].stock - lines[i].quantity)
  {
    DecrementedStock(products, lines, productId);
    QuantityForDistinct(lines, productId);
  }

  predicate StockNonNegative(products: map<nat, Product>) {
    forall id :: id in products ==> 0 <= products[id].stock
  }

  lemma CheckoutKeepsStockNonNegative(products: map<nat, Product>, lines: seq<CartItem>)
    requires StockNonNegative(products)
    requires AllInStock(products, lines)
    requires DistinctProducts(lines)
    ensures StockNonNegative(Decremented(products, lines))
  {
    forall id | id in products ensures 0 <= Decremented(products, lines)[id].stock {
      CheckoutStockEffect(products, lines, id);
    }
  }

  /** The items of order `orderId`. */
  function ItemsOf(items: seq<OrderItem>, orderId: nat): seq<OrderItem> {
    Filter(items, (item: OrderItem) => item.orderId == orderId)
  }

  /**
   * The order tables' invariant: every item belongs to an existing order and has subtotal
   * price × quantity, and every order's total and item count are those of its items.
   */
  predicate OrdersConsistent(orders: seq<Order>, items: seq<OrderItem>) {
    && (forall i :: 0 <= i < |items| ==> 1 <= items[i].orderId <= |orders|)
    && (forall i :: 0 <= i < |items| ==> items[i].subtotal == items[i].productPrice * items[i].quantity)
    && (forall k :: 0 <= k < |orders| ==>
          && orders[k].totalAmount == SumSubtotals(ItemsOf(items, k + 1))
          && orders[k].totalItems == |ItemsOf(items, k + 1)|)
  }

  /** Items appended for a new order leave the item lists of existing orders as they were. */
  lemma ItemsOfOldOrder(items: seq<OrderItem>, newItems: seq<OrderItem>, newId: nat, orderId: nat)
    requires forall i :: 0 <= i < |newItems| ==> newItems[i].orderId == newId
    requires orderId != newId
    ensures ItemsOf(items + newItems, orderId) == ItemsOf(items, orderId)
  {
    var keep := (item: OrderItem) => item.orderId == orderId;
    FilterAppend(items, newItems, keep);
    FilterNone(newItems, keep);
  }

  /** The items of a new order are exactly the ones appended for it. */
  lemma ItemsOfNewOrder(items: seq<OrderItem>, newItems: seq<OrderItem>, newId: nat)
    requires forall i :: 0 <= i < |items| ==> items[i].orderId < newId
    requires forall i :: 0 <= i < |newItems| ==> newItems[i].orderId == newId
    ensures ItemsOf(items + newItems, newId) == newItems
  {
    var keep := (item: OrderItem) => item.orderId == newId;
    FilterAppend(items, newItems, keep);
    FilterNone(items, keep);
    FilterAll(newItems, keep);
  }

  /** Recording an order together with its own items keeps the invariant. */
  lemma AddOrderKeepsConsistent(orders: seq<Order>, items: seq<OrderItem>, order: Order, newItems: seq<OrderItem>)
    requires OrdersConsistent(orders, items)
    requires forall i :: 0 <= i < |newItems| ==> newItems[i].orderId == |orders| + 1
    requires forall i :: 0 <= i < |newItems| ==> newItems[i].subtotal == newItems[i].productPrice * newItems[i].quantity
    requires order.totalAmount == SumSubtotals(newItems) && order.totalItems == |newItems|
    ensures OrdersConsistent(orders + [order], items + newItems)
  {
    var orders' := orders + [order];
    var items' := items + newItems;
    forall i | 0 <= i < |items'|
      ensures 1 <= items'[i].orderId <= |orders'|
      ensures items'[i].subtotal == items'[i].productPrice * items'[i].quantity
    {
      if i < |items| {
        assert items'[i] == items[i];
      } else {
        assert items'[i] == newItems[i - |items|];
      }
    }
    forall id: nat | 1 <= id <= |orders|
      ensures ItemsOf(items', id) == ItemsOf(items, id)
    {
      ItemsOfOldOrder(items, newItems, |orders| + 1, id);
    }
    ItemsOfNewOrder(items, newItems, |orders| + 1);
    assert forall k :: 0 <= k < |orders| ==> orders'[k] == orders[k];
  }

  /**
   * The small-store scenario: five units at the default threshold of 5, all five bought,
   * leaves 0 units, low on stock, and exactly one job queued.
   */
  lemma SellOutScenario()
    ensures var products := map[1 := Product("Lamp", 2500, 5, None, false)];
      var lines := [CartItem(1, Some(1), None, 1, 5)];
      && FirstStockProblem(products, lines) == None
      && Decremented(products, lines)[1].stock == 0
      && LowStockJobs(products, lines, DEFAULT_LOW_STOCK_THRESHOLD) == [LowStockJob(1)]
  {
    var products := map[1 := Product("Lamp", 2500, 5, None, false)];
    var lines := [CartItem(1, Some(1), None, 1, 5)];
    assert lines[..0] == [];
  }
}
