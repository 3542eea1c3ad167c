/**
 * Client-side scenarios, proved from the actions' contracts alone: what a caller of the shop can
 * rely on without looking inside the methods.
 */
module Scenarios {
  import opened Wrappers
  import opened Text
  import opened Inventory
  import opened CartRows
  import opened CartQueries
  import opened LowStockNotification
  import opened Checkout
  import opened Shop

  /** The message for a request of more units than the 2 in stock. */
  lemma TwoInStockMessage()
    ensures InsufficientStock(2).Message() == "Only 2 items available in stock."
  {
    assert IntToString(2) == [DigitChar(2)] == "2";
  }

  /** The message for a checkout line whose product has run out. */
  lemma NoneLeftMessage()
    ensures NotEnoughStock("Lamp", 0).Message() == "Not enough stock for Lamp. Only 0 available."
  {
    assert IntToString(0) == [DigitChar(0)] == "0";
    assert "Not enough stock for " + "Lamp" == "Not enough stock for Lamp";
    assert "Not enough stock for Lamp" + ". Only " == "Not enough stock for Lamp. Only ";
    assert "Not enough stock for Lamp. Only " + "0" == "Not enough stock for Lamp. Only 0";
  }

  /** Asking for 3 units of a product with 2 in stock and none in the cart is refused, naming the 2. */
  method AddMoreThanStock() returns (r: CartOutcome, cartAfter: seq<CartItem>)
    ensures r == InsufficientStock(2)
    ensures r.Message() == "Only 2 items available in stock."
    ensures cartAfter == []
  {
    var store := new Store(Lamps(2));
    r := store.AddToCart(Session(None, "guest"), 1, 3);
    cartAfter := store.cart;
    TwoInStockMessage();
  }

  /** The two lamp carts of `LastUnitBoughtOnce`: one row for a signed-in user, one for a guest. */
  function LampRows(): (rows: seq<CartItem>)
    ensures |rows| == 2 && rows[0].productId == rows[1].productId == 1
  {
    [NewRow(1, User(1), 1, 1), NewRow(2, Guest("s2"), 1, 1)]
  }

  /** Each owner's selection of `LampRows()` is its own row. */
  lemma LampRowsByOwner()
    ensures OwnedRows(LampRows(), User(1)) == [LampRows()[0]]
    ensures OwnedRows(LampRows(), Guest("s2")) == [LampRows()[1]]
    ensures WithoutOwner(LampRows(), User(1)) == [LampRows()[1]]
  {
    var rows := LampRows();
    assert rows[1..] == [rows[1]] && [rows[1]][1..] == [];
    assert OwnedRows([rows[1]], User(1)) == [];
    assert WithoutOwner([rows[1]], User(1)) == [rows[1]];
  }

  /** Each buyer's first add to the lamp carts inserts that buyer's row of `LampRows()`. */
  lemma LampRowsInserted()
    ensures FindRow([], User(1), 1) == None && CartQuantity([], User(1), 1) == 0
    ensures PutQuantity([], User(1), 1, 1, 1) == [LampRows()[0]]
    ensures FindRow([LampRows()[0]], Guest("s2"), 1) == None && CartQuantity([LampRows()[0]], Guest("s2"), 1) == 0
    ensures PutQuantity([LampRows()[0]], Guest("s2"), 1, 1, 2) == LampRows()
  {
    var rows := LampRows();
    assert [rows[0]][1..] == [];
    assert !RowFor(rows[0], Guest("s2"), 1);
  }

  /** A signed-in user and a guest each put the last unit of a lamp in their carts. */
  method FillLampCarts(store: Store)
    requires store.Valid() && store.cart == [] && store.nextCartItemId == 1
    requires store.products == Lamps(1)
    modifies store
    ensures store.Valid() && store.products == old(store.products) && store.cart == LampRows()
  {
    LampRowsInserted();
    var added := store.AddToCart(Session(Some(1), "s1"), 1, 1);
    added := store.AddToCart(Session(None, "s2"), 1, 1);
  }

  /** The lamp catalogue with `stock` units left. */
  function Lamps(stock: int): (products: map<nat, Product>)
    ensures 1 in products && products[1].stock == stock && !products[1].deleted
  {
    map[1 := Product("Lamp", 2500, stock, None, false)]
  }

  /** Checkout on the lamp catalogue: one unit can be bought while there is one, and not after. */
  lemma LampCheckoutFacts()
    ensures FirstStockProblem(Lamps(1), [LampRows()[0]]) == None
    ensures AllInStock(Lamps(1), [LampRows()[0]]) && Subtotal(Lamps(1), [LampRows()[0]]) == 2500
    ensures Decremented(Lamps(1), [LampRows()[0]]) == Lamps(0)
    ensures FirstStockProblem(Lamps(0), [LampRows()[1]]) == Some(NotEnoughStock("Lamp", 0))
  {
    var line := [LampRows()[0]];
    assert line[..0] == [];
    assert !LineInStock(Lamps(0), LampRows()[1]);
  }

  /** The signed-in buyer checks out first and gets the lamp. */
  method FirstBuyer(store: Store) returns (r: CheckoutOutcome)
    requires store.Valid() && store.products == Lamps(1) && store.cart == LampRows()
    modifies store
    ensures r.Purchased? && r.itemsPurchased == 1 && r.totalAmount == 2500
    ensures store.Valid() && store.products == Lamps(0) && store.cart == [LampRows()[1]]
  {
    LampRowsByOwner();
    LampCheckoutFacts();
    r := store.ProcessCheckout(Session(Some(1), "s1"), DEFAULT_LOW_STOCK_THRESHOLD);
  }

  /**
   * Two carts each hold the last unit. Checked out one after the other, the first purchase
   * succeeds, and the second is refused with the stock it found.
   */
  method LastUnitBoughtOnce() returns (first: CheckoutOutcome, second: CheckoutOutcome, stockAfter: int)
    ensures first.Purchased? && first.itemsPurchased == 1 && first.totalAmount == 2500
    ensures second == CheckoutFailed(NotEnoughStock("Lamp", 0))
    ensures second.Message() == "Not enough stock for Lamp. Only 0 available."
    ensures stockAfter == 0
  {
    var store := new Store(Lamps(1));
    FillLampCarts(store);
    first := FirstBuyer(store);
    LampRowsByOwner();
    LampCheckoutFacts();
    var rows := LampRows();
    assert OwnedRows([rows[1]], Guest("s2")) == [rows[1]];
    second := store.ProcessCheckout(Session(None, "s2"), DEFAULT_LOW_STOCK_THRESHOLD);
    stockAfter := store.products[1].stock;
    NoneLeftMessage();
  }

  /** Two runs of the job for one product an hour apart mail each admin once in all. */
  method AlertsDeduplicated() returns (outbox: seq<LowStockAlert>)
    ensures outbox == [LowStockAlert("a@shop.test", 1), LowStockAlert("b@shop.test", 1)]
  {
    var notifier := new Notifier();
    var admins := ["a@shop.test", "b@shop.test"];
    notifier.Handle(LowStockJob(1), 0, admins);
    notifier.Handle(LowStockJob(1), 3600, admins);
    outbox := notifier.outbox;
  }
}
