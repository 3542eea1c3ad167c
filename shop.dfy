/**
 * The shop's tables and the cart actions that update them in place: adding to the cart, changing
 * and removing a row, and checkout as one atomic step.
 */
module Shop {
  import opened Wrappers
  import opened Text
  import opened Seqs
  import opened Inventory
  import opened CartRows
  import opened CartQueries
  import opened LowStockNotification
  import opened Checkout

  /** What a cart action reports back to the page. */
  datatype CartOutcome =
    | Added
    | Updated
    | Removed(productName: string)
    | OutOfStock
    | InsufficientStock(available: int)
    | AlreadyAtMaximum
    | StockLimitReached(more: int)
    | ProductNotFound     // `findOrFail` answers 404
    | CartItemNotFound    // route-model binding answers 404
    | RowProductUnavailable  // the row's product is soft-deleted: reading it raises an error
  {
    predicate Success() {
      Added? || Updated? || Removed?
    }

    /** The outcomes that come back as a flash message rather than an error page. */
    predicate HasMessage() {
      !(ProductNotFound? || CartItemNotFound? || RowProductUnavailable?)
    }

    function Message(): string
      requires HasMessage()
    {
      match this
      case Added => "\U{2713} Product added to cart successfully!"
      case Updated => "Cart quantity updated!"
      case Removed(name) => name + " removed from cart."
      case OutOfStock => "Sorry, this product is out of stock."
      case InsufficientStock(available) => "Only " + IntToString(available) + " items available in stock."
      case AlreadyAtMaximum => "You already have the maximum available quantity in your cart."
      case StockLimitReached(more) => "Only " + IntToString(more) + " more items can be added (stock limit reached)."
    }
  }

  datatype CheckoutOutcome =
    | Purchased(itemsPurchased: nat, totalAmount: int, orderId: nat)
    | CheckoutFailed(error: CheckoutError)
  {
    function Message(): string {
      match this
      case Purchased(_, _, _) => "Purchase completed successfully!"
      case CheckoutFailed(e) => e.Message()
    }
  }

  /** The database: products, cart rows, orders with their items, and the queue of low-stock jobs. */
  class Store {
    var products: map<nat, Product>
    var cart: seq<CartItem>
    var nextCartItemId: nat
    var orders: seq<Order>
    var orderItems: seq<OrderItem>
    var jobs: seq<LowStockJob>

    ghost predicate Valid()
      reads this
    {
      && StockNonNegative(products)
      && CartWellFormed(cart, nextCartItemId)
      && OrdersConsistent(orders, orderItems)
    }

    constructor (products: map<nat, Product>)
      requires StockNonNegative(products)
      ensures Valid() && this.products == products
      ensures cart == [] && nextCartItemId == 1 && orders == [] && orderItems == [] && jobs == []
    {
      this.products := products;
      cart := [];
      nextCartItemId := 1;
      orders := [];
      orderItems := [];
      jobs := [];
    }

    /** `firstOrCreate` on (owner column, product) with quantity 0; answers the row's position. */
    method FindOrCreateCartItem(owner: Owner, productId: nat) returns (index: nat)
      requires Valid()
      modifies this
      ensures Valid()
      ensures products == old(products) && orders == old(orders) && orderItems == old(orderItems) && jobs == old(jobs)
      ensures index < |cart| && RowFor(cart[index], owner, productId)
      ensures match FindRow(old(cart), owner, productId)
        case Some(i) => index == i && cart == old(cart) && nextCartItemId == old(nextCartItemId)
        case None =>
          && index == |old(cart)|
          && cart == old(cart) + [NewRow(old(nextCartItemId), owner, productId, 0)]
          && nextCartItemId == old(nextCartItemId) + 1
    {
      match FindRow(cart, owner, productId)
      case Some(i) =>
        index := i;
      case None =>
        PutNewEffect(cart, owner, productId, 0, nextCartItemId);
        cart := cart + [NewRow(nextCartItemId, owner, productId, 0)];
        nextCartItemId := nextCartItemId + 1;
        index := |cart| - 1;
    }

    /**
     * Add `quantity` units to the owner's row for the product. The guards run in the source's
     * order; only a row that already existed can fail the cart-limit check, so no failure leaves
     * a row behind or changes a quantity.
     */
    method AddToCart(session: Session, productId: nat, quantity: int) returns (r: CartOutcome)
      requires Valid()
      requires 1 <= quantity
      modifies this
      ensures Valid()
      ensures products == old(products) && orders == old(orders) && orderItems == old(orderItems) && jobs == old(jobs)
      ensures !r.Added? ==> cart == old(cart) && nextCartItemId == old(nextCartItemId)
      ensures !Available(old(products), productId) ==> r == ProductNotFound
      ensures Available(old(products), productId) ==>
        var stock := old(products)[productId].stock;
        var have := CartQuantity(old(cart), session.CartOwner(), productId);
        && (stock == 0 ==> r == OutOfStock)
        && (0 < stock < quantity ==> r == InsufficientStock(stock))
        && (0 < stock && quantity <= stock < have + quantity ==>
              r == if stock - have <= 0 then AlreadyAtMaximum else StockLimitReached(stock - have))
        && (0 < stock && have + quantity <= stock ==> r == Added)
      ensures r.Added? ==>
        var have := CartQuantity(old(cart), session.CartOwner(), productId);
        && cart == PutQuantity(old(cart), session.CartOwner(), productId, have + quantity, old(nextCartItemId))
        && CartQuantity(cart, session.CartOwner(), productId) == have + quantity
        && have + quantity <= products[productId].stock
        && nextCartItemId == if FindRow(old(cart), session.CartOwner(), productId).Some?
                             then old(nextCartItemId) else old(nextCartItemId) + 1
    {
      if !Available(products, productId) {
        return ProductNotFound;
      }
      var product := products[productId];
      if product.stock == 0 {
        return OutOfStock;
      }
      if product.stock < quantity {
        return InsufficientStock(product.stock);
      }
      r := AddUnits(session.CartOwner(), productId, quantity);
    }

    /**
     * The part of adding to the cart after the stock guards: find or create the owner's row, and
     * raise its quantity unless the sum would pass the stock.
     */
    method AddUnits(owner: Owner, productId: nat, quantity: int) returns (r: CartOutcome)
      requires Valid()
      requires Available(products, productId) && 1 <= quantity <= products[productId].stock
      modifies this
      ensures Valid()
      ensures products == old(products) && orders == old(orders) && orderItems == old(orderItems) && jobs == old(jobs)
      ensures !r.Added? ==> cart == old(cart) && nextCartItemId == old(nextCartItemId)
      ensures
        var stock := old(products)[productId].stock;
        var have := CartQuantity(old(cart), owner, productId);
        && (stock < have + quantity ==>
              r == if stock - have <= 0 then AlreadyAtMaximum else StockLimitReached(stock - have))
        && (have + quantity <= stock ==> r == Added)
      ensures r.Added? ==>
        var have := CartQuantity(old(cart), owner, productId);
        && cart == PutQuantity(old(cart), owner, productId, have + quantity, old(nextCartItemId))
        && CartQuantity(cart, owner, productId) == have + quantity
        && nextCartItemId == if FindRow(old(cart), owner, productId).Some?
                             then old(nextCartItemId) else old(nextCartItemId) + 1
    {
      var product := products[productId];
      ghost var cart0, next0 := cart, nextCartItemId;
      ghost var have := CartQuantity(cart0, owner, productId);
      var index := FindOrCreateCartItem(owner, productId);
      var row := cart[index];
      assert row.quantity == have;
      var newQuantity := row.quantity + quantity;
      if newQuantity > product.stock {
        // a row created just now holds 0 and passes the check: this one existed before
        assert FindRow(cart0, owner, productId).Some?;
        var available := product.stock - row.quantity;
        if available <= 0 {
          return AlreadyAtMaximum;
        }
        return StockLimitReached(available);
      }
      CreateThenSetEffect(cart0, next0, owner, productId, newQuantity, cart, index);
      cart := cart[index := row.(quantity := newQuantity)];
      return Added;
    }

    /** Overwrite the quantity of the row with the given id, unless the product has fewer units. */
    method UpdateCartItem(cartItemId: nat, quantity: int) returns (r: CartOutcome)
      requires Valid()
      requires 1 <= quantity
      modifies this
      ensures Valid()
      ensures products == old(products) && orders == old(orders) && orderItems == old(orderItems) && jobs == old(jobs)
      ensures nextCartItemId == old(nextCartItemId)
      ensures IndexOfId(old(cart), cartItemId).None? ==> r == CartItemNotFound
      ensures IndexOfId(old(cart), cartItemId).Some? ==>
        var productId := old(cart)[IndexOfId(old(cart), cartItemId).value].productId;
        && (!Available(products, productId) ==> r == RowProductUnavailable)
        && (Available(products, productId) && products[productId].stock < quantity ==>
              r == InsufficientStock(products[productId].stock))
        && (Available(products, productId) && quantity <= products[productId].stock ==> r == Updated)
      ensures r.Updated? ==> cart == SetQuantity(old(cart), cartItemId, quantity)
      ensures !r.Updated? ==> cart == old(cart)
    {
      var found := IndexOfId(cart, cartItemId);
      if found.None? {
        return CartItemNotFound;
      }
      var i := found.value;
      var row := cart[i];
      if !Available(products, row.productId) {
        return RowProductUnavailable;
      }
      var stock := products[row.productId].stock;
      if stock < quantity {
        return InsufficientStock(stock);
      }
      forall j | 0 <= j < |cart| && cart[j].id == cartItemId ensures j == i {
        IdsUnique(cart, nextCartItemId, i, j);
      }
      ReplaceKeepsWellFormed(cart, nextCartItemId, i, row.(quantity := quantity));
      cart := cart[i := row.(quantity := quantity)];
      return Updated;
    }

    /** Delete the row with the given id, answering the name of its product read beforehand. */
    method RemoveFromCart(cartItemId: nat) returns (r: CartOutcome)
      requires Valid()
      modifies this
      ensures Valid()
      ensures products == old(products) && orders == old(orders) && orderItems == old(orderItems) && jobs == old(jobs)
      ensures nextCartItemId == old(nextCartItemId)
      ensures IndexOfId(old(cart), cartItemId).None? ==> r == CartItemNotFound
      ensures IndexOfId(old(cart), cartItemId).Some? ==>
        var productId := old(cart)[IndexOfId(old(cart), cartItemId).value].productId;
        && (!Available(products, productId) ==> r == RowProductUnavailable)
        && (Available(products, productId) ==> r == Removed(products[productId].name))
      ensures r.Removed? ==> cart == WithoutId(old(cart), cartItemId)
      ensures r.Removed? ==> forall row :: row in cart <==> row in old(cart) && row.id != cartItemId
      ensures !r.Removed? ==> cart == old(cart)
    {
      var found := IndexOfId(cart, cartItemId);
      if found.None? {
        return CartItemNotFound;
      }
      var row := cart[found.value];
      if !Available(products, row.productId) {
        return RowProductUnavailable;
      }
      var productName := products[row.productId].name;
      FilterKeepsWellFormed(cart, nextCartItemId, (row: CartItem) => row.id != cartItemId);
      WithoutIdEffect(cart, cartItemId);
      cart := WithoutId(cart, cartItemId);
      return Removed(productName);
    }

    /** The validation pass: look at every line in turn and stop at the first that cannot be bought. */
    method ValidateStock(lines: seq<CartItem>) returns (problem: Option<CheckoutError>)
      ensures problem == FirstStockProblem(products, lines)
    {
      var i := 0;
      while i < |lines|
        invariant 0 <= i <= |lines|
        invariant forall j :: 0 <= j < i ==> LineInStock(products, lines[j])
      {
        if !LineInStock(products, lines[i]) {
          return Some(LineProblem(products, lines[i]));
        }
        i := i + 1;
      }
      return None;
    }

    /**
     * The purchase loop: for each line in turn, record its snapshot (from the product as loaded
     * before the loop), decrement the product's stock, re-read it and queue a low-stock job if it
     * is now low.
     */
    method CommitLines(orderId: nat, lines: seq<CartItem>, globalThreshold: int)
      requires AllInStock(products, lines)
      modifies this
      ensures cart == old(cart) && nextCartItemId == old(nextCartItemId) && orders == old(orders)
      ensures orderItems == old(orderItems) + Snapshots(orderId, old(products), lines)
      ensures products == Decremented(old(products), lines)
      ensures jobs == old(jobs) + LowStockJobs(old(products), lines, globalThreshold)
    {
      var loaded := products;
      var k := 0;
      while k < |lines|
        invariant 0 <= k <= |lines|
        invariant cart == old(cart) && nextCartItemId == old(nextCartItemId) && orders == old(orders)
        invariant orderItems == old(orderItems) + Snapshots(orderId, loaded, lines[..k])
        invariant products == Decremented(loaded, lines[..k])
        invariant jobs == old(jobs) + LowStockJobs(loaded, lines[..k], globalThreshold)
      {
        CommitStep(orderId, loaded, lines, k, globalThreshold);
        var line := lines[k];
        ghost var before := products;
        CommitLine(orderId, line, loaded[line.productId], globalThreshold);
        assert products == before[line.productId := before[line.productId].(stock := before[line.productId].stock - line.quantity)];
        AppendAssoc(old(orderItems), Snapshots(orderId, loaded, lines[..k]),
                    [Snapshot(orderId, lines[k], loaded[lines[k].productId])]);
        AppendAssoc(old(jobs), LowStockJobs(loaded, lines[..k], globalThreshold),
                    if IsLowStock(products[lines[k].productId], globalThreshold) then [LowStockJob(lines[k].productId)] else []);
        k := k + 1;
      }
      assert lines[..k] == lines;
    }

    /** One pass of the purchase loop: snapshot the line, decrement its product, queue a job if now low. */
    method CommitLine(orderId: nat, line: CartItem, loadedProduct: Product, globalThreshold: int)
      requires line.productId in products
      modifies this
      ensures cart == old(cart) && nextCartItemId == old(nextCartItemId) && orders == old(orders)
      ensures orderItems == old(orderItems) + [Snapshot(orderId, line, loadedProduct)]
      ensures products == old(products)[line.productId :=
        old(products)[line.productId].(stock := old(products)[line.productId].stock - line.quantity)]
      ensures jobs == old(jobs) + (if IsLowStock(products[line.productId], globalThreshold)
                                   then [LowStockJob(line.productId)] else [])
    {
      orderItems := orderItems + [Snapshot(orderId, line, loadedProduct)];
      var current := products[line.productId];
      products := products[line.productId := current.(stock := current.stock - line.quantity)];
      if IsLowStock(products[line.productId], globalThreshold) {
        jobs := jobs + [LowStockJob(line.productId)];
      }
    }

    /**
     * Checkout: reject an empty cart, validate every line, record the order and one snapshot per
     * line, decrement stock, queue a job for each product now low, and delete the owner's rows.
     * Every failure is detected before the first write.
     */
    method ProcessCheckout(session: Session, globalThreshold: int) returns (r: CheckoutOutcome)
      requires Valid()
      modifies this
      ensures Valid()
      ensures nextCartItemId == old(nextCartItemId)
      ensures var lines := OwnedRows(old(cart), session.CartOwner());
        r.CheckoutFailed? <==> lines == [] || FirstStockProblem(old(products), lines).Some?
      ensures var lines := OwnedRows(old(cart), session.CartOwner());
        r.CheckoutFailed? ==> r.error == if lines == [] then EmptyCart else FirstStockProblem(old(products), lines).value
      ensures r.CheckoutFailed? ==>
        && products == old(products) && cart == old(cart) && orders == old(orders)
        && orderItems == old(orderItems) && jobs == old(jobs)
      ensures r.Purchased? ==>
        var lines := OwnedRows(old(cart), session.CartOwner());
        && AllInStock(old(products), lines)
        && r.orderId == |old(orders)| + 1
        && r.itemsPurchased == |lines|
        && r.totalAmount == Subtotal(old(products), lines)
        && orders == old(orders) + [Order(session.authId, session.sessionId, r.totalAmount, |lines|)]
        && orderItems == old(orderItems) + Snapshots(r.orderId, old(products), lines)
        && products == Decremented(old(products), lines)
        && jobs == old(jobs) + LowStockJobs(old(products), lines, globalThreshold)
        && cart == WithoutOwner(old(cart), session.CartOwner())
    {
      var owner := session.CartOwner();
      var lines := OwnedRows(cart, owner);
      if lines == [] {
        return CheckoutFailed(EmptyCart);
      }
      var problem := ValidateStock(lines);
      if problem.Some? {
        return CheckoutFailed(problem.value);
      }
      r := Purchase(session, globalThreshold);
    }

    /** The writes of a checkout whose lines all passed validation; answers the new order's id. */
    method Purchase(session: Session, globalThreshold: int) returns (r: CheckoutOutcome)
      requires Valid()
      requires AllInStock(products, OwnedRows(cart, session.CartOwner()))
      modifies this
      ensures Valid()
      ensures nextCartItemId == old(nextCartItemId)
      ensures
        var lines := OwnedRows(old(cart), session.CartOwner());
        && r == Purchased(|lines|, Subtotal(old(products), lines), |old(orders)| + 1)
        && orders == old(orders) + [Order(session.authId, session.sessionId, r.totalAmount, |lines|)]
        && orderItems == old(orderItems) + Snapshots(r.orderId, old(products), lines)
        && products == Decremented(old(products), lines)
        && jobs == old(jobs) + LowStockJobs(old(products), lines, globalThreshold)
        && cart == WithoutOwner(old(cart), session.CartOwner())
    {
      var owner := session.CartOwner();
      var lines := OwnedRows(cart, owner);
      OwnedRowsDistinctProducts(cart, nextCartItemId, owner);
      var loaded := products;
      var totalAmount := Subtotal(loaded, lines);
      var orderId := |orders| + 1;
      var order := Order(session.authId, session.sessionId, totalAmount, |lines|);
      orders := orders + [order];
      CommitLines(orderId, lines, globalThreshold);
      FilterKeepsWellFormed(cart, nextCartItemId, (row: CartItem) => !Owns(row, owner));
      cart := WithoutOwner(cart, owner);
      CheckoutKeepsStockNonNegative(loaded, lines);
      SnapshotsTotal(orderId, loaded, lines);
      AddOrderKeepsConsistent(old(orders), old(orderItems), order, Snapshots(orderId, loaded, lines));
      return Purchased(|lines|, totalAmount, orderId);
    }
  }
}
