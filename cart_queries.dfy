/**
 * Read-only views of a cart: the rows with their products, the subtotal and the badge count
 * (`GetCartItems`, `GetCartCount`), and the price sum that checkout reuses.
 */
module CartQueries {
  import opened Wrappers
  import opened Seqs
  import opened Inventory
  import opened CartRows

  /** The product exists and is not soft-deleted, so eager loading finds it. */
  predicate Available(products: map<nat, Product>, productId: nat) {
    productId in products && !products[productId].deleted
  }

  predicate AllAvailable(products: map<nat, Product>, rows: seq<CartItem>) {
    forall i :: 0 <= i < |rows| ==> Available(products, rows[i].productId)
  }

  /** Σ price × quantity over the rows (integer cents). */
  function Subtotal(products: map<nat, Product>, rows: seq<CartItem>): int
    requires AllAvailable(products, rows)
  {
    if rows == [] then 0
    else
      var last := rows[|rows| - 1];
      Subtotal(products, rows[..|rows| - 1]) + products[last.productId].price * last.quantity
  }

  /** Σ quantity over the rows. */
  function SumQuantity(rows: seq<CartItem>): nat {
    if rows == [] then 0 else SumQuantity(rows[..|rows| - 1]) + rows[|rows| - 1].quantity
  }

  /** Every row contributes its quantity: the sum is at least any one row's quantity. */
  lemma {:induction false} SumQuantityAtLeast(rows: seq<CartItem>, i: nat)
    requires i < |rows|
    ensures rows[i].quantity <= SumQuantity(rows)
  {
    if i < |rows| - 1 {
      SumQuantityAtLeast(rows[..|rows| - 1], i);
    }
  }

  /** The value `user_id` is compared with: `Auth::id() ?? $request->session()->getId()`. */
  datatype ColumnValue = IntValue(n: int) | StringValue(s: string)

  function UserColumnFilter(session: Session): ColumnValue {
    match session.authId
    case Some(u) => IntValue(u)
    case None => StringValue(session.sessionId)
  }

  /**
   * `user_id = value`: an unset column matches nothing, and an integer id never equals
   * a session-id string.
   */
  predicate UserColumnMatches(row: CartItem, value: ColumnValue) {
    row.userId.Some? && value == IntValue(row.userId.value)
  }

  datatype CartView = CartView(items: seq<CartItem>, subtotal: int)

  /**
   * The rows whose `user_id` equals the filter value, and their subtotal. `None` stands for the
   * error PHP raises when a returned row's product is missing or soft-deleted (its price is read
   * from a null relation).
   */
  function GetCartItems(cart: seq<CartItem>, products: map<nat, Product>, session: Session): (r: Option<CartView>)
    ensures var selected := Filter(cart, (row: CartItem) => UserColumnMatches(row, UserColumnFilter(session)));
      r.Some? <==> AllAvailable(products, selected)
    ensures r.Some? ==> forall row :: row in r.value.items <==>
      row in cart && session.authId.Some? && row.userId == session.authId
    ensures r.Some? ==> r.value.subtotal == Subtotal(products, r.value.items)
    ensures r.Some? && r.value.items == [] ==> r.value.subtotal == 0
  {
    var items := Filter(cart, (row: CartItem) => UserColumnMatches(row, UserColumnFilter(session)));
    if AllAvailable(products, items) then Some(CartView(items, Subtotal(products, items))) else None
  }

  /** The badge count: Σ quantity over the rows `GetCartItems` returns. */
  function GetCartCount(cart: seq<CartItem>, products: map<nat, Product>, session: Session): (r: Option<nat>)
    ensures r.Some? <==> GetCartItems(cart, products, session).Some?
    ensures r.Some? ==> r.value == SumQuantity(GetCartItems(cart, products, session).value.items)
  {
    match GetCartItems(cart, products, session)
    case Some(view) => Some(SumQuantity(view.items))
    case None => None
  }

  /** An empty cart counts 0; a cart holding a row with quantity at least 1 counts at least 1. */
  lemma CartCountBounds(cart: seq<CartItem>, products: map<nat, Product>, session: Session)
    requires GetCartItems(cart, products, session).Some?
    ensures var items := GetCartItems(cart, products, session).value.items;
      && (items == [] ==> GetCartCount(cart, products, session) == Some(0))
      && ((exists i :: 0 <= i < |items| && 1 <= items[i].quantity) ==> 1 <= GetCartCount(cart, products, session).value)
  {
    var items := GetCartItems(cart, products, session).value.items;
    if i :| 0 <= i < |items| && 1 <= items[i].quantity {
      SumQuantityAtLeast(items, i);
    }
  }

  /**
   * As written, a guest's cart page is always empty and counts 0: the guest filter compares
   * `user_id` with the session id, whereas guest rows carry only `session_id`.
   */
  lemma GuestCartIsAlwaysEmpty(cart: seq<CartItem>, products: map<nat, Product>, session: Session)
    requires session.authId.None?
    ensures GetCartItems(cart, products, session) == Some(CartView([], 0))
    ensures GetCartCount(cart, products, session) == Some(0)
  {
    var keep := (row: CartItem) => UserColumnMatches(row, UserColumnFilter(session));
    FilterNone(cart, keep);
  }

  /** The guest row that adding to the cart stores, which checkout buys but the cart page hides. */
  lemma GuestRowHiddenFromCartPage()
    ensures var session := Session(None, "s");
      var cart := [NewRow(1, session.CartOwner(), 7, 2)];
      && OwnedRows(cart, session.CartOwner()) == cart
      && GetCartItems(cart, map[7 := Product("Mug", 500, 10, None, false)], session) == Some(CartView([], 0))
  {
    var session := Session(None, "s");
    var cart := [NewRow(1, session.CartOwner(), 7, 2)];
    FilterAll(cart, (row: CartItem) => Owns(row, session.CartOwner()));
    GuestCartIsAlwaysEmpty(cart, map[7 := Product("Mug", 500, 10, None, false)], session);
  }

  /**
   * The owner's cart as checkout and adding to the cart see it: the rows selected by the
   * owner's own key column.
   */
  function OwnerCartItems(cart: seq<CartItem>, products: map<nat, Product>, session: Session): (r: Option<CartView>)
    ensures r.Some? <==> AllAvailable(products, OwnedRows(cart, session.CartOwner()))
    ensures r.Some? ==> r.value.items == OwnedRows(cart, session.CartOwner())
    ensures r.Some? ==> r.value.subtotal == Subtotal(products, r.value.items)
  {
    var items := OwnedRows(cart, session.CartOwner());
    if AllAvailable(products, items) then Some(CartView(items, Subtotal(products, items))) else None
  }

  /** The corrected cart page shows the guest row that the written one hides. */
  lemma GuestRowShownByOwnerCart()
    ensures var session := Session(None, "s");
      var cart := [NewRow(1, session.CartOwner(), 7, 2)];
      OwnerCartItems(cart, map[7 := Product("Mug", 500, 10, None, false)], session) == Some(CartView(cart, 1000))
  {
    var session := Session(None, "s");
    var cart := [NewRow(1, session.CartOwner(), 7, 2)];
    FilterAll(cart, (row: CartItem) => Owns(row, session.CartOwner()));
    assert cart[..0] == [];
  }

  /** For a logged-in user the two selections agree, so the discrepancy is a guest-only one. */
  lemma OwnerCartItemsAgreeForUsers(cart: seq<CartItem>, products: map<nat, Product>, session: Session)
    requires session.authId.Some?
    ensures OwnerCartItems(cart, products, session) == GetCartItems(cart, products, session)
  {
    FilterSame(cart, (row: CartItem) => UserColumnMatches(row, UserColumnFilter(session)),
                     (row: CartItem) => Owns(row, session.CartOwner()));
  }

  /** For a guest the corrected selection returns exactly the rows stored under the session id. */
  lemma OwnerCartItemsForGuests(cart: seq<CartItem>, products: map<nat, Product>, session: Session)
    requires session.authId.None?
    requires OwnerCartItems(cart, products, session).Some?
    ensures forall row :: row in OwnerCartItems(cart, products, session).value.items <==>
      row in cart && row.sessionId == Some(session.sessionId)
  {
  }
}
