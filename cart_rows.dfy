/**
 * The `cart_items` table: rows keyed by (owner, product), where the owner is a logged-in
 * user (`user_id` set) or a guest session (`session_id` set). The table is kept in id order,
 * which is the order the database returns rows in.
 */
module CartRows {
  import opened Wrappers
  import opened Seqs

  /** Auto-increment user ids start at 1, so a user id is never PHP-falsy. */
  type UserId = n: nat | 1 <= n witness 1

  /** Whose cart a request works on. */
  datatype Owner = User(id: UserId) | Guest(sessionId: string)

  /** The request's authentication state (`Auth::id()`) and its session id, which every request has. */
  datatype Session = Session(authId: Option<UserId>, sessionId: string) {
    /** The logged-in user when there is one, otherwise the guest session. */
    function CartOwner(): (o: Owner)
      ensures authId.Some? ==> o == User(authId.value)
      ensures authId.None? ==> o == Guest(sessionId)
    {
      match authId
      case Some(u) => User(u)
      case None => Guest(sessionId)
    }
  }

  datatype CartItem = CartItem(
    id: nat,
    userId: Option<UserId>,
    sessionId: Option<string>,
    productId: nat,
    quantity: nat)

  /** The row belongs to `owner`'s cart: matched on `user_id` for users, on `session_id` for guests. */
  predicate Owns(row: CartItem, owner: Owner) {
    match owner
    case User(u) => row.userId == Some(u)
    case Guest(s) => row.sessionId == Some(s)
  }

  predicate RowFor(row: CartItem, owner: Owner, productId: nat) {
    Owns(row, owner) && row.productId == productId
  }

  /** Exactly one of the two owner columns is set. */
  predicate OneOwnerColumn(row: CartItem) {
    row.userId.Some? != row.sessionId.Some?
  }

  /** The two rows collide on the upsert key (owner column, product). */
  predicate SameKey(a: CartItem, b: CartItem) {
    && a.productId == b.productId
    && ((a.userId.Some? && a.userId == b.userId) || (a.sessionId.Some? && a.sessionId == b.sessionId))
  }

  predicate IdsBelow(cart: seq<CartItem>, nextId: nat) {
    forall i :: 0 <= i < |cart| ==> cart[i].id < nextId
  }

  predicate IdsIncrease(cart: seq<CartItem>) {
    forall i, j :: 0 <= i < j < |cart| ==> cart[i].id < cart[j].id
  }

  predicate KeysDistinct(cart: seq<CartItem>) {
    forall i, j :: 0 <= i < j < |cart| ==> !SameKey(cart[i], cart[j])
  }

  /**
   * The table invariant: ids increase along the table and stay below the next id to hand out,
   * every row has one owner column, and no two rows share an upsert key.
   */
  predicate CartWellFormed(cart: seq<CartItem>, nextId: nat) {
    && IdsBelow(cart, nextId)
    && (forall i :: 0 <= i < |cart| ==> OneOwnerColumn(cart[i]))
    && IdsIncrease(cart)
    && KeysDistinct(cart)
  }

  /** The row a fresh `firstOrCreate` inserts for `owner`. */
  function NewRow(id: nat, owner: Owner, productId: nat, quantity: nat): (row: CartItem)
    ensures row.id == id && row.productId == productId && row.quantity == quantity
    ensures RowFor(row, owner, productId) && OneOwnerColumn(row)
  {
    match owner
    case User(u) => CartItem(id, Some(u), None, productId, quantity)
    case Guest(s) => CartItem(id, None, Some(s), productId, quantity)
  }

  /** The first row for (owner, product), as `firstOrCreate`'s lookup finds it. */
  function FindRow(cart: seq<CartItem>, owner: Owner, productId: nat): (r: Option<nat>)
    ensures r.Some? ==> r.value < |cart| && RowFor(cart[r.value], owner, productId)
    ensures r.Some? ==> forall j :: 0 <= j < r.value ==> !RowFor(cart[j], owner, productId)
    ensures r.None? <==> forall j :: 0 <= j < |cart| ==> !RowFor(cart[j], owner, productId)
  {
    if cart == [] then None
    else if RowFor(cart[0], owner, productId) then Some(0)
    else match FindRow(cart[1..], owner, productId)
      case Some(i) => Some(i + 1)
      case None => None
  }

  /** The quantity `owner` already has of the product; a row not yet created counts as 0. */
  function CartQuantity(cart: seq<CartItem>, owner: Owner, productId: nat): nat {
    match FindRow(cart, owner, productId)
    case Some(i) => cart[i].quantity
    case None => 0
  }

  /** Upsert: overwrite the quantity of the owner's row for the product, or insert it with `nextId`. */
  function PutQuantity(cart: seq<CartItem>, owner: Owner, productId: nat, quantity: nat, nextId: nat): seq<CartItem> {
    match FindRow(cart, owner, productId)
    case Some(i) => cart[i := cart[i].(quantity := quantity)]
    case None => cart + [NewRow(nextId, owner, productId, quantity)]
  }

  /** In a well-formed table at most one row holds a given (owner, product) key. */
  lemma OneRowPerKey(cart: seq<CartItem>, nextId: nat, owner: Owner, productId: nat, i: nat, j: nat)
    requires CartWellFormed(cart, nextId)
    requires i < |cart| && j < |cart|
    requires RowFor(cart[i], owner, productId) && RowFor(cart[j], owner, productId)
    ensures i == j
  {
  }

  /** Ids are unique: two positions holding the same id are the same position. */
  lemma IdsUnique(cart: seq<CartItem>, nextId: nat, i: nat, j: nat)
    requires CartWellFormed(cart, nextId)
    requires i < |cart| && j < |cart| && cart[i].id == cart[j].id
    ensures i == j
  {
  }

  /** Replacing a row by one with the same id, owner columns and product keeps the invariant. */
  lemma ReplaceKeepsWellFormed(cart: seq<CartItem>, nextId: nat, i: nat, row: CartItem)
    requires CartWellFormed(cart, nextId)
    requires i < |cart|
    requires row.id == cart[i].id && row.userId == cart[i].userId
    requires row.sessionId == cart[i].sessionId && row.productId == cart[i].productId
    ensures CartWellFormed(cart[i := row], nextId)
  {
    var r := cart[i := row];
    forall a, b | 0 <= a < b < |r| ensures r[a].id < r[b].id && !SameKey(r[a], r[b]) {
      assert cart[a].id < cart[b].id && !SameKey(cart[a], cart[b]);
    }
  }

  /** Appending a row that takes the next id and collides with no key keeps the invariant. */
  lemma AppendKeepsWellFormed(cart: seq<CartItem>, nextId: nat, row: CartItem)
    requires CartWellFormed(cart, nextId)
    requires row.id == nextId && OneOwnerColumn(row)
    requires forall j :: 0 <= j < |cart| ==> !SameKey(cart[j], row)
    ensures CartWellFormed(cart + [row], nextId + 1)
  {
    var r := cart + [row];
    forall a, b | 0 <= a < b < |r| ensures r[a].id < r[b].id && !SameKey(r[a], r[b]) {
      if b < |cart| {
        assert cart[a].id < cart[b].id && !SameKey(cart[a], cart[b]);
      }
    }
  }

  /** Upsert hitting the existing row at `i`: only that row's quantity changes. */
  lemma PutExistingEffect(cart: seq<CartItem>, owner: Owner, productId: nat, quantity: nat, nextId: nat, i: nat)
    requires CartWellFormed(cart, nextId)
    requires FindRow(cart, owner, productId) == Some(i)
    ensures var r := PutQuantity(cart, owner, productId, quantity, nextId);
      && r == cart[i := cart[i].(quantity := quantity)]
      && CartQuantity(r, owner, productId) == quantity
      && CartWellFormed(r, nextId)
  {
    var r := cart[i := cart[i].(quantity := quantity)];
    ReplaceKeepsWellFormed(cart, nextId, i, cart[i].(quantity := quantity));
    assert forall j :: 0 <= j < i ==> r[j] == cart[j];
    assert RowFor(r[i], owner, productId);
    assert FindRow(r, owner, productId) == Some(i);
  }

  /** Upsert with no row for the key: a new row with `nextId` is appended. */
  lemma PutNewEffect(cart: seq<CartItem>, owner: Owner, productId: nat, quantity: nat, nextId: nat)
    requires CartWellFormed(cart, nextId)
    requires FindRow(cart, owner, productId) == None
    ensures var r := PutQuantity(cart, owner, productId, quantity, nextId);
      && r == cart + [NewRow(nextId, owner, productId, quantity)]
      && CartQuantity(r, owner, productId) == quantity
      && CartWellFormed(r, nextId + 1)
  {
    var row := NewRow(nextId, owner, productId, quantity);
    var r := cart + [row];
    forall j | 0 <= j < |cart| ensures !SameKey(cart[j], row) {
      assert !RowFor(cart[j], owner, productId);
      assert OneOwnerColumn(cart[j]);
    }
    AppendKeepsWellFormed(cart, nextId, row);
    assert forall j :: 0 <= j < |cart| ==> r[j] == cart[j];
    assert r[|cart|] == row;
    assert FindRow(r, owner, productId) == Some(|cart|);
  }

  /**
   * `firstOrCreate` followed by a write of the quantity: the same table as the upsert, whether the
   * row existed (`table` is the old one) or was just created with quantity 0 at the end.
   */
  lemma CreateThenSetEffect(cart: seq<CartItem>, nextId: nat, owner: Owner, productId: nat, quantity: nat,
                            table: seq<CartItem>, index: nat)
    requires CartWellFormed(cart, nextId)
    requires match FindRow(cart, owner, productId)
      case Some(i) => index == i && table == cart
      case None => index == |cart| && table == cart + [NewRow(nextId, owner, productId, 0)]
    ensures index < |table|
    ensures var r := table[index := table[index].(quantity := quantity)];
      && r == PutQuantity(cart, owner, productId, quantity, nextId)
      && CartQuantity(r, owner, productId) == quantity
      && CartWellFormed(r, if FindRow(cart, owner, productId).Some? then nextId else nextId + 1)
  {
    match FindRow(cart, owner, productId)
    case Some(i) =>
      PutExistingEffect(cart, owner, productId, quantity, nextId, i);
    case None =>
      PutNewEffect(cart, owner, productId, quantity, nextId);
      assert table[index := table[index].(quantity := quantity)] == cart + [NewRow(nextId, owner, productId, quantity)];
  }

  /**
   * After the upsert the owner holds exactly `quantity` of the product, the table is still
   * well formed (with `nextId` spent), and every row for another key is where it was.
   */
  lemma PutQuantityEffect(cart: seq<CartItem>, owner: Owner, productId: nat, quantity: nat, nextId: nat)
    requires CartWellFormed(cart, nextId)
    ensures var r := PutQuantity(cart, owner, productId, quantity, nextId);
      && CartQuantity(r, owner, productId) == quantity
      && CartWellFormed(r, if FindRow(cart, owner, productId).Some? then nextId else nextId + 1)
      && |cart| <= |r| <= |cart| + 1
      && (forall j :: 0 <= j < |cart| && !RowFor(cart[j], owner, productId) ==> r[j] == cart[j])
      && (forall j :: |cart| <= j < |r| ==> RowFor(r[j], owner, productId))
  {
    match FindRow(cart, owner, productId)
    case Some(i) =>
      PutExistingEffect(cart, owner, productId, quantity, nextId, i);
    case None =>
      PutNewEffect(cart, owner, productId, quantity, nextId);
  }

  /** Overwrite the quantity of the row with the given id (an `update` on that row). */
  function SetQuantity(cart: seq<CartItem>, id: nat, quantity: nat): (r: seq<CartItem>)
    ensures |r| == |cart|
    ensures forall i :: 0 <= i < |cart| && cart[i].id == id ==> r[i] == cart[i].(quantity := quantity)
    ensures forall i :: 0 <= i < |cart| && cart[i].id != id ==> r[i] == cart[i]
  {
    seq(|cart|, i requires 0 <= i < |cart| => if cart[i].id == id then cart[i].(quantity := quantity) else cart[i])
  }

  /** Setting the same quantity twice is the same as setting it once. */
  lemma SetQuantityIdempotent(cart: seq<CartItem>, id: nat, quantity: nat)
    ensures SetQuantity(SetQuantity(cart, id, quantity), id, quantity) == SetQuantity(cart, id, quantity)
  {
  }

  /** The position of the row with the given id, as route-model binding finds it. */
  function IndexOfId(cart: seq<CartItem>, id: nat): (r: Option<nat>)
    ensures r.Some? ==> r.value < |cart| && cart[r.value].id == id
    ensures r.None? <==> forall j :: 0 <= j < |cart| ==> cart[j].id != id
  {
    if cart == [] then None
    else if cart[0].id == id then Some(0)
    else match IndexOfId(cart[1..], id)
      case Some(i) => Some(i + 1)
      case None => None
  }

  /** The table with the row of the given id deleted. */
  function WithoutId(cart: seq<CartItem>, id: nat): seq<CartItem> {
    Filter(cart, (row: CartItem) => row.id != id)
  }

  /** The owner's rows, as checkout selects them (`user_id` for users, `session_id` for guests). */
  function OwnedRows(cart: seq<CartItem>, owner: Owner): seq<CartItem> {
    Filter(cart, (row: CartItem) => Owns(row, owner))
  }

  /** The table with the owner's rows deleted (checkout's bulk delete). */
  function WithoutOwner(cart: seq<CartItem>, owner: Owner): seq<CartItem> {
    Filter(cart, (row: CartItem) => !Owns(row, owner))
  }

  /** Deleting any selection of rows keeps the table well formed. */
  lemma FilterKeepsWellFormed(cart: seq<CartItem>, nextId: nat, keep: CartItem -> bool)
    requires CartWellFormed(cart, nextId)
    ensures CartWellFormed(Filter(cart, keep), nextId)
  {
    var r := Filter(cart, keep);
    var idLess := (a: CartItem, b: CartItem) => a.id < b.id;
    var apart := (a: CartItem, b: CartItem) => !SameKey(a, b);
    assert Pairwise(cart, idLess) && Pairwise(cart, apart);
    FilterPairwise(cart, keep, idLess);
    FilterPairwise(cart, keep, apart);
    forall i | 0 <= i < |r| ensures r[i].id < nextId && OneOwnerColumn(r[i]) {
      assert r[i] in cart;
    }
    forall i, j | 0 <= i < j < |r| ensures r[i].id < r[j].id && !SameKey(r[i], r[j]) {
      assert idLess(r[i], r[j]) && apart(r[i], r[j]);
    }
  }

  /** Deleting a row by id removes exactly that row and keeps every other row. */
  lemma WithoutIdEffect(cart: seq<CartItem>, id: nat)
    ensures forall row :: row in WithoutId(cart, id) <==> row in cart && row.id != id
  {
  }

  /** One owner's rows never hold the same product twice. */
  predicate DistinctProducts(lines: seq<CartItem>) {
    forall i, j :: 0 <= i < j < |lines| ==> lines[i].productId != lines[j].productId
  }

  lemma OwnedRowsDistinctProducts(cart: seq<CartItem>, nextId: nat, owner: Owner)
    requires CartWellFormed(cart, nextId)
    ensures DistinctProducts(OwnedRows(cart, owner))
  {
    var keep := (row: CartItem) => Owns(row, owner);
    var apart := (a: CartItem, b: CartItem) => !SameKey(a, b);
    assert Pairwise(cart, apart);
    FilterPairwise(cart, keep, apart);
    var r := OwnedRows(cart, owner);
    forall i, j | 0 <= i < j < |r| ensures r[i].productId != r[j].productId {
      assert r[i] in r && r[j] in r;
      assert !SameKey(r[i], r[j]);
    }
  }

  /** After the bulk delete the owner has no rows left. */
  lemma WithoutOwnerClears(cart: seq<CartItem>, owner: Owner)
    ensures OwnedRows(WithoutOwner(cart, owner), owner) == []
  {
    FilterNone(WithoutOwner(cart, owner), (row: CartItem) => Owns(row, owner));
  }

  /** The bulk delete leaves every other owner's cart as it was. */
  lemma WithoutOwnerKeepsOthers(cart: seq<CartItem>, nextId: nat, owner: Owner, other: Owner)
    requires CartWellFormed(cart, nextId)
    requires other != owner
    ensures OwnedRows(WithoutOwner(cart, owner), other) == OwnedRows(cart, other)
  {
    forall row | row in cart && Owns(row, other) ensures !Owns(row, owner) {
      var i :| 0 <= i < |cart| && cart[i] == row;
      assert OneOwnerColumn(cart[i]);
    }
    FilterFilter(cart, (row: CartItem) => !Owns(row, owner), (row: CartItem) => Owns(row, other));
  }
}
