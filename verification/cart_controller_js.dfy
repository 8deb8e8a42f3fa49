/**
 * The JavaScript cart endpoints. They differ from the Python ones in that
 * `addItem` has no positivity check of its own (the route validator is
 * the only guard) and answers 201, and products are read as stored.
 */
module CartControllerJs {

  import opened Base
  import opened Ids
  import opened Catalog
  import opened Shop
  import opened Carts
  import CartServiceJs

  const INVALID_PRODUCT: string := "Invalid product ID"
  const NOT_AVAILABLE: string := "Product not available"
  const INSUFFICIENT: string := "Insufficient stock for requested quantity"
  const INVALID_ITEM: string := "Invalid cart item ID"
  const ITEM_NOT_FOUND: string := "Cart item not found"
  /** Mongoose's `min: 1` on a new line's quantity, a validation error without a status. */
  const QUANTITY_INVALID: string := "CartItem validation failed: quantity"

  function Reply(db: Db, cart: Cart, code: int): (r: CartReply)
    ensures r.code == code && r.cart == cart.id && r.status == cart.status
    ensures r.snapshot == CartServiceJs.BuildSnapshot(db, cart.id)
  {
    CartReply(code, cart.id, cart.status, CartServiceJs.BuildSnapshot(db, cart.id))
  }

  /** The checks `addItem` makes before it writes anything: id, availability, stock. */
  function AddChecks(db: Db, productId: string, quantity: int): (r: Result<Product>)
    ensures !IsObjectIdText(productId) ==> r == Fail(400, INVALID_PRODUCT)
    ensures IsObjectIdText(productId) ==>
      var id := ParseObjectId(productId).value;
      if !AvailableJs(db.products, id) then r == Fail(404, NOT_AVAILABLE)
      else if db.products[id].stock < quantity then r == Fail(400, INSUFFICIENT)
      else r == Ok(db.products[id])
  {
    match ParseObjectId(productId)
    case None => Fail(400, INVALID_PRODUCT)
    case Some(id) =>
      if !AvailableJs(db.products, id) then Fail(404, NOT_AVAILABLE)
      else if db.products[id].stock < quantity then Fail(400, INSUFFICIENT)
      else Ok(db.products[id])
  }

  /**
   * `addItem`: the same merge as the Python version, answered with 201. A
   * new line with a quantity below one fails Mongoose validation after the
   * cart has been opened.
   */
  function AddItem(db: Db, user: Id, productId: string, quantity: int, freshCartId: Id, freshItemId: Id): (r: (Db, Result<CartReply>))
    ensures AddChecks(db, productId, quantity).Err? ==> r == (db, Err(AddChecks(db, productId, quantity).error))
    ensures AddChecks(db, productId, quantity).Ok? ==>
      var (db1, cart) := GetOrCreateActiveCart(db, user, freshCartId);
      var id := ParseObjectId(productId).value;
      if FindLine(db1.cartItems, cart.id, id).None? && quantity < 1 then r == (db1, Err(Crash(QUANTITY_INVALID)))
      else
        r.1.Ok? && r.1.value == Reply(r.0, cart, 201) &&
        r.0 == db1.(cartItems := MergeLine(db1.cartItems, cart.id, id, quantity, db.products[id].price, freshItemId))
  {
    match AddChecks(db, productId, quantity)
    case Err(e) => (db, Err(e))
    case Ok(product) =>
      var (db1, cart) := GetOrCreateActiveCart(db, user, freshCartId);
      var id := ParseObjectId(productId).value;
      if FindLine(db1.cartItems, cart.id, id).None? && quantity < 1 then (db1, Err(Crash(QUANTITY_INVALID)))
      else
        var db2 := db1.(cartItems := MergeLine(db1.cartItems, cart.id, id, quantity, product.price, freshItemId));
        (db2, Ok(Reply(db2, cart, 201)))
  }

  /**
   * Without its own positivity check, `addItem` called with a negative
   * quantity passes the stock check and shrinks an existing line.
   */
  lemma NegativeAddShrinksLine(db: Db, user: Id, productId: string, quantity: int, freshCartId: Id, freshItemId: Id)
    requires IsObjectIdText(productId) && AvailableJs(db.products, ParseObjectId(productId).value)
    requires db.products[ParseObjectId(productId).value].stock >= 0 && quantity < 0
    requires var (db1, cart) := GetOrCreateActiveCart(db, user, freshCartId);
      var id := ParseObjectId(productId).value;
      FindLine(db1.cartItems, cart.id, id).Some? &&
      db1.cartItems[FindLine(db1.cartItems, cart.id, id).value].quantity + quantity > 0
    ensures var (db2, reply) := AddItem(db, user, productId, quantity, freshCartId, freshItemId);
      var id := ParseObjectId(productId).value;
      reply.Ok? && Held(db2.cartItems, reply.value.cart, id) == Held(db.cartItems, reply.value.cart, id) + quantity &&
      Held(db2.cartItems, reply.value.cart, id) < Held(db.cartItems, reply.value.cart, id)
  {
  }

  /** `updateItem`: as in the Python version, with products read as stored. */
  function UpdateItem(db: Db, user: Id, itemId: string, quantity: int, freshCartId: Id): (r: (Db, Result<CartReply>))
    ensures !IsObjectIdText(itemId) ==> r == (db, Fail(400, INVALID_ITEM))
    ensures IsObjectIdText(itemId) ==>
      var (db1, cart) := GetOrCreateActiveCart(db, user, freshCartId);
      match FindItem(db1.cartItems, ParseObjectId(itemId).value, cart.id)
      case None => r == (db1, Fail(404, ITEM_NOT_FOUND))
      case Some(i) =>
        var product := db1.cartItems[i].product;
        if quantity <= 0 then r.0 == db1.(cartItems := RemoveAt(db1.cartItems, i)) && r.1 == Ok(Reply(r.0, cart, 200))
        else if !AvailableJs(db1.products, product) then r == (db1, Fail(400, NOT_AVAILABLE))
        else if db1.products[product].stock < quantity then r == (db1, Fail(400, INSUFFICIENT))
        else r.0 == db1.(cartItems := db1.cartItems[i := db1.cartItems[i].(quantity := quantity)]) && r.1 == Ok(Reply(r.0, cart, 200))
  {
    match ParseObjectId(itemId)
    case None => (db, Fail(400, INVALID_ITEM))
    case Some(id) =>
      var (db1, cart) := GetOrCreateActiveCart(db, user, freshCartId);
      match FindItem(db1.cartItems, id, cart.id)
      case None => (db1, Fail(404, ITEM_NOT_FOUND))
      case Some(i) =>
        var product := db1.cartItems[i].product;
        if quantity <= 0 then
          var db2 := db1.(cartItems := RemoveAt(db1.cartItems, i));
          (db2, Ok(Reply(db2, cart, 200)))
        else if !AvailableJs(db1.products, product) then (db1, Fail(400, NOT_AVAILABLE))
        else if db1.products[product].stock < quantity then (db1, Fail(400, INSUFFICIENT))
        else
          var db2 := db1.(cartItems := db1.cartItems[i := db1.cartItems[i].(quantity := quantity)]);
          (db2, Ok(Reply(db2, cart, 200)))
  }

  /** A successful positive update leaves the cart holding exactly the requested units. */
  lemma UpdateSetsQuantity(db: Db, user: Id, itemId: string, quantity: int, freshCartId: Id)
    requires WellFormedLines(db.cartItems)
    requires quantity > 0 && UpdateItem(db, user, itemId, quantity, freshCartId).1.Ok?
    ensures var (db1, cart) := GetOrCreateActiveCart(db, user, freshCartId);
      var i := FindItem(db1.cartItems, ParseObjectId(itemId).value, cart.id).value;
      var (db2, _) := UpdateItem(db, user, itemId, quantity, freshCartId);
      Held(db2.cartItems, cart.id, db1.cartItems[i].product) == quantity
  {
    var (db1, cart) := GetOrCreateActiveCart(db, user, freshCartId);
    var i := FindItem(db1.cartItems, ParseObjectId(itemId).value, cart.id).value;
    assert db1.cartItems == db.cartItems;
    SetLineHeld(db1.cartItems, i, quantity);
  }

  /** `removeItem`: `deleteOne({_id, cart})`, so only a line of the caller's active cart can go. */
  function RemoveItem(db: Db, user: Id, itemId: string, freshCartId: Id): (r: (Db, Result<CartReply>))
    ensures !IsObjectIdText(itemId) ==> r == (db, Fail(400, INVALID_ITEM))
    ensures IsObjectIdText(itemId) ==>
      var (db1, cart) := GetOrCreateActiveCart(db, user, freshCartId);
      r.1 == Ok(Reply(r.0, cart, 200)) &&
      match FindItem(db1.cartItems, ParseObjectId(itemId).value, cart.id)
      case None => r.0 == db1
      case Some(i) => r.0 == db1.(cartItems := RemoveAt(db1.cartItems, i))
  {
    match ParseObjectId(itemId)
    case None => (db, Fail(400, INVALID_ITEM))
    case Some(id) =>
      var (db1, cart) := GetOrCreateActiveCart(db, user, freshCartId);
      match FindItem(db1.cartItems, id, cart.id)
      case None => (db1, Ok(Reply(db1, cart, 200)))
      case Some(i) =>
        var db2 := db1.(cartItems := RemoveAt(db1.cartItems, i));
        (db2, Ok(Reply(db2, cart, 200)))
  }

  /** Removing a line never touches another cart. */
  lemma RemoveKeepsOtherCarts(db: Db, user: Id, itemId: string, freshCartId: Id, other: Id)
    requires IsObjectIdText(itemId)
    requires other != GetOrCreateActiveCart(db, user, freshCartId).1.id
    ensures ItemsOf(RemoveItem(db, user, itemId, freshCartId).0.cartItems, other) == ItemsOf(db.cartItems, other)
  {
    var (db1, cart) := GetOrCreateActiveCart(db, user, freshCartId);
    match FindItem(db1.cartItems, ParseObjectId(itemId).value, cart.id)
    case None =>
    case Some(i) => ItemsOfRemove(db1.cartItems, i, other);
  }
}
