/**
 * The Python cart endpoints. Each checks its input, finds or opens the
 * caller's active cart, changes at most one line of it and answers with a
 * fresh snapshot of that cart.
 */
module CartControllerPy {

  import opened Base
  import opened Ids
  import opened Catalog
  import opened Shop
  import opened Carts
  import CartServicePy

  const INVALID_PRODUCT: string := "Invalid product ID"
  const NOT_POSITIVE: string := "Quantity must be positive"
  const NOT_AVAILABLE: string := "Product not available"
  const INSUFFICIENT: string := "Insufficient stock for requested quantity"
  const INVALID_ITEM: string := "Invalid cart item ID"
  const ITEM_NOT_FOUND: string := "Cart item not found"

  function Reply(db: Db, cart: Cart): (r: CartReply)
    ensures r.code == 200 && r.cart == cart.id && r.status == cart.status
    ensures r.snapshot == CartServicePy.BuildSnapshot(db, cart.id)
  {
    CartReply(200, cart.id, cart.status, CartServicePy.BuildSnapshot(db, cart.id))
  }

  /** The checks `addItem` makes before it writes anything, in order. */
  function AddChecks(db: Db, productId: string, quantity: int): (r: Result<Product>)
    ensures !IsObjectIdText(productId) ==> r == Fail(400, INVALID_PRODUCT)
    ensures IsObjectIdText(productId) && quantity <= 0 ==> r == Fail(400, NOT_POSITIVE)
    ensures IsObjectIdText(productId) && quantity > 0 ==>
      var id := ParseObjectId(productId).value;
      if !AvailablePy(db.products, id) then r == Fail(404, NOT_AVAILABLE)
      else if LoadPy(db.products[id]).stock < quantity then r == Fail(400, INSUFFICIENT)
      else r == Ok(LoadPy(db.products[id]))
  {
    match ParseObjectId(productId)
    case None => Fail(400, INVALID_PRODUCT)
    case Some(id) =>
      if quantity <= 0 then Fail(400, NOT_POSITIVE)
      else if !AvailablePy(db.products, id) then Fail(404, NOT_AVAILABLE)
      else if LoadPy(db.products[id]).stock < quantity then Fail(400, INSUFFICIENT)
      else Ok(LoadPy(db.products[id]))
  }

  /**
   * `addItem`: after the checks, merges the quantity into the product's line
   * of the active cart (the price frozen at the first addition stays) or
   * adds a line at the current price. The stock check looks only at the
   * quantity being added, not at what the cart will then hold.
   */
  function AddItem(db: Db, user: Id, productId: string, quantity: int, freshCartId: Id, freshItemId: Id): (r: (Db, Result<CartReply>))
    ensures AddChecks(db, productId, quantity).Err? ==> r == (db, Err(AddChecks(db, productId, quantity).error))
    ensures AddChecks(db, productId, quantity).Ok? ==>
      var (db1, cart) := GetOrCreateActiveCart(db, user, freshCartId);
      var id := ParseObjectId(productId).value;
      r.1.Ok? && r.1.value == Reply(r.0, cart) &&
      r.0 == db1.(cartItems := MergeLine(db1.cartItems, cart.id, id, quantity,
                                         AddChecks(db, productId, quantity).value.price, freshItemId))
  {
    match AddChecks(db, productId, quantity)
    case Err(e) => (db, Err(e))
    case Ok(product) =>
      var (db1, cart) := GetOrCreateActiveCart(db, user, freshCartId);
      var id := ParseObjectId(productId).value;
      var db2 := db1.(cartItems := MergeLine(db1.cartItems, cart.id, id, quantity, product.price, freshItemId));
      (db2, Ok(Reply(db2, cart)))
  }

  /**
   * What a successful `addItem` does to the carts, stated without the merge:
   * the caller's active cart holds exactly `quantity` more units of the
   * product, every other cart and product is unchanged, and the cart's
   * lines stay well formed.
   */
  lemma AddItemAddsQuantity(db: Db, user: Id, productId: string, quantity: int, freshCartId: Id, freshItemId: Id)
    requires PositiveLines(db.cartItems) && WellFormedLines(db.cartItems) && FreshItemId(db.cartItems, freshItemId)
    requires AddItem(db, user, productId, quantity, freshCartId, freshItemId).1.Ok?
    ensures var (db2, reply) := AddItem(db, user, productId, quantity, freshCartId, freshItemId);
      var cart := reply.value.cart;
      var id := ParseObjectId(productId).value;
      Held(db2.cartItems, cart, id) == Held(db.cartItems, cart, id) + quantity &&
      (forall c, p :: c != cart || p != id ==> Held(db2.cartItems, c, p) == Held(db.cartItems, c, p)) &&
      PositiveLines(db2.cartItems) && WellFormedLines(db2.cartItems)
  {
    var (db1, cart) := GetOrCreateActiveCart(db, user, freshCartId);
    var id := ParseObjectId(productId).value;
    var price := AddChecks(db, productId, quantity).value.price;
    MergeKeepsWellFormed(db1.cartItems, cart.id, id, quantity, price, freshItemId);
  }

  /**
   * Because only the increment is checked against stock, adding the last
   * unit twice leaves the cart holding more than the product has.
   */
  lemma RepeatedAddsExceedStock(db: Db, user: Id, productId: string, c1: Id, c2: Id, i1: Id, i2: Id)
    requires IsObjectIdText(productId) && AvailablePy(db.products, ParseObjectId(productId).value)
    requires LoadPy(db.products[ParseObjectId(productId).value]).stock == 1
    requires db.carts == [] && db.cartItems == []
    ensures var (db1, r1) := AddItem(db, user, productId, 1, c1, i1);
      var (db2, r2) := AddItem(db1, user, productId, 1, c2, i2);
      r1.Ok? && r2.Ok? && r2.value.cart == c1 &&
      Held(db2.cartItems, c1, ParseObjectId(productId).value) == 2
  {
    var id := ParseObjectId(productId).value;
    var (db1, r1) := AddItem(db, user, productId, 1, c1, i1);
    assert db1.carts == [Cart(c1, user, Active)];
    assert db1.cartItems == [CartItem(i1, c1, id, 1, LoadPy(db.products[id]).price)];
    assert db1.products == db.products;
    var (db2, r2) := AddItem(db1, user, productId, 1, c2, i2);
    assert FindLine(db1.cartItems, c1, id) == Some(0);
    assert db2.cartItems == [CartItem(i1, c1, id, 2, LoadPy(db.products[id]).price)];
  }

  /**
   * `updateItem`: the line must belong to the caller's active cart (the
   * cart is opened first, so a 404 can still leave a new empty cart
   * behind); a quantity of zero or less deletes the line without looking
   * at the product; otherwise the product is checked and the quantity is
   * replaced, not added to.
   */
  function UpdateItem(db: Db, user: Id, itemId: string, quantity: int, freshCartId: Id): (r: (Db, Result<CartReply>))
    ensures !IsObjectIdText(itemId) ==> r == (db, Fail(400, INVALID_ITEM))
    ensures IsObjectIdText(itemId) ==>
      var (db1, cart) := GetOrCreateActiveCart(db, user, freshCartId);
      match FindItem(db1.cartItems, ParseObjectId(itemId).value, cart.id)
      case None => r == (db1, Fail(404, ITEM_NOT_FOUND))
      case Some(i) =>
        var product := db1.cartItems[i].product;
        if quantity <= 0 then r.0 == db1.(cartItems := RemoveAt(db1.cartItems, i)) && r.1 == Ok(Reply(r.0, cart))
        else if !AvailablePy(db1.products, product) then r == (db1, Fail(400, NOT_AVAILABLE))
        else if LoadPy(db1.products[product]).stock < quantity then r == (db1, Fail(400, INSUFFICIENT))
        else r.0 == db1.(cartItems := db1.cartItems[i := db1.cartItems[i].(quantity := quantity)]) && r.1 == Ok(Reply(r.0, cart))
  {
    match ParseObjectId(itemId)
    case None => (db, Fail(400, INVALID_ITEM))
    case Some(id) =>
      var (db1, cart) := GetOrCreateActiveCart(db, user, freshCartId);
      match FindItem(db1.cartItems, id, cart.id)
      case None => (db1, Fail(404, ITEM_NOT_FOUND))
      case Some(i) =>
        var product := db1.cartItems[i].product;
        if quantity <= 0 then
          var db2 := db1.(cartItems := RemoveAt(db1.cartItems, i));
          (db2, Ok(Reply(db2, cart)))
        else if !AvailablePy(db1.products, product) then (db1, Fail(400, NOT_AVAILABLE))
        else if LoadPy(db1.products[product]).stock < quantity then (db1, Fail(400, INSUFFICIENT))
        else
          var db2 := db1.(cartItems := db1.cartItems[i := db1.cartItems[i].(quantity := quantity)]);
          (db2, Ok(Reply(db2, cart)))
  }

  /**
   * A successful update with a positive quantity leaves the cart holding
   * exactly that many units of the line's product, whatever it held before.
   */
  lemma UpdateSetsQuantity(db: Db, user: Id, itemId: string, quantity: int, freshCartId: Id)
    requires WellFormedLines(db.cartItems)
    requires quantity > 0 && UpdateItem(db, user, itemId, quantity, freshCartId).1.Ok?
    ensures var (db1, cart) := GetOrCreateActiveCart(db, user, freshCartId);
      var i := FindItem(db1.cartItems, ParseObjectId(itemId).value, cart.id).value;
      var (db2, _) := UpdateItem(db, user, itemId, quantity, freshCartId);
      Held(db2.cartItems, cart.id, db1.cartItems[i].product) == quantity
  {
    var (db1, cart) := GetOrCreateActiveCart(db, user, freshCartId);
    var i := FindItem(db1.cartItems, ParseObjectId(itemId).value, cart.id).value;
    assert db1.cartItems == db.cartItems;
    SetLineHeld(db1.cartItems, i, quantity);
  }

  /**
   * `removeItem`: deletes the line only if it belongs to the caller's
   * active cart; an unknown line is not an error.
   */
  function RemoveItem(db: Db, user: Id, itemId: string, freshCartId: Id): (r: (Db, Result<CartReply>))
    ensures !IsObjectIdText(itemId) ==> r == (db, Fail(400, INVALID_ITEM))
    ensures IsObjectIdText(itemId) ==>
      var (db1, cart) := GetOrCreateActiveCart(db, user, freshCartId);
      r.1 == Ok(Reply(r.0, cart)) &&
      match FindItem(db1.cartItems, ParseObjectId(itemId).value, cart.id)
      case None => r.0 == db1
      case Some(i) => r.0 == db1.(cartItems := RemoveAt(db1.cartItems, i))
  {
    match ParseObjectId(itemId)
    case None => (db, Fail(400, INVALID_ITEM))
    case Some(id) =>
      var (db1, cart) := GetOrCreateActiveCart(db, user, freshCartId);
      match FindItem(db1.cartItems, id, cart.id)
      case None => (db1, Ok(Reply(db1, cart)))
      case Some(i) =>
        var db2 := db1.(cartItems := RemoveAt(db1.cartItems, i));
        (db2, Ok(Reply(db2, cart)))
  }

  /** Removing a line never touches another cart, whoever owns it. */
  lemma RemoveKeepsOtherCarts(db: Db, user: Id, itemId: string, freshCartId: Id, other: Id)
    requires IsObjectIdText(itemId)
    requires other != GetOrCreateActiveCart(db, user, freshCartId).1.id
    ensures ItemsOf(RemoveItem(db, user, itemId, freshCartId).0.cartItems, other) == ItemsOf(db.cartItems, other)
  {
    var (db1, cart) := GetOrCreateActiveCart(db, user, freshCartId);
    match FindItem(db1.cartItems, ParseObjectId(itemId).value, cart.id)
    case None =>
    case Some(i) => ItemsOfRemove(db1.cartItems, i, other);
  }
}
