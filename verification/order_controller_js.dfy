/**
 * The JavaScript `createOrder` and `getOrder`. The JavaScript checkout
 * knows no gateway: every order waits for payment behind a manual payment
 * record, and nothing is ever undone. Its `$inc` on `stock` is the whole
 * truth for this backend, which reads `stock` as stored.
 */
module OrderControllerJs {

  import opened Base
  import opened Text
  import opened Ids
  import opened Catalog
  import opened Shop
  import opened Carts
  import opened Checkout
  import CartServiceJs

  const CART_EMPTY: string := "Cart is empty"
  /** Mongoose rejecting a negative `totalAmount` or a line quantity below one: a `ValidationError`, no status. */
  const ORDER_INVALID: string := "Order validation failed"
  const ORDER_ITEM_INVALID: string := "OrderItem validation failed"
  const INVALID_ORDER_ID: string := "Invalid order ID"
  const CREATED: int := 201

  /** The 201 answer: the order, its lines and the payment record. */
  datatype Created = Created(status: int, order: Order, items: seq<OrderItem>, payment: Payment)

  datatype Placed = Placed(db: Db, reply: Result<Created>)

  /** `Order.create(...)`: pending payment, in rupees, no payment intent yet. */
  function NewOrder(id: Id, user: Id, cart: Id, total: nat, address: ShippingAddress, notes: Option<string>, now: int): (r: Order)
    ensures r.id == id && r.user == user && r.cart == Some(cart) && r.totalAmount == total
    ensures r.status == PendingPayment && r.currency == "INR" && r.paymentIntentId.None?
    ensures r.products == [] && r.items == [] && r.statusHistory == [] && r.createdAt == Some(now)
    ensures r.shippingAddress == address && r.notes == notes
  {
    Order(id, user, None, [], [], Some(cart), total, "INR", PendingPayment, [], address, None, notes, Some(now))
  }

  /** The payment record: manual, initiated, no transaction and no gateway reply. */
  function ManualPayment(order: Order): (r: Payment)
    ensures r.order == order.id && r.amount == order.totalAmount && r.currency == "INR"
    ensures r.gateway == "manual" && r.status == Initiated && r.transactionId.None? && r.rawResponse == NoRaw
  {
    Payment(order.id, "manual", order.totalAmount, "INR", Initiated, None, NoRaw)
  }

  /** Everything after a cart has passed verification. */
  function Place(db1: Db, user: Id, cart: Id, snap: Snapshot, address: ShippingAddress, notes: Option<string>,
                 orderId: Id, now: int): (r: Placed)
    ensures snap.totals.amount < 0 ==> r == Placed(db1, Err(Crash(ORDER_INVALID)))
    ensures snap.totals.amount >= 0 ==>
      var order := NewOrder(orderId, user, cart, snap.totals.amount, address, notes, now);
      var (db2, written) := Record(StockOnly, db1, order, snap.items, Crash(ORDER_ITEM_INVALID));
      (written.Err? ==> r == Placed(db2, Err(written.error))) &&
      (written.Ok? ==>
         r == Placed(ClearCart(db2.(payments := db2.payments + [ManualPayment(order)]), cart),
                     Ok(Created(CREATED, order, OrderItemsFor(orderId, snap.items), ManualPayment(order)))))
  {
    if snap.totals.amount < 0 then Placed(db1, Err(Crash(ORDER_INVALID)))
    else
      var order := NewOrder(orderId, user, cart, snap.totals.amount, address, notes, now);
      var (db2, written) := Record(StockOnly, db1, order, snap.items, Crash(ORDER_ITEM_INVALID));
      if written.Err? then Placed(db2, Err(written.error))
      else
        var payment := ManualPayment(order);
        Placed(ClearCart(db2.(payments := db2.payments + [payment]), cart),
               Ok(Created(CREATED, order, OrderItemsFor(orderId, snap.items), payment)))
  }

  /**
   * `createOrder`: an empty cart is a 400 and a failed stock check passes
   * its 400 through, both before anything but the cart is written.
   * `orderId` is the id the new order receives; `now` stamps it.
   */
  function CreateOrder(db: Db, user: Id, address: ShippingAddress, notes: Option<string>, freshCartId: Id,
                       orderId: Id, now: int): (r: Placed)
    ensures var (db1, cart) := GetOrCreateActiveCart(db, user, freshCartId);
      var snap := CartServiceJs.BuildSnapshot(db1, cart.id);
      var verified := CartServiceJs.VerifyStockLevels(db1.products, snap.items);
      (snap.items == [] ==> r == Placed(db1, Fail(400, CART_EMPTY))) &&
      (snap.items != [] && verified.Err? ==> r == Placed(db1, Err(verified.error)) && r.reply.error.Status() == 400) &&
      (snap.items != [] && verified.Ok? ==> r == Place(db1, user, cart.id, snap, address, notes, orderId, now))
  {
    var (db1, cart) := GetOrCreateActiveCart(db, user, freshCartId);
    var snap := CartServiceJs.BuildSnapshot(db1, cart.id);
    if snap.items == [] then Placed(db1, Fail(400, CART_EMPTY))
    else match CartServiceJs.VerifyStockLevels(db1.products, snap.items)
      case Err(e) => Placed(db1, Err(e))
      case Ok(_) => Place(db1, user, cart.id, snap, address, notes, orderId, now)
  }

  /** What a successful placement leaves in the collections, besides the cleared cart. */
  predicate Committed(db1: Db, r: Placed, lines: seq<SnapshotItem>)
    requires r.reply.Ok?
  {
    var order := r.reply.value.order;
    r.db.orders == db1.orders[order.id := order] &&
    r.db.orderItems == db1.orderItems + r.reply.value.items &&
    r.db.payments == db1.payments + [r.reply.value.payment] &&
    r.db.products == DecrementAll(StockOnly, db1.products, lines)
  }

  /** After verification: a successful placement writes the order, its lines, one payment and the decrement, and empties the cart. */
  lemma PlaceWrites(db1: Db, user: Id, cart: Id, snap: Snapshot, address: ShippingAddress, notes: Option<string>,
                    orderId: Id, now: int)
    requires Place(db1, user, cart, snap, address, notes, orderId, now).reply.Ok?
    ensures var r := Place(db1, user, cart, snap, address, notes, orderId, now);
      Committed(db1, r, snap.items) && ItemsOf(r.db.cartItems, cart) == [] &&
      r.reply.value.order == NewOrder(orderId, user, cart, snap.totals.amount, address, notes, now) &&
      r.reply.value.items == OrderItemsFor(orderId, snap.items) && r.reply.value.payment == ManualPayment(r.reply.value.order)
  {
    var order := NewOrder(orderId, user, cart, snap.totals.amount, address, notes, now);
    assert snap.totals.amount >= 0 && QuantitiesPositive(snap.items);
  }

  /**
   * A successful checkout answers 201 with a pending order that costs what
   * the snapshot says, adds exactly that order, its lines (found again by
   * the order's id) and one manual payment, decrements stock and empties
   * the cart.
   */
  lemma PlacedOrderWrites(db: Db, user: Id, address: ShippingAddress, notes: Option<string>, freshCartId: Id,
                          orderId: Id, now: int)
    requires OrderItemsOf(db.orderItems, orderId) == []
    requires CreateOrder(db, user, address, notes, freshCartId, orderId, now).reply.Ok?
    ensures var (db1, cart) := GetOrCreateActiveCart(db, user, freshCartId);
      var snap := CartServiceJs.BuildSnapshot(db1, cart.id);
      var r := CreateOrder(db, user, address, notes, freshCartId, orderId, now);
      snap.items != [] && CartServiceJs.VerifyStockLevels(db1.products, snap.items).Ok? &&
      r.reply.value.status == CREATED &&
      r.reply.value.order == NewOrder(orderId, user, cart.id, snap.totals.amount, address, notes, now) &&
      r.reply.value.items == OrderItemsFor(orderId, snap.items) &&
      r.reply.value.payment == ManualPayment(r.reply.value.order) &&
      Committed(db1, r, snap.items) &&
      OrderItemsOf(r.db.orderItems, orderId) == r.reply.value.items &&
      ItemsOf(r.db.cartItems, cart.id) == []
  {
    var (db1, cart) := GetOrCreateActiveCart(db, user, freshCartId);
    var snap := CartServiceJs.BuildSnapshot(db1, cart.id);
    PlaceWrites(db1, user, cart.id, snap, address, notes, orderId, now);
    OrderItemsForFound(db1.orderItems, orderId, snap.items);
  }

  /**
   * Unlike the Python model, this backend sees its own decrement: each
   * product of a verified order loses exactly its line's quantity, never
   * going below zero, and a line that took the whole stock fails the next
   * stock check.
   */
  lemma DecrementVisible(products: Products, lines: seq<SnapshotItem>, i: nat)
    requires CartServiceJs.VerifyStockLevels(products, lines).Ok?
    requires DistinctProducts(lines) && QuantitiesPositive(lines) && i < |lines|
    ensures lines[i].productId.Some? && lines[i].productId.value in products
    ensures var x := lines[i].productId.value;
      DecrementAll(StockOnly, products, lines)[x].stock == products[x].stock - lines[i].quantity >= 0
    ensures products[lines[i].productId.value].stock == lines[i].quantity ==>
      CartServiceJs.VerifyStockLevels(DecrementAll(StockOnly, products, lines), lines).Err?
  {
    assert CartServiceJs.StockCheck(products, lines[i]).None?;
    OrderedSingle(lines, i);
    var r := DecrementAll(StockOnly, products, lines);
    if products[lines[i].productId.value].stock == lines[i].quantity {
      assert CartServiceJs.StockCheck(r, lines[i]).Some?;
    }
  }

  /** `getOrder`: the caller's order by id, a 400 for an id that does not parse and a 404 for one that is not the caller's. */
  function GetOrder(db: Db, user: Id, id: string): (r: Result<OrderView>)
    ensures ParseObjectId(id).None? <==> r == Fail(400, INVALID_ORDER_ID)
    ensures r.Ok? <==> ParseObjectId(id).Some? && ParseObjectId(id).value in db.orders &&
                       db.orders[ParseObjectId(id).value].user == user
    ensures r.Err? && ParseObjectId(id).Some? ==> r == Fail(404, ORDER_NOT_FOUND)
    ensures r.Ok? ==> r.value == OrderView(db.orders[Lower(id)], OrderItemsOf(db.orderItems, Lower(id)))
  {
    OwnedOrder(db, user, id, INVALID_ORDER_ID)
  }

  /** An order just placed is found again by its owner, exactly as the placement answered, with the same lines. */
  lemma PlacedOrderFound(db: Db, user: Id, address: ShippingAddress, notes: Option<string>, freshCartId: Id,
                         orderId: Id, now: int)
    requires IsCanonicalId(orderId) && OrderItemsOf(db.orderItems, orderId) == []
    requires CreateOrder(db, user, address, notes, freshCartId, orderId, now).reply.Ok?
    ensures var r := CreateOrder(db, user, address, notes, freshCartId, orderId, now);
      GetOrder(r.db, user, orderId) == Ok(OrderView(r.reply.value.order, r.reply.value.items))
  {
    PlacedOrderWrites(db, user, address, notes, freshCartId, orderId, now);
    ParseCanonical(orderId);
  }

  /** Another user asking for the order gets a 404, not the order. */
  lemma OthersNotFound(db: Db, user: Id, other: Id, id: string)
    requires GetOrder(db, user, id).Ok? && other != user
    ensures GetOrder(db, other, id) == Fail(404, ORDER_NOT_FOUND)
  {
  }
}
