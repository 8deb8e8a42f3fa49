/**
 * The Python `createOrder` and `getOrder`. Placing an order is a fixed
 * sequence of writes: open the cart, check it, insert the order, insert
 * its lines, decrement stock, call the gateway (deleting the order and its
 * lines again if that fails), record the payment, clear the cart.
 *
 * The stock decrement is a parameter: `StockOnly` is the `$inc` the code
 * issues, `BothFields` the decrement it evidently intends (see the
 * findings). `CreateOrder` is the corrected operation.
 */
module OrderControllerPy {

  import opened Base
  import opened Text
  import opened Ids
  import opened Catalog
  import opened Shop
  import opened Carts
  import opened Checkout
  import opened Orders
  import CartServicePy
  import PaymentServicePy

  const CART_EMPTY: string := "Cart is empty"
  const PAYMENT_UNAVAILABLE: string := "Unable to initiate payment. Please try again later."
  /** Pydantic rejecting a negative `totalAmount` or a line quantity below one: a `ValidationError`, no status. */
  const ORDER_INVALID: string := "validation error for Order"
  const ORDER_ITEM_INVALID: string := "validation error for OrderItem"
  const INVALID_IDENTIFIER: string := "Invalid identifier"
  const SHOP_NAME: string := "Online Annavaram"
  const DESCRIPTION_PREFIX: string := "Temple pantry order "

  /** What the client needs to open the Razorpay checkout. */
  datatype RazorpayCheckout = RazorpayCheckout(orderId: string, amount: int, currency: string, keyId: string, name: string, description: string)

  datatype OrderReply = OrderReply(order: Order, items: seq<OrderItem>, payment: Payment, razorpay: Option<RazorpayCheckout>)

  /** The database, the payment client cache and the answer after a checkout. */
  datatype Placed = Placed(db: Db, cache: Option<PaymentServicePy.Client>, reply: Result<OrderReply>)

  /** The order as constructed and inserted: pending payment behind a gateway, paid without one. */
  function NewOrder(id: Id, user: Id, cart: Id, total: nat, configured: bool, address: ShippingAddress,
                    notes: Option<string>, now: int): (r: Order)
    ensures r.id == id && r.user == user && r.userId == Some(user) && r.cart == Some(cart)
    ensures r.status == (if configured then PendingPayment else Paid)
    ensures r.totalAmount == total && r.currency == "INR"
    ensures r.statusHistory == [StatusEntry(r.status, now, None, None)]
    ensures r.products == [] && r.items == [] && r.paymentIntentId.None?
    ensures r.shippingAddress == address && r.notes == notes && r.createdAt == Some(now)
  {
    var status := if configured then PendingPayment else Paid;
    assert Upper("INR") == "INR";
    var o := Validate(Order(id, user, None, [], [], Some(cart), total, "INR", status, [], address, None, notes, None), now);
    o.(createdAt := Some(now))
  }

  /** The payment record: a pending Razorpay payment, or a manual one captured offline. */
  function PaymentFor(order: Order, gatewayOrder: Option<GatewayOrder>): (r: Payment)
    ensures r.order == order.id && r.amount == order.totalAmount && r.currency == "INR"
    ensures gatewayOrder.Some? ==>
      r.gateway == "razorpay" && r.status == Initiated && r.transactionId.None? && r.rawResponse == GatewayReply(gatewayOrder.value)
    ensures gatewayOrder.None? ==>
      r.gateway == "manual" && r.status == Captured && r.transactionId == Some("offline") && r.rawResponse == NoRaw
  {
    match gatewayOrder
    case Some(g) => Payment(order.id, "razorpay", order.totalAmount, "INR", Initiated, None, GatewayReply(g))
    case None => Payment(order.id, "manual", order.totalAmount, "INR", Captured, Some("offline"), NoRaw)
  }

  /** The last two writes, the payment and the cleared cart, and the answer. */
  function Finish(db: Db, cache: Option<PaymentServicePy.Client>, order: Order, cart: Id, lines: seq<SnapshotItem>,
                  gatewayOrder: Option<GatewayOrder>, keyId: string): (r: Placed)
    ensures r.cache == cache
    ensures r.db == ClearCart(db.(payments := db.payments + [PaymentFor(order, gatewayOrder)]), cart)
    ensures r.reply.Ok? && r.reply.value.order == order && r.reply.value.items == OrderItemsFor(order.id, lines)
    ensures r.reply.value.payment == PaymentFor(order, gatewayOrder)
    ensures r.reply.value.razorpay.Some? <==> gatewayOrder.Some?
    ensures gatewayOrder.Some? ==> r.reply.value.razorpay.value.orderId == gatewayOrder.value.id &&
                                   r.reply.value.razorpay.value.description == DESCRIPTION_PREFIX + order.id
  {
    var payment := PaymentFor(order, gatewayOrder);
    var checkout := match gatewayOrder
      case Some(g) => Some(RazorpayCheckout(g.id, g.amount, g.currency, keyId, SHOP_NAME, DESCRIPTION_PREFIX + order.id))
      case None => None;
    Placed(ClearCart(db.(payments := db.payments + [payment]), cart), cache, Ok(OrderReply(order, OrderItemsFor(order.id, lines), payment, checkout)))
  }

  /**
   * The configured path after the writes: ask the gateway for an order and
   * either finish with a Razorpay payment or undo the order and its lines.
   */
  function Charge(db2: Db, env: Env, cache: Option<PaymentServicePy.Client>, gateway: PaymentServicePy.Gateway,
                  user: Id, order: Order, cart: Id, lines: seq<SnapshotItem>): (r: Placed)
    ensures r.reply.Err? ==> r.reply == Fail(502, PAYMENT_UNAVAILABLE) && r.db == DeleteOrder(db2, order.id)
    ensures r.reply.Ok? ==>
      r.reply.value.order == order.(paymentIntentId := r.reply.value.order.paymentIntentId) &&
      r.reply.value.order.paymentIntentId.Some? &&
      r.reply.value.payment.gateway == "razorpay" && r.reply.value.razorpay.Some? &&
      r.reply.value.payment.rawResponse.GatewayReply? &&
      r.reply.value.payment == PaymentFor(r.reply.value.order, Some(r.reply.value.payment.rawResponse.reply)) &&
      r.reply.value.order.paymentIntentId == Some(r.reply.value.payment.rawResponse.reply.id) &&
      r.reply.value.items == OrderItemsFor(order.id, lines)
    ensures r.reply.Ok? ==>
      r.db.orders == db2.orders[order.id := r.reply.value.order] && r.db.orderItems == db2.orderItems &&
      r.db.payments == db2.payments + [r.reply.value.payment] && r.db.products == db2.products &&
      ItemsOf(r.db.cartItems, cart) == []
  {
    var (cache1, requested) := PaymentServicePy.CreateRazorpayOrder(env, cache, gateway, order.totalAmount, "INR",
                                                                    Some(order.id), Some(map["userId" := user]));
    match requested
    case Err(_) => Placed(DeleteOrder(db2, order.id), cache1, Fail(502, PAYMENT_UNAVAILABLE))
    case Ok(g) =>
      var paid := order.(paymentIntentId := Some(g.id));
      Finish(db2.(orders := db2.orders[order.id := paid]), cache1, paid, cart, lines, Some(g), env[PaymentServicePy.KEY_ID])
  }

  /** Everything after a cart has passed verification. */
  function Place(kind: Decrement, db1: Db, env: Env, cache: Option<PaymentServicePy.Client>, gateway: PaymentServicePy.Gateway,
                 user: Id, cart: Id, snap: Snapshot, address: ShippingAddress, notes: Option<string>, orderId: Id, now: int): (r: Placed)
    ensures snap.totals.amount < 0 ==> r == Placed(db1, cache, Err(Crash(ORDER_INVALID)))
    ensures snap.totals.amount >= 0 ==>
      var order := NewOrder(orderId, user, cart, snap.totals.amount, PaymentServicePy.IsConfigured(env), address, notes, now);
      var db2 := Record(kind, db1, order, snap.items, Crash(ORDER_ITEM_INVALID)).0;
      (!QuantitiesPositive(snap.items) ==> r == Placed(db2, cache, Err(Crash(ORDER_ITEM_INVALID)))) &&
      (QuantitiesPositive(snap.items) && !PaymentServicePy.IsConfigured(env) ==>
         r == Finish(db2, cache, order, cart, snap.items, None, "")) &&
      (QuantitiesPositive(snap.items) && PaymentServicePy.IsConfigured(env) ==>
         r == Charge(db2, env, cache, gateway, user, order, cart, snap.items))
  {
    if snap.totals.amount < 0 then Placed(db1, cache, Err(Crash(ORDER_INVALID)))
    else
      var configured := PaymentServicePy.IsConfigured(env);
      var order := NewOrder(orderId, user, cart, snap.totals.amount, configured, address, notes, now);
      var (db2, written) := Record(kind, db1, order, snap.items, Crash(ORDER_ITEM_INVALID));
      if written.Err? then Placed(db2, cache, Err(written.error))
      else if !configured then Finish(db2, cache, order, cart, snap.items, None, "")
      else Charge(db2, env, cache, gateway, user, order, cart, snap.items)
  }

  /**
   * `createOrder` with the given stock decrement: an empty cart and a cart
   * that fails verification are refused before anything but the cart is
   * written. `orderId` is the id the new order receives; `now` stamps it.
   */
  function CreateOrderWith(kind: Decrement, db: Db, env: Env, cache: Option<PaymentServicePy.Client>,
                           gateway: PaymentServicePy.Gateway, user: Id, address: ShippingAddress,
                           notes: Option<string>, freshCartId: Id, orderId: Id, now: int): (r: Placed)
    ensures var (db1, cart) := GetOrCreateActiveCart(db, user, freshCartId);
      var snap := CartServicePy.BuildSnapshot(db1, cart.id);
      var verified := CartServicePy.VerifyStockLevels(db1.products, snap.items);
      (snap.items == [] ==> r == Placed(db1, cache, Fail(400, CART_EMPTY))) &&
      (snap.items != [] && verified.Err? ==> r == Placed(db1, cache, Fail(400, verified.error.message))) &&
      (snap.items != [] && verified.Ok? ==>
         r == Place(kind, db1, env, cache, gateway, user, cart.id, snap, address, notes, orderId, now))
  {
    var (db1, cart) := GetOrCreateActiveCart(db, user, freshCartId);
    var snap := CartServicePy.BuildSnapshot(db1, cart.id);
    if snap.items == [] then Placed(db1, cache, Fail(400, CART_EMPTY))
    else match CartServicePy.VerifyStockLevels(db1.products, snap.items)
      case Err(e) => Placed(db1, cache, Fail(400, e.message))
      case Ok(_) => Place(kind, db1, env, cache, gateway, user, cart.id, snap, address, notes, orderId, now)
  }

  /** `createOrder`, with the stock decrement corrected to move both stock fields. */
  function CreateOrder(db: Db, env: Env, cache: Option<PaymentServicePy.Client>, gateway: PaymentServicePy.Gateway,
                       user: Id, address: ShippingAddress, notes: Option<string>, freshCartId: Id, orderId: Id, now: int): (r: Placed)
  {
    CreateOrderWith(BothFields, db, env, cache, gateway, user, address, notes, freshCartId, orderId, now)
  }

  /** Deleting a freshly recorded order takes back everything but the stock decrement. */
  lemma DeleteRecorded(kind: Decrement, db1: Db, order: Order, lines: seq<SnapshotItem>)
    requires order.id !in db1.orders && forall i :: 0 <= i < |db1.orderItems| ==> db1.orderItems[i].order != order.id
    requires QuantitiesPositive(lines)
    ensures DeleteOrder(Record(kind, db1, order, lines, Crash(ORDER_ITEM_INVALID)).0, order.id) == db1.(products := DecrementAll(kind, db1.products, lines))
  {
    var added := OrderItemsFor(order.id, lines);
    var db2 := Record(kind, db1, order, lines, Crash(ORDER_ITEM_INVALID)).0;
    assert db2 == db1.(orders := db1.orders[order.id := order], orderItems := db1.orderItems + added,
                       products := DecrementAll(kind, db1.products, lines));
    WithoutAppended(db1.orderItems, added, order.id);
    var d := DeleteOrder(db2, order.id);
    assert d.orders == db1.orders;
    assert d.orderItems == db1.orderItems;
  }

  /** After verification: a gateway failure undoes everything but the stock decrement. */
  lemma PlaceFailureKeepsDecrement(kind: Decrement, db1: Db, env: Env, cache: Option<PaymentServicePy.Client>,
                                   gateway: PaymentServicePy.Gateway, user: Id, cart: Id, snap: Snapshot,
                                   address: ShippingAddress, notes: Option<string>, orderId: Id, now: int)
    requires orderId !in db1.orders && forall i :: 0 <= i < |db1.orderItems| ==> db1.orderItems[i].order != orderId
    requires Place(kind, db1, env, cache, gateway, user, cart, snap, address, notes, orderId, now).reply == Fail(502, PAYMENT_UNAVAILABLE)
    ensures Place(kind, db1, env, cache, gateway, user, cart, snap, address, notes, orderId, now).db
            == db1.(products := DecrementAll(kind, db1.products, snap.items))
  {
    var configured := PaymentServicePy.IsConfigured(env);
    var order := NewOrder(orderId, user, cart, snap.totals.amount, configured, address, notes, now);
    assert snap.totals.amount >= 0 && QuantitiesPositive(snap.items) && configured;
    DeleteRecorded(kind, db1, order, snap.items);
  }

  /**
   * A gateway failure leaves no order, no order lines, no payment and the
   * cart as it was, but the stock stays decremented.
   */
  lemma GatewayFailureKeepsDecrement(kind: Decrement, db: Db, env: Env, cache: Option<PaymentServicePy.Client>,
                                     gateway: PaymentServicePy.Gateway, user: Id, address: ShippingAddress,
                                     notes: Option<string>, freshCartId: Id, orderId: Id, now: int)
    requires orderId !in db.orders && forall i :: 0 <= i < |db.orderItems| ==> db.orderItems[i].order != orderId
    requires CreateOrderWith(kind, db, env, cache, gateway, user, address, notes, freshCartId, orderId, now).reply
             == Fail(502, PAYMENT_UNAVAILABLE)
    ensures var (db1, cart) := GetOrCreateActiveCart(db, user, freshCartId);
      var snap := CartServicePy.BuildSnapshot(db1, cart.id);
      CreateOrderWith(kind, db, env, cache, gateway, user, address, notes, freshCartId, orderId, now).db
      == db1.(products := DecrementAll(kind, db1.products, snap.items))
  {
    var (db1, cart) := GetOrCreateActiveCart(db, user, freshCartId);
    var snap := CartServicePy.BuildSnapshot(db1, cart.id);
    PlaceFailureKeepsDecrement(kind, db1, env, cache, gateway, user, cart.id, snap, address, notes, orderId, now);
  }

  /** After verification: the order a successful placement answers with. */
  lemma PlaceAnswers(kind: Decrement, db1: Db, env: Env, cache: Option<PaymentServicePy.Client>,
                     gateway: PaymentServicePy.Gateway, user: Id, cart: Id, snap: Snapshot,
                     address: ShippingAddress, notes: Option<string>, orderId: Id, now: int)
    requires Place(kind, db1, env, cache, gateway, user, cart, snap, address, notes, orderId, now).reply.Ok?
    ensures var r := Place(kind, db1, env, cache, gateway, user, cart, snap, address, notes, orderId, now);
      var order := r.reply.value.order;
      order.id == orderId && order.user == user && order.totalAmount == snap.totals.amount &&
      order.status == (if PaymentServicePy.IsConfigured(env) then PendingPayment else Paid) &&
      r.reply.value.items == OrderItemsFor(orderId, snap.items) &&
      FreshShape(order)
  {
    var configured := PaymentServicePy.IsConfigured(env);
    var order := NewOrder(orderId, user, cart, snap.totals.amount, configured, address, notes, now);
    var db2 := Record(kind, db1, order, snap.items, Crash(ORDER_ITEM_INVALID)).0;
    assert snap.totals.amount >= 0 && QuantitiesPositive(snap.items);
  }

  /** How checkout builds an order: no embedded lines, owner id set, history started, rupees. */
  predicate FreshShape(o: Order)
  {
    o.products == [] && o.items == [] && o.userId.Some? && o.statusHistory != [] && o.currency == "INR"
  }

  /** After verification: what a successful placement writes. */
  lemma PlaceWrites(kind: Decrement, db1: Db, env: Env, cache: Option<PaymentServicePy.Client>,
                    gateway: PaymentServicePy.Gateway, user: Id, cart: Id, snap: Snapshot,
                    address: ShippingAddress, notes: Option<string>, orderId: Id, now: int)
    requires Place(kind, db1, env, cache, gateway, user, cart, snap, address, notes, orderId, now).reply.Ok?
    ensures var r := Place(kind, db1, env, cache, gateway, user, cart, snap, address, notes, orderId, now);
      Committed(db1, r, kind, snap.items) && ItemsOf(r.db.cartItems, cart) == []
  {
    var configured := PaymentServicePy.IsConfigured(env);
    var order := NewOrder(orderId, user, cart, snap.totals.amount, configured, address, notes, now);
    var db2 := Record(kind, db1, order, snap.items, Crash(ORDER_ITEM_INVALID)).0;
    assert snap.totals.amount >= 0 && QuantitiesPositive(snap.items);
    if configured {
      ChargedCommits(kind, db1, db2, env, cache, gateway, user, order, cart, snap.items);
    } else {
      ManualCommits(kind, db1, cache, order, cart, snap.items);
    }
  }

  /** What a successful placement leaves in the collections, besides the cleared cart. */
  predicate Committed(db1: Db, r: Placed, kind: Decrement, lines: seq<SnapshotItem>)
    requires r.reply.Ok?
  {
    var order := r.reply.value.order;
    r.db.orders == db1.orders[order.id := order] &&
    r.db.orderItems == db1.orderItems + r.reply.value.items &&
    r.db.payments == db1.payments + [r.reply.value.payment] &&
    r.db.products == DecrementAll(kind, db1.products, lines)
  }

  /** The writes of a checkout without a gateway. */
  lemma ManualCommits(kind: Decrement, db1: Db, cache: Option<PaymentServicePy.Client>, order: Order, cart: Id, lines: seq<SnapshotItem>)
    requires QuantitiesPositive(lines)
    ensures var r := Finish(Record(kind, db1, order, lines, Crash(ORDER_ITEM_INVALID)).0, cache, order, cart, lines, None, "");
      Committed(db1, r, kind, lines) && ItemsOf(r.db.cartItems, cart) == []
  {
  }

  /**
   * The writes of a checkout through a gateway that accepted the order,
   * from the state the order, its lines and the decrement were written in.
   */
  lemma ChargedCommits(kind: Decrement, db1: Db, db2: Db, env: Env, cache: Option<PaymentServicePy.Client>,
                       gateway: PaymentServicePy.Gateway, user: Id, order: Order, cart: Id, lines: seq<SnapshotItem>)
    requires db2.orders == db1.orders[order.id := order] && db2.payments == db1.payments
    requires db2.orderItems == db1.orderItems + OrderItemsFor(order.id, lines)
    requires db2.products == DecrementAll(kind, db1.products, lines)
    requires Charge(db2, env, cache, gateway, user, order, cart, lines).reply.Ok?
    ensures var r := Charge(db2, env, cache, gateway, user, order, cart, lines);
      Committed(db1, r, kind, lines) && ItemsOf(r.db.cartItems, cart) == []
  {
    ChargedOrder(db1, db2, env, cache, gateway, user, order, cart, lines);
  }

  /** The order written over itself with its gateway id is still the one order added. */
  lemma ChargedOrder(db1: Db, db2: Db, env: Env, cache: Option<PaymentServicePy.Client>,
                     gateway: PaymentServicePy.Gateway, user: Id, order: Order, cart: Id, lines: seq<SnapshotItem>)
    requires db2.orders == db1.orders[order.id := order]
    requires Charge(db2, env, cache, gateway, user, order, cart, lines).reply.Ok?
    ensures var r := Charge(db2, env, cache, gateway, user, order, cart, lines);
      r.db.orders == db1.orders[r.reply.value.order.id := r.reply.value.order]
  {
    var r := Charge(db2, env, cache, gateway, user, order, cart, lines);
    assert r.reply.value.order.id == order.id;
    assert db1.orders[order.id := order][order.id := r.reply.value.order] == db1.orders[order.id := r.reply.value.order];
  }

  /**
   * A successful checkout adds exactly one order, its lines (found again by
   * the order's id) and one payment, decrements stock, and empties the
   * cart. The order is pending payment behind a configured gateway and
   * paid without one, and costs what the cart's snapshot says.
   */
  lemma PlacedOrderWrites(kind: Decrement, db: Db, env: Env, cache: Option<PaymentServicePy.Client>,
                          gateway: PaymentServicePy.Gateway, user: Id, address: ShippingAddress,
                          notes: Option<string>, freshCartId: Id, orderId: Id, now: int)
    requires OrderItemsOf(db.orderItems, orderId) == []
    requires CreateOrderWith(kind, db, env, cache, gateway, user, address, notes, freshCartId, orderId, now).reply.Ok?
    ensures var (db1, cart) := GetOrCreateActiveCart(db, user, freshCartId);
      var snap := CartServicePy.BuildSnapshot(db1, cart.id);
      var r := CreateOrderWith(kind, db, env, cache, gateway, user, address, notes, freshCartId, orderId, now);
      snap.items != [] && CartServicePy.VerifyStockLevels(db1.products, snap.items).Ok? &&
      r.reply.value.order.id == orderId && r.reply.value.order.user == user && FreshShape(r.reply.value.order) &&
      r.reply.value.order.status == (if PaymentServicePy.IsConfigured(env) then PendingPayment else Paid) &&
      r.reply.value.order.totalAmount == snap.totals.amount &&
      r.reply.value.items == OrderItemsFor(orderId, snap.items) &&
      Committed(db1, r, kind, snap.items) &&
      OrderItemsOf(r.db.orderItems, orderId) == r.reply.value.items &&
      ItemsOf(r.db.cartItems, cart.id) == []
  {
    var (db1, cart) := GetOrCreateActiveCart(db, user, freshCartId);
    var snap := CartServicePy.BuildSnapshot(db1, cart.id);
    PlaceAnswers(kind, db1, env, cache, gateway, user, cart.id, snap, address, notes, orderId, now);
    PlaceWrites(kind, db1, env, cache, gateway, user, cart.id, snap, address, notes, orderId, now);
    OrderItemsForFound(db1.orderItems, orderId, snap.items);
  }

  /**
   * Every line of a placed order names the product of the matching cart
   * line and carries that product's name: verification has already
   * established that each product exists.
   */
  lemma VerifiedLinesNamed(db1: Db, cart: Id, orderId: Id, i: nat)
    requires CartServicePy.VerifyStockLevels(db1.products, CartServicePy.BuildSnapshot(db1, cart).items).Ok?
    requires i < |ItemsOf(db1.cartItems, cart)|
    ensures var line := ItemsOf(db1.cartItems, cart)[i];
      var item := OrderItemsFor(orderId, CartServicePy.BuildSnapshot(db1, cart).items)[i];
      line.product in db1.products && item.product == line.product &&
      item.productName == LoadPy(db1.products[line.product]).name && item.quantity == line.quantity &&
      item.unitPrice == line.priceAtAddition
  {
    var snap := CartServicePy.BuildSnapshot(db1, cart);
    assert CartServicePy.StockCheck(db1.products, snap.items[i]).None?;
  }

  /**
   * As written, the `$inc` on `stock` is undone by the next load, which
   * restores `stock` from the untouched `totalStock`: after an order that
   * leaves the stored `stock` non-negative, the very same lines pass
   * verification again, however much of the loaded stock they took.
   */
  lemma RepeatOrderPassesAsWritten(products: Products, lines: seq<SnapshotItem>)
    requires forall x :: x in products ==> products[x].totalStock.Some?
    requires forall x :: x in products ==> Ordered(lines, x) <= products[x].stock
    requires CartServicePy.VerifyStockLevels(products, lines).Ok?
    ensures CartServicePy.VerifyStockLevels(DecrementAll(StockOnly, products, lines), lines).Ok?
  {
    var r := DecrementAll(StockOnly, products, lines);
    StockOnlyLoadsSame(products, lines);
    forall i | 0 <= i < |lines|
      ensures CartServicePy.StockCheck(r, lines[i]).None?
    {
      assert CartServicePy.StockCheck(products, lines[i]).None?;
    }
  }

  /**
   * Every product loads exactly as before a stock-only decrement, once
   * `totalStock` is set and while the stored stock covers what was ordered;
   * a loadable product stays loadable.
   */
  lemma StockOnlyLoadsSame(products: Products, lines: seq<SnapshotItem>)
    requires forall x :: x in products ==> products[x].totalStock.Some?
    requires forall x :: x in products ==> Ordered(lines, x) <= products[x].stock
    ensures var r := DecrementAll(StockOnly, products, lines);
      r.Keys == products.Keys && forall x :: x in products ==> LoadPy(r[x]) == LoadPy(products[x])
    ensures var r := DecrementAll(StockOnly, products, lines);
      forall x :: x in products && LoadablePy(products[x]) ==> LoadablePy(r[x])
  {
    var r := DecrementAll(StockOnly, products, lines);
    forall x | x in products
      ensures LoadPy(r[x]) == LoadPy(products[x])
      ensures LoadablePy(products[x]) ==> LoadablePy(r[x])
    {
      DecrementInvisible(products[x], Ordered(lines, x));
    }
  }

  /**
   * As written, a product stored with one unit sells twice: the first sale
   * leaves the stored `stock` at 0, the same line passes the check again on
   * the restored figure, and the second sale takes the stored `stock` to -1,
   * after which every load of the product raises a `ValidationError`.
   */
  lemma SecondSaleUnloadable(products: Products, lines: seq<SnapshotItem>, x: Id)
    requires forall y :: y in products ==> products[y].totalStock.Some? && LoadablePy(products[y])
    requires x in products && products[x].stock == 1 && products[x].totalStock == Some(1)
    requires |lines| == 1 && lines[0].productId == Some(x) && lines[0].quantity == 1
    requires CartServicePy.VerifyStockLevels(products, lines).Ok?
    ensures var once := DecrementAll(StockOnly, products, lines);
      CartServicePy.VerifyStockLevels(once, lines).Ok? && !LoadablePy(DecrementAll(StockOnly, once, lines)[x])
  {
    forall y | y in products ensures Ordered(lines, y) <= products[y].stock {
      assert lines[1..] == [];
    }
    RepeatOrderPassesAsWritten(products, lines);
    var once := DecrementAll(StockOnly, products, lines);
    assert Ordered(lines, x) == 1 by { assert lines[1..] == []; }
    assert once[x].stock == 0;
  }

  /**
   * With both stock fields moved, each product of a verified order loses
   * exactly its line's quantity and never goes below zero, and a line that
   * took the whole stock cannot be ordered again.
   */
  lemma CorrectedOrderDepletes(products: Products, lines: seq<SnapshotItem>, i: nat)
    requires CartServicePy.VerifyStockLevels(products, lines).Ok?
    requires DistinctProducts(lines) && i < |lines|
    ensures lines[i].productId.Some? && lines[i].productId.value in products
    ensures var x := lines[i].productId.value;
      var r := DecrementAll(BothFields, products, lines);
      LoadPy(r[x]).stock == LoadPy(products[x]).stock - lines[i].quantity >= 0
    ensures LoadPy(products[lines[i].productId.value]).stock == lines[i].quantity ==>
      CartServicePy.VerifyStockLevels(DecrementAll(BothFields, products, lines), lines).Err?
  {
    assert CartServicePy.StockCheck(products, lines[i]).None?;
    OrderedSingle(lines, i);
    var x := lines[i].productId.value;
    var r := DecrementAll(BothFields, products, lines);
    if LoadPy(products[x]).stock == lines[i].quantity {
      assert !LoadPy(r[x]).isActive;
      assert CartServicePy.StockCheck(r, lines[i]).Some?;
    }
  }

  /**
   * `getOrder`: the caller's order by id (a 400 for an id that does not
   * parse, a 404 for one that is not the caller's) with its lines. The
   * order passes through the model's validation on the way out.
   */
  function GetOrder(db: Db, user: Id, orderId: string, now: int): (r: Result<OrderView>)
    ensures OwnedOrder(db, user, orderId, INVALID_IDENTIFIER).Err? ==> r == OwnedOrder(db, user, orderId, INVALID_IDENTIFIER)
    ensures r.Ok? <==> OwnedOrder(db, user, orderId, INVALID_IDENTIFIER).Ok?
    ensures r.Ok? ==> r.value.order == Validate(db.orders[Lower(orderId)], now) &&
                      r.value.items == OrderItemsOf(db.orderItems, Lower(orderId))
  {
    match OwnedOrder(db, user, orderId, INVALID_IDENTIFIER)
    case Err(e) => Err(e)
    case Ok(v) => Ok(v.(order := Validate(v.order, now)))
  }

  /**
   * An order just placed is found again by its owner under its id, exactly
   * as the placement answered, with exactly the lines it answered with.
   */
  lemma PlacedOrderFound(kind: Decrement, db: Db, env: Env, cache: Option<PaymentServicePy.Client>,
                         gateway: PaymentServicePy.Gateway, user: Id, address: ShippingAddress,
                         notes: Option<string>, freshCartId: Id, orderId: Id, now: int, later: int)
    requires IsCanonicalId(orderId) && OrderItemsOf(db.orderItems, orderId) == []
    requires CreateOrderWith(kind, db, env, cache, gateway, user, address, notes, freshCartId, orderId, now).reply.Ok?
    ensures var r := CreateOrderWith(kind, db, env, cache, gateway, user, address, notes, freshCartId, orderId, now);
      GetOrder(r.db, user, orderId, later) == Ok(OrderView(r.reply.value.order, r.reply.value.items))
  {
    var (db1, cart) := GetOrCreateActiveCart(db, user, freshCartId);
    var snap := CartServicePy.BuildSnapshot(db1, cart.id);
    var r := CreateOrderWith(kind, db, env, cache, gateway, user, address, notes, freshCartId, orderId, now);
    PlacedOrderWrites(kind, db, env, cache, gateway, user, address, notes, freshCartId, orderId, now);
    CommittedFound(db1, r, kind, snap.items, user, later);
  }

  /** What a commit leaves is what the lookup finds. */
  lemma CommittedFound(db1: Db, r: Placed, kind: Decrement, lines: seq<SnapshotItem>, user: Id, later: int)
    requires r.reply.Ok? && Committed(db1, r, kind, lines)
    requires IsCanonicalId(r.reply.value.order.id) && r.reply.value.order.user == user && FreshShape(r.reply.value.order)
    requires OrderItemsOf(r.db.orderItems, r.reply.value.order.id) == r.reply.value.items
    ensures GetOrder(r.db, user, r.reply.value.order.id, later) == Ok(OrderView(r.reply.value.order, r.reply.value.items))
  {
    ParseCanonical(r.reply.value.order.id);
    assert Upper("INR") == "INR";
    ValidateFresh(r.reply.value.order, later);
  }
}
