/**
 * The collections the checkout path reads and writes: carts and their
 * items, orders and their line items, and payments. A collection the code
 * scans with `find_one` / `findOne` is a sequence in insertion order, so
 * "the first match" is well defined; orders are looked up by id only.
 */
module Shop {

  import opened Base
  import opened Text
  import opened Ids
  import opened Catalog

  datatype CartStatus = Active | Converted | Abandoned

  datatype Cart = Cart(id: Id, user: Id, status: CartStatus)

  /** A cart line: the price is frozen when the product is first added. */
  datatype CartItem = CartItem(id: Id, cart: Id, product: Id, quantity: int, priceAtAddition: nat)

  datatype ShippingAddress = ShippingAddress(
    name: string,
    phone: Option<string>,
    line1: string,
    line2: Option<string>,
    city: string,
    state: string,
    postalCode: string,
    country: string)

  /** Every status the Python order model admits. */
  datatype OrderStatus =
    | PendingPayment | Pending | Paid | OrderCreated | PaymentConfirmed | Dispatched
    | Shipped | ReachedCity | OutForDelivery | Delivered | Cancelled

  const ALL_STATUSES: seq<OrderStatus> :=
    [PendingPayment, Pending, Paid, OrderCreated, PaymentConfirmed, Dispatched,
     Shipped, ReachedCity, OutForDelivery, Delivered, Cancelled]

  /** The stored spelling of a status. */
  function StatusName(s: OrderStatus): string
  {
    match s
    case PendingPayment => "pending_payment"
    case Pending => "pending"
    case Paid => "paid"
    case OrderCreated => "order_created"
    case PaymentConfirmed => "payment_confirmed"
    case Dispatched => "dispatched"
    case Shipped => "shipped"
    case ReachedCity => "reached_city"
    case OutForDelivery => "out_for_delivery"
    case Delivered => "delivered"
    case Cancelled => "cancelled"
  }

  /** The `Literal[...]` check: a string names a status iff it is one of the eleven spellings. */
  function ParseStatus(name: string): (r: Option<OrderStatus>)
    ensures r.Some? ==> StatusName(r.value) == name
  {
    if name == "pending_payment" then Some(PendingPayment)
    else if name == "pending" then Some(Pending)
    else if name == "paid" then Some(Paid)
    else if name == "order_created" then Some(OrderCreated)
    else if name == "payment_confirmed" then Some(PaymentConfirmed)
    else if name == "dispatched" then Some(Dispatched)
    else if name == "shipped" then Some(Shipped)
    else if name == "reached_city" then Some(ReachedCity)
    else if name == "out_for_delivery" then Some(OutForDelivery)
    else if name == "delivered" then Some(Delivered)
    else if name == "cancelled" then Some(Cancelled)
    else None
  }

  /** Every status is written in a form that parses back to it, so spellings are distinct. */
  lemma StatusNameRoundTrip(s: OrderStatus)
    ensures ParseStatus(StatusName(s)) == Some(s)
  {
  }

  /** An order's history record. Times are milliseconds. */
  datatype StatusEntry = StatusEntry(status: OrderStatus, timestamp: int, updatedBy: Option<Id>, notes: Option<string>)

  /** A line embedded in an order document (`products` / `items`). */
  datatype OrderLine = OrderLine(productId: Option<Id>, product: Option<Id>, productName: string, quantity: int, unitPrice: nat, subtotal: nat)

  datatype Order = Order(
    id: Id,
    user: Id,
    userId: Option<Id>,
    products: seq<OrderLine>,
    items: seq<OrderLine>,
    cart: Option<Id>,
    totalAmount: nat,
    currency: string,
    status: OrderStatus,
    statusHistory: seq<StatusEntry>,
    shippingAddress: ShippingAddress,
    paymentIntentId: Option<string>,
    notes: Option<string>,
    createdAt: Option<int>)

  /** A document of the separate `order_items` collection. */
  datatype OrderItem = OrderItem(order: Id, product: Id, productName: string, unitPrice: nat, quantity: int, subtotal: int)

  datatype PaymentStatus = Initiated | Authorized | Captured | Failed | Refunded

  /** What the gateway answers to "create an order" (amounts in paise). */
  datatype GatewayOrder = GatewayOrder(id: string, amount: int, currency: string)

  /** The `rawResponse` a payment carries. */
  datatype Raw =
    | NoRaw
    | GatewayReply(reply: GatewayOrder)
    | ClientPayload(fields: map<string, string>)
    | Confirmation(razorpayOrderId: string, razorpayPaymentId: string, razorpaySignature: string)

  datatype Payment = Payment(
    order: Id,
    gateway: string,
    amount: nat,
    currency: string,
    status: PaymentStatus,
    transactionId: Option<string>,
    rawResponse: Raw)

  datatype Db = Db(
    products: Products,
    carts: seq<Cart>,
    cartItems: seq<CartItem>,
    orders: map<Id, Order>,
    orderItems: seq<OrderItem>,
    payments: seq<Payment>)

  /** The items of one order, in insertion order. */
  function OrderItemsOf(items: seq<OrderItem>, order: Id): (r: seq<OrderItem>)
    ensures forall i :: 0 <= i < |r| ==> r[i].order == order && r[i] in items
    ensures forall it :: it in items && it.order == order ==> it in r
    ensures |r| <= |items|
  {
    if items == [] then []
    else
      var rest := OrderItemsOf(items[1..], order);
      if items[0].order == order then [items[0]] + rest else rest
  }

  /** Index of the first payment of an order through the given gateway (`find_one` / `findOne`). */
  function FindPayment(payments: seq<Payment>, order: Id, gateway: string): (r: Option<nat>)
    ensures r.Some? ==> r.value < |payments| && payments[r.value].order == order && payments[r.value].gateway == gateway
    ensures r.Some? ==> forall j :: 0 <= j < r.value ==> !(payments[j].order == order && payments[j].gateway == gateway)
    ensures r.None? ==> forall j :: 0 <= j < |payments| ==> !(payments[j].order == order && payments[j].gateway == gateway)
  {
    if payments == [] then None
    else if payments[0].order == order && payments[0].gateway == gateway then Some(0)
    else
      match FindPayment(payments[1..], order, gateway)
      case None => None
      case Some(i) => Some(i + 1)
  }
}
