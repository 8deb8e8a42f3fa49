/**
 * The Python `verifyRazorpayPayment`: after paying, the client sends back
 * the order id, the gateway's payment id and the signature, and the
 * server marks the payment captured and the order paid.
 *
 * The gateway signs its own order id (the one checkout stored as the
 * order's `paymentIntentId` and handed to the client), while the code
 * checks the signature over the id of the shop's order document. `Signed`
 * chooses which id is checked: `ShopOrderId` is the code as written,
 * `GatewayOrderId` the evident intent (see the findings), and
 * `VerifyPayment` is the corrected operation.
 */
module PaymentControllerPy {

  import opened Base
  import opened Text
  import opened Ids
  import opened Crypto
  import opened Shop
  import opened Orders
  import PaymentServicePy

  const NOT_AN_OBJECT_ID: string := "is not a valid ObjectId"
  const ORDER_NOT_FOUND: string := "Order not found"
  const PAYMENT_NOT_FOUND: string := "Payment record not found"
  const INVALID_SIGNATURE: string := "Invalid payment signature"
  const VERIFIED: string := "Payment verified successfully."
  const GATEWAY: string := "razorpay"

  /** Which order id the signature is checked over. */
  datatype Signed = ShopOrderId | GatewayOrderId

  /** The request body: the shop's order id, the gateway's payment id, the signature and whatever else the client sent. */
  datatype Confirmation = Confirmation(orderId: string, paymentId: string, signature: string, payload: map<string, string>)

  /**
   * The order id the signature is checked over; `None` when the choice is
   * the gateway's id and the order never went through the gateway.
   */
  function SignedOrderId(signed: Signed, req: Confirmation, order: Order): (r: Option<string>)
    ensures signed == ShopOrderId ==> r == Some(req.orderId)
    ensures signed == GatewayOrderId ==> r == order.paymentIntentId
  {
    match signed
    case ShopOrderId => Some(req.orderId)
    case GatewayOrderId => order.paymentIntentId
  }

  /** The lookups before the signature check: the caller's order, validated as loaded, and its Razorpay payment. */
  function Lookup(db: Db, user: Id, orderId: string, now: int): (r: Result<(Order, nat)>)
    ensures ParseObjectId(orderId).None? <==> r == Err(Crash(NOT_AN_OBJECT_ID))
    ensures r.Ok? <==> ParseObjectId(orderId).Some? && Lower(orderId) in db.orders && db.orders[Lower(orderId)].user == user &&
                       FindPayment(db.payments, Lower(orderId), GATEWAY).Some?
    ensures ParseObjectId(orderId).Some? && (Lower(orderId) !in db.orders || db.orders[Lower(orderId)].user != user) ==>
      r == Fail(404, ORDER_NOT_FOUND)
    ensures (ParseObjectId(orderId).Some? && Lower(orderId) in db.orders && db.orders[Lower(orderId)].user == user &&
             FindPayment(db.payments, Lower(orderId), GATEWAY).None?) ==> r == Fail(404, PAYMENT_NOT_FOUND)
    ensures r.Ok? ==> r.value == (Validate(db.orders[Lower(orderId)], now), FindPayment(db.payments, Lower(orderId), GATEWAY).value)
  {
    match ParseObjectId(orderId)
    case None => Err(Crash(NOT_AN_OBJECT_ID))
    case Some(id) =>
      if id !in db.orders || db.orders[id].user != user then Fail(404, ORDER_NOT_FOUND)
      else match FindPayment(db.payments, id, GATEWAY)
        case None => Fail(404, PAYMENT_NOT_FOUND)
        case Some(k) => Ok((Validate(db.orders[id], now), k))
  }

  /** The signature check: the service's own errors pass through with their status; a bad signature is a 400. */
  function Check(c: Crypto, env: Env, signedId: Option<string>, req: Confirmation): (r: Result<()>)
    ensures !Configured(env, PaymentServicePy.SECRET) && signedId.Some? ==> r == Fail(500, PaymentServicePy.SECRET_MISSING)
    ensures r.Ok? <==> Configured(env, PaymentServicePy.SECRET) && signedId.Some? &&
                       req.signature == HmacHex(c, env[PaymentServicePy.SECRET], PaymentServicePy.SignedMessage(signedId.value, req.paymentId))
    ensures r.Err? && (Configured(env, PaymentServicePy.SECRET) || signedId.None?) ==> r == Fail(400, INVALID_SIGNATURE)
  {
    match signedId
    case None => Fail(400, INVALID_SIGNATURE)
    case Some(o) =>
      match PaymentServicePy.VerifyRazorpaySignature(c, env, o, req.paymentId, req.signature)
      case Err(e) => Err(e)
      case Ok(valid) => if valid then Ok(()) else Fail(400, INVALID_SIGNATURE)
  }

  /** The two writes of a verified payment: the payment captured with the client's data, the order paid. */
  function Capture(db: Db, id: Id, order: Order, k: nat, req: Confirmation): (r: Db)
    requires k < |db.payments|
    ensures |r.payments| == |db.payments|
    ensures r.payments[k] == db.payments[k].(status := Captured, transactionId := Some(req.paymentId), rawResponse := ClientPayload(req.payload))
    ensures forall j :: 0 <= j < |db.payments| && j != k ==> r.payments[j] == db.payments[j]
    ensures r.orders == db.orders[id := order.(status := Paid)]
    ensures r.(payments := db.payments, orders := db.orders) == db
  {
    var p := db.payments[k];
    db.(payments := db.payments[k := p.(status := Captured, transactionId := Some(req.paymentId), rawResponse := ClientPayload(req.payload))],
        orders := db.orders[id := order.(status := Paid)])
  }

  /**
   * `verifyRazorpayPayment` with the signature checked over the chosen
   * order id. Every failure leaves the database as it was.
   */
  function VerifyPaymentWith(signed: Signed, c: Crypto, env: Env, db: Db, user: Id, req: Confirmation, now: int): (r: (Db, Result<string>))
    ensures r.1.Err? ==> r.0 == db
    ensures Lookup(db, user, req.orderId, now).Err? ==> r.1 == Err(Lookup(db, user, req.orderId, now).error)
    ensures Lookup(db, user, req.orderId, now).Ok? ==>
      var (order, k) := Lookup(db, user, req.orderId, now).value;
      var checked := Check(c, env, SignedOrderId(signed, req, order), req);
      (checked.Err? ==> r.1 == Err(checked.error)) &&
      (checked.Ok? ==> r == (Capture(db, Lower(req.orderId), order, k, req), Ok(VERIFIED)))
  {
    match Lookup(db, user, req.orderId, now)
    case Err(e) => (db, Err(e))
    case Ok((order, k)) =>
      match Check(c, env, SignedOrderId(signed, req, order), req)
      case Err(e) => (db, Err(e))
      case Ok(_) => (Capture(db, Lower(req.orderId), order, k, req), Ok(VERIFIED))
  }

  /** `verifyRazorpayPayment`, checking the signature over the id the gateway signed. */
  function VerifyPayment(c: Crypto, env: Env, db: Db, user: Id, req: Confirmation, now: int): (r: (Db, Result<string>))
  {
    VerifyPaymentWith(GatewayOrderId, c, env, db, user, req, now)
  }

  /**
   * A confirmation is accepted exactly when the order is the caller's, it
   * has a Razorpay payment, and the signature is the gateway's over the
   * chosen order id and the payment id; accepting it captures that payment
   * with the payment id and the client's payload, and marks the order paid.
   */
  lemma AcceptedIff(signed: Signed, c: Crypto, env: Env, db: Db, user: Id, req: Confirmation, now: int)
    ensures var r := VerifyPaymentWith(signed, c, env, db, user, req, now);
      var id := Lower(req.orderId);
      r.1.Ok? <==> ParseObjectId(req.orderId).Some? && id in db.orders && db.orders[id].user == user &&
                   FindPayment(db.payments, id, GATEWAY).Some? && Configured(env, PaymentServicePy.SECRET) &&
                   SignedOrderId(signed, req, Validate(db.orders[id], now)).Some? &&
                   req.signature == HmacHex(c, env[PaymentServicePy.SECRET],
                     PaymentServicePy.SignedMessage(SignedOrderId(signed, req, Validate(db.orders[id], now)).value, req.paymentId))
    ensures var r := VerifyPaymentWith(signed, c, env, db, user, req, now);
      var id := Lower(req.orderId);
      r.1.Ok? ==> var k := FindPayment(db.payments, id, GATEWAY).value;
        r.0.payments[k].status == Captured && r.0.payments[k].transactionId == Some(req.paymentId) &&
        r.0.payments[k].rawResponse == ClientPayload(req.payload) &&
        r.0.orders[id].status == Paid
  {
  }

  /**
   * Nothing stops a second confirmation: the very same request verifies
   * again and writes the same fields with the same values, so the second
   * call changes nothing further.
   */
  lemma RepeatRewritesSame(signed: Signed, c: Crypto, env: Env, db: Db, user: Id, req: Confirmation, now: int, later: int)
    requires VerifyPaymentWith(signed, c, env, db, user, req, now).1.Ok?
    ensures var first := VerifyPaymentWith(signed, c, env, db, user, req, now).0;
      VerifyPaymentWith(signed, c, env, first, user, req, later) == (first, Ok(VERIFIED))
  {
    var (order, k) := Lookup(db, user, req.orderId, now).value;
    var first := Capture(db, Lower(req.orderId), order, k, req);
    LookupAfterCapture(db, user, req, now, later);
    CaptureAgain(db, Lower(req.orderId), order, k, req);
    assert SignedOrderId(signed, req, order.(status := Paid)) == SignedOrderId(signed, req, order);
  }

  /** After a capture the lookup finds the same payment and the order, now paid. */
  lemma LookupAfterCapture(db: Db, user: Id, req: Confirmation, now: int, later: int)
    requires Lookup(db, user, req.orderId, now).Ok?
    ensures var (order, k) := Lookup(db, user, req.orderId, now).value;
      Lookup(Capture(db, Lower(req.orderId), order, k, req), user, req.orderId, later) == Ok((order.(status := Paid), k))
  {
    var (order, k) := Lookup(db, user, req.orderId, now).value;
    var id := Lower(req.orderId);
    var first := Capture(db, id, order, k, req);
    ValidateIdempotent(db.orders[id], now, later);
    ValidateKeepsStatus(order, Paid, later);
    FindPaymentAfterCapture(db.payments, first.payments, id, k);
  }

  /** Capturing what is already captured writes nothing new. */
  lemma CaptureAgain(db: Db, id: Id, order: Order, k: nat, req: Confirmation)
    requires k < |db.payments|
    ensures var first := Capture(db, id, order, k, req);
      Capture(first, id, order.(status := Paid), k, req) == first
  {
    var first := Capture(db, id, order, k, req);
    assert first.payments[k := first.payments[k]] == first.payments;
    assert first.orders[id := order.(status := Paid)] == first.orders;
  }

  /** Capturing a payment in place keeps the lookup of an order's Razorpay payment where it was. */
  lemma {:induction false} FindPaymentAfterCapture(before: seq<Payment>, after: seq<Payment>, order: Id, k: nat)
    requires |after| == |before| && FindPayment(before, order, GATEWAY) == Some(k)
    requires forall j :: 0 <= j < |before| ==> after[j].order == before[j].order && after[j].gateway == before[j].gateway
    ensures FindPayment(after, order, GATEWAY) == Some(k)
  {
    if k > 0 {
      FindPaymentAfterCapture(before[1..], after[1..], order, k - 1);
    }
  }

  /**
   * As written: for an order that went through the gateway, the signature
   * the gateway produced (over its own order id) is refused, whenever its
   * MAC over the gateway id differs from the MAC over the shop's id.
   */
  lemma GenuineRejectedAsWritten(c: Crypto, env: Env, db: Db, user: Id, req: Confirmation, now: int)
    requires Configured(env, PaymentServicePy.SECRET)
    requires Lookup(db, user, req.orderId, now).Ok?
    requires var order := Lookup(db, user, req.orderId, now).value.0;
      order.paymentIntentId.Some? &&
      c.hmacSha256(env[PaymentServicePy.SECRET], PaymentServicePy.SignedMessage(order.paymentIntentId.value, req.paymentId)) !=
      c.hmacSha256(env[PaymentServicePy.SECRET], PaymentServicePy.SignedMessage(req.orderId, req.paymentId))
    requires var order := Lookup(db, user, req.orderId, now).value.0;
      req.signature == HmacHex(c, env[PaymentServicePy.SECRET], PaymentServicePy.SignedMessage(order.paymentIntentId.value, req.paymentId))
    ensures VerifyPaymentWith(ShopOrderId, c, env, db, user, req, now) == (db, Fail(400, INVALID_SIGNATURE))
    ensures VerifyPaymentWith(GatewayOrderId, c, env, db, user, req, now).1 == Ok(VERIFIED)
  {
    var order := Lookup(db, user, req.orderId, now).value.0;
    var secret := env[PaymentServicePy.SECRET];
    HexEncodeInjective(c.hmacSha256(secret, PaymentServicePy.SignedMessage(order.paymentIntentId.value, req.paymentId)),
                       c.hmacSha256(secret, PaymentServicePy.SignedMessage(req.orderId, req.paymentId)));
  }
}
