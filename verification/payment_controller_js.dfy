/**
 * The JavaScript `verifyRazorpayPayment`. It checks the signature over the
 * gateway's order id as the client reports it, refuses a gateway id other
 * than the one recorded on the order, and answers a confirmation of an
 * already captured payment with the stored data, checking nothing.
 */
module PaymentControllerJs {

  import opened Base
  import opened Text
  import opened Ids
  import opened Crypto
  import opened Shop
  import PaymentServicePy
  import PaymentServiceJs

  const INCOMPLETE: string := "Incomplete payment verification payload."
  const INVALID_ORDER_ID: string := "Invalid order identifier."
  const NOT_CONFIGURED: string := "Payment gateway is not configured."
  const ORDER_NOT_FOUND: string := "Order not found."
  const MISMATCH: string := "Payment order mismatch."
  const SIGNATURE_FAILED: string := "Payment signature verification failed."
  const GATEWAY: string := "razorpay"

  /** The request body; a field the client left out is `None`. */
  datatype Body = Body(orderId: Option<string>, razorpayOrderId: Option<string>, razorpayPaymentId: Option<string>,
                       razorpaySignature: Option<string>)

  /** The answer: the order and the payment as stored afterwards. */
  datatype Confirmed = Confirmed(order: Order, payment: Payment)

  /** Every field present and non-empty. */
  predicate Complete(b: Body)
  {
    Truthy(b.orderId) && Truthy(b.razorpayOrderId) && Truthy(b.razorpayPaymentId) && Truthy(b.razorpaySignature)
  }

  /** The Razorpay payment of the order, when it exists and is already captured. */
  predicate AlreadyCaptured(db: Db, id: Id)
  {
    FindPayment(db.payments, id, GATEWAY).Some? && db.payments[FindPayment(db.payments, id, GATEWAY).value].status == Captured
  }

  /** The checks before the order is read: payload, id, configuration. */
  function Precheck(env: Env, b: Body): (r: Result<Id>)
    ensures !Complete(b) <==> r == Fail(400, INCOMPLETE)
    ensures Complete(b) && ParseObjectId(b.orderId.value).None? ==> r == Fail(400, INVALID_ORDER_ID)
    ensures Complete(b) && ParseObjectId(b.orderId.value).Some? && !PaymentServiceJs.IsConfigured(env) ==> r == Fail(500, NOT_CONFIGURED)
    ensures r.Ok? <==> Complete(b) && ParseObjectId(b.orderId.value).Some? && PaymentServiceJs.IsConfigured(env)
    ensures r.Ok? ==> r.value == Lower(b.orderId.value)
  {
    if !Complete(b) then Fail(400, INCOMPLETE)
    else match ParseObjectId(b.orderId.value)
      case None => Fail(400, INVALID_ORDER_ID)
      case Some(id) => if !PaymentServiceJs.IsConfigured(env) then Fail(500, NOT_CONFIGURED) else Ok(id)
  }

  /**
   * The writes of a verified confirmation: the order paid under the
   * reported gateway id, and the order's first Razorpay payment captured
   * with the confirmation, or a captured one created for the order's full
   * amount when there is none.
   */
  function Settle(db: Db, id: Id, order: Order, b: Body): (r: (Db, Confirmed))
    requires Complete(b)
    ensures var paid := order.(status := Paid, paymentIntentId := b.razorpayOrderId);
      r.0.orders == db.orders[id := paid] && r.1.order == paid
    ensures r.1.payment.status == Captured && r.1.payment.transactionId == b.razorpayPaymentId && r.1.payment.order == id
    ensures r.1.payment.gateway == GATEWAY
    ensures r.1.payment.rawResponse == Raw.Confirmation(b.razorpayOrderId.value, b.razorpayPaymentId.value, b.razorpaySignature.value)
    ensures FindPayment(db.payments, id, GATEWAY).Some? ==>
      var k := FindPayment(db.payments, id, GATEWAY).value;
      r.0.payments == db.payments[k := r.1.payment] &&
      r.1.payment.(status := db.payments[k].status, transactionId := db.payments[k].transactionId,
                   rawResponse := db.payments[k].rawResponse) == db.payments[k]
    ensures FindPayment(db.payments, id, GATEWAY).None? ==>
      r.0.payments == db.payments + [r.1.payment] && r.1.payment.amount == order.totalAmount &&
      r.1.payment.currency == order.currency
    ensures r.0.(orders := db.orders, payments := db.payments) == db
  {
    var paid := order.(status := Paid, paymentIntentId := b.razorpayOrderId);
    var raw := Raw.Confirmation(b.razorpayOrderId.value, b.razorpayPaymentId.value, b.razorpaySignature.value);
    var db1 := db.(orders := db.orders[id := paid]);
    match FindPayment(db.payments, id, GATEWAY)
    case Some(k) =>
      var p := db.payments[k].(status := Captured, transactionId := b.razorpayPaymentId, rawResponse := raw);
      (db1.(payments := db.payments[k := p]), Confirmed(paid, p))
    case None =>
      var p := Payment(id, GATEWAY, order.totalAmount, order.currency, Captured, b.razorpayPaymentId, raw);
      (db1.(payments := db.payments + [p]), Confirmed(paid, p))
  }

  /**
   * `verifyRazorpayPayment`. Checked in order: the payload, the id, the
   * configuration, the order's owner, an already captured payment (answered
   * as it is), a recorded gateway id other than the reported one, the
   * signature. Every failure, and the captured short-cut, leaves the
   * database as it was.
   */
  function VerifyPayment(c: Crypto, env: Env, db: Db, user: Id, b: Body): (r: (Db, Result<Confirmed>))
    ensures r.1.Err? ==> r.0 == db
    ensures Precheck(env, b).Err? ==> r.1 == Err(Precheck(env, b).error)
    ensures Precheck(env, b).Ok? ==>
      var id := Precheck(env, b).value;
      (id !in db.orders || db.orders[id].user != user ==> r == (db, Fail(404, ORDER_NOT_FOUND))) &&
      (id in db.orders && db.orders[id].user == user && AlreadyCaptured(db, id) ==>
         r == (db, Ok(Confirmed(db.orders[id], db.payments[FindPayment(db.payments, id, GATEWAY).value])))) &&
      (id in db.orders && db.orders[id].user == user && !AlreadyCaptured(db, id) ==>
         var order := db.orders[id];
         (Truthy(order.paymentIntentId) && order.paymentIntentId != b.razorpayOrderId ==> r == (db, Fail(400, MISMATCH))) &&
         (!(Truthy(order.paymentIntentId) && order.paymentIntentId != b.razorpayOrderId) ==>
            var valid := b.razorpaySignature.value == HmacHex(c, env[PaymentServiceJs.SECRET],
                           PaymentServicePy.SignedMessage(b.razorpayOrderId.value, b.razorpayPaymentId.value));
            (!valid ==> r == (db, Fail(400, SIGNATURE_FAILED))) &&
            (valid ==> r.0 == Settle(db, id, order, b).0 && r.1 == Ok(Settle(db, id, order, b).1))))
  {
    match Precheck(env, b)
    case Err(e) => (db, Err(e))
    case Ok(id) =>
      if id !in db.orders || db.orders[id].user != user then (db, Fail(404, ORDER_NOT_FOUND))
      else
        var order := db.orders[id];
        if AlreadyCaptured(db, id) then
          (db, Ok(Confirmed(order, db.payments[FindPayment(db.payments, id, GATEWAY).value])))
        else if Truthy(order.paymentIntentId) && order.paymentIntentId != b.razorpayOrderId then
          (db, Fail(400, MISMATCH))
        else
          match PaymentServiceJs.VerifyRazorpaySignature(c, env, b.razorpayOrderId.value, b.razorpayPaymentId.value,
                                                         b.razorpaySignature.value)
          case Err(e) => (db, Err(e))
          case Ok(valid) =>
            if !valid then (db, Fail(400, SIGNATURE_FAILED))
            else
              var (db1, confirmed) := Settle(db, id, order, b);
              (db1, Ok(confirmed))
  }

  /** After a settlement the order's Razorpay payment is found captured. */
  lemma SettledIsCaptured(db: Db, id: Id, order: Order, b: Body)
    requires Complete(b)
    ensures var (db1, confirmed) := Settle(db, id, order, b);
      AlreadyCaptured(db1, id) && db1.payments[FindPayment(db1.payments, id, GATEWAY).value] == confirmed.payment
  {
    var (db1, confirmed) := Settle(db, id, order, b);
    match FindPayment(db.payments, id, GATEWAY)
    case Some(k) =>
      FindPaymentAfterUpdate(db.payments, k, confirmed.payment, id);
    case None =>
      FindPaymentAppended(db.payments, confirmed.payment, id);
  }

  lemma {:induction false} FindPaymentAfterUpdate(ps: seq<Payment>, k: nat, p: Payment, id: Id)
    requires FindPayment(ps, id, GATEWAY) == Some(k) && p.order == id && p.gateway == GATEWAY
    ensures FindPayment(ps[k := p], id, GATEWAY) == Some(k)
  {
    if k > 0 {
      assert ps[k := p][1..] == ps[1..][k - 1 := p];
      FindPaymentAfterUpdate(ps[1..], k - 1, p, id);
    }
  }

  lemma {:induction false} FindPaymentAppended(ps: seq<Payment>, p: Payment, id: Id)
    requires FindPayment(ps, id, GATEWAY).None? && p.order == id && p.gateway == GATEWAY
    ensures FindPayment(ps + [p], id, GATEWAY) == Some(|ps|)
  {
    if ps != [] {
      assert (ps + [p])[1..] == ps[1..] + [p];
      FindPaymentAppended(ps[1..], p, id);
    }
  }

  /**
   * A confirmation is idempotent: once one has gone through, sending it
   * again (or any confirmation for that order, whatever its signature)
   * answers with the stored order and payment and writes nothing.
   */
  lemma RepeatIsNoop(c: Crypto, env: Env, db: Db, user: Id, b: Body, again: Body)
    requires VerifyPayment(c, env, db, user, b).1.Ok?
    requires Precheck(env, again).Ok? && Precheck(env, again).value == Precheck(env, b).value
    ensures var (db1, first) := VerifyPayment(c, env, db, user, b);
      VerifyPayment(c, env, db1, user, again) == (db1, first)
  {
    var id := Precheck(env, b).value;
    var order := db.orders[id];
    if !AlreadyCaptured(db, id) {
      SettledIsCaptured(db, id, order, b);
    }
  }

  /** A captured payment short-cuts everything after the owner check: even a forged signature is answered with success. */
  lemma CapturedSkipsSignature(c: Crypto, env: Env, db: Db, user: Id, b: Body)
    requires Precheck(env, b).Ok?
    requires var id := Precheck(env, b).value; id in db.orders && db.orders[id].user == user && AlreadyCaptured(db, id)
    ensures VerifyPayment(c, env, db, user, b).0 == db && VerifyPayment(c, env, db, user, b).1.Ok?
  {
  }

  /**
   * A confirmation that has not been answered before is accepted exactly
   * when the reported gateway id is the one recorded on the order (or none
   * is recorded) and the signature is the gateway's over that id and the
   * payment id; it then marks the order paid under that gateway id.
   */
  lemma AcceptedIff(c: Crypto, env: Env, db: Db, user: Id, b: Body)
    requires Precheck(env, b).Ok?
    requires var id := Precheck(env, b).value; id in db.orders && db.orders[id].user == user && !AlreadyCaptured(db, id)
    ensures var id := Precheck(env, b).value;
      var r := VerifyPayment(c, env, db, user, b);
      r.1.Ok? <==> (!Truthy(db.orders[id].paymentIntentId) || db.orders[id].paymentIntentId == b.razorpayOrderId) &&
                   b.razorpaySignature.value == HmacHex(c, env[PaymentServiceJs.SECRET],
                     PaymentServicePy.SignedMessage(b.razorpayOrderId.value, b.razorpayPaymentId.value))
    ensures var id := Precheck(env, b).value;
      var r := VerifyPayment(c, env, db, user, b);
      r.1.Ok? ==> r.0.orders[id].status == Paid && r.0.orders[id].paymentIntentId == b.razorpayOrderId &&
                  AlreadyCaptured(r.0, id)
  {
    var id := Precheck(env, b).value;
    SettledIsCaptured(db, id, db.orders[id], b);
  }
}
