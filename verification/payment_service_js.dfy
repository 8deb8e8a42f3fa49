/**
 * The JavaScript Razorpay service. It differs from the Python one in its
 * errors: an unconfigured client is a plain `Error` (no status), and the
 * signature check does not look for the secret at all, so a missing
 * secret surfaces as the `TypeError` `createHmac` throws.
 */
module PaymentServiceJs {

  import opened Base
  import opened Crypto
  import opened Shop
  import PaymentServicePy

  const KEY_ID: string := "RAZORPAY_KEY_ID"
  const SECRET: string := "RAZORPAY_SECRET"
  const NOT_CONFIGURED: string := "Razorpay credentials are not configured"
  const KEY_UNDEFINED: string := "The \"key\" argument must be of type string"
  const GATEWAY_FAILED: string := "Razorpay order creation failed"

  type Client = PaymentServicePy.Client
  type GatewayRequest = PaymentServicePy.GatewayRequest
  type Gateway = PaymentServicePy.Gateway

  /** `isConfigured`: `Boolean(keyId && secret)`. */
  predicate IsConfigured(env: Env)
  {
    Configured(env, KEY_ID) && Configured(env, SECRET)
  }

  /** `getClient`: a plain `Error` unless configured; otherwise the cached client or a new one, cached. */
  function GetClient(env: Env, cache: Option<Client>): (r: (Option<Client>, Result<Client>))
    ensures !IsConfigured(env) ==> r == (cache, Err(Crash(NOT_CONFIGURED)))
    ensures IsConfigured(env) && cache.Some? ==> r == (cache, Ok(cache.value))
    ensures IsConfigured(env) && cache.None? ==>
      r.1 == Ok(PaymentServicePy.Client(env[KEY_ID], env[SECRET])) && r.0 == Some(r.1.value)
  {
    if !IsConfigured(env) then (cache, Err(Crash(NOT_CONFIGURED)))
    else match cache
      case Some(c) => (cache, Ok(c))
      case None =>
        var c := PaymentServicePy.Client(env[KEY_ID], env[SECRET]);
        (Some(c), Ok(c))
  }

  /** `createRazorpayOrder`: forwards amount, currency (default "INR"), receipt and notes unchanged. */
  function CreateRazorpayOrder(env: Env, cache: Option<Client>, gateway: Gateway, amount: int, currency: Option<string>,
                               receipt: Option<string>, notes: Option<map<string, string>>): (r: (Option<Client>, Result<GatewayOrder>))
    ensures GetClient(env, cache).1.Err? ==> r == (cache, Err(GetClient(env, cache).1.error))
    ensures GetClient(env, cache).1.Ok? ==> r.0 == GetClient(env, cache).0
    ensures GetClient(env, cache).1.Ok? ==>
      var sent := PaymentServicePy.GatewayRequest(amount, currency.GetOr("INR"), receipt, notes);
      match gateway(GetClient(env, cache).1.value, sent)
      case Some(o) => r.1 == Ok(o)
      case None => r.1 == Err(Crash(GATEWAY_FAILED))
  {
    var (cache1, client) := GetClient(env, cache);
    match client
    case Err(e) => (cache, Err(e))
    case Ok(c) =>
      match gateway(c, PaymentServicePy.GatewayRequest(amount, currency.GetOr("INR"), receipt, notes))
      case Some(o) => (cache1, Ok(o))
      case None => (cache1, Err(Crash(GATEWAY_FAILED)))
  }

  /**
   * `verifyRazorpaySignature`: whether the signature is exactly the hex
   * HMAC-SHA256 of `orderId|paymentId`. An empty secret is still a key;
   * only an unset one throws.
   */
  function VerifyRazorpaySignature(c: Crypto, env: Env, orderId: string, paymentId: string, signature: string): (r: Result<bool>)
    ensures SECRET !in env <==> r == Err(Crash(KEY_UNDEFINED))
    ensures r.Ok? ==> (r.value <==> signature == HmacHex(c, env[SECRET], PaymentServicePy.SignedMessage(orderId, paymentId)))
  {
    if SECRET !in env then Err(Crash(KEY_UNDEFINED))
    else Ok(HmacHex(c, env[SECRET], PaymentServicePy.SignedMessage(orderId, paymentId)) == signature)
  }

  /** Wherever the Python check answers, the two checks agree. */
  lemma VerifiersAgree(c: Crypto, env: Env, orderId: string, paymentId: string, signature: string)
    requires Configured(env, SECRET)
    ensures VerifyRazorpaySignature(c, env, orderId, paymentId, signature) ==
            PaymentServicePy.VerifyRazorpaySignature(c, env, orderId, paymentId, signature)
  {
  }

  /** With an empty secret the Python check refuses to run while this one still answers. */
  lemma EmptySecretDiverges(c: Crypto, env: Env, orderId: string, paymentId: string, signature: string)
    requires SECRET in env && env[SECRET] == ""
    ensures VerifyRazorpaySignature(c, env, orderId, paymentId, signature).Ok?
    ensures PaymentServicePy.VerifyRazorpaySignature(c, env, orderId, paymentId, signature).Err?
  {
  }
}
