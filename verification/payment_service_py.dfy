/**
 * The Python Razorpay service: whether the gateway is configured, the
 * process-wide client, order creation, and the check of the signature a
 * client hands back after paying. The gateway itself is a parameter: a
 * function from the client and the request to the order it creates, or
 * to nothing when the call raises.
 */
module PaymentServicePy {

  import opened Base
  import opened Crypto
  import opened Shop

  const KEY_ID: string := "RAZORPAY_KEY_ID"
  const SECRET: string := "RAZORPAY_SECRET"
  const NOT_CONFIGURED: string := "Razorpay credentials are not configured"
  const SECRET_MISSING: string := "Razorpay secret is not configured"
  const GATEWAY_FAILED: string := "Razorpay order creation failed"

  /** A Razorpay client and the credentials it was built with. */
  datatype Client = Client(keyId: string, secret: string)

  /** The body of a Razorpay "create order" call. */
  datatype GatewayRequest = GatewayRequest(amount: int, currency: string, receipt: Option<string>, notes: Option<map<string, string>>)

  type Gateway = (Client, GatewayRequest) -> Option<GatewayOrder>

  /** `isConfigured`: both the key id and the secret are set and non-empty. */
  predicate IsConfigured(env: Env)
  {
    Configured(env, KEY_ID) && Configured(env, SECRET)
  }

  /**
   * `getClient`: a 500 `PaymentServiceError` unless configured; otherwise
   * the cached client, or a new one built from the environment and cached.
   */
  function GetClient(env: Env, cache: Option<Client>): (r: (Option<Client>, Result<Client>))
    ensures !IsConfigured(env) ==> r == (cache, Fail(500, NOT_CONFIGURED))
    ensures IsConfigured(env) && cache.Some? ==> r == (cache, Ok(cache.value))
    ensures IsConfigured(env) && cache.None? ==>
      r.1 == Ok(Client(env[KEY_ID], env[SECRET])) && r.0 == Some(r.1.value)
  {
    if !IsConfigured(env) then (cache, Fail(500, NOT_CONFIGURED))
    else match cache
      case Some(c) => (cache, Ok(c))
      case None =>
        var c := Client(env[KEY_ID], env[SECRET]);
        (Some(c), Ok(c))
  }

  /**
   * The client is built once: after the first successful call, later calls
   * return that same client even if the credentials in the environment
   * have since changed.
   */
  lemma ClientBuiltOnce(env1: Env, env2: Env)
    requires IsConfigured(env1) && IsConfigured(env2)
    ensures var (cache, first) := GetClient(env1, None);
      GetClient(env2, cache) == (cache, first) && first.value.keyId == env1[KEY_ID]
  {
  }

  /** `createRazorpayOrder`: the client, then one gateway call with `notes or {}`. */
  function CreateRazorpayOrder(env: Env, cache: Option<Client>, gateway: Gateway, amount: int, currency: string,
                               receipt: Option<string>, notes: Option<map<string, string>>): (r: (Option<Client>, Result<GatewayOrder>))
    ensures GetClient(env, cache).1.Err? ==> r == (cache, Err(GetClient(env, cache).1.error))
    ensures GetClient(env, cache).1.Ok? ==> r.0 == GetClient(env, cache).0
    ensures GetClient(env, cache).1.Ok? ==>
      var sent := GatewayRequest(amount, currency, receipt, Some(notes.GetOr(map[])));
      match gateway(GetClient(env, cache).1.value, sent)
      case Some(o) => r.1 == Ok(o)
      case None => r.1 == Err(Crash(GATEWAY_FAILED))
  {
    var (cache1, client) := GetClient(env, cache);
    match client
    case Err(e) => (cache, Err(e))
    case Ok(c) =>
      match gateway(c, GatewayRequest(amount, currency, receipt, Some(notes.GetOr(map[]))))
      case Some(o) => (cache1, Ok(o))
      case None => (cache1, Err(Crash(GATEWAY_FAILED)))
  }

  /** The message Razorpay signs: an order id, a bar, a payment id. */
  function SignedMessage(orderId: string, paymentId: string): string
  {
    orderId + "|" + paymentId
  }

  /**
   * `verifyRazorpaySignature`: a 500 `PaymentServiceError` without a
   * secret; otherwise whether the signature is exactly the hex HMAC-SHA256
   * of `orderId|paymentId` under the secret (plain string equality).
   */
  function VerifyRazorpaySignature(c: Crypto, env: Env, orderId: string, paymentId: string, signature: string): (r: Result<bool>)
    ensures !Configured(env, SECRET) <==> r == Fail(500, SECRET_MISSING)
    ensures r.Ok? ==> (r.value <==> signature == HmacHex(c, env[SECRET], SignedMessage(orderId, paymentId)))
  {
    if !Configured(env, SECRET) then Fail(500, SECRET_MISSING)
    else Ok(HmacHex(c, env[SECRET], SignedMessage(orderId, paymentId)) == signature)
  }

  /**
   * What the gateway signs passes, and nothing else does: in particular the
   * upper-case spelling of a valid hex signature is rejected.
   */
  lemma SignatureExact(c: Crypto, env: Env, orderId: string, paymentId: string, signature: string)
    requires Configured(env, SECRET)
    ensures VerifyRazorpaySignature(c, env, orderId, paymentId, HmacHex(c, env[SECRET], SignedMessage(orderId, paymentId))) == Ok(true)
    ensures signature != HmacHex(c, env[SECRET], SignedMessage(orderId, paymentId)) ==>
      VerifyRazorpaySignature(c, env, orderId, paymentId, signature) == Ok(false)
  {
  }
}
