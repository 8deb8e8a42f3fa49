/**
 * The JavaScript OTP service: a single `emailVerification` bucket. Sending
 * replaces the bucket wholesale; a successful verification also marks the
 * email verified. Only a wrong guess is saved here; the caller saves the
 * rest.
 */
module OtpJs {

  import opened Base
  import opened Text
  import opened Crypto
  import opened Users
  import opened Otp
  import OtpPy
  import opened Duration
  import opened JsValues

  /**
   * The limits as the service reads them at load: `Number(process.env[name]
   * || default)`. `None` when some value does not read as an integer; the
   * service would then compare with `NaN`, which is not modelled.
   */
  function LoadLimits(env: Env): (r: Option<Limits>)
    ensures r.Some? <==> TextToNumber(JsEnvOr(env, "OTP_EXPIRY_MINUTES", "10")).Int? &&
                         TextToNumber(JsEnvOr(env, "OTP_MAX_ATTEMPTS", "5")).Int? &&
                         TextToNumber(JsEnvOr(env, "OTP_MAX_PER_DAY", "3")).Int?
  {
    var expiry := TextToNumber(JsEnvOr(env, "OTP_EXPIRY_MINUTES", "10"));
    var attempts := TextToNumber(JsEnvOr(env, "OTP_MAX_ATTEMPTS", "5"));
    var perDay := TextToNumber(JsEnvOr(env, "OTP_MAX_PER_DAY", "3"));
    if expiry.Int? && attempts.Int? && perDay.Int? then Some(Limits(expiry.i, attempts.i, perDay.i)) else None
  }

  /** `Number` reads the default texts as the default limits. */
  lemma DefaultsAsNumbers()
    ensures TextToNumber("10") == Int(DEFAULT_LIMITS.expiryMinutes)
    ensures TextToNumber("5") == Int(DEFAULT_LIMITS.maxAttempts)
    ensures TextToNumber("3") == Int(DEFAULT_LIMITS.maxPerDay)
  {
    DefaultTexts();
    UnsignedAsNumber("10");
    UnsignedAsNumber("5");
    UnsignedAsNumber("3");
  }

  /** Non-empty text of digits alone reads as its decimal value. */
  lemma UnsignedAsNumber(s: string)
    requires s != "" && AllDigits(s)
    ensures TextToNumber(s) == Int(DigitsValue(s))
  {
    assert IsDigit(s[0]) && IsDigit(s[|s| - 1]);
    TrimOfTrimmed(s);
    var t := Trim(s);
    assert t == s && t != "";
    assert t[0] != '-' && t[0] != '+';
  }

  /** With none of the variables set, the two services use the same, default, limits. */
  lemma LoadDefaults(env: Env)
    requires "OTP_EXPIRY_MINUTES" !in env && "OTP_MAX_ATTEMPTS" !in env && "OTP_MAX_PER_DAY" !in env
    ensures LoadLimits(env) == Some(DEFAULT_LIMITS)
    ensures OtpPy.LoadLimits(env) == Ok(DEFAULT_LIMITS)
  {
    DefaultsAsNumbers();
    OtpPy.LoadDefaults(env);
  }

  /** An empty variable falls back to the default here, while Python's `int("")` refuses it. */
  lemma EmptyLimitDiverges(env: Env)
    requires env == map["OTP_MAX_PER_DAY" := ""]
    ensures LoadLimits(env) == Some(DEFAULT_LIMITS)
    ensures OtpPy.LoadLimits(env).Err?
  {
    assert JsEnvOr(env, "OTP_EXPIRY_MINUTES", "10") == "10" && JsEnvOr(env, "OTP_MAX_ATTEMPTS", "5") == "5";
    assert JsEnvOr(env, "OTP_MAX_PER_DAY", "3") == "3";
    DefaultsAsNumbers();
    assert PyEnvOr(env, "OTP_MAX_PER_DAY", "3") == "";
  }

  /** `generateOtp` for `Math.floor(Math.random() * 900000)` = `draw`. */
  function GenerateOtp(draw: nat): (otp: string)
    requires draw < 900000
    ensures |otp| == 6 && AllDigits(otp) && 100000 <= DigitsValue(otp) <= 999999
  {
    CodeText(draw + 100000)
  }

  /** `assignOtpToUser(user)`: the same cap and contents as the Python send, on the one bucket. */
  function AssignOtpToUser(c: Crypto, lim: Limits, u: User, draw: nat, salt: nat, now: int): (r: Result<(User, Sent)>)
    requires draw < 900000
    ensures r.Ok? <==> |PurgeHistory(u.emailVerification.sentHistory, now)| < lim.maxPerDay
    ensures r.Err? ==> r.error == Http(429, LIMIT_REACHED)
    ensures r.Ok? ==> r.value.0 == u.(emailVerification := OtpState(Some(c.bcryptHash(r.value.1.otp, salt)),
                                       Some(now + lim.ExpiryMs()), 0, PurgeHistory(u.emailVerification.sentHistory, now) + [now]))
    ensures r.Ok? ==> r.value.1 == Sent(GenerateOtp(draw), now + lim.ExpiryMs())
  {
    var otp := GenerateOtp(draw);
    var otpHash := c.bcryptHash(otp, salt);
    var expiresAt := now + lim.ExpiryMs();
    var history := PurgeHistory(u.emailVerification.sentHistory, now);
    if |history| >= lim.maxPerDay then Fail(429, LIMIT_REACHED)
    else Ok((u.(emailVerification := OtpState(Some(otpHash), Some(expiresAt), 0, history + [now])), Sent(otp, expiresAt)))
  }

  /**
   * `verifyUserOtp(user, otp)`: no code (400), attempts (429), expiry
   * (400), mismatch (400, counted). Success clears the bucket, purges its
   * history and marks the email verified at `now`.
   */
  function VerifyUserOtp(c: Crypto, lim: Limits, u: User, otp: string, now: int): (r: (User, Result<()>))
    ensures var st := u.emailVerification;
      r.1.Ok? <==> HasCode(st) && st.attempts < lim.maxAttempts && !CodeExpired(st, now) && c.bcryptVerify(otp, st.otpHash.value)
    ensures r.1.Ok? ==> r.0 == u.(emailVerified := true, emailVerifiedAt := Some(now),
                                  emailVerification := OtpState(None, None, 0, PurgeHistory(u.emailVerification.sentHistory, now)))
    ensures r.1.Err? && r.1.error == Http(400, INVALID_OTP) ==>
      r.0 == u.(emailVerification := u.emailVerification.(attempts := u.emailVerification.attempts + 1))
    ensures r.1.Err? && r.1.error != Http(400, INVALID_OTP) ==> r.0 == u
  {
    var st := u.emailVerification;
    if !HasCode(st) then (u, Fail(400, NO_REQUEST))
    else if st.attempts >= lim.maxAttempts then (u, Fail(429, TOO_MANY_ATTEMPTS))
    else if CodeExpired(st, now) then (u, Fail(400, OTP_EXPIRED))
    else if !c.bcryptVerify(otp, st.otpHash.value) then
      (u.(emailVerification := st.(attempts := st.attempts + 1)), Fail(400, INVALID_OTP))
    else
      (u.(emailVerified := true, emailVerifiedAt := Some(now),
          emailVerification := OtpState(None, None, 0, PurgeHistory(st.sentHistory, now))), Ok(()))
  }

  /** A successful verification leaves a verified user and no outstanding code. */
  lemma VerifiedAfterSuccess(c: Crypto, lim: Limits, u: User, otp: string, now: int, later: int)
    requires VerifyUserOtp(c, lim, u, otp, now).1.Ok?
    ensures VerifyUserOtp(c, lim, u, otp, now).0.emailVerified
    ensures VerifyUserOtp(c, lim, VerifyUserOtp(c, lim, u, otp, now).0, otp, later).1 == Fail(400, NO_REQUEST)
  {
  }

  /** For the same code and salt the send writes exactly what the Python send writes into `emailVerification`. */
  lemma AssignMatchesPython(c: Crypto, lim: Limits, u: User, draw: nat, salt: nat, now: int)
    requires draw < 900000
    ensures AssignOtpToUser(c, lim, u, draw, salt, now) == OtpPy.AssignOtp(c, lim, u, "emailVerification", draw + 100000, salt, now)
  {
  }

  /**
   * The verification outcomes agree with Python's; the bucket ends alike,
   * and only this version also marks the email verified.
   */
  lemma VerifyMatchesPython(c: Crypto, lim: Limits, u: User, otp: string, now: int)
    ensures VerifyUserOtp(c, lim, u, otp, now).1.Ok? == OtpPy.VerifyOtp(c, lim, u, "emailVerification", otp, now).1.Ok?
    ensures VerifyUserOtp(c, lim, u, otp, now).1.Err? ==>
      VerifyUserOtp(c, lim, u, otp, now) == (OtpPy.VerifyOtp(c, lim, u, "emailVerification", otp, now).0,
                                        Err(OtpPy.VerifyOtp(c, lim, u, "emailVerification", otp, now).1.error))
    ensures VerifyUserOtp(c, lim, u, otp, now).0.emailVerification
            == OtpPy.VerifyOtp(c, lim, u, "emailVerification", otp, now).0.emailVerification
  {
  }
}
