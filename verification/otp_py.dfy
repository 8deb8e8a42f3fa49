/**
 * The Python OTP service. Each user has two independent buckets; every
 * operation names one and touches only that one. `assignOtp` changes the
 * user in memory and leaves saving to its caller; `verifyOtp` saves after a
 * wrong guess and after success.
 */
module OtpPy {

  import opened Base
  import opened Text
  import opened Crypto
  import opened Users
  import opened Otp
  import opened Duration

  /** `_ensure_bucket`: only the two known bucket names, else a 500. */
  function SelectBucket(key: string): (r: Result<Bucket>)
    ensures r.Ok? <==> key == "emailVerification" || key == "passwordReset"
    ensures r.Ok? ==> r.value.Name() == key
    ensures r.Err? ==> r.error == Http(500, "Unsupported OTP bucket: " + key)
  {
    if key == "emailVerification" then Ok(EmailVerification)
    else if key == "passwordReset" then Ok(PasswordReset)
    else Fail(500, "Unsupported OTP bucket: " + key)
  }

  /**
   * The limits as the service reads them at import: `int(os.getenv(name,
   * default))` for each; a value `int` refuses stops the import with a
   * `ValueError`.
   */
  function LoadLimits(env: Env): (r: Result<Limits>)
    ensures r.Ok? <==> PyInt(PyEnvOr(env, "OTP_EXPIRY_MINUTES", "10")).Some? &&
                       PyInt(PyEnvOr(env, "OTP_MAX_ATTEMPTS", "5")).Some? &&
                       PyInt(PyEnvOr(env, "OTP_MAX_PER_DAY", "3")).Some?
    ensures r.Err? ==> r.error.Crash?
  {
    var expiry := PyInt(PyEnvOr(env, "OTP_EXPIRY_MINUTES", "10"));
    var attempts := PyInt(PyEnvOr(env, "OTP_MAX_ATTEMPTS", "5"));
    var perDay := PyInt(PyEnvOr(env, "OTP_MAX_PER_DAY", "3"));
    if expiry.None? || attempts.None? || perDay.None? then Err(Crash("invalid literal for int() with base 10"))
    else Ok(Limits(expiry.value, attempts.value, perDay.value))
  }

  /** With none of the variables set, the limits are the defaults. */
  lemma LoadDefaults(env: Env)
    requires "OTP_EXPIRY_MINUTES" !in env && "OTP_MAX_ATTEMPTS" !in env && "OTP_MAX_PER_DAY" !in env
    ensures LoadLimits(env) == Ok(DEFAULT_LIMITS)
  {
    DefaultTexts();
    PyIntOfDigits("10");
    PyIntOfDigits("5");
    PyIntOfDigits("3");
  }

  /** Each variable set to a decimal numeral is read as that number. */
  lemma LoadPrinted(env: Env, expiry: nat, attempts: nat, perDay: nat)
    requires PyEnvOr(env, "OTP_EXPIRY_MINUTES", "10") == NatToString(expiry)
    requires PyEnvOr(env, "OTP_MAX_ATTEMPTS", "5") == NatToString(attempts)
    requires PyEnvOr(env, "OTP_MAX_PER_DAY", "3") == NatToString(perDay)
    ensures LoadLimits(env) == Ok(Limits(expiry, attempts, perDay))
  {
    PyIntOfDigits(NatToString(expiry));
    PyIntOfDigits(NatToString(attempts));
    PyIntOfDigits(NatToString(perDay));
  }

  /** `_generate_otp` for the value `random.randint(100000, 999999)` returned. */
  function GenerateOtp(draw: nat): (otp: string)
    requires 100000 <= draw <= 999999
    ensures |otp| == 6 && AllDigits(otp) && DigitsValue(otp) == draw
  {
    CodeText(draw)
  }

  /**
   * `assignOtp(user, bucketKey)`: refuse with 429 when `maxPerDay` sends
   * already fall in the last 24 hours; otherwise store the bcrypt hash of a
   * fresh code, expiring after `expiryMinutes`, with the attempts reset and `now` appended
   * to the purged history. Returns the updated user and the plaintext code.
   */
  function AssignOtp(c: Crypto, lim: Limits, u: User, bucketKey: string, draw: nat, salt: nat, now: int): (r: Result<(User, Sent)>)
    requires 100000 <= draw <= 999999
    ensures SelectBucket(bucketKey).Err? ==> r == Err(SelectBucket(bucketKey).error)
    ensures r.Ok? <==> (SelectBucket(bucketKey).Ok? &&
      |PurgeHistory(GetBucket(u, SelectBucket(bucketKey).value).sentHistory, now)| < lim.maxPerDay)
    ensures SelectBucket(bucketKey).Ok? && r.Err? ==> r.error == Http(429, LIMIT_REACHED)
    ensures r.Ok? ==> var b := SelectBucket(bucketKey).value;
      r.value.0 == SetBucket(u, b, OtpState(Some(c.bcryptHash(r.value.1.otp, salt)), Some(now + lim.ExpiryMs()), 0,
                                            PurgeHistory(GetBucket(u, b).sentHistory, now) + [now]))
    ensures r.Ok? ==> r.value.1 == Sent(GenerateOtp(draw), now + lim.ExpiryMs())
  {
    match SelectBucket(bucketKey)
    case Err(e) => Err(e)
    case Ok(b) =>
      var history := PurgeHistory(GetBucket(u, b).sentHistory, now);
      if |history| >= lim.maxPerDay then Fail(429, LIMIT_REACHED)
      else
        var otp := GenerateOtp(draw);
        var expiresAt := now + lim.ExpiryMs();
        Ok((SetBucket(u, b, OtpState(Some(c.bcryptHash(otp, salt)), Some(expiresAt), 0, history + [now])), Sent(otp, expiresAt)))
  }

  /**
   * `verifyOtp(user, bucketKey, otp)`. Checks, in order: the bucket name
   * (500), an outstanding code (400), attempts below `maxAttempts` (429), expiry (400),
   * the code (400, after counting the wrong guess). Success clears the code
   * and the attempts and purges the history. Returns the user as it now
   * stands, which is the one given except after a wrong guess or success.
   */
  function VerifyOtp(c: Crypto, lim: Limits, u: User, bucketKey: string, otp: string, now: int): (r: (User, Result<bool>))
    ensures SelectBucket(bucketKey).Err? ==> r == (u, Err(SelectBucket(bucketKey).error))
    ensures r.1.Ok? <==> (SelectBucket(bucketKey).Ok? &&
      var st := GetBucket(u, SelectBucket(bucketKey).value);
      HasCode(st) && st.attempts < lim.maxAttempts && !CodeExpired(st, now) && c.bcryptVerify(otp, st.otpHash.value))
    ensures r.1.Ok? ==> r.1.value && var b := SelectBucket(bucketKey).value;
      r.0 == SetBucket(u, b, OtpState(None, None, 0, PurgeHistory(GetBucket(u, b).sentHistory, now)))
    ensures r.1.Err? && r.1.error == Http(400, INVALID_OTP) ==> var b := SelectBucket(bucketKey).value;
      r.0 == SetBucket(u, b, GetBucket(u, b).(attempts := GetBucket(u, b).attempts + 1))
    ensures r.1.Err? && r.1.error != Http(400, INVALID_OTP) ==> r.0 == u
  {
    match SelectBucket(bucketKey)
    case Err(e) => (u, Err(e))
    case Ok(b) =>
      var st := GetBucket(u, b);
      if !HasCode(st) then (u, Fail(400, NO_REQUEST))
      else if st.attempts >= lim.maxAttempts then (u, Fail(429, TOO_MANY_ATTEMPTS))
      else if CodeExpired(st, now) then (u, Fail(400, OTP_EXPIRED))
      else if !c.bcryptVerify(otp, st.otpHash.value) then
        (SetBucket(u, b, st.(attempts := st.attempts + 1)), Fail(400, INVALID_OTP))
      else (SetBucket(u, b, OtpState(None, None, 0, PurgeHistory(st.sentHistory, now))), Ok(true))
  }

  /** The order of the checks: an expired code with attempts left is "expired", one without attempts is 429. */
  lemma VerifyOrder(c: Crypto, lim: Limits, u: User, b: Bucket, otp: string, now: int)
    requires HasCode(GetBucket(u, b))
    ensures GetBucket(u, b).attempts >= lim.maxAttempts ==>
      VerifyOtp(c, lim, u, b.Name(), otp, now) == (u, Fail(429, TOO_MANY_ATTEMPTS))
    ensures GetBucket(u, b).attempts < lim.maxAttempts && CodeExpired(GetBucket(u, b), now) ==>
      VerifyOtp(c, lim, u, b.Name(), otp, now) == (u, Fail(400, OTP_EXPIRED))
  {
  }

  /**
   * A freshly sent code verifies, up to and including its expiry instant,
   * provided bcrypt accepts it and at least one attempt is allowed.
   */
  lemma AssignThenVerify(c: Crypto, lim: Limits, u: User, b: Bucket, draw: nat, salt: nat, now: int, t: int)
    requires 100000 <= draw <= 999999
    requires AssignOtp(c, lim, u, b.Name(), draw, salt, now).Ok?
    requires c.bcryptVerify(GenerateOtp(draw), c.bcryptHash(GenerateOtp(draw), salt))
    requires t <= now + lim.ExpiryMs() && lim.maxAttempts > 0
    ensures VerifyOtp(c, lim, AssignOtp(c, lim, u, b.Name(), draw, salt, now).value.0, b.Name(), GenerateOtp(draw), t).1 == Ok(true)
  {
  }

  /** A code is single-use: after a success the same code is refused as "no request". */
  lemma VerifySingleUse(c: Crypto, lim: Limits, u: User, b: Bucket, otp: string, now: int, later: int)
    requires VerifyOtp(c, lim, u, b.Name(), otp, now).1.Ok?
    ensures VerifyOtp(c, lim, VerifyOtp(c, lim, u, b.Name(), otp, now).0, b.Name(), otp, later).1 == Fail(400, NO_REQUEST)
  {
  }

  /**
   * Wrong guesses lock the code: once `maxAttempts` mismatches have been
   * counted, even the right code gets the 429.
   */
  lemma {:induction false} WrongGuessesLock(c: Crypto, lim: Limits, u: User, b: Bucket, guesses: seq<string>, otp: string, now: int)
    requires HasCode(GetBucket(u, b)) && !CodeExpired(GetBucket(u, b), now)
    requires GetBucket(u, b).attempts + |guesses| >= lim.maxAttempts
    requires forall i :: 0 <= i < |guesses| ==> !c.bcryptVerify(guesses[i], GetBucket(u, b).otpHash.value)
    ensures VerifyOtp(c, lim, AfterGuesses(c, lim, u, b, guesses, now), b.Name(), otp, now).1 == Fail(429, TOO_MANY_ATTEMPTS)
    decreases |guesses|
  {
    if |guesses| > 0 {
      var u1 := VerifyOtp(c, lim, u, b.Name(), guesses[0], now).0;
      assert GetBucket(u1, b).otpHash == GetBucket(u, b).otpHash;
      assert GetBucket(u1, b).attempts >= GetBucket(u, b).attempts + 1 || GetBucket(u1, b).attempts >= lim.maxAttempts;
      WrongGuessesLock(c, lim, u1, b, guesses[1..], otp, now);
    }
  }

  /** The user after a series of guesses at time `now`, each saved as `verifyOtp` saves it. */
  function AfterGuesses(c: Crypto, lim: Limits, u: User, b: Bucket, guesses: seq<string>, now: int): (r: User)
    ensures GetBucket(r, b.Other()) == GetBucket(u, b.Other())
    decreases |guesses|
  {
    if |guesses| == 0 then u
    else AfterGuesses(c, lim, VerifyOtp(c, lim, u, b.Name(), guesses[0], now).0, b, guesses[1..], now)
  }

  /**
   * The rolling cap is an invariant of `assignOtp`: if at most `maxPerDay` sends
   * fall in the 24 hours before `now`, the same holds after the call, at
   * `now` and at every later time.
   */
  lemma AssignKeepsCap(c: Crypto, lim: Limits, u: User, b: Bucket, draw: nat, salt: nat, now: int, later: int)
    requires 100000 <= draw <= 999999
    requires WithinCap(lim, GetBucket(u, b), now) && now <= later
    ensures var r := AssignOtp(c, lim, u, b.Name(), draw, salt, now);
      WithinCap(lim, GetBucket(if r.Ok? then r.value.0 else u, b), later)
  {
    var r := AssignOtp(c, lim, u, b.Name(), draw, salt, now);
    if r.Ok? {
      var h := PurgeHistory(GetBucket(u, b).sentHistory, now);
      PurgeRecordsNow(h, now);
      PurgeLater(GetBucket(u, b).sentHistory, now, now);
      WithinCapLater(lim, GetBucket(r.value.0, b), now, later);
    } else {
      WithinCapLater(lim, GetBucket(u, b), now, later);
    }
  }

  /** Sending on one bucket leaves the other exactly as it was, whatever the outcome. */
  lemma BucketsIndependent(c: Crypto, lim: Limits, u: User, b: Bucket, draw: nat, salt: nat, otp: string, now: int)
    requires 100000 <= draw <= 999999
    ensures var r := AssignOtp(c, lim, u, b.Name(), draw, salt, now);
      r.Ok? ==> GetBucket(r.value.0, b.Other()) == GetBucket(u, b.Other())
    ensures GetBucket(VerifyOtp(c, lim, u, b.Name(), otp, now).0, b.Other()) == GetBucket(u, b.Other())
  {
  }
}
