/**
 * What the two OTP services share: the limits (by default 10-minute codes,
 * 5 wrong guesses, 3 sends per rolling 24 hours), six-digit codes, the
 * purge of the send history, and the per-user buckets.
 */
module Otp {

  import opened Base
  import opened Text
  import opened Users

  const OTP_LENGTH: nat := 6

  /**
   * The three limits each service reads from the environment when it is
   * loaded: `OTP_EXPIRY_MINUTES`, `OTP_MAX_ATTEMPTS` and `OTP_MAX_PER_DAY`.
   */
  datatype Limits = Limits(expiryMinutes: int, maxAttempts: int, maxPerDay: int)
  {
    /** `timedelta(minutes=...)` / `minutes * 60 * 1000`, in milliseconds. */
    function ExpiryMs(): int
    {
      expiryMinutes * 60 * 1000
    }
  }

  /** The limits when none of the variables is set. */
  const DEFAULT_LIMITS: Limits := Limits(10, 5, 3)

  /** The default texts the services fall back to denote the default limits. */
  lemma DefaultTexts()
    ensures AllDigits("10") && DigitsValue("10") == DEFAULT_LIMITS.expiryMinutes
    ensures AllDigits("5") && DigitsValue("5") == DEFAULT_LIMITS.maxAttempts
    ensures AllDigits("3") && DigitsValue("3") == DEFAULT_LIMITS.maxPerDay
  {
    assert "10"[..1] == "1" && "1"[..0] == "" && "5"[..0] == "" && "3"[..0] == "";
  }
  const DAY_MS: int := 24 * 60 * 60 * 1000

  const NO_REQUEST: string := "No OTP request found. Please request a new code."
  const TOO_MANY_ATTEMPTS: string := "Maximum OTP attempts exceeded. Request a new code."
  const OTP_EXPIRED: string := "OTP has expired. Request a new code."
  const INVALID_OTP: string := "Invalid OTP. Please try again."
  const LIMIT_REACHED: string := "OTP request limit reached. Try again later."

  /** The two buckets a user carries. */
  datatype Bucket = EmailVerification | PasswordReset
  {
    function Name(): string
    {
      match this
      case EmailVerification => "emailVerification"
      case PasswordReset => "passwordReset"
    }

    function Other(): Bucket
    {
      match this
      case EmailVerification => PasswordReset
      case PasswordReset => EmailVerification
    }
  }

  function GetBucket(u: User, b: Bucket): OtpState
  {
    match b
    case EmailVerification => u.emailVerification
    case PasswordReset => u.passwordReset
  }

  /** Writes one bucket and nothing else of the user. */
  function SetBucket(u: User, b: Bucket, st: OtpState): (r: User)
    ensures GetBucket(r, b) == st
    ensures GetBucket(r, b.Other()) == GetBucket(u, b.Other())
    ensures r.(emailVerification := u.emailVerification, passwordReset := u.passwordReset) == u
  {
    match b
    case EmailVerification => u.(emailVerification := st)
    case PasswordReset => u.(passwordReset := st)
  }

  /** The decimal text of a code drawn from `[10^5, 10^6 - 1]`: always six digits, no leading zero. */
  function CodeText(n: nat): (s: string)
    requires 100000 <= n <= 999999
    ensures |s| == OTP_LENGTH && AllDigits(s) && s[0] != '0'
    ensures DigitsValue(s) == n
  {
    assert Pow10(5) == 100000 && Pow10(6) == 1000000;
    DigitCount(n, OTP_LENGTH);
    NatToString(n)
  }

  /**
   * `_purge_history` / `purgeHistory`: the send times strictly after
   * `now - 24h`, in their original order.
   */
  function PurgeHistory(history: seq<int>, now: int): (r: seq<int>)
    ensures forall t :: t in r <==> t in history && t > now - DAY_MS
    ensures |r| <= |history|
  {
    if |history| == 0 then []
    else
      var rest := PurgeHistory(history[1..], now);
      if history[0] > now - DAY_MS then [history[0]] + rest else rest
  }

  /** Purging keeps the order of what it keeps: it distributes over concatenation. */
  lemma {:induction false} PurgeAppend(a: seq<int>, b: seq<int>, now: int)
    ensures PurgeHistory(a + b, now) == PurgeHistory(a, now) + PurgeHistory(b, now)
  {
    if |a| > 0 {
      assert (a + b)[1..] == a[1..] + b;
      PurgeAppend(a[1..], b, now);
    } else {
      assert a + b == b;
    }
  }

  /** Purging at a later time removes at least what an earlier purge removed. */
  lemma {:induction false} PurgeLater(history: seq<int>, t1: int, t2: int)
    requires t1 <= t2
    ensures PurgeHistory(PurgeHistory(history, t1), t2) == PurgeHistory(history, t2)
  {
    if |history| > 0 {
      PurgeLater(history[1..], t1, t2);
      if history[0] > t1 - DAY_MS {
        assert ([history[0]] + PurgeHistory(history[1..], t1))[1..] == PurgeHistory(history[1..], t1);
      }
    }
  }

  /** A send recorded at `now` is kept by the purge at `now`. */
  lemma PurgeRecordsNow(history: seq<int>, now: int)
    ensures PurgeHistory(history + [now], now) == PurgeHistory(history, now) + [now]
  {
    PurgeAppend(history, [now], now);
    assert PurgeHistory([now], now) == [now];
  }

  /**
   * The rolling cap: at most `maxPerDay` sends in the 24 hours up to
   * `now`.
   */
  predicate WithinCap(lim: Limits, st: OtpState, now: int)
  {
    |PurgeHistory(st.sentHistory, now)| <= lim.maxPerDay
  }

  /** The cap, once met, stays met as time passes. */
  lemma WithinCapLater(lim: Limits, st: OtpState, t1: int, t2: int)
    requires t1 <= t2 && WithinCap(lim, st, t1)
    ensures WithinCap(lim, st, t2)
  {
    PurgeLater(st.sentHistory, t1, t2);
  }

  /** `not bucket.otpHash` / `!otpHash`: no code outstanding (an empty hash counts as none). */
  predicate HasCode(st: OtpState)
  {
    st.otpHash.Some? && st.otpHash.value != ""
  }

  /** No expiry, or one strictly before `now`. */
  predicate CodeExpired(st: OtpState, now: int)
  {
    st.otpExpiresAt.None? || st.otpExpiresAt.value < now
  }

  /** What a successful send hands back to the caller (the plaintext goes out by mail). */
  datatype Sent = Sent(otp: string, expiresAt: int)
}
