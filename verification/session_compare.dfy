/**
 * Where the two session services agree and where they part ways, stated
 * on the same inputs.
 */
module SessionCompare {

  import opened Base
  import opened Text
  import opened Hex
  import opened Crypto
  import opened Ids
  import opened Users
  import opened Sessions
  import SessionPy
  import SessionJs

  /** With the secret configured both services write the very same refresh token. */
  lemma SameRefreshToken(c: Crypto, env: Env, randomBytes: seq<Byte>)
    requires |randomBytes| == 64
    requires Configured(env, REFRESH_SECRET)
    ensures SessionPy.GenerateRefreshToken(c, env, randomBytes) == SessionJs.GenerateRefreshToken(c, env, randomBytes)
  {
  }

  /**
   * A genuine signature followed by junk that starts with a non-hex pair:
   * Node's reader ignores the junk and accepts the token, Python's raises a
   * `ValueError`.
   */
  lemma TrailingJunkDiverges(c: Crypto, env: Env, random: string, junk: string)
    requires '.' !in random && '.' !in junk
    requires Configured(env, REFRESH_SECRET)
    requires |junk| == 1 || (|junk| >= 2 && HexDigitValue(junk[0]).None?)
    ensures var token := random + "." + (HmacHex(c, env[REFRESH_SECRET], random) + junk);
      SessionJs.ExtractRefreshComponents(c, env, Some(token)) == Ok(random) &&
      SessionPy.ExtractRefreshComponents(c, env, token).Err? &&
      SessionPy.ExtractRefreshComponents(c, env, token).error.Crash?
  {
    var d := c.hmacSha256(env[REFRESH_SECRET], random);
    var sig := HmacHex(c, env[REFRESH_SECRET], random) + junk;
    SessionJs.ExtractIgnoresTrailingJunk(c, env, random, junk);
    PyFromHexAfterEncoding(d, junk);
    assert '.' !in sig;
    SessionPy.ExtractNonHexCrashes(c, env, random, sig);
  }

  /** A signature that does not even start with a hex digit is a 401 in Node and a crash in Python. */
  lemma NonHexSignatureDiverges(c: Crypto, env: Env, random: string, signature: string)
    requires '.' !in random && '.' !in signature
    requires Configured(env, REFRESH_SECRET)
    requires |signature| >= 1 && HexDigitValue(signature[0]).None?
    ensures SessionJs.ExtractRefreshComponents(c, env, Some(random + "." + signature)) == Fail(401, INVALID_REFRESH)
    ensures SessionPy.ExtractRefreshComponents(c, env, random + "." + signature).Err?
    ensures SessionPy.ExtractRefreshComponents(c, env, random + "." + signature).error.Crash?
  {
    SessionJs.ExtractNonHexRejected(c, env, random, signature);
    SessionPy.ExtractNonHexCrashes(c, env, random, signature);
  }

  /**
   * Rotating a token whose session is both revoked and expired: Python
   * reports "Session revoked", Node "Session expired". Neither changes the
   * store.
   */
  lemma RevokedAndExpiredDiverges(c: Crypto, cfg: Config, ss: Sessions, users: Users, randomBytes: seq<Byte>,
                                  ua: Option<string>, ip: Option<string>, rb: seq<Byte>, now: nat, sid: Id)
    requires UniqueHashes(ss) && |randomBytes| == 64 && |rb| == 64
    requires Configured(cfg.env, REFRESH_SECRET)
    requires sid in ss && ss[sid].refreshTokenHash == HashToken(c, HexEncode(randomBytes))
    requires ss[sid].revokedAt.Some? && ss[sid].expiresAt < now
    ensures var token := SessionPy.GenerateRefreshToken(c, cfg.env, randomBytes).value;
      SessionPy.RotateSession(c, cfg, ss, users, token, ua, ip, rb, now) == (ss, Fail(401, REVOKED)) &&
      SessionJs.RotateSession(c, cfg, ss, users, Some(token), ua, ip, rb, now) == (ss, Fail(401, EXPIRED))
  {
    var token := SessionPy.GenerateRefreshToken(c, cfg.env, randomBytes).value;
    SessionPy.ExtractGenerated(c, cfg.env, randomBytes);
    SessionJs.ExtractGenerated(c, cfg.env, randomBytes);
    SessionPy.RotateRevokedBeforeExpired(c, cfg, ss, users, token, ua, ip, rb, now, sid);
    SessionJs.RotateExpiredBeforeRevoked(c, cfg, ss, users, Some(token), ua, ip, rb, now, sid);
  }

  /** On well-formed ids both services validate alike; on a malformed one Python says 401 and Node crashes. */
  lemma ValidateAgreesOnWellFormedIds(ss: Sessions, sessionId: string, userId: string, now: int)
    ensures IsObjectIdText(sessionId) && IsObjectIdText(userId) ==>
      SessionPy.ValidateSession(ss, sessionId, userId, now) == SessionJs.ValidateSession(ss, sessionId, userId, now)
    ensures !(IsObjectIdText(sessionId) && IsObjectIdText(userId)) ==>
      SessionPy.ValidateSession(ss, sessionId, userId, now) == Fail(401, NOT_FOUND) &&
      SessionJs.ValidateSession(ss, sessionId, userId, now) == Err(Crash(SessionJs.CAST_ERROR))
  {
  }
}
