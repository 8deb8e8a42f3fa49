/**
 * The older JavaScript session service. It writes the same tokens and
 * documents as the Python one; it differs in the kind of error a missing
 * secret or a malformed id raises (a plain `Error`, answered 500), in reading
 * signatures with Node's lenient hex decoder, in checking expiry before
 * revocation when rotating, and in swallowing every error when revoking by
 * refresh token.
 */
module SessionJs {

  import opened Base
  import opened Text
  import opened Hex
  import opened Crypto
  import opened Ids
  import opened Users
  import opened Sessions

  const CAST_ERROR: string := "Cast to ObjectId failed"

  /** `ensureSecret`: a plain `Error` without status when unset or empty. */
  function EnsureSecret(env: Env, name: string): (r: Result<string>)
    ensures r.Ok? <==> Configured(env, name)
    ensures r.Ok? ==> r.value == env[name]
    ensures r.Err? ==> r.error == Crash(name + " is not configured")
  {
    if Configured(env, name) then Ok(env[name]) else Err(Crash(name + " is not configured"))
  }

  /** Mongoose casting a query id: text that is not an object id throws a `CastError` (no status). */
  function CastId(s: string): (r: Result<Id>)
    ensures r.Ok? <==> ParseObjectId(s).Some?
    ensures r.Ok? ==> r.value == ParseObjectId(s).value
    ensures r.Err? ==> r.error == Crash(CAST_ERROR)
  {
    match ParseObjectId(s)
    case Some(id) => Ok(id)
    case None => Err(Crash(CAST_ERROR))
  }

  /** `generateRefreshToken` with the 64 bytes `randomBytes(64)` draws. */
  function GenerateRefreshToken(c: Crypto, env: Env, randomBytes: seq<Byte>): (r: Result<string>)
    requires |randomBytes| == 64
    ensures r.Ok? <==> Configured(env, REFRESH_SECRET)
    ensures r.Err? ==> r.error == Crash(REFRESH_SECRET + " is not configured")
    ensures r.Ok? ==>
      Split(r.value, '.') == [HexEncode(randomBytes), HmacHex(c, env[REFRESH_SECRET], HexEncode(randomBytes))]
  {
    match EnsureSecret(env, REFRESH_SECRET)
    case Err(e) => Err(e)
    case Ok(secret) => Ok(SignedToken(c, secret, HexEncode(randomBytes)))
  }

  /**
   * `extractRefreshComponents(candidate)`: `String(candidate || '')` must
   * split into exactly two parts, else 401; then the secret; then both the
   * presented and the expected signature are read with `Buffer.from(·, 'hex')`
   * and must agree in length and bytes, else 401. Returns the random part.
   */
  function ExtractRefreshComponents(c: Crypto, env: Env, candidate: Option<string>): (r: Result<string>)
    ensures var parts := Split(candidate.GetOr(""), '.');
      r.Ok? <==> |parts| == 2 && Configured(env, REFRESH_SECRET) &&
                 NodeFromHex(parts[1]) == c.hmacSha256(env[REFRESH_SECRET], parts[0])
    ensures r.Ok? ==> r.value == Split(candidate.GetOr(""), '.')[0]
    ensures r.Err? ==>
      r.error == Http(401, INVALID_REFRESH) || r.error == Crash(REFRESH_SECRET + " is not configured")
    ensures |Split(candidate.GetOr(""), '.')| != 2 ==> r == Fail(401, INVALID_REFRESH)
  {
    var parts := Split(candidate.GetOr(""), '.');
    if |parts| != 2 then Fail(401, INVALID_REFRESH)
    else
      match EnsureSecret(env, REFRESH_SECRET)
      case Err(e) => Err(e)
      case Ok(secret) =>
        var expected := HmacHex(c, secret, parts[0]);
        var providedBuffer := NodeFromHex(parts[1]);
        var expectedBuffer := NodeFromHex(expected);
        NodeFromHexEncode(c.hmacSha256(secret, parts[0]));
        if |providedBuffer| != |expectedBuffer| || providedBuffer != expectedBuffer then Fail(401, INVALID_REFRESH)
        else Ok(parts[0])
  }

  /** Round trip: extracting from a freshly generated token gives back its random part. */
  lemma ExtractGenerated(c: Crypto, env: Env, randomBytes: seq<Byte>)
    requires |randomBytes| == 64
    requires GenerateRefreshToken(c, env, randomBytes).Ok?
    ensures ExtractRefreshComponents(c, env, Some(GenerateRefreshToken(c, env, randomBytes).value))
            == Ok(HexEncode(randomBytes))
  {
    var d := c.hmacSha256(env[REFRESH_SECRET], HexEncode(randomBytes));
    NodeFromHexEncode(d);
  }

  /** No token at all is the same 401 as a malformed one. */
  lemma ExtractMissing(c: Crypto, env: Env)
    ensures ExtractRefreshComponents(c, env, None) == Fail(401, INVALID_REFRESH)
  {
    assert Split("", '.') == [""];
  }

  /**
   * Node's hex reader stops at the first pair that is not hex, so anything
   * appended to a genuine signature from such a pair on is ignored.
   */
  lemma ExtractIgnoresTrailingJunk(c: Crypto, env: Env, random: string, junk: string)
    requires '.' !in random && '.' !in junk
    requires Configured(env, REFRESH_SECRET)
    requires |junk| < 2 || HexDigitValue(junk[0]).None? || HexDigitValue(junk[1]).None?
    ensures ExtractRefreshComponents(c, env, Some(random + "." + (HmacHex(c, env[REFRESH_SECRET], random) + junk)))
            == Ok(random)
  {
    var d := c.hmacSha256(env[REFRESH_SECRET], random);
    var sig := HmacHex(c, env[REFRESH_SECRET], random) + junk;
    assert '.' !in sig;
    SplitPair(random, sig, '.');
    NodeFromHexTrailing(d, junk);
  }

  /** A signature that does not start with a hex pair reads as no bytes: a 401, not a crash. */
  lemma ExtractNonHexRejected(c: Crypto, env: Env, random: string, signature: string)
    requires '.' !in random && '.' !in signature
    requires Configured(env, REFRESH_SECRET)
    requires |signature| < 2 || HexDigitValue(signature[0]).None?
    ensures ExtractRefreshComponents(c, env, Some(random + "." + signature)) == Fail(401, INVALID_REFRESH)
  {
    SplitPair(random, signature, '.');
    assert NodeFromHex(signature) == [];
  }

  /**
   * `signAccessToken`: `iat` is the current second, rounded down, and `exp`
   * adds the access lifetime rounded down to whole seconds; the reported
   * expiry is `exp` in milliseconds.
   */
  function SignAccessToken(c: Crypto, cfg: Config, userId: Id, role: Role, sid: Id, now: nat): (r: Result<AccessToken>)
    ensures r.Ok? <==> Configured(cfg.env, ACCESS_SECRET)
    ensures r.Err? ==> r.error == Crash(ACCESS_SECRET + " is not configured")
    ensures r.Ok? ==> r.value.claims.sub == userId && r.value.claims.sid == sid && r.value.claims.role == role.Name()
    ensures r.Ok? ==> r.value.expiresAt == r.value.claims.exp * 1000
    ensures r.Ok? ==> r.value.token == c.jwtEncode(r.value.claims, cfg.env[ACCESS_SECRET])
  {
    match EnsureSecret(cfg.env, ACCESS_SECRET)
    case Err(e) => Err(e)
    case Ok(secret) =>
      var issuedAt := now / 1000;
      var expiresAtSeconds := issuedAt + cfg.accessMs / 1000;
      var claims := Claims(userId, sid, role.Name(), issuedAt, expiresAtSeconds);
      Ok(AccessToken(c.jwtEncode(claims, secret), claims, expiresAtSeconds * 1000))
  }

  /**
   * Both roundings go down, so the reported access expiry is at most
   * `now + lifetime` and less than two seconds short of it.
   */
  lemma SignAccessTokenRoundsDown(c: Crypto, cfg: Config, userId: Id, role: Role, sid: Id, now: nat)
    requires SignAccessToken(c, cfg, userId, role, sid, now).Ok?
    ensures var t := SignAccessToken(c, cfg, userId, role, sid, now).value;
      t.claims.iat * 1000 <= now < t.claims.iat * 1000 + 1000 &&
      t.expiresAt <= now + cfg.accessMs < t.expiresAt + 2000
  {
  }

  /** `verifyAccessToken`: missing secret or any `jwt.verify` failure throws without a status. */
  function VerifyAccessToken(c: Crypto, env: Env, token: string, nowSeconds: int): (r: Result<Claims>)
    ensures r.Ok? <==> Configured(env, ACCESS_SECRET) && c.jwtDecode(token, env[ACCESS_SECRET], nowSeconds).Some?
    ensures r.Ok? ==> Some(r.value) == c.jwtDecode(token, env[ACCESS_SECRET], nowSeconds)
    ensures r.Err? ==> r.error.Crash?
  {
    match EnsureSecret(env, ACCESS_SECRET)
    case Err(e) => Err(e)
    case Ok(secret) =>
      match c.jwtDecode(token, secret, nowSeconds)
      case None => Err(Crash("jwt verification failed"))
      case Some(claims) => Ok(claims)
  }

  /** A fresh refresh token and the random part read back from it. */
  function NewRefreshToken(c: Crypto, env: Env, randomBytes: seq<Byte>): (r: Result<(string, string)>)
    requires |randomBytes| == 64
    ensures r.Ok? <==> Configured(env, REFRESH_SECRET)
    ensures r.Err? ==> r.error == Crash(REFRESH_SECRET + " is not configured")
    ensures r.Ok? ==> r.value.1 == HexEncode(randomBytes)
    ensures r.Ok? ==> ExtractRefreshComponents(c, env, Some(r.value.0)) == Ok(r.value.1)
  {
    match GenerateRefreshToken(c, env, randomBytes)
    case Err(e) => Err(e)
    case Ok(token) =>
      ExtractGenerated(c, env, randomBytes);
      match ExtractRefreshComponents(c, env, Some(token))
      case Err(e) => Err(e)
      case Ok(random) => Ok((token, random))
  }

  /**
   * `createSession`: `Session.create` with the hash of the random part and
   * expiry `now + refresh lifetime`, then the access token; a missing access
   * secret throws after the document exists.
   */
  function CreateSession(c: Crypto, cfg: Config, ss: Sessions, userId: Id, role: Role, sid: Id,
                         randomBytes: seq<Byte>, now: nat, userAgent: Option<string>, ipAddress: Option<string>)
    : (r: (Sessions, Result<Issued>))
    requires |randomBytes| == 64
    requires sid !in ss
    ensures r.1.Ok? ==> r.0 == ss[sid := Session(userId, HashToken(c, HexEncode(randomBytes)), now + cfg.refreshMs, None, userAgent, ipAddress)]
    ensures r.1.Ok? ==> ExtractRefreshComponents(c, cfg.env, Some(r.1.value.refreshToken)) == Ok(HexEncode(randomBytes))
    ensures r.1.Ok? ==> r.1.value.sessionId == sid && r.1.value.refreshExpiresAt == now + cfg.refreshMs
    ensures r.1.Err? && Configured(cfg.env, ACCESS_SECRET) ==> r.0 == ss
    ensures UniqueHashes(ss) ==> UniqueHashes(r.0)
  {
    match NewRefreshToken(c, cfg.env, randomBytes)
    case Err(e) => (ss, Err(e))
    case Ok((token, random)) =>
      StoreAndSign(c, cfg, ss, sid, Session(userId, HashToken(c, random), now + cfg.refreshMs, None, userAgent, ipAddress),
                   role, token, now)
  }

  /** The second half of `createSession`: create the document, then sign the access token. */
  function StoreAndSign(c: Crypto, cfg: Config, ss: Sessions, sid: Id, session: Session, role: Role, token: string, now: nat)
    : (r: (Sessions, Result<Issued>))
    requires sid !in ss
    ensures r.1.Ok? ==> r.0 == ss[sid := session]
    ensures r.1.Ok? ==> r.1.value == Issued(sid, session.user, token, session.expiresAt, r.1.value.access)
    ensures r.1.Err? && Configured(cfg.env, ACCESS_SECRET) ==> r.0 == ss
    ensures UniqueHashes(ss) ==> UniqueHashes(r.0)
  {
    match Insert(ss, sid, session)
    case Err(e) => (ss, Err(e))
    case Ok(ss1) =>
      match SignAccessToken(c, cfg, session.user, role, sid, now)
      case Err(e) => (ss1, Err(e))
      case Ok(access) => (ss1, Ok(Issued(sid, session.user, token, session.expiresAt, access)))
  }

  /**
   * `validateSession(sessionId, userId)`: ids that do not cast throw; then
   * not found (also another user's session), revoked, expired, all 401.
   */
  function ValidateSession(ss: Sessions, sessionId: string, userId: string, now: int): (r: Result<Session>)
    ensures ParseObjectId(sessionId).None? || ParseObjectId(userId).None? ==> r == Err(Crash(CAST_ERROR))
    ensures r.Ok? <==>
      ParseObjectId(sessionId).Some? && ParseObjectId(userId).Some? &&
      ParseObjectId(sessionId).value in ss &&
      ss[ParseObjectId(sessionId).value].user == ParseObjectId(userId).value &&
      Live(ss[ParseObjectId(sessionId).value], now)
    ensures r.Ok? ==> r.value == ss[ParseObjectId(sessionId).value]
  {
    match CastId(sessionId)
    case Err(e) => Err(e)
    case Ok(sid) =>
      match CastId(userId)
      case Err(e) => Err(e)
      case Ok(uid) =>
        if sid !in ss || ss[sid].user != uid then Fail(401, NOT_FOUND)
        else if ss[sid].revokedAt.Some? then Fail(401, REVOKED)
        else if ss[sid].expiresAt < now then Fail(401, EXPIRED)
        else Ok(ss[sid])
  }

  /**
   * The checks of `rotateSession`, in order: the refresh secret, the token,
   * an unknown hash, then expiry BEFORE revocation, then a missing or
   * inactive owner. Yields the session to rotate.
   */
  function RotateLookup(c: Crypto, cfg: Config, ss: Sessions, users: Users, token: Option<string>, now: int): (r: Result<Id>)
    requires UniqueHashes(ss)
    ensures !Configured(cfg.env, REFRESH_SECRET) ==> r == Err(Crash(REFRESH_SECRET + " is not configured"))
    ensures r.Ok? ==>
      var random := ExtractRefreshComponents(c, cfg.env, token);
      random.Ok? && r.value in ss && ss[r.value].refreshTokenHash == HashToken(c, random.value) &&
      Live(ss[r.value], now) && ss[r.value].user in users && users[ss[r.value].user].isActive
    ensures ExtractRefreshComponents(c, cfg.env, token).Ok? &&
            !HashInUse(ss, HashToken(c, ExtractRefreshComponents(c, cfg.env, token).value))
            ==> r == Fail(401, INVALID_REFRESH)
  {
    match EnsureSecret(cfg.env, REFRESH_SECRET)
    case Err(e) => Err(e)
    case Ok(_) =>
      match ExtractRefreshComponents(c, cfg.env, token)
      case Err(e) => Err(e)
      case Ok(random) =>
        match FindByHash(ss, HashToken(c, random))
        case None => Fail(401, INVALID_REFRESH)
        case Some(sid) =>
          var s := ss[sid];
          if s.expiresAt < now then Fail(401, EXPIRED)
          else if s.revokedAt.Some? then Fail(401, REVOKED)
          else if s.user !in users || !users[s.user].isActive then Fail(401, UNAVAILABLE)
          else Ok(sid)
  }

  /** The writes of `rotateSession` given the new token: renew the document, save, then sign. */
  function RotateCommit(c: Crypto, cfg: Config, ss: Sessions, users: Users, sid: Id, next: string, nextRandom: string,
                        userAgent: Option<string>, ipAddress: Option<string>, now: nat)
    : (r: (Sessions, Result<Issued>))
    requires UniqueHashes(ss)
    requires sid in ss && ss[sid].user in users
    ensures UniqueHashes(r.0)
    ensures r.1.Err? && Configured(cfg.env, ACCESS_SECRET) ==> r.0 == ss
    ensures r.1.Ok? ==>
      r.0 == ss[sid := Renewed(ss[sid], HashToken(c, nextRandom), now + cfg.refreshMs, userAgent, ipAddress)]
    ensures r.1.Ok? ==> r.1.value.sessionId == sid && r.1.value.userId == ss[sid].user && r.1.value.refreshToken == next
    ensures r.1.Ok? ==> sid in r.0 && r.0[sid].refreshTokenHash == HashToken(c, nextRandom) && OnlyChanged(ss, r.0, sid)
  {
    var s := ss[sid];
    var s1 := Renewed(s, HashToken(c, nextRandom), now + cfg.refreshMs, userAgent, ipAddress);
    match Save(ss, sid, s1)
    case Err(e) => (ss, Err(e))
    case Ok(ss1) =>
      match SignAccessToken(c, cfg, s.user, users[s.user].role, sid, now)
      case Err(e) => (ss1, Err(e))
      case Ok(access) => (ss1, Ok(Issued(sid, s.user, next, s1.expiresAt, access)))
  }

  /** The part of `rotateSession` after the checks: a new token for session `sid`, then the writes. */
  function RotateFresh(c: Crypto, cfg: Config, ss: Sessions, users: Users, sid: Id,
                       userAgent: Option<string>, ipAddress: Option<string>, randomBytes: seq<Byte>, now: nat)
    : (r: (Sessions, Result<Issued>))
    requires UniqueHashes(ss)
    requires |randomBytes| == 64
    requires sid in ss && ss[sid].user in users
    ensures UniqueHashes(r.0)
    ensures r.1.Ok? ==> r.1.value.sessionId == sid
    ensures r.1.Ok? ==> sid in r.0 && r.0[sid].refreshTokenHash == HashToken(c, HexEncode(randomBytes))
    ensures r.1.Ok? ==> OnlyChanged(ss, r.0, sid)
    ensures r.1.Ok? ==> ExtractRefreshComponents(c, cfg.env, Some(r.1.value.refreshToken)) == Ok(HexEncode(randomBytes))
  {
    match NewRefreshToken(c, cfg.env, randomBytes)
    case Err(e) => (ss, Err(e))
    case Ok((next, nextRandom)) => RotateCommit(c, cfg, ss, users, sid, next, nextRandom, userAgent, ipAddress, now)
  }

  /** `rotateSession`: the checks, then a new token and the writes. Every failing check leaves the store as it was. */
  function RotateSession(c: Crypto, cfg: Config, ss: Sessions, users: Users, token: Option<string>,
                         userAgent: Option<string>, ipAddress: Option<string>, randomBytes: seq<Byte>, now: nat)
    : (r: (Sessions, Result<Issued>))
    requires UniqueHashes(ss)
    requires |randomBytes| == 64
    ensures UniqueHashes(r.0)
    ensures RotateLookup(c, cfg, ss, users, token, now).Err? ==>
      r == (ss, Err(RotateLookup(c, cfg, ss, users, token, now).error))
    ensures r.1.Ok? ==> RotateLookup(c, cfg, ss, users, token, now) == Ok(r.1.value.sessionId)
    ensures r.1.Ok? ==> r.1.value.sessionId in r.0 && r.0[r.1.value.sessionId].refreshTokenHash == HashToken(c, HexEncode(randomBytes))
    ensures r.1.Ok? ==> OnlyChanged(ss, r.0, r.1.value.sessionId)
    ensures r.1.Ok? ==> ExtractRefreshComponents(c, cfg.env, Some(r.1.value.refreshToken)) == Ok(HexEncode(randomBytes))
  {
    match RotateLookup(c, cfg, ss, users, token, now)
    case Err(e) => (ss, Err(e))
    case Ok(sid) => RotateFresh(c, cfg, ss, users, sid, userAgent, ipAddress, randomBytes, now)
  }

  /** A session that is both revoked and expired is reported as expired. */
  lemma RotateExpiredBeforeRevoked(c: Crypto, cfg: Config, ss: Sessions, users: Users, token: Option<string>,
                                   ua: Option<string>, ip: Option<string>, rb: seq<Byte>, now: nat, sid: Id)
    requires UniqueHashes(ss) && |rb| == 64
    requires ExtractRefreshComponents(c, cfg.env, token).Ok?
    requires sid in ss && ss[sid].refreshTokenHash == HashToken(c, ExtractRefreshComponents(c, cfg.env, token).value)
    requires ss[sid].revokedAt.Some? && ss[sid].expiresAt < now
    ensures RotateSession(c, cfg, ss, users, token, ua, ip, rb, now) == (ss, Fail(401, EXPIRED))
  {
  }

  /**
   * Rotation is single-use here too: presenting the old token again fails
   * with "Invalid refresh token", provided the new random part does not
   * hash to the old one.
   */
  lemma RotateSingleUse(c: Crypto, cfg: Config, ss: Sessions, users: Users, token: Option<string>,
                        ua: Option<string>, ip: Option<string>, rb1: seq<Byte>, rb2: seq<Byte>, now1: nat, now2: nat)
    requires UniqueHashes(ss) && |rb1| == 64 && |rb2| == 64
    requires RotateSession(c, cfg, ss, users, token, ua, ip, rb1, now1).1.Ok?
    requires c.sha256(HexEncode(rb1)) != c.sha256(ExtractRefreshComponents(c, cfg.env, token).value)
    ensures var ss1 := RotateSession(c, cfg, ss, users, token, ua, ip, rb1, now1).0;
      RotateSession(c, cfg, ss1, users, token, ua, ip, rb2, now2).1 == Fail(401, INVALID_REFRESH)
  {
    RotateDropsOldHash(c, cfg, ss, users, token, ua, ip, rb1, now1);
    RotateUnknownHash(c, cfg, RotateSession(c, cfg, ss, users, token, ua, ip, rb1, now1).0, users, token, ua, ip, rb2, now2);
  }

  /** A well-signed token whose hash no session carries is refused as "Invalid refresh token". */
  lemma RotateUnknownHash(c: Crypto, cfg: Config, ss: Sessions, users: Users, token: Option<string>,
                          ua: Option<string>, ip: Option<string>, rb: seq<Byte>, now: nat)
    requires UniqueHashes(ss) && |rb| == 64
    requires ExtractRefreshComponents(c, cfg.env, token).Ok?
    requires !HashInUse(ss, HashToken(c, ExtractRefreshComponents(c, cfg.env, token).value))
    ensures RotateSession(c, cfg, ss, users, token, ua, ip, rb, now) == (ss, Fail(401, INVALID_REFRESH))
  {
  }

  /** After a rotation no session carries the hash of the presented token any more. */
  lemma RotateDropsOldHash(c: Crypto, cfg: Config, ss: Sessions, users: Users, token: Option<string>,
                           ua: Option<string>, ip: Option<string>, rb: seq<Byte>, now: nat)
    requires UniqueHashes(ss) && |rb| == 64
    requires RotateSession(c, cfg, ss, users, token, ua, ip, rb, now).1.Ok?
    requires c.sha256(HexEncode(rb)) != c.sha256(ExtractRefreshComponents(c, cfg.env, token).value)
    ensures !HashInUse(RotateSession(c, cfg, ss, users, token, ua, ip, rb, now).0,
                       HashToken(c, ExtractRefreshComponents(c, cfg.env, token).value))
  {
    var r := RotateSession(c, cfg, ss, users, token, ua, ip, rb, now);
    var random := ExtractRefreshComponents(c, cfg.env, token).value;
    HexEncodeInjective(c.sha256(HexEncode(rb)), c.sha256(random));
    ReplaceDropsHash(ss, r.0, r.1.value.sessionId, HashToken(c, random));
  }

  /** `revokeSession`: `updateOne` on the id; a bad id throws, and a stamp already there is overwritten. */
  function RevokeSession(ss: Sessions, sessionId: string, now: int): (r: Result<Sessions>)
    ensures r.Ok? <==> ParseObjectId(sessionId).Some?
    ensures r.Err? ==> r.error == Crash(CAST_ERROR)
    ensures r.Ok? ==> OnlyChanged(ss, r.value, ParseObjectId(sessionId).value)
    ensures r.Ok? && ParseObjectId(sessionId).value in ss ==>
      r.value[ParseObjectId(sessionId).value] == ss[ParseObjectId(sessionId).value].(revokedAt := Some(now))
  {
    match CastId(sessionId)
    case Err(e) => Err(e)
    case Ok(sid) =>
      if sid in ss then Ok(ss[sid := ss[sid].(revokedAt := Some(now))]) else Ok(ss)
  }

  /**
   * `revokeByRefreshToken`: every error, including a missing secret, is
   * caught, so it never fails; a valid token stamps the one session with its
   * hash (`updateOne`; the unique index allows at most one).
   */
  function RevokeByRefreshToken(c: Crypto, env: Env, ss: Sessions, token: Option<string>, now: int): (r: Sessions)
    ensures ExtractRefreshComponents(c, env, token).Err? ==> r == ss
    ensures ExtractRefreshComponents(c, env, token).Ok? ==>
      r == RevokeHash(ss, HashToken(c, ExtractRefreshComponents(c, env, token).value), now)
    ensures UniqueHashes(ss) ==> UniqueHashes(r)
  {
    match ExtractRefreshComponents(c, env, token)
    case Err(_) => ss
    case Ok(random) =>
      RevokeHashKeepsUnique(ss, HashToken(c, random), now);
      RevokeHash(ss, HashToken(c, random), now)
  }

  /** `revokeAllUserSessions`: `updateMany` over the user's sessions whose `revokedAt` is null. */
  function RevokeAllUserSessions(ss: Sessions, userId: string, now: int): (r: Result<Sessions>)
    ensures r.Ok? <==> ParseObjectId(userId).Some?
    ensures r.Err? ==> r.error == Crash(CAST_ERROR)
    ensures r.Ok? ==> r.value == RevokeOpenOfUser(ss, ParseObjectId(userId).value, now)
  {
    match CastId(userId)
    case Err(e) => Err(e)
    case Ok(uid) => Ok(RevokeOpenOfUser(ss, uid, now))
  }
  /** A revoked session no longer validates for its owner, whatever the time. */
  lemma RevokedSessionRejected(ss: Sessions, sid: Id, now: int, t: int)
    requires IsCanonicalId(sid) && sid in ss && IsCanonicalId(ss[sid].user)
    ensures RevokeSession(ss, sid, now).Ok?
    ensures ValidateSession(RevokeSession(ss, sid, now).value, sid, ss[sid].user, t) == Fail(401, REVOKED)
  {
    ParseCanonical(sid);
    ParseCanonical(ss[sid].user);
  }

  /** After revoking all of a user's sessions none of them validates. */
  lemma RevokedUserRejected(ss: Sessions, uid: Id, sid: Id, now: int, t: int)
    requires IsCanonicalId(uid) && IsCanonicalId(sid) && sid in ss && ss[sid].user == uid
    ensures RevokeAllUserSessions(ss, uid, now).Ok?
    ensures ValidateSession(RevokeAllUserSessions(ss, uid, now).value, sid, uid, t) == Fail(401, REVOKED)
  {
    ParseCanonical(sid);
    ParseCanonical(uid);
  }

  /** After revoking by a token its session can no longer be rotated with it. */
  lemma RevokedTokenCannotRotate(c: Crypto, cfg: Config, ss: Sessions, users: Users, token: Option<string>,
                                 ua: Option<string>, ip: Option<string>, rb: seq<Byte>, now: int, later: nat)
    requires UniqueHashes(ss) && |rb| == 64
    requires ExtractRefreshComponents(c, cfg.env, token).Ok?
    requires HashInUse(ss, HashToken(c, ExtractRefreshComponents(c, cfg.env, token).value))
    ensures RotateSession(c, cfg, RevokeByRefreshToken(c, cfg.env, ss, token, now), users, token, ua, ip, rb, later).1
            in {Fail(401, REVOKED), Fail(401, EXPIRED)}
  {
    RevokeHashKeepsUnique(ss, HashToken(c, ExtractRefreshComponents(c, cfg.env, token).value), now);
  }
}
