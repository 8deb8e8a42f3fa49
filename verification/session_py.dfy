/**
 * The Python session service: refresh tokens of the form
 * `random.signature`, where `signature` is the hex HMAC-SHA256 of `random`
 * under `JWT_REFRESH_SECRET`; access tokens are HS256 JWTs carrying the
 * user id (`sub`), session id (`sid`) and role.
 */
module SessionPy {

  import opened Base
  import opened Text
  import opened Hex
  import opened Crypto
  import opened Ids
  import opened Users
  import opened Sessions

  /** `_get_secret`: a `SessionError` with status 500 when unset or empty. */
  function GetSecret(env: Env, name: string): (r: Result<string>)
    ensures r.Ok? <==> Configured(env, name)
    ensures r.Ok? ==> r.value == env[name]
    ensures r.Err? ==> r.error == Http(500, name + " is not configured")
  {
    if Configured(env, name) then Ok(env[name]) else Fail(500, name + " is not configured")
  }

  /**
   * `_generate_refresh_token` with the 64 random bytes `token_hex(64)`
   * draws. The token splits at its one dot into the hex of the bytes and
   * the hex HMAC of that text.
   */
  function GenerateRefreshToken(c: Crypto, env: Env, randomBytes: seq<Byte>): (r: Result<string>)
    requires |randomBytes| == 64
    ensures r.Ok? <==> Configured(env, REFRESH_SECRET)
    ensures r.Err? ==> r.error == Http(500, REFRESH_SECRET + " is not configured")
    ensures r.Ok? ==>
      Split(r.value, '.') == [HexEncode(randomBytes), HmacHex(c, env[REFRESH_SECRET], HexEncode(randomBytes))]
  {
    match GetSecret(env, REFRESH_SECRET)
    case Err(e) => Err(e)
    case Ok(secret) => Ok(SignedToken(c, secret, HexEncode(randomBytes)))
  }

  /**
   * `_extract_refresh_components`: exactly two dot-separated parts, or 401;
   * then the secret, or 500; then `bytes.fromhex` of the signature, whose
   * `ValueError` is not caught; then the bytes must equal the HMAC of the
   * random part, or 401. Returns the random part.
   */
  function ExtractRefreshComponents(c: Crypto, env: Env, token: string): (r: Result<string>)
    ensures |Split(token, '.')| != 2 ==> r == Fail(401, INVALID_REFRESH)
    ensures r.Ok? ==> Configured(env, REFRESH_SECRET) && Split(token, '.')[0] == r.value
    ensures r.Err? && r.error.Http? ==> r.error.status == 401 || r.error.status == 500
  {
    var parts := Split(token, '.');
    if |parts| != 2 then Fail(401, INVALID_REFRESH)
    else
      match GetSecret(env, REFRESH_SECRET)
      case Err(e) => Err(e)
      case Ok(secret) =>
        match PyFromHex(parts[1])
        case None => Err(Crash("non-hexadecimal number found in fromhex() arg"))
        case Some(provided) =>
          if provided == c.hmacSha256(secret, parts[0]) then Ok(parts[0]) else Fail(401, INVALID_REFRESH)
  }

  /**
   * Only signed tokens get through: an accepted token is its random part, a
   * dot, and the hex HMAC of the random part in some mix of cases.
   */
  lemma ExtractAcceptsOnlySigned(c: Crypto, env: Env, token: string)
    requires ExtractRefreshComponents(c, env, token).Ok?
    ensures var random := ExtractRefreshComponents(c, env, token).value;
      '.' !in random && |random| < |token| && token == random + "." + token[|random| + 1..] &&
      Lower(token[|random| + 1..]) == HmacHex(c, env[REFRESH_SECRET], random)
  {
    var parts := Split(token, '.');
    assert token == parts[0] + "." + parts[1] by {
      assert Join(parts, '.') == parts[0] + ['.'] + Join(parts[1..], '.');
    }
    PyFromHexCanonical(parts[1]);
    assert token[|parts[0]| + 1..] == parts[1];
  }

  /** Round trip: extracting from a freshly generated token gives back its random part. */
  lemma ExtractGenerated(c: Crypto, env: Env, randomBytes: seq<Byte>)
    requires |randomBytes| == 64
    requires GenerateRefreshToken(c, env, randomBytes).Ok?
    ensures ExtractRefreshComponents(c, env, GenerateRefreshToken(c, env, randomBytes).value)
            == Ok(HexEncode(randomBytes))
  {
    var random := HexEncode(randomBytes);
    var secret := env[REFRESH_SECRET];
    var sig := HmacHex(c, secret, random);
    var token := GenerateRefreshToken(c, env, randomBytes).value;
    assert Split(token, '.') == [random, sig];
  }

  /**
   * A fresh refresh token and the random part read back from it, as
   * `createSession` and `rotateSession` obtain them.
   */
  function NewRefreshToken(c: Crypto, env: Env, randomBytes: seq<Byte>): (r: Result<(string, string)>)
    requires |randomBytes| == 64
    ensures r.Ok? <==> Configured(env, REFRESH_SECRET)
    ensures r.Err? ==> r.error == Http(500, REFRESH_SECRET + " is not configured")
    ensures r.Ok? ==> r.value.1 == HexEncode(randomBytes)
    ensures r.Ok? ==> ExtractRefreshComponents(c, env, r.value.0) == Ok(r.value.1)
  {
    match GenerateRefreshToken(c, env, randomBytes)
    case Err(e) => Err(e)
    case Ok(token) =>
      ExtractGenerated(c, env, randomBytes);
      match ExtractRefreshComponents(c, env, token)
      case Err(e) => Err(e)
      case Ok(random) => Ok((token, random))
  }

  /** A signature that is not hex raises the uncaught `ValueError`, not the 401. */
  lemma ExtractNonHexCrashes(c: Crypto, env: Env, random: string, signature: string)
    requires '.' !in random && '.' !in signature
    requires Configured(env, REFRESH_SECRET)
    requires PyFromHex(signature).None?
    ensures ExtractRefreshComponents(c, env, random + "." + signature).Err?
    ensures ExtractRefreshComponents(c, env, random + "." + signature).error.Crash?
  {
    SplitPair(random, signature, '.');
  }

  /** The signature is compared as bytes, so an upper-case spelling of it is accepted too. */
  lemma ExtractAcceptsUpperCase(c: Crypto, env: Env, random: string)
    requires '.' !in random
    requires Configured(env, REFRESH_SECRET)
    ensures ExtractRefreshComponents(c, env, random + "." + Upper(HmacHex(c, env[REFRESH_SECRET], random)))
            == Ok(random)
  {
    var d := c.hmacSha256(env[REFRESH_SECRET], random);
    var sig := HmacHex(c, env[REFRESH_SECRET], random);
    UpperKeepsHex(d);
    SplitPair(random, Upper(sig), '.');
  }

  /**
   * `_sign_access_token`: `iat` is the current time and `exp` the access
   * expiry, both as whole seconds (`int(datetime.timestamp())`).
   */
  function SignAccessToken(c: Crypto, cfg: Config, userId: Id, role: Role, sid: Id, now: nat): (r: Result<AccessToken>)
    ensures r.Ok? <==> Configured(cfg.env, ACCESS_SECRET)
    ensures r.Ok? ==> r.value.claims.sub == userId && r.value.claims.sid == sid && r.value.claims.role == role.Name()
    ensures r.Ok? ==> r.value.expiresAt == now + cfg.accessMs
    ensures r.Ok? ==> r.value.token == c.jwtEncode(r.value.claims, cfg.env[ACCESS_SECRET])
  {
    match GetSecret(cfg.env, ACCESS_SECRET)
    case Err(e) => Err(e)
    case Ok(secret) =>
      var expiresAt := now + cfg.accessMs;
      var claims := Claims(userId, sid, role.Name(), now / 1000, TruncSeconds(expiresAt));
      Ok(AccessToken(c.jwtEncode(claims, secret), claims, expiresAt))
  }

  /** The claims' times are the current time and the access expiry, truncated to whole seconds. */
  lemma SignAccessTokenTimes(c: Crypto, cfg: Config, userId: Id, role: Role, sid: Id, now: nat)
    requires SignAccessToken(c, cfg, userId, role, sid, now).Ok?
    ensures var claims := SignAccessToken(c, cfg, userId, role, sid, now).value.claims;
      claims.iat * 1000 <= now < claims.iat * 1000 + 1000 &&
      (now + cfg.accessMs >= 0 ==> claims.exp * 1000 <= now + cfg.accessMs < claims.exp * 1000 + 1000)
  {
  }

  /** `int(t.timestamp())` for a time in milliseconds: truncation toward zero. */
  function TruncSeconds(ms: int): (s: int)
  {
    if ms >= 0 then ms / 1000 else -((-ms) / 1000)
  }

  /** Truncation toward zero: the whole seconds at or below a non-negative time, at or above a negative one. */
  lemma TruncSecondsBounds(ms: int)
    ensures ms >= 0 ==> TruncSeconds(ms) * 1000 <= ms < TruncSeconds(ms) * 1000 + 1000
    ensures ms < 0 ==> TruncSeconds(ms) * 1000 - 1000 < ms <= TruncSeconds(ms) * 1000
  {
  }

  /**
   * `verifyAccessToken`: missing secret is 500; any decoding failure
   * (bad signature, expiry) is 401.
   */
  function VerifyAccessToken(c: Crypto, env: Env, token: string, nowSeconds: int): (r: Result<Claims>)
    ensures r.Ok? <==> Configured(env, ACCESS_SECRET) && c.jwtDecode(token, env[ACCESS_SECRET], nowSeconds).Some?
    ensures r.Ok? ==> Some(r.value) == c.jwtDecode(token, env[ACCESS_SECRET], nowSeconds)
    ensures r.Err? && Configured(env, ACCESS_SECRET) ==> r.error == Http(401, "Invalid or expired access token")
  {
    match GetSecret(env, ACCESS_SECRET)
    case Err(e) => Err(e)
    case Ok(secret) =>
      match c.jwtDecode(token, secret, nowSeconds)
      case None => Fail(401, "Invalid or expired access token")
      case Some(claims) => Ok(claims)
  }

  /**
   * `createSession`: generate a token, store only the hash of its random
   * part with expiry `now + refresh lifetime`, then sign an access token.
   * The session is inserted before the access secret is read, so a missing
   * access secret leaves it behind.
   */
  function CreateSession(c: Crypto, cfg: Config, ss: Sessions, userId: Id, role: Role, sid: Id,
                         randomBytes: seq<Byte>, now: nat, userAgent: Option<string>, ipAddress: Option<string>)
    : (r: (Sessions, Result<Issued>))
    requires |randomBytes| == 64
    requires sid !in ss
    ensures r.1.Ok? ==> r.0 == ss[sid := Session(userId, HashToken(c, HexEncode(randomBytes)), now + cfg.refreshMs, None, userAgent, ipAddress)]
    ensures r.1.Ok? ==> ExtractRefreshComponents(c, cfg.env, r.1.value.refreshToken) == Ok(HexEncode(randomBytes))
    ensures r.1.Ok? ==> r.1.value.sessionId == sid && r.1.value.refreshExpiresAt == now + cfg.refreshMs
    ensures r.1.Ok? ==> r.1.value.access.claims.sub == userId && r.1.value.access.claims.sid == sid
    ensures r.1.Err? && Configured(cfg.env, ACCESS_SECRET) ==> r.0 == ss
    ensures UniqueHashes(ss) ==> UniqueHashes(r.0)
  {
    match NewRefreshToken(c, cfg.env, randomBytes)
    case Err(e) => (ss, Err(e))
    case Ok((token, random)) =>
      StoreAndSign(c, cfg, ss, sid, Session(userId, HashToken(c, random), now + cfg.refreshMs, None, userAgent, ipAddress),
                   role, token, now)
  }

  /** The second half of `createSession`: insert the session, then sign the access token. */
  function StoreAndSign(c: Crypto, cfg: Config, ss: Sessions, sid: Id, session: Session, role: Role, token: string, now: nat)
    : (r: (Sessions, Result<Issued>))
    requires sid !in ss
    ensures r.1.Ok? ==> r.0 == ss[sid := session]
    ensures r.1.Ok? ==> r.1.value == Issued(sid, session.user, token, session.expiresAt, r.1.value.access)
    ensures r.1.Ok? ==> r.1.value.access.claims.sub == session.user && r.1.value.access.claims.sid == sid
    ensures r.1.Err? && Configured(cfg.env, ACCESS_SECRET) ==> r.0 == ss
    ensures UniqueHashes(ss) ==> UniqueHashes(r.0)
  {
    match Insert(ss, sid, session)
    case Err(e) => (ss, Err(e))
    case Ok(ss1) =>
      match SignAccessToken(c, cfg, session.user, role, sid, now)
      case Err(e) => (ss1, Err(e))
      case Ok(access) => (ss1, Ok(Issued(sid, session.user, token, session.expiresAt, access)))
  }

  /**
   * `validateSession(session_id, user_id)`: ids that are not object ids and
   * sessions of another user are "not found"; then revocation is checked,
   * then expiry. All failures are 401.
   */
  function ValidateSession(ss: Sessions, sessionId: string, userId: string, now: int): (r: Result<Session>)
    ensures r.Ok? <==>
      ParseObjectId(sessionId).Some? && ParseObjectId(userId).Some? &&
      ParseObjectId(sessionId).value in ss &&
      ss[ParseObjectId(sessionId).value].user == ParseObjectId(userId).value &&
      Live(ss[ParseObjectId(sessionId).value], now)
    ensures r.Ok? ==> r.value == ss[ParseObjectId(sessionId).value]
    ensures r.Err? ==> r.error.Http? && r.error.status == 401
  {
    match (ParseObjectId(sessionId), ParseObjectId(userId))
    case (Some(sid), Some(uid)) =>
      if sid !in ss || ss[sid].user != uid then Fail(401, NOT_FOUND)
      else if ss[sid].revokedAt.Some? then Fail(401, REVOKED)
      else if ss[sid].expiresAt < now then Fail(401, EXPIRED)
      else Ok(ss[sid])
    case _ => Fail(401, NOT_FOUND)
  }

  /** Revocation is reported before expiry. */
  lemma ValidateRevokedFirst(ss: Sessions, sid: Id, now: int)
    requires IsCanonicalId(sid) && sid in ss && IsCanonicalId(ss[sid].user)
    requires ss[sid].revokedAt.Some?
    ensures ValidateSession(ss, sid, ss[sid].user, now) == Fail(401, REVOKED)
  {
    ParseCanonical(sid);
    ParseCanonical(ss[sid].user);
  }

  /** A session whose expiry equals `now` is still valid. */
  lemma ValidateAtExpiry(ss: Sessions, sid: Id)
    requires IsCanonicalId(sid) && sid in ss && IsCanonicalId(ss[sid].user)
    requires ss[sid].revokedAt.None?
    ensures ValidateSession(ss, sid, ss[sid].user, ss[sid].expiresAt) == Ok(ss[sid])
  {
    ParseCanonical(sid);
    ParseCanonical(ss[sid].user);
  }

  /** A new session validates for its owner from creation until its refresh expiry. */
  lemma CreatedSessionValidates(c: Crypto, cfg: Config, ss: Sessions, userId: Id, role: Role, sid: Id,
                                randomBytes: seq<Byte>, now: nat, ua: Option<string>, ip: Option<string>, t: int)
    requires |randomBytes| == 64 && sid !in ss
    requires IsCanonicalId(sid) && IsCanonicalId(userId)
    requires CreateSession(c, cfg, ss, userId, role, sid, randomBytes, now, ua, ip).1.Ok?
    requires t <= now + cfg.refreshMs
    ensures ValidateSession(CreateSession(c, cfg, ss, userId, role, sid, randomBytes, now, ua, ip).0, sid, userId, t).Ok?
  {
    ParseCanonical(sid);
    ParseCanonical(userId);
  }

  /**
   * The checks of `rotateSession`, in order: the token itself, an unknown
   * hash ("Invalid refresh token"), revoked, expired, then a missing or
   * inactive owner. Yields the session to rotate.
   */
  function RotateLookup(c: Crypto, cfg: Config, ss: Sessions, users: Users, token: string, now: int): (r: Result<Id>)
    requires UniqueHashes(ss)
    ensures r.Ok? ==>
      var random := ExtractRefreshComponents(c, cfg.env, token);
      random.Ok? && r.value in ss && ss[r.value].refreshTokenHash == HashToken(c, random.value) &&
      Live(ss[r.value], now) && ss[r.value].user in users && users[ss[r.value].user].isActive
    ensures ExtractRefreshComponents(c, cfg.env, token).Ok? &&
            !HashInUse(ss, HashToken(c, ExtractRefreshComponents(c, cfg.env, token).value))
            ==> r == Fail(401, INVALID_REFRESH)
  {
    match ExtractRefreshComponents(c, cfg.env, token)
    case Err(e) => Err(e)
    case Ok(random) =>
      match FindByHash(ss, HashToken(c, random))
      case None => Fail(401, INVALID_REFRESH)
      case Some(sid) =>
        var s := ss[sid];
        if s.revokedAt.Some? then Fail(401, REVOKED)
        else if s.expiresAt < now then Fail(401, EXPIRED)
        else if s.user !in users || !users[s.user].isActive then Fail(401, UNAVAILABLE)
        else Ok(sid)
  }

  /**
   * The writes of `rotateSession`, given the new token and its random part:
   * the session gets the hash of the new random part, an expiry of
   * `now + refresh lifetime` (not added to the old one), the new user agent
   * and address, and no revocation stamp; then an access token is signed.
   */
  function RotateCommit(c: Crypto, cfg: Config, ss: Sessions, users: Users, sid: Id, next: string, nextRandom: string,
                        userAgent: Option<string>, ipAddress: Option<string>, now: nat)
    : (r: (Sessions, Result<Issued>))
    requires UniqueHashes(ss)
    requires sid in ss && ss[sid].user in users
    ensures UniqueHashes(r.0)
    ensures r.1.Err? && Configured(cfg.env, ACCESS_SECRET) ==> r.0 == ss
    ensures r.1.Ok? ==>
      r.0 == ss[sid := Renewed(ss[sid], HashToken(c, nextRandom), now + cfg.refreshMs, userAgent, ipAddress)]
    ensures r.1.Ok? ==> r.1.value.sessionId == sid && r.1.value.userId == ss[sid].user && r.1.value.refreshToken == next
    ensures r.1.Ok? ==> sid in r.0 && r.0[sid].refreshTokenHash == HashToken(c, nextRandom) && OnlyChanged(ss, r.0, sid)
  {
    var s := ss[sid];
    var s1 := Renewed(s, HashToken(c, nextRandom), now + cfg.refreshMs, userAgent, ipAddress);
    match Save(ss, sid, s1)
    case Err(e) => (ss, Err(e))
    case Ok(ss1) =>
      match SignAccessToken(c, cfg, s.user, users[s.user].role, sid, now)
      case Err(e) => (ss1, Err(e))
      case Ok(access) => (ss1, Ok(Issued(sid, s.user, next, s1.expiresAt, access)))
  }

  /** `rotateSession`: the checks, then a new token and the writes. Every failing check leaves the store as it was. */
  function RotateSession(c: Crypto, cfg: Config, ss: Sessions, users: Users, token: string,
                         userAgent: Option<string>, ipAddress: Option<string>, randomBytes: seq<Byte>, now: nat)
    : (r: (Sessions, Result<Issued>))
    requires UniqueHashes(ss)
    requires |randomBytes| == 64
    ensures UniqueHashes(r.0)
    ensures RotateLookup(c, cfg, ss, users, token, now).Err? ==>
      r == (ss, Err(RotateLookup(c, cfg, ss, users, token, now).error))
    ensures r.1.Ok? ==> RotateLookup(c, cfg, ss, users, token, now) == Ok(r.1.value.sessionId)
    ensures r.1.Ok? ==> r.1.value.sessionId in r.0 && r.0[r.1.value.sessionId].refreshTokenHash == HashToken(c, HexEncode(randomBytes))
    ensures r.1.Ok? ==> OnlyChanged(ss, r.0, r.1.value.sessionId)
    ensures r.1.Ok? ==> ExtractRefreshComponents(c, cfg.env, r.1.value.refreshToken) == Ok(HexEncode(randomBytes))
  {
    match RotateLookup(c, cfg, ss, users, token, now)
    case Err(e) => (ss, Err(e))
    case Ok(sid) => RotateFresh(c, cfg, ss, users, sid, userAgent, ipAddress, randomBytes, now)
  }

  /** The part of `rotateSession` after the checks: a new token for session `sid`, then the writes. */
  function RotateFresh(c: Crypto, cfg: Config, ss: Sessions, users: Users, sid: Id,
                       userAgent: Option<string>, ipAddress: Option<string>, randomBytes: seq<Byte>, now: nat)
    : (r: (Sessions, Result<Issued>))
    requires UniqueHashes(ss)
    requires |randomBytes| == 64
    requires sid in ss && ss[sid].user in users
    ensures UniqueHashes(r.0)
    ensures r.1.Ok? ==> r.1.value.sessionId == sid
    ensures r.1.Ok? ==> sid in r.0 && r.0[sid].refreshTokenHash == HashToken(c, HexEncode(randomBytes))
    ensures r.1.Ok? ==> OnlyChanged(ss, r.0, sid)
    ensures r.1.Ok? ==> ExtractRefreshComponents(c, cfg.env, r.1.value.refreshToken) == Ok(HexEncode(randomBytes))
  {
    match NewRefreshToken(c, cfg.env, randomBytes)
    case Err(e) => (ss, Err(e))
    case Ok((next, nextRandom)) => RotateCommit(c, cfg, ss, users, sid, next, nextRandom, userAgent, ipAddress, now)
  }


  /**
   * Rotation is single-use: once a token has been rotated, presenting it
   * again fails with "Invalid refresh token", provided the new random part
   * does not hash to the old one.
   */
  lemma RotateSingleUse(c: Crypto, cfg: Config, ss: Sessions, users: Users, token: string,
                        ua: Option<string>, ip: Option<string>, rb1: seq<Byte>, rb2: seq<Byte>, now1: nat, now2: nat)
    requires UniqueHashes(ss) && |rb1| == 64 && |rb2| == 64
    requires RotateSession(c, cfg, ss, users, token, ua, ip, rb1, now1).1.Ok?
    requires c.sha256(HexEncode(rb1)) != c.sha256(ExtractRefreshComponents(c, cfg.env, token).value)
    ensures var ss1 := RotateSession(c, cfg, ss, users, token, ua, ip, rb1, now1).0;
      RotateSession(c, cfg, ss1, users, token, ua, ip, rb2, now2).1 == Fail(401, INVALID_REFRESH)
  {
    RotateDropsOldHash(c, cfg, ss, users, token, ua, ip, rb1, now1);
    RotateUnknownHash(c, cfg, RotateSession(c, cfg, ss, users, token, ua, ip, rb1, now1).0, users, token, ua, ip, rb2, now2);
  }

  /** A well-signed token whose hash no session carries is refused as "Invalid refresh token". */
  lemma RotateUnknownHash(c: Crypto, cfg: Config, ss: Sessions, users: Users, token: string,
                          ua: Option<string>, ip: Option<string>, rb: seq<Byte>, now: nat)
    requires UniqueHashes(ss) && |rb| == 64
    requires ExtractRefreshComponents(c, cfg.env, token).Ok?
    requires !HashInUse(ss, HashToken(c, ExtractRefreshComponents(c, cfg.env, token).value))
    ensures RotateSession(c, cfg, ss, users, token, ua, ip, rb, now) == (ss, Fail(401, INVALID_REFRESH))
  {
  }

  /** After a rotation no session carries the hash of the presented token any more. */
  lemma RotateDropsOldHash(c: Crypto, cfg: Config, ss: Sessions, users: Users, token: string,
                           ua: Option<string>, ip: Option<string>, rb: seq<Byte>, now: nat)
    requires UniqueHashes(ss) && |rb| == 64
    requires RotateSession(c, cfg, ss, users, token, ua, ip, rb, now).1.Ok?
    requires c.sha256(HexEncode(rb)) != c.sha256(ExtractRefreshComponents(c, cfg.env, token).value)
    ensures !HashInUse(RotateSession(c, cfg, ss, users, token, ua, ip, rb, now).0,
                       HashToken(c, ExtractRefreshComponents(c, cfg.env, token).value))
  {
    var r := RotateSession(c, cfg, ss, users, token, ua, ip, rb, now);
    var random := ExtractRefreshComponents(c, cfg.env, token).value;
    HexEncodeInjective(c.sha256(HexEncode(rb)), c.sha256(random));
    ReplaceDropsHash(ss, r.0, r.1.value.sessionId, HashToken(c, random));
  }

  /** Rotating a revoked session fails with "Session revoked" even when it has also expired. */
  lemma RotateRevokedBeforeExpired(c: Crypto, cfg: Config, ss: Sessions, users: Users, token: string,
                                   ua: Option<string>, ip: Option<string>, rb: seq<Byte>, now: nat, sid: Id)
    requires UniqueHashes(ss) && |rb| == 64
    requires ExtractRefreshComponents(c, cfg.env, token).Ok?
    requires sid in ss && ss[sid].refreshTokenHash == HashToken(c, ExtractRefreshComponents(c, cfg.env, token).value)
    requires ss[sid].revokedAt.Some?
    ensures RotateSession(c, cfg, ss, users, token, ua, ip, rb, now) == (ss, Fail(401, REVOKED))
  {
  }

  /** `revokeSession`: an invalid id is 401; otherwise the stamp is written whether or not one was there. */
  function RevokeSession(ss: Sessions, sessionId: string, now: int): (r: Result<Sessions>)
    ensures r.Ok? <==> ParseObjectId(sessionId).Some?
    ensures r.Ok? ==> r.value.Keys == ss.Keys
    ensures r.Ok? ==> forall k :: k in ss && k != ParseObjectId(sessionId).value ==> r.value[k] == ss[k]
    ensures r.Ok? && ParseObjectId(sessionId).value in ss ==>
      r.value[ParseObjectId(sessionId).value].revokedAt == Some(now)
    ensures UniqueHashes(ss) && r.Ok? ==> UniqueHashes(r.value)
  {
    match ParseObjectId(sessionId)
    case None => Fail(401, NOT_FOUND)
    case Some(sid) =>
      if sid in ss then Ok(ss[sid := ss[sid].(revokedAt := Some(now))]) else Ok(ss)
  }

  /**
   * `revokeByRefreshToken`: a `SessionError` from extraction (bad shape,
   * bad signature, missing secret) is swallowed and nothing changes; the
   * `ValueError` of a non-hex signature is not caught. Otherwise every
   * session with the token's hash is stamped.
   */
  function RevokeByRefreshToken(c: Crypto, env: Env, ss: Sessions, token: string, now: int): (r: Result<Sessions>)
    ensures r.Err? <==> ExtractRefreshComponents(c, env, token).Err? && ExtractRefreshComponents(c, env, token).error.Crash?
    ensures ExtractRefreshComponents(c, env, token).Err? && r.Ok? ==> r.value == ss
    ensures r.Ok? ==> r.value.Keys == ss.Keys
    ensures UniqueHashes(ss) && r.Ok? ==> UniqueHashes(r.value)
  {
    match ExtractRefreshComponents(c, env, token)
    case Err(Crash(m)) => Err(Crash(m))
    case Err(Http(_, _)) => Ok(ss)
    case Ok(random) =>
      RevokeHashKeepsUnique(ss, HashToken(c, random), now);
      Ok(RevokeHash(ss, HashToken(c, random), now))
  }

  /** `revokeAllUserSessions`: an invalid id is 401; otherwise only the user's open sessions are stamped. */
  function RevokeAllUserSessions(ss: Sessions, userId: string, now: int): (r: Result<Sessions>)
    ensures r.Ok? <==> ParseObjectId(userId).Some?
    ensures r.Ok? ==> r.value.Keys == ss.Keys
    ensures r.Ok? ==> forall k :: k in ss ==>
      (ss[k].user == ParseObjectId(userId).value ==> r.value[k].revokedAt.Some?) &&
      (ss[k].user != ParseObjectId(userId).value || ss[k].revokedAt.Some? ==> r.value[k] == ss[k])
    ensures UniqueHashes(ss) && r.Ok? ==> UniqueHashes(r.value)
  {
    match ParseObjectId(userId)
    case None => Fail(401, NOT_FOUND)
    case Some(uid) =>
      RevokeOpenKeepsUnique(ss, uid, now);
      Ok(RevokeOpenOfUser(ss, uid, now))
  }
  /** A revoked session no longer validates for its owner, whatever the time. */
  lemma RevokedSessionRejected(ss: Sessions, sid: Id, now: int, t: int)
    requires IsCanonicalId(sid) && sid in ss && IsCanonicalId(ss[sid].user)
    ensures RevokeSession(ss, sid, now).Ok?
    ensures ValidateSession(RevokeSession(ss, sid, now).value, sid, ss[sid].user, t) == Fail(401, REVOKED)
  {
    ParseCanonical(sid);
    ParseCanonical(ss[sid].user);
  }

  /** After revoking all of a user's sessions none of them validates. */
  lemma RevokedUserRejected(ss: Sessions, uid: Id, sid: Id, now: int, t: int)
    requires IsCanonicalId(uid) && IsCanonicalId(sid) && sid in ss && ss[sid].user == uid
    ensures RevokeAllUserSessions(ss, uid, now).Ok?
    ensures ValidateSession(RevokeAllUserSessions(ss, uid, now).value, sid, uid, t) == Fail(401, REVOKED)
  {
    ParseCanonical(sid);
    ParseCanonical(uid);
  }

  /** After revoking by a token its session can no longer be rotated with it. */
  lemma RevokedTokenCannotRotate(c: Crypto, cfg: Config, ss: Sessions, users: Users, token: string,
                                 ua: Option<string>, ip: Option<string>, rb: seq<Byte>, now: int, later: nat)
    requires UniqueHashes(ss) && |rb| == 64
    requires ExtractRefreshComponents(c, cfg.env, token).Ok?
    requires HashInUse(ss, HashToken(c, ExtractRefreshComponents(c, cfg.env, token).value))
    ensures RevokeByRefreshToken(c, cfg.env, ss, token, now).Ok?
    ensures UniqueHashes(RevokeByRefreshToken(c, cfg.env, ss, token, now).value)
    ensures RotateSession(c, cfg, RevokeByRefreshToken(c, cfg.env, ss, token, now).value, users, token, ua, ip, rb, later).1
            == Fail(401, REVOKED)
  {
    RevokeHashKeepsUnique(ss, HashToken(c, ExtractRefreshComponents(c, cfg.env, token).value), now);
  }
}
