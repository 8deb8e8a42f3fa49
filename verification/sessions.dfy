/**
 * The `sessions` collection shared by both backends: one document per
 * login, holding only the SHA-256 hex of the refresh token's random part.
 * `refreshTokenHash` carries a unique index, so inserting or saving a
 * document whose hash another document already has fails.
 */
module Sessions {

  import opened Base
  import opened Text
  import opened Hex
  import opened Crypto
  import opened Ids

  datatype Session = Session(
    user: Id,
    refreshTokenHash: string,
    expiresAt: int,
    revokedAt: Option<int>,
    userAgent: Option<string>,
    ipAddress: Option<string>)

  type Sessions = map<Id, Session>

  /** Environment and token lifetimes (milliseconds) a session service runs with. */
  datatype Config = Config(env: Env, accessMs: int, refreshMs: int)

  const REFRESH_SECRET: string := "JWT_REFRESH_SECRET"
  const ACCESS_SECRET: string := "JWT_ACCESS_SECRET"

  /** The messages of the 401s both session services raise. */
  const INVALID_REFRESH: string := "Invalid refresh token"
  const NOT_FOUND: string := "Session not found"
  const REVOKED: string := "Session revoked"
  const EXPIRED: string := "Session expired"
  const UNAVAILABLE: string := "User account unavailable"

  /** `_hash_token` / `hashToken`: the SHA-256 hex the store keeps for a random part. */
  function HashToken(c: Crypto, random: string): string
  {
    Sha256Hex(c, random)
  }

  /**
   * The refresh-token format both backends write: the random part, a dot,
   * and the hex HMAC-SHA256 of the random part under the refresh secret.
   */
  function SignedToken(c: Crypto, secret: string, random: string): (token: string)
    ensures '.' !in random ==> Split(token, '.') == [random, HmacHex(c, secret, random)]
  {
    if '.' !in random then SplitPair(random, HmacHex(c, secret, random), '.'); random + "." + HmacHex(c, secret, random)
    else random + "." + HmacHex(c, secret, random)
  }

  /** A signed access token and when it expires (milliseconds). */
  datatype AccessToken = AccessToken(token: string, claims: Claims, expiresAt: int)

  /** What `createSession` and `rotateSession` hand back. */
  datatype Issued = Issued(
    sessionId: Id,
    userId: Id,
    refreshToken: string,
    refreshExpiresAt: int,
    access: AccessToken)

  /**
   * A session after rotation: the new hash and expiry, the caller's user
   * agent and address, and no revocation stamp; owner unchanged.
   */
  function Renewed(s: Session, hash: string, expiresAt: int, userAgent: Option<string>, ipAddress: Option<string>)
    : (r: Session)
    ensures r.user == s.user && r.refreshTokenHash == hash && r.expiresAt == expiresAt
    ensures r.revokedAt.None? && r.userAgent == userAgent && r.ipAddress == ipAddress
  {
    s.(refreshTokenHash := hash, expiresAt := expiresAt, userAgent := userAgent, ipAddress := ipAddress, revokedAt := None)
  }

  /** The unique index on `refreshTokenHash`. */
  predicate UniqueHashes(ss: Sessions)
  {
    forall a, b :: a in ss && b in ss && ss[a].refreshTokenHash == ss[b].refreshTokenHash ==> a == b
  }

  predicate HashInUse(ss: Sessions, h: string)
  {
    exists k :: k in ss && ss[k].refreshTokenHash == h
  }

  /** A session is usable at `now` when it is not revoked and its expiry is not strictly before `now`. */
  predicate Live(s: Session, now: int)
  {
    s.revokedAt.None? && !(s.expiresAt < now)
  }

  /** `find_one({refreshTokenHash: h})`: under the unique index at most one document matches. */
  function FindByHash(ss: Sessions, h: string): (r: Option<Id>)
    requires UniqueHashes(ss)
    ensures r.Some? <==> HashInUse(ss, h)
    ensures r.Some? ==> r.value in ss && ss[r.value].refreshTokenHash == h
  {
    if HashInUse(ss, h) then
      var k :| k in ss && ss[k].refreshTokenHash == h;
      Some(k)
    else None
  }

  /** `insert()` of a new document under the unique index. */
  function Insert(ss: Sessions, sid: Id, s: Session): (r: Result<Sessions>)
    requires sid !in ss
    ensures r.Ok? <==> !HashInUse(ss, s.refreshTokenHash)
    ensures r.Ok? ==> r.value == ss[sid := s]
    ensures r.Err? ==> r.error.Crash?
    ensures UniqueHashes(ss) && r.Ok? ==> UniqueHashes(r.value)
  {
    if HashInUse(ss, s.refreshTokenHash) then Err(Crash("E11000 duplicate key error"))
    else Ok(ss[sid := s])
  }

  /** `save()` of an existing document under the unique index. */
  function Save(ss: Sessions, sid: Id, s: Session): (r: Result<Sessions>)
    requires sid in ss
    ensures r.Ok? <==> forall k :: k in ss && k != sid ==> ss[k].refreshTokenHash != s.refreshTokenHash
    ensures r.Ok? ==> r.value == ss[sid := s]
    ensures r.Err? ==> r.error.Crash?
    ensures UniqueHashes(ss) && r.Ok? ==> UniqueHashes(r.value)
  {
    if exists k :: k in ss && k != sid && ss[k].refreshTokenHash == s.refreshTokenHash then
      Err(Crash("E11000 duplicate key error"))
    else Ok(ss[sid := s])
  }

  /** `$set: {revokedAt: now}` on every session whose hash is `h`. */
  function RevokeHash(ss: Sessions, h: string, now: int): (r: Sessions)
    ensures r.Keys == ss.Keys
    ensures forall k :: k in ss ==>
      r[k] == (if ss[k].refreshTokenHash == h then ss[k].(revokedAt := Some(now)) else ss[k])
  {
    map k | k in ss :: if ss[k].refreshTokenHash == h then ss[k].(revokedAt := Some(now)) else ss[k]
  }

  /** `$set: {revokedAt: now}` on the user's sessions whose `revokedAt` is null. */
  function RevokeOpenOfUser(ss: Sessions, uid: Id, now: int): (r: Sessions)
    ensures r.Keys == ss.Keys
    ensures forall k :: k in ss ==>
      r[k] == (if ss[k].user == uid && ss[k].revokedAt.None? then ss[k].(revokedAt := Some(now)) else ss[k])
  {
    map k | k in ss :: if ss[k].user == uid && ss[k].revokedAt.None? then ss[k].(revokedAt := Some(now)) else ss[k]
  }

  lemma RevokeHashKeepsUnique(ss: Sessions, h: string, now: int)
    ensures UniqueHashes(ss) ==> UniqueHashes(RevokeHash(ss, h, now))
  {
  }

  lemma RevokeOpenKeepsUnique(ss: Sessions, uid: Id, now: int)
    ensures UniqueHashes(ss) ==> UniqueHashes(RevokeOpenOfUser(ss, uid, now))
  {
  }

  /**
   * After revoking all of a user's open sessions none of them is live, other
   * users' sessions are untouched, and earlier revocation stamps survive.
   */
  lemma RevokeAllEffect(ss: Sessions, uid: Id, now: int, k: Id, t: int)
    requires k in ss
    ensures var r := RevokeOpenOfUser(ss, uid, now);
      (ss[k].user == uid ==> !Live(r[k], t)) &&
      (ss[k].user != uid ==> r[k] == ss[k]) &&
      (ss[k].revokedAt.Some? ==> r[k] == ss[k])
  {
  }

  /** Revoking the same user's sessions again changes nothing: only null stamps are written. */
  lemma RevokeAllIdempotent(ss: Sessions, uid: Id, now1: int, now2: int)
    ensures RevokeOpenOfUser(RevokeOpenOfUser(ss, uid, now1), uid, now2) == RevokeOpenOfUser(ss, uid, now1)
  {
    var r1 := RevokeOpenOfUser(ss, uid, now1);
    var r2 := RevokeOpenOfUser(r1, uid, now2);
    assert forall k :: k in r1 ==> r2[k] == r1[k];
  }

  /** `ss1` differs from `ss` at most in the document stored under `sid`. */
  predicate OnlyChanged(ss: Sessions, ss1: Sessions, sid: Id)
  {
    ss1.Keys == ss.Keys && forall k :: k in ss && k != sid ==> ss1[k] == ss[k]
  }

  /**
   * Replacing the hash of the one session that carried `h`, and nothing
   * else, leaves no session carrying `h`.
   */
  lemma ReplaceDropsHash(ss: Sessions, ss1: Sessions, sid: Id, h: string)
    requires UniqueHashes(ss) && OnlyChanged(ss, ss1, sid)
    requires sid in ss && ss[sid].refreshTokenHash == h && ss1[sid].refreshTokenHash != h
    ensures !HashInUse(ss1, h)
  {
  }
}
