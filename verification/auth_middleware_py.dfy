/**
 * The Python bearer-token guard. An access token alone is not enough: the
 * session it names is validated on every request, so revoking a session
 * locks its access tokens out before they expire.
 */
module AuthMiddlewarePy {

  import opened Base
  import opened Text
  import opened Crypto
  import opened Ids
  import opened Users
  import opened Sessions
  import opened Accounts
  import SessionPy

  const AUTH_REQUIRED: string := "Authentication required"
  const BEARER: string := "Bearer "

  /** What `request.state` carries after authentication. */
  datatype AuthContext = AuthContext(userId: Id, sessionId: Id, role: Role, user: User, session: Session)

  /**
   * The token of an `Authorization` header: only a header starting with
   * "Bearer " (one space) counts; the rest is stripped of surrounding white
   * space and must not be empty.
   */
  function BearerToken(authorization: Option<string>): (r: Option<string>)
    ensures r.Some? ==> r.value != [] && r.value == Trim(r.value)
  {
    var header := authorization.GetOr("");
    if StartsWith(header, BEARER) && Trim(header[|BEARER|..]) != [] then
      TrimIdempotent(header[|BEARER|..]);
      Some(Trim(header[|BEARER|..]))
    else None
  }

  /** A non-empty token without surrounding white space comes back out of its header unchanged. */
  lemma BearerRoundTrip(token: string)
    requires token != [] && Trim(token) == token
    ensures BearerToken(Some(BEARER + token)) == Some(token)
  {
    assert (BEARER + token)[|BEARER|..] == token;
  }

  /** A header without the exact "Bearer " prefix, or with nothing after it, carries no token. */
  lemma NoBearerNoToken(authorization: Option<string>)
    ensures authorization.None? ==> BearerToken(authorization).None?
    ensures BearerToken(Some("Bearer")).None? && BearerToken(Some("Bearer   ")).None?
    ensures forall t :: BearerToken(Some("bearer " + t)).None?
  {
    assert !StartsWith("Bearer", BEARER);
    assert StartsWith("Bearer   ", BEARER) && "Bearer   "[|BEARER|..] == "  ";
    assert IsBlank("  ");
    TrimEmptyIffBlank("  ");
    forall t | true
      ensures BearerToken(Some("bearer " + t)).None?
    {
      assert ("bearer " + t)[0] != BEARER[0];
    }
  }

  /**
   * `authenticate`: a bearer token (401 "Authentication required"), the
   * access-token check, the session check, then the user: missing 401,
   * disabled 403.
   */
  function Authenticate(c: Crypto, cfg: Config, st: Store, authorization: Option<string>, now: int): (r: Result<AuthContext>)
    ensures BearerToken(authorization).None? ==> r == Fail(401, AUTH_REQUIRED)
    ensures r.Ok? ==> (BearerToken(authorization).Some? &&
      var claims := SessionPy.VerifyAccessToken(c, cfg.env, BearerToken(authorization).value, now / 1000);
      claims.Ok? &&
      SessionPy.ValidateSession(st.sessions, claims.value.sid, claims.value.sub, now) == Ok(r.value.session) &&
      ParseObjectId(claims.value.sid) == Some(r.value.sessionId) &&
      ParseObjectId(claims.value.sub) == Some(r.value.userId))
    ensures r.Ok? ==> (r.value.sessionId in st.sessions && r.value.session == st.sessions[r.value.sessionId] &&
      Live(r.value.session, now) && r.value.session.user == r.value.userId)
    ensures r.Ok? ==> (r.value.userId in st.users && r.value.user == st.users[r.value.userId] &&
      r.value.user.isActive && r.value.role == r.value.user.role)
    ensures r.Err? ==> r.error.Http?
  {
    match BearerToken(authorization)
    case None => Fail(401, AUTH_REQUIRED)
    case Some(token) =>
      match SessionPy.VerifyAccessToken(c, cfg.env, token, now / 1000)
      case Err(e) => Err(e)
      case Ok(claims) =>
        match SessionPy.ValidateSession(st.sessions, claims.sid, claims.sub, now)
        case Err(e) => Err(e)
        case Ok(session) =>
          var sid := ParseObjectId(claims.sid).value;
          var uid := ParseObjectId(claims.sub).value;
          if uid !in st.users then Fail(401, "User not found")
          else if !st.users[uid].isActive then Fail(403, "User is disabled")
          else Ok(AuthContext(uid, sid, st.users[uid].role, st.users[uid], session))
  }

  /**
   * A revoked session shuts out every access token issued for it, however
   * long the token itself is still valid.
   */
  lemma RevokedSessionShutsOut(c: Crypto, cfg: Config, st: Store, authorization: Option<string>, now: int, claims: Claims)
    requires BearerToken(authorization).Some?
    requires Configured(cfg.env, ACCESS_SECRET)
    requires c.jwtDecode(BearerToken(authorization).value, cfg.env[ACCESS_SECRET], now / 1000) == Some(claims)
    requires IsCanonicalId(claims.sid) && IsCanonicalId(claims.sub)
    requires claims.sid in st.sessions && st.sessions[claims.sid].user == claims.sub
    requires st.sessions[claims.sid].revokedAt.Some?
    ensures Authenticate(c, cfg, st, authorization, now) == Fail(401, REVOKED)
  {
    var token := BearerToken(authorization).value;
    assert SessionPy.VerifyAccessToken(c, cfg.env, token, now / 1000) == Ok(claims);
    SessionPy.ValidateRevokedFirst(st.sessions, claims.sid, now);
  }

  /** `requireAdmin`: only an administrator passes, anyone else gets 403. */
  function RequireAdmin(ctx: AuthContext): (r: Result<AuthContext>)
    ensures r.Ok? <==> ctx.role == Admin
    ensures r.Ok? ==> r.value == ctx
    ensures r.Err? ==> r.error == Http(403, "Admin privileges required")
  {
    if ctx.role != Admin then Fail(403, "Admin privileges required") else Ok(ctx)
  }
}
