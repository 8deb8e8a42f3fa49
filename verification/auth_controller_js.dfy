/**
 * The JavaScript authentication controller. It differs from the Python one
 * in the refresh-token precedence (cookie first), in login (no disabled
 * check), in email verification (no session) and in password reset (the
 * hash is written before the sessions are revoked, and no session is
 * opened). It imports `assignOtp` and `verifyOtp`, which the JavaScript OTP
 * service does not export; `OtpImport` lets the model run both as written
 * (`Undefined`: every call is a TypeError) and with the bucketed service
 * the call sites are written against (`Bucketed`).
 */
module AuthControllerJs {

  import opened Base
  import opened Text
  import opened Hex
  import opened Crypto
  import opened Ids
  import opened Users
  import opened Sessions
  import opened Accounts
  import opened Otp
  import OtpPy
  import SessionJs
  import AuthControllerPy

  const NOT_VERIFIED: string := "Email not verified. Please verify before logging in."
  const ASSIGN_UNDEFINED: string := "assignOtp is not a function"
  const VERIFY_UNDEFINED: string := "verifyOtp is not a function"

  /** What the names `assignOtp` / `verifyOtp` are bound to. */
  datatype OtpImport = Undefined | Bucketed

  /** The binding in the source: neither name is exported by the service it is imported from. */
  const AS_WRITTEN: OtpImport := Undefined

  /** `assignOtp(user, bucket)`. */
  function AssignVia(imp: OtpImport, c: Crypto, lim: Limits, u: User, bucketKey: string, draw: nat, salt: nat, now: int)
    : (r: Result<(User, Sent)>)
    requires 100000 <= draw <= 999999
    ensures imp == Undefined ==> r == Err(Crash(ASSIGN_UNDEFINED))
    ensures imp == Bucketed ==> r == OtpPy.AssignOtp(c, lim, u, bucketKey, draw, salt, now)
  {
    match imp
    case Undefined => Err(Crash(ASSIGN_UNDEFINED))
    case Bucketed => OtpPy.AssignOtp(c, lim, u, bucketKey, draw, salt, now)
  }

  /** `verifyOtp(user, bucket, otp)`. */
  function VerifyVia(imp: OtpImport, c: Crypto, lim: Limits, u: User, bucketKey: string, otp: string, now: int): (r: (User, Result<bool>))
    ensures imp == Undefined ==> r == (u, Err(Crash(VERIFY_UNDEFINED)))
    ensures imp == Bucketed ==> r == OtpPy.VerifyOtp(c, lim, u, bucketKey, otp, now)
  {
    match imp
    case Undefined => (u, Err(Crash(VERIFY_UNDEFINED)))
    case Bucketed => OtpPy.VerifyOtp(c, lim, u, bucketKey, otp, now)
  }

  /**
   * `signup`: 409 for an existing email; otherwise the user is created
   * (`User.create` writes it) before the code is assigned, so a failing
   * assignment leaves the account behind.
   */
  function Signup(imp: OtpImport, c: Crypto, lim: Limits, st: Store, fullName: string, email: string, password: string,
                  phone: Option<string>, uid: Id, passwordSalt: nat, otpDraw: nat, otpSalt: nat, now: int)
    : (r: (Store, Result<Sent>))
    requires UniqueEmails(st.users) && uid !in st.users
    requires 100000 <= otpDraw <= 999999
    ensures FindByEmail(st.users, Lower(email)).Some? ==> r == (st, Fail(409, AuthControllerPy.ACCOUNT_EXISTS))
    ensures FindByEmail(st.users, Lower(email)).None? ==>
      r.0.sessions == st.sessions && r.0.users.Keys == st.users.Keys + {uid} &&
      (forall k :: k in st.users ==> r.0.users[k] == st.users[k]) &&
      r.0.users[uid].email == Lower(email) && !r.0.users[uid].emailVerified
    ensures r.1.Err? && FindByEmail(st.users, Lower(email)).None? ==>
      r.0.users[uid] == NewUser(fullName, Lower(email), c.bcryptHash(password, passwordSalt), phone)
    ensures UniqueEmails(r.0.users)
  {
    var normalized := Lower(email);
    if FindByEmail(st.users, normalized).Some? then (st, Fail(409, AuthControllerPy.ACCOUNT_EXISTS))
    else
      CreateThenAssign(imp, c, lim, st, uid, NewUser(fullName, normalized, c.bcryptHash(password, passwordSalt), phone),
                       otpDraw, otpSalt, now)
  }

  /** The tail of the signup: the account is stored, then the code is assigned and stored. */
  function CreateThenAssign(imp: OtpImport, c: Crypto, lim: Limits, st: Store, uid: Id, user: User, otpDraw: nat, otpSalt: nat, now: int)
    : (r: (Store, Result<Sent>))
    requires 100000 <= otpDraw <= 999999
    ensures r.0.sessions == st.sessions && uid in r.0.users && r.0.users == st.users[uid := r.0.users[uid]]
    ensures r.1.Err? ==> r.0.users[uid] == user
    ensures r.1.Ok? ==> AssignVia(imp, c, lim, user, "emailVerification", otpDraw, otpSalt, now) == Ok((r.0.users[uid], r.1.value))
    ensures r.0.users[uid].(emailVerification := user.emailVerification) == user
  {
    var st1 := st.(users := st.users[uid := user]);
    match AssignVia(imp, c, lim, user, "emailVerification", otpDraw, otpSalt, now)
    case Err(e) => (st1, Err(e))
    case Ok((user1, sent)) =>
      assert OtpPy.SelectBucket("emailVerification") == Ok(EmailVerification);
      (st1.(users := st1.users[uid := user1]), Ok(sent))
  }

  /** `resendOtp`: 404, nothing to do for a verified account, otherwise a new code. */
  function ResendOtp(imp: OtpImport, c: Crypto, lim: Limits, st: Store, email: string, otpDraw: nat, otpSalt: nat, now: int)
    : (r: Result<(Store, Option<Sent>)>)
    requires UniqueEmails(st.users)
    requires 100000 <= otpDraw <= 999999
    ensures FindByEmail(st.users, Lower(email)).None? ==> r == Fail(404, AuthControllerPy.ACCOUNT_NOT_FOUND)
    ensures FindByEmail(st.users, Lower(email)).Some? && st.users[FindByEmail(st.users, Lower(email)).value].emailVerified
            ==> r == Ok((st, None))
    ensures r.Ok? && r.value.1.Some? ==> var uid := FindByEmail(st.users, Lower(email)).value;
      AssignVia(imp, c, lim, st.users[uid], "emailVerification", otpDraw, otpSalt, now).Ok?
  {
    match FindByEmail(st.users, Lower(email))
    case None => Fail(404, AuthControllerPy.ACCOUNT_NOT_FOUND)
    case Some(uid) =>
      if st.users[uid].emailVerified then Ok((st, None))
      else
        match AssignVia(imp, c, lim, st.users[uid], "emailVerification", otpDraw, otpSalt, now)
        case Err(e) => Err(e)
        case Ok((user1, sent)) => Ok((st.(users := st.users[uid := user1]), Some(sent)))
  }

  /** `verifyEmail`: 404, the code check, then the account is marked verified. No session is opened. */
  function VerifyEmail(imp: OtpImport, c: Crypto, lim: Limits, st: Store, email: string, otp: string, now: int): (r: (Store, Result<()>))
    requires UniqueEmails(st.users)
    ensures FindByEmail(st.users, Lower(email)).None? ==> r == (st, Fail(404, AuthControllerPy.ACCOUNT_NOT_FOUND))
    ensures r.0.sessions == st.sessions && r.0.users.Keys == st.users.Keys
    ensures r.1.Ok? ==> var uid := FindByEmail(st.users, Lower(email)).value;
      VerifyVia(imp, c, lim, st.users[uid], "emailVerification", otp, now).1.Ok? &&
      r.0.users[uid].emailVerified && r.0.users[uid].emailVerifiedAt == Some(now)
  {
    match FindByEmail(st.users, Lower(email))
    case None => (st, Fail(404, AuthControllerPy.ACCOUNT_NOT_FOUND))
    case Some(uid) =>
      var (user1, verified) := VerifyVia(imp, c, lim, st.users[uid], "emailVerification", otp, now);
      if verified.Err? then (st.(users := st.users[uid := user1]), Err(verified.error))
      else (st.(users := st.users[uid := user1.(emailVerified := true, emailVerifiedAt := Some(now))]), Ok(()))
  }

  /** `createSession` for an account, on the store. */
  function IssueSession(c: Crypto, cfg: Config, st: Store, uid: Id, role: Role, d: SessionDraw, client: Client, now: nat)
    : (r: (Store, Result<Issued>))
    requires FreshDraw(st, d)
    ensures r.0.users == st.users
    ensures r.1.Ok? ==> r.0.sessions == st.sessions[d.sessionId := Session(uid, HashToken(c, HexEncode(d.refreshBytes)),
                                                        now + cfg.refreshMs, None, client.userAgent, client.ipAddress)]
    ensures r.1.Ok? ==> r.1.value.sessionId == d.sessionId
  {
    var (ss, res) := SessionJs.CreateSession(c, cfg, st.sessions, uid, role, d.sessionId, d.refreshBytes, now,
                                             client.userAgent, client.ipAddress);
    (st.(sessions := ss), res)
  }

  /**
   * `login`: the same 401 for an unknown email and a wrong password, then
   * 403 for an unverified account; a disabled account is let in.
   */
  function Login(c: Crypto, cfg: Config, st: Store, email: string, password: string, d: SessionDraw, client: Client, now: nat)
    : (r: (Store, Result<Issued>))
    requires UniqueEmails(st.users) && FreshDraw(st, d)
    ensures (FindByEmail(st.users, Lower(email)).None? ||
             !c.bcryptVerify(password, st.users[FindByEmail(st.users, Lower(email)).value].passwordHash))
            ==> r == (st, Fail(401, AuthControllerPy.BAD_CREDENTIALS))
    ensures r.1.Ok? ==> var uid := FindByEmail(st.users, Lower(email)).value;
      c.bcryptVerify(password, st.users[uid].passwordHash) && st.users[uid].emailVerified &&
      r.0.users == st.users && d.sessionId in r.0.sessions && r.0.sessions[d.sessionId].user == uid
  {
    match FindByEmail(st.users, Lower(email))
    case None => (st, Fail(401, AuthControllerPy.BAD_CREDENTIALS))
    case Some(uid) =>
      var user := st.users[uid];
      if !c.bcryptVerify(password, user.passwordHash) then (st, Fail(401, AuthControllerPy.BAD_CREDENTIALS))
      else if !user.emailVerified then (st, Fail(403, NOT_VERIFIED))
      else IssueSession(c, cfg, st, uid, user.role, d, client, now)
  }

  /**
   * A disabled but verified account with the right password: the Python
   * controller refuses it, this one opens a session whenever the session
   * service succeeds.
   */
  lemma DisabledAccountDiverges(c: Crypto, cfg: Config, st: Store, email: string, password: string, d: SessionDraw,
                                client: Client, now: nat)
    requires UniqueEmails(st.users) && FreshDraw(st, d)
    requires FindByEmail(st.users, Lower(email)).Some?
    requires var u := st.users[FindByEmail(st.users, Lower(email)).value];
      c.bcryptVerify(password, u.passwordHash) && u.emailVerified && !u.isActive
    ensures AuthControllerPy.Login(c, cfg, st, email, password, d, client, now) == (st, Fail(403, AuthControllerPy.DISABLED))
    ensures Login(c, cfg, st, email, password, d, client, now) ==
            IssueSession(c, cfg, st, FindByEmail(st.users, Lower(email)).value,
                         st.users[FindByEmail(st.users, Lower(email)).value].role, d, client, now)
  {
  }

  /** `extractRefreshToken`: the cookie, then the body, then the `x-refresh-token` header. */
  function ExtractRefreshToken(cookie: Option<string>, body: Option<string>, header: Option<string>): (r: Option<string>)
    ensures Truthy(cookie) ==> r == cookie
    ensures !Truthy(cookie) && Truthy(body) ==> r == body
    ensures !Truthy(cookie) && !Truthy(body) ==> r == (if Truthy(header) then header else None)
  {
    var candidates := [cookie, body, header];
    assert candidates[0] == cookie && candidates[1] == body && candidates[2] == header;
    FirstTruthy(candidates)
  }

  /** With both a cookie and a body token the two controllers pick different ones. */
  lemma PrecedenceDiverges(cookie: string, body: string, header: Option<string>)
    requires cookie != "" && body != ""
    ensures ExtractRefreshToken(Some(cookie), Some(body), header) == Some(cookie)
    ensures AuthControllerPy.ExtractRefreshToken(Some(body), Some(cookie), header) == Some(body)
  {
  }

  /** `refreshSession`: no token 401, otherwise the JavaScript rotation. */
  function RefreshSession(c: Crypto, cfg: Config, st: Store, cookie: Option<string>, body: Option<string>,
                          header: Option<string>, client: Client, refreshBytes: seq<Byte>, now: nat)
    : (r: (Store, Result<Issued>))
    requires UniqueHashes(st.sessions) && |refreshBytes| == 64
    ensures ExtractRefreshToken(cookie, body, header).None? ==> r == (st, Fail(401, AuthControllerPy.REFRESH_REQUIRED))
    ensures ExtractRefreshToken(cookie, body, header).Some? ==>
      var (ss, res) := SessionJs.RotateSession(c, cfg, st.sessions, st.users, ExtractRefreshToken(cookie, body, header),
                                               client.userAgent, client.ipAddress, refreshBytes, now);
      r == (st.(sessions := ss), res)
    ensures r.0.users == st.users && UniqueHashes(r.0.sessions)
  {
    match ExtractRefreshToken(cookie, body, header)
    case None => (st, Fail(401, AuthControllerPy.REFRESH_REQUIRED))
    case Some(token) =>
      var (ss, res) := SessionJs.RotateSession(c, cfg, st.sessions, st.users, Some(token), client.userAgent,
                                               client.ipAddress, refreshBytes, now);
      (st.(sessions := ss), res)
  }

  /**
   * `logout`: the authenticated session if there is one, otherwise the
   * session of the refresh token, if any; a bad token is ignored.
   */
  function Logout(c: Crypto, env: Env, st: Store, authSessionId: Option<string>, cookie: Option<string>,
                  body: Option<string>, header: Option<string>, now: int): (r: Result<Store>)
    ensures Truthy(authSessionId) && ParseObjectId(authSessionId.value).None? ==> r == Err(Crash(SessionJs.CAST_ERROR))
    ensures !Truthy(authSessionId) ==> r.Ok?
    ensures !Truthy(authSessionId) && ExtractRefreshToken(cookie, body, header).None? ==> r == Ok(st)
    ensures !Truthy(authSessionId) && ExtractRefreshToken(cookie, body, header).Some? ==>
      r == Ok(st.(sessions := SessionJs.RevokeByRefreshToken(c, env, st.sessions, ExtractRefreshToken(cookie, body, header), now)))
    ensures r.Ok? ==> r.value.users == st.users
  {
    if Truthy(authSessionId) then
      match SessionJs.RevokeSession(st.sessions, authSessionId.value, now)
      case Ok(ss) => Ok(st.(sessions := ss))
      case Err(e) => Err(e)
    else
      match ExtractRefreshToken(cookie, body, header)
      case None => Ok(st)
      case Some(token) => Ok(st.(sessions := SessionJs.RevokeByRefreshToken(c, env, st.sessions, Some(token), now)))
  }

  /** `logoutAll`: every open session of the user is revoked. */
  function LogoutAll(st: Store, uid: string, now: int): (r: Result<Store>)
    ensures r.Ok? <==> ParseObjectId(uid).Some?
    ensures r.Ok? ==> r.value == st.(sessions := RevokeOpenOfUser(st.sessions, ParseObjectId(uid).value, now))
  {
    match SessionJs.RevokeAllUserSessions(st.sessions, uid, now)
    case Ok(ss) => Ok(st.(sessions := ss))
    case Err(e) => Err(e)
  }

  /** `requestPasswordReset`: 404, then 400 for an unverified account, then a password-reset code. */
  function RequestPasswordReset(imp: OtpImport, c: Crypto, lim: Limits, st: Store, email: string, otpDraw: nat, otpSalt: nat, now: int)
    : (r: Result<(Store, Sent)>)
    requires UniqueEmails(st.users)
    requires 100000 <= otpDraw <= 999999
    ensures FindByEmail(st.users, Lower(email)).None? ==> r == Fail(404, AuthControllerPy.RESET_UNKNOWN)
    ensures FindByEmail(st.users, Lower(email)).Some? && !st.users[FindByEmail(st.users, Lower(email)).value].emailVerified
            ==> r == Fail(400, AuthControllerPy.RESET_UNVERIFIED)
    ensures r.Ok? ==> var uid := FindByEmail(st.users, Lower(email)).value;
      st.users[uid].emailVerified && AssignVia(imp, c, lim, st.users[uid], "passwordReset", otpDraw, otpSalt, now).Ok?
  {
    match FindByEmail(st.users, Lower(email))
    case None => Fail(404, AuthControllerPy.RESET_UNKNOWN)
    case Some(uid) =>
      if !st.users[uid].emailVerified then Fail(400, AuthControllerPy.RESET_UNVERIFIED)
      else
        match AssignVia(imp, c, lim, st.users[uid], "passwordReset", otpDraw, otpSalt, now)
        case Err(e) => Err(e)
        case Ok((user1, sent)) => Ok((st.(users := st.users[uid := user1]), sent))
  }

  /**
   * `resetPassword`: generic success for an unknown email; otherwise the
   * code check, then the new hash is saved, and only then are the user's
   * open sessions revoked. No session is opened.
   */
  function ResetPassword(imp: OtpImport, c: Crypto, lim: Limits, st: Store, email: string, otp: string, newPassword: string,
                         passwordSalt: nat, now: int): (r: (Store, Result<()>))
    requires UniqueEmails(st.users)
    ensures FindByEmail(st.users, Lower(email)).None? ==> r == (st, Ok(()))
    ensures r.0.users.Keys == st.users.Keys && r.0.sessions.Keys == st.sessions.Keys
    ensures FindByEmail(st.users, Lower(email)).Some? && r.1.Ok? ==> var uid := FindByEmail(st.users, Lower(email)).value;
      VerifyVia(imp, c, lim, st.users[uid], "passwordReset", otp, now).1.Ok? &&
      r.0.users[uid].passwordHash == c.bcryptHash(newPassword, passwordSalt) && ParseObjectId(uid).Some? &&
      r.0.sessions == RevokeOpenOfUser(st.sessions, ParseObjectId(uid).value, now)
    ensures FindByEmail(st.users, Lower(email)).Some? && r.1.Err? &&
            VerifyVia(imp, c, lim, st.users[FindByEmail(st.users, Lower(email)).value], "passwordReset", otp, now).1.Ok? ==>
      r.1 == Err(Crash(SessionJs.CAST_ERROR)) && r.0.sessions == st.sessions &&
      r.0.users[FindByEmail(st.users, Lower(email)).value].passwordHash == c.bcryptHash(newPassword, passwordSalt)
  {
    match FindByEmail(st.users, Lower(email))
    case None => (st, Ok(()))
    case Some(uid) =>
      var (user1, verified) := VerifyVia(imp, c, lim, st.users[uid], "passwordReset", otp, now);
      if verified.Err? then (st.(users := st.users[uid := user1]), Err(verified.error))
      else SaveThenRevoke(st, uid, user1.(passwordHash := c.bcryptHash(newPassword, passwordSalt)), now)
  }

  /**
   * The tail of the reset: the user is saved first, then the sessions are
   * revoked. A stored user's id is always an object id, so for a real
   * account the revocation succeeds; the error branch is the cast that
   * `updateMany` would make of any other key, and it would leave the new
   * password in place with the old sessions still open.
   */
  function SaveThenRevoke(st: Store, uid: Id, user: User, now: int): (r: (Store, Result<()>))
    ensures r.0.users == st.users[uid := user]
    ensures r.1.Ok? <==> ParseObjectId(uid).Some?
    ensures r.1.Ok? ==> r.0.sessions == RevokeOpenOfUser(st.sessions, ParseObjectId(uid).value, now)
    ensures r.1.Err? ==> r.1.error == Crash(SessionJs.CAST_ERROR) && r.0.sessions == st.sessions
  {
    var st1 := st.(users := st.users[uid := user]);
    match SessionJs.RevokeAllUserSessions(st1.sessions, uid, now)
    case Err(e) => (st1, Err(e))
    case Ok(ss) => (st1.(sessions := ss), Ok(()))
  }

  /**
   * As written, signing up leaves an account that can never be verified:
   * the request fails with a TypeError after the account was stored, a
   * second signup is refused as a duplicate, and verification fails the
   * same way.
   */
  lemma SignupAsWrittenStrands(c: Crypto, lim: Limits, st: Store, fullName: string, email: string, password: string, phone: Option<string>,
                               uid: Id, uid2: Id, passwordSalt: nat, otpDraw: nat, otpSalt: nat, now: int, otp: string)
    requires UniqueEmails(st.users) && uid !in st.users && uid2 !in st.users && uid2 != uid
    requires 100000 <= otpDraw <= 999999
    requires FindByEmail(st.users, Lower(email)).None?
    ensures var (st1, res) := Signup(AS_WRITTEN, c, lim, st, fullName, email, password, phone, uid, passwordSalt, otpDraw, otpSalt, now);
      res == Err(Crash(ASSIGN_UNDEFINED)) && uid in st1.users && !st1.users[uid].emailVerified &&
      Signup(AS_WRITTEN, c, lim, st1, fullName, email, password, phone, uid2, passwordSalt, otpDraw, otpSalt, now).1
        == Fail(409, AuthControllerPy.ACCOUNT_EXISTS) &&
      VerifyEmail(AS_WRITTEN, c, lim, st1, email, otp, now).1 == Err(Crash(VERIFY_UNDEFINED))
  {
    var (st1, res) := Signup(AS_WRITTEN, c, lim, st, fullName, email, password, phone, uid, passwordSalt, otpDraw, otpSalt, now);
    assert st1.users[uid].email == Lower(email);
    assert FindByEmail(st1.users, Lower(email)) == Some(uid);
  }

  /**
   * With the bucketed service bound, signing up and then verifying with the
   * code that was mailed marks the account verified (before the code
   * expires, and given that bcrypt accepts a code against its own hash).
   */
  lemma SignupThenVerify(c: Crypto, lim: Limits, st: Store, fullName: string, email: string, password: string, phone: Option<string>,
                         uid: Id, passwordSalt: nat, otpDraw: nat, otpSalt: nat, now: int, t: int)
    requires UniqueEmails(st.users) && uid !in st.users
    requires 100000 <= otpDraw <= 999999
    requires FindByEmail(st.users, Lower(email)).None?
    requires c.bcryptVerify(OtpPy.GenerateOtp(otpDraw), c.bcryptHash(OtpPy.GenerateOtp(otpDraw), otpSalt))
    requires t <= now + lim.ExpiryMs() && lim.maxPerDay > 0 && lim.maxAttempts > 0
    ensures var (st1, res) := Signup(Bucketed, c, lim, st, fullName, email, password, phone, uid, passwordSalt, otpDraw, otpSalt, now);
      res.Ok? && res.value.otp == OtpPy.GenerateOtp(otpDraw) &&
      var (st2, verified) := VerifyEmail(Bucketed, c, lim, st1, email, res.value.otp, t);
      verified.Ok? && st2.users[uid].emailVerified
  {
    var user := NewUser(fullName, Lower(email), c.bcryptHash(password, passwordSalt), phone);
    assert PurgeHistory(user.emailVerification.sentHistory, now) == [];
    OtpPy.AssignThenVerify(c, lim, user, EmailVerification, otpDraw, otpSalt, now, t);
    var (st1, res) := Signup(Bucketed, c, lim, st, fullName, email, password, phone, uid, passwordSalt, otpDraw, otpSalt, now);
    assert st1.users[uid] == OtpPy.AssignOtp(c, lim, user, "emailVerification", otpDraw, otpSalt, now).value.0;
    assert FindByEmail(st1.users, Lower(email)) == Some(uid);
  }
}
