/**
 * The decision sequences of the Python authentication controller: signup,
 * email verification, login, refresh, logout, password reset and the
 * address book. Mail delivery and cookies are left to the caller; what is
 * modelled is which checks run in which order and what each writes.
 */
module AuthControllerPy {

  import opened Base
  import opened Text
  import opened Hex
  import opened Crypto
  import opened Ids
  import opened Users
  import opened Sessions
  import opened Accounts
  import opened Otp
  import OtpPy
  import SessionPy

  const ACCOUNT_EXISTS: string := "An account already exists with this email."
  const ACCOUNT_NOT_FOUND: string := "Account not found."
  const BAD_CREDENTIALS: string := "Invalid email or password."
  const NOT_VERIFIED: string := "Please verify your email before logging in."
  const DISABLED: string := "Account disabled."
  const REFRESH_REQUIRED: string := "Refresh token required."
  const RESET_UNKNOWN: string := "This email is not registered with us. Please sign up first."
  const RESET_UNVERIFIED: string := "This email is not verified yet. Please verify your account before resetting the password."
  const MAX_ADDRESSES: nat := 5

  /** `createSession` for an account, on the store. */
  function IssueSession(c: Crypto, cfg: Config, st: Store, uid: Id, role: Role, d: SessionDraw, client: Client, now: nat)
    : (r: (Store, Result<Issued>))
    requires FreshDraw(st, d)
    ensures r.0.users == st.users
    ensures r.1.Ok? ==> r.0.sessions == st.sessions[d.sessionId := Session(uid, HashToken(c, HexEncode(d.refreshBytes)),
                                                        now + cfg.refreshMs, None, client.userAgent, client.ipAddress)]
    ensures r.1.Ok? ==> r.1.value.sessionId == d.sessionId
    ensures UniqueHashes(st.sessions) ==> UniqueHashes(r.0.sessions)
  {
    var (ss, res) := SessionPy.CreateSession(c, cfg, st.sessions, uid, role, d.sessionId, d.refreshBytes, now,
                                             client.userAgent, client.ipAddress);
    (st.(sessions := ss), res)
  }

  /**
   * `signup`: the email is lower-cased; an existing account is 409;
   * otherwise a new unverified customer is inserted and then given an
   * email-verification code. A fresh account is over the send cap only
   * when the cap is zero or less: the 429 then comes after the insert.
   */
  function Signup(c: Crypto, lim: Limits, st: Store, fullName: string, email: string, password: string, phone: Option<string>,
                  uid: Id, passwordSalt: nat, otpDraw: nat, otpSalt: nat, now: int): (r: (Store, Result<Sent>))
    requires UniqueEmails(st.users) && uid !in st.users
    requires 100000 <= otpDraw <= 999999
    ensures r.1.Ok? <==> FindByEmail(st.users, Lower(email)).None? && lim.maxPerDay > 0
    ensures FindByEmail(st.users, Lower(email)).Some? ==> r == (st, Fail(409, ACCOUNT_EXISTS))
    ensures r.0.sessions == st.sessions && UniqueEmails(r.0.users)
    ensures FindByEmail(st.users, Lower(email)).None? && lim.maxPerDay <= 0 ==>
      r.0.users == st.users[uid := NewUser(fullName, Lower(email), c.bcryptHash(password, passwordSalt), phone)] &&
      r.1 == Fail(429, LIMIT_REACHED)
    ensures r.1.Ok? ==>
      r.0.users == st.users[uid := NewUser(fullName, Lower(email), c.bcryptHash(password, passwordSalt), phone)
        .(emailVerification := OtpState(Some(c.bcryptHash(r.1.value.otp, otpSalt)), Some(now + lim.ExpiryMs()), 0, [now]))] &&
      r.1.value.otp == OtpPy.GenerateOtp(otpDraw)
  {
    var normalized := Lower(email);
    if FindByEmail(st.users, normalized).Some? then (st, Fail(409, ACCOUNT_EXISTS))
    else
      var user := NewUser(fullName, normalized, c.bcryptHash(password, passwordSalt), phone);
      var inserted := st.(users := st.users[uid := user]);
      assert OtpPy.SelectBucket("emailVerification") == Ok(EmailVerification);
      assert PurgeHistory([], now) == [];
      match OtpPy.AssignOtp(c, lim, user, "emailVerification", otpDraw, otpSalt, now)
      case Err(e) => (inserted, Err(e))
      case Ok((user1, sent)) =>
        assert user1.emailVerification.sentHistory == [now];
        (st.(users := st.users[uid := user1]), Ok(sent))
  }

  /** `resendOtp`: unknown email 404; an already verified account succeeds without a new code. */
  function ResendOtp(c: Crypto, lim: Limits, st: Store, email: string, otpDraw: nat, otpSalt: nat, now: int): (r: Result<(Store, Option<Sent>)>)
    requires UniqueEmails(st.users)
    requires 100000 <= otpDraw <= 999999
    ensures FindByEmail(st.users, Lower(email)).None? ==> r == Fail(404, ACCOUNT_NOT_FOUND)
    ensures FindByEmail(st.users, Lower(email)).Some? && st.users[FindByEmail(st.users, Lower(email)).value].emailVerified
            ==> r == Ok((st, None))
    ensures r.Ok? ==> r.value.0.users.Keys == st.users.Keys
    ensures r.Ok? && r.value.1.Some? ==> var uid := FindByEmail(st.users, Lower(email)).value;
      OtpPy.AssignOtp(c, lim, st.users[uid], "emailVerification", otpDraw, otpSalt, now) == Ok((r.value.0.users[uid], r.value.1.value)) &&
      r.value.0 == st.(users := st.users[uid := r.value.0.users[uid]])
  {
    match FindByEmail(st.users, Lower(email))
    case None => Fail(404, ACCOUNT_NOT_FOUND)
    case Some(uid) =>
      if st.users[uid].emailVerified then Ok((st, None))
      else
        match OtpPy.AssignOtp(c, lim, st.users[uid], "emailVerification", otpDraw, otpSalt, now)
        case Err(e) => Err(e)
        case Ok((user1, sent)) => Ok((st.(users := st.users[uid := user1]), Some(sent)))
  }

  /**
   * `verifyEmail`: unknown email 404; the code check (a wrong guess is
   * saved even though the request fails); then the account is marked
   * verified and a session is opened.
   */
  function VerifyEmail(c: Crypto, lim: Limits, cfg: Config, st: Store, email: string, otp: string, d: SessionDraw, client: Client, now: nat)
    : (r: (Store, Result<Issued>))
    requires UniqueEmails(st.users) && FreshDraw(st, d)
    ensures FindByEmail(st.users, Lower(email)).None? ==> r == (st, Fail(404, ACCOUNT_NOT_FOUND))
    ensures r.1.Ok? ==> var uid := FindByEmail(st.users, Lower(email)).value;
      OtpPy.VerifyOtp(c, lim, st.users[uid], "emailVerification", otp, now).1.Ok? &&
      uid in r.0.users && r.0.users[uid].emailVerified && r.0.users[uid].emailVerifiedAt == Some(now) &&
      d.sessionId in r.0.sessions && r.0.sessions[d.sessionId].user == uid
    ensures r.1.Err? && FindByEmail(st.users, Lower(email)).Some? &&
            OtpPy.VerifyOtp(c, lim, st.users[FindByEmail(st.users, Lower(email)).value], "emailVerification", otp, now).1.Err? ==>
      var uid := FindByEmail(st.users, Lower(email)).value;
      r == (st.(users := st.users[uid := OtpPy.VerifyOtp(c, lim, st.users[uid], "emailVerification", otp, now).0]),
            Err(OtpPy.VerifyOtp(c, lim, st.users[uid], "emailVerification", otp, now).1.error))
  {
    match FindByEmail(st.users, Lower(email))
    case None => (st, Fail(404, ACCOUNT_NOT_FOUND))
    case Some(uid) =>
      var (user1, verified) := OtpPy.VerifyOtp(c, lim, st.users[uid], "emailVerification", otp, now);
      if verified.Err? then (st.(users := st.users[uid := user1]), Err(verified.error))
      else
        var user2 := user1.(emailVerified := true, emailVerifiedAt := Some(now));
        IssueSession(c, cfg, st.(users := st.users[uid := user2]), uid, user2.role, d, client, now)
  }

  /**
   * `login`: an unknown email and a wrong password get the very same 401;
   * only then unverified (403) and disabled (403); then a new session.
   */
  function Login(c: Crypto, cfg: Config, st: Store, email: string, password: string, d: SessionDraw, client: Client, now: nat)
    : (r: (Store, Result<Issued>))
    requires UniqueEmails(st.users) && FreshDraw(st, d)
    ensures r.1.Err? ==> r.0 == st || r.0.users == st.users
    ensures (FindByEmail(st.users, Lower(email)).None? ||
             !c.bcryptVerify(password, st.users[FindByEmail(st.users, Lower(email)).value].passwordHash))
            ==> r == (st, Fail(401, BAD_CREDENTIALS))
    ensures r.1.Ok? ==> var uid := FindByEmail(st.users, Lower(email)).value;
      c.bcryptVerify(password, st.users[uid].passwordHash) && st.users[uid].emailVerified && st.users[uid].isActive &&
      r.0.users == st.users && r.1.value.sessionId == d.sessionId && d.sessionId in r.0.sessions &&
      r.0.sessions[d.sessionId].user == uid
  {
    match FindByEmail(st.users, Lower(email))
    case None => (st, Fail(401, BAD_CREDENTIALS))
    case Some(uid) =>
      var user := st.users[uid];
      if !c.bcryptVerify(password, user.passwordHash) then (st, Fail(401, BAD_CREDENTIALS))
      else if !user.emailVerified then (st, Fail(403, NOT_VERIFIED))
      else if !user.isActive then (st, Fail(403, DISABLED))
      else IssueSession(c, cfg, st, uid, user.role, d, client, now)
  }

  /** The order of the login checks once the password matches: unverified before disabled. */
  lemma LoginUnverifiedFirst(c: Crypto, cfg: Config, st: Store, email: string, password: string, d: SessionDraw, client: Client, now: nat)
    requires UniqueEmails(st.users) && FreshDraw(st, d)
    requires FindByEmail(st.users, Lower(email)).Some?
    requires var u := st.users[FindByEmail(st.users, Lower(email)).value];
      c.bcryptVerify(password, u.passwordHash) && !u.emailVerified && !u.isActive
    ensures Login(c, cfg, st, email, password, d, client, now) == (st, Fail(403, NOT_VERIFIED))
  {
  }

  /** `_extract_refresh_token`: the explicit argument, then the cookie, then the `x-refresh-token` header. */
  function ExtractRefreshToken(candidate: Option<string>, cookie: Option<string>, header: Option<string>): (r: Option<string>)
    ensures Truthy(candidate) ==> r == candidate
    ensures !Truthy(candidate) && Truthy(cookie) ==> r == cookie
    ensures !Truthy(candidate) && !Truthy(cookie) ==> r == (if Truthy(header) then header else None)
  {
    var candidates := [candidate, cookie, header];
    assert candidates[0] == candidate && candidates[1] == cookie && candidates[2] == header;
    FirstTruthy(candidates)
  }

  /** `refreshSessionHandler`: no token 401, otherwise the rotation and its errors as they are. */
  function RefreshSession(c: Crypto, cfg: Config, st: Store, candidate: Option<string>, cookie: Option<string>,
                          header: Option<string>, client: Client, refreshBytes: seq<Byte>, now: nat)
    : (r: (Store, Result<Issued>))
    requires UniqueHashes(st.sessions) && |refreshBytes| == 64
    ensures ExtractRefreshToken(candidate, cookie, header).None? ==> r == (st, Fail(401, REFRESH_REQUIRED))
    ensures ExtractRefreshToken(candidate, cookie, header).Some? ==>
      var (ss, res) := SessionPy.RotateSession(c, cfg, st.sessions, st.users, ExtractRefreshToken(candidate, cookie, header).value,
                                               client.userAgent, client.ipAddress, refreshBytes, now);
      r == (st.(sessions := ss), res)
  {
    match ExtractRefreshToken(candidate, cookie, header)
    case None => (st, Fail(401, REFRESH_REQUIRED))
    case Some(token) =>
      var (ss, res) := SessionPy.RotateSession(c, cfg, st.sessions, st.users, token, client.userAgent, client.ipAddress,
                                               refreshBytes, now);
      (st.(sessions := ss), res)
  }

  /**
   * `logout`: the authenticated session when there is one, otherwise the
   * session of the refresh token from the cookie or header, if any.
   */
  function Logout(c: Crypto, env: Env, st: Store, authSessionId: Option<string>, cookie: Option<string>, header: Option<string>,
                  now: int): (r: Result<Store>)
    ensures Truthy(authSessionId) ==>
      r == (match SessionPy.RevokeSession(st.sessions, authSessionId.value, now)
            case Ok(ss) => Ok(st.(sessions := ss))
            case Err(e) => Err(e))
    ensures !Truthy(authSessionId) && ExtractRefreshToken(None, cookie, header).None? ==> r == Ok(st)
    ensures r.Ok? ==> r.value.users == st.users && r.value.sessions.Keys == st.sessions.Keys
  {
    if Truthy(authSessionId) then
      match SessionPy.RevokeSession(st.sessions, authSessionId.value, now)
      case Ok(ss) => Ok(st.(sessions := ss))
      case Err(e) => Err(e)
    else
      match ExtractRefreshToken(None, cookie, header)
      case None => Ok(st)
      case Some(token) =>
        match SessionPy.RevokeByRefreshToken(c, env, st.sessions, token, now)
        case Ok(ss) => Ok(st.(sessions := ss))
        case Err(e) => Err(e)
  }

  /** `logoutAll`: every open session of the authenticated user is revoked. */
  function LogoutAll(st: Store, user: Option<Id>, now: int): (r: Result<Store>)
    ensures user.None? ==> r == Ok(st)
    ensures r.Ok? ==> r.value.users == st.users && r.value.sessions.Keys == st.sessions.Keys
    ensures user.Some? && IsCanonicalId(user.value) ==> r.Ok? && forall k :: k in st.sessions ==>
      (st.sessions[k].user == user.value ==> r.value.sessions[k].revokedAt.Some?) &&
      (st.sessions[k].user != user.value ==> r.value.sessions[k] == st.sessions[k])
  {
    match user
    case None => Ok(st)
    case Some(uid) =>
      match SessionPy.RevokeAllUserSessions(st.sessions, uid, now)
      case Ok(ss) => Ok(st.(sessions := ss))
      case Err(e) => Err(e)
  }

  /** After `logoutAll` no session of the user is live, at any later time. */
  lemma LogoutAllShutsOut(st: Store, uid: Id, now: int, k: Id, t: int)
    requires IsCanonicalId(uid) && k in st.sessions && st.sessions[k].user == uid
    ensures LogoutAll(st, Some(uid), now).Ok?
    ensures !Live(LogoutAll(st, Some(uid), now).value.sessions[k], t)
  {
    ParseCanonical(uid);
  }

  /** `requestPasswordReset`: unknown 404, unverified 400, then a password-reset code. */
  function RequestPasswordReset(c: Crypto, lim: Limits, st: Store, email: string, otpDraw: nat, otpSalt: nat, now: int): (r: Result<(Store, Sent)>)
    requires UniqueEmails(st.users)
    requires 100000 <= otpDraw <= 999999
    ensures FindByEmail(st.users, Lower(email)).None? ==> r == Fail(404, RESET_UNKNOWN)
    ensures FindByEmail(st.users, Lower(email)).Some? && !st.users[FindByEmail(st.users, Lower(email)).value].emailVerified
            ==> r == Fail(400, RESET_UNVERIFIED)
    ensures r.Ok? ==> r.value.0.users.Keys == st.users.Keys
    ensures r.Ok? ==> var uid := FindByEmail(st.users, Lower(email)).value;
      st.users[uid].emailVerified &&
      OtpPy.AssignOtp(c, lim, st.users[uid], "passwordReset", otpDraw, otpSalt, now) == Ok((r.value.0.users[uid], r.value.1)) &&
      r.value.0 == st.(users := st.users[uid := r.value.0.users[uid]])
  {
    match FindByEmail(st.users, Lower(email))
    case None => Fail(404, RESET_UNKNOWN)
    case Some(uid) =>
      if !st.users[uid].emailVerified then Fail(400, RESET_UNVERIFIED)
      else
        match OtpPy.AssignOtp(c, lim, st.users[uid], "passwordReset", otpDraw, otpSalt, now)
        case Err(e) => Err(e)
        case Ok((user1, sent)) => Ok((st.(users := st.users[uid := user1]), sent))
  }

  /**
   * `resetPassword`: an unknown email gets the generic success and nothing
   * happens; otherwise the code is checked first (a wrong guess is saved),
   * then all the user's open sessions are revoked, then the password hash is
   * replaced, then one new session is opened.
   */
  function ResetPassword(c: Crypto, lim: Limits, cfg: Config, st: Store, email: string, otp: string, newPassword: string, passwordSalt: nat,
                         d: SessionDraw, client: Client, now: nat): (r: (Store, Result<Option<Issued>>))
    requires UniqueEmails(st.users) && FreshDraw(st, d)
    ensures FindByEmail(st.users, Lower(email)).None? ==> r == (st, Ok(None))
    ensures FindByEmail(st.users, Lower(email)).Some? &&
            OtpPy.VerifyOtp(c, lim, st.users[FindByEmail(st.users, Lower(email)).value], "passwordReset", otp, now).1.Err? ==>
      r.1.Err? && r.0.sessions == st.sessions
    ensures r.1.Ok? && r.1.value.Some? ==> var uid := FindByEmail(st.users, Lower(email)).value;
      OtpPy.VerifyOtp(c, lim, st.users[uid], "passwordReset", otp, now).1.Ok? &&
      uid in r.0.users && r.0.users[uid].passwordHash == c.bcryptHash(newPassword, passwordSalt) &&
      ResetSessions(st.sessions, r.0.sessions, uid, d.sessionId, now)
  {
    match FindByEmail(st.users, Lower(email))
    case None => (st, Ok(None))
    case Some(uid) =>
      var (user1, verified) := OtpPy.VerifyOtp(c, lim, st.users[uid], "passwordReset", otp, now);
      if verified.Err? then (st.(users := st.users[uid := user1]), Err(verified.error))
      else CompleteReset(c, cfg, st, uid, user1.(passwordHash := c.bcryptHash(newPassword, passwordSalt)), d, client, now)
  }

  /** The tail of a reset once the code has matched: revoke, save the new hash, open a session. */
  function CompleteReset(c: Crypto, cfg: Config, st: Store, uid: Id, user: User, d: SessionDraw, client: Client, now: nat)
    : (r: (Store, Result<Option<Issued>>))
    requires FreshDraw(st, d)
    ensures r.1.Ok? ==> r.1.value.Some? && r.0.users == st.users[uid := user] &&
                        ResetSessions(st.sessions, r.0.sessions, uid, d.sessionId, now)
  {
    var st1 := Store(st.users[uid := user], RevokeOpenOfUser(st.sessions, uid, now));
    var (st2, issued) := IssueSession(c, cfg, st1, uid, user.role, d, client, now);
    match issued
    case Err(e) => (st2, Err(e))
    case Ok(i) =>
      RevokeThenAdd(st.sessions, uid, d.sessionId, now,
                    Session(uid, HashToken(c, HexEncode(d.refreshBytes)), now + cfg.refreshMs, None, client.userAgent, client.ipAddress));
      (st2, Ok(Some(i)))
  }

  lemma RevokeThenAdd(before: Sessions, uid: Id, sid: Id, now: int, s: Session)
    requires sid !in before && s.user == uid
    ensures ResetSessions(before, RevokeOpenOfUser(before, uid, now)[sid := s], uid, sid, now)
  {
  }

  /**
   * What a completed reset leaves in the session store: every session the
   * user had before is revoked (an earlier stamp is kept), nobody else's is
   * touched, and the one new session belongs to the user.
   */
  predicate ResetSessions(before: Sessions, after: Sessions, uid: Id, sid: Id, now: int)
  {
    sid !in before && after.Keys == before.Keys + {sid} && after[sid].user == uid &&
    forall k :: k in before ==>
      after[k] == (if before[k].user == uid && before[k].revokedAt.None? then before[k].(revokedAt := Some(now)) else before[k])
  }

  /** After a reset none of the user's earlier sessions can be used, at any time. */
  lemma ResetShutsOldSessions(before: Sessions, after: Sessions, uid: Id, sid: Id, now: int, k: Id, t: int)
    requires ResetSessions(before, after, uid, sid, now)
    requires k in before && before[k].user == uid
    ensures k in after && !Live(after[k], t)
  {
  }

  /** The payload of an address request (`AddressPayload`). */
  datatype AddressPayload = AddressPayload(
    addressLabel: Option<string>,
    contactName: Option<string>,
    phone: Option<string>,
    line1: string,
    line2: Option<string>,
    city: string,
    state: string,
    postalCode: string,
    country: string)

  /** The country rule: default "IN", trimmed, and upper-cased only when at most three characters long. */
  function NormaliseCountry(country: Option<string>): (r: string)
    ensures |Trim(OrElse(country, "IN"))| <= 3 ==> r == Upper(Trim(OrElse(country, "IN")))
    ensures |Trim(OrElse(country, "IN"))| > 3 ==> r == Trim(OrElse(country, "IN"))
  {
    var t := Trim(OrElse(country, "IN"));
    if |t| <= 3 then Upper(t) else t
  }

  /**
   * `addAddress`: at most five addresses (400 at five); contact name and
   * phone default to the account's and are trimmed, and must not end up
   * empty (422); the new address goes at the end under a fresh id.
   */
  function AddAddress(user: Option<User>, payload: AddressPayload, newId: string): (r: Result<User>)
    ensures user.None? ==> r == Fail(401, "Authentication required")
    ensures user.Some? && |user.value.addresses| >= MAX_ADDRESSES ==> r == Fail(400, "Maximum of 5 addresses allowed.")
    ensures r.Ok? ==> (user.Some? && |user.value.addresses| < MAX_ADDRESSES &&
      |r.value.addresses| == |user.value.addresses| + 1 &&
      r.value == user.value.(addresses := user.value.addresses + [r.value.addresses[|user.value.addresses|]]))
    ensures r.Ok? ==> var a := r.value.addresses[|user.value.addresses|];
      a.id == newId && a.contactName == Some(Trim(OrElse(payload.contactName, user.value.fullName))) &&
      a.phone == Some(Trim(OrElse(payload.phone, OrElse(user.value.phone, "")))) &&
      a.contactName.value != [] && a.phone.value != [] &&
      a.country == NormaliseCountry(Some(payload.country)) && a.line1 == payload.line1
    ensures r.Err? && user.Some? && |user.value.addresses| < MAX_ADDRESSES ==> r.error.Http? && r.error.status == 422
  {
    match user
    case None => Fail(401, "Authentication required")
    case Some(u) =>
      if |u.addresses| >= MAX_ADDRESSES then Fail(400, "Maximum of 5 addresses allowed.")
      else
        var contactName := Trim(OrElse(payload.contactName, OrElse(Some(u.fullName), "")));
        var phone := Trim(OrElse(payload.phone, OrElse(u.phone, "")));
        var country := NormaliseCountry(Some(payload.country));
        if contactName == [] then Fail(422, "Contact name is required.")
        else if phone == [] then Fail(422, "Phone is required.")
        else
          var a := Address(newId, payload.addressLabel, Some(contactName), Some(phone), payload.line1, payload.line2,
                           payload.city, payload.state, payload.postalCode, country);
          Ok(u.(addresses := u.addresses + [a]))
  }

  /** The address book never grows past five through `addAddress`. */
  lemma AddAddressKeepsLimit(user: User, payload: AddressPayload, newId: string)
    requires |user.addresses| <= MAX_ADDRESSES
    ensures AddAddress(Some(user), payload, newId).Ok? ==> |AddAddress(Some(user), payload, newId).value.addresses| <= MAX_ADDRESSES
  {
  }

  /** `_find_address`: the position of the first address with the id. */
  function FindAddress(addresses: seq<Address>, id: string): (r: Option<nat>)
    ensures r.None? <==> forall i :: 0 <= i < |addresses| ==> addresses[i].id != id
    ensures r.Some? ==> r.value < |addresses| && addresses[r.value].id == id &&
                        forall j :: 0 <= j < r.value ==> addresses[j].id != id
  {
    if |addresses| == 0 then None
    else if addresses[0].id == id then Some(0)
    else
      match FindAddress(addresses[1..], id)
      case None => None
      case Some(i) => Some(i + 1)
  }

  /**
   * The address `updateAddress` writes: every payload field is applied (the
   * validated payload always carries all of them); contact name and phone
   * fall back to the stored address and then the account, the country to
   * the stored one and then "IN"; a contact name that trims to nothing is
   * replaced by the account's full name.
   */
  function UpdatedAddress(user: User, stored: Address, payload: AddressPayload): (a: Address)
    ensures a.id == stored.id && a.addressLabel == payload.addressLabel && a.line1 == payload.line1 &&
            a.line2 == payload.line2 && a.city == payload.city && a.state == payload.state &&
            a.postalCode == payload.postalCode
    ensures a.phone == Some(Trim(OrElse(payload.phone, OrElse(stored.phone, OrElse(user.phone, "")))))
    ensures Trim(OrElse(payload.contactName, OrElse(stored.contactName, user.fullName))) != [] ==>
            a.contactName == Some(Trim(OrElse(payload.contactName, OrElse(stored.contactName, user.fullName))))
    ensures Trim(OrElse(payload.contactName, OrElse(stored.contactName, user.fullName))) == [] ==>
            a.contactName == Some(user.fullName)
    ensures a.country == NormaliseCountry(Some(OrElse(Some(payload.country), stored.country)))
  {
    var contactName := Trim(OrElse(payload.contactName, OrElse(stored.contactName, OrElse(Some(user.fullName), ""))));
    var phone := Trim(OrElse(payload.phone, OrElse(stored.phone, OrElse(user.phone, ""))));
    var country := NormaliseCountry(Some(OrElse(Some(payload.country), OrElse(Some(stored.country), "IN"))));
    Address(stored.id, payload.addressLabel, Some(if contactName == [] then user.fullName else contactName), Some(phone),
            payload.line1, payload.line2, payload.city, payload.state, payload.postalCode, country)
  }

  /**
   * `updateAddress`: 404 when no address has the id; otherwise the first
   * one with it is rewritten in place, unless its phone ends up empty (422,
   * nothing saved).
   */
  function UpdateAddress(user: Option<User>, addressId: string, payload: AddressPayload): (r: Result<User>)
    ensures user.None? ==> r == Fail(401, "Authentication required")
    ensures user.Some? && FindAddress(user.value.addresses, addressId).None? ==> r == Fail(404, "Address not found.")
    ensures user.Some? && FindAddress(user.value.addresses, addressId).Some? ==>
      var i := FindAddress(user.value.addresses, addressId).value;
      var a := UpdatedAddress(user.value, user.value.addresses[i], payload);
      (a.phone.value == [] ==> r == Fail(422, "Phone is required.")) &&
      (a.phone.value != [] ==> r == Ok(user.value.(addresses := user.value.addresses[i := a])))
  {
    match user
    case None => Fail(401, "Authentication required")
    case Some(u) =>
      match FindAddress(u.addresses, addressId)
      case None => Fail(404, "Address not found.")
      case Some(i) =>
        var a := UpdatedAddress(u, u.addresses[i], payload);
        if a.phone.value == [] then Fail(422, "Phone is required.")
        else Ok(u.(addresses := u.addresses[i := a]))
  }

  /** An update keeps the number of addresses and every id, so the address stays deletable. */
  lemma UpdateKeepsIds(user: User, addressId: string, payload: AddressPayload)
    requires UpdateAddress(Some(user), addressId, payload).Ok?
    ensures var u1 := UpdateAddress(Some(user), addressId, payload).value;
      |u1.addresses| == |user.addresses| &&
      (forall i :: 0 <= i < |user.addresses| ==> u1.addresses[i].id == user.addresses[i].id) &&
      DeleteAddress(Some(u1), addressId).Ok?
  {
    var i := FindAddress(user.addresses, addressId).value;
    var a := UpdatedAddress(user, user.addresses[i], payload);
    assert UpdateAddress(Some(user), addressId, payload).value.addresses == user.addresses[i := a];
    ReplaceKeepsIds(user.addresses, i, a);
  }

  /** Replacing one address by one with the same id keeps the count, every id, and the id findable. */
  lemma ReplaceKeepsIds(addresses: seq<Address>, i: nat, a: Address)
    requires i < |addresses| && a.id == addresses[i].id
    ensures |addresses[i := a]| == |addresses|
    ensures forall j :: 0 <= j < |addresses| ==> addresses[i := a][j].id == addresses[j].id
    ensures FindAddress(addresses[i := a], a.id).Some?
  {
    assert addresses[i := a][i].id == a.id;
  }

  /** The addresses whose id is not `id`, in their original order. */
  function WithoutAddress(addresses: seq<Address>, id: string): (r: seq<Address>)
    ensures forall a :: a in r <==> a in addresses && a.id != id
    ensures |r| <= |addresses|
    ensures |r| == |addresses| <==> forall i :: 0 <= i < |addresses| ==> addresses[i].id != id
  {
    if |addresses| == 0 then []
    else
      var rest := WithoutAddress(addresses[1..], id);
      assert forall i :: 1 <= i < |addresses| ==> addresses[i] == addresses[1..][i - 1];
      if addresses[0].id != id then [addresses[0]] + rest else rest
  }

  /** Removing an id keeps the others in order: removal distributes over concatenation. */
  lemma {:induction false} WithoutAddressAppend(a: seq<Address>, b: seq<Address>, id: string)
    ensures WithoutAddress(a + b, id) == WithoutAddress(a, id) + WithoutAddress(b, id)
  {
    if |a| > 0 {
      assert (a + b)[1..] == a[1..] + b;
      WithoutAddressAppend(a[1..], b, id);
    } else {
      assert a + b == b;
    }
  }

  /** `deleteAddress`: removes every address with the id, keeping the rest in order; 404 when none had it. */
  function DeleteAddress(user: Option<User>, addressId: string): (r: Result<User>)
    ensures user.None? ==> r == Fail(401, "Authentication required")
    ensures user.Some? ==> (r.Ok? <==> FindAddress(user.value.addresses, addressId).Some?)
    ensures r.Err? && user.Some? ==> r.error == Http(404, "Address not found.")
    ensures r.Ok? ==> r.value == user.value.(addresses := WithoutAddress(user.value.addresses, addressId))
  {
    match user
    case None => Fail(401, "Authentication required")
    case Some(u) =>
      var kept := WithoutAddress(u.addresses, addressId);
      if |kept| == |u.addresses| then Fail(404, "Address not found.")
      else Ok(u.(addresses := kept))
  }

  /** Removing an id no address has leaves the book as it is. */
  lemma {:induction false} WithoutAbsent(addresses: seq<Address>, id: string)
    requires forall i :: 0 <= i < |addresses| ==> addresses[i].id != id
    ensures WithoutAddress(addresses, id) == addresses
  {
    if |addresses| > 0 {
      WithoutAbsent(addresses[1..], id);
      assert [addresses[0]] + addresses[1..] == addresses;
    }
  }

  /** Adding an address and then deleting it by its id restores the book, if the id was new. */
  lemma AddThenDelete(user: User, payload: AddressPayload, newId: string)
    requires forall i :: 0 <= i < |user.addresses| ==> user.addresses[i].id != newId
    requires AddAddress(Some(user), payload, newId).Ok?
    ensures DeleteAddress(Some(AddAddress(Some(user), payload, newId).value), newId) == Ok(user)
  {
    var u1 := AddAddress(Some(user), payload, newId).value;
    var a := u1.addresses[|user.addresses|];
    assert a.id == newId;
    assert u1.addresses == user.addresses + [a];
    WithoutAddressAppend(user.addresses, [a], newId);
    WithoutAbsent(user.addresses, newId);
    assert WithoutAddress([a], newId) == [];
    assert WithoutAddress(u1.addresses, newId) == user.addresses;
    assert DeleteAddress(Some(u1), newId) == Ok(u1.(addresses := user.addresses));
    assert u1.(addresses := user.addresses) == user;
  }
}
