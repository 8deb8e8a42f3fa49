/**
 * The `users` collection: accounts with a role, an address book and two
 * one-time-password buckets (`emailVerification`, `passwordReset`).
 */
module Users {

  import opened Base
  import opened Ids

  datatype Role = Customer | Admin
  {
    function Name(): string
    {
      match this
      case Customer => "customer"
      case Admin => "admin"
    }
  }

  /**
   * One OTP bucket. Only a bcrypt hash of the code is kept; `sentHistory`
   * holds the send times used by the rolling daily cap.
   */
  datatype OtpState = OtpState(
    otpHash: Option<string>,
    otpExpiresAt: Option<int>,
    attempts: int,
    sentHistory: seq<int>)

  const EMPTY_OTP: OtpState := OtpState(None, None, 0, [])

  datatype Address = Address(
    id: string,
    addressLabel: Option<string>,
    contactName: Option<string>,
    phone: Option<string>,
    line1: string,
    line2: Option<string>,
    city: string,
    state: string,
    postalCode: string,
    country: string)

  datatype User = User(
    fullName: string,
    email: string,
    passwordHash: string,
    phone: Option<string>,
    role: Role,
    addresses: seq<Address>,
    isActive: bool,
    emailVerified: bool,
    emailVerifiedAt: Option<int>,
    emailVerification: OtpState,
    passwordReset: OtpState)

  type Users = map<Id, User>

  /** A user document with the schema defaults: customer, active, unverified, empty buckets. */
  function NewUser(fullName: string, email: string, passwordHash: string, phone: Option<string>): (u: User)
    ensures u.role == Customer && u.isActive && !u.emailVerified
    ensures u.addresses == [] && u.emailVerification == EMPTY_OTP && u.passwordReset == EMPTY_OTP
  {
    User(fullName, email, passwordHash, phone, Customer, [], true, false, None, EMPTY_OTP, EMPTY_OTP)
  }

  /** The account whose (already lower-cased) email matches, if any. */
  function FindByEmail(users: Users, email: string): (r: Option<Id>)
    requires UniqueEmails(users)
    ensures r.Some? ==> r.value in users && users[r.value].email == email
    ensures r.None? ==> forall k :: k in users ==> users[k].email != email
  {
    if exists k :: k in users && users[k].email == email then
      var k :| k in users && users[k].email == email;
      Some(k)
    else None
  }

  /** The unique index on `email`. */
  predicate UniqueEmails(users: Users)
  {
    forall a, b :: a in users && b in users && users[a].email == users[b].email ==> a == b
  }
}
