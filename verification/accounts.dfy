/**
 * The state the authentication code reads and writes (the `users` and
 * `sessions` collections) and what a request brings along with it.
 */
module Accounts {

  import opened Base
  import opened Text
  import opened Ids
  import opened Users
  import opened Sessions

  datatype Store = Store(users: Users, sessions: Sessions)

  /** What a request reveals about its client: the user agent header and the peer address. */
  datatype Client = Client(userAgent: Option<string>, ipAddress: Option<string>)

  /** The randomness opening a session consumes: a new document id and the 64 bytes of a refresh token. */
  datatype SessionDraw = SessionDraw(sessionId: Id, refreshBytes: seq<Byte>)

  predicate FreshDraw(st: Store, d: SessionDraw)
  {
    d.sessionId !in st.sessions && |d.refreshBytes| == 64
  }
}
