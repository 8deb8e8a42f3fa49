# Online Annavaram: a model of the storefront and admin backends

Online Annavaram is a small online shop. It has a Python (FastAPI and
Beanie) storefront backend, an older JavaScript (Express and Mongoose)
storefront backend kept in parallel, an admin backend, a shop client
and an admin client. This project models their core decision logic in
Dafny as pure functions over immutable state, and proves what that logic
promises.

- **Sessions and refresh tokens.** A refresh token has the form
  `random.signature`, and only the SHA-256 of its random part is stored.
  The model covers duration parsing, token generation and extraction,
  session creation, validation, single-use rotation and revocation. Both
  backends are modelled, side by side, together with the points where
  they differ (`SessionPy`, `SessionJs`, `Sessions`, `SessionCompare`,
  `Duration`, `Hex`).
- **One-time codes.** Each user has two independent buckets, one for
  email verification and one for password reset. Each bucket has a
  rolling 24-hour send cap, an attempt counter and an expiry (`Otp`,
  `OtpPy`, `OtpJs`).
- **Authentication.** This covers the bearer-token middleware, the role
  and ownership predicates, and the auth controllers' decision
  sequences: signup, login, resend, verify, refresh, logout, password
  reset and the address book (`AuthMiddlewarePy`, `RbacPy`,
  `AuthControllerPy`, `AuthControllerJs`, `Users`).
- **Cart and checkout.** This covers:
  - cart snapshot arithmetic, stock verification and the cart mutation
    rules (`Carts`, `CartServicePy`, `CartServiceJs`,
    `CartControllerPy`, `CartControllerJs`);
  - order creation, a fixed sequence of writes with a compensating
    delete when the payment gateway fails, while the stock decrement is
    kept (`Checkout`, `OrderControllerPy`, `OrderControllerJs`);
  - client-confirmed Razorpay payment verification, an HMAC over
    `orderId|paymentId` (`PaymentServicePy`, `PaymentServiceJs`,
    `PaymentControllerPy`, `PaymentControllerJs`).
- **Catalogue.** This covers:
  - the product and order models' field synchronisation (`Catalog`,
    `Orders`, `Shop`);
  - product listing, its filters and pagination (`ProductListing`,
    `Paging`, `ProductControllerPy`, `ProductControllerJs`, `JsValues`);
  - reviews and wishlists (`ReviewControllerPy`,
    `WishlistControllerPy`).
- **Request validation.** This covers the JS middleware that builds body
  validators and the route schemas (`ValidateRequestJs`,
  `RouteValidatorsJs`).
- **Admin backend.** This covers:
  - the product, category, order and review controllers with their
    models' save hooks (`AdminCatalog`, `AdminOrders`, `AdminReviews`,
    `AdminProductController`, `AdminCategoryController`,
    `AdminOrderController`, `AdminReviewController`);
  - the database migration's pure rules (`Migration`).
- **Clients.** This covers:
  - cart totals and normalisation, product identifiers, the wishlist,
    toasts and the home page reducer (`ClientCart`, `ClientProducts`,
    `ClientWishlist`, `ClientToasts`, `HomeReducer`);
  - the status labels and the order tracker (`StatusFormat`,
    `ProfilePage`, `AdminUtils`).

## How the world is modelled

- **Collections.** The users, sessions, carts, orders, products,
  reviews and wishlists collections are maps keyed by the object id's
  lower-case hex text. Every write function returns the new map
  together with its answer.
- **Time and randomness.** The current time (milliseconds) and every
  random value (token parts, OTP codes, new ids) are parameters.
- **Cryptography.** SHA-256, HMAC-SHA256, bcrypt and JWT signing and
  verification are uninterpreted functions collected in a `Crypto`
  record. A lemma that needs one of them to be injective says so in its
  own `requires`.
- **Errors.** An error is either an HTTP error with its status and
  message (`Http`), or an exception that the server turns into a 500
  (`Crash`, for a Python `ValueError` or a JavaScript `TypeError` or
  plain `Error`).
- **Money.** Money is integer paise.
- **Text.** Strings are sequences of characters, with ASCII case
  mapping and whitespace.
- **Mongoose and Pydantic.** Mongoose schema validation runs before the
  pre-save hooks. Pydantic validates every document Beanie loads: the
  `before` validators, then the field bounds, then `sync_fields`. Saves
  are not validated again. The field bounds are stated as
  `Catalog.LoadablePy`, but the loaders do not refuse a document outside
  them (see "Left out").
- **Payment confirmation as the code does it.**
  - There is no webhook handler. Only the client-confirmed payment path
    exists.
  - On a confirmed payment, the code overwrites the payment's raw
    response rather than appending to it.
  - A confirmed payment neither deducts stock again nor clears the cart.
    Stock is decremented once, at order creation.
  - The Python backend has no "already captured" guard. Only the
    JavaScript one short-circuits a repeated confirmation.

## Model

| member | source | states |
|---|---|---|
| SessionPy.GetSecret | backend/src/services/sessionService.py:25-29 | a secret is returned exactly when it is set and non-empty; otherwise status 500 "`<name>` is not configured" |
| SessionPy.GenerateRefreshToken | backend/src/services/sessionService.py:57-61 | the token is the hex of the 64 random bytes, one dot, then the hex HMAC of that text under the refresh secret; a missing secret is 500 |
| SessionPy.ExtractRefreshComponents | backend/src/services/sessionService.py:64-75 | a token that does not split into exactly two parts is 401; an accepted token yields its first part, with the secret configured |
| SessionPy.ExtractAcceptsOnlySigned | backend/src/services/sessionService.py:64-75 | only signed tokens pass: an accepted token is its random part, a dot, and the HMAC of that part (up to hex case) |
| SessionPy.ExtractGenerated | backend/src/services/sessionService.py:57-75 | round trip: extracting from a freshly generated token gives back its random part |
| SessionPy.NewRefreshToken | backend/src/services/sessionService.py:128-129 | the fresh token and the random part read back from it, which is the hex of the drawn bytes |
| SessionPy.ExtractNonHexCrashes | backend/src/services/sessionService.py:71 | a signature that is not hex raises an uncaught ValueError (a crash), not the 401 |
| SessionPy.ExtractAcceptsUpperCase | backend/src/services/sessionService.py:71-74 | the signature is compared as bytes, so an upper-case spelling of the HMAC is accepted too |
| SessionPy.SignAccessToken | backend/src/services/sessionService.py:78-90 | the access token carries the user id, session id and role, expires at now plus the access lifetime, and needs the access secret |
| SessionPy.SignAccessTokenTimes | backend/src/services/sessionService.py:86-87 | `iat` and `exp` are the issue and expiry times truncated to whole seconds |
| SessionPy.TruncSecondsBounds | backend/src/services/sessionService.py:86-87 | `int(timestamp())` truncates toward zero: below a non-negative time, above a negative one, within one second |
| SessionPy.VerifyAccessToken | backend/src/services/sessionService.py:93-98 | claims are returned iff the secret is set and the JWT decodes; any decode failure is 401 "Invalid or expired access token" |
| SessionPy.CreateSession | backend/src/services/sessionService.py:127-150 | stores only the hash of the random part with expiry now plus the refresh lifetime; the returned token extracts to that random part; hashes stay unique |
| SessionPy.StoreAndSign | backend/src/services/sessionService.py:141-150 | the session is inserted before the access token is signed; a failure to sign leaves the store unchanged only when the access secret is configured |
| SessionPy.ValidateSession | backend/src/services/sessionService.py:153-164 | succeeds iff both ids parse, the session exists, belongs to the user and is neither revoked nor expired; every failure is 401 |
| SessionPy.ValidateRevokedFirst | backend/src/services/sessionService.py:159-160 | revocation is reported before expiry |
| SessionPy.ValidateAtExpiry | backend/src/services/sessionService.py:161-163 | a session whose expiry equals now is still valid (strict `<`) |
| SessionPy.CreatedSessionValidates | backend/src/services/sessionService.py:127-164 | a newly created session validates for its owner at any time up to its refresh expiry |
| SessionPy.RotateLookup | backend/src/services/sessionService.py:167-183 | the checks in order: token, unknown hash (401 "Invalid refresh token"), revoked, expired, inactive owner; success names a live session carrying the token's hash |
| SessionPy.RotateCommit | backend/src/services/sessionService.py:185-202 | the session alone is changed: new hash, expiry now plus the lifetime, new agent and address, revocation cleared |
| SessionPy.RotateSession | backend/src/services/sessionService.py:167-202 | a failing check leaves the store as it was; success changes only the rotated session and hands out a token that extracts to the new random part |
| SessionPy.RotateFresh | backend/src/services/sessionService.py:185-202 | the writes after the checks keep hashes unique and change only the named session |
| SessionPy.RotateSingleUse | backend/src/services/sessionService.py:167-173 | a rotated token cannot be rotated again: the second attempt is 401 "Invalid refresh token" |
| SessionPy.RotateUnknownHash | backend/src/services/sessionService.py:171-173 | a well-signed token whose hash no session carries is refused and changes nothing |
| SessionPy.RotateDropsOldHash | backend/src/services/sessionService.py:187 | after a rotation no session carries the presented token's hash |
| SessionPy.RotateRevokedBeforeExpired | backend/src/services/sessionService.py:174-179 | a revoked session is reported "Session revoked" even when it has also expired |
| SessionPy.RevokeSession | backend/src/services/sessionService.py:205-207 | an invalid id is 401; otherwise the stamp is written, whether or not one was there, and every other session is unchanged |
| SessionPy.RevokeByRefreshToken | backend/src/services/sessionService.py:210-216 | a SessionError from extraction is swallowed and nothing changes; a non-hex signature's ValueError escapes; the keys are kept |
| SessionPy.RevokeAllUserSessions | backend/src/services/sessionService.py:219-223 | an invalid id is 401; every session of the user ends up revoked, and the other users' and already-revoked sessions are untouched |
| SessionPy.RevokedSessionRejected | backend/src/services/sessionService.py:153-207 | a revoked session never validates again, at any time |
| SessionPy.RevokedUserRejected | backend/src/services/sessionService.py:153-223 | after revoking all of a user's sessions, none of them validates |
| SessionPy.RevokedTokenCannotRotate | backend/src/services/sessionService.py:167-216 | after revoking by a token, rotating with that token is 401 "Session revoked" |
| Sessions.SignedToken | backend/src/services/sessionService.py:57-61 | the token splits at its one dot into the random part and that part's HMAC |
| Sessions.Renewed | backend/src/services/sessionService.py:187-191 | a rotated session keeps its owner and takes the new hash, expiry, agent and address, with no revocation stamp |
| Sessions.FindByHash | backend/src/models/Session.js:13-18 | under the unique index a lookup by hash finds a session iff one carries that hash, and it is the one that does |
| Sessions.Insert | backend/src/models/Session.js:13-18 | an insert succeeds iff no session already carries the hash; it adds exactly the new document and keeps hashes unique |
| Sessions.Save | backend/src/models/Session.js:13-18 | a save succeeds iff no other session carries the new hash; it replaces exactly that document |
| Sessions.RevokeHash | backend/src/services/sessionService.py:216 | every session with the hash is stamped and every other one is unchanged |
| Sessions.RevokeOpenOfUser | backend/src/services/sessionService.py:219-223 | exactly the user's sessions without a stamp are stamped |
| Sessions.RevokeHashKeepsUnique | backend/src/models/Session.js:13-18 | stamping by hash keeps hashes unique |
| Sessions.RevokeOpenKeepsUnique | backend/src/models/Session.js:13-18 | stamping a user's sessions keeps hashes unique |
| Sessions.RevokeAllEffect | backend/src/services/sessionService.py:219-223 | afterwards none of the user's sessions is live, other users' sessions are untouched, and earlier stamps survive |
| Sessions.RevokeAllIdempotent | backend/src/services/sessionService.py:221 | revoking the same user's sessions again changes nothing, because only null stamps are written |
| Sessions.ReplaceDropsHash | backend/src/services/sessionService.py:187 | replacing the hash of the one session that carried it leaves no session carrying it |
| SessionJs.EnsureSecret | backend/src/services/sessionService.js:11-15 | returns the secret iff it is set and non-empty; otherwise a plain Error without a status |
| SessionJs.CastId | backend/src/services/sessionService.js:141 | a query id that is not an object id throws a CastError |
| SessionJs.GenerateRefreshToken | backend/src/services/sessionService.js:53-58 | the same token shape as the Python service; a missing secret is a plain Error |
| SessionJs.ExtractRefreshComponents | backend/src/services/sessionService.js:87-108 | accepted iff the token has two parts, the secret is set and Node's lenient hex reading of the signature equals the HMAC bytes; yields the random part |
| SessionJs.ExtractGenerated | backend/src/services/sessionService.js:53-108 | round trip: extracting from a generated token gives back its random part |
| SessionJs.ExtractMissing | backend/src/services/sessionService.js:88-93 | a missing token is the same 401 as a malformed one |
| SessionJs.ExtractIgnoresTrailingJunk | backend/src/services/sessionService.js:97-101 | anything appended to a genuine signature from a non-hex pair on is ignored, and the token is accepted |
| SessionJs.ExtractNonHexRejected | backend/src/services/sessionService.js:97-105 | a signature that does not start with a hex pair reads as no bytes: 401, not a crash |
| SessionJs.SignAccessToken | backend/src/services/sessionService.js:60-80 | claims carry the user, session and role; the reported expiry is `exp` in milliseconds; a missing secret is a plain Error |
| SessionJs.SignAccessTokenRoundsDown | backend/src/services/sessionService.js:62-78 | both roundings go down: the reported expiry is at most now plus the lifetime and less than two seconds short of it |
| SessionJs.VerifyAccessToken | backend/src/services/sessionService.js:82-85 | claims are returned iff the secret is set and the token verifies; every failure has no status |
| SessionJs.NewRefreshToken | backend/src/services/sessionService.js:111-112 | the fresh token reads back to the hex of the drawn bytes |
| SessionJs.CreateSession | backend/src/services/sessionService.js:110-138 | stores only the hash of the random part with expiry now plus the refresh lifetime; the token extracts to that random part |
| SessionJs.StoreAndSign | backend/src/services/sessionService.js:116-137 | the document is created before the access token is signed |
| SessionJs.ValidateSession | backend/src/services/sessionService.js:140-161 | ids that do not cast throw; otherwise it succeeds iff the session exists, belongs to the user and is live |
| SessionJs.RotateLookup | backend/src/services/sessionService.js:163-192 | the checks in order: secret, token, unknown hash, expiry BEFORE revocation, inactive owner |
| SessionJs.RotateCommit | backend/src/services/sessionService.js:194-216 | only the rotated session changes: new hash, expiry now plus the lifetime, new agent and address, no stamp |
| SessionJs.RotateFresh | backend/src/services/sessionService.js:194-216 | the writes after the checks change only the named session and keep hashes unique |
| SessionJs.RotateSession | backend/src/services/sessionService.js:163-216 | a failing check leaves the store as it was; success changes only the rotated session |
| SessionJs.RotateExpiredBeforeRevoked | backend/src/services/sessionService.js:175-185 | a session that is both revoked and expired is reported as expired |
| SessionJs.RotateSingleUse | backend/src/services/sessionService.js:168-173 | a rotated token cannot be rotated again |
| SessionJs.RotateUnknownHash | backend/src/services/sessionService.js:168-173 | a well-signed token with an unknown hash is refused and changes nothing |
| SessionJs.RotateDropsOldHash | backend/src/services/sessionService.js:196 | after a rotation no session carries the presented token's hash |
| SessionJs.RevokeSession | backend/src/services/sessionService.js:219-224 | a bad id throws a CastError; otherwise only that session is stamped, overwriting any earlier stamp |
| SessionJs.RevokeByRefreshToken | backend/src/services/sessionService.js:226-236 | never fails: an invalid token changes nothing, and a valid one stamps the session with its hash |
| SessionJs.RevokeAllUserSessions | backend/src/services/sessionService.js:238-243 | stamps exactly the user's unstamped sessions; a bad id throws a CastError |
| SessionJs.RevokedSessionRejected | backend/src/services/sessionService.js:140-224 | a revoked session never validates again |
| SessionJs.RevokedUserRejected | backend/src/services/sessionService.js:140-243 | after revoking all of a user's sessions, none validates |
| SessionJs.RevokedTokenCannotRotate | backend/src/services/sessionService.js:163-236 | after revoking by a token, rotating with it is refused as revoked or expired |
| SessionCompare.SameRefreshToken | backend/src/services/sessionService.js:53-58 | with the secret configured, both services write the very same refresh token |
| SessionCompare.TrailingJunkDiverges | backend/src/services/sessionService.js:97-101 | a genuine signature plus junk starting with a non-hex pair is accepted by Node, while Python crashes with a ValueError |
| SessionCompare.NonHexSignatureDiverges | backend/src/services/sessionService.js:97-105 | a signature that starts with a non-hex character is a 401 in Node and a crash in Python |
| SessionCompare.RevokedAndExpiredDiverges | backend/src/services/sessionService.js:175-185 | for a session both revoked and expired, Python says "Session revoked" and Node "Session expired"; neither changes the store |
| SessionCompare.ValidateAgreesOnWellFormedIds | backend/src/services/sessionService.js:140-161 | on well-formed ids both services validate alike; on a malformed one Python answers 401 and Node crashes |
| Duration.PyParseDuration | backend/src/services/sessionService.py:32-46 | a failure is always the ValueError of a bad integer; a result other than the fallback needs non-blank input |
| Duration.PyParseNormalised | backend/src/services/sessionService.py:33-46 | after stripping and lower-casing, the suffix tests decide; a result other than the fallback needs non-empty text |
| Duration.PyNormalisedWithUnit | backend/src/services/sessionService.py:34-43 | "<digits><unit>" after normalisation is the digits times the unit, "ms" being tested first |
| Duration.PyParseFormatted | backend/src/services/sessionService.py:32-46 | "<n>ms", "<n>s", "<n>m", "<n>h" and "<n>d" read back as n times the unit |
| Duration.PyParseBareDigits | backend/src/services/sessionService.py:44-45 | bare digits are seconds |
| Duration.PyParseFallback | backend/src/services/sessionService.py:46 | text with no unit letter at its end that is not all digits yields the fallback |
| Duration.PyParseLiteral | backend/src/services/sessionService.py:32-46 | a literal already in normal form parses to its digits times its unit |
| Duration.PyAccessDefault | backend/src/services/sessionService.py:15-49 | the shipped default "15m" equals the access fallback of 15 minutes |
| Duration.PyRefreshDefault | backend/src/services/sessionService.py:16-50 | the shipped default "7d" equals the refresh fallback of 7 days |
| Duration.PyLifetimesDefault | backend/src/services/sessionService.py:15-50 | with neither variable set, the Python service uses 15 minutes and 7 days |
| Duration.MatchDuration | backend/src/services/sessionService.js:26 | a match of `^(\d+)\s*([smhd])$` (case-insensitive) yields an amount and one of the four unit letters |
| Duration.JsParseDuration | backend/src/services/sessionService.js:17-44 | a falsy value with a non-zero fallback gives the fallback; a failure happens only with a zero fallback and is a plain Error |
| Duration.JsParseFormatted | backend/src/services/sessionService.js:26-43 | "<n><spaces><unit>" in either case reads back as n times the unit |
| Duration.JsNoMillisecondUnit | backend/src/services/sessionService.js:26 | "<n>ms" does not match the pattern |
| Duration.MillisecondsDiverge | backend/src/services/sessionService.py:34-35 | "<n>ms" is n milliseconds in Python, but the JavaScript service falls back |
| Duration.JsLifetimesTotal | backend/src/services/sessionService.js:8-47 | loading the JavaScript lifetimes never fails, since both fallbacks are non-zero |
| Hex.HexEncode | backend/src/services/sessionService.py:54-60 | two lower-case hex digits per byte: twice as long, and containing no dot |
| Hex.PyFromHex | backend/src/services/sessionService.py:71-72 | when `bytes.fromhex` succeeds, the text has two characters per byte |
| Hex.NodeFromHex | backend/src/services/sessionService.js:97-98 | Node's hex reader yields at most one byte per two characters |
| Hex.PyFromHexEncode | backend/src/services/sessionService.py:60-72 | Python decodes the encoding of any bytes back to those bytes |
| Hex.NodeFromHexEncode | backend/src/services/sessionService.js:56-98 | Node decodes the encoding of any bytes back to those bytes |
| Hex.PyFromHexCanonical | backend/src/services/sessionService.py:71 | whatever Python accepts is a case variant of the canonical encoding of what it returns |
| Hex.NodeFromHexTrailing | backend/src/services/sessionService.js:97 | Node also accepts the encoding followed by anything that starts with a non-hex pair |
| Hex.PyFromHexUpper | backend/src/services/sessionService.py:71 | `bytes.fromhex` is case-insensitive |
| Hex.UpperKeepsHex | backend/src/services/sessionService.py:71-73 | the upper-cased hex of some bytes still decodes to them |
| Hex.PyFromHexAfterEncoding | backend/src/services/sessionService.py:71 | an encoding followed by some text decodes iff that text decodes, to the concatenation |
| Ids.ParseObjectId | backend/src/services/sessionService.py:101-107 | an id parses iff it is 24 hex digits, and then to its lower-case form |
| Ids.ParseCanonical | backend/src/services/sessionService.py:101-107 | a stored id parses back to itself |
| Ids.ParseCaseInsensitive | backend/src/services/sessionService.py:101-107 | differently cased spellings of an id name the same document |
| Crypto.Sha256Hex | backend/src/services/sessionService.py:53-54 | the digest hex is 64 lower-case hex characters |
| Crypto.HmacHex | backend/src/services/sessionService.py:60-70 | the HMAC hex is 64 lower-case characters and decodes to the HMAC bytes |
| Crypto.HexEncodeInjective | backend/src/services/sessionService.py:53-54 | distinct digests give distinct hex strings |
| Otp.SetBucket | backend/src/services/otpService.py:26-64 | writing one bucket leaves the other bucket and every other field of the user as they were |
| Otp.CodeText | backend/src/services/otpService.py:38-41 | a code drawn from `[10^5, 10^6 - 1]` prints as six digits with no leading zero, denoting the number drawn |
| Otp.PurgeHistory | backend/src/services/otpService.py:44-46 | keeps exactly the send times strictly after now minus 24 hours |
| Otp.PurgeAppend | backend/src/services/otpService.py:44-46 | purging keeps order: it distributes over concatenation |
| Otp.PurgeLater | backend/src/services/otpService.py:44-46 | purging at a later time removes at least what an earlier purge removed |
| Otp.PurgeRecordsNow | backend/src/services/otpService.py:51-63 | a send recorded at now survives the purge at now |
| Otp.WithinCapLater | backend/src/services/otpService.py:51-53 | once at most the configured number of sends fall in the rolling day, that stays so as time passes |
| Otp.DefaultTexts | backend/src/services/otpService.py:13-15 | the default texts "10", "5" and "3" are digit strings denoting the default expiry, attempt limit and daily cap |
| OtpPy.SelectBucket | backend/src/services/otpService.py:26-28 | only "emailVerification" and "passwordReset" are accepted; any other name is 500 "Unsupported OTP bucket" |
| OtpPy.GenerateOtp | backend/src/services/otpService.py:38-41 | the code is six decimal digits denoting the draw |
| OtpPy.AssignOtp | backend/src/services/otpService.py:49-66 | refused with 429 iff the daily cap of sends already falls in the last day; otherwise the bucket holds the hash of the fresh code, expiry the configured minutes ahead, no attempts, and the purged history plus now |
| OtpPy.VerifyOtp | backend/src/services/otpService.py:69-93 | succeeds iff a code is outstanding, fewer than the configured attempts were made, it has not expired and bcrypt accepts; success clears the bucket; a wrong guess counts one attempt; other failures change nothing |
| OtpPy.VerifyOrder | backend/src/services/otpService.py:75-79 | with no attempts left the answer is 429 even for an expired code; with attempts left an expired code is "expired" |
| OtpPy.AssignThenVerify | backend/src/services/otpService.py:49-93 | when at least one attempt is allowed, a freshly sent code verifies up to and including its expiry instant |
| OtpPy.VerifySingleUse | backend/src/services/otpService.py:87-92 | a code is single-use: afterwards the same code is refused with "No OTP request found" |
| OtpPy.WrongGuessesLock | backend/src/services/otpService.py:75-85 | after as many wrong guesses as the attempt limit, even the right code gets the 429 |
| OtpPy.AfterGuesses | backend/src/services/otpService.py:81-85 | a series of guesses on one bucket leaves the other bucket alone |
| OtpPy.AssignKeepsCap | backend/src/services/otpService.py:49-63 | the configured rolling daily cap is an invariant of sending, now and at every later time |
| OtpPy.BucketsIndependent | backend/src/services/otpService.py:26-35 | sending or verifying on one bucket leaves the other exactly as it was |
| OtpPy.LoadLimits | backend/src/services/otpService.py:13-15 | the three limits load iff each variable, or its default when unset, is an integer literal; otherwise the import fails with `ValueError` |
| OtpPy.LoadDefaults | backend/src/services/otpService.py:13-15 | with none of the variables set the limits are 10 minutes, 5 attempts and 3 sends a day |
| OtpPy.LoadPrinted | backend/src/services/otpService.py:13-15 | variables holding printed naturals load as exactly those numbers |
| OtpJs.GenerateOtp | backend/src/services/otpService.js:8-12 | the code is six decimal digits between 100000 and 999999 |
| OtpJs.AssignOtpToUser | backend/src/services/otpService.js:19-42 | under the same limits, the same cap and bucket contents as the Python send, on the email-verification bucket |
| OtpJs.VerifyUserOtp | backend/src/services/otpService.js:44-82 | succeeds iff a code is outstanding, fewer than the configured attempts were made, it has not expired and bcrypt accepts; success clears the bucket and marks the email verified at now |
| OtpJs.VerifiedAfterSuccess | backend/src/services/otpService.js:73-81 | after a success the user is verified and no code is outstanding |
| OtpJs.AssignMatchesPython | backend/src/services/otpService.js:19-42 | for the same code and salt the send writes exactly what the Python send writes |
| OtpJs.VerifyMatchesPython | backend/src/services/otpService.js:44-82 | the outcomes and the bucket agree with Python's; only this version marks the email verified |
| OtpJs.LoadLimits | backend/src/services/otpService.js:4-6 | an unset or empty variable takes its default; the limits are loaded exactly when each text is an integer |
| OtpJs.DefaultsAsNumbers | backend/src/services/otpService.js:4-6 | `Number` reads the default texts as 10, 5 and 3 |
| OtpJs.LoadDefaults | backend/src/services/otpService.js:4-6 | with none of the variables set both services load the same default limits |
| OtpJs.EmptyLimitDiverges | backend/src/services/otpService.js:4-6 | an empty `OTP_MAX_PER_DAY` falls back to 3 here, while the Python import fails on it |
| Users.NewUser | backend/src/models/User.py:34-45 | a new account is an active, unverified customer with no addresses and empty buckets |
| Users.FindByEmail | backend/src/models/User.py:36 | finds an account with that email, or reports that none has it |
| AuthControllerPy.IssueSession | backend/src/controllers/authController.py:193-228 | opening a session adds exactly one document for the account and leaves the users as they were |
| AuthControllerPy.Signup | backend/src/controllers/authController.py:129-159 | fails with 409 iff an account has the lower-cased email; otherwise inserts one unverified customer, and then either gives it a fresh verification code or, when the daily cap is zero or less, answers 429 with the account kept; emails stay unique |
| AuthControllerPy.ResendOtp | backend/src/controllers/authController.py:161-178 | an unknown email is 404; a verified account succeeds without a code; otherwise the send rules of the OTP service apply to that account alone |
| AuthControllerPy.VerifyEmail | backend/src/controllers/authController.py:180-210 | an unknown email is 404; a failed code check saves the counted guess and fails; success marks the account verified at now and opens a session for it |
| AuthControllerPy.Login | backend/src/controllers/authController.py:212-237 | an unknown email and a wrong password get the same 401; success needs a verified, active account and opens one session for it |
| AuthControllerPy.LoginUnverifiedFirst | backend/src/controllers/authController.py:218-221 | once the password matches, "unverified" is reported before "disabled" |
| AuthControllerPy.ExtractRefreshToken | backend/src/controllers/authController.py:92-101 | the token comes from the argument, then the cookie, then the `x-refresh-token` header, skipping empty ones |
| AuthControllerPy.RefreshSession | backend/src/controllers/authController.py:239-262 | no token is 401; otherwise the rotation's outcome and store changes are passed through |
| AuthControllerPy.Logout | backend/src/controllers/authController.py:264-275 | revokes the authenticated session, or else the session of the refresh token from cookie or header, or nothing; accounts untouched |
| AuthControllerPy.LogoutAll | backend/src/controllers/authController.py:277-283 | every session of the user gets a revocation stamp and nobody else's changes |
| AuthControllerPy.LogoutAllShutsOut | backend/src/controllers/authController.py:277-283 | after logging out everywhere, none of the user's sessions is live at any later time |
| AuthControllerPy.RequestPasswordReset | backend/src/controllers/authController.py:285-305 | unknown is 404, unverified 400; otherwise a password-reset code is sent to that account alone |
| AuthControllerPy.ResetPassword | backend/src/controllers/authController.py:307-338 | an unknown email gets the generic success and nothing changes; a failed code check leaves the sessions alone; success replaces the password hash, revokes the old sessions and opens one new session |
| AuthControllerPy.CompleteReset | backend/src/controllers/authController.py:318-327 | after the code matched: every open session of the user is revoked, no other session is touched, the user is saved, and one new session of the user is opened |
| AuthControllerPy.ResetShutsOldSessions | backend/src/controllers/authController.py:318-327 | after a reset none of the user's earlier sessions can be used, at any time |
| AuthControllerPy.NormaliseCountry | backend/src/controllers/authController.py:365-367 | the country defaults to "IN", is trimmed, and is upper-cased only when at most three characters long |
| AuthControllerPy.AddAddress | backend/src/controllers/authController.py:354-377 | 400 at five addresses; otherwise one address is appended under the fresh id, with trimmed contact name and phone (defaulting to the account's) that must not be empty (422) |
| AuthControllerPy.AddAddressKeepsLimit | backend/src/controllers/authController.py:359-360 | adding never grows the address book past five |
| AuthControllerPy.FindAddress | backend/src/controllers/authController.py:122-126 | the position of the first address with the id, or none when no address has it |
| AuthControllerPy.UpdatedAddress | backend/src/controllers/authController.py:379-407 | every payload field is applied; contact name, phone and country fall back to the stored address and then the account or "IN"; a blank contact name becomes the account's full name |
| AuthControllerPy.UpdateAddress | backend/src/controllers/authController.py:379-407 | 404 when no address has the id; a phone that ends up empty is 422; otherwise the first such address is rewritten in place |
| AuthControllerPy.UpdateKeepsIds | backend/src/controllers/authController.py:379-407 | an update keeps the number of addresses and every id, so the address stays deletable |
| AuthControllerPy.WithoutAddress | backend/src/controllers/authController.py:415 | keeps exactly the addresses with another id, in order; the count is unchanged iff none had the id |
| AuthControllerPy.WithoutAddressAppend | backend/src/controllers/authController.py:415 | removing an id distributes over concatenation |
| AuthControllerPy.DeleteAddress | backend/src/controllers/authController.py:409-419 | succeeds iff some address has the id, and removes every address with it; otherwise 404 |
| AuthControllerPy.WithoutAbsent | backend/src/controllers/authController.py:415-417 | removing an id no address has leaves the book as it is |
| AuthControllerPy.AddThenDelete | backend/src/controllers/authController.py:354-419 | adding an address and deleting it by its new id restores the book |
| AuthControllerJs.AssignVia | backend/src/controllers/authController.js:11-106 | as written the imported `assignOtp` is undefined and every call is a TypeError; with the bucketed service bound it is that service's send |
| AuthControllerJs.VerifyVia | backend/src/controllers/authController.js:11 | as written every `verifyOtp` call is a TypeError and changes nothing; bound, it is the bucketed verification |
| AuthControllerJs.Signup | backend/src/controllers/authController.js:86-114 | an existing email is 409 and changes nothing; otherwise exactly one unverified account is added, and it stays even when assigning the code fails; emails stay unique |
| AuthControllerJs.CreateThenAssign | backend/src/controllers/authController.js:98-107 | the account is stored first; a failed assignment leaves it as created, a successful one adds only the verification bucket |
| AuthControllerJs.ResendOtp | backend/src/controllers/authController.js:116-138 | 404 for an unknown email; nothing to do for a verified account; otherwise a new code through the bound service |
| AuthControllerJs.VerifyEmail | backend/src/controllers/authController.js:140-158 | 404, then the code check, then the account is marked verified at now; no session is opened and the session store is unchanged |
| AuthControllerJs.IssueSession | backend/src/controllers/authController.js:180-185 | opening a session adds one document for the account and leaves the users alone |
| AuthControllerJs.Login | backend/src/controllers/authController.js:160-194 | the same 401 for an unknown email and a wrong password, then 403 for an unverified account; success opens a session for the account |
| AuthControllerJs.DisabledAccountDiverges | backend/src/controllers/authController.js:160-194 | a verified but disabled account with the right password is refused by the Python controller and let in here |
| AuthControllerJs.ExtractRefreshToken | backend/src/controllers/authController.js:59-66 | the token comes from the cookie, then the body, then the `x-refresh-token` header |
| AuthControllerJs.PrecedenceDiverges | backend/src/controllers/authController.js:59-66 | with both a cookie and a body token, this controller takes the cookie and the Python one the body token |
| AuthControllerJs.RefreshSession | backend/src/controllers/authController.js:196-222 | no token is 401; otherwise the JavaScript rotation decides, and users are untouched |
| AuthControllerJs.Logout | backend/src/controllers/authController.js:224-239 | revokes the authenticated session (a malformed id throws), or else the refresh token's session; a bad token is ignored |
| AuthControllerJs.LogoutAll | backend/src/controllers/authController.js:241-248 | every open session of the user is stamped, and nothing else changes |
| AuthControllerJs.RequestPasswordReset | backend/src/controllers/authController.js:250-277 | 404, then 400 for an unverified account, then a password-reset code through the bound service |
| AuthControllerJs.ResetPassword | backend/src/controllers/authController.js:279-302 | generic success for an unknown email; after the code check the new hash is saved BEFORE the open sessions are revoked, so a failed revocation keeps the new password with the old sessions open |
| AuthControllerJs.SaveThenRevoke | backend/src/controllers/authController.js:292-296 | the user is saved whatever happens; the sessions are revoked iff the id parses |
| AuthControllerJs.SignupAsWrittenStrands | backend/src/controllers/authController.js:11-107 | as written, signup stores an unverified account and then fails; a second signup is 409 and verification fails too, so the account can never be verified |
| AuthControllerJs.SignupThenVerify | backend/src/controllers/authController.js:86-158 | with the bucketed service bound, and a positive daily cap and attempt limit, signing up and verifying with the mailed code marks the account verified |
| AuthMiddlewarePy.BearerToken | backend/src/middlewares/auth.py:14-17 | a token is found only after the exact prefix "Bearer ", is stripped, and is never empty |
| AuthMiddlewarePy.BearerRoundTrip | backend/src/middlewares/auth.py:15 | a non-empty token without surrounding white space comes back out of its header unchanged |
| AuthMiddlewarePy.NoBearerNoToken | backend/src/middlewares/auth.py:14-17 | no header, a bare "Bearer", only spaces after it, or a lower-case "bearer " prefix carry no token |
| AuthMiddlewarePy.Authenticate | backend/src/middlewares/auth.py:13-38 | success needs a bearer token, valid claims, a live session of that user, and an existing active user whose role is reported; every failure is an HTTP error |
| AuthMiddlewarePy.RevokedSessionShutsOut | backend/src/middlewares/auth.py:19-24 | a revoked session shuts out every access token issued for it, however long the token itself is valid |
| AuthMiddlewarePy.RequireAdmin | backend/src/middlewares/auth.py:41-44 | only an administrator passes; anyone else gets 403 "Admin privileges required" |
| RbacPy.CheckAdmin | backend/src/middlewares/rbac.py:11-26 | nobody is 401, a non-admin 403; it passes iff the caller is an admin |
| RbacPy.CheckSignedIn | backend/src/middlewares/rbac.py:29-38 | passes iff someone is signed in; otherwise 401 |
| RbacPy.CheckOwnerOrAdmin | backend/src/middlewares/rbac.py:41-55 | nobody is 401; otherwise it passes iff the caller is an admin or has the resource's user id, else 403 |
| RbacPy.GuardsMatchPredicates | backend/src/middlewares/rbac.py:11-131 | the admin guard passes exactly when `can_modify_product` holds, and the owner guard exactly when `can_view_order` holds |
| RbacPy.ReviewRightsPartition | backend/src/middlewares/rbac.py:134-151 | nobody may both create and edit reviews; an author may not edit their own review; every signed-in caller has exactly one of the two rights |
| RbacPy.FilterActiveProducts | backend/src/middlewares/rbac.py:58-66 | the caller's filter with `isActive: true` and `isDeleted: false` forced, and every other key kept |
| RbacPy.FilterApprovedReviews | backend/src/middlewares/rbac.py:69-77 | the caller's filter with `isApproved: true` and `isDeleted: false` forced, and every other key kept |
| RbacPy.ActiveFilterOverrides | backend/src/middlewares/rbac.py:58-66 | a caller cannot widen the product filter, and filtering twice is filtering once |
| RbacPy.ApprovedFilterOverrides | backend/src/middlewares/rbac.py:69-77 | a caller cannot widen the review filter, and filtering twice is filtering once |
| Carts.FindActiveCart | backend/src/services/cartService.py:11 | the position of the user's first active cart, or none when the user has no active cart |
| Carts.GetOrCreateActiveCart | backend/src/services/cartService.py:10-16 | the user's existing active cart, untouched, or else a new active cart appended under the fresh id; either way the next lookup finds it |
| Carts.AppendedCartFound | backend/src/services/cartService.py:14-15 | a cart appended when the user had no active cart is the one the next lookup finds |
| Carts.GetOrCreateIdempotent | backend/src/services/cartService.py:10-16 | asking twice gives the same cart, and the second request writes nothing |
| Carts.ItemsOf | backend/src/services/cartService.py:20 | exactly the lines of the cart, in insertion order |
| Carts.WithoutCart | backend/src/services/cartService.py:52 | exactly the lines of every other cart |
| Carts.WithoutCartKeepsOthers | backend/src/services/cartService.py:52 | removing one cart's lines leaves no line of it and every other cart's lines exactly as they were |
| Carts.ConvertCart | backend/src/services/cartService.py:53 | exactly the carts with the id are marked converted |
| Carts.ClearCart | backend/src/services/cartService.py:51-53 | the cart's lines are all deleted and it is marked converted; other carts, their lines and every other collection stay |
| Carts.ClearedCartRetired | backend/src/services/cartService.py:10-53 | after checkout the converted cart is never again anyone's active cart |
| Carts.AccumulateMirrors | backend/src/services/cartService.py:43-46 | the totals loop over the snapshot lines adds up the cart's quantity and its value at the frozen prices |
| Carts.FirstError | backend/src/services/cartService.py:56-63 | a per-line check passes iff every line passes, and otherwise reports the error of the first failing line |
| Carts.HeldAppend | backend/src/models/CartItem.py:11-20 | appending a line adds its share to the units the cart holds |
| Carts.HeldUpdate | backend/src/models/CartItem.py:11-20 | rewriting a line swaps its share |
| Carts.RemoveAt | backend/src/services/cartService.py:52 | the sequence without one element, the others in order |
| Carts.HeldRemove | backend/src/models/CartItem.py:11-20 | deleting a line subtracts its share |
| Carts.FindLine | backend/src/controllers/cartController.py:47 | the first line of the cart for the product, or none if there is none |
| Carts.FindItem | backend/src/controllers/cartController.py:80 | the line with the id, only if it belongs to the cart |
| Carts.HeldNone | backend/src/controllers/cartController.py:55-62 | with no line for the product, the cart holds none of it |
| Carts.HeldSingle | backend/src/models/CartItem.py:20 | under the unique (cart, product) index, the line found is all the cart holds of that product |
| Carts.ItemsOfRemove | backend/src/controllers/cartController.py:52-85 | deleting a line of one cart leaves every other cart's lines as they were |
| Carts.ItemsOfUpdate | backend/src/controllers/cartController.py:54-93 | rewriting a line of one cart leaves every other cart's lines as they were |
| Carts.ItemsOfAppend | backend/src/controllers/cartController.py:62 | appending a line of one cart leaves every other cart's lines as they were |
| Carts.MergeLine | backend/src/controllers/cartController.py:47-62 | an existing line grows by the quantity, keeping its frozen price, and is deleted if that leaves it empty; otherwise a new line is appended at the price; no other cart or product changes |
| Carts.MergeKeepsOtherCarts | backend/src/controllers/cartController.py:47-62 | the merge leaves every other cart's lines alone |
| Carts.MergeKeepsWellFormed | backend/src/models/CartItem.py:14-20 | with a fresh line id and a positive quantity, the merge keeps the unique index and every line non-empty |
| Carts.SetLineHeld | backend/src/controllers/cartController.py:92 | setting a line's quantity makes that the cart's holding of its product |
| CartServicePy.SnapshotLine | backend/src/services/cartService.py:22-41 | a line keeps its id, quantity, frozen price and subtotal and always names its product; live fields exist iff the product loads, and then are the loaded product's |
| CartServicePy.SnapshotLines | backend/src/services/cartService.py:22-41 | one snapshot line per cart line, in order |
| CartServicePy.BuildSnapshot | backend/src/services/cartService.py:19-48 | one line per cart line, in order, and totals equal to the cart's quantity and value |
| CartServicePy.TotalsExample | backend/src/services/cartService.py:43-46 | two units at 100 and one at 250 come to 3 units and 450 |
| CartServicePy.EmptySnapshot | backend/src/services/cartService.py:19-48 | an empty cart has an empty snapshot with zero totals |
| CartServicePy.StockCheck | backend/src/services/cartService.py:58-63 | a line passes iff its product exists and loads as active, and its loaded stock covers the quantity; `isDeleted` is not checked |
| CartServicePy.VerifyStockLevels | backend/src/services/cartService.py:56-63 | passes iff every line passes; otherwise raises the ValueError of the first failing line |
| CartServiceJs.SnapshotLine | backend/src/services/cartService.js:16-32 | the product id and the live fields are present only while the product exists |
| CartServiceJs.SnapshotLines | backend/src/services/cartService.js:16-33 | one snapshot line per cart line, in order |
| CartServiceJs.BuildSnapshot | backend/src/services/cartService.js:11-48 | the lines in order, and `reduce`d totals equal to the cart's quantity and value |
| CartServiceJs.StockCheck | backend/src/services/cartService.js:57-68 | a line passes iff it has a product id whose product is active with enough stock; a failure is 400 |
| CartServiceJs.VerifyStockLevels | backend/src/services/cartService.js:55-70 | passes iff every line passes; otherwise the 400 of the first failing line |
| CartServiceJs.DeletedProductFailsCheck | backend/src/services/cartService.js:17-57 | a line whose product was deleted keeps its price in the totals but fails the stock check |
| CartControllerPy.Reply | backend/src/controllers/cartController.py:64-72 | the answer is 200 with the cart's id and status and a fresh snapshot of that cart |
| CartControllerPy.AddChecks | backend/src/controllers/cartController.py:35-44 | in order: invalid id 400, quantity not positive 400, product missing or inactive 404, loaded stock short of the quantity 400; otherwise the loaded product |
| CartControllerPy.AddItem | backend/src/controllers/cartController.py:34-72 | a failed check writes nothing; otherwise the quantity is merged into the product's line of the active cart at the product's price |
| CartControllerPy.AddItemAddsQuantity | backend/src/controllers/cartController.py:34-72 | after a successful add the active cart holds exactly that many more units of the product, nothing else changes, and the lines stay well formed |
| CartControllerPy.RepeatedAddsExceedStock | backend/src/controllers/cartController.py:43-50 | only the increment is checked against stock, so adding the last unit twice leaves the cart holding two |
| CartControllerPy.UpdateItem | backend/src/controllers/cartController.py:75-103 | an invalid id is 400; a line not in the caller's active cart is 404; a quantity of zero or less deletes the line; otherwise availability and stock are checked and the quantity is replaced |
| CartControllerPy.UpdateSetsQuantity | backend/src/controllers/cartController.py:92-93 | a successful positive update leaves the cart holding exactly the requested units of the line's product |
| CartControllerPy.RemoveItem | backend/src/controllers/cartController.py:106-121 | an invalid id is 400; otherwise only a line of the caller's active cart can go, and an unknown line is not an error |
| CartControllerPy.RemoveKeepsOtherCarts | backend/src/controllers/cartController.py:110-111 | removing a line never touches another cart's lines |
| CartControllerJs.Reply | backend/src/controllers/cartController.js:68-76 | the answer carries the given code, the cart's id and status, and a fresh snapshot |
| CartControllerJs.AddChecks | backend/src/controllers/cartController.js:26-43 | in order: invalid id 400, product missing or inactive 404, stored stock short of the quantity 400; there is no positivity check |
| CartControllerJs.AddItem | backend/src/controllers/cartController.js:23-77 | the same merge as the Python version answered with 201; a new line with a quantity below one fails validation after the cart has been opened |
| CartControllerJs.NegativeAddShrinksLine | backend/src/controllers/cartController.js:39-57 | with no positivity check, a negative quantity passes the stock check and shrinks an existing line |
| CartControllerJs.UpdateItem | backend/src/controllers/cartController.js:79-126 | as in the Python version, with products read as stored |
| CartControllerJs.UpdateSetsQuantity | backend/src/controllers/cartController.js:113-114 | a successful positive update leaves the cart holding exactly the requested units |
| CartControllerJs.RemoveItem | backend/src/controllers/cartController.js:128-149 | an invalid id is 400; otherwise only a line of the caller's active cart can be deleted |
| CartControllerJs.RemoveKeepsOtherCarts | backend/src/controllers/cartController.js:137-138 | removing a line never touches another cart's lines |
| Catalog.SyncFields | backend/src/models/Product.py:49-67 | the two stock fields end equal with the stored totalStock winning, a lone image URL and a lone image list fill each other in, a product without stock is switched off and nothing switches one on, and every other field is kept |
| Catalog.LoadPy | backend/src/models/Product.py:39-67 | loading upper-cases the currency, lower-cases the slug, settles stock on totalStock and never activates a product |
| Catalog.LoadIdempotent | backend/src/models/Product.py:39-67 | a product the Python model has loaded loads back unchanged |
| Catalog.DecrementStock | backend/src/controllers/orderController.py:88-91 | the `$inc` on stock lowers stock by the quantity and touches no other field |
| Catalog.LoadablePy | backend/src/models/Product.py:26-28 | the field bounds a stored document must meet to load: stock and a set totalStock at least 0, maxUnitsPerUser at least 1 |
| Catalog.LoadKeepsLoadable | backend/src/models/Product.py:26-28 | a loaded document meets the field bounds again |
| Catalog.DecrementInvisible | backend/src/models/Product.py:51-55 | once totalStock is stored, a decrement within the stored stock is undone by the next load, and a loadable document stays loadable |
| Catalog.OversoldUnloadable | backend/src/models/Product.py:26 | a decrement past the stored stock leaves a document that fails the `stock >= 0` bound |
| Catalog.DecrementBoth | backend/src/controllers/orderController.py:88-91 | the intended decrement moves stock and totalStock together and nothing else |
| Catalog.DecrementBothVisible | backend/src/models/Product.py:51-65 | with both fields moved the Python model sees exactly q fewer units, and selling the last unit switches the product off |
| Orders.SyncLine | backend/src/models/Order.py:94-99 | whichever of a line's product and productId is missing is copied from the other; a line with both or neither is unchanged |
| Orders.Validate | backend/src/models/Order.py:76-106 | validation upper-cases the currency, fills userId from user, lets an empty line list stand for the other, syncs the product references of the products lines, and starts an empty history with the current status |
| Orders.SyncLinesIdempotent | backend/src/models/Order.py:94-99 | syncing the line references twice is syncing them once |
| Orders.ValidateIdempotent | backend/src/models/Order.py:81-106 | a validated order re-validates to itself whatever the clock says |
| Orders.ValidatedLinesAgree | backend/src/models/Order.py:84-99 | after validation userId is set and every products line names its product under both keys or neither |
| Orders.ValidateFresh | backend/src/models/Order.py:81-106 | an order with no lines, userId set and a started history validates unchanged |
| Orders.ValidateKeepsStatus | backend/src/models/Order.py:101-104 | once the history is started, setting the status commutes with validation |
| Shop.ParseStatus | backend/src/models/Order.py:57-69 | a string parses to a status only if it is that status's stored spelling |
| Shop.StatusNameRoundTrip | backend/src/models/Order.py:57-69 | every status's spelling parses back to it, so the eleven spellings are distinct |
| Shop.OrderItemsOf | backend/src/controllers/orderController.py:161 | the lines found for an order are exactly the stored lines of that order, in order |
| Shop.FindPayment | backend/src/controllers/paymentController.py:18 | the lookup returns the first payment of the order through the gateway, and none exactly when no payment matches |
| Checkout.Apply | backend/src/controllers/orderController.py:88-91 | a sale lowers stock by the quantity; the stock-only kind is the `$inc` as issued, the both-fields kind also moves totalStock |
| Checkout.DecrementLine | backend/src/controllers/orderController.py:89-91 | one line's update lowers only its own product's stock by its quantity, keeps every product's other fields, and matches nothing when the product has gone |
| Checkout.DecrementAll | backend/src/controllers/orderController.py:88-91 | after all lines, every product's stock is lowered by exactly the units the lines order of it, and no other field moves |
| Checkout.OrderedSingle | backend/src/models/CartItem.py:17-20 | with one line per product, as the unique cart/product index guarantees, what a sale takes of a product is that line's quantity |
| Checkout.OrderedAbsent | backend/src/controllers/orderController.py:88-91 | a product no line names loses no stock |
| Checkout.OrderItemOf | backend/src/controllers/orderController.py:76-85 | an order line copies the order id, the product, its name, the frozen unit price, the quantity and the subtotal from the snapshot line |
| Checkout.OrderItemsFor | backend/src/controllers/orderController.py:74-86 | one order line per snapshot line, in order |
| Checkout.OrderItemsForFound | backend/src/controllers/orderController.py:86 | the lines just written for a new order are exactly what the lookup by order id finds |
| Checkout.WithoutOrderItems | backend/src/controllers/orderController.py:106 | deleting an order's lines keeps exactly the lines of other orders |
| Checkout.WithoutAppended | backend/src/controllers/orderController.py:104-106 | deleting an order's lines right after appending them gives back the lines stored before |
| Checkout.DeleteOrder | backend/src/controllers/orderController.py:104-106 | the compensation removes the order and every line of it, and no other order or collection changes |
| Checkout.Record | backend/src/controllers/orderController.py:72-91 | the order is inserted first; a line quantity below one then fails validation with the order already in; otherwise the lines are appended and stock is decremented |
| Checkout.OwnedOrder | backend/src/controllers/orderController.py:156-161 | an unparseable id is a 400, an id that is not the caller's order is a 404, and otherwise the stored order comes back with exactly its lines |
| OrderControllerPy.NewOrder | backend/src/controllers/orderController.py:59-72 | the new order is pending payment behind a configured gateway and paid without one, costs the snapshot total in INR, has no lines or payment intent, and starts its history |
| OrderControllerPy.PaymentFor | backend/src/controllers/orderController.py:112-120 | the payment is an initiated Razorpay payment carrying the gateway reply, or a manual payment captured offline, for the order's amount |
| OrderControllerPy.Finish | backend/src/controllers/orderController.py:112-148 | the last steps record the payment, clear the cart and answer with the order, its lines, the payment and the checkout data exactly when a gateway order exists |
| OrderControllerPy.Charge | backend/src/controllers/orderController.py:93-110 | a gateway failure is a 502 that deletes the order and its lines; success stores the gateway order id on the order, records a Razorpay payment and empties the cart |
| OrderControllerPy.Place | backend/src/controllers/orderController.py:59-123 | after verification a negative total fails validation, a bad quantity fails after the order insert, and otherwise checkout finishes manually or charges the gateway |
| OrderControllerPy.CreateOrderWith | backend/src/controllers/orderController.py:48-57 | an empty cart is a 400 and a failed stock check is a 400 with its message, both before anything but the cart is written |
| OrderControllerPy.DeleteRecorded | backend/src/controllers/orderController.py:72-106 | deleting a freshly recorded order undoes everything but the stock decrement |
| OrderControllerPy.PlaceFailureKeepsDecrement | backend/src/controllers/orderController.py:88-110 | after verification, a gateway failure leaves the database as before except for the decremented stock |
| OrderControllerPy.GatewayFailureKeepsDecrement | backend/src/controllers/orderController.py:88-110 | a checkout the gateway refuses leaves no order, no lines, no payment and the cart untouched, but stock stays decremented |
| OrderControllerPy.PlaceAnswers | backend/src/controllers/orderController.py:59-72 | a successful placement answers with the order under the given id, for the user, costing the snapshot total, in the status the configuration decides |
| OrderControllerPy.PlaceWrites | backend/src/controllers/orderController.py:72-123 | a successful placement adds one order, its lines and one payment, decrements stock and empties the cart |
| OrderControllerPy.ManualCommits | backend/src/controllers/orderController.py:112-123 | without a gateway the writes are the order, its lines, the decrement, a manual payment and the cleared cart |
| OrderControllerPy.ChargedCommits | backend/src/controllers/orderController.py:93-123 | through an accepting gateway the writes are the order with its payment intent, its lines, the decrement, a Razorpay payment and the cleared cart |
| OrderControllerPy.ChargedOrder | backend/src/controllers/orderController.py:102-103 | saving the payment intent overwrites the one order just inserted and adds no other |
| OrderControllerPy.PlacedOrderWrites | backend/src/controllers/orderController.py:48-148 | a successful checkout had a non-empty verified cart, and adds exactly one order, its lines and one payment, decrements stock and empties the cart |
| OrderControllerPy.VerifiedLinesNamed | backend/src/controllers/orderController.py:74-85 | each line of a placed order names the product of the matching cart line, its name, quantity and frozen price |
| OrderControllerPy.RepeatOrderPassesAsWritten | backend/src/models/Product.py:51-55 | as written, after an order that leaves every stored stock non-negative, the same lines pass the stock check again, however much of the loaded stock they took |
| OrderControllerPy.StockOnlyLoadsSame | backend/src/models/Product.py:51-55 | after a stock-only decrement within the stored stock every product loads exactly as before and stays loadable |
| OrderControllerPy.SecondSaleUnloadable | backend/src/models/Product.py:26-55 | as written, a product stored with one unit passes the stock check after its first sale, and the second sale leaves a stored stock of -1 that no load accepts |
| OrderControllerPy.CorrectedOrderDepletes | backend/src/controllers/orderController.py:88-91 | in `OrderControllerPy.CreateOrder`, which moves both stock fields, each product of a verified order loses exactly its line's quantity and stays non-negative, and a line that took the whole stock fails the next check |
| OrderControllerPy.GetOrder | backend/src/controllers/orderController.py:156-163 | the caller's order by id, validated on the way out, with exactly its lines; a 400 for a bad id and a 404 for someone else's order |
| OrderControllerPy.PlacedOrderFound | backend/src/controllers/orderController.py:156-163 | an order just placed is found by its owner exactly as the placement answered, with the same lines |
| OrderControllerPy.CommittedFound | backend/src/controllers/orderController.py:156-163 | whatever a commit leaves is what the lookup finds |
| OrderControllerJs.NewOrder | backend/src/controllers/orderController.js:32-41 | the new order is pending payment, costs the snapshot total in INR, and has no lines, history or payment intent |
| OrderControllerJs.ManualPayment | backend/src/controllers/orderController.js:60-68 | the payment is manual and initiated, for the order's amount, with no transaction and no gateway reply |
| OrderControllerJs.Place | backend/src/controllers/orderController.js:31-83 | after verification a negative total or a bad quantity fails validation; otherwise the order, lines, decrement, payment and cleared cart are written and a 201 answers |
| OrderControllerJs.CreateOrder | backend/src/controllers/orderController.js:17-29 | an empty cart is a 400 and a failed stock check passes its 400 through, both before anything but the cart is written |
| OrderControllerJs.PlaceWrites | backend/src/controllers/orderController.js:32-83 | a successful placement writes the pending order, its lines, one manual payment and the decrement, and empties the cart |
| OrderControllerJs.PlacedOrderWrites | backend/src/controllers/orderController.js:17-83 | a successful checkout answers 201 with the snapshot-priced pending order, whose lines are found again by its id, and empties the cart |
| OrderControllerJs.DecrementVisible | backend/src/controllers/orderController.js:54-58 | this backend sees its own decrement: each product loses exactly its line's quantity and stays non-negative, and a line that took the whole stock fails the next check |
| OrderControllerJs.GetOrder | backend/src/controllers/orderController.js:94-115 | an unparseable id is a 400, an order that is not the caller's is a 404, and otherwise the order comes back with exactly its lines |
| OrderControllerJs.PlacedOrderFound | backend/src/controllers/orderController.js:94-115 | an order just placed is found by its owner exactly as the placement answered |
| OrderControllerJs.OthersNotFound | backend/src/controllers/orderController.js:102-110 | another user asking for someone's order gets a 404 |
| PaymentServicePy.GetClient | backend/src/services/paymentService.py:24-32 | unconfigured credentials are a 500 service error; otherwise the cached client is returned, or one is built from the key id and secret and cached |
| PaymentServicePy.ClientBuiltOnce | backend/src/services/paymentService.py:28-32 | after the first successful call every later call returns that same client, even if the credentials have changed since |
| PaymentServicePy.CreateRazorpayOrder | backend/src/services/paymentService.py:35-38 | a client error passes through with the cache unchanged; otherwise the gateway is called once with the amount, currency, receipt and the notes or an empty map |
| PaymentServicePy.VerifyRazorpaySignature | backend/src/services/paymentService.py:41-47 | a missing or empty secret is a 500 service error; otherwise the answer is true exactly when the signature equals the hex HMAC-SHA256 of `orderId|paymentId` |
| PaymentServicePy.SignatureExact | backend/src/services/paymentService.py:45-47 | the gateway's own signature passes and every other string, an upper-case spelling included, is refused |
| PaymentServiceJs.GetClient | backend/src/services/paymentService.js:10-21 | unconfigured credentials are a plain error without a status; otherwise the client is built once and cached |
| PaymentServiceJs.CreateRazorpayOrder | backend/src/services/paymentService.js:23-31 | the gateway receives the amount, the currency (INR by default), the receipt and the notes unchanged |
| PaymentServiceJs.VerifyRazorpaySignature | backend/src/services/paymentService.js:33-41 | an unset secret throws; otherwise, an empty secret included, the answer is true exactly when the signature equals the hex HMAC-SHA256 of `orderId|paymentId` |
| PaymentServiceJs.VerifiersAgree | backend/src/services/paymentService.js:33-41 | wherever the Python check answers, the JavaScript check gives the same answer |
| PaymentServiceJs.EmptySecretDiverges | backend/src/services/paymentService.py:42-44 | with an empty secret the Python check refuses to run while the JavaScript one still answers |
| PaymentControllerPy.SignedOrderId | backend/src/controllers/paymentController.py:22-23 | as written the signature is checked over the shop's order id from the request; the corrected choice is the gateway order id stored on the order |
| PaymentControllerPy.Lookup | backend/src/controllers/paymentController.py:13-20 | an unparseable id crashes, an order that is not the caller's is a 404, an order without a Razorpay payment is a 404, and otherwise the order and the index of its first Razorpay payment come back |
| PaymentControllerPy.Check | backend/src/controllers/paymentController.py:22-28 | a missing secret is a 500, a signature other than the gateway's over the chosen id is a 400, and only the exact signature passes |
| PaymentControllerPy.Capture | backend/src/controllers/paymentController.py:30-36 | the found payment becomes captured with the payment id and the client's payload, the order becomes paid, and nothing else changes |
| PaymentControllerPy.VerifyPaymentWith | backend/src/controllers/paymentController.py:12-38 | lookup failures and check failures pass through and leave the database unchanged; a passing check captures the payment and marks the order paid |
| PaymentControllerPy.AcceptedIff | backend/src/controllers/paymentController.py:12-38 | a confirmation is accepted exactly when the order is the caller's, it has a Razorpay payment, a secret is set and the signature is the gateway's over the chosen order id and payment id; acceptance captures the payment and marks the order paid |
| PaymentControllerPy.RepeatRewritesSame | backend/src/controllers/paymentController.py:30-36 | the same confirmation sent again verifies again and changes nothing further |
| PaymentControllerPy.LookupAfterCapture | backend/src/controllers/paymentController.py:14-18 | after a capture the lookup finds the same payment and the order, now paid |
| PaymentControllerPy.CaptureAgain | backend/src/controllers/paymentController.py:30-36 | capturing an already captured payment writes nothing new |
| PaymentControllerPy.GenuineRejectedAsWritten | backend/src/controllers/paymentController.py:22-23 | as written, a gateway signature over the stored gateway order id is refused with a 400 whenever its MAC differs from the MAC over the shop's id, while the corrected check accepts it |
| PaymentControllerJs.Precheck | backend/src/controllers/paymentController.js:8-24 | a missing or empty field is a 400, an unparseable order id is a 400, an unconfigured gateway is a 500, and only a complete, parseable, configured request goes on |
| PaymentControllerJs.Settle | backend/src/controllers/paymentController.js:64-88 | the order becomes paid under the reported gateway id; the order's first Razorpay payment is captured with the confirmation, or a captured one is created for the order's amount and currency |
| PaymentControllerJs.VerifyPayment | backend/src/controllers/paymentController.js:5-101 | the checks run in the source's order; an already captured payment is answered as stored, a recorded gateway id other than the reported one is a 400, a bad signature is a 400, and every failure leaves the database unchanged |
| PaymentControllerJs.SettledIsCaptured | backend/src/controllers/paymentController.js:68-88 | after settlement the order's Razorpay payment is found captured and is the payment answered |
| PaymentControllerJs.RepeatIsNoop | backend/src/controllers/paymentController.js:33-44 | once a confirmation has gone through, any confirmation for that order answers with the stored order and payment and writes nothing |
| PaymentControllerJs.CapturedSkipsSignature | backend/src/controllers/paymentController.js:33-44 | a captured payment skips the signature check, so even a forged signature is answered with success |
| PaymentControllerJs.AcceptedIff | backend/src/controllers/paymentController.js:46-66 | a first confirmation is accepted exactly when the reported gateway id matches the recorded one, or none is recorded, and the signature is the gateway's; acceptance marks the order paid under that id and captures the payment |
| ProductControllerPy.ListProducts | backend/src/controllers/productController.py:25-52 | the answer carries the normalised page and limit, the number of matches and the page count, at most limit items, and each item is a matching product as the Python model loads it |
| ProductControllerPy.ListingReachesEveryMatch | backend/src/controllers/productController.py:26-41 | with a limit from 1 to 100, the i-th match is item i mod limit of page i div limit + 1, and that page is within the page count |
| ProductControllerPy.GetProduct | backend/src/controllers/productController.py:55-59 | text that is not an object id crashes, an unknown id is a 404, and otherwise the loaded document comes back |
| ProductControllerPy.Forward | backend/src/routes/products.py:88-91 | a sent value is forwarded and a null is not; a field left out is forwarded as its default under exclude_none, and not at all when only sent fields are forwarded |
| ProductControllerPy.CleanImages | backend/src/routes/products.py:36-41 | every kept image is the stripped form of a non-empty entry, and the list never grows |
| ProductControllerPy.UpdatePayload | backend/src/routes/products.py:15-52 | a negative price or stock is a 422; otherwise price and name are forwarded exactly when sent, the slug lower-cased and the images cleaned |
| ProductControllerPy.Apply | backend/src/controllers/productController.py:72-73 | every forwarded key is set on the product and the fields the payload does not carry are kept |
| ProductControllerPy.UpdateProduct | backend/src/controllers/productController.py:68-75 | body errors come first, then an unparseable id crashes and an unknown one is a 404; success stores the loaded product with every forwarded key set, and failure writes nothing |
| ProductControllerPy.PriceUpdateReactivatesAsWritten | backend/src/routes/products.py:20-24 | as written, a price-only update of a switched-off product with stock switches it back on and resets its currency to INR |
| ProductControllerPy.PriceUpdateKeepsRest | backend/src/controllers/productController.py:68-75 | forwarding only what was sent, a price-only update changes the price and nothing else |
| ProductControllerPy.RestockUndoneOnLoad | backend/src/models/Product.py:51-55 | a stock change through the update route is undone by the next load, which restores stock from totalStock |
| ProductControllerPy.Required | backend/src/routes/products.py:44-48 | a required field left out or sent as null is a 422; a sent value passes unchanged |
| ProductControllerPy.CreateEssentials | backend/src/routes/products.py:44-48 | name, slug, price and stock must all be sent; a negative price or stock passes the request model and fails only on the document, as a crash |
| ProductControllerPy.NewProduct | backend/src/controllers/productController.py:62-63 | the new product carries the sent name, lower-cased slug, price and stock with totalStock equal to stock and the document defaults, is active unless switched off or out of stock, and is already a fixed point of loading |
| ProductControllerPy.CreateProduct | backend/src/controllers/productController.py:62-65 | the product is stored under the fresh id exactly when the body is acceptable and no stored product has its slug; a failure writes nothing |
| ProductControllerPy.CreateThenGet | backend/src/models/Product.py:14 | a created product reads back as created, and creating the same slug again is refused by the unique index |
| ProductControllerPy.DeleteProduct | backend/src/controllers/productController.py:78-83 | an unparseable id crashes, an unknown id is a 404, and otherwise exactly that product is removed |
| ProductControllerPy.DeleteThenGet | backend/src/controllers/productController.py:55-83 | after a delete the product is a 404 for both reading and deleting again |
| ProductControllerJs.ParsePagination | backend/src/controllers/productController.js:5-10 | the page is at least 1 and the limit between 1 and 100 whatever text arrives |
| ProductControllerJs.PaginationAgrees | backend/src/controllers/productController.js:5-10 | decimal numerals, whatever follows the digits, give the pagination the Python backend computes from the numbers |
| ProductControllerJs.ParseQuery | backend/src/controllers/productController.js:13-29 | search and category pass through, and the active filter applies only when given and is true exactly for the text "true" |
| ProductControllerJs.ListProducts | backend/src/controllers/productController.js:12-46 | the answer carries the parsed page and limit, the number of matches and the page count, and at most limit stored documents that match |
| ProductControllerJs.OnlyLiteralTrueSelectsActive | backend/src/controllers/productController.js:27-29 | any active-filter text other than exactly "true" selects the inactive products |
| ProductControllerJs.ListingsAgree | backend/src/controllers/productController.js:12-46 | with the same filters and paging numbers the JavaScript listing pages exactly like the Python one and serves stored matching documents |
| ProductControllerJs.GetProduct | backend/src/controllers/productController.js:48-64 | text that is not an object id is a 400, an unknown id is a 404, and otherwise the stored document comes back |
| ProductControllerJs.GetStored | backend/src/controllers/productController.js:48-64 | a stored id reads back its product in any letter case |
| ProductListing.Paginate | backend/src/controllers/productController.py:18-22 | the page is at least 1 and the limit between 1 and 100; in-range values are kept, missing or zero ones take the defaults 1 and 12, a negative limit becomes 1 and a large one 100, and skip is (page - 1) * limit |
| ProductListing.PaginateIdempotent | backend/src/controllers/productController.py:18-22 | feeding the normalised page and limit back in changes nothing, and the skip is never negative |
| ProductListing.TotalPages | backend/src/controllers/productController.py:49 | the page count is at least 1 and is 1 for an empty listing |
| ProductListing.TotalPagesCover | backend/src/controllers/productController.py:49 | for a non-empty listing the pages hold every item and the last page is not empty |
| ProductListing.Select | backend/src/controllers/productController.py:27-38 | the selection is exactly the products that match the search, category and active filters, in collection order |
| ProductListing.SelectAll | backend/src/controllers/productController.py:27 | an empty query selects every product |
| ProductListing.SelectNarrows | backend/src/controllers/productController.py:37-38 | adding the active filter never selects more |
| ProductListing.ActiveFilterReadsStoredFlag | backend/src/controllers/productController.py:37-40 | a product stored active with no stock is listed under the active filter although the Python model loads it as inactive |
| ProductListing.PageItems | backend/src/controllers/productController.py:40 | a page holds at most limit selected products |
| ProductListing.EveryItemOnItsPage | backend/src/controllers/productController.py:40-49 | the i-th selected product is item i mod limit of page i div limit + 1, a page within the page count |
| Paging.TimesIsProduct | backend/src/controllers/reviewController.py:43 | the skip arithmetic by repeated addition is ordinary multiplication |
| Paging.SkipNegativeIff | admin-backend/src/controllers/orderController.js:55 | the skip `(page - 1) * limit` is negative exactly for a page below 1 with a positive limit or a page above 1 with a negative limit |
| Paging.FloorDivBounds | backend/src/controllers/reviewController.py:81 | the floor division is Python's `//`, rounding toward minus infinity for either sign of the divisor |
| Paging.PageCount | admin-backend/src/controllers/reviewController.js:56 | a zero limit gives no number, a positive limit the ceiling of total over limit, and a negative one a count of at most zero |
| Paging.CeilPagesCover | backend/src/controllers/reviewController.py:81 | with a positive limit the page count holds every document with a non-empty last page, and no documents means no pages |
| Paging.PageOfIndex | backend/src/controllers/reviewController.py:43-47 | the i-th document is found on page i div limit + 1 at position i mod limit, a page no later than the last |
| Paging.Window | backend/src/controllers/reviewController.py:47 | skip then limit returns the consecutive documents from skip on, limit of them when that many remain |
| Paging.WindowAt | backend/src/controllers/reviewController.py:47 | within a positive limit, entry k of the window is the document at the skip plus k |
| JsValues.TypeOf | backend/src/middlewares/validateRequest.js:36 | typeof answers object for null, arrays and objects, and names the kind of every other value |
| JsValues.TrimmedTextIsTrim | backend/src/routes/auth.js:16 | the per-kind reading of trimmed text is exactly trimming the printed value |
| JsValues.TrimmedTextTrimmed | backend/src/routes/auth.js:16 | trimming trimmed text again changes nothing |
| JsValues.TextToNumber | backend/src/routes/cart.js:17 | text converts to an integer or NaN, and blank text to 0 |
| JsValues.NumberOfString | backend/src/routes/cart.js:17-19 | every integer printed as text converts back to itself |
| JsValues.LettersAreNaN | backend/src/routes/cart.js:17-19 | text that is not a number converts to NaN, which no bound or integer check accepts |
| JsValues.ObjectIsNaN | backend/src/routes/cart.js:17 | an object converts through its printed form, which is not a number |
| ReviewControllerPy.Approved | backend/src/controllers/reviewController.py:44-47 | the listed reviews are exactly the product's approved reviews |
| ReviewControllerPy.InsertNewest | backend/src/controllers/reviewController.py:47 | inserting one review into a newest-first list keeps it newest first and adds exactly that review |
| ReviewControllerPy.SortNewest | backend/src/controllers/reviewController.py:47 | the sort puts reviews newest first, keeps their number, and returns only reviews it was given |
| ReviewControllerPy.SortNewestPermutes | backend/src/controllers/reviewController.py:47 | the sort is a permutation: it returns each review as many times as it was given |
| ReviewControllerPy.ListReviews | backend/src/controllers/reviewController.py:34-88 | an unparseable product id is a 400, an unknown product a 404, a negative skip and a zero limit crash, and otherwise the page of approved reviews comes back |
| ReviewControllerPy.ListingCountsApproved | backend/src/controllers/reviewController.py:47-86 | every listed review is an approved review of the product, and both totals count exactly the approved reviews |
| ReviewControllerPy.EveryReviewOnItsPage | backend/src/controllers/reviewController.py:43-81 | the i-th newest approved review is item i mod limit of page i div limit + 1, a page within the page count |
| ReviewControllerPy.ListedAt | backend/src/controllers/reviewController.py:43-81 | the page count is the ceiling of approved reviews over limit, and position k of a page is the matching newest-first approved review |
| ReviewControllerPy.FindReview | backend/src/controllers/reviewController.py:101 | the lookup finds a review by that user of that product, and nothing exactly when there is none |
| ReviewControllerPy.FindById | backend/src/controllers/reviewController.py:135 | the lookup finds the review with that id, and nothing exactly when there is none |
| ReviewControllerPy.CreateReview | backend/src/controllers/reviewController.py:91-127 | an unparseable id is a 400, an unavailable product a 404, a second review by the same user a 409, and invalid fields a validation error; success appends one approved review, marked verified exactly when the user bought the product |
| ReviewControllerPy.OwnReview | backend/src/controllers/reviewController.py:132-140 | an unparseable id is a 400, an unknown review a 404, someone else's review a 403, and only the owner's review goes on |
| ReviewControllerPy.UpdateReview | backend/src/controllers/reviewController.py:130-158 | ownership failures pass through unchanged; the owner's review takes each given field, keeps each omitted one, and is stamped with the update time |
| ReviewControllerPy.DeleteReview | backend/src/controllers/reviewController.py:161-178 | ownership failures pass through unchanged; the owner's review is removed and no other |
| ReviewControllerPy.SecondReviewConflicts | backend/src/controllers/reviewController.py:100-103 | after a review is created, any second review of the same product by the same user is a 409 that writes nothing |
| ReviewControllerPy.CreatedReviewCounted | backend/src/controllers/reviewController.py:115-117 | a created review is approved at once, so the listing counts one more review and includes the new one |
| ReviewControllerPy.OthersCannotTouch | backend/src/controllers/reviewController.py:139-171 | a user who does not own a review gets a 403 for both editing and deleting it, and nothing changes |
| ReviewControllerPy.DeleteTwiceNotFound | backend/src/controllers/reviewController.py:166-168 | deleting a review again finds nothing: a 404 |
| ReviewControllerPy.PaidOrderVerifies | backend/src/controllers/reviewController.py:20-31 | a paid order of the user that has a line for the product makes a review of it a verified purchase |
| WishlistControllerPy.Find | backend/src/controllers/wishlistController.py:58 | the lookup finds the first entry of that user and product, and finds one exactly when one exists |
| WishlistControllerPy.GetWishlist | backend/src/controllers/wishlistController.py:17-45 | the list holds exactly the user's entries whose product exists and is active, each with the product as loaded |
| WishlistControllerPy.Available | backend/src/controllers/wishlistController.py:50-55 | an unparseable id is a 400, a missing or inactive product a 404, and otherwise the product id goes on |
| WishlistControllerPy.Add | backend/src/controllers/wishlistController.py:48-83 | availability errors pass through; a product already listed answers "already in wishlist" with the existing entry and writes nothing; otherwise one entry is appended |
| WishlistControllerPy.Remove | backend/src/controllers/wishlistController.py:86-100 | an unparseable id is a 400 and an unlisted product a 404; otherwise exactly one entry is removed |
| WishlistControllerPy.Toggle | backend/src/controllers/wishlistController.py:103-141 | availability errors pass through; a listed product is removed and reported out, an unlisted one appended and reported in |
| WishlistControllerPy.Clear | backend/src/controllers/wishlistController.py:144-146 | clearing keeps exactly the other users' entries |
| WishlistControllerPy.RemoveAtMembership | backend/src/models/Wishlist.py:15-17 | removing one entry keeps the entries unique per user and product and drops only that pair |
| WishlistControllerPy.AppendMembership | backend/src/models/Wishlist.py:15-17 | appending an entry for a pair not yet listed keeps the entries unique and adds only that pair |
| WishlistControllerPy.EndpointsKeepUnique | backend/src/models/Wishlist.py:15-17 | add, remove, toggle and clear all keep at most one entry per user and product |
| WishlistControllerPy.AddTwice | backend/src/controllers/wishlistController.py:57-67 | adding the same product twice writes once and answers the second time with "already in wishlist" |
| WishlistControllerPy.ToggleTwiceRestores | backend/src/controllers/wishlistController.py:103-141 | toggling twice restores every membership, and restores the list itself when the product was not listed |
| WishlistControllerPy.AddThenRemove | backend/src/controllers/wishlistController.py:48-100 | removing a product just added gives the list back |
| WishlistControllerPy.ClearEmpties | backend/src/controllers/wishlistController.py:144-146 | after clearing, the user's wishlist is empty and every other user's is unchanged |
| ValidateRequestJs.CheckField | backend/src/middlewares/validateRequest.js:21-49 | a missing or null field is required-or-omitted; otherwise the transformed value is kept only if it has the declared type and the rule's check passes, and a wrong type is reported as "Expected" plus the type |
| ValidateRequestJs.Run | backend/src/middlewares/validateRequest.js:18-50 | only fields the schema names ever appear among the errors or the values |
| ValidateRequestJs.BuildBodyValidator | backend/src/middlewares/validateRequest.js:16-59 | an invalid verdict carries at least one error, and a valid body holds only schema fields |
| ValidateRequestJs.RunFields | backend/src/middlewares/validateRequest.js:21-50 | each schema field is among the errors exactly when its check rejects, with its message, and among the values exactly when it is kept, with its value |
| ValidateRequestJs.ValidIffNoField | backend/src/middlewares/validateRequest.js:52-58 | a body is valid exactly when no field rejects, and then holds exactly the kept fields |
| ValidateRequestJs.InvalidReportsEachField | backend/src/middlewares/validateRequest.js:52-55 | an invalid body reports every rejecting field with its message, and no other field |
| ValidateRequestJs.ValidateRequest | backend/src/middlewares/validateRequest.js:1-13 | an invalid body is refused with a 400 "Validation failed" carrying the field errors; a valid one continues with the validated body |
| RouteValidatorsJs.EmailShapeIff | backend/src/routes/auth.js:9-10 | the email pattern holds exactly for text of non-space, non-@ characters with one @ and a dot in the domain that is neither first nor last |
| RouteValidatorsJs.TextRuleOutcome | backend/src/routes/auth.js:13-17 | a text field is required-or-omitted when missing and otherwise kept as transformed |
| RouteValidatorsJs.EmailRuleOutcome | backend/src/routes/auth.js:18-23 | an email field is kept trimmed and lower-cased when it has the email shape and rejected as "Invalid email format" otherwise |
| RouteValidatorsJs.PasswordRuleOutcome | backend/src/routes/auth.js:24-30 | a password is kept as text when at least 8 characters long and rejected otherwise |
| RouteValidatorsJs.SignupOutcomes | backend/src/routes/auth.js:12-36 | the signup schema checks full name, email, password and phone, each with its own rule |
| RouteValidatorsJs.SignupAccepted | backend/src/routes/auth.js:12-36 | a signup body passes exactly when the name is present, the email is well-formed and the password has at least 8 characters |
| RouteValidatorsJs.SignupBody | backend/src/routes/auth.js:12-36 | a passing signup body carries the trimmed lower-case email, the trimmed name, the password as text and the phone only when sent |
| RouteValidatorsJs.LoginAnyPassword | backend/src/routes/auth.js:38-50 | a login body passes with a well-formed email and any present password, however short |
| RouteValidatorsJs.ResetAccepted | backend/src/routes/auth.js:75-94 | a reset body passes exactly with a well-formed email, a code and a new password of at least 8 characters, and the code is trimmed |
| RouteValidatorsJs.OtpBodiesAccepted | backend/src/routes/auth.js:52-73 | the verify body passes with a well-formed email and a code, the resend body with a well-formed email alone |
| RouteValidatorsJs.AddItemAccepted | backend/src/routes/cart.js:13-22 | an add body passes exactly when the product id is present and the quantity converts to a positive integer, which is what it carries on |
| RouteValidatorsJs.UpdateItemAccepted | backend/src/routes/cart.js:24-34 | an update body passes exactly when the quantity converts to an integer of at least 0 |
| RouteValidatorsJs.CleanList | backend/src/routes/products.js:56 | the cleaned image list keeps only non-empty trimmed text and never grows |
| RouteValidatorsJs.ImagesTransform | backend/src/routes/products.js:54-62 | the images become a list: text becomes its trimmed self or nothing, and anything else but a list becomes the empty list |
| RouteValidatorsJs.ImagesTransformIdempotent | backend/src/routes/products.js:54-62 | transforming transformed images changes nothing |
| RouteValidatorsJs.FlagTransform | backend/src/routes/products.js:66-74 | the flag becomes a boolean: a boolean is kept, "true" and "false" in any case are read, and anything else is its truthiness |
| RouteValidatorsJs.ImagesAndFlagNeverFail | backend/src/routes/products.js:48-76 | since the check runs after the transform, the images and flag fields can never be rejected |
| RouteValidatorsJs.PriceAndStockRules | backend/src/routes/products.js:25-42 | a price passes exactly when it converts to a number of at least 0, and a stock exactly when it converts to an integer of at least 0 |
| RouteValidatorsJs.EmptyBodies | backend/src/routes/products.js:13-143 | an empty update body passes with nothing to set, and an empty create body is refused |
| RouteValidatorsJs.AddressErrors | backend/src/routes/orders.js:18-30 | each required address field is reported under its dotted key exactly when it is missing or blank |
| RouteValidatorsJs.AddressKeysInjective | backend/src/routes/orders.js:28 | distinct address fields are reported under distinct keys |
| RouteValidatorsJs.CleanAddress | backend/src/routes/orders.js:44-58 | the cleaned address keeps every other key, trims the required fields, upper-cases the country, and trims the optional line2 and phone or leaves them undefined |
| RouteValidatorsJs.OrderErrors | backend/src/routes/orders.js:10-35 | a missing or non-object address is reported once, otherwise each blank field is reported; notes that are set but not text are reported |
| RouteValidatorsJs.CreateOrderValidator | backend/src/routes/orders.js:10-63 | the body is invalid exactly when there is an error, with those errors; a valid body carries the cleaned address and the trimmed notes |
| RouteValidatorsJs.OrderBodyAcceptedIff | backend/src/routes/orders.js:10-63 | an order body passes exactly when the address is an object with every required field filled and the notes are text or unset |
| AdminCatalog.PreSave | admin-backend/src/models/Product.js:57-63 | the pre-save hook switches off a product whose totalStock is 0, keeps the flag otherwise, stamps updatedAt and changes nothing else |
| AdminCatalog.Save | admin-backend/src/models/Product.js:3-63 | a save succeeds exactly when the document meets the schema's bounds, and the saved product is settled and stamped |
| AdminCatalog.PreSaveIdempotent | admin-backend/src/models/Product.js:57-63 | running the hook again changes only the time stamp, and a settled product is changed only in its time stamp |
| AdminCatalog.SaveDisablesEmpty | admin-backend/src/models/Product.js:57-60 | a valid product saved with no stock is saved switched off |
| AdminCatalog.FindLive | admin-backend/src/controllers/productController.js:170-172 | text that is not an object id is a bad id, a missing or soft-deleted product is not found, and otherwise the live product is found under the lower-case id |
| AdminCatalog.FindCategory | admin-backend/src/controllers/categoryController.js:107 | text that is not an object id is a bad id, an unknown category is not found, and otherwise the category is found |
| AdminCatalog.FindLiveStored | admin-backend/src/controllers/productController.js:170-172 | a stored id finds its product unless soft-deleted, in either letter case |
| AdminOrders.PreSave | admin-backend/src/models/Order.js:89-97 | a new order gets its current status appended to the history, stamped with its creation time; a stored order is unchanged |
| AdminOrders.Save | admin-backend/src/models/Order.js:3-97 | a save succeeds exactly when the order meets the schema, and the saved order has run the hook |
| AdminOrders.FirstSaveRecordsStatus | admin-backend/src/models/Order.js:89-97 | the first save of an order with no history records exactly its status, and saving it again changes nothing |
| AdminOrders.InsertOrder | admin-backend/src/models/Order.js:4-8 | an insert succeeds exactly when the order is valid and no stored order has its orderId; a failure writes nothing |
| AdminOrders.InsertKeepsUnique | admin-backend/src/models/Order.js:4-8 | inserting keeps orderIds unique across the collection |
| AdminReviews.PreSave | admin-backend/src/models/Review.js:79-103 | each of the user, product and text pairs is filled from its twin when one side is missing, updatedAt is stamped, and nothing else changes |
| AdminReviews.PreSaveFillsPairs | admin-backend/src/models/Review.js:79-103 | after the hook both sides of each pair are set whenever either was, and running the hook again changes only the time stamp |
| AdminReviews.Save | admin-backend/src/models/Review.js:3-103 | a save succeeds exactly when the document meets the schema before the hook, since validation runs first |
| AdminReviews.UserOnlyIsRejected | admin-backend/src/models/Review.js:5-10 | a review carrying only `user` fails validation, because the required userId is checked before the hook could copy it |
| AdminReviews.InsertNewest | admin-backend/src/controllers/reviewController.js:111-113 | inserting one review adds exactly that review |
| AdminReviews.InsertNewestSorted | admin-backend/src/controllers/reviewController.js:111-113 | inserting into a newest-first list keeps it newest first |
| AdminReviews.SortNewest | admin-backend/src/controllers/reviewController.js:111-113 | the sort is a permutation of its input |
| AdminReviews.SortNewestSorted | admin-backend/src/controllers/reviewController.js:111-113 | the sort puts reviews newest first |
| AdminCategoryController.CreateCategory | admin-backend/src/controllers/categoryController.js:9-44 | a missing or blank name is a 400, a name taken after trimming is a 400, and otherwise an active category with the trimmed name is stored under the fresh id |
| AdminCategoryController.CreateKeepsUnique | admin-backend/src/controllers/categoryController.js:21-36 | creation keeps category names unique, and a created name is non-empty and trimmed |
| AdminCategoryController.UpdateCategory | admin-backend/src/controllers/categoryController.js:93-136 | a blank name is a 400 and an unknown category a 404; a name another category holds is a 400; otherwise only the name changes, trimmed, and every failure writes nothing |
| AdminCategoryController.RenameToOwnName | admin-backend/src/controllers/categoryController.js:116-119 | renaming a category to its own name, however padded, succeeds and changes nothing, because the name check leaves the category itself out |
| AdminCategoryController.UpdateKeepsUnique | admin-backend/src/controllers/categoryController.js:116-130 | renaming keeps category names unique |
| AdminCategoryController.ToggleCategoryStatus | admin-backend/src/controllers/categoryController.js:147-167 | an unknown category is a 404 that writes nothing; otherwise only the active flag flips |
| AdminCategoryController.ToggleCategoryTwice | admin-backend/src/controllers/categoryController.js:159-161 | toggling twice gives the categories back |
| AdminCategoryController.DeleteCategory | admin-backend/src/controllers/categoryController.js:178-211 | an unknown category is a 404 and one holding live products a 400 naming their count; otherwise the category is only switched off, and no category is ever removed |
| AdminCategoryController.DeletedCategoryTakesNoProducts | admin-backend/src/controllers/categoryController.js:203-205 | after a delete, creating a product in that category is refused as adding to an inactive category |
| AdminCategoryController.LiveProductBlocksDelete | admin-backend/src/controllers/categoryController.js:191-201 | a category with a live product cannot be deleted, and the attempt changes nothing |
| AdminCategoryController.NameOrderTotal | admin-backend/src/controllers/categoryController.js:76 | the name order compares any two names |
| AdminCategoryController.Insert | admin-backend/src/controllers/categoryController.js:76 | inserting one category adds exactly that category |
| AdminCategoryController.InsertSorted | admin-backend/src/controllers/categoryController.js:76 | inserting into a list sorted by name keeps it sorted |
| AdminCategoryController.SortByName | admin-backend/src/controllers/categoryController.js:76 | the sort by name is a permutation of its input |
| AdminCategoryController.SortByNameSorted | admin-backend/src/controllers/categoryController.js:76 | the sort by name yields a list sorted by name |
| AdminCategoryController.ActiveOnly | admin-backend/src/controllers/categoryController.js:76 | the filter keeps exactly the active categories, each as often as it occurs |
| AdminCategoryController.GetActiveCategories | admin-backend/src/controllers/categoryController.js:74-82 | the answer holds exactly the active categories, each as often as stored |
| AdminCategoryController.ActiveCategoriesSorted | admin-backend/src/controllers/categoryController.js:76 | the active categories come back sorted by name |
| AdminProductController.InitialCap | admin-backend/src/controllers/productController.js:61-67 | an unlimited product's per-user cap is its stock; otherwise it is the given cap, or 1 when none is given, and never 0 |
| AdminProductController.CreateChecks | admin-backend/src/controllers/productController.js:21-43 | a missing or falsy required field (a zero price included) is a 400, a negative price a 400, a negative stock a 400, and only a complete body with positive price and non-negative stock passes |
| AdminProductController.ActiveCategory | admin-backend/src/controllers/productController.js:45-59 | text that is not an object id crashes into a 500, an unknown category is a 404, an inactive one a 400, and only an active category is accepted |
| AdminProductController.NewProduct | admin-backend/src/controllers/productController.js:69-79 | the new product has the trimmed name and image, the price, the stock, the computed cap, and is active exactly when it has stock |
| AdminProductController.CreateProduct | admin-backend/src/controllers/productController.js:9-98 | body errors come first; a success stores the product, after the save hook, under the fresh id in an active category; a failure writes nothing |
| AdminProductController.CreatedProduct | admin-backend/src/controllers/productController.js:61-81 | a created product is active exactly when it has stock, is not deleted, and an unlimited one is capped at its stock |
| AdminProductController.GetProductById | admin-backend/src/controllers/productController.js:166-192 | text that is not an object id is a 500, a missing or deleted product a 404, and otherwise the stored live product comes back |
| AdminProductController.CreateThenGet | admin-backend/src/controllers/productController.js:9-192 | creating keeps every stored product settled, and a created product reads back as created |
| AdminProductController.ApplyUpdate | admin-backend/src/controllers/productController.js:249-277 | each given field replaces the stored one; a zero stock switches the product off; an active flag applies only while stock is positive; an unlimited product's cap follows its stock |
| AdminProductController.UpdateCategory | admin-backend/src/controllers/productController.js:235-250 | the category changes only when a different one is given, and then it must exist and be active |
| AdminProductController.UpdateProduct | admin-backend/src/controllers/productController.js:195-294 | a missing product is a 404, a non-positive price a 400, a negative stock a 400; a success stores the updated, settled product; a failure writes nothing |
| AdminProductController.UpdatedProduct | admin-backend/src/controllers/productController.js:255-279 | after an update the products stay settled, a zero stock leaves the product off, and a requested flag is refused only by a product without stock |
| AdminProductController.EmptyUpdateKeeps | admin-backend/src/controllers/productController.js:195-294 | an update with an empty body changes only the time stamp |
| AdminProductController.ToggleProductStatus | admin-backend/src/controllers/productController.js:297-324 | a missing product is a 404 and switching on a product without stock a 400; otherwise only the active flag flips |
| AdminProductController.ToggleTwice | admin-backend/src/controllers/productController.js:297-324 | the toggle succeeds exactly for a product with stock, and toggling twice restores it up to the time stamp |
| AdminProductController.DeleteProduct | admin-backend/src/controllers/productController.js:335-357 | a missing product is a 404; otherwise the product is kept, marked deleted and switched off, and nothing else changes |
| AdminProductController.DeleteThenLookups | admin-backend/src/controllers/productController.js:335-357 | after a soft delete the product is a 404 for reading, toggling, restocking and deleting again |
| AdminProductController.Restock | admin-backend/src/controllers/productController.js:388-398 | the stock is set, a zero stock switches the product off, and an unlimited product's cap follows the stock |
| AdminProductController.UpdateProductStock | admin-backend/src/controllers/productController.js:368-414 | a missing or negative stock is a 400 and a missing product a 404; a success stores the restocked product after the save hook; a failure writes nothing |
| AdminProductController.StockUpdated | admin-backend/src/controllers/productController.js:368-414 | for a limited product any non-negative stock is stored, with a zero stock switching it off |
| AdminProductController.UnlimitedEmptyFailsAsWritten | admin-backend/src/controllers/productController.js:396-400 | as written, emptying an unlimited product sets its cap to 0, below the schema's minimum of 1, so the save fails with a 500 and nothing changes |
| AdminProductController.RestockCorrected | admin-backend/src/controllers/productController.js:388-398 | the corrected restock moves an unlimited product's cap only to a positive stock |
| AdminProductController.UpdateProductStockCorrected | admin-backend/src/controllers/productController.js:368-414 | the corrected endpoint has the same checks and stores the product restocked the corrected way |
| AdminProductController.CorrectedStockAlwaysSaves | admin-backend/src/controllers/productController.js:368-414 | with the correction every non-negative stock is stored, a zero stock switches the product off, and an unlimited product's cap follows a positive stock |
| AdminOrderController.UpdateEntry | admin-backend/src/controllers/orderController.js:163-168 | the history entry records the new status, the time, the admin, and the given notes, or "Status updated to" the status when the notes are empty |
| AdminOrderController.UpdateOrderStatus | admin-backend/src/controllers/orderController.js:122-187 | an empty status is a 400, a status outside the six-step flow a 400, a missing order a 404; a success sets the status and appends one history entry, backwards moves included; a failure writes nothing |
| AdminOrderController.UpdateKnownStatus | admin-backend/src/controllers/orderController.js:142-177 | for a status in the flow: a missing order is a 404 and changes nothing; a found order gets the status and one history entry appended, and is saved in place |
| AdminOrderController.AnyStepAccepted | admin-backend/src/controllers/orderController.js:150-168 | every status of the flow is accepted from any status, the stored orders stay valid, and the history grows by exactly the new entry with its prefix kept |
| AdminOrderController.TwoUpdatesAppendTwo | admin-backend/src/controllers/orderController.js:160-170 | two updates in a row leave the second status and append both entries in order |
| AdminOrderController.SelectOrders | admin-backend/src/controllers/orderController.js:31-53 | an order is listed exactly when it matches the status filter (every paid status by default) and the date range |
| AdminOrderController.DefaultHidesUnpaid | admin-backend/src/controllers/orderController.js:31-41 | without a status filter no unpaid order is listed; with one, only orders of that status are |
| AdminOrderController.GetAllOrders | admin-backend/src/controllers/orderController.js:19-90 | fails with 500 exactly when a date bound is an Invalid Date or the skip `(page - 1) * limit` is negative, so a page below 1 is answered when the limit is 0 or negative; a page counts every match, reports the page count, and lists only matching stored orders |
| AdminOrderController.PageZeroAnswered | admin-backend/src/controllers/orderController.js:55-79 | with both date bounds readable, page 0 with limit -5 is answered, and page 0 with limit 0 lists every match with no page count |
| AdminOrderController.EveryOrderListed | admin-backend/src/controllers/orderController.js:55-79 | with both date bounds readable, every matching order appears on its page at its offset, and that page is within the reported page count |
| AdminReviewController.FindLiveReview | admin-backend/src/controllers/reviewController.js:149-155 | text that is not an object id is refused, a missing or deleted review is not found, and otherwise the live stored review is found |
| AdminReviewController.Edited | admin-backend/src/controllers/reviewController.js:157-171 | a given rating replaces the old one, non-blank text replaces the review text trimmed, and nothing else changes |
| AdminReviewController.EditReview | admin-backend/src/controllers/reviewController.js:144-190 | a missing review is a 404, a rating outside 1 to 5 a 400; a success stores the edited review after the save hook; a failure writes nothing |
| AdminReviewController.EditLeavesCommentStale | admin-backend/src/controllers/reviewController.js:165-173 | an edit sets the review text and rating but leaves the separately stored comment as it was |
| AdminReviewController.RefusedEditThenValid | admin-backend/src/controllers/reviewController.js:158-164 | an edit refused for its rating, whatever its text, leaves no trace: any later edit answers and stores exactly what it would alone |
| AdminReviewController.EditTwice | admin-backend/src/controllers/reviewController.js:157-173 | sending an accepted edit again is accepted and changes only the update time stamp |
| AdminReviewController.DeleteReview | admin-backend/src/controllers/reviewController.js:191-220 | a missing review is a 404; otherwise the review is kept and marked deleted, and no key is added or removed |
| AdminReviewController.DeleteTwice | admin-backend/src/controllers/reviewController.js:191-206 | a deleted review is a 404 for deleting and editing again |
| AdminReviewController.ReviewFilter | admin-backend/src/controllers/reviewController.js:20-29 | a product filter that is not an object id or a rating that does not parse fails; otherwise each filter is present exactly when given |
| AdminReviewController.SelectReviews | admin-backend/src/controllers/reviewController.js:20-29 | a review is listed exactly when it is not deleted and matches the product and rating filters |
| AdminReviewController.GetAllReviews | admin-backend/src/controllers/reviewController.js:9-66 | a bad filter fails with its error; otherwise a 500 exactly when the skip `(page - 1) * limit` is negative; a page counts every match, reports the page count, and lists only live stored reviews that match the product and rating asked for |
| AdminReviewController.EveryReviewListed | admin-backend/src/controllers/reviewController.js:32-56 | every listable review appears on its page at its offset, and that page is within the reported page count |
| AdminReviewController.ReviewListedAt | admin-backend/src/controllers/reviewController.js:32-56 | with a non-negative skip, position k of a page is the listable review at the skip plus k, and the page count is the ceiling of the total over the limit |
| AdminReviewController.GetProductReviews | admin-backend/src/controllers/reviewController.js:98-142 | a bad id is a 500, a missing or deleted product a 404, and otherwise the answer holds exactly the product's live reviews |
| AdminReviewController.ProductReviewsNewestFirst | admin-backend/src/controllers/reviewController.js:111-113 | a product's reviews come newest first and are exactly its live stored reviews |
| AdminUtils.TruncateText | admin-client/src/lib/utils.js:41-44 | text within the limit comes back whole; longer text is cut to the limit and given three dots; a negative limit leaves only the dots |
| AdminUtils.TruncateDefault | admin-client/src/lib/utils.js:41-44 | with the default limit of 50 the result has at most 53 characters and starts with the text's own prefix |
| AdminUtils.TruncateSettles | admin-client/src/lib/utils.js:41-44 | a truncated text is within three characters of the limit, and truncating it again with the limit widened by three changes nothing |
| AdminUtils.StatusBadgeClass | admin-client/src/lib/utils.js:49-60 | success exactly for active and delivered, danger exactly for inactive, warning exactly for dispatched and out for delivery, and info for every other status |
| AdminUtils.BadgeClassesAreKnown | admin-client/src/lib/utils.js:49-60 | every status gets one of the four badge classes, and an unpaid order shows as info |
| ClientToasts.ShowToast | client/src/context/ToastContext.jsx:8-28 | a toast with the same message and kind already shown changes nothing; otherwise the new toast is appended and only the newest three are kept |
| ClientToasts.RemoveToast | client/src/context/ToastContext.jsx:30-32 | exactly the toasts with other ids are kept |
| ClientToasts.ShowKeepsInvariant | client/src/context/ToastContext.jsx:8-28 | showing a toast keeps at most three toasts on screen and never two with the same message and kind |
| ClientToasts.RemoveAppended | client/src/context/ToastContext.jsx:30-32 | removing the last toast's id from a list that did not hold it gives the list back |
| ClientToasts.ShowThenRemove | client/src/context/ToastContext.jsx:8-32 | showing a new toast below the limit and dismissing it restores the list |
| HomeReducer.Reduce | client/src/components/shop/home/HomeContext.js:14-29 | a dropdown action sets its own dropdown to the value given and shuts the other two; other actions leave the dropdowns alone; only the products action touches the products and only the loading action the loading flag; an unknown action changes nothing |
| HomeReducer.ReduceKeepsOneOpen | client/src/components/shop/home/HomeContext.js:16-21 | after any action at most one dropdown is open |
| HomeReducer.RunKeepsOneOpen | client/src/components/shop/home/HomeContext.js:14-29 | from a state with at most one dropdown open, any sequence of actions keeps it so |
| HomeReducer.FromInitial | client/src/components/shop/home/HomeContext.js:1-29 | from the initial state no sequence of actions opens two dropdowns at once |
| StatusFormat.Capitalize | client/src/lib/formatters.js:19 | the word keeps its length, its first character is upper-cased and the rest is kept |
| StatusFormat.CapitalizeAll | client/src/lib/formatters.js:17-20 | each word of the list is capitalised in place |
| StatusFormat.CapitalizeWordsChars | client/src/lib/formatters.js:17-20 | splitting on a separator, capitalising each part and joining with spaces turns each separator into a space and upper-cases each character that opens a part |
| StatusFormat.UnderscoresToSpaces | client/src/lib/formatters.js:16 | every underscore becomes a space and every other character is kept |
| StatusFormat.FormatStatusChars | client/src/lib/formatters.js:15-21 | the label has the status's length; each character is lower-cased, with underscores as spaces, and upper-cased where it opens a word |
| StatusFormat.FormatStatusShape | client/src/lib/formatters.js:15-21 | the label has no underscore and the status's length, and the default empty status gives an empty label |
| StatusFormat.FormatStatusIdempotent | client/src/lib/formatters.js:15-21 | formatting a label again gives the same label |
| StatusFormat.ProfileFormatStatusChars | client/src/pages/ProfilePage.jsx:101-106 | the profile page's label turns underscores into spaces and upper-cases each part's first character, keeping every other character as it is |
| StatusFormat.FormattersDisagree | client/src/lib/formatters.js:15-21 | an upper-case status such as PAID keeps its case on the profile page but becomes Paid in the shared formatter |
| ProfilePage.StatusBadgeClass | client/src/pages/ProfilePage.jsx:84-99 | a status gets more than the plain badge exactly when it is one of the five known statuses |
| ProfilePage.KnownBadgesDistinct | client/src/pages/ProfilePage.jsx:84-99 | no two of the five known statuses share a badge class |
| ProfilePage.BadgeAlwaysBase | client/src/pages/ProfilePage.jsx:84-99 | every badge class starts with the base badge class |
| ProfilePage.CompletedSteps | client/src/pages/ProfilePage.jsx:130-152 | the number of completed steps is between 0 and 5 and is 0 exactly for a cancelled order |
| ProfilePage.TrackingSteps | client/src/pages/ProfilePage.jsx:121-158 | there are five labelled steps; a step is completed exactly when it is within the completed count and current exactly when it is the last completed one |
| ProfilePage.TrackingShape | client/src/pages/ProfilePage.jsx:121-158 | completed steps form a prefix; every order but a cancelled one has exactly one current step; a cancelled one has none completed or current |
| ProfilePage.KnownStatusesAdvance | client/src/pages/ProfilePage.jsx:130-152 | the known statuses advance the tracker strictly from pending payment to delivered, and an unknown status such as order_created shows the first step |
| ClientProducts.DashSpaces | client/src/context/WishlistContext.jsx:22 | each run of whitespace becomes a single dash, so the result has no whitespace, is empty only for empty input, and is unchanged when there is no whitespace |
| ClientProducts.NameKey | client/src/context/WishlistContext.jsx:22 | a name key has no whitespace, is no longer than the name, and is empty only for an empty name |
| ClientProducts.DeriveProductId | client/src/context/WishlistContext.jsx:15-24 | the identifier is the first non-empty of the id fields and slug, else the name key; it is never empty, and it is missing exactly when every source is empty |
| ClientProducts.NameKeyIdempotent | client/src/context/WishlistContext.jsx:22 | deriving a name key from a name key changes nothing |
| ClientProducts.NoUpperAfterLower | client/src/context/WishlistContext.jsx:22 | a name key holds no upper-case letter |
| ClientWishlist.StorageKey | client/src/context/WishlistContext.jsx:26-29 | the key is the prefix and a colon followed by the user's id, else the user's database id, else guest |
| ClientWishlist.StorageKeysSeparateUsers | client/src/context/WishlistContext.jsx:26-29 | two users with different ids never share a storage key, and neither shares the guests' key |
| ClientWishlist.NormaliseProduct | client/src/context/WishlistContext.jsx:31-45 | an entry exists exactly when the product has an identifier; it holds that identifier under both ids, the images or else the single image, and the image |
| ClientWishlist.KeyOf | client/src/context/WishlistContext.jsx:130 | an entry's key is its product id, else its id, else the text undefined |
| ClientWishlist.IsWishlisted | client/src/context/WishlistContext.jsx:126-133 | a product is wishlisted exactly when it has a non-empty identifier and some entry carries that key |
| ClientWishlist.Without | client/src/context/WishlistContext.jsx:154-155 | exactly the entries with another key are kept, in order, and nothing changes when no entry has the key |
| ClientWishlist.ToggleFromBackend | client/src/context/WishlistContext.jsx:149-156 | when the backend says the product is in the wishlist the entry is appended as it is; otherwise every entry of the product is dropped |
| ClientWishlist.ToggleWishlist | client/src/context/WishlistContext.jsx:135-177 | a product without an identifier is refused; with a token, the backend in use and an answer, the answer decides; otherwise the local toggle applies |
| ClientWishlist.LocalToggleFlips | client/src/context/WishlistContext.jsx:166-175 | the local toggle flips whether the product is listed, and the appended entry is keyed by the product's identifier |
| ClientWishlist.LocalToggleTwice | client/src/context/WishlistContext.jsx:166-175 | toggling an unlisted product twice locally gives the list back |
| ClientWishlist.WithoutLast | client/src/context/WishlistContext.jsx:168-171 | dropping a key that only the appended entry carries gives the list before the append |
| ClientWishlist.BackendAddDuplicates | client/src/context/WishlistContext.jsx:152-154 | with the backend in use, an in-wishlist answer for a product already listed appends a second entry for it |
| ClientCart.ComputeTotals | client/src/context/CartContext.jsx:16-27 | an empty cart totals zero quantity and zero amount |
| ClientCart.TotalsAppend | client/src/context/CartContext.jsx:16-27 | the totals of two lists joined are the sums of their totals, so the totals add up item by item |
| ClientCart.Coalesce | client/src/context/CartContext.jsx:51-52 | a present value wins and only a missing one falls through |
| ClientCart.NormaliseItem | client/src/context/CartContext.jsx:46-60 | the item keeps its quantity, takes the unit price or else the price at addition, and keeps its subtotal or else computes quantity times that price |
| ClientCart.NormaliseItems | client/src/context/CartContext.jsx:46 | every item of the payload is normalised, in order |
| ClientCart.NormaliseCart | client/src/context/CartContext.jsx:40-70 | no payload gives the empty cart; otherwise the body is the payload's data or the payload, the status defaults to active, and the totals are the sent ones or else computed from the items |
| ClientCart.ComputedAmountMatchesSubtotals | client/src/context/CartContext.jsx:16-27 | when the backend sends no subtotals and no zero unit price masks a price at addition, the computed amount is the sum of the computed subtotals |
| ClientCart.KeepPositive | client/src/context/CartContext.jsx:221 | exactly the items with a positive quantity are kept, and a list of such items is unchanged |
| ClientCart.FindProduct | client/src/context/CartContext.jsx:199 | the position found is the first item of that product, and none means no item has it |
| ClientCart.AddQuantity | client/src/context/CartContext.jsx:200-204 | a present quantity grows by the amount added |
| ClientCart.LocalItem | client/src/context/CartContext.jsx:206-219 | the new local item is keyed local- and the product id, with the quantity and the product's price |
| ClientCart.UpdateLocal | client/src/context/CartContext.jsx:245-248 | the updated item gets the new quantity, only items with a positive quantity stay, and a non-positive quantity removes the item |
| ClientCart.RemoveLocal | client/src/context/CartContext.jsx:270 | exactly the items with another id are kept |
| ClientCart.ApplyLocal | client/src/context/CartContext.jsx:155-164 | a local update replaces the items, recomputes the totals from them, and keeps the cart's id and status |
| ClientCart.TotalsUpdateOne | client/src/context/CartContext.jsx:16-27 | replacing one item changes the total quantity by exactly that item's change |
| ClientCart.AddRaisesQuantity | client/src/context/CartContext.jsx:196-222 | adding a positive quantity locally raises the total quantity by exactly that amount |
| ClientCart.AddLeavesSubtotalStale | client/src/context/CartContext.jsx:200-204 | adding to a listed product raises its quantity and leaves its subtotal as it was |
| ClientCart.AddThenRemove | client/src/context/CartContext.jsx:196-222 | adding a new product locally and removing its local item gives the list back |
| ClientCart.RemoveAppended | client/src/context/CartContext.jsx:270 | removing the id of an appended item that no other item carries gives the list before the append |
| ClientCart.UpdateToZeroIsRemove | client/src/context/CartContext.jsx:245-248 | on a list of positive quantities, updating an item to zero is the same as removing it |
| ClientCart.AddItem | client/src/context/CartContext.jsx:166-225 | a product without an identifier is refused, and without a token the answer is a 401; the backend's cart is taken when it answers, otherwise the local add applies |
| ClientCart.UpdateItemQuantity | client/src/context/CartContext.jsx:227-251 | the backend's cart is taken when it answers; otherwise the local update applies and the totals are recomputed |
| ClientCart.RemoveItem | client/src/context/CartContext.jsx:253-273 | the backend's cart is taken when it answers; otherwise the local removal applies and the totals are recomputed |
| Migration.Kept | admin-backend/src/scripts/migrate-database.js:234-239 | only lower-case letters and digits are kept |
| Migration.SkipRun | admin-backend/src/scripts/migrate-database.js:237 | a run of characters other than lower-case letters and digits is skipped, and what remains starts with a kept character |
| Migration.Hyphenate | admin-backend/src/scripts/migrate-database.js:237 | each run of other characters becomes a single dash, so no two dashes are adjacent, and the result starts with a dash exactly when the text does not start with a kept character |
| Migration.StripDashes | admin-backend/src/scripts/migrate-database.js:238 | one leading dash and one trailing dash are dropped |
| Migration.GenerateSlug | admin-backend/src/scripts/migrate-database.js:234-239 | every generated slug is lower-case letters and digits joined by single dashes, with no dash at either end |
| Migration.SkipRunKept | admin-backend/src/scripts/migrate-database.js:237 | skipping a run loses no letter or digit |
| Migration.HyphenateKept | admin-backend/src/scripts/migrate-database.js:237 | hyphenating loses no letter or digit |
| Migration.KeptAppend | admin-backend/src/scripts/migrate-database.js:234-239 | the letters and digits of a joined text are those of its parts, in order |
| Migration.StripDashesKept | admin-backend/src/scripts/migrate-database.js:238 | stripping the end dashes loses no letter or digit |
| Migration.SlugKeepsLettersAndDigits | admin-backend/src/scripts/migrate-database.js:234-239 | the slug holds exactly the lower-cased name's letters and digits, in order |
| Migration.HyphenateOfSlugText | admin-backend/src/scripts/migrate-database.js:237 | hyphenating a slug changes nothing |
| Migration.LowerOfSlugText | admin-backend/src/scripts/migrate-database.js:236 | lower-casing a slug changes nothing |
| Migration.SlugFixedPoints | admin-backend/src/scripts/migrate-database.js:234-239 | a text is its own slug exactly when it is a slug |
| Migration.EmptySlugIffNoLettersOrDigits | admin-backend/src/scripts/migrate-database.js:234-239 | the slug is empty exactly when the name has no ASCII letter or digit |
| Migration.SlugIdempotent | admin-backend/src/scripts/migrate-database.js:234-239 | the slug of a slug is the slug |
| Migration.SlugOrGenerated | admin-backend/src/scripts/migrate-database.js:32 | a stored slug is kept; otherwise the slug is generated from the name |
| Migration.FromAdmin | admin-backend/src/scripts/migrate-database.js:29-48 | an admin product keeps its id, name, category and price; its stock and total stock are the total stock, else the stock, else 0; the cap defaults to 1 and the flags to their defaults; images fall back to the image URL |
| Migration.FromUser | admin-backend/src/scripts/migrate-database.js:58-77 | a shop product keeps its id, name and price, loses its category, takes its stock as both stock and total stock, a cap of 1, not unlimited, not deleted, and its first image as the image URL |
| Migration.AdminNames | admin-backend/src/scripts/migrate-database.js:51 | the set holds exactly the lower-cased names of the admin products |
| Migration.NewUserProducts | admin-backend/src/scripts/migrate-database.js:55-57 | exactly the shop products whose lower-cased name no admin product has are kept, in order |
| Migration.MapAdmin | admin-backend/src/scripts/migrate-database.js:28-52 | every admin product is converted, in order |
| Migration.MapUser | admin-backend/src/scripts/migrate-database.js:55-80 | every kept shop product is converted, in order |
| Migration.MigrateProducts | admin-backend/src/scripts/migrate-database.js:15-80 | a product without a name stops the migration; otherwise the result is the converted admin products followed by the converted new shop products |
| Migration.MergeKeepsAdminAndNewNames | admin-backend/src/scripts/migrate-database.js:28-80 | every admin product comes first with its id and name; every later product has no category and a name no admin product has; every new shop product is included; stock equals total stock throughout |
| Migration.UserDuplicatesKept | admin-backend/src/scripts/migrate-database.js:55-80 | shop products are checked only against admin names, so two shop products of one name are both migrated |
| Migration.MigrateCategory | admin-backend/src/scripts/migrate-database.js:204-231 | a category without slug or name stops the migration; otherwise a missing slug is generated, a missing update time is filled, and the category is written exactly when either was missing |
| Migration.CategoryMigrationSettles | admin-backend/src/scripts/migrate-database.js:204-231 | migrating a migrated category again gives the same category, and writes it again only when its generated slug was empty |
| Migration.LinkLine | admin-backend/src/scripts/migrate-database.js:126-130 | both product fields of a line carry its product id, else its product |
| Migration.LinkLines | admin-backend/src/scripts/migrate-database.js:126-130 | every line of the order is linked, in order |
| Migration.MigrateOrder | admin-backend/src/scripts/migrate-database.js:107-155 | user and user id are filled from each other, lines are linked into both line lists, currency, update time and a one-entry history are filled when missing, and the order is written exactly when something changed |
| Migration.LinkLineIdempotent | admin-backend/src/scripts/migrate-database.js:126-130 | linking a linked line changes nothing |
| Migration.OrderMigrationSettles | admin-backend/src/scripts/migrate-database.js:107-155 | migrating a migrated order again changes nothing, and it is written again only because its lines are always relinked |
| Migration.MirrorId | admin-backend/src/scripts/migrate-database.js:166-177 | a field is copied from its twin exactly when the twin is present and the field is missing |
| Migration.MirrorText | admin-backend/src/scripts/migrate-database.js:180-185 | a text is copied from its twin exactly when the twin is non-empty and the text is empty |
| Migration.MigrateReviewFields | admin-backend/src/scripts/migrate-database.js:163-191 | the creation time is never changed |
| Migration.MigrateReview | admin-backend/src/scripts/migrate-database.js:157-202 | user, product and text fields are mirrored from their twins, approval, verified purchase and helpful count get their defaults, a missing update time is filled, and the review is written exactly when something changed |
| Migration.ReviewMigrationSettles | admin-backend/src/scripts/migrate-database.js:157-202 | migrating a migrated review again changes nothing and writes nothing |

## Left out

- Network, database drivers, e-mail, cookies, `localStorage`, timers and logging are not modelled. Each is a parameter or a value the functions return: the mailed code, the cookie to set, the list to persist.
- Concurrency is not modelled. Every request runs alone, so the interleavings of the read-modify-write sequences (stock checks, OTP counters, session rotation) are not analysed.
- The cryptographic primitives (SHA-256, HMAC, bcrypt, JWT) are uninterpreted. Their real collision and forgery properties are not modelled.
- Floating point is not modelled. Prices and amounts are integer paise. The Python float fields, the review average rating and JavaScript's non-integer numbers are left out.
- Case mapping and whitespace are ASCII only. Unicode case folding is not modelled.
- Text.IsSpace: the Python trims also strip the ASCII separators 0x1C to 0x1F, which `Text.Trim` keeps for both backends. Text that starts or ends with one of them is trimmed differently by the Python backend.
- Python `bytes.fromhex` skipping whitespace between digit pairs is not modelled. A signature holding spaces is treated as non-hex.
- Mongoose's acceptance of any 12-byte string as an object id is not modelled. Ids are the 24-hex-digit form in either case.
- Mongoose's trim setters on `paymentIntentId` and `transactionId` are not modelled.
- Display-only data is not modelled: product snapshots' images and slugs, populated user and product names, and the review average rating.
- Sorting by `createdAt` in the order listings is not modelled. The Python `listOrders`/`listAllOrders` and the admin listings take the stored order. The review listings, whose order the source promises, are sorted newest first.
- Sorting by an arbitrary `sortBy` field in the admin listings is not modelled.
- Most admin read-only and statistics endpoints are not modelled. This covers `getAllProducts`, `getAllCategories`, `getOrderById`, `getOrderStats`, `getReviewById`, `getReviewStats` and the admin auth controller. They aggregate and format, and decide nothing the modelled rules do not.
- `getUserReviews` is not modelled. It is a plain filtered read.
- `admin-backend/src/models/Category.js` is not part of this model. Category names and active flags are modelled where the controller reads them.
- The MongoDB `$regex` search treats the search text literally. Regular-expression syntax in the search text is not modelled.
- The migration's `main` sequencing, backups, collection drops and `insertMany` failures on duplicate ids are not modelled. Only the per-document rules are.
- Migration.MigrateCategory: when a category has a name but no letter or digit in it, the generated slug is empty. The model records this as the "written again" case of `CategoryMigrationSettles` and does not treat it as an error.
- The Review model's branch that fills `userId` from `user` when only `user` is given is dead code. The schema requires `userId` first (`AdminReviews.UserOnlyIsRejected`).
- ClientCart.AddLocal: there is no row for the local add. Its effect is stated through `AddRaisesQuantity`, `AddLeavesSubtotalStale` and `AddThenRemove`. The stale subtotal and the totals' use of `||` against the subtotal's `??` are stated, not corrected.
- ClientWishlist.KeyOf: an entry with neither id is keyed by the text `undefined`, as `String(undefined)` gives. Duplicate entries appended after a backend answer are stated (`BackendAddDuplicates`), not corrected.
- Duration: the JavaScript parser's numeric input is modelled for integers only.
- JsValues.TextToNumber: `Number()` of a string is modelled for decimal integer literals, blank text and everything else as NaN. Exponents, hex literals and fractions are left out.
- ProductControllerPy.UpdatePayload: Pydantic's `ge=0` bound is modelled as one 422 for either field. `ProductCreate` does not keep this bound, and the model follows its handler.
- The inherited-property lookups of a JavaScript object literal are left out, for example `statusMap['toString']` in `getStatusBadgeClass`. Only own keys are modelled.
- OtpJs.LoadLimits: a limit that is not an integer is not modelled; the loader gives no limits. In the source such a value is NaN, every comparison with it is false, and the cap, the attempt lock and the expiry are all switched off.
- OtpPy.AssignOtp: the Python datetimes read back from MongoDB are not modelled. `backend/src/db.py:42` opens the client without `tz_aware=True`, so stored send times come back naive, and comparing them with the aware `now` (backend/src/services/otpService.py:46) would raise `TypeError`, a 500. The model compares plain integer times, as if every stored time kept its zone.
- OtpPy.VerifyOtp: the same naive stored expiry compared with the aware `now` (backend/src/services/otpService.py:78) is not modelled.
- Text.PyInt: Python's `int()` accepts underscores between digits, as in `int("1_000")`; the model rejects them.
- The TTL index on a session's `expiresAt` (backend/src/models/Session.js:44-48, backend/src/models/Session.py:25-30) is not modelled. The database deletes expired sessions that were never revoked in the background; in the model such a session stays and is refused by the expiry check.
- SessionJs.CreateSession: the schema's `maxlength` of 512 on `userAgent` and 64 on `ipAddress` (backend/src/models/Session.js:27-34) is not modelled; an over-long header would fail the save with a 500.
- AdminReviewController.EditReview: JSON bodies with fields of the wrong type are not modelled. A `reviewText` of `null` throws in `reviewText.trim()` (admin-backend/src/controllers/reviewController.js:168), a 500; the model takes the text as a string or absent.
- AdminCategoryController.CreateCategory: a category name that is not a string is not modelled; the model takes the name as text or absent.
- AdminOrderController.GetAllOrders: `page` and `limit` are taken as integers. A query text whose `parseInt` is NaN is not modelled. The date texts are taken as already read by `new Date`: as milliseconds, or as an Invalid Date, which fails the query with the 500.
- Catalog.LoadPy: the field bounds (`Catalog.LoadablePy`) are not enforced by the load. A stored document outside them, such as the stored stock of -1 that `OrderControllerPy.SecondSaleUnloadable` reaches, loads in the model, while Beanie raises a `ValidationError` and the route answers 500. The stock checks, snapshots, listings and product, review and wishlist reads of the Python backend therefore do not model that 500. The lemmas about repeated orders require the stored stock to cover what was ordered, which keeps every document loadable.
- AdminReviewController.GetAllReviews: `page` and `limit` are taken as integers. A query text whose `parseInt` is NaN is not modelled.
- RouteValidatorsJs.PasswordRuleOutcome: the length of a password is counted in characters of the model's strings, not in JavaScript's UTF-16 code units, so a password with characters outside the Basic Multilingual Plane is measured differently.

## Findings

| source | as written | input that shows it | evidently intended | confidence | as-written member | corrected member |
|---|---|---|---|---|---|---|
| backend/src/controllers/paymentController.py:22-23 | the signature is checked as an HMAC over the shop's own order id and the payment id | an order whose stored Razorpay order id differs from its shop id, confirmed with the gateway's genuine signature | check the HMAC over the Razorpay order id recorded on the order, as the gateway signs it | not executed | PaymentControllerPy.GenuineRejectedAsWritten | PaymentControllerPy.AcceptedIff |
| backend/src/models/Product.py:51-55 | every load resets `stock` from `totalStock`, while order creation only decrements `stock` (backend/src/controllers/orderController.py:88-91) | a product with total stock 1, ordered once with quantity 1: after reload the same line passes the stock check again; a second sale takes the stored `stock` to -1, after which every load of the product raises a `ValidationError`, and the next checkout (`buildCartSnapshot`, outside the `try` at backend/src/controllers/orderController.py:50-57) answers 500 | decrement the stock the loader keeps, so that an order depletes it | not executed | OrderControllerPy.SecondSaleUnloadable | OrderControllerPy.CorrectedOrderDepletes |
| backend/src/controllers/authController.js:11 | imports `assignOtp` and `verifyOtp`, which the OTP service does not export, so signup stores the user and then fails | any signup: the account is stored unverified, a second signup is a 409, and verification fails as well | export the bucketed `assignOtp` and `verifyOtp` from the service, as the Python service has them | not executed | AuthControllerJs.SignupAsWrittenStrands | AuthControllerJs.SignupThenVerify |
| backend/src/routes/products.py:15-24 | the update schema's defaults (`INR`, stock 0, active) are sent with every update (backend/src/controllers/productController.py:68-75) | a price-only update of a switched-off product with stock: it is switched back on and its currency reset | forward only the fields the client sent | not executed | ProductControllerPy.PriceUpdateReactivatesAsWritten | ProductControllerPy.PriceUpdateKeepsRest |
| admin-backend/src/controllers/productController.js:396-400 | restocking an unlimited product to 0 sets its per-user cap to 0, below the schema's minimum of 1 (admin-backend/src/models/Product.js:24-28) | an unlimited product restocked to 0: the save fails validation and the answer is a 500 | move the cap only to a positive stock, so emptying the product switches it off | not executed | AdminProductController.UnlimitedEmptyFailsAsWritten | AdminProductController.CorrectedStockAlwaysSaves |
