/**
 * The cryptographic primitives both backends call, as uninterpreted
 * functions bundled in one record that every operation receives.
 *
 * Nothing is assumed about them globally; a lemma that needs, say, two
 * SHA-256 digests to differ states exactly that in its `requires`.
 */
module Crypto {

  import opened Base
  import opened Hex

  /** A SHA-256 or HMAC-SHA256 output: 32 bytes. */
  type Digest = d: seq<Byte> | |d| == 32 witness seq(32, i => 0 as Byte)

  /** A bcrypt hash is never empty (it is 60 characters of modular-crypt text). */
  type HashText = s: string | s != "" witness "$"

  /** The claims of an access token (HS256 JWT). Times are in seconds. */
  datatype Claims = Claims(sub: string, sid: string, role: string, iat: int, exp: int)

  datatype Crypto = Crypto(
    /** `hashlib.sha256(s.encode()).digest()` / `createHash('sha256')`. */
    sha256: string -> Digest,
    /** HMAC-SHA256 of a message under a key: `hmac.new(key, msg, sha256)`. */
    hmacSha256: (string, string) -> Digest,
    /** `bcrypt.hash(plain)` with the given salt draw. */
    bcryptHash: (string, nat) -> HashText,
    /** `bcrypt.verify(plain, hash)` / `bcrypt.compare(plain, hash)`. */
    bcryptVerify: (string, string) -> bool,
    /** `jwt.encode(claims, key)` / `jwt.sign(claims, key)`. */
    jwtEncode: (Claims, string) -> string,
    /** `jwt.decode` / `jwt.verify` at a time in seconds; `None` is any PyJWT/jsonwebtoken error. */
    jwtDecode: (string, string, int) -> Option<Claims>
  )

  /** `hexdigest()` of SHA-256: what the session store keeps instead of a token. */
  function Sha256Hex(c: Crypto, s: string): (h: string)
    ensures |h| == 64 && IsLowerHex(h)
  {
    HexEncode(c.sha256(s))
  }

  /** `hexdigest()` of HMAC-SHA256. */
  function HmacHex(c: Crypto, key: string, msg: string): (h: string)
    ensures |h| == 64 && IsLowerHex(h)
    ensures PyFromHex(h).Some? && PyFromHex(h).value == c.hmacSha256(key, msg)
  {
    PyFromHexEncode(c.hmacSha256(key, msg));
    HexEncode(c.hmacSha256(key, msg))
  }

  /** Distinct digests give distinct hex strings, so the store can tell tokens apart. */
  lemma {:induction false} HexEncodeInjective(a: seq<Byte>, b: seq<Byte>)
    ensures a != b ==> HexEncode(a) != HexEncode(b)
  {
    PyFromHexEncode(a);
    PyFromHexEncode(b);
  }
}
