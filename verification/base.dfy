/**
 * Shared result and error types.
 *
 * The Python backend signals failure with `HTTPException(status, detail)` or
 * `SessionError(message, status)`; the JavaScript backend throws `Error`s
 * that carry a `status`. Both become `Http`. An exception without a status
 * (a `ValueError`, a `TypeError`, a plain `Error`) reaches the framework's
 * default handler and is answered with 500; it becomes `Crash`.
 */
module Base {

  datatype Option<T> = None | Some(value: T)
  {
    predicate IsSome() { Some? }

    function GetOr(default: T): T
    {
      match this
      case None => default
      case Some(v) => v
    }
  }

  /** A number present and not zero: what `if (n)` and `n || fallback` accept in JavaScript. */
  predicate TruthyInt(n: Option<int>)
  {
    n.Some? && n.value != 0
  }

  /** `n || fallback` for an optional number. */
  function IntOr(n: Option<int>, fallback: int): (r: int)
    ensures TruthyInt(n) ==> r == n.value
    ensures !TruthyInt(n) ==> r == fallback
  {
    if TruthyInt(n) then n.value else fallback
  }

  datatype Error =
    | Http(status: int, message: string)
    | Crash(message: string)
  {
    /** The status code the client finally sees. */
    function Status(): int
    {
      match this
      case Http(s, _) => s
      case Crash(_) => 500
    }
  }

  datatype Result<T> = Ok(value: T) | Err(error: Error)
  {
    predicate IsFailure() { Err? }
  }

  /** Shorthand for the error of an HTTP exception. */
  function Fail<T>(status: int, message: string): Result<T>
  {
    Err(Http(status, message))
  }

  /** An octet, as Python `bytes` and Node `Buffer` hold them. */
  newtype Byte = x: int | 0 <= x < 256

  /**
   * Environment variables. Both backends treat an unset variable and an
   * empty one alike (`if not secret`, `if (!secret)`).
   */
  type Env = map<string, string>

  predicate Configured(env: Env, name: string)
  {
    name in env && env[name] != ""
  }
}
