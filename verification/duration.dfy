/**
 * Token lifetimes read from `JWT_ACCESS_EXPIRY` and `JWT_REFRESH_EXPIRY`,
 * as the Python backend (`_parse_duration`) and the JavaScript backend
 * (`parseDurationToMs`) parse them. Durations are in milliseconds.
 */
module Duration {

  import opened Base
  import opened Text

  const ACCESS_EXPIRY_DEFAULT: string := "15m"
  const REFRESH_EXPIRY_DEFAULT: string := "7d"
  const ACCESS_FALLBACK_MS: int := 15 * 60 * 1000
  const REFRESH_FALLBACK_MS: int := 7 * 24 * 60 * 60 * 1000

  /** Milliseconds per unit letter. */
  function UnitMs(u: char): int
  {
    match u
    case 's' => 1000
    case 'm' => 60 * 1000
    case 'h' => 60 * 60 * 1000
    case 'd' => 24 * 60 * 60 * 1000
    case _ => 0
  }

  predicate IsUnit(u: char) { u == 's' || u == 'm' || u == 'h' || u == 'd' }

  /** `int(text)` scaled by `scale`, or the `ValueError`. */
  function ScaledInt(text: string, scale: int): (r: Result<int>)
    ensures r.Err? ==> r.error.Crash?
  {
    match PyInt(text)
    case Some(n) => Ok(n * scale)
    case None => Err(Crash("invalid literal for int() with base 10"))
  }

  /**
   * Python `_parse_duration`: strip and lower-case, then test the suffixes
   * "ms", "s", "m", "h", "d" in that order; all digits means seconds;
   * anything else is the fallback. A suffix with a non-integer before it
   * raises `ValueError`.
   */
  function PyParseDuration(value: string, fallbackMs: int): (r: Result<int>)
    ensures r.Err? ==> r.error.Crash?
    ensures r.Ok? && r.value != fallbackMs ==> Lower(Trim(value)) != []
  {
    PyParseNormalised(Lower(Trim(value)), fallbackMs)
  }

  /**
   * `_parse_duration` after stripping and lower-casing. The suffix "ms" is
   * tested first; the one-letter suffixes exclude each other, so testing
   * the last character covers "s", "m", "h" and "d" in any order.
   */
  function PyParseNormalised(v: string, fallbackMs: int): (r: Result<int>)
    ensures r.Err? ==> r.error.Crash?
    ensures r.Ok? && r.value != fallbackMs ==> v != []
  {
    if |v| >= 2 && v[|v| - 2] == 'm' && v[|v| - 1] == 's' then ScaledInt(v[..|v| - 2], 1)
    else if |v| >= 1 && IsUnit(v[|v| - 1]) then ScaledInt(v[..|v| - 1], UnitMs(v[|v| - 1]))
    else if |v| > 0 && AllDigits(v) then Ok(DigitsValue(v) * 1000)
    else Ok(fallbackMs)
  }

  lemma NatStringIsNormal(s: string)
    requires |s| >= 1 && AllDigits(s)
    ensures Trim(s) == s && Lower(s) == s
  {
    TrimOfTrimmed(s);
    LowerOfLower(s);
  }

  /** "<digits><unit>" after normalisation: the suffix tests pick out `unit`. */
  lemma PyNormalisedWithUnit(d: string, unit: string, fallbackMs: int)
    requires |d| >= 1 && AllDigits(d)
    requires unit == "ms" || (|unit| == 1 && IsUnit(unit[0]))
    ensures PyParseNormalised(d + unit, fallbackMs)
            == Ok(DigitsValue(d) * (if unit == "ms" then 1 else UnitMs(unit[0])))
  {
    var s := d + unit;
    assert s[..|s| - |unit|] == d;
    PyIntOfDigits(d);
    if unit != "ms" {
      assert s[|s| - 2] == d[|d| - 1];
    }
  }

  /** "<digits><unit>" is already stripped and lower-case. */
  lemma LiteralIsNormal(d: string, unit: string)
    requires |d| >= 1 && AllDigits(d)
    requires unit == "ms" || (|unit| == 1 && IsUnit(unit[0]))
    ensures Lower(Trim(d + unit)) == d + unit
  {
    var s := d + unit;
    assert !IsSpace(s[0]) && !IsSpace(s[|s| - 1]);
    TrimOfTrimmed(s);
    forall i | 0 <= i < |s| ensures !IsUpperAscii(s[i]) {
      if i < |d| { assert s[i] == d[i]; } else { assert s[i] == unit[i - |d|]; }
    }
    LowerOfLower(s);
  }

  /** Python reads back "<n>ms", "<n>s", "<n>m", "<n>h", "<n>d" as n times the unit. */
  lemma PyParseFormatted(n: nat, unit: string, fallbackMs: int)
    requires unit == "ms" || (|unit| == 1 && IsUnit(unit[0]))
    ensures PyParseDuration(NatToString(n) + unit, fallbackMs)
            == Ok(n * (if unit == "ms" then 1 else UnitMs(unit[0])))
  {
    var d := NatToString(n);
    LiteralIsNormal(d, unit);
    PyNormalisedWithUnit(d, unit, fallbackMs);
  }

  /** Bare digits are seconds. */
  lemma PyParseBareDigits(n: nat, fallbackMs: int)
    ensures PyParseDuration(NatToString(n), fallbackMs) == Ok(n * 1000)
  {
    var s := NatToString(n);
    NatStringIsNormal(s);
    assert !IsUnit(s[|s| - 1]);
  }

  /** Text with no unit letter at the end and not all digits yields the fallback. */
  lemma PyParseFallback(value: string, fallbackMs: int)
    requires var v := Lower(Trim(value));
      (v == [] || !IsUnit(v[|v| - 1])) && !(|v| > 0 && AllDigits(v))
    ensures PyParseDuration(value, fallbackMs) == Ok(fallbackMs)
  {
  }

  /** A "<digits><unit>" literal already in normal form parses to digits times unit. */
  lemma PyParseLiteral(text: string, d: string, unit: char, fallbackMs: int, expected: int)
    requires |d| >= 1 && AllDigits(d) && IsUnit(unit)
    requires text == d + [unit]
    requires expected == DigitsValue(d) * UnitMs(unit)
    ensures PyParseDuration(text, fallbackMs) == Ok(expected)
  {
    assert [unit] != "ms" && [unit][0] == unit;
    LiteralIsNormal(d, [unit]);
    PyNormalisedWithUnit(d, [unit], fallbackMs);
  }

  /** The shipped default "15m" agrees with the access fallback. */
  lemma PyAccessDefault()
    ensures PyParseDuration(ACCESS_EXPIRY_DEFAULT, ACCESS_FALLBACK_MS) == Ok(ACCESS_FALLBACK_MS)
  {
    PyParseLiteral(ACCESS_EXPIRY_DEFAULT, "15", 'm', ACCESS_FALLBACK_MS, ACCESS_FALLBACK_MS);
  }

  /** The shipped default "7d" agrees with the refresh fallback. */
  lemma PyRefreshDefault()
    ensures PyParseDuration(REFRESH_EXPIRY_DEFAULT, REFRESH_FALLBACK_MS) == Ok(REFRESH_FALLBACK_MS)
  {
    PyParseLiteral(REFRESH_EXPIRY_DEFAULT, "7", 'd', REFRESH_FALLBACK_MS, REFRESH_FALLBACK_MS);
  }

  /** `os.getenv(name, default)`: an empty variable is used as it is. */
  function PyEnvOr(env: Env, name: string, default: string): string
  {
    if name in env then env[name] else default
  }

  /** `process.env[name] || default`: an empty variable falls back. */
  function JsEnvOr(env: Env, name: string, default: string): string
  {
    if Configured(env, name) then env[name] else default
  }

  /** The two lifetimes the Python service computes at import time. */
  function PyLifetimes(env: Env): Result<(int, int)>
  {
    var access := PyParseDuration(PyEnvOr(env, "JWT_ACCESS_EXPIRY", ACCESS_EXPIRY_DEFAULT), ACCESS_FALLBACK_MS);
    var refresh := PyParseDuration(PyEnvOr(env, "JWT_REFRESH_EXPIRY", REFRESH_EXPIRY_DEFAULT), REFRESH_FALLBACK_MS);
    if access.Err? then Err(access.error)
    else if refresh.Err? then Err(refresh.error)
    else Ok((access.value, refresh.value))
  }

  /** With neither variable set, Python uses 15 minutes and 7 days. */
  lemma PyLifetimesDefault(env: Env)
    requires "JWT_ACCESS_EXPIRY" !in env && "JWT_REFRESH_EXPIRY" !in env
    ensures PyLifetimes(env) == Ok((ACCESS_FALLBACK_MS, REFRESH_FALLBACK_MS))
  {
    PyAccessDefault();
    PyRefreshDefault();
  }

  /** The JavaScript argument: an environment string, or a number of seconds. */
  datatype DurationValue = DurText(text: string) | DurSeconds(seconds: int)

  predicate Falsy(v: DurationValue)
  {
    match v
    case DurText(t) => t == ""
    case DurSeconds(n) => n == 0
  }

  /**
   * The regular expression `^(\d+)\s*([smhd])$` with the `i` flag: the
   * amount and the lower-cased unit letter when it matches.
   */
  function MatchDuration(t: string): (m: Option<(nat, char)>)
    ensures m.Some? ==> IsUnit(m.value.1)
  {
    if |t| == 0 then None
    else
      var u := LowerChar(t[|t| - 1]);
      var digits := TrimEnd(t[..|t| - 1]);
      if IsUnit(u) && |digits| > 0 && AllDigits(digits) then Some((DigitsValue(digits), u))
      else None
  }

  /**
   * JavaScript `parseDurationToMs`: a falsy value with a truthy fallback is
   * the fallback; a number is seconds; otherwise the trimmed text must match
   * the pattern, or the fallback is used, or a plain `Error` is thrown when
   * the fallback is 0. There is no millisecond unit.
   */
  function JsParseDuration(value: DurationValue, fallbackMs: int): (r: Result<int>)
    ensures r.Err? ==> fallbackMs == 0 && r.error.Crash?
    ensures Falsy(value) && fallbackMs != 0 ==> r == Ok(fallbackMs)
  {
    if Falsy(value) && fallbackMs != 0 then Ok(fallbackMs)
    else
      match value
      case DurSeconds(n) => Ok(n * 1000)
      case DurText(s) =>
        match MatchDuration(Trim(s))
        case Some((amount, unit)) => Ok(amount * UnitMs(unit))
        case None =>
          if fallbackMs != 0 then Ok(fallbackMs)
          else Err(Crash("Invalid duration format: " + s))
  }

  /** JavaScript reads back "<n><spaces><unit>" in either case as n times the unit. */
  lemma JsParseFormatted(n: nat, gap: string, unit: char, fallbackMs: int)
    requires IsUnit(LowerChar(unit))
    requires IsBlank(gap)
    ensures JsParseDuration(DurText(NatToString(n) + gap + [unit]), fallbackMs)
            == Ok(n * UnitMs(LowerChar(unit)))
  {
    var d := NatToString(n);
    var s := d + gap + [unit];
    assert !IsSpace(s[0]) && !IsSpace(s[|s| - 1]);
    TrimOfTrimmed(s);
    assert s[..|s| - 1] == d + gap;
    TrimEndGap(d, gap);
  }

  lemma {:induction false} TrimEndGap(d: string, gap: string)
    requires |d| >= 1 && AllDigits(d)
    requires IsBlank(gap)
    ensures TrimEnd(d + gap) == d
    decreases |gap|
  {
    if |gap| == 0 {
      assert d + gap == d;
      TrimEndOfTrimmed(d);
    } else {
      var s := d + gap;
      assert s[..|s| - 1] == d + gap[..|gap| - 1];
      TrimEndGap(d, gap[..|gap| - 1]);
    }
  }

  /** "<n>ms" does not match the JavaScript pattern: the letter before the unit is not a digit. */
  lemma JsNoMillisecondUnit(n: nat)
    ensures MatchDuration(Trim(NatToString(n) + "ms")) == None
  {
    var s := NatToString(n) + "ms";
    assert !IsSpace(s[0]) && !IsSpace(s[|s| - 1]);
    TrimOfTrimmed(s);
    var p := s[..|s| - 1];
    assert p[|p| - 1] == 'm';
    TrimEndOfTrimmed(p);
  }

  /**
   * "500ms" is 500 milliseconds in Python but does not match the JavaScript
   * pattern, which then falls back.
   */
  lemma MillisecondsDiverge(n: nat, fallbackMs: int)
    requires fallbackMs != 0
    ensures PyParseDuration(NatToString(n) + "ms", fallbackMs) == Ok(n)
    ensures JsParseDuration(DurText(NatToString(n) + "ms"), fallbackMs) == Ok(fallbackMs)
  {
    PyParseFormatted(n, "ms", fallbackMs);
    JsNoMillisecondUnit(n);
  }

  /** The two lifetimes the JavaScript service computes at load time. */
  function JsLifetimes(env: Env): Result<(int, int)>
  {
    var access := JsParseDuration(DurText(JsEnvOr(env, "JWT_ACCESS_EXPIRY", ACCESS_EXPIRY_DEFAULT)), ACCESS_FALLBACK_MS);
    var refresh := JsParseDuration(DurText(JsEnvOr(env, "JWT_REFRESH_EXPIRY", REFRESH_EXPIRY_DEFAULT)), REFRESH_FALLBACK_MS);
    if access.Err? then Err(access.error)
    else if refresh.Err? then Err(refresh.error)
    else Ok((access.value, refresh.value))
  }

  /** JavaScript never fails to load its lifetimes, because both fallbacks are non-zero. */
  lemma JsLifetimesTotal(env: Env)
    ensures JsLifetimes(env).Ok?
  {
  }
}
