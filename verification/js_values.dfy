/**
 * The JavaScript values a JSON request body carries, with the
 * conversions the request validators apply to them: `Number(v)`,
 * `String(v)`, `Boolean(v)` and `typeof v`.
 *
 * A number is an integer, a finite or infinite non-integer (kept with its
 * sign and the text it prints as), or `NaN`. Only decimal integer text is
 * read as a number; other numeric text is read as `NaN`.
 */
module JsValues {

  import opened Base
  import opened Text

  datatype Number = Int(i: int) | NotInt(nonNegative: bool, text: string) | NaN

  datatype JsValue =
    | Undefined
    | Null
    | Bool(b: bool)
    | Num(n: Number)
    | Str(s: string)
    | Arr(items: seq<JsValue>)
    | Obj(fields: map<string, JsValue>)

  /** `typeof v`; arrays and `null` are objects. */
  function TypeOf(v: JsValue): (r: string)
    ensures r == "object" <==> v.Null? || v.Arr? || v.Obj?
    ensures r == "string" <==> v.Str?
    ensures r == "number" <==> v.Num?
    ensures r == "boolean" <==> v.Bool?
  {
    match v
    case Undefined => "undefined"
    case Null => "object"
    case Bool(_) => "boolean"
    case Num(_) => "number"
    case Str(_) => "string"
    case Arr(_) => "object"
    case Obj(_) => "object"
  }

  /** `Boolean(v)`: `undefined`, `null`, `false`, `0`, `NaN` and `""` are false. */
  predicate IsTruthy(v: JsValue)
  {
    match v
    case Undefined => false
    case Null => false
    case Bool(b) => b
    case Num(n) => !(n == Int(0) || n.NaN?)
    case Str(s) => s != ""
    case Arr(_) => true
    case Obj(_) => true
  }

  /** A signed integer printed in decimal. */
  function IntToString(i: int): (s: string)
    ensures |s| >= 1
  {
    if i < 0 then "-" + NatToString(-i) else NatToString(i)
  }

  /** `String(n)` for a number. */
  function NumberText(n: Number): string
  {
    match n
    case Int(i) => IntToString(i)
    case NotInt(_, text) => text
    case NaN => "NaN"
  }

  /** `String(v)`. An array prints its elements joined by commas, `null` and `undefined` elements as nothing. */
  function ToStr(v: JsValue): (s: string)
    ensures v.Str? ==> s == v.s
    decreases v, if v.Arr? then |v.items| + 1 else 0
  {
    match v
    case Undefined => "undefined"
    case Null => "null"
    case Bool(b) => if b then "true" else "false"
    case Num(n) => NumberText(n)
    case Str(s) => s
    case Arr(items) => JoinItems(items, 0)
    case Obj(_) => "[object Object]"
  }

  /** The elements from `k` on, printed and joined by commas. */
  function JoinItems(items: seq<JsValue>, k: nat): string
    requires k <= |items|
    decreases Arr(items), |items| - k
  {
    if k == |items| then ""
    else
      var first := if items[k].Null? || items[k].Undefined? then "" else ToStr(items[k]);
      if k + 1 == |items| then first else first + "," + JoinItems(items, k + 1)
  }

  /**
   * `String(v).trim()`, read off per kind: only text, lists and the
   * printed form of a non-integer can carry surrounding whitespace; the
   * other printed forms have none.
   */
  function TrimmedText(v: JsValue): string
  {
    match v
    case Str(s) => Trim(s)
    case Arr(_) => Trim(ToStr(v))
    case Num(NotInt(_, text)) => Trim(text)
    case _ => ToStr(v)
  }

  lemma TrimmedTextIsTrim(v: JsValue)
    ensures TrimmedText(v) == Trim(ToStr(v))
  {
    match v
    case Str(_) =>
    case Arr(_) =>
    case Num(n) =>
      if n.Int? {
        IntTextUnpadded(n.i);
      } else if n.NaN? {
        TrimOfTrimmed("NaN");
      }
    case Undefined => TrimOfTrimmed("undefined");
    case Null => TrimOfTrimmed("null");
    case Bool(b) => TrimOfTrimmed(if b then "true" else "false");
    case Obj(_) => TrimOfTrimmed("[object Object]");
  }

  /** A printed integer is trimmed already: it starts with a sign or a digit and ends with a digit. */
  lemma IntTextUnpadded(i: int)
    ensures Trim(IntToString(i)) == IntToString(i)
  {
    var d := NatToString(if i < 0 then -i else i);
    var s := IntToString(i);
    assert IsDigit(d[0]) && IsDigit(d[|d| - 1]);
    assert s[|s| - 1] == d[|d| - 1];
    assert !IsSpace(s[0]) && !IsSpace(s[|s| - 1]);
    TrimOfTrimmed(s);
  }

  /** Trimming `String(v).trim()` again changes nothing. */
  lemma TrimmedTextTrimmed(v: JsValue)
    ensures Trim(TrimmedText(v)) == TrimmedText(v)
  {
    TrimmedTextIsTrim(v);
    TrimIdempotent(ToStr(v));
  }

  /** `Number(s)` for text: surrounding whitespace is ignored, empty text is 0, an optionally signed run of digits its value. */
  function TextToNumber(s: string): (r: Number)
    ensures r.Int? || r.NaN?
    ensures Trim(s) == "" ==> r == Int(0)
  {
    var t := Trim(s);
    if t == "" then Int(0)
    else if (t[0] == '-' || t[0] == '+') && |t| >= 2 && AllDigits(t[1..]) then
      Int(if t[0] == '-' then -(DigitsValue(t[1..]) as int) else DigitsValue(t[1..]))
    else if AllDigits(t) then Int(DigitsValue(t))
    else NaN
  }

  /** `Number(v)`: arrays convert through their text, objects to `NaN`. */
  function ToNumber(v: JsValue): (r: Number)
    ensures v.Num? ==> r == v.n
  {
    match v
    case Undefined => NaN
    case Null => Int(0)
    case Bool(b) => Int(if b then 1 else 0)
    case Num(n) => n
    case Str(s) => TextToNumber(s)
    case Arr(_) => TextToNumber(ToStr(v))
    case Obj(_) => NaN
  }

  /** An object prints as `[object Object]`, which is not a number. */
  lemma ObjectIsNaN(fields: map<string, JsValue>)
    ensures ToNumber(Obj(fields)) == TextToNumber(ToStr(Obj(fields)))
  {
    var t := ToStr(Obj(fields));
    TrimOfTrimmed(t);
    assert !AllDigits(t) by { assert !IsDigit(t[0]); }
  }

  /** `Number.isInteger(n)`. */
  predicate IsInteger(n: Number)
  {
    n.Int?
  }

  /** `n >= 0`; `NaN` compares false. */
  predicate AtLeastZero(n: Number)
  {
    match n
    case Int(i) => i >= 0
    case NotInt(nonNegative, _) => nonNegative
    case NaN => false
  }

  /** `n > 0`; a non-integer that is not negative is not zero either. */
  predicate AboveZero(n: Number)
  {
    match n
    case Int(i) => i > 0
    case NotInt(nonNegative, _) => nonNegative
    case NaN => false
  }

  /** Printed numbers read back: `Number(String(i)) == i` for every integer. */
  lemma NumberOfString(i: int)
    ensures ToNumber(Str(IntToString(i))) == Int(i)
  {
    var s := IntToString(i);
    var d := NatToString(if i < 0 then -i else i);
    if i < 0 {
      assert s == ['-'] + d && s[1..] == d;
      TrimOfTrimmed(s);
    } else {
      TrimOfTrimmed(s);
    }
  }

  /** Text that is not a number, such as `"abc"`, converts to `NaN`, which no comparison accepts. */
  lemma LettersAreNaN(s: string)
    requires Trim(s) != "" && !IsDigit(Trim(s)[0]) && Trim(s)[0] != '-' && Trim(s)[0] != '+'
    ensures ToNumber(Str(s)) == NaN && !AtLeastZero(ToNumber(Str(s))) && !IsInteger(ToNumber(Str(s)))
  {
  }
}
