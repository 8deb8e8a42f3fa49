/**
 * Hexadecimal text for digests and random bytes.
 *
 * `hexdigest()` / `digest('hex')` and `token_hex` / `toString('hex')` write
 * lower-case pairs. Reading back differs between the backends: Python's
 * `bytes.fromhex` rejects any non-hex character or an odd length with a
 * `ValueError`, while Node's `Buffer.from(s, 'hex')` keeps the pairs up to the
 * first one that is not hex and silently drops an odd last character.
 */
module Hex {

  import opened Base
  import opened Text

  function HexDigitChar(d: nat): (c: char)
    requires d < 16
  {
    if d < 10 then ('0' as int + d) as char else ('a' as int + d - 10) as char
  }

  /** The value of one hex digit of either case, or `None`. */
  function HexDigitValue(c: char): (r: Option<nat>)
    ensures r.Some? ==> r.value < 16
  {
    if '0' <= c <= '9' then Some(c as int - '0' as int)
    else if 'a' <= c <= 'f' then Some(c as int - 'a' as int + 10)
    else if 'A' <= c <= 'F' then Some(c as int - 'A' as int + 10)
    else None
  }

  lemma DigitRoundTrip(d: nat)
    requires d < 16
    ensures HexDigitValue(HexDigitChar(d)) == Some(d)
  {
  }

  predicate IsLowerHex(s: string)
  {
    forall i :: 0 <= i < |s| ==> ('0' <= s[i] <= '9' || 'a' <= s[i] <= 'f')
  }

  /** Two lower-case hex digits per byte, high nibble first. */
  function HexEncode(b: seq<Byte>): (s: string)
    ensures |s| == 2 * |b|
    ensures IsLowerHex(s)
    ensures '.' !in s
  {
    if |b| == 0 then []
    else [HexDigitChar(b[0] as int / 16), HexDigitChar(b[0] as int % 16)] + HexEncode(b[1..])
  }

  /** Python's `bytes.fromhex`; `None` is the `ValueError`. */
  function PyFromHex(s: string): (r: Option<seq<Byte>>)
    ensures r.Some? ==> |s| == 2 * |r.value|
    decreases |s|
  {
    if |s| == 0 then Some([])
    else if |s| == 1 then None
    else
      match (HexDigitValue(s[0]), HexDigitValue(s[1]))
      case (Some(hi), Some(lo)) =>
        (match PyFromHex(s[2..])
         case Some(rest) => Some([(hi * 16 + lo) as Byte] + rest)
         case None => None)
      case _ => None
  }

  /** Node's `Buffer.from(s, 'hex')`: the longest prefix of whole hex pairs. */
  function NodeFromHex(s: string): (r: seq<Byte>)
    ensures 2 * |r| <= |s|
    decreases |s|
  {
    if |s| < 2 then []
    else
      match (HexDigitValue(s[0]), HexDigitValue(s[1]))
      case (Some(hi), Some(lo)) => [(hi * 16 + lo) as Byte] + NodeFromHex(s[2..])
      case _ => []
  }

  lemma {:induction false} PyFromHexEncode(b: seq<Byte>)
    ensures PyFromHex(HexEncode(b)) == Some(b)
  {
    if |b| > 0 {
      var s := HexEncode(b);
      DigitRoundTrip(b[0] as int / 16);
      DigitRoundTrip(b[0] as int % 16);
      assert s[2..] == HexEncode(b[1..]);
      PyFromHexEncode(b[1..]);
      assert b == [b[0]] + b[1..];
    }
  }

  lemma {:induction false} NodeFromHexEncode(b: seq<Byte>)
    ensures NodeFromHex(HexEncode(b)) == b
  {
    if |b| > 0 {
      var s := HexEncode(b);
      DigitRoundTrip(b[0] as int / 16);
      DigitRoundTrip(b[0] as int % 16);
      assert s[2..] == HexEncode(b[1..]);
      NodeFromHexEncode(b[1..]);
      assert b == [b[0]] + b[1..];
    }
  }

  lemma DigitCanonical(c: char, d: nat)
    requires HexDigitValue(c) == Some(d)
    ensures HexDigitChar(d) == LowerChar(c)
  {
  }

  /**
   * What Python's decoder accepts is exactly a case variant of the canonical
   * encoding: whenever it succeeds, lower-casing its input gives back
   * `HexEncode` of its output.
   */
  lemma {:induction false} PyFromHexCanonical(s: string)
    requires PyFromHex(s).Some?
    ensures HexEncode(PyFromHex(s).value) == Lower(s)
    decreases |s|
  {
    if |s| > 0 {
      var hi := HexDigitValue(s[0]).value;
      var lo := HexDigitValue(s[1]).value;
      var rest := PyFromHex(s[2..]).value;
      PyFromHexCanonical(s[2..]);
      var b := (hi * 16 + lo) as Byte;
      assert PyFromHex(s).value == [b] + rest;
      EncodeCons(hi, lo, rest);
      DigitCanonical(s[0], hi);
      DigitCanonical(s[1], lo);
      LowerCons2(s);
    }
  }

  /** Encoding a byte built from two nibbles puts those nibbles' digits in front. */
  lemma EncodeCons(hi: nat, lo: nat, rest: seq<Byte>)
    requires hi < 16 && lo < 16
    ensures HexEncode([(hi * 16 + lo) as Byte] + rest) == [HexDigitChar(hi), HexDigitChar(lo)] + HexEncode(rest)
  {
    var b := (hi * 16 + lo) as Byte;
    assert ([b] + rest)[1..] == rest;
    assert b as int / 16 == hi && b as int % 16 == lo;
  }

  lemma LowerCons2(s: string)
    requires |s| >= 2
    ensures Lower(s) == [LowerChar(s[0]), LowerChar(s[1])] + Lower(s[2..])
  {
    assert s == s[..2] + s[2..];
    LowerAppend(s[..2], s[2..]);
  }


  /** Node also accepts the encoding followed by anything that starts with a non-hex pair. */
  lemma {:induction false} NodeFromHexTrailing(b: seq<Byte>, junk: string)
    requires |junk| < 2 || HexDigitValue(junk[0]).None? || HexDigitValue(junk[1]).None?
    ensures NodeFromHex(HexEncode(b) + junk) == b
  {
    var s := HexEncode(b) + junk;
    if |b| == 0 {
      assert s == junk;
    } else {
      DigitRoundTrip(b[0] as int / 16);
      DigitRoundTrip(b[0] as int % 16);
      assert s[2..] == HexEncode(b[1..]) + junk;
      NodeFromHexTrailing(b[1..], junk);
      assert b == [b[0]] + b[1..];
    }
  }

  /** Case does not matter to a single digit. */
  lemma UpperDigitValue(c: char)
    ensures HexDigitValue(UpperChar(c)) == HexDigitValue(c)
  {
  }

  /** `bytes.fromhex` is case-insensitive: upper-casing the text does not change what it decodes to. */
  lemma {:induction false} PyFromHexUpper(s: string)
    ensures PyFromHex(Upper(s)) == PyFromHex(s)
    decreases |s|
  {
    var u := Upper(s);
    if |s| >= 2 {
      UpperDigitValue(s[0]);
      UpperDigitValue(s[1]);
      assert u[2..] == Upper(s[2..]);
      PyFromHexUpper(s[2..]);
    }
  }

  /** Upper-casing the hex of some bytes still decodes to them. */
  lemma UpperKeepsHex(d: seq<Byte>)
    ensures PyFromHex(Upper(HexEncode(d))) == Some(d)
  {
    PyFromHexUpper(HexEncode(d));
    PyFromHexEncode(d);
  }
  lemma ConsAppend(b: seq<Byte>, rest: seq<Byte>)
    requires |b| > 0
    ensures [b[0]] + (b[1..] + rest) == b + rest
  {
    assert b == [b[0]] + b[1..];
  }

  /** Python decodes a concatenation pair by pair: the encoding followed by `t` decodes iff `t` does. */
  lemma {:induction false} PyFromHexAfterEncoding(b: seq<Byte>, t: string)
    ensures PyFromHex(HexEncode(b) + t) == (match PyFromHex(t) case Some(rest) => Some(b + rest) case None => None)
  {
    var s := HexEncode(b) + t;
    if |b| == 0 {
      assert s == t;
      if PyFromHex(t).Some? {
        assert b + PyFromHex(t).value == PyFromHex(t).value;
      }
    } else {
      var hi, lo := b[0] as int / 16, b[0] as int % 16;
      DigitRoundTrip(hi);
      DigitRoundTrip(lo);
      assert HexDigitValue(s[0]) == Some(hi) && HexDigitValue(s[1]) == Some(lo);
      assert (hi * 16 + lo) as Byte == b[0];
      assert s[2..] == HexEncode(b[1..]) + t;
      PyFromHexAfterEncoding(b[1..], t);
      match PyFromHex(t)
      case None =>
        assert PyFromHex(s[2..]).None?;
      case Some(rest) =>
        assert PyFromHex(s[2..]) == Some(b[1..] + rest);
        ConsAppend(b, rest);
    }
  }
}
