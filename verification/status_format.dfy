/**
 * The two ways the shop client turns a status such as `pending_payment`
 * into a label. The shared formatter replaces underscores with spaces,
 * lower-cases, and capitalises each space-separated word; the profile
 * page splits on underscores only and capitalises each part's first
 * character without lower-casing the rest.
 */
module StatusFormat {

  import opened Text

  /** `word.charAt(0).toUpperCase() + word.slice(1)`. */
  function Capitalize(w: string): (r: string)
    ensures |r| == |w|
    ensures w != [] ==> r[0] == UpperChar(w[0]) && r[1..] == w[1..]
  {
    if w == [] then [] else [UpperChar(w[0])] + w[1..]
  }

  function CapitalizeAll(words: seq<string>): (r: seq<string>)
    ensures |r| == |words| && forall i :: 0 <= i < |words| ==> r[i] == Capitalize(words[i])
  {
    seq(|words|, i requires 0 <= i < |words| => Capitalize(words[i]))
  }

  /** `.split(sep).map(capitalize).join(' ')`. */
  function CapitalizeWords(s: string, sep: char): string
  {
    Join(CapitalizeAll(Split(s, sep)), ' ')
  }

  /** Character by character: each separator becomes a space, and a character opening a word is upper-cased. */
  predicate CapitalizedAt(s: string, sep: char, r: string, i: int)
    requires |r| == |s| && 0 <= i < |s|
  {
    r[i] == (if s[i] == sep then ' '
             else if i == 0 || s[i - 1] == sep then UpperChar(s[i])
             else s[i])
  }

  /** The split-capitalise-join pipeline works character by character. */
  lemma {:induction false} CapitalizeWordsChars(s: string, sep: char)
    ensures |CapitalizeWords(s, sep)| == |s|
    ensures forall i :: 0 <= i < |s| ==> CapitalizedAt(s, sep, CapitalizeWords(s, sep), i)
    decreases |s|
  {
    var parts := Split(s, sep);
    if sep !in s {
      assert parts == [s];
      assert CapitalizeWords(s, sep) == Capitalize(s);
    } else {
      var k := IndexOf(s, sep);
      var head := s[..k];
      var tail := s[k + 1..];
      assert parts == [head] + Split(tail, sep);
      CapitalizeWordsChars(tail, sep);
      var capped := CapitalizeAll(parts);
      assert capped == [Capitalize(head)] + CapitalizeAll(Split(tail, sep));
      assert |capped| >= 2;
      var r := CapitalizeWords(s, sep);
      assert r == Capitalize(head) + [' '] + CapitalizeWords(tail, sep);
      forall i | 0 <= i < |s| ensures CapitalizedAt(s, sep, r, i) {
        if i < k {
          assert s[i] == head[i];
          assert s[i] != sep;
          if i > 0 {
            assert s[i - 1] == head[i - 1];
          }
        } else if i > k {
          assert s[i] == tail[i - k - 1];
          assert CapitalizedAt(tail, sep, CapitalizeWords(tail, sep), i - k - 1);
          if i - k - 1 > 0 {
            assert s[i - 1] == tail[i - k - 2];
          }
        }
      }
    }
  }

  /** `status.replace(/_/g, ' ')`. */
  function UnderscoresToSpaces(s: string): (r: string)
    ensures |r| == |s| && forall i :: 0 <= i < |s| ==> r[i] == (if s[i] == '_' then ' ' else s[i])
  {
    seq(|s|, i requires 0 <= i < |s| => if s[i] == '_' then ' ' else s[i])
  }

  /** `formatStatus(status = '')` of the shared formatters. */
  function FormatStatus(status: string): (r: string)
  {
    CapitalizeWords(Lower(UnderscoresToSpaces(status)), ' ')
  }

  /** A character of the shared formatter's label: upper-cased at the start of a word, else as lower-cased. */
  predicate LabelAt(t: string, r: string, i: int)
    requires |r| == |t| && 0 <= i < |t|
  {
    r[i] == (if i == 0 || t[i - 1] == ' ' then UpperChar(t[i]) else t[i])
  }

  /** The shared formatter's label, character by character. */
  lemma FormatStatusChars(status: string)
    ensures |FormatStatus(status)| == |status|
    ensures forall i :: 0 <= i < |status| ==> LabelAt(Lower(UnderscoresToSpaces(status)), FormatStatus(status), i)
  {
    var t := Lower(UnderscoresToSpaces(status));
    CapitalizeWordsChars(t, ' ');
    var r := FormatStatus(status);
    assert |r| == |t| == |status|;
    forall i | 0 <= i < |status| ensures LabelAt(t, r, i) {
      assert CapitalizedAt(t, ' ', r, i);
      if t[i] == ' ' {
        assert UpperChar(t[i]) == ' ';
      }
    }
  }

  /** The label has no underscore and as many characters as the status; the default empty status gives the empty label. */
  lemma FormatStatusShape(status: string)
    ensures |FormatStatus(status)| == |status|
    ensures '_' !in FormatStatus(status)
    ensures FormatStatus("") == ""
  {
    FormatStatusChars(status);
    FormatStatusChars("");
    var t := Lower(UnderscoresToSpaces(status));
    var r := FormatStatus(status);
    forall i | 0 <= i < |r| ensures r[i] != '_' {
      assert UnderscoresToSpaces(status)[i] != '_';
      assert t[i] != '_';
      assert LabelAt(t, r, i);
    }
  }

  lemma CaseRoundTrip(c: char)
    requires !IsUpperAscii(c)
    ensures LowerChar(UpperChar(c)) == c && LowerChar(c) == c
  {
  }

  /** Formatting a label again gives the same label. */
  lemma FormatStatusIdempotent(status: string)
    ensures FormatStatus(FormatStatus(status)) == FormatStatus(status)
  {
    var t := Lower(UnderscoresToSpaces(status));
    var r := FormatStatus(status);
    FormatStatusChars(status);
    FormatStatusShape(status);
    var t2 := Lower(UnderscoresToSpaces(r));
    assert t2 == t by {
      forall i | 0 <= i < |t| ensures t2[i] == t[i] {
        assert LabelAt(t, r, i);
        assert r[i] in r;
        assert UnderscoresToSpaces(r)[i] == r[i];
        CaseRoundTrip(t[i]);
      }
    }
    FormatStatusChars(r);
    assert FormatStatus(r) == r by {
      forall i | 0 <= i < |r| ensures FormatStatus(r)[i] == r[i] {
        assert LabelAt(t2, FormatStatus(r), i);
        assert LabelAt(t, r, i);
      }
    }
  }

  /** `formatStatus` of the profile page: split on underscores, capitalise each part, join with spaces. */
  function ProfileFormatStatus(status: string): string
  {
    CapitalizeWords(status, '_')
  }

  /**
   * The profile page's label replaces underscores with spaces and
   * upper-cases the first character of each part; every other character
   * is kept as it is, upper-case letters included.
   */
  lemma ProfileFormatStatusChars(status: string)
    ensures var r := ProfileFormatStatus(status);
      |r| == |status| && '_' !in r &&
      forall i :: 0 <= i < |status| ==>
        r[i] == (if status[i] == '_' then ' ' else if i == 0 || status[i - 1] == '_' then UpperChar(status[i]) else status[i])
  {
    CapitalizeWordsChars(status, '_');
    var r := ProfileFormatStatus(status);
    forall i | 0 <= i < |status|
      ensures r[i] == (if status[i] == '_' then ' ' else if i == 0 || status[i - 1] == '_' then UpperChar(status[i]) else status[i])
      ensures r[i] != '_'
    {
      assert CapitalizedAt(status, '_', r, i);
    }
  }

  /** On an upper-case status the two formatters disagree: `PAID` stays `PAID` on the profile page but reads `Paid` elsewhere. */
  lemma FormattersDisagree()
    ensures ProfileFormatStatus("PAID") == "PAID"
    ensures FormatStatus("PAID") == "Paid"
  {
    ProfileFormatStatusChars("PAID");
    FormatStatusChars("PAID");
    assert Lower(UnderscoresToSpaces("PAID")) == "paid";
  }
}
