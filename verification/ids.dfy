/**
 * MongoDB object ids as the backends accept them from requests: 24 hex
 * digits of either case. Stored ids are the lower-case form, which is what
 * `str(ObjectId)` and `String(doc._id)` print.
 */
module Ids {

  import opened Base
  import opened Text
  import opened Hex

  type Id = string

  predicate IsObjectIdText(s: string)
  {
    |s| == 24 && forall i :: 0 <= i < |s| ==> HexDigitValue(s[i]).Some?
  }

  /** The canonical form every stored document id has. */
  predicate IsCanonicalId(s: string)
  {
    |s| == 24 && IsLowerHex(s)
  }

  /** `PydanticObjectId(s)` / `mongoose.Types.ObjectId.isValid(s)`, then printing it back. */
  function ParseObjectId(s: string): (r: Option<Id>)
    ensures r.Some? <==> IsObjectIdText(s)
    ensures r.Some? ==> IsCanonicalId(r.value) && r.value == Lower(s)
  {
    if IsObjectIdText(s) then Some(Lower(s)) else None
  }

  /** A stored id parses back to itself: ids echoed to clients round-trip. */
  lemma ParseCanonical(s: string)
    requires IsCanonicalId(s)
    ensures ParseObjectId(s) == Some(s)
  {
    assert Lower(s) == s;
  }

  /** Differently cased spellings of an id name the same document. */
  lemma ParseCaseInsensitive(s: string)
    requires IsObjectIdText(s)
    ensures ParseObjectId(Upper(s)) == ParseObjectId(s)
  {
    assert IsObjectIdText(Upper(s));
    assert Lower(Upper(s)) == Lower(s);
  }
}
