/** Pure helpers of the admin client: text truncation and the badge class of a status. */
module AdminUtils {

  const DEFAULT_MAX_LENGTH: int := 50
  const ELLIPSIS: string := "..."

  /**
   * `truncateText(text, maxLength = 50)`: short enough text as it is,
   * else its first `maxLength` characters and an ellipsis; a negative
   * length keeps no characters, as `substring` clamps it to zero.
   */
  function TruncateText(text: string, maxLength: int): (r: string)
    ensures |text| <= maxLength ==> r == text
    ensures |text| > maxLength && maxLength >= 0 ==> r == text[..maxLength] + ELLIPSIS && |r| == maxLength + 3
    ensures |text| > maxLength && maxLength < 0 ==> r == ELLIPSIS
  {
    if |text| <= maxLength then text
    else
      var keep := if maxLength < 0 then 0 else maxLength;
      text[..keep] + ELLIPSIS
  }

  /** With the default length, the result never exceeds 53 characters and always starts like the text. */
  lemma TruncateDefault(text: string)
    ensures |TruncateText(text, DEFAULT_MAX_LENGTH)| <= DEFAULT_MAX_LENGTH + 3
    ensures var r := TruncateText(text, DEFAULT_MAX_LENGTH);
      var k := if |text| <= DEFAULT_MAX_LENGTH then |text| else DEFAULT_MAX_LENGTH;
      r[..k] == text[..k]
  {
  }

  /** A truncated text fits in `maxLength + 3`, so truncating it again to that length changes nothing. */
  lemma TruncateSettles(text: string, maxLength: int)
    requires maxLength >= 0
    ensures var r := TruncateText(text, maxLength);
      |r| <= maxLength + 3 && TruncateText(r, maxLength + 3) == r
  {
  }

  /** The status map of `getStatusBadgeClass`. */
  function StatusClasses(): map<string, string>
  {
    map["active" := "badge-success", "inactive" := "badge-danger", "payment_confirmed" := "badge-info",
        "dispatched" := "badge-warning", "delivered" := "badge-success", "reached_city" := "badge-info",
        "out_for_delivery" := "badge-warning"]
  }

  /** `getStatusBadgeClass`: the mapped class of a known status, else `badge-info`. */
  function StatusBadgeClass(status: string): (r: string)
    ensures r == "badge-success" <==> status in {"active", "delivered"}
    ensures r == "badge-danger" <==> status == "inactive"
    ensures r == "badge-warning" <==> status in {"dispatched", "out_for_delivery"}
    ensures r == "badge-info" <==> status !in {"active", "delivered", "inactive", "dispatched", "out_for_delivery"}
  {
    if status in StatusClasses() then StatusClasses()[status] else "badge-info"
  }

  /** Every class is one of the four badge colours, and `order_created`, absent from the map, shows as info. */
  lemma BadgeClassesAreKnown(status: string)
    ensures StatusBadgeClass(status) in {"badge-success", "badge-danger", "badge-info", "badge-warning"}
    ensures StatusBadgeClass("order_created") == "badge-info"
  {
  }
}
