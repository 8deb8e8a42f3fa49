/**
 * The pure helpers of the shop's profile page: the badge class of an
 * order's status and the five tracking steps with how far the order got.
 */
module ProfilePage {

  /** The statuses with a class of their own. */
  const KNOWN_STATUSES: set<string> := {"delivered", "shipped", "paid", "pending_payment", "cancelled"}

  /** `getStatusBadgeClass`: the five known statuses have their own class, anything else the plain badge. */
  function StatusBadgeClass(status: string): (r: string)
    ensures r != "status-badge" <==> status in KNOWN_STATUSES
  {
    match status
    case "delivered" => "status-badge status-success"
    case "shipped" => "status-badge status-info"
    case "paid" => "status-badge status-warning"
    case "pending_payment" => "status-badge status-pending"
    case "cancelled" => "status-badge status-error"
    case _ => "status-badge"
  }

  /** Every badge class starts with the plain badge class. */
  lemma BadgeAlwaysBase(status: string)
    ensures |StatusBadgeClass(status)| >= 12 && StatusBadgeClass(status)[..12] == "status-badge"
  {
  }

  /** No two of the five known statuses share a badge. */
  lemma KnownBadgesDistinct(a: string, b: string)
    requires a in KNOWN_STATUSES && b in KNOWN_STATUSES && a != b
    ensures StatusBadgeClass(a) != StatusBadgeClass(b)
  {
  }

  const STEP_LABELS: seq<string> := ["Order Placed", "Payment Confirmed", "Processing", "Shipped", "Delivered"]

  datatype Step = Step(id: int, caption: string, completed: bool, current: bool)

  /** How many steps an order in this status has completed; a cancelled order none, an unknown status one. */
  function CompletedSteps(status: string): (n: int)
    ensures 0 <= n <= 5
    ensures n == 0 <==> status == "cancelled"
  {
    match status
    case "pending_payment" => 1
    case "paid" => 2
    case "processing" => 3
    case "shipped" => 4
    case "delivered" => 5
    case "cancelled" => 0
    case _ => 1
  }

  /** `getTrackingSteps`. */
  function TrackingSteps(status: string): (r: seq<Step>)
    ensures |r| == 5
    ensures forall i :: 0 <= i < 5 ==> r[i].id == i + 1 && r[i].caption == STEP_LABELS[i]
    ensures forall i :: 0 <= i < 5 ==> (r[i].completed <==> r[i].id <= CompletedSteps(status))
    ensures forall i :: 0 <= i < 5 ==> (r[i].current <==> r[i].id == CompletedSteps(status))
  {
    var n := CompletedSteps(status);
    seq(5, i requires 0 <= i < 5 => Step(i + 1, STEP_LABELS[i], i + 1 <= n, i + 1 == n))
  }

  /**
   * The completed steps are a prefix, and exactly one step is current
   * unless the order is cancelled, when none is current or completed.
   */
  lemma TrackingShape(status: string)
    ensures var r := TrackingSteps(status);
      (forall i, j :: 0 <= i < j < 5 && r[j].completed ==> r[i].completed) &&
      (status != "cancelled" ==> exists k :: 0 <= k < 5 && r[k].current && forall j :: 0 <= j < 5 && j != k ==> !r[j].current) &&
      (status == "cancelled" ==> forall j :: 0 <= j < 5 ==> !r[j].current && !r[j].completed)
  {
    var r := TrackingSteps(status);
    if status != "cancelled" {
      var k := CompletedSteps(status) - 1;
      assert r[k].current;
    }
  }

  /** The steps of the five known statuses complete 1, 2, 3, 4 and 5 steps, in the order of the flow. */
  lemma KnownStatusesAdvance()
    ensures CompletedSteps("pending_payment") < CompletedSteps("paid") < CompletedSteps("processing") <
            CompletedSteps("shipped") < CompletedSteps("delivered") == 5
    ensures CompletedSteps("order_created") == 1
  {
  }
}
