/**
 * The admin backend's order endpoints: the listing of paid orders with
 * its status and date filters, and the status update, which accepts any
 * step of the flow, forward or backward, and appends one history entry.
 */
module AdminOrderController {

  import opened Base
  import opened Text
  import opened Ids
  import opened Paging
  import opened AdminOrders

  const STATUS_REQUIRED: string := "Status is required"
  const ORDER_NOT_FOUND: string := "Order not found"
  const UPDATE_FAILED: string := "Server error while updating order status"
  const FETCH_FAILED: string := "Server error while fetching orders"

  /** `Invalid status. Valid statuses are: ...`, the flow joined by commas. */
  function InvalidStatus(): string
  {
    "Invalid status. Valid statuses are: " + JoinText(STATUS_FLOW, ", ")
  }

  /** The entry an admin's update appends: the notes when given, else a generated one. */
  function UpdateEntry(status: string, notes: Option<string>, admin: Id, now: int): (e: HistoryEntry)
    ensures e.status == status && e.timestamp == now && e.updatedBy == Some(admin)
    ensures Truthy(notes) ==> e.notes == notes
    ensures !Truthy(notes) ==> e.notes == Some("Status updated to " + status)
  {
    HistoryEntry(status, now, Some(admin), if Truthy(notes) then notes else Some("Status updated to " + status))
  }

  /**
   * `updateOrderStatus`: a missing status, then one outside the flow, then
   * an unknown order are refused; otherwise the status is set and one
   * entry appended, whatever the current status.
   */
  function UpdateOrderStatus(orders: AdminOrderMap, raw: string, status: Option<string>, notes: Option<string>,
                             admin: Id, now: int): (r: (AdminOrderMap, Result<AdminOrder>))
    ensures !Truthy(status) ==> r == (orders, Fail(400, STATUS_REQUIRED))
    ensures Truthy(status) && status.value !in STATUS_FLOW ==> r == (orders, Fail(400, InvalidStatus()))
    ensures Truthy(status) && status.value in STATUS_FLOW && IsObjectIdText(raw) && Lower(raw) !in orders ==>
      r == (orders, Fail(404, ORDER_NOT_FOUND))
    ensures r.1.Err? ==> r.0 == orders
    ensures r.1.Ok? ==> (status.Some? && status.value in STATUS_FLOW && IsObjectIdText(raw) && Lower(raw) in orders &&
      r.0 == orders[Lower(raw) := r.1.value] &&
      r.1.value == orders[Lower(raw)].(status := status.value,
                                       statusHistory := orders[Lower(raw)].statusHistory + [UpdateEntry(status.value, notes, admin, now)]))
  {
    if !Truthy(status) then (orders, Fail(400, STATUS_REQUIRED))
    else if status.value !in STATUS_FLOW then (orders, Fail(400, InvalidStatus()))
    else UpdateKnownStatus(orders, raw, status.value, notes, admin, now)
  }

  /** The update once the status is known to be a step of the flow: the order is looked up, changed and saved. */
  function UpdateKnownStatus(orders: AdminOrderMap, raw: string, status: string, notes: Option<string>,
                             admin: Id, now: int): (r: (AdminOrderMap, Result<AdminOrder>))
    ensures IsObjectIdText(raw) && Lower(raw) !in orders ==> r == (orders, Fail(404, ORDER_NOT_FOUND))
    ensures r.1.Err? ==> r.0 == orders
    ensures r.1.Ok? ==> (IsObjectIdText(raw) && Lower(raw) in orders &&
      r.0 == orders[Lower(raw) := r.1.value] &&
      r.1.value == orders[Lower(raw)].(status := status,
                                       statusHistory := orders[Lower(raw)].statusHistory + [UpdateEntry(status, notes, admin, now)]))
  {
    match ParseObjectId(raw)
    case None => (orders, Fail(500, UPDATE_FAILED))
    case Some(id) =>
      if id !in orders then (orders, Fail(404, ORDER_NOT_FOUND))
      else
        var o := orders[id];
        var changed := o.(status := status, statusHistory := o.statusHistory + [UpdateEntry(status, notes, admin, now)]);
        match Save(changed, false)
        case None => (orders, Fail(500, UPDATE_FAILED))
        case Some(saved) => (orders[id := saved], Ok(saved))
  }

  /** Every stored order passes the schema's validators. */
  predicate AllValid(orders: AdminOrderMap)
  {
    forall id :: id in orders ==> Valid(orders[id])
  }

  /**
   * On valid orders every step of the flow is accepted from every status,
   * backward moves included: the order then has that status, its history
   * one entry more, ending in the update, and the store stays valid.
   */
  lemma AnyStepAccepted(orders: AdminOrderMap, id: Id, status: string, notes: Option<string>, admin: Id, now: int)
    requires AllValid(orders) && IsCanonicalId(id) && id in orders && status in STATUS_FLOW
    ensures var r := UpdateOrderStatus(orders, id, Some(status), notes, admin, now);
      r.1.Ok? && AllValid(r.0) && r.1.value.status == status &&
      |r.1.value.statusHistory| == |orders[id].statusHistory| + 1 &&
      r.1.value.statusHistory[..|orders[id].statusHistory|] == orders[id].statusHistory &&
      r.1.value.statusHistory[|orders[id].statusHistory|] == UpdateEntry(status, notes, admin, now)
  {
    ParseCanonical(id);
    var o := orders[id];
    var changed := o.(status := status, statusHistory := o.statusHistory + [UpdateEntry(status, notes, admin, now)]);
    assert forall i :: 0 <= i < |changed.statusHistory| ==> changed.statusHistory[i].status != "" by {
      forall i | 0 <= i < |changed.statusHistory| ensures changed.statusHistory[i].status != "" {
        if i < |o.statusHistory| {
          assert changed.statusHistory[i] == o.statusHistory[i];
        }
      }
    }
    assert Valid(changed);
  }

  /** Two updates in a row leave the second status and both entries, in order. */
  lemma TwoUpdatesAppendTwo(orders: AdminOrderMap, id: Id, s1: string, s2: string, admin: Id, t1: int, t2: int)
    requires AllValid(orders) && IsCanonicalId(id) && id in orders && s1 in STATUS_FLOW && s2 in STATUS_FLOW
    ensures var first := UpdateOrderStatus(orders, id, Some(s1), None, admin, t1);
      var second := UpdateOrderStatus(first.0, id, Some(s2), None, admin, t2);
      second.1.Ok? && second.1.value.status == s2 &&
      second.1.value.statusHistory ==
        orders[id].statusHistory + [UpdateEntry(s1, None, admin, t1), UpdateEntry(s2, None, admin, t2)]
  {
    AnyStepAccepted(orders, id, s1, None, admin, t1);
    var first := UpdateOrderStatus(orders, id, Some(s1), None, admin, t1);
    AnyStepAccepted(first.0, id, s2, None, admin, t2);
  }

  /**
   * A date bound of the listing as `new Date(text)` reads it: `Unset` when
   * the text is missing or empty, the time in milliseconds, or an Invalid
   * Date for text it cannot read, which the query then fails to cast.
   */
  datatype DateBound = Unset | At(ms: int) | InvalidDate

  /** The listing's filters. */
  datatype OrderQuery = OrderQuery(status: Option<string>, startDate: DateBound, endDate: DateBound)

  /** Neither date bound is an Invalid Date. */
  predicate DatesRead(q: OrderQuery)
  {
    !q.startDate.InvalidDate? && !q.endDate.InvalidDate?
  }

  /**
   * The listing filter: a given status replaces the default of paid
   * orders entirely; `startDate` and `endDate` bound the creation time,
   * both ends included.
   */
  predicate Matches(o: AdminOrder, q: OrderQuery)
  {
    (if Truthy(q.status) then o.status == q.status.value else o.status in SUCCESSFUL) &&
    (q.startDate.At? ==> o.createdAt >= q.startDate.ms) &&
    (q.endDate.At? ==> o.createdAt <= q.endDate.ms)
  }

  /** The matching orders, in the stored order. */
  function SelectOrders(stored: seq<AdminOrder>, q: OrderQuery): (r: seq<AdminOrder>)
    ensures forall o :: o in r <==> o in stored && Matches(o, q)
    ensures |r| <= |stored|
  {
    if stored == [] then []
    else
      assert stored == [stored[0]] + stored[1..];
      if Matches(stored[0], q) then [stored[0]] + SelectOrders(stored[1..], q) else SelectOrders(stored[1..], q)
  }

  /** Without a status filter an order still being created is never listed, and with one only that status is. */
  lemma DefaultHidesUnpaid(stored: seq<AdminOrder>, q: OrderQuery)
    ensures !Truthy(q.status) ==> forall o :: o in SelectOrders(stored, q) ==> o.status != "order_created"
    ensures Truthy(q.status) ==> forall o :: o in SelectOrders(stored, q) ==> o.status == q.status.value
  {
    assert "order_created" !in SUCCESSFUL;
  }

  datatype OrderPage = OrderPage(data: seq<AdminOrder>, page: int, limit: int, total: nat, pages: Option<int>)

  /**
   * `getAllOrders`: the matching orders, skipping `(page - 1) * limit`.
   * The database refuses an Invalid Date bound and a negative skip, and
   * nothing else: a page below 1 is still answered when the limit is 0 or
   * negative.
   */
  function GetAllOrders(stored: seq<AdminOrder>, q: OrderQuery, page: int, limit: int): (r: Result<OrderPage>)
    ensures r.Err? <==> !DatesRead(q) || (page < 1 && limit > 0) || (page > 1 && limit < 0)
    ensures r.Err? ==> r == Fail(500, FETCH_FAILED)
    ensures r.Ok? ==> r.value.total == |SelectOrders(stored, q)| && r.value.page == page && r.value.limit == limit &&
                      r.value.pages == PageCount(r.value.total, limit)
    ensures r.Ok? ==> forall k :: 0 <= k < |r.value.data| ==> Matches(r.value.data[k], q) && r.value.data[k] in stored
  {
    var selected := SelectOrders(stored, q);
    SkipNegativeIff(page, limit);
    var skip := Skip(page, limit);
    if !DatesRead(q) || skip < 0 then Fail(500, FETCH_FAILED)
    else Ok(OrderPage(Window(selected, skip, limit), page, limit, |selected|, PageCount(|selected|, limit)))
  }

  /**
   * `?page=0&limit=-5` skips 5 and is answered; `?page=0&limit=0` skips
   * nothing and is answered with no page count.
   */
  lemma PageZeroAnswered(stored: seq<AdminOrder>, q: OrderQuery)
    requires DatesRead(q)
    ensures GetAllOrders(stored, q, 0, -5).Ok?
    ensures var r := GetAllOrders(stored, q, 0, 0);
      r.Ok? && r.value.pages.None? && r.value.data == SelectOrders(stored, q)
  {
    assert Skip(0, 0) == 0;
  }

  /**
   * With a positive limit every matching order is on exactly the page its
   * position gives, and that page is within the page count.
   */
  lemma EveryOrderListed(stored: seq<AdminOrder>, q: OrderQuery, limit: int, i: nat)
    requires DatesRead(q) && limit > 0 && i < |SelectOrders(stored, q)|
    ensures var r := GetAllOrders(stored, q, i / limit + 1, limit);
      r.Ok? && i % limit < |r.value.data| && r.value.data[i % limit] == SelectOrders(stored, q)[i] &&
      r.value.pages.Some? && i / limit + 1 <= r.value.pages.value
  {
    var selected := SelectOrders(stored, q);
    PageOfIndex(|selected|, limit, i);
    ListedAt(stored, q, limit, i / limit + 1, i % limit);
  }

  /** On a page with a non-negative skip, the `k`-th listed order is the match at the skip plus `k`. */
  lemma ListedAt(stored: seq<AdminOrder>, q: OrderQuery, limit: int, page: int, k: nat)
    requires DatesRead(q) && limit > 0 && page >= 1 && k < limit
    requires Skip(page, limit) >= 0 && Skip(page, limit) + k < |SelectOrders(stored, q)|
    ensures var r := GetAllOrders(stored, q, page, limit);
      r.Ok? && k < |r.value.data| && r.value.data[k] == SelectOrders(stored, q)[Skip(page, limit) + k] &&
      r.value.pages == Some(CeilPages(|SelectOrders(stored, q)|, limit))
  {
    var selected := SelectOrders(stored, q);
    var skip := Skip(page, limit);
    assert GetAllOrders(stored, q, page, limit) ==
      Ok(OrderPage(Window(selected, skip, limit), page, limit, |selected|, PageCount(|selected|, limit)));
  }
}
