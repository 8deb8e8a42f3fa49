/**
 * The admin backend's order documents: the six-step status flow, the
 * schema's bounds, and the pre-save hook that records the initial status
 * when an order is first saved.
 */
module AdminOrders {

  import opened Base
  import opened Ids

  /** The statuses an order moves through, in order. */
  const STATUS_FLOW: seq<string> :=
    ["order_created", "payment_confirmed", "dispatched", "reached_city", "out_for_delivery", "delivered"]

  /** The statuses of a paid order: every step after `order_created`. */
  const SUCCESSFUL: seq<string> := STATUS_FLOW[1..]

  datatype Line = Line(productId: Id, productName: string, quantity: int, unitPrice: int, subtotal: int)

  /** One entry of the status history; entries the hook writes carry no author and no notes. */
  datatype HistoryEntry = HistoryEntry(status: string, timestamp: int, updatedBy: Option<Id>, notes: Option<string>)

  datatype AdminOrder = AdminOrder(
    orderId: string,
    userId: Id,
    products: seq<Line>,
    totalAmount: int,
    status: string,
    statusHistory: seq<HistoryEntry>,
    createdAt: int)

  type AdminOrderMap = map<Id, AdminOrder>

  predicate ValidLine(l: Line)
  {
    l.productName != "" && l.quantity >= 1 && l.unitPrice >= 0 && l.subtotal >= 0
  }

  /**
   * The schema's validators: the required texts are non-empty, the status
   * is one of the flow's, every line has at least one unit and no negative
   * amount, and so does the total.
   */
  predicate Valid(o: AdminOrder)
  {
    o.orderId != "" && o.status in STATUS_FLOW && o.totalAmount >= 0 &&
    (forall i :: 0 <= i < |o.products| ==> ValidLine(o.products[i])) &&
    (forall i :: 0 <= i < |o.statusHistory| ==> o.statusHistory[i].status != "")
  }

  /** The pre-save hook: a new order gets its current status recorded at its creation time; an existing one is left alone. */
  function PreSave(o: AdminOrder, isNew: bool): (r: AdminOrder)
    ensures isNew ==> r.statusHistory == o.statusHistory + [HistoryEntry(o.status, o.createdAt, None, None)]
    ensures !isNew ==> r == o
    ensures r.(statusHistory := o.statusHistory) == o
  {
    if isNew then o.(statusHistory := o.statusHistory + [HistoryEntry(o.status, o.createdAt, None, None)]) else o
  }

  /** `order.save()`: validation, then the hook. */
  function Save(o: AdminOrder, isNew: bool): (r: Option<AdminOrder>)
    ensures r.Some? <==> Valid(o)
    ensures r.Some? ==> Valid(r.value) && r.value == PreSave(o, isNew)
  {
    if Valid(o) then Some(PreSave(o, isNew)) else None
  }

  /**
   * An order saved for the first time with no history has exactly one
   * entry, naming its status and creation time; saving it again adds
   * none.
   */
  lemma FirstSaveRecordsStatus(o: AdminOrder)
    requires Valid(o) && o.statusHistory == []
    ensures var first := Save(o, true);
      first.Some? && first.value.statusHistory == [HistoryEntry(o.status, o.createdAt, None, None)] &&
      Save(first.value, false) == first
  {
  }

  /** No two stored orders share an `orderId` (the unique index). */
  predicate UniqueOrderIds(orders: AdminOrderMap)
  {
    forall a, b :: a in orders && b in orders && a != b ==> orders[a].orderId != orders[b].orderId
  }

  const DUPLICATE_ORDER_ID: string := "E11000 duplicate key error"

  /** Inserting a new order: validation, then the unique index, then the hook. */
  function InsertOrder(orders: AdminOrderMap, id: Id, o: AdminOrder): (r: (AdminOrderMap, Result<AdminOrder>))
    requires id !in orders
    ensures r.1.Err? ==> r.0 == orders
    ensures r.1.Ok? <==> Valid(o) && forall k :: k in orders ==> orders[k].orderId != o.orderId
    ensures r.1.Ok? ==> r.1.value == PreSave(o, true) && r.0 == orders[id := r.1.value]
  {
    if !Valid(o) then (orders, Err(Crash("Order validation failed")))
    else if exists k :: k in orders && orders[k].orderId == o.orderId then (orders, Err(Crash(DUPLICATE_ORDER_ID)))
    else (orders[id := PreSave(o, true)], Ok(PreSave(o, true)))
  }

  /** The unique index keeps order numbers unique. */
  lemma InsertKeepsUnique(orders: AdminOrderMap, id: Id, o: AdminOrder)
    requires id !in orders && UniqueOrderIds(orders)
    ensures UniqueOrderIds(InsertOrder(orders, id, o).0)
  {
  }
}
