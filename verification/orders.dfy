/**
 * The Python order document's validation: the currency is upper-cased, and
 * `sync_fields` fills in `userId`, makes the `products` / `items` lists
 * stand in for each other, fills in whichever of a line's `product` /
 * `productId` is missing, and starts the status history.
 */
module Orders {

  import opened Base
  import opened Text
  import opened Ids
  import opened Shop

  /** Whichever of a line's two product references is missing is copied from the other. */
  function SyncLine(l: OrderLine): (r: OrderLine)
    ensures l.productId.Some? && l.product.None? ==> r.product == l.productId && r.productId == l.productId
    ensures l.product.Some? && l.productId.None? ==> r.productId == l.product && r.product == l.product
    ensures l.productId.Some? == l.product.Some? ==> r == l
    ensures r.productId.Some? == r.product.Some?
    ensures r.(productId := l.productId, product := l.product) == l
  {
    if l.productId.Some? && l.product.None? then l.(product := l.productId)
    else if l.product.Some? && l.productId.None? then l.(productId := l.product)
    else l
  }

  function SyncLines(ls: seq<OrderLine>): (r: seq<OrderLine>)
    ensures |r| == |ls|
    ensures forall i :: 0 <= i < |r| ==> r[i] == SyncLine(ls[i])
  {
    if ls == [] then [] else [SyncLine(ls[0])] + SyncLines(ls[1..])
  }

  /**
   * Validating an order document. When one of the two line lists is empty
   * the Python code makes it the very same list object as the other, so
   * the line sync that walks `products` reaches both; when both are
   * non-empty only `products` is synced. An empty history gets one entry
   * for the current status, stamped with `createdAt` or, before the first
   * insert, the current time.
   */
  function Validate(o: Order, now: int): (r: Order)
    ensures r.currency == Upper(o.currency)
    ensures r.userId == Some(o.userId.GetOr(o.user))
    ensures o.products == [] || o.items == [] ==> r.items == r.products
    ensures o.products != [] ==> r.products == SyncLines(o.products)
    ensures o.products == [] ==> r.products == SyncLines(o.items)
    ensures o.products != [] && o.items != [] ==> r.items == o.items
    ensures o.statusHistory == [] ==> r.statusHistory == [StatusEntry(o.status, o.createdAt.GetOr(now), None, None)]
    ensures o.statusHistory != [] ==> r.statusHistory == o.statusHistory
    ensures r.(currency := o.currency, userId := o.userId, products := o.products, items := o.items,
               statusHistory := o.statusHistory) == o
  {
    var aliased := o.products == [] || o.items == [];
    var products := SyncLines(if o.products != [] then o.products else o.items);
    o.(currency := Upper(o.currency),
       userId := Some(o.userId.GetOr(o.user)),
       products := products,
       items := if aliased then products else o.items,
       statusHistory := if o.statusHistory == [] then [StatusEntry(o.status, o.createdAt.GetOr(now), None, None)]
                        else o.statusHistory)
  }

  lemma {:induction false} SyncLinesIdempotent(ls: seq<OrderLine>)
    ensures SyncLines(SyncLines(ls)) == SyncLines(ls)
  {
    var once := SyncLines(ls);
    assert forall i :: 0 <= i < |once| ==> SyncLine(once[i]) == once[i];
  }

  /**
   * An order validated once is a fixed point: re-validating what was
   * written (on every load) changes nothing, whatever the time.
   */
  lemma ValidateIdempotent(o: Order, now: int, later: int)
    ensures Validate(Validate(o, now), later) == Validate(o, now)
  {
    var r := Validate(o, now);
    UpperIdempotent(o.currency);
    SyncLinesIdempotent(if o.products != [] then o.products else o.items);
    assert r.statusHistory != [];
  }

  /**
   * After validation every `products` line names its product under both
   * keys or under neither, and `userId` is set.
   */
  lemma ValidatedLinesAgree(o: Order, now: int)
    ensures var r := Validate(o, now);
      r.userId.Some? && forall i :: 0 <= i < |r.products| ==> r.products[i].productId.Some? == r.products[i].product.Some?
  {
  }

  /**
   * An order built without lines and with its history started, as checkout
   * builds one, loads back unchanged.
   */
  lemma ValidateFresh(o: Order, now: int)
    requires o.products == [] && o.items == [] && o.userId.Some? && o.statusHistory != []
    requires Upper(o.currency) == o.currency
    ensures Validate(o, now) == o
  {
  }

  /** Once the history is started, validation leaves the status alone: setting it before or after validating is the same. */
  lemma ValidateKeepsStatus(o: Order, s: OrderStatus, now: int)
    requires o.statusHistory != []
    ensures Validate(o.(status := s), now) == Validate(o, now).(status := s)
  {
  }
}
