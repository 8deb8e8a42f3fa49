/**
 * What placing an order writes, shared by both backends: the order lines
 * copied from a verified cart snapshot, the per-product stock decrement,
 * the compensating delete of an order and its lines, and the lookup of
 * one order by its owner.
 */
module Checkout {

  import opened Base
  import opened Ids
  import opened Catalog
  import opened Shop
  import opened Carts
  import opened Text

  /** Units of a product the snapshot lines order. */
  function Ordered(lines: seq<SnapshotItem>, product: Id): int
  {
    if lines == [] then 0 else LineShare(lines[0], product) + Ordered(lines[1..], product)
  }

  /** What one line orders of a product. */
  function LineShare(s: SnapshotItem, product: Id): int
  {
    if s.productId == Some(product) then s.quantity else 0
  }

  /**
   * How a sale moves a product's stock: the `$inc` on `stock` that both
   * order controllers issue, or the decrement of both stock fields.
   */
  datatype Decrement = StockOnly | BothFields

  function Apply(kind: Decrement, p: Product, q: int): (r: Product)
    ensures r.stock == p.stock - q
    ensures kind == StockOnly ==> r == DecrementStock(p, q)
    ensures kind == BothFields ==> r == DecrementBoth(p, q)
  {
    match kind
    case StockOnly => DecrementStock(p, q)
    case BothFields => DecrementBoth(p, q)
  }

  /** The update one line issues; a line whose product has gone matches nothing. */
  function DecrementLine(kind: Decrement, products: Products, s: SnapshotItem): (r: Products)
    ensures r.Keys == products.Keys
    ensures forall x :: x in products ==> r[x].stock == products[x].stock - LineShare(s, x)
    ensures forall x :: x in products ==> r[x].(stock := products[x].stock, totalStock := products[x].totalStock) == products[x]
    ensures kind == StockOnly ==> forall x :: x in products ==> r[x] == DecrementStock(products[x], LineShare(s, x))
    ensures kind == BothFields ==> forall x :: x in products ==> SettledStock(r[x]) == SettledStock(products[x]) - LineShare(s, x)
  {
    if s.productId.Some? && s.productId.value in products
    then products[s.productId.value := Apply(kind, products[s.productId.value], s.quantity)]
    else products
  }

  /** One update per line, in order. */
  function DecrementAll(kind: Decrement, products: Products, lines: seq<SnapshotItem>): (r: Products)
    ensures r.Keys == products.Keys
    ensures forall x :: x in products ==> r[x].stock == products[x].stock - Ordered(lines, x)
    ensures forall x :: x in products ==> r[x].(stock := products[x].stock, totalStock := products[x].totalStock) == products[x]
    ensures kind == StockOnly ==> forall x :: x in products ==> r[x] == DecrementStock(products[x], Ordered(lines, x))
    ensures kind == BothFields ==> forall x :: x in products ==> SettledStock(r[x]) == SettledStock(products[x]) - Ordered(lines, x)
  {
    if lines == [] then products
    else DecrementAll(kind, DecrementLine(kind, products, lines[0]), lines[1..])
  }

  /** No two snapshot lines name the same product, as the unique `(cart, product)` index ensures. */
  predicate DistinctProducts(lines: seq<SnapshotItem>)
  {
    forall i, j :: 0 <= i < j < |lines| && lines[i].productId.Some? ==> lines[i].productId != lines[j].productId
  }

  /** With distinct products, what a sale orders of a product is the quantity of its one line. */
  lemma {:induction false} OrderedSingle(lines: seq<SnapshotItem>, i: nat)
    requires DistinctProducts(lines) && i < |lines| && lines[i].productId.Some?
    ensures Ordered(lines, lines[i].productId.value) == lines[i].quantity
  {
    var x := lines[i].productId.value;
    if i == 0 {
      OrderedAbsent(lines[1..], x);
    } else {
      assert LineShare(lines[0], x) == 0;
      assert lines[1..][i - 1] == lines[i];
      OrderedSingle(lines[1..], i - 1);
    }
  }

  /** A product no line names is not sold at all. */
  lemma {:induction false} OrderedAbsent(lines: seq<SnapshotItem>, x: Id)
    requires forall j :: 0 <= j < |lines| ==> lines[j].productId != Some(x)
    ensures Ordered(lines, x) == 0
  {
    if lines != [] {
      assert forall j :: 0 <= j < |lines[1..]| ==> lines[1..][j] == lines[j + 1];
      OrderedAbsent(lines[1..], x);
    }
  }

  /**
   * One `order_items` document per snapshot line, copying the product,
   * the product's name, the frozen unit price, the quantity and the
   * subtotal. A verified line always has a product; the fallbacks below
   * are never used for one.
   */
  function OrderItemOf(order: Id, s: SnapshotItem): (r: OrderItem)
    ensures r.order == order && r.unitPrice == s.unitPrice && r.quantity == s.quantity && r.subtotal == s.subtotal
    ensures s.productId.Some? ==> r.product == s.productId.value
    ensures s.live.Some? ==> r.productName == s.live.value.name
  {
    OrderItem(order, s.productId.GetOr(""), if s.live.Some? then s.live.value.name else "", s.unitPrice, s.quantity, s.subtotal)
  }

  function OrderItemsFor(order: Id, lines: seq<SnapshotItem>): (r: seq<OrderItem>)
    ensures |r| == |lines|
    ensures forall i :: 0 <= i < |r| ==> r[i] == OrderItemOf(order, lines[i])
  {
    if lines == [] then [] else [OrderItemOf(order, lines[0])] + OrderItemsFor(order, lines[1..])
  }

  /** The lines just written for an order are exactly that order's lines, when it had none before. */
  lemma OrderItemsForFound(items: seq<OrderItem>, order: Id, lines: seq<SnapshotItem>)
    requires OrderItemsOf(items, order) == []
    ensures OrderItemsOf(items + OrderItemsFor(order, lines), order) == OrderItemsFor(order, lines)
  {
    OrderItemsOfAppend(items, OrderItemsFor(order, lines), order);
  }

  lemma {:induction false} OrderItemsOfAppend(items: seq<OrderItem>, added: seq<OrderItem>, order: Id)
    requires OrderItemsOf(items, order) == []
    requires forall i :: 0 <= i < |added| ==> added[i].order == order
    ensures OrderItemsOf(items + added, order) == added
  {
    if items == [] {
      assert items + added == added;
      OrderItemsOfAll(added, order);
    } else {
      assert (items + added)[1..] == items[1..] + added;
      assert items[0].order != order;
      OrderItemsOfAppend(items[1..], added, order);
    }
  }

  lemma {:induction false} OrderItemsOfAll(added: seq<OrderItem>, order: Id)
    requires forall i :: 0 <= i < |added| ==> added[i].order == order
    ensures OrderItemsOf(added, order) == added
  {
    if added != [] {
      assert forall i :: 0 <= i < |added[1..]| ==> added[1..][i] == added[i + 1];
      OrderItemsOfAll(added[1..], order);
    }
  }

  /** `OrderItem.find(order == id).delete()` / `deleteMany({order})`. */
  function WithoutOrderItems(items: seq<OrderItem>, order: Id): (r: seq<OrderItem>)
    ensures forall i :: 0 <= i < |r| ==> r[i].order != order && r[i] in items
    ensures forall it :: it in items && it.order != order ==> it in r
  {
    if items == [] then []
    else
      var rest := WithoutOrderItems(items[1..], order);
      if items[0].order == order then rest else [items[0]] + rest
  }

  /**
   * Deleting an order's lines after appending them gives back the lines
   * that were there before, when none of those belonged to the order.
   */
  lemma {:induction false} WithoutAppended(items: seq<OrderItem>, added: seq<OrderItem>, order: Id)
    requires forall i :: 0 <= i < |items| ==> items[i].order != order
    requires forall i :: 0 <= i < |added| ==> added[i].order == order
    ensures WithoutOrderItems(items + added, order) == items
  {
    if items == [] {
      assert items + added == added;
      WithoutAll(added, order);
    } else {
      assert (items + added)[1..] == items[1..] + added;
      assert forall i :: 0 <= i < |items[1..]| ==> items[1..][i] == items[i + 1];
      WithoutAppended(items[1..], added, order);
    }
  }

  lemma {:induction false} WithoutAll(added: seq<OrderItem>, order: Id)
    requires forall i :: 0 <= i < |added| ==> added[i].order == order
    ensures WithoutOrderItems(added, order) == []
  {
    if added != [] {
      assert forall i :: 0 <= i < |added[1..]| ==> added[1..][i] == added[i + 1];
      WithoutAll(added[1..], order);
    }
  }

  /** The compensation after a failed gateway call: the order and its lines go, nothing else. */
  function DeleteOrder(db: Db, order: Id): (r: Db)
    ensures order !in r.orders && OrderItemsOf(r.orderItems, order) == []
    ensures forall o :: o != order && o in db.orders ==> o in r.orders && r.orders[o] == db.orders[o]
    ensures r.(orders := db.orders, orderItems := db.orderItems) == db
  {
    var r := db.(orders := db.orders - {order}, orderItems := WithoutOrderItems(db.orderItems, order));
    NoneLeft(r.orderItems, order);
    r
  }

  lemma {:induction false} NoneLeft(items: seq<OrderItem>, order: Id)
    requires forall i :: 0 <= i < |items| ==> items[i].order != order
    ensures OrderItemsOf(items, order) == []
  {
    if items != [] {
      assert forall i :: 0 <= i < |items[1..]| ==> items[1..][i] == items[i + 1];
      NoneLeft(items[1..], order);
    }
  }

  /** Positive quantities, which `OrderItem` validation (`quantity >= 1`) demands of every line. */
  predicate QuantitiesPositive(lines: seq<SnapshotItem>)
  {
    forall i :: 0 <= i < |lines| ==> lines[i].quantity >= 1
  }

  /**
   * The first writes of a checkout: the order, then its lines, whose
   * validation (`quantity >= 1`) can still fail with `invalid` after the
   * order is in, then the stock.
   */
  function Record(kind: Decrement, db: Db, order: Order, lines: seq<SnapshotItem>, invalid: Error): (r: (Db, Result<()>))
    ensures r.0.orders == db.orders[order.id := order]
    ensures !QuantitiesPositive(lines) ==> r == (db.(orders := r.0.orders), Err(invalid))
    ensures QuantitiesPositive(lines) ==>
      r.1 == Ok(()) &&
      r.0 == db.(orders := r.0.orders, orderItems := db.orderItems + OrderItemsFor(order.id, lines),
                 products := DecrementAll(kind, db.products, lines))
  {
    var db1 := db.(orders := db.orders[order.id := order]);
    if !QuantitiesPositive(lines) then (db1, Err(invalid))
    else
      (db1.(orderItems := db.orderItems + OrderItemsFor(order.id, lines), products := DecrementAll(kind, db.products, lines)), Ok(()))
  }

  const ORDER_NOT_FOUND: string := "Order not found"

  /** An order and its lines, as `getOrder` answers. */
  datatype OrderView = OrderView(order: Order, items: seq<OrderItem>)

  /**
   * The lookup both `getOrder`s make: a 400 with `invalid` unless the id
   * parses, a 404 unless an order with that id belongs to the user, and
   * otherwise the stored order with its lines.
   */
  function OwnedOrder(db: Db, user: Id, rawId: string, invalid: string): (r: Result<OrderView>)
    ensures ParseObjectId(rawId).None? <==> r == Fail(400, invalid)
    ensures r.Ok? <==> ParseObjectId(rawId).Some? && ParseObjectId(rawId).value in db.orders &&
                       db.orders[ParseObjectId(rawId).value].user == user
    ensures r.Err? && ParseObjectId(rawId).Some? ==> r == Fail(404, ORDER_NOT_FOUND)
    ensures r.Ok? ==> r.value.order == db.orders[Lower(rawId)] && r.value.items == OrderItemsOf(db.orderItems, Lower(rawId))
  {
    match ParseObjectId(rawId)
    case None => Fail(400, invalid)
    case Some(id) =>
      if id !in db.orders || db.orders[id].user != user then Fail(404, ORDER_NOT_FOUND)
      else Ok(OrderView(db.orders[id], OrderItemsOf(db.orderItems, id)))
  }
}
