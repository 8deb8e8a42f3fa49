/**
 * The Python cart service: the snapshot a cart is answered with, and the
 * stock check run before an order is placed. Products are read through the
 * Python model, so every live figure is the load-time synchronised one.
 */
module CartServicePy {

  import opened Base
  import opened Text
  import opened Ids
  import opened Catalog
  import opened Shop
  import opened Carts

  const NOT_AVAILABLE: string := "Product not available"
  const INSUFFICIENT: string := "Insufficient stock for "

  /** One snapshot line: `productId` is always the stored reference, live fields only if the product loads. */
  function SnapshotLine(products: Products, it: CartItem): (s: SnapshotItem)
    ensures Mirrors(s, it) && s.productId == Some(it.product)
    ensures s.live.Some? <==> it.product in products
    ensures s.live.Some? ==> s.live.value == LiveOf(LoadPy(products[it.product]))
  {
    SnapshotItem(it.id, Some(it.product), it.quantity, it.priceAtAddition, it.priceAtAddition * it.quantity,
      if it.product in products then Some(LiveOf(LoadPy(products[it.product]))) else None)
  }

  function SnapshotLines(products: Products, items: seq<CartItem>): (r: seq<SnapshotItem>)
    ensures |r| == |items|
    ensures forall i :: 0 <= i < |r| ==> r[i] == SnapshotLine(products, items[i])
  {
    if items == [] then [] else [SnapshotLine(products, items[0])] + SnapshotLines(products, items[1..])
  }

  /**
   * `buildCartSnapshot`: one line per cart line, in order, priced at the
   * frozen `priceAtAddition`; the totals are the cart's quantity and value.
   */
  function BuildSnapshot(db: Db, cart: Id): (r: Snapshot)
    ensures |r.items| == |ItemsOf(db.cartItems, cart)|
    ensures forall i :: 0 <= i < |r.items| ==> r.items[i] == SnapshotLine(db.products, ItemsOf(db.cartItems, cart)[i])
    ensures r.totals == Totals(CartQuantity(ItemsOf(db.cartItems, cart)), CartValue(ItemsOf(db.cartItems, cart)))
  {
    var items := SnapshotLines(db.products, ItemsOf(db.cartItems, cart));
    AccumulateMirrors(items, ItemsOf(db.cartItems, cart), Totals(0, 0));
    Snapshot(items, Accumulate(items, Totals(0, 0)))
  }

  /** Two units at 100 and one at 250 come to 3 units and 450. */
  lemma TotalsExample(db: Db, cart: Id, a: Id, b: Id, p: Id, q: Id)
    requires db.cartItems == [CartItem(a, cart, p, 2, 100), CartItem(b, cart, q, 1, 250)]
    ensures BuildSnapshot(db, cart).totals == Totals(3, 450)
  {
    var items := db.cartItems;
    assert ItemsOf(items[1..], cart) == [items[1]] by {
      assert items[1..][1..] == [];
    }
    assert ItemsOf(items, cart) == items;
    assert CartQuantity(items[1..]) == 1 && CartValue(items[1..]) == 250 by {
      assert items[1..][1..] == [];
    }
  }

  /** An empty cart has an empty snapshot with zero totals. */
  lemma EmptySnapshot(db: Db, cart: Id)
    requires ItemsOf(db.cartItems, cart) == []
    ensures BuildSnapshot(db, cart) == Snapshot([], Totals(0, 0))
  {
  }

  /** The verdict on one line: a `ValueError` message, or nothing. */
  function StockCheck(products: Products, s: SnapshotItem): (r: Option<Error>)
    ensures r.None? <==> s.productId.Some? && AvailablePy(products, s.productId.value) &&
                          LoadPy(products[s.productId.value]).stock >= s.quantity
  {
    if s.productId.None? || !AvailablePy(products, s.productId.value) then Some(Crash(NOT_AVAILABLE))
    else
      var p := LoadPy(products[s.productId.value]);
      if p.stock < s.quantity then Some(Crash(INSUFFICIENT + p.name)) else None
  }

  /**
   * `verifyStockLevels`: raises at the first line whose product is missing
   * or inactive or short of stock, and passes iff every line passes.
   */
  function VerifyStockLevels(products: Products, items: seq<SnapshotItem>): (r: Result<()>)
    ensures r.Ok? <==> forall i :: 0 <= i < |items| ==> StockCheck(products, items[i]).None?
    ensures r.Err? ==> exists i :: 0 <= i < |items| && StockCheck(products, items[i]) == Some(r.error) &&
                                   forall j :: 0 <= j < i ==> StockCheck(products, items[j]).None?
    ensures r.Err? ==> r.error == Crash(NOT_AVAILABLE) || (r.error.Crash? && StartsWith(r.error.message, INSUFFICIENT))
  {
    var check := (s: SnapshotItem) => StockCheck(products, s);
    var r := FirstError(items, check);
    assert forall i :: 0 <= i < |items| ==> check(items[i]) == StockCheck(products, items[i]);
    r
  }
}
