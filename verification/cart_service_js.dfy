/**
 * The JavaScript cart service. Products are populated as stored (no
 * synchronisation), and the product id of a snapshot line comes from the
 * populated product, so it disappears with the product.
 */
module CartServiceJs {

  import opened Base
  import opened Text
  import opened Ids
  import opened Catalog
  import opened Shop
  import opened Carts

  const NOT_AVAILABLE: string := "Product not available"
  const INSUFFICIENT: string := "Insufficient stock for "

  /** One snapshot line: id and live fields are present only while the product exists. */
  function SnapshotLine(products: Products, it: CartItem): (s: SnapshotItem)
    ensures Mirrors(s, it)
    ensures s.productId.Some? <==> it.product in products
    ensures s.productId.Some? ==> s.productId.value == it.product
    ensures s.live.Some? <==> it.product in products
    ensures s.live.Some? ==> s.live.value == LiveOf(products[it.product])
  {
    if it.product in products then
      SnapshotItem(it.id, Some(it.product), it.quantity, it.priceAtAddition, it.priceAtAddition * it.quantity,
        Some(LiveOf(products[it.product])))
    else
      SnapshotItem(it.id, None, it.quantity, it.priceAtAddition, it.priceAtAddition * it.quantity, None)
  }

  function SnapshotLines(products: Products, items: seq<CartItem>): (r: seq<SnapshotItem>)
    ensures |r| == |items|
    ensures forall i :: 0 <= i < |r| ==> r[i] == SnapshotLine(products, items[i])
  {
    if items == [] then [] else [SnapshotLine(products, items[0])] + SnapshotLines(products, items[1..])
  }

  /** `buildCartSnapshot`: the lines in order and the `reduce`d totals, which are the cart's quantity and value. */
  function BuildSnapshot(db: Db, cart: Id): (r: Snapshot)
    ensures |r.items| == |ItemsOf(db.cartItems, cart)|
    ensures forall i :: 0 <= i < |r.items| ==> r.items[i] == SnapshotLine(db.products, ItemsOf(db.cartItems, cart)[i])
    ensures r.totals == Totals(CartQuantity(ItemsOf(db.cartItems, cart)), CartValue(ItemsOf(db.cartItems, cart)))
  {
    var items := SnapshotLines(db.products, ItemsOf(db.cartItems, cart));
    AccumulateMirrors(items, ItemsOf(db.cartItems, cart), Totals(0, 0));
    Snapshot(items, Accumulate(items, Totals(0, 0)))
  }

  /**
   * `findById(item.productId || item.product)`: a snapshot line has no
   * `product` field, so a line without `productId` looks up nothing.
   */
  function StockCheck(products: Products, s: SnapshotItem): (r: Option<Error>)
    ensures r.None? <==> s.productId.Some? && AvailableJs(products, s.productId.value) &&
                          products[s.productId.value].stock >= s.quantity
    ensures r.Some? ==> r.value.Http? && r.value.status == 400
  {
    if s.productId.None? || !AvailableJs(products, s.productId.value) then Some(Http(400, NOT_AVAILABLE))
    else
      var p := products[s.productId.value];
      if p.stock < s.quantity then Some(Http(400, INSUFFICIENT + p.name)) else None
  }

  /** `verifyStockLevels`: a 400 at the first failing line; passes iff every line passes. */
  function VerifyStockLevels(products: Products, items: seq<SnapshotItem>): (r: Result<()>)
    ensures r.Ok? <==> forall i :: 0 <= i < |items| ==> StockCheck(products, items[i]).None?
    ensures r.Err? ==> exists i :: 0 <= i < |items| && StockCheck(products, items[i]) == Some(r.error) &&
                                   forall j :: 0 <= j < i ==> StockCheck(products, items[j]).None?
    ensures r.Err? ==> r.error.Http? && r.error.status == 400
  {
    var check := (s: SnapshotItem) => StockCheck(products, s);
    var r := FirstError(items, check);
    assert forall i :: 0 <= i < |items| ==> check(items[i]) == StockCheck(products, items[i]);
    r
  }

  /** A line whose product was deleted keeps its price in the totals but fails the stock check. */
  lemma DeletedProductFailsCheck(db: Db, cart: Id, i: nat)
    requires i < |ItemsOf(db.cartItems, cart)|
    requires ItemsOf(db.cartItems, cart)[i].product !in db.products
    ensures BuildSnapshot(db, cart).items[i].productId.None?
    ensures VerifyStockLevels(db.products, BuildSnapshot(db, cart).items) != Ok(())
  {
    var s := BuildSnapshot(db, cart).items;
    assert StockCheck(db.products, s[i]).Some?;
  }
}
