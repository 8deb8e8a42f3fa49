/**
 * The shop client's cart state: the totals it shows, the normalisation of
 * a cart the backend sends, and the local updaters it falls back to when
 * the backend cannot be reached. Quantities and prices are whole numbers;
 * a missing number, or one that is not a number, is `None`.
 */
module ClientCart {

  import opened Base
  import opened Text
  import opened ClientProducts

  datatype Totals = Totals(quantity: int, amount: int)

  datatype CartItem = CartItem(
    id: Option<string>,
    productId: Option<string>,
    name: Option<string>,
    quantity: Option<int>,
    unitPrice: Option<int>,
    priceAtAddition: Option<int>,
    subtotal: Option<int>)

  datatype Cart = Cart(id: Option<string>, status: string, items: seq<CartItem>, totals: Totals)

  /** The cart with nothing in it. */
  function EmptyCart(): Cart
  {
    Cart(None, "active", [], Totals(0, 0))
  }

  /** `Number(item.quantity) || 0`. */
  function QuantityOf(item: CartItem): int
  {
    item.quantity.GetOr(0)
  }

  /** `Number(item.unitPrice || item.priceAtAddition || 0)`: a zero price falls through to the next. */
  function PriceOf(item: CartItem): int
  {
    IntOr(item.unitPrice, IntOr(item.priceAtAddition, 0))
  }

  /** `computeTotals`: the sum of the quantities and of quantity times price. */
  function ComputeTotals(items: seq<CartItem>): (t: Totals)
    ensures items == [] ==> t == Totals(0, 0)
  {
    if items == [] then Totals(0, 0)
    else
      var rest := ComputeTotals(items[1..]);
      Totals(QuantityOf(items[0]) + rest.quantity, QuantityOf(items[0]) * PriceOf(items[0]) + rest.amount)
  }

  /** The totals of two lists together are the sums of their totals. */
  lemma {:induction false} TotalsAppend(a: seq<CartItem>, b: seq<CartItem>)
    ensures ComputeTotals(a + b) ==
      Totals(ComputeTotals(a).quantity + ComputeTotals(b).quantity, ComputeTotals(a).amount + ComputeTotals(b).amount)
  {
    if a == [] {
      assert a + b == b;
    } else {
      assert (a + b)[0] == a[0] && (a + b)[1..] == a[1..] + b;
      TotalsAppend(a[1..], b);
    }
  }

  // ---------------------------------------------------------------------
  // Normalising the backend's cart
  // ---------------------------------------------------------------------

  /** A cart item as the backend sends it; `mongoId` is its `_id`, `snapshotName` its `productSnapshot.name`. */
  datatype RawItem = RawItem(
    id: Option<string>,
    mongoId: Option<string>,
    productId: Option<string>,
    product: Option<string>,
    name: Option<string>,
    productName: Option<string>,
    snapshotName: Option<string>,
    quantity: Option<int>,
    unitPrice: Option<int>,
    priceAtAddition: Option<int>,
    subtotal: Option<int>)

  datatype CartBody = CartBody(id: Option<string>, status: Option<string>, items: Option<seq<RawItem>>, totals: Option<Totals>)

  /** A response: its own fields, and the `data` it may wrap the cart in. */
  datatype CartPayload = CartPayload(data: Option<CartBody>, top: CartBody)

  /** `a ?? b` for optional numbers: only a missing `a` falls through, a zero does not. */
  function Coalesce(a: Option<int>, b: Option<int>): (r: Option<int>)
    ensures a.Some? ==> r == a
    ensures a.None? ==> r == b
  {
    if a.Some? then a else b
  }

  /**
   * One item of a backend cart: ids and names from the first field that
   * is set, the unit price from `unitPrice ?? priceAtAddition`, and the
   * subtotal as sent or else quantity times that price.
   */
  function NormaliseItem(raw: RawItem): (item: CartItem)
    ensures item.quantity == raw.quantity && item.priceAtAddition.None?
    ensures item.unitPrice == Coalesce(raw.unitPrice, raw.priceAtAddition)
    ensures raw.subtotal.Some? ==> item.subtotal == raw.subtotal
    ensures raw.subtotal.None? && raw.quantity.Some? ==>
      item.subtotal == Some(raw.quantity.value * Coalesce(raw.unitPrice, raw.priceAtAddition).GetOr(0))
    ensures raw.subtotal.None? && raw.quantity.None? ==> item.subtotal.None?
  {
    var price := Coalesce(raw.unitPrice, raw.priceAtAddition);
    CartItem(
      JsOr(raw.id, raw.mongoId),
      JsOr(raw.productId, raw.product),
      JsOr(raw.name, JsOr(raw.productName, raw.snapshotName)),
      raw.quantity,
      price,
      None,
      if raw.subtotal.Some? then raw.subtotal
      else if raw.quantity.Some? then Some(raw.quantity.value * price.GetOr(0))
      else None)
  }

  function NormaliseItems(raws: seq<RawItem>): (items: seq<CartItem>)
    ensures |items| == |raws| && forall i :: 0 <= i < |raws| ==> items[i] == NormaliseItem(raws[i])
  {
    seq(|raws|, i requires 0 <= i < |raws| => NormaliseItem(raws[i]))
  }

  /**
   * `normaliseCart`: no payload is the empty active cart; otherwise the
   * cart is read from `data` when there is one, its status defaults to
   * active, and its totals are those sent or else computed from the items.
   */
  function NormaliseCart(payload: Option<CartPayload>): (c: Cart)
    ensures payload.None? ==> c == EmptyCart()
    ensures payload.Some? ==> var body := payload.value.data.GetOr(payload.value.top);
      c.id == body.id && c.status == OrElse(body.status, "active") &&
      c.items == NormaliseItems(body.items.GetOr([])) &&
      c.totals == (if body.totals.Some? then body.totals.value else ComputeTotals(c.items))
  {
    match payload
    case None => EmptyCart()
    case Some(p) =>
      var body := if p.data.Some? then p.data.value else p.top;
      var items := NormaliseItems(body.items.GetOr([]));
      Cart(body.id, OrElse(body.status, "active"), items, if body.totals.Some? then body.totals.value else ComputeTotals(items))
  }

  /** The sum of the items' subtotals, a missing one counting as zero. */
  function SubtotalSum(items: seq<CartItem>): int
  {
    if items == [] then 0 else items[0].subtotal.GetOr(0) + SubtotalSum(items[1..])
  }

  /**
   * When the backend sends neither totals nor subtotals, the computed
   * amount is the sum of the subtotals the normalisation fills in, unless
   * an item's unit price is zero while its price at addition is not: the
   * subtotal keeps the zero (`??`) and the total skips it (`||`).
   */
  lemma {:induction false} ComputedAmountMatchesSubtotals(raws: seq<RawItem>)
    requires forall i :: 0 <= i < |raws| ==> raws[i].subtotal.None? && raws[i].quantity.Some?
    requires forall i :: 0 <= i < |raws| ==> !(raws[i].unitPrice == Some(0) && TruthyInt(raws[i].priceAtAddition))
    ensures ComputeTotals(NormaliseItems(raws)).amount == SubtotalSum(NormaliseItems(raws))
  {
    if raws != [] {
      ComputedAmountMatchesSubtotals(raws[1..]);
      assert NormaliseItems(raws)[1..] == NormaliseItems(raws[1..]);
    }
  }

  // ---------------------------------------------------------------------
  // Local updaters
  // ---------------------------------------------------------------------

  predicate Positive(q: Option<int>)
  {
    q.Some? && q.value > 0
  }

  /** `.filter((item) => item.quantity > 0)`. */
  function KeepPositive(items: seq<CartItem>): (r: seq<CartItem>)
    ensures forall x :: x in r <==> x in items && Positive(x.quantity)
    ensures (forall i :: 0 <= i < |items| ==> Positive(items[i].quantity)) ==> r == items
  {
    if items == [] then []
    else
      assert items == [items[0]] + items[1..];
      (if Positive(items[0].quantity) then [items[0]] else []) + KeepPositive(items[1..])
  }

  /** The first index whose item has this product id. */
  function FindProduct(items: seq<CartItem>, productId: string): (k: Option<nat>)
    ensures k.Some? ==> k.value < |items| && items[k.value].productId == Some(productId) &&
                        forall j :: 0 <= j < k.value ==> items[j].productId != Some(productId)
    ensures k.None? ==> forall j :: 0 <= j < |items| ==> items[j].productId != Some(productId)
  {
    if items == [] then None
    else if items[0].productId == Some(productId) then Some(0)
    else
      match FindProduct(items[1..], productId)
      case None => None
      case Some(k) => Some(k + 1)
  }

  /** `a + b` on numbers, where a missing `a` makes `NaN`. */
  function AddQuantity(q: Option<int>, more: int): (r: Option<int>)
    ensures r.Some? <==> q.Some?
    ensures q.Some? ==> r.value == q.value + more
  {
    if q.Some? then Some(q.value + more) else None
  }

  /** The item a local add appends for a product not yet in the cart. */
  function LocalItem(productId: string, product: ProductLike, quantity: int): (item: CartItem)
    ensures item.id == Some("local-" + productId) && item.productId == Some(productId)
    ensures item.quantity == Some(quantity) && item.unitPrice == product.price
  {
    CartItem(Some("local-" + productId), Some(productId), product.name, Some(quantity), product.price, None,
             Some(quantity * IntOr(product.price, 0)))
  }

  /**
   * The local add: the first item of the product gets the quantity added
   * (its subtotal is left as it was), or a new local item is appended;
   * then every item without a positive quantity is dropped.
   */
  function AddLocal(items: seq<CartItem>, productId: string, product: ProductLike, quantity: int): (r: seq<CartItem>)
  {
    match FindProduct(items, productId)
    case Some(k) => KeepPositive(items[k := items[k].(quantity := AddQuantity(items[k].quantity, quantity))])
    case None => KeepPositive(items + [LocalItem(productId, product, quantity)])
  }

  /** The local quantity update: every item with this id gets the quantity, then non-positive ones are dropped. */
  function UpdateLocal(items: seq<CartItem>, itemId: Option<string>, quantity: int): (r: seq<CartItem>)
    ensures |r| <= |items|
    ensures forall x :: x in r ==> Positive(x.quantity)
    ensures forall x :: x in r && x.id == itemId ==> x.quantity == Some(quantity)
    ensures quantity <= 0 ==> forall x :: x in r ==> x.id != itemId
  {
    if items == [] then []
    else
      var head := if items[0].id == itemId then items[0].(quantity := Some(quantity)) else items[0];
      var rest := UpdateLocal(items[1..], itemId, quantity);
      if Positive(head.quantity) then [head] + rest else rest
  }

  /** The local removal: every item with this id is dropped, the rest keep their order. */
  function RemoveLocal(items: seq<CartItem>, itemId: Option<string>): (r: seq<CartItem>)
    ensures forall x :: x in r <==> x in items && x.id != itemId
    ensures |r| <= |items|
  {
    if items == [] then []
    else
      assert items == [items[0]] + items[1..];
      (if items[0].id != itemId then [items[0]] else []) + RemoveLocal(items[1..], itemId)
  }

  predicate AllPositive(items: seq<CartItem>)
  {
    forall i :: 0 <= i < |items| ==> Positive(items[i].quantity)
  }

  /** `applyLocalUpdate`: the cart keeps its other fields and its totals are recomputed from the new items. */
  function ApplyLocal(c: Cart, items: seq<CartItem>): (r: Cart)
    ensures r.items == items && r.totals == ComputeTotals(items) && r.id == c.id && r.status == c.status
  {
    c.(items := items, totals := ComputeTotals(items))
  }

  lemma TotalsUpdateOne(items: seq<CartItem>, k: nat, x: CartItem)
    requires k < |items|
    ensures ComputeTotals(items[k := x]).quantity == ComputeTotals(items).quantity - QuantityOf(items[k]) + QuantityOf(x)
  {
    var before := items[..k];
    var after := items[k + 1..];
    assert items == before + [items[k]] + after;
    assert items[k := x] == before + [x] + after;
    TotalsAppend(before + [items[k]], after);
    TotalsAppend(before, [items[k]]);
    TotalsAppend(before + [x], after);
    TotalsAppend(before, [x]);
  }

  /**
   * On a cart of positive quantities, adding a positive quantity raises
   * the total quantity by exactly that much, whether the product was
   * already there or not.
   */
  lemma AddRaisesQuantity(items: seq<CartItem>, productId: string, product: ProductLike, quantity: int)
    requires AllPositive(items) && quantity > 0
    ensures ComputeTotals(AddLocal(items, productId, product, quantity)).quantity ==
            ComputeTotals(items).quantity + quantity
  {
    match FindProduct(items, productId)
    case Some(k) =>
      var bumped := items[k := items[k].(quantity := AddQuantity(items[k].quantity, quantity))];
      assert AllPositive(bumped);
      TotalsUpdateOne(items, k, bumped[k]);
    case None =>
      var appended := items + [LocalItem(productId, product, quantity)];
      assert AllPositive(appended);
      TotalsAppend(items, [LocalItem(productId, product, quantity)]);
  }

  /** Adding to a product already in the cart changes its quantity but not its subtotal. */
  lemma AddLeavesSubtotalStale(items: seq<CartItem>, productId: string, product: ProductLike, quantity: int)
    requires AllPositive(items) && quantity > 0 && FindProduct(items, productId).Some?
    ensures var k := FindProduct(items, productId).value;
      AddLocal(items, productId, product, quantity)[k] ==
        items[k].(quantity := Some(items[k].quantity.value + quantity))
  {
    var k := FindProduct(items, productId).value;
    var bumped := items[k := items[k].(quantity := AddQuantity(items[k].quantity, quantity))];
    assert AllPositive(bumped);
  }

  /**
   * Removing the item a local add has just appended gives the cart back,
   * when the product was not in it and no item already had that local id.
   */
  lemma AddThenRemove(items: seq<CartItem>, productId: string, product: ProductLike, quantity: int)
    requires AllPositive(items) && quantity > 0 && FindProduct(items, productId).None?
    requires forall i :: 0 <= i < |items| ==> items[i].id != Some("local-" + productId)
    ensures RemoveLocal(AddLocal(items, productId, product, quantity), Some("local-" + productId)) == items
  {
    var appended := items + [LocalItem(productId, product, quantity)];
    assert AllPositive(appended);
    RemoveAppended(items, LocalItem(productId, product, quantity));
  }

  lemma {:induction false} RemoveAppended(items: seq<CartItem>, x: CartItem)
    requires forall i :: 0 <= i < |items| ==> items[i].id != x.id
    ensures RemoveLocal(items + [x], x.id) == items
  {
    if items == [] {
      assert [] + [x] == [x];
    } else {
      assert (items + [x])[1..] == items[1..] + [x];
      RemoveAppended(items[1..], x);
    }
  }

  /** Setting an item's quantity to zero removes it as the removal does, on a cart of positive quantities. */
  lemma {:induction false} UpdateToZeroIsRemove(items: seq<CartItem>, itemId: Option<string>)
    requires AllPositive(items)
    ensures UpdateLocal(items, itemId, 0) == RemoveLocal(items, itemId)
  {
    if items != [] {
      UpdateToZeroIsRemove(items[1..], itemId);
    }
  }

  // ---------------------------------------------------------------------
  // The provider's actions
  // ---------------------------------------------------------------------

  const NO_PRODUCT_ID: string := "Product identifier missing"
  const LOGIN_TO_ADD: string := "Please log in to add items to your cart."

  /**
   * `addItem`: a product without an identifier, then a visitor without a
   * token, are refused before anything changes. With the backend in use
   * its answer replaces the cart; when it fails (`backend` is `None`), or
   * the cart is local, the local add applies.
   */
  function AddItem(c: Cart, product: Option<ProductLike>, quantity: int, hasToken: bool, useLocal: bool,
                   backend: Option<CartPayload>): (r: Result<Cart>)
    ensures DeriveProductId(product).None? ==> r == Err(Crash(NO_PRODUCT_ID))
    ensures DeriveProductId(product).Some? && !hasToken ==> r == Err(Http(401, LOGIN_TO_ADD))
    ensures r.Ok? <==> DeriveProductId(product).Some? && hasToken
    ensures r.Ok? && !useLocal && backend.Some? ==> r.value == NormaliseCart(backend)
    ensures r.Ok? && (useLocal || backend.None?) ==>
      r.value == ApplyLocal(c, AddLocal(c.items, DeriveProductId(product).value, product.value, quantity))
  {
    match DeriveProductId(product)
    case None => Err(Crash(NO_PRODUCT_ID))
    case Some(productId) =>
      if !hasToken then Err(Http(401, LOGIN_TO_ADD))
      else if !useLocal && backend.Some? then Ok(NormaliseCart(backend))
      else Ok(ApplyLocal(c, AddLocal(c.items, productId, product.value, quantity)))
  }

  /** `updateItemQuantity`: the backend's answer when it is in use and answers, else the local update. */
  function UpdateItemQuantity(c: Cart, itemId: Option<string>, quantity: int, hasToken: bool, useLocal: bool,
                              backend: Option<CartPayload>): (r: Cart)
    ensures !useLocal && hasToken && backend.Some? ==> r == NormaliseCart(backend)
    ensures useLocal || !hasToken || backend.None? ==> r.items == UpdateLocal(c.items, itemId, quantity) &&
                                                        r.totals == ComputeTotals(r.items)
  {
    if !useLocal && hasToken && backend.Some? then NormaliseCart(backend)
    else ApplyLocal(c, UpdateLocal(c.items, itemId, quantity))
  }

  /** `removeItem`: the backend's answer when it is in use and answers, else the local removal. */
  function RemoveItem(c: Cart, itemId: Option<string>, hasToken: bool, useLocal: bool,
                      backend: Option<CartPayload>): (r: Cart)
    ensures !useLocal && hasToken && backend.Some? ==> r == NormaliseCart(backend)
    ensures useLocal || !hasToken || backend.None? ==> r.items == RemoveLocal(c.items, itemId) &&
                                                        r.totals == ComputeTotals(r.items)
  {
    if !useLocal && hasToken && backend.Some? then NormaliseCart(backend)
    else ApplyLocal(c, RemoveLocal(c.items, itemId))
  }
}
