/**
 * The `products` collection. One document shape serves both backends: the
 * Python model keeps `stock` and `totalStock` side by side and re-derives
 * one from the other every time a document is loaded; the JavaScript
 * model knows only `stock` and reads the stored value as it is.
 *
 * Money is an integer number of paise. `stock` is an `int` because the
 * order code moves it with `$inc`, which no validator guards.
 */
module Catalog {

  import opened Base
  import opened Text
  import opened Ids

  datatype Product = Product(
    name: string,
    slug: string,
    description: Option<string>,
    categoryId: Option<Id>,
    category: Option<string>,
    price: nat,
    currency: string,
    stock: int,
    totalStock: Option<int>,
    maxUnitsPerUser: int,
    isUnlimitedPurchase: bool,
    imageUrl: Option<string>,
    images: seq<string>,
    isActive: bool,
    isDeleted: bool)

  type Products = map<Id, Product>

  /** The stock the Python model settles on: `totalStock` when it is set, `stock` otherwise. */
  function SettledStock(p: Product): int
  {
    p.totalStock.GetOr(p.stock)
  }

  /**
   * `sync_fields`: the two stock fields end equal (the stored `totalStock`
   * wins), a lone image URL and a lone image list fill each other in, and a
   * product without stock is switched off. Nothing switches a product on.
   */
  function SyncFields(p: Product): (r: Product)
    ensures r.stock == SettledStock(p) && r.totalStock == Some(r.stock)
    ensures Truthy(p.imageUrl) && p.images == [] ==> r.images == [p.imageUrl.value] && r.imageUrl == p.imageUrl
    ensures p.images != [] && !Truthy(p.imageUrl) ==> r.imageUrl == Some(p.images[0]) && r.images == p.images
    ensures (Truthy(p.imageUrl) == (p.images != [])) ==> r.imageUrl == p.imageUrl && r.images == p.images
    ensures r.isActive <==> p.isActive && r.stock != 0
    ensures r.(stock := p.stock, totalStock := p.totalStock, imageUrl := p.imageUrl, images := p.images, isActive := p.isActive) == p
  {
    var stock := SettledStock(p);
    var q := p.(stock := stock, totalStock := Some(stock));
    var q := if Truthy(q.imageUrl) && q.images == [] then q.(images := [q.imageUrl.value])
             else if q.images != [] && !Truthy(q.imageUrl) then q.(imageUrl := Some(q.images[0]))
             else q;
    if q.stock == 0 then q.(isActive := false) else q
  }

  /**
   * A document as the Python backend sees it: the `before` validators
   * upper-case the currency and lower-case the slug, then `sync_fields` runs.
   */
  function LoadPy(p: Product): (r: Product)
    ensures r.currency == Upper(p.currency) && r.slug == Lower(p.slug)
    ensures r.stock == SettledStock(p) && r.totalStock == Some(r.stock)
    ensures r.isActive ==> p.isActive
  {
    SyncFields(p.(currency := Upper(p.currency), slug := Lower(p.slug)))
  }

  /**
   * The field bounds Pydantic checks before `sync_fields` runs: `stock` and
   * a set `totalStock` at least 0, `maxUnitsPerUser` at least 1. A stored
   * document outside them raises a `ValidationError` on every load.
   */
  predicate LoadablePy(p: Product)
  {
    p.stock >= 0 && (p.totalStock.Some? ==> p.totalStock.value >= 0) && p.maxUnitsPerUser >= 1
  }

  /** Loading a loadable document gives one that loads again. */
  lemma LoadKeepsLoadable(p: Product)
    requires LoadablePy(p)
    ensures LoadablePy(LoadPy(p))
  {
  }

  /** Whatever the Python backend writes back reads back the same: loading is idempotent. */
  lemma LoadIdempotent(p: Product)
    ensures LoadPy(LoadPy(p)) == LoadPy(p)
  {
    var r := LoadPy(p);
    UpperIdempotent(p.currency);
    LowerIdempotent(p.slug);
    assert r.(currency := Upper(r.currency), slug := Lower(r.slug)) == r;
  }

  /** A product the Python model can sell: it exists and is active (after the load-time sync). */
  predicate AvailablePy(products: Products, id: Id)
  {
    id in products && LoadPy(products[id]).isActive
  }

  /** The JavaScript model reads `isActive` as stored. */
  predicate AvailableJs(products: Products, id: Id)
  {
    id in products && products[id].isActive
  }

  /** `$inc: {stock: -q}`, the only stock update the order code issues. */
  function DecrementStock(p: Product, q: int): (r: Product)
    ensures r.stock == p.stock - q
    ensures r.(stock := p.stock) == p
  {
    p.(stock := p.stock - q)
  }

  /**
   * Once a document carries `totalStock`, which every document the Python
   * model has written does, a decrement within the stored stock is
   * invisible to the Python model: the document still loads, and the load
   * restores the old figure from `totalStock`.
   */
  lemma DecrementInvisible(p: Product, q: int)
    requires p.totalStock.Some? && q <= p.stock
    ensures LoadPy(DecrementStock(p, q)) == LoadPy(p)
    ensures LoadablePy(p) ==> LoadablePy(DecrementStock(p, q))
  {
  }

  /** A decrement past the stored stock leaves a document that no load accepts. */
  lemma OversoldUnloadable(p: Product, q: int)
    requires q > p.stock
    ensures !LoadablePy(DecrementStock(p, q))
  {
  }

  /** The decrement the order code evidently means: both stock fields move together. */
  function DecrementBoth(p: Product, q: int): (r: Product)
    ensures r.stock == p.stock - q && r.totalStock == Some(SettledStock(p) - q)
    ensures r.(stock := p.stock, totalStock := p.totalStock) == p
  {
    p.(stock := p.stock - q, totalStock := Some(SettledStock(p) - q))
  }

  /** With both fields moved, the Python model sees exactly `q` fewer units, and selling the last unit switches the product off. */
  lemma DecrementBothVisible(p: Product, q: int)
    ensures LoadPy(DecrementBoth(p, q)).stock == LoadPy(p).stock - q
    ensures SettledStock(p) == q ==> !LoadPy(DecrementBoth(p, q)).isActive
  {
  }
}
