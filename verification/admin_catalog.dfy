/**
 * The admin backend's catalogue documents: products in their own
 * collection, with the schema's bounds and the pre-save hook that turns
 * off a product whose stock is zero, and the categories they belong to.
 *
 * Saving a document first runs the schema's validators and then the
 * pre-save hook; a document that fails validation is not written and the
 * save throws.
 */
module AdminCatalog {

  import opened Base
  import opened Text
  import opened Ids

  /** Timestamps are milliseconds, as `Date.now()` gives them. */
  datatype AdminProduct = AdminProduct(
    name: string,
    categoryId: Id,
    price: int,
    totalStock: int,
    maxUnitsPerUser: int,
    isUnlimitedPurchase: bool,
    imageUrl: string,
    isActive: bool,
    isDeleted: bool,
    createdAt: int,
    updatedAt: int)

  /** A category: its name and whether products may be added to it. */
  datatype Category = Category(name: string, isActive: bool, createdAt: int)

  type AdminProducts = map<Id, AdminProduct>
  type Categories = map<Id, Category>

  /**
   * The schema's validators: the required texts are non-empty, price and
   * stock are at least 0 and the per-user cap is at least 1.
   */
  predicate Valid(p: AdminProduct)
  {
    p.name != "" && p.imageUrl != "" && p.price >= 0 && p.totalStock >= 0 && p.maxUnitsPerUser >= 1
  }

  /** The pre-save hook: zero stock turns the product off; the update stamp is refreshed. */
  function PreSave(p: AdminProduct, now: int): (r: AdminProduct)
    ensures r.totalStock == 0 ==> !r.isActive
    ensures r.totalStock != 0 ==> r.isActive == p.isActive
    ensures r.updatedAt == now
    ensures r.(isActive := p.isActive, updatedAt := p.updatedAt) == p
  {
    p.(isActive := if p.totalStock == 0 then false else p.isActive, updatedAt := now)
  }

  /** A document as every successful save leaves it. */
  predicate Settled(p: AdminProduct)
  {
    Valid(p) && (p.totalStock == 0 ==> !p.isActive)
  }

  /** Every stored product is settled. */
  predicate Consistent(products: AdminProducts)
  {
    forall id :: id in products ==> Settled(products[id])
  }

  /** `product.save()`: nothing when validation fails, else the document after the hook. */
  function Save(p: AdminProduct, now: int): (r: Option<AdminProduct>)
    ensures r.Some? <==> Valid(p)
    ensures r.Some? ==> Settled(r.value) && r.value.updatedAt == now
  {
    if Valid(p) then Some(PreSave(p, now)) else None
  }

  /**
   * Running the hook again changes nothing but the stamp, and on a settled
   * document the hook changes only the stamp.
   */
  lemma PreSaveIdempotent(p: AdminProduct, now: int, later: int)
    ensures PreSave(PreSave(p, now), later) == PreSave(p, later)
    ensures Settled(p) ==> PreSave(p, now) == p.(updatedAt := now)
  {
  }

  /** A saved product is off whenever its stock is zero, whatever it asked for. */
  lemma SaveDisablesEmpty(p: AdminProduct, now: int)
    requires Valid(p) && p.totalStock == 0
    ensures Save(p, now).Some? && !Save(p, now).value.isActive
  {
  }

  /** The outcome of `findOne` / `findById` by a path id. */
  datatype Lookup = BadId | Missing | Found(id: Id)

  /**
   * `Product.findOne({ _id: id, isDeleted: false })`: text that is not an
   * object id makes the query throw; a deleted product is not found.
   */
  function FindLive(products: AdminProducts, raw: string): (r: Lookup)
    ensures r.BadId? <==> !IsObjectIdText(raw)
    ensures r.Missing? <==> IsObjectIdText(raw) && (Lower(raw) !in products || products[Lower(raw)].isDeleted)
    ensures r.Found? ==> r.id == Lower(raw) && r.id in products && !products[r.id].isDeleted
  {
    match ParseObjectId(raw)
    case None => BadId
    case Some(id) => if id in products && !products[id].isDeleted then Found(id) else Missing
  }

  /** `Category.findById(id)`. */
  function FindCategory(categories: Categories, raw: string): (r: Lookup)
    ensures r.BadId? <==> !IsObjectIdText(raw)
    ensures r.Missing? <==> IsObjectIdText(raw) && Lower(raw) !in categories
    ensures r.Found? ==> r.id == Lower(raw) && r.id in categories
  {
    match ParseObjectId(raw)
    case None => BadId
    case Some(id) => if id in categories then Found(id) else Missing
  }

  /** A stored live product is found by its id in any letter case, and a deleted one by none. */
  lemma FindLiveStored(products: AdminProducts, id: Id)
    requires IsCanonicalId(id) && id in products
    ensures FindLive(products, id) == (if products[id].isDeleted then Missing else Found(id))
    ensures FindLive(products, Upper(id)) == FindLive(products, id)
  {
    ParseCanonical(id);
    ParseCaseInsensitive(id);
  }
}
