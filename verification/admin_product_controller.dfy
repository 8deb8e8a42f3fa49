/**
 * The admin backend's product endpoints: create, read, update, toggle,
 * soft delete and set stock. Each looks the product up among the
 * products not deleted, checks the request, changes the document and
 * saves it; a failed save or a malformed id is caught and answered with
 * 500 and the endpoint's own message.
 *
 * Body fields arrive typed: `None` is a field left out (`undefined`).
 */
module AdminProductController {

  import opened Base
  import opened Text
  import opened Ids
  import opened AdminCatalog

  const REQUIRED_FIELDS: string := "All required fields must be provided (name, categoryId, price, totalStock, imageUrl)"
  const PRICE_NOT_POSITIVE: string := "Price must be greater than 0"
  const NEGATIVE_STOCK: string := "Stock cannot be negative"
  const CATEGORY_NOT_FOUND: string := "Category not found"
  const ADD_TO_INACTIVE: string := "Cannot add products to an inactive category"
  const MOVE_TO_INACTIVE: string := "Cannot move product to an inactive category"
  const PRODUCT_NOT_FOUND: string := "Product not found"
  const ZERO_STOCK_ENABLE: string := "Cannot enable product with zero stock. Please add stock first."
  const INVALID_STOCK: string := "Valid stock value is required (must be >= 0)"
  const CREATE_FAILED: string := "Server error while creating product"
  const FETCH_FAILED: string := "Server error while fetching product"
  const UPDATE_FAILED: string := "Server error while updating product"
  const TOGGLE_FAILED: string := "Server error while toggling product status"
  const DELETE_FAILED: string := "Server error while deleting product"
  const STOCK_FAILED: string := "Server error while updating stock"

  datatype ProductBody = ProductBody(
    name: Option<string>,
    categoryId: Option<string>,
    price: Option<int>,
    totalStock: Option<int>,
    isUnlimitedPurchase: Option<bool>,
    maxUnitsPerUser: Option<int>,
    imageUrl: Option<string>,
    isActive: Option<bool>)

  /** The body names every required field of a new product. */
  predicate Complete(b: ProductBody)
  {
    Truthy(b.name) && Truthy(b.categoryId) && TruthyInt(b.price) && b.totalStock.Some? && Truthy(b.imageUrl)
  }

  /** The per-user cap of a new product: the whole stock when purchase is unlimited, else the given cap or 1. */
  function InitialCap(b: ProductBody, stock: int): (r: int)
    ensures b.isUnlimitedPurchase == Some(true) ==> r == stock
    ensures b.isUnlimitedPurchase != Some(true) ==> r != 0 && (TruthyInt(b.maxUnitsPerUser) ==> r == b.maxUnitsPerUser.value)
  {
    if b.isUnlimitedPurchase == Some(true) then stock
    else if TruthyInt(b.maxUnitsPerUser) then b.maxUnitsPerUser.value
    else 1
  }

  /**
   * `createProduct`, up to the category lookup: the missing-field check,
   * then price, then stock, each a 400.
   */
  function CreateChecks(b: ProductBody): (r: Result<()>)
    ensures !Complete(b) ==> r == Fail(400, REQUIRED_FIELDS)
    ensures Complete(b) && b.price.value < 0 ==> r == Fail(400, PRICE_NOT_POSITIVE)
    ensures Complete(b) && b.price.value > 0 && b.totalStock.value < 0 ==> r == Fail(400, NEGATIVE_STOCK)
    ensures r.Ok? <==> Complete(b) && b.price.value > 0 && b.totalStock.value >= 0
  {
    if !Complete(b) then Fail(400, REQUIRED_FIELDS)
    else if b.price.value <= 0 then Fail(400, PRICE_NOT_POSITIVE)
    else if b.totalStock.value < 0 then Fail(400, NEGATIVE_STOCK)
    else Ok(())
  }

  /** The category a product may be put in: 404 when unknown, the given message when off. */
  function ActiveCategory(categories: Categories, raw: string, inactive: string, failed: string): (r: Result<Id>)
    ensures r.Ok? <==> ParseObjectId(raw).Some? && Lower(raw) in categories && categories[Lower(raw)].isActive
    ensures r.Ok? ==> r.value == Lower(raw)
    ensures !IsObjectIdText(raw) ==> r == Fail(500, failed)
    ensures IsObjectIdText(raw) && Lower(raw) !in categories ==> r == Fail(404, CATEGORY_NOT_FOUND)
    ensures IsObjectIdText(raw) && Lower(raw) in categories && !categories[Lower(raw)].isActive ==> r == Fail(400, inactive)
  {
    match FindCategory(categories, raw)
    case BadId => Fail(500, failed)
    case Missing => Fail(404, CATEGORY_NOT_FOUND)
    case Found(id) => if categories[id].isActive then Ok(id) else Fail(400, inactive)
  }

  /** The document `createProduct` builds before saving it: trimmed texts, on exactly when stocked. */
  function NewProduct(b: ProductBody, category: Id, now: int): (p: AdminProduct)
    requires Complete(b)
    ensures p.name == Trim(b.name.value) && p.imageUrl == Trim(b.imageUrl.value)
    ensures p.categoryId == category && p.price == b.price.value && p.totalStock == b.totalStock.value
    ensures p.isActive <==> b.totalStock.value > 0
    ensures p.isUnlimitedPurchase <==> b.isUnlimitedPurchase == Some(true)
    ensures p.maxUnitsPerUser == InitialCap(b, b.totalStock.value)
    ensures !p.isDeleted && p.createdAt == now
  {
    AdminProduct(Trim(b.name.value), category, b.price.value, b.totalStock.value, InitialCap(b, b.totalStock.value),
                 b.isUnlimitedPurchase == Some(true), Trim(b.imageUrl.value), b.totalStock.value > 0, false, now, now)
  }

  /** `createProduct`: the checks, the category, then the save; on any error nothing is stored. */
  function CreateProduct(products: AdminProducts, categories: Categories, newId: Id, b: ProductBody, now: int)
    : (r: (AdminProducts, Result<AdminProduct>))
    requires newId !in products
    ensures CreateChecks(b).Err? ==> r == (products, Err(CreateChecks(b).error))
    ensures r.1.Err? ==> r.0 == products
    ensures r.1.Ok? ==> r.0 == products[newId := r.1.value] && Settled(r.1.value)
    ensures r.1.Ok? ==> CreateChecks(b).Ok? && r.1.value.categoryId in categories && categories[r.1.value.categoryId].isActive
    ensures r.1.Ok? ==> r.1.value == PreSave(NewProduct(b, r.1.value.categoryId, now), now)
  {
    match CreateChecks(b)
    case Err(e) => (products, Err(e))
    case Ok(_) =>
      match ActiveCategory(categories, b.categoryId.value, ADD_TO_INACTIVE, CREATE_FAILED)
      case Err(e) => (products, Err(e))
      case Ok(category) =>
        match Save(NewProduct(b, category, now), now)
        case None => (products, Fail(500, CREATE_FAILED))
        case Some(p) => (products[newId := p], Ok(p))
  }

  /**
   * A created product is on exactly when it has stock, carries the
   * trimmed name and image, and keeps the given price and stock.
   */
  lemma CreatedProduct(products: AdminProducts, categories: Categories, newId: Id, b: ProductBody, now: int)
    requires newId !in products
    ensures var r := CreateProduct(products, categories, newId, b, now);
      r.1.Ok? ==>
        (r.1.value.isActive <==> b.totalStock.value > 0) &&
        r.1.value.name == Trim(b.name.value) && r.1.value.imageUrl == Trim(b.imageUrl.value) &&
        r.1.value.price == b.price.value && r.1.value.totalStock == b.totalStock.value &&
        !r.1.value.isDeleted &&
        (b.isUnlimitedPurchase == Some(true) ==> r.1.value.maxUnitsPerUser == b.totalStock.value)
  {
    var r := CreateProduct(products, categories, newId, b, now);
    if r.1.Ok? {
      var p := NewProduct(b, r.1.value.categoryId, now);
      assert r.1.value == PreSave(p, now);
    }
  }

  /** `getProductById`: 404 for an unknown or deleted product. */
  function GetProductById(products: AdminProducts, raw: string): (r: Result<AdminProduct>)
    ensures !IsObjectIdText(raw) ==> r == Fail(500, FETCH_FAILED)
    ensures r.Ok? <==> FindLive(products, raw).Found?
    ensures r.Ok? ==> r.value == products[Lower(raw)] && !r.value.isDeleted
    ensures FindLive(products, raw).Missing? ==> r == Fail(404, PRODUCT_NOT_FOUND)
  {
    match FindLive(products, raw)
    case BadId => Fail(500, FETCH_FAILED)
    case Missing => Fail(404, PRODUCT_NOT_FOUND)
    case Found(id) => Ok(products[id])
  }

  /** A created product reads back as stored, and the store stays consistent. */
  lemma CreateThenGet(products: AdminProducts, categories: Categories, newId: Id, b: ProductBody, now: int)
    requires newId !in products && IsCanonicalId(newId) && Consistent(products)
    ensures var r := CreateProduct(products, categories, newId, b, now);
      Consistent(r.0) && (r.1.Ok? ==> GetProductById(r.0, newId) == r.1)
  {
    var r := CreateProduct(products, categories, newId, b, now);
    if r.1.Ok? {
      FindLiveStored(r.0, newId);
    }
  }

  /**
   * The fields `updateProduct` writes, in its order: a name or image only
   * when truthy, trimmed; a stock of 0 turns the product off; a requested
   * on/off state only when the product then has stock; the unlimited flag
   * sets the cap to the stock, otherwise a given cap is taken.
   */
  function ApplyUpdate(p: AdminProduct, b: ProductBody, category: Id): (q: AdminProduct)
    ensures q.categoryId == category && q.isDeleted == p.isDeleted && q.createdAt == p.createdAt
    ensures q.name == (if Truthy(b.name) then Trim(b.name.value) else p.name)
    ensures q.imageUrl == (if Truthy(b.imageUrl) then Trim(b.imageUrl.value) else p.imageUrl)
    ensures q.price == b.price.GetOr(p.price) && q.totalStock == b.totalStock.GetOr(p.totalStock)
    ensures b.totalStock == Some(0) ==> !q.isActive
    ensures b.isActive.Some? && q.totalStock > 0 ==> q.isActive == b.isActive.value
    ensures b.isActive.None? && b.totalStock != Some(0) ==> q.isActive == p.isActive
    ensures q.isUnlimitedPurchase == b.isUnlimitedPurchase.GetOr(p.isUnlimitedPurchase)
    ensures b.isUnlimitedPurchase == Some(true) ==> q.maxUnitsPerUser == q.totalStock
    ensures b.isUnlimitedPurchase != Some(true) ==> q.maxUnitsPerUser == b.maxUnitsPerUser.GetOr(p.maxUnitsPerUser)
  {
    var named := if Truthy(b.name) then Trim(b.name.value) else p.name;
    var stock := b.totalStock.GetOr(p.totalStock);
    var stocked := if b.totalStock == Some(0) then false else p.isActive;
    var active := if b.isActive.Some? && stock > 0 then b.isActive.value else stocked;
    var image := if Truthy(b.imageUrl) then Trim(b.imageUrl.value) else p.imageUrl;
    var cap := if b.isUnlimitedPurchase == Some(true) then stock else b.maxUnitsPerUser.GetOr(p.maxUnitsPerUser);
    p.(name := named, categoryId := category, price := b.price.GetOr(p.price), totalStock := stock,
       imageUrl := image, isActive := active, isUnlimitedPurchase := b.isUnlimitedPurchase.GetOr(p.isUnlimitedPurchase),
       maxUnitsPerUser := cap)
  }

  /**
   * The category after an update: a truthy `categoryId` whose text differs
   * from the stored id is looked up and must be active; otherwise the
   * product stays where it is.
   */
  function UpdateCategory(categories: Categories, p: AdminProduct, b: ProductBody): (r: Result<Id>)
    ensures !(Truthy(b.categoryId) && b.categoryId.value != p.categoryId) ==> r == Ok(p.categoryId)
    ensures Truthy(b.categoryId) && b.categoryId.value != p.categoryId ==>
      r == ActiveCategory(categories, b.categoryId.value, MOVE_TO_INACTIVE, UPDATE_FAILED)
  {
    if Truthy(b.categoryId) && b.categoryId.value != p.categoryId then
      ActiveCategory(categories, b.categoryId.value, MOVE_TO_INACTIVE, UPDATE_FAILED)
    else Ok(p.categoryId)
  }

  /** `updateProduct`: lookup, the price and stock checks, the category, then the changes and the save. */
  function UpdateProduct(products: AdminProducts, categories: Categories, raw: string, b: ProductBody, now: int)
    : (r: (AdminProducts, Result<AdminProduct>))
    ensures r.1.Err? ==> r.0 == products
    ensures FindLive(products, raw).Missing? ==> r.1 == Fail(404, PRODUCT_NOT_FOUND)
    ensures FindLive(products, raw).Found? && b.price.Some? && b.price.value <= 0 ==> r.1 == Fail(400, PRICE_NOT_POSITIVE)
    ensures (FindLive(products, raw).Found? && !(b.price.Some? && b.price.value <= 0) &&
             b.totalStock.Some? && b.totalStock.value < 0) ==> r.1 == Fail(400, NEGATIVE_STOCK)
    ensures r.1.Ok? ==> FindLive(products, raw).Found? && r.0 == products[Lower(raw) := r.1.value] && Settled(r.1.value)
    ensures r.1.Ok? ==> var p := products[Lower(raw)];
      UpdateCategory(categories, p, b).Ok? &&
      r.1.value == PreSave(ApplyUpdate(p, b, UpdateCategory(categories, p, b).value), now)
  {
    match FindLive(products, raw)
    case BadId => (products, Fail(500, UPDATE_FAILED))
    case Missing => (products, Fail(404, PRODUCT_NOT_FOUND))
    case Found(id) =>
      if b.price.Some? && b.price.value <= 0 then (products, Fail(400, PRICE_NOT_POSITIVE))
      else if b.totalStock.Some? && b.totalStock.value < 0 then (products, Fail(400, NEGATIVE_STOCK))
      else
        match UpdateCategory(categories, products[id], b)
        case Err(e) => (products, Err(e))
        case Ok(category) =>
          match Save(ApplyUpdate(products[id], b, category), now)
          case None => (products, Fail(500, UPDATE_FAILED))
          case Some(q) => (products[id := q], Ok(q))
  }

  /**
   * What an accepted update leaves: the product stays live, a stock of 0
   * leaves it off, a requested state is honoured exactly when the product
   * has stock, and an empty body only refreshes the stamp.
   */
  lemma UpdatedProduct(products: AdminProducts, categories: Categories, raw: string, b: ProductBody, now: int)
    requires Consistent(products)
    ensures var r := UpdateProduct(products, categories, raw, b, now);
      r.1.Ok? ==>
        Consistent(r.0) && !r.1.value.isDeleted &&
        (b.totalStock == Some(0) ==> !r.1.value.isActive) &&
        (b.isActive.Some? ==> (r.1.value.isActive == b.isActive.value <==> r.1.value.totalStock > 0 || !b.isActive.value))
  {
    var r := UpdateProduct(products, categories, raw, b, now);
    if r.1.Ok? {
      var p := products[Lower(raw)];
      var q := ApplyUpdate(p, b, UpdateCategory(categories, p, b).value);
      assert r.1.value == PreSave(q, now);
    }
  }

  /** An update with an empty body changes nothing but the stamp. */
  lemma EmptyUpdateKeeps(products: AdminProducts, categories: Categories, raw: string, now: int)
    requires Consistent(products) && FindLive(products, raw).Found?
    ensures var b := ProductBody(None, None, None, None, None, None, None, None);
      var id := Lower(raw);
      UpdateProduct(products, categories, raw, b, now) ==
        (products[id := products[id].(updatedAt := now)], Ok(products[id].(updatedAt := now)))
  {
    var b := ProductBody(None, None, None, None, None, None, None, None);
    var p := products[Lower(raw)];
    assert ApplyUpdate(p, b, p.categoryId) == p;
  }

  /** `toggleProductStatus`: a product without stock cannot be turned on; otherwise the state flips. */
  function ToggleProductStatus(products: AdminProducts, raw: string, now: int): (r: (AdminProducts, Result<AdminProduct>))
    ensures r.1.Err? ==> r.0 == products
    ensures FindLive(products, raw).Missing? ==> r.1 == Fail(404, PRODUCT_NOT_FOUND)
    ensures FindLive(products, raw).Found? && !products[Lower(raw)].isActive && products[Lower(raw)].totalStock == 0 ==>
      r.1 == Fail(400, ZERO_STOCK_ENABLE)
    ensures r.1.Ok? ==> (FindLive(products, raw).Found? && r.0 == products[Lower(raw) := r.1.value] &&
      r.1.value == PreSave(products[Lower(raw)].(isActive := !products[Lower(raw)].isActive), now))
  {
    match FindLive(products, raw)
    case BadId => (products, Fail(500, TOGGLE_FAILED))
    case Missing => (products, Fail(404, PRODUCT_NOT_FOUND))
    case Found(id) =>
      var p := products[id];
      if !p.isActive && p.totalStock == 0 then (products, Fail(400, ZERO_STOCK_ENABLE))
      else
        match Save(p.(isActive := !p.isActive), now)
        case None => (products, Fail(500, TOGGLE_FAILED))
        case Some(q) => (products[id := q], Ok(q))
  }

  /**
   * On a consistent store a toggle of a live product is refused only for
   * an empty product that is off, flips the state otherwise, and a
   * second toggle restores the product but for its stamp.
   */
  lemma ToggleTwice(products: AdminProducts, raw: string, now: int, later: int)
    requires Consistent(products) && FindLive(products, raw).Found?
    ensures var p := products[Lower(raw)];
      var first := ToggleProductStatus(products, raw, now);
      (first.1.Ok? <==> p.totalStock != 0) &&
      (first.1.Ok? ==> first.1.value.isActive == !p.isActive &&
                        ToggleProductStatus(first.0, raw, later) == (products[Lower(raw) := p.(updatedAt := later)], Ok(p.(updatedAt := later))))
  {
    var id := Lower(raw);
    var p := products[id];
    var first := ToggleProductStatus(products, raw, now);
    if first.1.Ok? {
      var q := first.1.value;
      assert q == p.(isActive := !p.isActive, updatedAt := now);
      assert first.0[id := p.(updatedAt := later)] == products[id := p.(updatedAt := later)];
    }
  }

  /** `deleteProduct`: the product is marked deleted and off, never removed. */
  function DeleteProduct(products: AdminProducts, raw: string, now: int): (r: (AdminProducts, Result<()>))
    ensures r.1.Err? ==> r.0 == products
    ensures FindLive(products, raw).Missing? ==> r.1 == Fail(404, PRODUCT_NOT_FOUND)
    ensures r.1.Ok? ==> (FindLive(products, raw).Found? && r.0.Keys == products.Keys &&
      var q := r.0[Lower(raw)];
      q.isDeleted && !q.isActive && q.(isDeleted := false, isActive := products[Lower(raw)].isActive, updatedAt := products[Lower(raw)].updatedAt) == products[Lower(raw)])
  {
    match FindLive(products, raw)
    case BadId => (products, Fail(500, DELETE_FAILED))
    case Missing => (products, Fail(404, PRODUCT_NOT_FOUND))
    case Found(id) =>
      var p := products[id];
      match Save(p.(isDeleted := true, isActive := false), now)
      case None => (products, Fail(500, DELETE_FAILED))
      case Some(q) => (products[id := q], Ok(()))
  }

  /**
   * A deleted product is gone for every endpoint that looks it up: reading,
   * toggling, setting stock and deleting again all answer 404. On a
   * consistent store deleting a live product always succeeds.
   */
  lemma DeleteThenLookups(products: AdminProducts, raw: string, now: int, later: int, stock: int)
    requires Consistent(products) && FindLive(products, raw).Found? && stock >= 0
    ensures var after := DeleteProduct(products, raw, now);
      after.1.Ok? && Consistent(after.0) &&
      GetProductById(after.0, raw) == Fail(404, PRODUCT_NOT_FOUND) &&
      ToggleProductStatus(after.0, raw, later).1 == Fail(404, PRODUCT_NOT_FOUND) &&
      UpdateProductStock(after.0, raw, Some(stock), later).1 == Fail(404, PRODUCT_NOT_FOUND) &&
      DeleteProduct(after.0, raw, later).1 == Fail(404, PRODUCT_NOT_FOUND)
  {
    var after := DeleteProduct(products, raw, now);
    assert after.0[Lower(raw)].isDeleted;
  }

  /** The document as `updateProductStock` changes it: the new stock, off at 0, the cap following the stock when purchase is unlimited. */
  function Restock(p: AdminProduct, stock: int): (q: AdminProduct)
    ensures q.totalStock == stock
    ensures stock == 0 ==> !q.isActive
    ensures stock != 0 ==> q.isActive == p.isActive
    ensures q.maxUnitsPerUser == (if p.isUnlimitedPurchase then stock else p.maxUnitsPerUser)
    ensures q.(totalStock := p.totalStock, isActive := p.isActive, maxUnitsPerUser := p.maxUnitsPerUser) == p
  {
    p.(totalStock := stock,
       isActive := if stock == 0 then false else p.isActive,
       maxUnitsPerUser := if p.isUnlimitedPurchase then stock else p.maxUnitsPerUser)
  }

  /** `updateProductStock`: the stock is checked before the lookup. */
  function UpdateProductStock(products: AdminProducts, raw: string, stock: Option<int>, now: int)
    : (r: (AdminProducts, Result<AdminProduct>))
    ensures stock.None? || stock.value < 0 ==> r == (products, Fail(400, INVALID_STOCK))
    ensures r.1.Err? ==> r.0 == products
    ensures stock.Some? && stock.value >= 0 && FindLive(products, raw).Missing? ==> r.1 == Fail(404, PRODUCT_NOT_FOUND)
    ensures r.1.Ok? ==> (FindLive(products, raw).Found? && stock.Some? &&
      r.0 == products[Lower(raw) := r.1.value] && r.1.value == PreSave(Restock(products[Lower(raw)], stock.value), now))
  {
    if stock.None? || stock.value < 0 then (products, Fail(400, INVALID_STOCK))
    else
      match FindLive(products, raw)
      case BadId => (products, Fail(500, STOCK_FAILED))
      case Missing => (products, Fail(404, PRODUCT_NOT_FOUND))
      case Found(id) =>
        match Save(Restock(products[id], stock.value), now)
        case None => (products, Fail(500, STOCK_FAILED))
        case Some(q) => (products[id := q], Ok(q))
  }

  /**
   * Setting a positive stock on a live product of a consistent store
   * succeeds, and so does setting 0 when purchase is limited; the product
   * then has exactly that stock and is off at 0.
   */
  lemma StockUpdated(products: AdminProducts, raw: string, stock: nat, now: int)
    requires Consistent(products) && FindLive(products, raw).Found?
    requires stock > 0 || !products[Lower(raw)].isUnlimitedPurchase
    ensures var r := UpdateProductStock(products, raw, Some(stock), now);
      r.1.Ok? && Consistent(r.0) && r.1.value.totalStock == stock && (stock == 0 ==> !r.1.value.isActive) &&
      (r.1.value.isUnlimitedPurchase ==> r.1.value.maxUnitsPerUser == stock)
  {
    var p := products[Lower(raw)];
    assert Valid(Restock(p, stock));
  }

  /**
   * As written, emptying the stock of a product with unlimited purchase
   * sets its cap to 0, below the schema's minimum of 1: the save fails and
   * the endpoint answers 500, leaving the product on sale.
   */
  lemma UnlimitedEmptyFailsAsWritten(products: AdminProducts, raw: string, now: int)
    requires Consistent(products) && FindLive(products, raw).Found?
    requires products[Lower(raw)].isUnlimitedPurchase
    ensures UpdateProductStock(products, raw, Some(0), now) == (products, Fail(500, STOCK_FAILED))
  {
    assert !Valid(Restock(products[Lower(raw)], 0));
  }

  /** The evidently intended change: the cap follows the stock only while there is some. */
  function RestockCorrected(p: AdminProduct, stock: int): (q: AdminProduct)
    ensures q.totalStock == stock
    ensures stock == 0 ==> !q.isActive
    ensures stock != 0 ==> q.isActive == p.isActive
    ensures q.maxUnitsPerUser == (if p.isUnlimitedPurchase && stock > 0 then stock else p.maxUnitsPerUser)
  {
    p.(totalStock := stock,
       isActive := if stock == 0 then false else p.isActive,
       maxUnitsPerUser := if p.isUnlimitedPurchase && stock > 0 then stock else p.maxUnitsPerUser)
  }

  /** `updateProductStock` with the corrected change. */
  function UpdateProductStockCorrected(products: AdminProducts, raw: string, stock: Option<int>, now: int)
    : (r: (AdminProducts, Result<AdminProduct>))
    ensures stock.None? || stock.value < 0 ==> r == (products, Fail(400, INVALID_STOCK))
    ensures r.1.Err? ==> r.0 == products
    ensures r.1.Ok? ==> (FindLive(products, raw).Found? && stock.Some? &&
      r.0 == products[Lower(raw) := r.1.value] && r.1.value == PreSave(RestockCorrected(products[Lower(raw)], stock.value), now))
  {
    if stock.None? || stock.value < 0 then (products, Fail(400, INVALID_STOCK))
    else
      match FindLive(products, raw)
      case BadId => (products, Fail(500, STOCK_FAILED))
      case Missing => (products, Fail(404, PRODUCT_NOT_FOUND))
      case Found(id) =>
        match Save(RestockCorrected(products[id], stock.value), now)
        case None => (products, Fail(500, STOCK_FAILED))
        case Some(q) => (products[id := q], Ok(q))
  }

  /**
   * With the correction every stock of at least 0 is accepted for a live
   * product of a consistent store: the product has that stock, is off at
   * 0, and an unlimited product's cap follows any positive stock.
   */
  lemma CorrectedStockAlwaysSaves(products: AdminProducts, raw: string, stock: nat, now: int)
    requires Consistent(products) && FindLive(products, raw).Found?
    ensures var r := UpdateProductStockCorrected(products, raw, Some(stock), now);
      r.1.Ok? && Consistent(r.0) && r.1.value.totalStock == stock && (stock == 0 ==> !r.1.value.isActive) &&
      (r.1.value.isUnlimitedPurchase && stock > 0 ==> r.1.value.maxUnitsPerUser == stock)
  {
    var p := products[Lower(raw)];
    assert Valid(RestockCorrected(p, stock));
  }
}
