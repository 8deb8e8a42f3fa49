/**
 * The Python storefront's product endpoints: the paged, filtered listing,
 * a single product, and the admin update and delete. Documents are served
 * as the Python model loads them (`LoadPy`).
 *
 * The update body passes through the `ProductUpdate` request model, whose
 * `currency`, `stock` and `isActive` fields have non-`None` defaults.
 * `model_dump(exclude_none=True)` keeps those defaults, so an update that
 * names only the price also resets the currency, the stock and the active
 * flag. `Dump.ExcludeNone` models that; `Dump.SentOnly` forwards only the
 * fields the client sent with a value, which is what the route's
 * "forward only what was given" filter evidently means.
 */
module ProductControllerPy {

  import opened Base
  import opened Text
  import opened Ids
  import opened Catalog
  import opened Paging
  import opened ProductListing

  const PRODUCT_NOT_FOUND: string := "Product not found"
  /** Beanie's `Product.get` refuses a string that is not an object id. */
  const NOT_AN_OBJECT_ID: string := "Id must be of type PydanticObjectId"
  /** Pydantic's `ge=0` failure, answered with 422 before the handler runs. */
  const BELOW_ZERO: string := "Input should be greater than or equal to 0"
  const DEFAULT_CURRENCY: string := "INR"

  /**
   * `listProducts`. The filter runs on the stored documents; the page is
   * then loaded, so a listed product may show the flags `sync_fields`
   * gives it rather than the stored ones.
   */
  function ListProducts(newest: seq<Product>, q: Query, page: Option<int>, limit: Option<int>): (r: Listing)
    ensures var p := Paginate(page, limit);
      r.page == p.page && r.limit == p.limit && r.totalItems == |Select(newest, q)| &&
      r.totalPages == TotalPages(r.totalItems, r.limit)
    ensures |r.data| <= r.limit
    ensures forall k :: 0 <= k < |r.data| ==>
      exists x :: x in newest && Matches(x, q) && r.data[k] == LoadPy(x)
  {
    var p := Paginate(page, limit);
    PaginateIdempotent(page, limit);
    var selected := Select(newest, q);
    var items := PageItems(selected, p);
    var data := seq(|items|, k requires 0 <= k < |items| => LoadPy(items[k]));
    assert forall k :: 0 <= k < |data| ==> items[k] in newest && Matches(items[k], q) && data[k] == LoadPy(items[k]);
    Listing(data, p.page, p.limit, TotalPages(|selected|, p.limit), |selected|)
  }

  /**
   * The listing reaches every matching product: with a limit between 1
   * and 100, the `i`-th match is served, loaded, as item `i % limit` of
   * page `i / limit + 1`, a page within the page count.
   */
  lemma ListingReachesEveryMatch(newest: seq<Product>, q: Query, limit: int, i: nat)
    requires 1 <= limit <= MAX_LIMIT && i < |Select(newest, q)|
    ensures var r := ListProducts(newest, q, Some(i / limit + 1), Some(limit));
      i % limit < |r.data| && r.data[i % limit] == LoadPy(Select(newest, q)[i]) && r.page <= r.totalPages
  {
    EveryItemOnItsPage(Select(newest, q), limit, i);
  }

  /** `getProduct`: the loaded document, or 404. */
  function GetProduct(products: Products, productId: string): (r: Result<Product>)
    ensures ParseObjectId(productId).None? ==> r == Err(Crash(NOT_AN_OBJECT_ID))
    ensures ParseObjectId(productId).Some? ==>
      (Lower(productId) in products ==> r == Ok(LoadPy(products[Lower(productId)]))) &&
      (Lower(productId) !in products ==> r == Fail(404, PRODUCT_NOT_FOUND))
  {
    match ParseObjectId(productId)
    case None => Err(Crash(NOT_AN_OBJECT_ID))
    case Some(id) => if id in products then Ok(LoadPy(products[id])) else Fail(404, PRODUCT_NOT_FOUND)
  }

  /** A body field as the client sent it: left out, sent as `null`, or sent with a value. */
  datatype Field<T> = Absent | Null | Given(value: T)

  datatype UpdateBody = UpdateBody(
    name: Field<string>, slug: Field<string>, description: Field<string>, price: Field<int>,
    currency: Field<string>, stock: Field<int>, category: Field<string>, images: Field<seq<string>>,
    isActive: Field<bool>)

  /** The keys the controller writes with `setattr`; `None` is a key it does not write. */
  datatype Payload = Payload(
    name: Option<string>, slug: Option<string>, description: Option<string>, price: Option<nat>,
    currency: Option<string>, stock: Option<int>, category: Option<string>, images: Option<seq<string>>,
    isActive: Option<bool>)

  datatype Dump = ExcludeNone | SentOnly

  /** The value a field holds after parsing: its default when left out, `None` when sent as `null`. */
  function Parsed<T>(f: Field<T>, default: Option<T>): Option<T>
  {
    match f
    case Absent => default
    case Null => None
    case Given(v) => Some(v)
  }

  /** The key as forwarded: every non-`None` value, or only the values the client sent. */
  function Forward<T>(f: Field<T>, default: Option<T>, dump: Dump): (r: Option<T>)
    ensures f.Given? ==> r == Some(f.value)
    ensures f.Null? ==> r.None?
    ensures f.Absent? ==> r == (if dump == SentOnly then None else default)
  {
    if dump == SentOnly && f.Absent? then None else Parsed(f, default)
  }

  /** The `images` validator: falsy entries dropped, the rest stripped (so a blank entry survives as ""). */
  function CleanImages(images: seq<string>): (r: seq<string>)
    ensures |r| <= |images|
    ensures forall k :: 0 <= k < |r| ==> exists j :: 0 <= j < |images| && images[j] != "" && r[k] == Trim(images[j])
  {
    if images == [] then []
    else
      var rest := CleanImages(images[1..]);
      assert forall j :: 0 <= j < |images[1..]| ==> images[1..][j] == images[j + 1];
      if images[0] == "" then rest else [Trim(images[0])] + rest
  }

  /** `value.lower() if value else value` and its upper-case twin. */
  function LowerIfAny(f: Field<string>): Field<string>
  {
    if f.Given? && f.value != "" then Given(Lower(f.value)) else f
  }

  function UpperIfAny(f: Field<string>): Field<string>
  {
    if f.Given? && f.value != "" then Given(Upper(f.value)) else f
  }

  /**
   * `ProductUpdate` parsing and the dump the route forwards. A negative
   * price or stock is refused with 422. The defaults are `"INR"`, `0` and
   * `true` for the currency, the stock and the flag, `None` elsewhere.
   */
  function UpdatePayload(b: UpdateBody, dump: Dump): (r: Result<Payload>)
    ensures r.Err? <==> (b.price.Given? && b.price.value < 0) || (b.stock.Given? && b.stock.value < 0)
    ensures r.Err? ==> r.error == Http(422, BELOW_ZERO)
    ensures r.Ok? ==>
      (b.price.Given? <==> r.value.price.Some?) && (b.name.Given? <==> r.value.name.Some?) &&
      (b.slug.Given? ==> r.value.slug.Some? && r.value.slug.value == Lower(b.slug.value)) &&
      (b.images.Given? ==> r.value.images == Some(CleanImages(b.images.value)))
    ensures r.Ok? && dump == SentOnly ==>
      (b.currency.Given? <==> r.value.currency.Some?) && (b.stock.Given? <==> r.value.stock.Some?) &&
      (b.isActive.Given? <==> r.value.isActive.Some?)
  {
    if (b.price.Given? && b.price.value < 0) || (b.stock.Given? && b.stock.value < 0) then Fail(422, BELOW_ZERO)
    else
      var slug := LowerIfAny(b.slug);
      Ok(Payload(
        Forward(b.name, None, dump),
        Forward(slug, None, dump),
        Forward(b.description, None, dump),
        if b.price.Given? then Some(b.price.value as nat) else None,
        Forward(UpperIfAny(b.currency), Some(DEFAULT_CURRENCY), dump),
        Forward(b.stock, Some(0), dump),
        Forward(b.category, None, dump),
        if b.images.Given? then Some(CleanImages(b.images.value)) else None,
        Forward(b.isActive, Some(true), dump)))
  }

  /** `setattr` of every forwarded key; nothing is re-validated. */
  function Apply(p: Product, u: Payload): (r: Product)
    ensures u.price.Some? ==> r.price == u.price.value
    ensures u.isActive.Some? ==> r.isActive == u.isActive.value
    ensures u.currency.Some? ==> r.currency == u.currency.value
    ensures u.stock.Some? ==> r.stock == u.stock.value
    ensures r.totalStock == p.totalStock && r.categoryId == p.categoryId && r.isDeleted == p.isDeleted
    ensures u == Payload(None, None, None, None, None, None, None, None, None) ==> r == p
  {
    p.(name := u.name.GetOr(p.name),
       slug := u.slug.GetOr(p.slug),
       description := if u.description.Some? then u.description else p.description,
       price := u.price.GetOr(p.price),
       currency := u.currency.GetOr(p.currency),
       stock := u.stock.GetOr(p.stock),
       category := if u.category.Some? then u.category else p.category,
       images := u.images.GetOr(p.images),
       isActive := u.isActive.GetOr(p.isActive))
  }

  /**
   * `updateProduct`: the body is parsed first, then the product is
   * loaded, every forwarded key set, and the result saved and returned.
   */
  function UpdateProduct(products: Products, productId: string, b: UpdateBody, dump: Dump): (r: (Products, Result<Product>))
    ensures UpdatePayload(b, dump).Err? ==> r == (products, Err(UpdatePayload(b, dump).error))
    ensures UpdatePayload(b, dump).Ok? && ParseObjectId(productId).None? ==> r == (products, Err(Crash(NOT_AN_OBJECT_ID)))
    ensures UpdatePayload(b, dump).Ok? && ParseObjectId(productId).Some? && Lower(productId) !in products ==>
      r == (products, Fail(404, PRODUCT_NOT_FOUND))
    ensures r.1.Ok? ==>
      (Lower(productId) in products && r.0 == products[Lower(productId) := r.1.value] &&
       r.1.value == Apply(LoadPy(products[Lower(productId)]), UpdatePayload(b, dump).value))
    ensures r.1.Err? ==> r.0 == products
  {
    match UpdatePayload(b, dump)
    case Err(e) => (products, Err(e))
    case Ok(u) =>
      match ParseObjectId(productId)
      case None => (products, Err(Crash(NOT_AN_OBJECT_ID)))
      case Some(id) =>
        if id !in products then (products, Fail(404, PRODUCT_NOT_FOUND))
        else
          var p := Apply(LoadPy(products[id]), u);
          (products[id := p], Ok(p))
  }

  /** A body that sends only a new price. */
  function PriceOnly(price: int): UpdateBody
  {
    UpdateBody(Absent, Absent, Absent, Given(price), Absent, Absent, Absent, Absent, Absent)
  }

  /**
   * As written, a price-only update of a product the admin switched off
   * switches it back on (while it has stock) and resets its currency to
   * INR.
   */
  lemma PriceUpdateReactivatesAsWritten(products: Products, id: Id, price: nat)
    requires id in products && IsCanonicalId(id)
    requires !products[id].isActive && products[id].totalStock.Some? && products[id].totalStock.value > 0
    ensures var (after, r) := UpdateProduct(products, id, PriceOnly(price), ExcludeNone);
      r.Ok? && LoadPy(after[id]).isActive && LoadPy(after[id]).currency == DEFAULT_CURRENCY
  {
    ParseCanonical(id);
    var u := UpdatePayload(PriceOnly(price), ExcludeNone).value;
    assert u.isActive == Some(true) && u.currency == Some(DEFAULT_CURRENCY);
    assert Upper(DEFAULT_CURRENCY) == DEFAULT_CURRENCY;
  }

  /**
   * Forwarding only what was sent, a price-only update changes the price
   * and nothing else the Python model shows.
   */
  lemma PriceUpdateKeepsRest(products: Products, id: Id, price: nat)
    requires id in products && IsCanonicalId(id)
    ensures var (after, r) := UpdateProduct(products, id, PriceOnly(price), SentOnly);
      r.Ok? && r.value == LoadPy(products[id]).(price := price) && after == products[id := r.value]
  {
    ParseCanonical(id);
  }

  /**
   * A stock change through the update route moves `stock` alone, and the
   * next load restores the figure from `totalStock`: the restock is not
   * seen.
   */
  lemma RestockUndoneOnLoad(products: Products, id: Id, b: UpdateBody, dump: Dump)
    requires id in products && IsCanonicalId(id)
    requires UpdateProduct(products, id, b, dump).1.Ok?
    ensures LoadPy(UpdateProduct(products, id, b, dump).0[id]).stock == LoadPy(products[id]).stock
  {
    ParseCanonical(id);
  }

  const FIELD_REQUIRED: string := "Field required"
  const NOT_TEXT: string := "Input should be a valid string"
  const NOT_NUMBER: string := "Input should be a valid number"
  const NOT_INTEGER: string := "Input should be a valid integer"
  const DUPLICATE_KEY: string := "E11000 duplicate key error"

  /** A required `ProductCreate` field: missing and `null` are refused with 422. */
  function Required<T>(f: Field<T>, nullMessage: string): (r: Result<T>)
    ensures r.Ok? <==> f.Given?
    ensures r.Ok? ==> r.value == f.value
    ensures f.Absent? ==> r == Fail(422, FIELD_REQUIRED)
    ensures f.Null? ==> r == Fail(422, nullMessage)
  {
    match f
    case Absent => Fail(422, FIELD_REQUIRED)
    case Null => Fail(422, nullMessage)
    case Given(v) => Ok(v)
  }

  /** The four fields `ProductCreate` requires, once present and accepted by the document's bounds. */
  datatype Essentials = Essentials(name: string, slug: string, price: nat, stock: nat)

  /**
   * `ProductCreate` makes the name, the slug, the price and the stock
   * required (the first failing one, in that order, is reported) and
   * redeclares the price and the stock without their `ge=0` bound, so a
   * negative value passes the request model and fails only when
   * `Product(**payload)` validates the document, as an unhandled
   * validation error.
   */
  function CreateEssentials(b: UpdateBody): (r: Result<Essentials>)
    ensures r.Ok? <==>
      b.name.Given? && b.slug.Given? && b.price.Given? && b.stock.Given? && b.price.value >= 0 && b.stock.value >= 0
    ensures r.Ok? ==> r.value.name == b.name.value && r.value.slug == Lower(b.slug.value) &&
                      r.value.price == b.price.value && r.value.stock == b.stock.value
    ensures b.name.Absent? ==> r == Fail(422, FIELD_REQUIRED)
    ensures (b.name.Given? && b.slug.Given? && b.price.Given? && b.stock.Given? &&
             (b.price.value < 0 || b.stock.value < 0)) ==> r == Err(Crash(BELOW_ZERO))
  {
    match Required(b.name, NOT_TEXT)
    case Err(e) => Err(e)
    case Ok(name) =>
      match Required(LowerIfAny(b.slug), NOT_TEXT)
      case Err(e) => Err(e)
      case Ok(slug) =>
        match Required(b.price, NOT_NUMBER)
        case Err(e) => Err(e)
        case Ok(price) =>
          match Required(b.stock, NOT_INTEGER)
          case Err(e) => Err(e)
          case Ok(stock) =>
            if price < 0 || stock < 0 then Err(Crash(BELOW_ZERO))
            else Ok(Essentials(name, slug, price, stock))
  }

  /**
   * `Product(**payload)` with the dump of the create body: the optional
   * fields the client left out or sent as `null` take the document's
   * defaults, then the model's validators run.
   */
  function NewProduct(e: Essentials, b: UpdateBody): (r: Product)
    ensures r.name == e.name && r.slug == Lower(e.slug) && r.price == e.price
    ensures r.stock == e.stock && r.totalStock == Some(e.stock as int)
    ensures r.categoryId.None? && !r.isDeleted && r.maxUnitsPerUser == 1 && !r.isUnlimitedPurchase
    ensures r.isActive <==> b.isActive != Given(false) && e.stock != 0
    ensures LoadPy(r) == r
  {
    var raw := Product(e.name, e.slug, Parsed(b.description, None), None, Parsed(b.category, None),
                       e.price, Parsed(UpperIfAny(b.currency), Some(DEFAULT_CURRENCY)).GetOr(DEFAULT_CURRENCY),
                       e.stock, None, 1, false, None,
                       if b.images.Given? then CleanImages(b.images.value) else [],
                       Parsed(b.isActive, Some(true)).GetOr(true), false);
    LoadIdempotent(raw);
    LoadPy(raw)
  }

  /**
   * `create_product`: the document built from the body is stored under
   * the fresh id `newId`, unless the unique slug index already holds its
   * slug.
   */
  function CreateProduct(products: Products, newId: Id, b: UpdateBody): (r: (Products, Result<Product>))
    requires newId !in products
    ensures CreateEssentials(b).Err? ==> r == (products, Err(CreateEssentials(b).error))
    ensures r.1.Ok? <==>
      CreateEssentials(b).Ok? &&
      forall k :: k in products ==> products[k].slug != NewProduct(CreateEssentials(b).value, b).slug
    ensures r.1.Err? ==> r.0 == products
    ensures r.1.Ok? ==> r.0 == products[newId := r.1.value] && r.1.value == NewProduct(CreateEssentials(b).value, b)
  {
    match CreateEssentials(b)
    case Err(e) => (products, Err(e))
    case Ok(e) =>
      var created := NewProduct(e, b);
      if exists k :: k in products && products[k].slug == created.slug then (products, Err(Crash(DUPLICATE_KEY)))
      else (products[newId := created], Ok(created))
  }

  /** A created product reads back as created, and a second create with the same slug is refused. */
  lemma CreateThenGet(products: Products, newId: Id, otherId: Id, b: UpdateBody)
    requires newId !in products && IsCanonicalId(newId) && CreateProduct(products, newId, b).1.Ok?
    requires otherId !in CreateProduct(products, newId, b).0
    ensures var (after, r) := CreateProduct(products, newId, b);
      GetProduct(after, newId) == r &&
      CreateProduct(after, otherId, b).1 == Err(Crash(DUPLICATE_KEY))
  {
    var (after, r) := CreateProduct(products, newId, b);
    ParseCanonical(newId);
    assert after[newId].slug == NewProduct(CreateEssentials(b).value, b).slug;
  }

  /** `deleteProduct`: the document is removed; deleting it again finds nothing. */
  function DeleteProduct(products: Products, productId: string): (r: (Products, Result<()>))
    ensures ParseObjectId(productId).None? ==> r == (products, Err(Crash(NOT_AN_OBJECT_ID)))
    ensures ParseObjectId(productId).Some? && Lower(productId) !in products ==> r == (products, Fail(404, PRODUCT_NOT_FOUND))
    ensures r.1.Ok? <==> ParseObjectId(productId).Some? && Lower(productId) in products
    ensures r.1.Ok? ==> r.0 == products - {Lower(productId)}
  {
    match ParseObjectId(productId)
    case None => (products, Err(Crash(NOT_AN_OBJECT_ID)))
    case Some(id) => if id in products then (products - {id}, Ok(())) else (products, Fail(404, PRODUCT_NOT_FOUND))
  }

  /** After a delete the product is gone for `getProduct` too. */
  lemma DeleteThenGet(products: Products, productId: string)
    requires DeleteProduct(products, productId).1.Ok?
    ensures GetProduct(DeleteProduct(products, productId).0, productId) == Fail(404, PRODUCT_NOT_FOUND)
    ensures DeleteProduct(DeleteProduct(products, productId).0, productId).1 == Fail(404, PRODUCT_NOT_FOUND)
  {
  }
}
