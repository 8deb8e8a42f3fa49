/**
 * The JavaScript storefront's product listing and single-product read.
 * Query parameters arrive as text and go through `parseInt`; documents
 * are served as stored.
 */
module ProductControllerJs {

  import opened Base
  import opened Text
  import opened Ids
  import opened Catalog
  import opened ProductListing

  const INVALID_PRODUCT: string := "Invalid product ID"
  const PRODUCT_NOT_FOUND: string := "Product not found"

  /** `parsePagination`: `parseInt(value, 10) || default`, then the same clamping as the Python backend. */
  function ParsePagination(page: Option<string>, limit: Option<string>): (r: Pagination)
    ensures r.page >= 1 && 1 <= r.limit <= MAX_LIMIT
  {
    Paginate(JsParseInt(page), JsParseInt(limit))
  }

  /**
   * The two backends page alike: a page and a limit printed as decimal
   * numerals, however the text continues after the digits, give the
   * pagination the Python backend computes from the numbers.
   */
  lemma PaginationAgrees(page: nat, limit: nat, pageTail: string, limitTail: string)
    requires pageTail == [] || !IsDigit(pageTail[0])
    requires limitTail == [] || !IsDigit(limitTail[0])
    ensures ParsePagination(Some(NatToString(page) + pageTail), Some(NatToString(limit) + limitTail)) ==
            Paginate(Some(page), Some(limit))
  {
    JsParseIntOfNatString(page, pageTail);
    JsParseIntOfNatString(limit, limitTail);
  }

  /** The query text of the filters: `isActive` filters only when present, and then on `=== 'true'`. */
  function ParseQuery(search: Option<string>, category: Option<string>, isActive: Option<string>): (r: Query)
    ensures r.search == search && r.category == category
    ensures isActive.None? <==> r.isActive.None?
    ensures isActive.Some? ==> (r.isActive.value <==> isActive.value == "true")
  {
    Query(search, category, if isActive.Some? then Some(isActive.value == "true") else None)
  }

  /** `listProducts`: one page of the stored documents that match. */
  function ListProducts(newest: seq<Product>, search: Option<string>, category: Option<string>, isActive: Option<string>,
                        page: Option<string>, limit: Option<string>): (r: Listing)
    ensures var p := ParsePagination(page, limit);
      var selected := Select(newest, ParseQuery(search, category, isActive));
      r.page == p.page && r.limit == p.limit && r.totalItems == |selected| &&
      r.totalPages == TotalPages(|selected|, p.limit) && |r.data| <= p.limit &&
      forall k :: 0 <= k < |r.data| ==> r.data[k] in selected
  {
    var p := ParsePagination(page, limit);
    PaginateIdempotent(JsParseInt(page), JsParseInt(limit));
    var selected := Select(newest, ParseQuery(search, category, isActive));
    Listing(PageItems(selected, p), p.page, p.limit, TotalPages(|selected|, p.limit), |selected|)
  }

  /**
   * Any text other than exactly `true` (`"True"`, `"1"`, `"yes"`) filters
   * for inactive products.
   */
  lemma OnlyLiteralTrueSelectsActive(newest: seq<Product>, flag: string, p: Product)
    requires flag != "true" && p in newest
    ensures p in Select(newest, ParseQuery(None, None, Some(flag))) <==> !p.isActive
  {
  }

  /**
   * With the same filters and paging numbers the JavaScript listing
   * returns the stored documents the Python listing loads.
   */
  lemma ListingsAgree(newest: seq<Product>, search: Option<string>, category: Option<string>, flag: bool,
                      page: nat, limit: nat, k: nat)
    requires k < |ListProducts(newest, search, category, Some(if flag then "true" else "false"),
                               Some(NatToString(page)), Some(NatToString(limit))).data|
    ensures var js := ListProducts(newest, search, category, Some(if flag then "true" else "false"),
                                   Some(NatToString(page)), Some(NatToString(limit)));
      var p := Paginate(Some(page), Some(limit));
      var selected := Select(newest, Query(search, category, Some(flag)));
      js.page == p.page && js.limit == p.limit && js.totalItems == |selected| && js.data[k] in selected
  {
    PaginationAgrees(page, limit, [], []);
    assert NatToString(page) + [] == NatToString(page);
    assert NatToString(limit) + [] == NatToString(limit);
  }

  /** `getProduct`: 400 for text that is not an object id, 404 for an unknown one, else the stored document. */
  function GetProduct(products: Products, productId: string): (r: Result<Product>)
    ensures ParseObjectId(productId).None? ==> r == Fail(400, INVALID_PRODUCT)
    ensures ParseObjectId(productId).Some? ==>
      (Lower(productId) in products ==> r == Ok(products[Lower(productId)])) &&
      (Lower(productId) !in products ==> r == Fail(404, PRODUCT_NOT_FOUND))
  {
    match ParseObjectId(productId)
    case None => Fail(400, INVALID_PRODUCT)
    case Some(id) => if id in products then Ok(products[id]) else Fail(404, PRODUCT_NOT_FOUND)
  }

  /** A stored id reads back its product, in any letter case. */
  lemma GetStored(products: Products, id: Id)
    requires IsCanonicalId(id) && id in products
    ensures GetProduct(products, id) == Ok(products[id])
    ensures GetProduct(products, Upper(id)) == Ok(products[id])
  {
    ParseCanonical(id);
    ParseCaseInsensitive(id);
  }
}
