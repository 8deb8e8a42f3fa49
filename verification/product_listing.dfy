/**
 * What the two storefront product listings share: the normalisation of
 * the `page` / `limit` parameters, the search and filter query, and the
 * page count. The collection is given newest first, the order both
 * listings ask the database for.
 */
module ProductListing {

  import opened Base
  import opened Text
  import opened Catalog
  import opened Paging

  const DEFAULT_LIMIT: int := 12
  const MAX_LIMIT: int := 100

  datatype Pagination = Pagination(page: int, limit: int, skip: int)

  /**
   * `page = max(page or 1, 1)`, `limit = min(max(limit or 12, 1), 100)`,
   * `skip = (page - 1) * limit`. A missing or zero value takes the
   * default; a zero limit becomes 12, not 1.
   */
  function Paginate(page: Option<int>, limit: Option<int>): (r: Pagination)
    ensures r.page >= 1 && 1 <= r.limit <= MAX_LIMIT && r.skip == Skip(r.page, r.limit)
    ensures page.Some? && page.value >= 1 ==> r.page == page.value
    ensures (page.None? || page.value <= 1) ==> r.page == 1
    ensures limit.Some? && 1 <= limit.value <= MAX_LIMIT ==> r.limit == limit.value
    ensures (limit.None? || limit.value == 0) ==> r.limit == DEFAULT_LIMIT
    ensures limit.Some? && limit.value < 0 ==> r.limit == 1
    ensures limit.Some? && limit.value > MAX_LIMIT ==> r.limit == MAX_LIMIT
  {
    var p := if page.None? || page.value == 0 then 1 else page.value;
    var p := if p < 1 then 1 else p;
    var l := if limit.None? || limit.value == 0 then DEFAULT_LIMIT else limit.value;
    var l := if l < 1 then 1 else if l > MAX_LIMIT then MAX_LIMIT else l;
    Pagination(p, l, Skip(p, l))
  }

  /** Feeding the normalised values back in changes nothing, and the skip is never negative. */
  lemma PaginateIdempotent(page: Option<int>, limit: Option<int>)
    ensures var r := Paginate(page, limit);
      Paginate(Some(r.page), Some(r.limit)) == r && r.skip >= 0
  {
    var r := Paginate(page, limit);
    assert r.page >= 1 && 1 <= r.limit <= MAX_LIMIT;
    SkipNotNegative(r.page, r.limit);
    var again := Paginate(Some(r.page), Some(r.limit));
    assert again.page == r.page && again.limit == r.limit;
  }

  lemma SkipNotNegative(page: int, limit: int)
    requires page >= 1 && limit >= 1
    ensures Skip(page, limit) >= 0
  {
    SkipNegativeIff(page, limit);
  }

  /** `ceil(total / limit) if total else 1` (Python) and `Math.ceil(total / limit) || 1` (JavaScript). */
  function TotalPages(total: nat, limit: int): (r: int)
    requires limit > 0
    ensures r >= 1
    ensures total == 0 ==> r == 1
  {
    if total == 0 then 1 else CeilPages(total, limit)
  }

  /** Unless there is nothing to list, the pages hold every item and the last page is not empty. */
  lemma TotalPagesCover(total: nat, limit: int)
    requires limit > 0 && total > 0
    ensures Skip(TotalPages(total, limit) + 1, limit) >= total && Skip(TotalPages(total, limit), limit) < total
  {
    CeilPagesCover(total, limit);
  }

  /** The search, category and active-flag filters of a listing. */
  datatype Query = Query(search: Option<string>, category: Option<string>, isActive: Option<bool>)

  /** `needle` occurs in `hay` at `i`, ignoring ASCII case. */
  predicate OccursAt(hay: string, needle: string, i: int)
  {
    0 <= i && i + |needle| <= |hay| && Lower(hay[i..i + |needle|]) == Lower(needle)
  }

  /**
   * The case-insensitive `$regex` match, for a search text without regular
   * expression syntax: the text occurs somewhere in the field.
   */
  predicate ContainsFold(hay: string, needle: string)
  {
    exists i :: 0 <= i <= |hay| && OccursAt(hay, needle, i)
  }

  predicate FieldMatches(field: Option<string>, needle: string)
  {
    field.Some? && ContainsFold(field.value, needle)
  }

  /**
   * A non-empty search must occur in the name, the description or the
   * category text; a non-empty category must equal the category text; a
   * given flag must equal the stored `isActive`.
   */
  predicate Matches(p: Product, q: Query)
  {
    && (Truthy(q.search) ==>
          ContainsFold(p.name, q.search.value) || FieldMatches(p.description, q.search.value) ||
          FieldMatches(p.category, q.search.value))
    && (Truthy(q.category) ==> p.category == q.category)
    && (q.isActive.Some? ==> p.isActive == q.isActive.value)
  }

  /** The documents a query selects, in collection order. */
  function Select(products: seq<Product>, q: Query): (r: seq<Product>)
    ensures |r| <= |products|
    ensures forall p :: p in r <==> p in products && Matches(p, q)
  {
    if products == [] then []
    else
      var rest := Select(products[1..], q);
      assert forall p :: p in products <==> p == products[0] || p in products[1..];
      if Matches(products[0], q) then [products[0]] + rest else rest
  }

  /** An empty query selects everything. */
  lemma {:induction false} SelectAll(products: seq<Product>)
    ensures Select(products, Query(None, None, None)) == products
  {
    if products != [] {
      SelectAll(products[1..]);
    }
  }

  /** Narrowing a query never selects more. */
  lemma {:induction false} SelectNarrows(products: seq<Product>, q: Query, flag: bool)
    requires q.isActive.None?
    ensures |Select(products, q.(isActive := Some(flag)))| <= |Select(products, q)|
  {
    if products != [] {
      SelectNarrows(products[1..], q, flag);
    }
  }

  /**
   * The active filter reads the stored flag: a product stored as active
   * whose stock is gone is listed under `isActive=true` although the
   * Python model loads it as inactive.
   */
  lemma ActiveFilterReadsStoredFlag(p: Product)
    requires p.isActive && SettledStock(p) == 0
    ensures Matches(p, Query(None, None, Some(true))) && !LoadPy(p).isActive
  {
  }

  /** A listing's answer: one page of items and the counts. */
  datatype Listing = Listing(data: seq<Product>, page: int, limit: int, totalPages: int, totalItems: nat)

  /** The page of a selection that a normalised pagination asks for. */
  function PageItems(selected: seq<Product>, p: Pagination): (r: seq<Product>)
    requires p.limit >= 1 && p.skip >= 0
    ensures |r| <= p.limit
    ensures forall k :: 0 <= k < |r| ==> r[k] in selected
  {
    Window(selected, p.skip, p.limit)
  }

  /**
   * Every selected product is found where one would look for it: with a
   * limit between 1 and 100, the `i`-th selected product (from zero) is
   * item `i % limit` of page `i / limit + 1`, and that page is within the
   * page count.
   */
  lemma EveryItemOnItsPage(selected: seq<Product>, limit: int, i: nat)
    requires 1 <= limit <= MAX_LIMIT && i < |selected|
    ensures var p := Paginate(Some(i / limit + 1), Some(limit));
      p.skip >= 0 && i % limit < |PageItems(selected, p)| && PageItems(selected, p)[i % limit] == selected[i] &&
      p.page <= TotalPages(|selected|, limit)
  {
    PageOfIndex(|selected|, limit, i);
    var page := i / limit + 1;
    var k := i % limit;
    var p := Paginate(Some(page), Some(limit));
    assert p.page == page && p.limit == limit;
    WindowAt(selected, p.skip, limit, k);
  }

  lemma WindowAt(selected: seq<Product>, skip: nat, limit: int, k: nat)
    requires 0 <= k < limit && skip + k < |selected|
    ensures k < |Window(selected, skip, limit)| && Window(selected, skip, limit)[k] == selected[skip + k]
  {
  }
}
