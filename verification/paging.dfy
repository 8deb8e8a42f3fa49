/**
 * The page arithmetic every listing shares: a page number and a page size
 * give the number of documents to skip, `(page - 1) * limit`, and a total
 * gives the number of pages. The product is written as repeated addition
 * so that the arithmetic stays inside the lemmas below, which relate it to
 * ordinary multiplication.
 */
module Paging {

  import opened Base

  /** `a * b`, by repeated addition of `a`. */
  function Times(a: int, b: int): int
    decreases if b < 0 then -b else b
  {
    if b == 0 then 0 else if b > 0 then Times(a, b - 1) + a else Times(a, b + 1) - a
  }

  lemma {:induction false} TimesIsProduct(a: int, b: int)
    ensures Times(a, b) == a * b
    decreases if b < 0 then -b else b
  {
    if b > 0 {
      TimesIsProduct(a, b - 1);
    } else if b < 0 {
      TimesIsProduct(a, b + 1);
    }
  }

  /** The documents a listing skips to reach a page: `(page - 1) * limit`. */
  function Skip(page: int, limit: int): int
  {
    Times(page - 1, limit)
  }

  /** Python's `//`, which rounds toward minus infinity. */
  function FloorDiv(a: int, b: int): int
    requires b != 0
  {
    if b > 0 then a / b else (-a) / (-b)
  }

  /** `FloorDiv` is Python's `//`: the quotient rounded toward minus infinity, whatever the signs. */
  lemma FloorDivBounds(a: int, b: int)
    requires b != 0
    ensures var q := FloorDiv(a, b);
      (b > 0 ==> q * b <= a < q * b + b) && (b < 0 ==> q * b >= a > q * b + b)
  {
    if b < 0 {
      var q := (-a) / (-b);
      assert q * (-b) <= -a < q * (-b) + (-b);
      assert q * b == -(q * (-b));
    }
  }

  /** `(total + limit - 1) // limit`: the page count of the Python review listing. */
  function CeilPages(total: int, limit: int): int
    requires limit != 0
  {
    FloorDiv(total + limit - 1, limit)
  }

  /**
   * JavaScript's `Math.ceil(total / limit)` for the admin listings. `None`
   * stands for a limit of 0, whose quotient JSON prints as `null`; a
   * negative limit rounds toward zero.
   */
  function PageCount(total: nat, limit: int): (r: Option<int>)
    ensures limit == 0 <==> r.None?
    ensures limit > 0 ==> r == Some(CeilPages(total, limit))
    ensures limit < 0 ==> r.value <= 0
  {
    if limit == 0 then None
    else if limit > 0 then Some(CeilPages(total, limit))
    else Some(-(total / (-limit)))
  }

  /**
   * With a positive limit, `(total + limit - 1) // limit` is the ceiling of
   * `total / limit`: the pages hold every document and the last one is
   * not empty; no documents means no pages.
   */
  lemma CeilPagesCover(total: nat, limit: int)
    requires limit > 0
    ensures var pages := CeilPages(total, limit);
      pages >= 0 && Skip(pages + 1, limit) >= total && (total > 0 ==> Skip(pages, limit) < total) && (total == 0 ==> pages == 0)
  {
    var pages := CeilPages(total, limit);
    FloorDivBounds(total + limit - 1, limit);
    TimesIsProduct(pages, limit);
    TimesIsProduct(pages - 1, limit);
    assert (pages - 1) * limit == pages * limit - limit;
  }

  /**
   * Where the `i`-th document (from zero) of a listing is found: on page
   * `i / limit + 1`, at position `i % limit`, and that page is no later
   * than the last.
   */
  lemma PageOfIndex(total: nat, limit: int, i: nat)
    requires limit > 0 && i < total
    ensures Skip(i / limit + 1, limit) >= 0 && Skip(i / limit + 1, limit) + i % limit == i && i % limit < limit
    ensures i / limit + 1 <= CeilPages(total, limit)
  {
    TimesIsProduct(i / limit, limit);
    var pages := CeilPages(total, limit);
    FloorDivBounds(total + limit - 1, limit);
    if i / limit + 1 > pages {
      MultiplyMonotone(pages, i / limit, limit);
    }
  }

  /**
   * The skip `(page - 1) * limit` is negative exactly when the page is
   * below 1 with a positive limit, or beyond 1 with a negative limit.
   */
  lemma SkipNegativeIff(page: int, limit: int)
    ensures Skip(page, limit) < 0 <==> (page < 1 && limit > 0) || (page > 1 && limit < 0)
  {
    TimesIsProduct(page - 1, limit);
    var a := page - 1;
    if a > 0 && limit > 0 {
      MultiplyMonotone(0, a, limit);
    } else if a < 0 && limit > 0 {
      MultiplyMonotone(a, -1, limit);
    } else if a > 0 && limit < 0 {
      MultiplyMonotone(1, a, -limit);
      assert a * limit == -(a * (-limit));
    } else if a < 0 && limit < 0 {
      MultiplyMonotone(0, -a, -limit);
      assert a * limit == (-a) * (-limit);
    }
  }

  lemma MultiplyMonotone(a: int, b: int, c: int)
    requires a <= b && c > 0
    ensures a * c <= b * c
  {
    assert b * c - a * c == (b - a) * c;
  }
  /**
   * `.skip(skip).limit(limit)` on a query result: a limit of zero means no
   * limit and a negative one, as the MongoDB drivers read it, its magnitude.
   */
  function Window<T>(s: seq<T>, skip: nat, limit: int): (r: seq<T>)
    ensures |r| <= |s|
    ensures limit > 0 && skip <= |s| ==> |r| == if |s| - skip < limit then |s| - skip else limit
    ensures forall k :: 0 <= k < |r| ==> skip + k < |s| && r[k] == s[skip + k]
  {
    if skip >= |s| then []
    else if limit == 0 then s[skip..]
    else
      var n := if limit > 0 then limit else -limit;
      s[skip..if skip + n < |s| then skip + n else |s|]
  }

  /** Within a positive limit, entry `k` of the window is entry `skip + k` of the sequence. */
  lemma WindowAt<T>(s: seq<T>, skip: nat, limit: int, k: nat)
    requires limit > 0 && k < limit && skip + k < |s|
    ensures k < |Window(s, skip, limit)| && Window(s, skip, limit)[k] == s[skip + k]
  {
  }
}
