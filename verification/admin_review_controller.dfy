/**
 * The admin backend's review endpoints: the listing of reviews not
 * deleted, a product's reviews newest first, the admin's edit of rating
 * and text, and the soft delete.
 */
module AdminReviewController {

  import opened Base
  import opened Text
  import opened Ids
  import opened Paging
  import AdminCatalog
  import opened AdminReviews

  const REVIEW_NOT_FOUND: string := "Review not found"
  const PRODUCT_NOT_FOUND: string := "Product not found"
  const BAD_RATING: string := "Rating must be between 1 and 5"
  const FETCH_FAILED: string := "Server error while fetching reviews"
  const PRODUCT_FETCH_FAILED: string := "Server error while fetching product reviews"
  const UPDATE_FAILED: string := "Server error while updating review"
  const DELETE_FAILED: string := "Server error while deleting review"

  /** `Review.findOne({ _id: id, isDeleted: false })`. */
  function FindLiveReview(reviews: AdminReviewMap, raw: string): (r: AdminCatalog.Lookup)
    ensures r.BadId? <==> !IsObjectIdText(raw)
    ensures r.Missing? <==> IsObjectIdText(raw) && (Lower(raw) !in reviews || reviews[Lower(raw)].isDeleted)
    ensures r.Found? ==> r.id == Lower(raw) && r.id in reviews && !reviews[r.id].isDeleted
  {
    match ParseObjectId(raw)
    case None => AdminCatalog.BadId
    case Some(id) => if id in reviews && !reviews[id].isDeleted then AdminCatalog.Found(id) else AdminCatalog.Missing
  }

  /** The review as `editReview` changes it: a given rating, and a text only when it is not blank, trimmed. */
  function Edited(r: AdminReview, reviewText: Option<string>, rating: Option<int>): (q: AdminReview)
    ensures q.rating == rating.GetOr(r.rating)
    ensures q.reviewText == (if reviewText.Some? && Trim(reviewText.value) != "" then Some(Trim(reviewText.value)) else r.reviewText)
    ensures q.(rating := r.rating, reviewText := r.reviewText) == r
  {
    r.(rating := rating.GetOr(r.rating),
       reviewText := if reviewText.Some? && Trim(reviewText.value) != "" then Some(Trim(reviewText.value)) else r.reviewText)
  }

  /** `editReview`: unknown or deleted reviews, then a rating outside 1 to 5, are refused unchanged. */
  function EditReview(reviews: AdminReviewMap, raw: string, reviewText: Option<string>, rating: Option<int>, now: int)
    : (r: (AdminReviewMap, Result<AdminReview>))
    ensures r.1.Err? ==> r.0 == reviews
    ensures FindLiveReview(reviews, raw).Missing? ==> r.1 == Fail(404, REVIEW_NOT_FOUND)
    ensures FindLiveReview(reviews, raw).Found? && rating.Some? && !(1 <= rating.value <= 5) ==> r.1 == Fail(400, BAD_RATING)
    ensures r.1.Ok? ==> (FindLiveReview(reviews, raw).Found? && r.0 == reviews[Lower(raw) := r.1.value] &&
                         r.1.value == PreSave(Edited(reviews[Lower(raw)], reviewText, rating), now))
  {
    match FindLiveReview(reviews, raw)
    case BadId => (reviews, Fail(500, UPDATE_FAILED))
    case Missing => (reviews, Fail(404, REVIEW_NOT_FOUND))
    case Found(id) =>
      if rating.Some? && (rating.value < 1 || rating.value > 5) then (reviews, Fail(400, BAD_RATING))
      else
        match Save(Edited(reviews[id], reviewText, rating), now)
        case None => (reviews, Fail(500, UPDATE_FAILED))
        case Some(q) => (reviews[id := q], Ok(q))
  }

  /** Every stored review passes the schema's validators and has been through the hook. */
  predicate AllValid(reviews: AdminReviewMap)
  {
    forall id :: id in reviews ==> Valid(reviews[id]) && Truthy(reviews[id].reviewText) == Truthy(reviews[id].comment)
  }

  /**
   * On a valid store an edit with a rating from 1 to 5 and a short text is
   * accepted and stores the trimmed text; when the review already had
   * both texts the old `comment` is kept as it was, now out of step with
   * the new text.
   */
  lemma EditLeavesCommentStale(reviews: AdminReviewMap, id: Id, text: string, rating: int, now: int)
    requires AllValid(reviews) && IsCanonicalId(id) && id in reviews && !reviews[id].isDeleted
    requires 1 <= rating <= 5 && Trim(text) != "" && |Trim(text)| <= TEXT_MAX
    requires Truthy(reviews[id].comment)
    ensures var r := EditReview(reviews, id, Some(text), Some(rating), now);
      r.1.Ok? && r.1.value.reviewText == Some(Trim(text)) && r.1.value.rating == rating &&
      r.1.value.comment == reviews[id].comment
  {
    ParseCanonical(id);
    assert Valid(Edited(reviews[id], Some(text), Some(rating)));
  }

  /**
   * An edit refused for its rating, whatever its text, leaves no trace:
   * any edit after it answers and stores exactly what it would alone.
   */
  lemma RefusedEditThenValid(reviews: AdminReviewMap, id: Id, text: Option<string>, rating: int, now: int,
                             text2: Option<string>, rating2: Option<int>, later: int)
    requires IsCanonicalId(id) && id in reviews && !reviews[id].isDeleted && !(1 <= rating <= 5)
    ensures var first := EditReview(reviews, id, text, Some(rating), now);
      first.1 == Fail(400, BAD_RATING) &&
      EditReview(first.0, id, text2, rating2, later) == EditReview(reviews, id, text2, rating2, later)
  {
    ParseCanonical(id);
  }

  /** Sending an accepted edit again is accepted and changes only the time stamp. */
  lemma EditTwice(reviews: AdminReviewMap, id: Id, text: Option<string>, rating: Option<int>, now: int, later: int)
    requires IsCanonicalId(id) && id in reviews
    requires EditReview(reviews, id, text, rating, now).1.Ok?
    ensures var first := EditReview(reviews, id, text, rating, now);
      var second := EditReview(first.0, id, text, rating, later);
      second.1 == Ok(first.1.value.(updatedAt := later)) && second.0 == first.0[id := second.1.value]
  {
    ParseCanonical(id);
    var first := EditReview(reviews, id, text, rating, now);
    var q := first.1.value;
    assert first.0 == reviews[id := q] && q == PreSave(Edited(reviews[id], text, rating), now);
    assert Valid(q) && !q.isDeleted;
    EditedAgain(reviews[id], text, rating, now, later);
    assert Save(Edited(q, text, rating), later) == Some(q.(updatedAt := later));
  }

  /** Editing a saved edit with the same fields again changes nothing before the hook stamps the time. */
  lemma EditedAgain(r: AdminReview, text: Option<string>, rating: Option<int>, now: int, later: int)
    ensures var q := PreSave(Edited(r, text, rating), now);
      Edited(q, text, rating) == q && PreSave(q, later) == q.(updatedAt := later)
  {
    var e := Edited(r, text, rating);
    var q := PreSave(e, now);
    if text.Some? && Trim(text.value) != "" {
      TrimIdempotent(text.value);
      assert e.reviewText == Some(Trim(text.value)) && Truthy(e.reviewText);
      assert q.reviewText == e.reviewText;
    }
    assert Edited(q, text, rating).reviewText == q.reviewText;
    assert Edited(q, text, rating).rating == q.rating;
    PreSaveFillsPairs(e, now, later);
  }

  /** `deleteReview`: the review is marked deleted and kept. */
  function DeleteReview(reviews: AdminReviewMap, raw: string, now: int): (r: (AdminReviewMap, Result<()>))
    ensures r.1.Err? ==> r.0 == reviews
    ensures r.0.Keys == reviews.Keys
    ensures FindLiveReview(reviews, raw).Missing? ==> r.1 == Fail(404, REVIEW_NOT_FOUND)
    ensures r.1.Ok? ==> (FindLiveReview(reviews, raw).Found? && r.0[Lower(raw)].isDeleted &&
                         r.0 == reviews[Lower(raw) := PreSave(reviews[Lower(raw)].(isDeleted := true), now)])
  {
    match FindLiveReview(reviews, raw)
    case BadId => (reviews, Fail(500, DELETE_FAILED))
    case Missing => (reviews, Fail(404, REVIEW_NOT_FOUND))
    case Found(id) =>
      match Save(reviews[id].(isDeleted := true), now)
      case None => (reviews, Fail(500, DELETE_FAILED))
      case Some(q) => (reviews[id := q], Ok(()))
  }

  /** Deleting a live valid review succeeds once; deleting or editing it again answers 404. */
  lemma DeleteTwice(reviews: AdminReviewMap, raw: string, now: int, later: int, text: Option<string>, rating: Option<int>)
    requires AllValid(reviews) && FindLiveReview(reviews, raw).Found?
    ensures var first := DeleteReview(reviews, raw, now);
      first.1.Ok? &&
      DeleteReview(first.0, raw, later) == (first.0, Fail(404, REVIEW_NOT_FOUND)) &&
      EditReview(first.0, raw, text, rating, later) == (first.0, Fail(404, REVIEW_NOT_FOUND))
  {
  }

  /** The listing's filters, as query text: `productId` and `rating` filter only when not empty. */
  datatype ReviewQuery = ReviewQuery(productId: Option<string>, rating: Option<string>)

  /** The filter the query builds: reviews not deleted, of the product, with the rating `parseInt` reads. */
  function ReviewFilter(q: ReviewQuery): (r: Result<(Option<Id>, Option<int>)>)
    ensures Truthy(q.productId) && !IsObjectIdText(q.productId.value) ==> r.Err?
    ensures Truthy(q.rating) && JsParseInt(q.rating).None? ==> r.Err?
    ensures r.Ok? ==> (r.value.0.Some? <==> Truthy(q.productId)) && (r.value.1.Some? <==> Truthy(q.rating))
    ensures r.Ok? && r.value.0.Some? ==> r.value.0.value == Lower(q.productId.value)
    ensures r.Ok? && r.value.1.Some? ==> r.value.1 == JsParseInt(q.rating)
  {
    var product := if Truthy(q.productId) then ParseObjectId(q.productId.value) else None;
    var rating := if Truthy(q.rating) then JsParseInt(q.rating) else None;
    if Truthy(q.productId) && product.None? then Fail(500, FETCH_FAILED)
    else if Truthy(q.rating) && rating.None? then Fail(500, FETCH_FAILED)
    else Ok((product, rating))
  }

  predicate Listed(r: AdminReview, product: Option<Id>, rating: Option<int>)
  {
    !r.isDeleted && (product.Some? ==> r.productId == product) && (rating.Some? ==> r.rating == rating.value)
  }

  function SelectReviews(stored: seq<AdminReview>, product: Option<Id>, rating: Option<int>): (r: seq<AdminReview>)
    ensures forall x :: x in r <==> x in stored && Listed(x, product, rating)
    ensures |r| <= |stored|
  {
    if stored == [] then []
    else
      assert stored == [stored[0]] + stored[1..];
      if Listed(stored[0], product, rating) then [stored[0]] + SelectReviews(stored[1..], product, rating)
      else SelectReviews(stored[1..], product, rating)
  }

  datatype ReviewPage = ReviewPage(data: seq<AdminReview>, page: int, limit: int, total: nat, pages: Option<int>)

  /**
   * `getAllReviews`: soft-deleted reviews are never listed. Like the order
   * listing, only a negative skip `(page - 1) * limit` is refused.
   */
  function GetAllReviews(stored: seq<AdminReview>, q: ReviewQuery, page: int, limit: int): (r: Result<ReviewPage>)
    ensures ReviewFilter(q).Ok? ==> (r.Err? <==> (page < 1 && limit > 0) || (page > 1 && limit < 0))
    ensures ReviewFilter(q).Err? ==> r == Err(ReviewFilter(q).error)
    ensures ReviewFilter(q).Ok? && r.Err? ==> r == Fail(500, FETCH_FAILED)
    ensures r.Ok? ==> (ReviewFilter(q).Ok? &&
      var (product, rating) := ReviewFilter(q).value;
      r.value.total == |SelectReviews(stored, product, rating)| &&
      r.value.page == page && r.value.limit == limit &&
      r.value.pages == PageCount(r.value.total, limit) &&
      forall k :: 0 <= k < |r.value.data| ==>
        r.value.data[k] in stored && !r.value.data[k].isDeleted && Listed(r.value.data[k], product, rating))
  {
    match ReviewFilter(q)
    case Err(e) => Err(e)
    case Ok((product, rating)) =>
      var selected := SelectReviews(stored, product, rating);
      SkipNegativeIff(page, limit);
      var skip := Skip(page, limit);
      if skip < 0 then Fail(500, FETCH_FAILED)
      else Ok(ReviewPage(Window(selected, skip, limit), page, limit, |selected|, PageCount(|selected|, limit)))
  }

  /**
   * With a positive limit every listable review appears: the `i`-th one is
   * the `(i % limit)`-th entry of page `i / limit + 1`, within the page count.
   */
  lemma EveryReviewListed(stored: seq<AdminReview>, q: ReviewQuery, limit: int, i: nat)
    requires ReviewFilter(q).Ok? && limit > 0
    requires i < |SelectReviews(stored, ReviewFilter(q).value.0, ReviewFilter(q).value.1)|
    ensures var r := GetAllReviews(stored, q, i / limit + 1, limit);
      r.Ok? && i % limit < |r.value.data| &&
      r.value.data[i % limit] == SelectReviews(stored, ReviewFilter(q).value.0, ReviewFilter(q).value.1)[i] &&
      r.value.pages.Some? && i / limit + 1 <= r.value.pages.value
  {
    var selected := SelectReviews(stored, ReviewFilter(q).value.0, ReviewFilter(q).value.1);
    PageOfIndex(|selected|, limit, i);
    ReviewListedAt(stored, q, limit, i / limit + 1, i % limit);
  }

  /** On a page with a non-negative skip, the `k`-th listed review is the one at the skip plus `k`. */
  lemma ReviewListedAt(stored: seq<AdminReview>, q: ReviewQuery, limit: int, page: int, k: nat)
    requires ReviewFilter(q).Ok? && limit > 0 && k < limit
    requires Skip(page, limit) >= 0
    requires Skip(page, limit) + k < |SelectReviews(stored, ReviewFilter(q).value.0, ReviewFilter(q).value.1)|
    ensures var r := GetAllReviews(stored, q, page, limit);
      r.Ok? && k < |r.value.data| &&
      r.value.data[k] == SelectReviews(stored, ReviewFilter(q).value.0, ReviewFilter(q).value.1)[Skip(page, limit) + k] &&
      r.value.pages == Some(CeilPages(|SelectReviews(stored, ReviewFilter(q).value.0, ReviewFilter(q).value.1)|, limit))
  {
    var (product, rating) := ReviewFilter(q).value;
    var selected := SelectReviews(stored, product, rating);
    var skip := Skip(page, limit);
    assert GetAllReviews(stored, q, page, limit) ==
      Ok(ReviewPage(Window(selected, skip, limit), page, limit, |selected|, PageCount(|selected|, limit)));
  }

  /** `getProductReviews`: the product must be live; its reviews not deleted, newest first. */
  function GetProductReviews(products: AdminCatalog.AdminProducts, stored: seq<AdminReview>, raw: string): (r: Result<seq<AdminReview>>)
    ensures !IsObjectIdText(raw) ==> r == Fail(500, PRODUCT_FETCH_FAILED)
    ensures AdminCatalog.FindLive(products, raw).Missing? ==> r == Fail(404, PRODUCT_NOT_FOUND)
    ensures r.Ok? <==> AdminCatalog.FindLive(products, raw).Found?
    ensures r.Ok? ==> multiset(r.value) == multiset(SelectReviews(stored, Some(Lower(raw)), None))
  {
    match AdminCatalog.FindLive(products, raw)
    case BadId => Fail(500, PRODUCT_FETCH_FAILED)
    case Missing => Fail(404, PRODUCT_NOT_FOUND)
    case Found(id) => Ok(SortNewest(SelectReviews(stored, Some(id), None)))
  }

  /** A product's reviews are exactly its reviews not deleted, each as often as stored, newest first. */
  lemma ProductReviewsNewestFirst(products: AdminCatalog.AdminProducts, stored: seq<AdminReview>, raw: string)
    requires AdminCatalog.FindLive(products, raw).Found?
    ensures var r := GetProductReviews(products, stored, raw);
      r.Ok? && NewestFirst(r.value) &&
      forall x :: x in r.value <==> x in stored && !x.isDeleted && x.productId == Some(Lower(raw))
  {
    var selected := SelectReviews(stored, Some(Lower(raw)), None);
    SortNewestSorted(selected);
    var r := GetProductReviews(products, stored, raw);
    forall x ensures x in r.value <==> x in selected {
      assert x in r.value <==> multiset(r.value)[x] > 0;
      assert x in selected <==> multiset(selected)[x] > 0;
    }
  }
}
