/**
 * The Python review endpoints: a product's approved reviews a page at a
 * time, newest first; one review per user and product, approved at once
 * and marked as a verified purchase when the user has a paid, shipped or
 * delivered order containing the product; owners edit and delete their
 * own reviews.
 */
module ReviewControllerPy {

  import opened Base
  import opened Text
  import opened Ids
  import opened Catalog
  import opened Shop
  import opened Paging

  const INVALID_PRODUCT: string := "Invalid product ID"
  const PRODUCT_NOT_FOUND: string := "Product not found"
  const NOT_AVAILABLE: string := "Product not available"
  const ALREADY_REVIEWED: string := "You have already reviewed this product"
  const INVALID_REVIEW: string := "Invalid review ID"
  const REVIEW_NOT_FOUND: string := "Review not found"
  const NOT_YOURS_EDIT: string := "You can only edit your own reviews"
  const NOT_YOURS_DELETE: string := "You can only delete your own reviews"
  /** The `Review` model's field constraints failing: a pydantic `ValidationError`, answered with 500. */
  const REVIEW_INVALID: string := "validation error for Review"
  /** pymongo refusing a negative `skip`. */
  const NEGATIVE_SKIP: string := "skip must be >= 0"
  /** Python's `//` by a zero `limit`. */
  const DIVISION_BY_ZERO: string := "integer division or modulo by zero"

  const TITLE_MAX: nat := 100
  const COMMENT_MAX: nat := 1000

  datatype Review = Review(
    id: Id,
    user: Id,
    product: Id,
    rating: int,
    title: Option<string>,
    comment: Option<string>,
    isVerifiedPurchase: bool,
    isApproved: bool,
    helpfulCount: int,
    createdAt: int,
    updatedAt: int)

  /** The statuses that make an order count as a purchase. */
  predicate Purchased(s: OrderStatus)
  {
    s == Paid || s == Shipped || s == Delivered
  }

  /** `OrderItem.find(order, product)` finds something. */
  predicate HasItem(items: seq<OrderItem>, order: Id, product: Id)
  {
    exists i :: 0 <= i < |items| && items[i].order == order && items[i].product == product
  }

  /** `_check_verified_purchase`: some paid, shipped or delivered order of the user has a line for the product. */
  predicate VerifiedPurchase(db: Db, user: Id, product: Id)
  {
    exists o :: o in db.orders && db.orders[o].user == user && Purchased(db.orders[o].status) && HasItem(db.orderItems, o, product)
  }

  // ---------------------------------------------------------------- listing

  /** A product's approved reviews, in stored order. */
  function Approved(reviews: seq<Review>, product: Id): (r: seq<Review>)
    ensures forall i :: 0 <= i < |r| ==> r[i].product == product && r[i].isApproved && r[i] in reviews
    ensures forall x :: x in reviews && x.product == product && x.isApproved ==> x in r
    ensures |r| <= |reviews|
  {
    if reviews == [] then []
    else
      var rest := Approved(reviews[1..], product);
      if reviews[0].product == product && reviews[0].isApproved then [reviews[0]] + rest else rest
  }

  predicate NewestFirst(s: seq<Review>)
  {
    forall i, j :: 0 <= i < j < |s| ==> s[i].createdAt >= s[j].createdAt
  }

  /** Puts `x` in front of the first review no newer than it. */
  function InsertNewest(x: Review, s: seq<Review>): (r: seq<Review>)
    requires NewestFirst(s)
    ensures NewestFirst(r) && |r| == |s| + 1
    ensures forall i :: 0 <= i < |r| ==> r[i] == x || r[i] in s
  {
    if s == [] || s[0].createdAt <= x.createdAt then [x] + s
    else
      var rest := InsertNewest(x, s[1..]);
      InsertedBelow(s[0], x, s[1..], rest);
      [s[0]] + rest
  }

  /** A review at least as new as everything in a sorted list can go in front of it. */
  lemma InsertedBelow(head: Review, x: Review, tail: seq<Review>, rest: seq<Review>)
    requires NewestFirst([head] + tail) && NewestFirst(rest) && x.createdAt < head.createdAt
    requires forall i :: 0 <= i < |rest| ==> rest[i] == x || rest[i] in tail
    ensures NewestFirst([head] + rest)
  {
    forall j | 0 <= j < |rest|
      ensures rest[j].createdAt <= head.createdAt
    {
      if rest[j] != x {
        var k :| 0 <= k < |tail| && tail[k] == rest[j];
        assert ([head] + tail)[0] == head && ([head] + tail)[k + 1] == tail[k];
      }
    }
    var r := [head] + rest;
    forall i, j | 0 <= i < j < |r|
      ensures r[i].createdAt >= r[j].createdAt
    {
      if i > 0 {
        assert r[i] == rest[i - 1] && r[j] == rest[j - 1];
      } else {
        assert r[j] == rest[j - 1];
      }
    }
  }

  /** `.sort(-Review.createdAt)`; reviews with the same timestamp keep their stored order. */
  function SortNewest(s: seq<Review>): (r: seq<Review>)
    ensures NewestFirst(r) && |r| == |s|
    ensures forall i :: 0 <= i < |r| ==> r[i] in s
  {
    if s == [] then []
    else
      var rest := SortNewest(s[1..]);
      var r := InsertNewest(s[0], rest);
      assert forall i :: 0 <= i < |r| ==> r[i] == s[0] || r[i] in rest;
      r
  }

  /** Sorting only reorders: every review keeps its multiplicity. */
  lemma {:induction false} SortNewestPermutes(s: seq<Review>)
    ensures multiset(SortNewest(s)) == multiset(s)
  {
    if s != [] {
      var rest := SortNewest(s[1..]);
      SortNewestPermutes(s[1..]);
      InsertNewestAdds(s[0], rest);
      assert SortNewest(s) == InsertNewest(s[0], rest);
      assert s == [s[0]] + s[1..];
      assert multiset(s) == multiset(s[1..]) + multiset{s[0]};
    }
  }

  lemma {:induction false} InsertNewestAdds(x: Review, s: seq<Review>)
    requires NewestFirst(s)
    ensures multiset(InsertNewest(x, s)) == multiset(s) + multiset{x}
  {
    if !(s == [] || s[0].createdAt <= x.createdAt) {
      var rest := InsertNewest(x, s[1..]);
      InsertNewestAdds(x, s[1..]);
      assert InsertNewest(x, s) == [s[0]] + rest;
      assert s == [s[0]] + s[1..];
    }
  }

  datatype Listing = Listing(reviews: seq<Review>, page: int, limit: int, total: nat, pages: int, totalReviews: nat)

  /** One page of a product's approved reviews, with the counts the answer carries. */
  function PageOf(all: seq<Review>, page: int, limit: int): Listing
    requires limit != 0 && Skip(page, limit) >= 0
  {
    Listing(Window(SortNewest(all), Skip(page, limit), limit), page, limit, |all|, CeilPages(|all|, limit), |all|)
  }

  /**
   * `listReviews`. The product need only exist, active or not. A negative
   * skip `(page - 1) * limit` is refused by pymongo, and a zero
   * limit makes the page count divide by zero; both reach the client as
   * 500s.
   */
  function ListReviews(products: Products, reviews: seq<Review>, productId: string, page: int, limit: int): (r: Result<Listing>)
    ensures ParseObjectId(productId).None? ==> r == Fail(400, INVALID_PRODUCT)
    ensures ParseObjectId(productId).Some? && Lower(productId) !in products ==> r == Fail(404, PRODUCT_NOT_FOUND)
    ensures ParseObjectId(productId).Some? && Lower(productId) in products ==>
      (Skip(page, limit) < 0 ==> r == Err(Crash(NEGATIVE_SKIP))) &&
      (Skip(page, limit) >= 0 && limit == 0 ==> r == Err(Crash(DIVISION_BY_ZERO)))
    ensures r.Ok? <==> ParseObjectId(productId).Some? && Lower(productId) in products && Skip(page, limit) >= 0 && limit != 0
    ensures r.Ok? ==> r.value == PageOf(Approved(reviews, Lower(productId)), page, limit)
  {
    match ParseObjectId(productId)
    case None => Fail(400, INVALID_PRODUCT)
    case Some(id) =>
      if id !in products then Fail(404, PRODUCT_NOT_FOUND)
      else if Skip(page, limit) < 0 then Err(Crash(NEGATIVE_SKIP))
      else if limit == 0 then Err(Crash(DIVISION_BY_ZERO))
      else Ok(PageOf(Approved(reviews, id), page, limit))
  }

  /** Only approved reviews of the product are listed, and the totals count exactly those. */
  lemma ListingCountsApproved(products: Products, reviews: seq<Review>, productId: string, page: int, limit: int, k: nat)
    requires ListReviews(products, reviews, productId, page, limit).Ok?
    requires k < |ListReviews(products, reviews, productId, page, limit).value.reviews|
    ensures var l := ListReviews(products, reviews, productId, page, limit).value;
      l.reviews[k].isApproved && l.reviews[k].product == Lower(productId) && l.reviews[k] in reviews &&
      l.total == l.totalReviews == |Approved(reviews, Lower(productId))|
  {
    var all := Approved(reviews, Lower(productId));
    var sorted := SortNewest(all);
    var w := Window(sorted, Skip(page, limit), limit);
    assert w[k] in sorted;
  }

  /**
   * Paging covers every approved review exactly where one would look for
   * it: with a positive limit, the `i`-th newest approved review is entry
   * `i % limit` of page `i / limit + 1`, and that page is no later than the
   * last.
   */
  lemma EveryReviewOnItsPage(products: Products, reviews: seq<Review>, productId: string, limit: int, i: nat)
    requires ParseObjectId(productId).Some? && Lower(productId) in products && limit > 0
    requires i < |Approved(reviews, Lower(productId))|
    ensures var r := ListReviews(products, reviews, productId, i / limit + 1, limit);
      r.Ok? && i / limit + 1 <= r.value.pages && i % limit < |r.value.reviews| &&
      r.value.reviews[i % limit] == SortNewest(Approved(reviews, Lower(productId)))[i]
  {
    var all := Approved(reviews, Lower(productId));
    var page := i / limit + 1;
    PageOfIndex(|all|, limit, i);
    ListedAt(products, reviews, productId, page, limit, i % limit, i);
  }

  /** Entry `k` of a page is the review `Skip(page, limit) + k` places from the newest. */
  lemma ListedAt(products: Products, reviews: seq<Review>, productId: string, page: int, limit: int, k: nat, i: nat)
    requires ParseObjectId(productId).Some? && Lower(productId) in products && limit > 0
    requires Skip(page, limit) >= 0 && k < limit && Skip(page, limit) + k == i && i < |Approved(reviews, Lower(productId))|
    ensures var r := ListReviews(products, reviews, productId, page, limit);
      r.Ok? && r.value.pages == CeilPages(|Approved(reviews, Lower(productId))|, limit) && k < |r.value.reviews| &&
      r.value.reviews[k] == SortNewest(Approved(reviews, Lower(productId)))[i]
  {
    var all := Approved(reviews, Lower(productId));
    var r := ListReviews(products, reviews, productId, page, limit);
    assert r.Ok? && r.value == PageOf(all, page, limit);
    PageEntry(all, page, limit, k);
  }

  lemma PageEntry(all: seq<Review>, page: int, limit: int, k: nat)
    requires limit > 0 && Skip(page, limit) >= 0 && k < limit && Skip(page, limit) + k < |all|
    ensures var l := PageOf(all, page, limit);
      k < |l.reviews| && l.reviews[k] == SortNewest(all)[Skip(page, limit) + k] && l.pages == CeilPages(|all|, limit)
  {
    WindowAt(SortNewest(all), Skip(page, limit), limit, k);
  }

  // ------------------------------------------------------- create / update / delete

  /** Index of the first review of a user for a product (`find_one(user, product)`). */
  function FindReview(reviews: seq<Review>, user: Id, product: Id): (r: Option<nat>)
    ensures r.Some? ==> r.value < |reviews| && reviews[r.value].user == user && reviews[r.value].product == product
    ensures r.None? ==> forall j :: 0 <= j < |reviews| ==> !(reviews[j].user == user && reviews[j].product == product)
  {
    if reviews == [] then None
    else if reviews[0].user == user && reviews[0].product == product then Some(0)
    else
      match FindReview(reviews[1..], user, product)
      case None => None
      case Some(i) => Some(i + 1)
  }

  /** Index of the review with an id (`Review.get`). */
  function FindById(reviews: seq<Review>, id: Id): (r: Option<nat>)
    ensures r.Some? ==> r.value < |reviews| && reviews[r.value].id == id
    ensures r.None? ==> forall j :: 0 <= j < |reviews| ==> reviews[j].id != id
  {
    if reviews == [] then None
    else if reviews[0].id == id then Some(0)
    else
      match FindById(reviews[1..], id)
      case None => None
      case Some(i) => Some(i + 1)
  }

  /** The `Review` field constraints: rating 1 to 5, a title of at most 100 and a comment of at most 1000 characters. */
  predicate FieldsValid(rating: int, title: Option<string>, comment: Option<string>)
  {
    1 <= rating <= 5 && (title.Some? ==> |title.value| <= TITLE_MAX) && (comment.Some? ==> |comment.value| <= COMMENT_MAX)
  }

  /**
   * `createReview`: the product must be available, the user must not have
   * reviewed it yet; the review is approved at once, starts with no
   * helpful votes and records whether the user bought the product.
   */
  function CreateReview(db: Db, reviews: seq<Review>, user: Id, productId: string, rating: int,
                        title: Option<string>, comment: Option<string>, freshId: Id, now: int): (r: (seq<Review>, Result<Review>))
    ensures ParseObjectId(productId).None? ==> r == (reviews, Fail(400, INVALID_PRODUCT))
    ensures ParseObjectId(productId).Some? && !AvailablePy(db.products, Lower(productId)) ==> r == (reviews, Fail(404, NOT_AVAILABLE))
    ensures (ParseObjectId(productId).Some? && AvailablePy(db.products, Lower(productId)) &&
             FindReview(reviews, user, Lower(productId)).Some?) ==> r == (reviews, Fail(409, ALREADY_REVIEWED))
    ensures r.1.Ok? <==> ParseObjectId(productId).Some? && AvailablePy(db.products, Lower(productId)) &&
                         FindReview(reviews, user, Lower(productId)).None? && FieldsValid(rating, title, comment)
    ensures r.1.Err? ==> r.0 == reviews
    ensures r.1.Ok? ==>
      r.0 == reviews + [r.1.value] &&
      r.1.value == Review(freshId, user, Lower(productId), rating, title, comment,
                          VerifiedPurchase(db, user, Lower(productId)), true, 0, now, now)
  {
    match ParseObjectId(productId)
    case None => (reviews, Fail(400, INVALID_PRODUCT))
    case Some(id) =>
      if !AvailablePy(db.products, id) then (reviews, Fail(404, NOT_AVAILABLE))
      else if FindReview(reviews, user, id).Some? then (reviews, Fail(409, ALREADY_REVIEWED))
      else if !FieldsValid(rating, title, comment) then (reviews, Err(Crash(REVIEW_INVALID)))
      else
        var review := Review(freshId, user, id, rating, title, comment, VerifiedPurchase(db, user, id), true, 0, now, now);
        (reviews + [review], Ok(review))
  }

  /** The checks `updateReview` and `deleteReview` share: the id parses, names a review, and the review is the user's. */
  function OwnReview(reviews: seq<Review>, user: Id, reviewId: string, notYours: string): (r: Result<nat>)
    ensures ParseObjectId(reviewId).None? ==> r == Fail(400, INVALID_REVIEW)
    ensures ParseObjectId(reviewId).Some? && FindById(reviews, Lower(reviewId)).None? ==> r == Fail(404, REVIEW_NOT_FOUND)
    ensures ParseObjectId(reviewId).Some? && FindById(reviews, Lower(reviewId)).Some? ==>
      var i := FindById(reviews, Lower(reviewId)).value;
      (reviews[i].user != user ==> r == Fail(403, notYours)) && (reviews[i].user == user ==> r == Ok(i))
  {
    match ParseObjectId(reviewId)
    case None => Fail(400, INVALID_REVIEW)
    case Some(id) =>
      match FindById(reviews, id)
      case None => Fail(404, REVIEW_NOT_FOUND)
      case Some(i) => if reviews[i].user != user then Fail(403, notYours) else Ok(i)
  }

  /** `updateReview`: the given fields replace the stored ones, the others stay, and the save stamps `updatedAt`. */
  function UpdateReview(reviews: seq<Review>, user: Id, reviewId: string, rating: Option<int>,
                        title: Option<string>, comment: Option<string>, now: int): (r: (seq<Review>, Result<Review>))
    ensures OwnReview(reviews, user, reviewId, NOT_YOURS_EDIT).Err? ==>
      r == (reviews, Err(OwnReview(reviews, user, reviewId, NOT_YOURS_EDIT).error))
    ensures OwnReview(reviews, user, reviewId, NOT_YOURS_EDIT).Ok? ==>
      var i := OwnReview(reviews, user, reviewId, NOT_YOURS_EDIT).value;
      var old_ := reviews[i];
      r.1.Ok? && r.0 == reviews[i := r.1.value] &&
      r.1.value.rating == rating.GetOr(old_.rating) && r.1.value.title == (if title.Some? then title else old_.title) &&
      r.1.value.comment == (if comment.Some? then comment else old_.comment) && r.1.value.updatedAt == now &&
      r.1.value.(rating := old_.rating, title := old_.title, comment := old_.comment, updatedAt := old_.updatedAt) == old_
  {
    match OwnReview(reviews, user, reviewId, NOT_YOURS_EDIT)
    case Err(e) => (reviews, Err(e))
    case Ok(i) =>
      var x := reviews[i];
      var y := x.(rating := rating.GetOr(x.rating),
                  title := if title.Some? then title else x.title,
                  comment := if comment.Some? then comment else x.comment,
                  updatedAt := now);
      (reviews[i := y], Ok(y))
  }

  /** `deleteReview`: the owner's review is removed; everyone else's request changes nothing. */
  function DeleteReview(reviews: seq<Review>, user: Id, reviewId: string): (r: (seq<Review>, Result<()>))
    ensures OwnReview(reviews, user, reviewId, NOT_YOURS_DELETE).Err? ==>
      r == (reviews, Err(OwnReview(reviews, user, reviewId, NOT_YOURS_DELETE).error))
    ensures OwnReview(reviews, user, reviewId, NOT_YOURS_DELETE).Ok? ==>
      var i := OwnReview(reviews, user, reviewId, NOT_YOURS_DELETE).value;
      r.1 == Ok(()) && r.0 == reviews[..i] + reviews[i + 1..]
  {
    match OwnReview(reviews, user, reviewId, NOT_YOURS_DELETE)
    case Err(e) => (reviews, Err(e))
    case Ok(i) => (reviews[..i] + reviews[i + 1..], Ok(()))
  }

  /** Reviewing the same product twice is refused with 409, whatever the second review says. */
  lemma SecondReviewConflicts(db: Db, reviews: seq<Review>, user: Id, productId: string, rating: int, title: Option<string>,
                              comment: Option<string>, freshId: Id, now: int,
                              rating2: int, title2: Option<string>, comment2: Option<string>, freshId2: Id, later: int)
    requires CreateReview(db, reviews, user, productId, rating, title, comment, freshId, now).1.Ok?
    ensures var once := CreateReview(db, reviews, user, productId, rating, title, comment, freshId, now).0;
      CreateReview(db, once, user, productId, rating2, title2, comment2, freshId2, later) == (once, Fail(409, ALREADY_REVIEWED))
  {
    var once := CreateReview(db, reviews, user, productId, rating, title, comment, freshId, now).0;
    var x := once[|reviews|];
    assert x.user == user && x.product == Lower(productId);
    assert FindReview(once, user, Lower(productId)).Some?;
  }

  /**
   * A created review shows up in the product's listing and counts: the
   * approved total grows by exactly one.
   */
  lemma CreatedReviewCounted(db: Db, reviews: seq<Review>, user: Id, productId: string, rating: int, title: Option<string>,
                             comment: Option<string>, freshId: Id, now: int)
    requires CreateReview(db, reviews, user, productId, rating, title, comment, freshId, now).1.Ok?
    ensures var (once, created) := CreateReview(db, reviews, user, productId, rating, title, comment, freshId, now);
      var r := ListReviews(db.products, once, productId, 1, 1 + |reviews|);
      r.Ok? && r.value.total == |Approved(reviews, Lower(productId))| + 1 && created.value in r.value.reviews
  {
    var (once, created) := CreateReview(db, reviews, user, productId, rating, title, comment, freshId, now);
    var id := Lower(productId);
    TimesIsProduct(0, 1 + |reviews|);
    ApprovedAppend(reviews, created.value, id);
    var all := Approved(once, id);
    var sorted := SortNewest(all);
    SortNewestPermutes(all);
    assert created.value in multiset(all);
    assert created.value in multiset(sorted);
    assert |sorted| <= |reviews| + 1;
    assert Window(sorted, 0, 1 + |reviews|) == sorted;
  }

  lemma {:induction false} ApprovedAppend(reviews: seq<Review>, x: Review, product: Id)
    requires x.product == product && x.isApproved
    ensures Approved(reviews + [x], product) == Approved(reviews, product) + [x]
  {
    if reviews == [] {
      assert reviews + [x] == [x];
    } else {
      assert (reviews + [x])[1..] == reviews[1..] + [x];
      ApprovedAppend(reviews[1..], x, product);
    }
  }

  /** A review the user does not own is neither edited nor deleted: 403 and nothing written. */
  lemma OthersCannotTouch(reviews: seq<Review>, user: Id, reviewId: string, now: int)
    requires ParseObjectId(reviewId).Some? && FindById(reviews, Lower(reviewId)).Some?
    requires reviews[FindById(reviews, Lower(reviewId)).value].user != user
    ensures UpdateReview(reviews, user, reviewId, Some(5), None, None, now) == (reviews, Fail(403, NOT_YOURS_EDIT))
    ensures DeleteReview(reviews, user, reviewId) == (reviews, Fail(403, NOT_YOURS_DELETE))
  {
  }

  /** Once deleted, a review is gone: with ids unique, deleting it again answers 404. */
  lemma DeleteTwiceNotFound(reviews: seq<Review>, user: Id, reviewId: string)
    requires forall i, j :: 0 <= i < j < |reviews| ==> reviews[i].id != reviews[j].id
    requires DeleteReview(reviews, user, reviewId).1.Ok?
    ensures var once := DeleteReview(reviews, user, reviewId).0;
      DeleteReview(once, user, reviewId) == (once, Fail(404, REVIEW_NOT_FOUND))
  {
    var i := FindById(reviews, Lower(reviewId)).value;
    var once := DeleteReview(reviews, user, reviewId).0;
    forall j | 0 <= j < |once|
      ensures once[j].id != Lower(reviewId)
    {
      if j < i { assert once[j] == reviews[j]; } else { assert once[j] == reviews[j + 1]; }
    }
  }

  /** An order still waiting for payment does not make a purchase verified; paying it does, when it has a line for the product. */
  lemma PaidOrderVerifies(db: Db, user: Id, product: Id, o: Id)
    requires o in db.orders && db.orders[o].user == user && HasItem(db.orderItems, o, product)
    ensures VerifiedPurchase(db.(orders := db.orders[o := db.orders[o].(status := Paid)]), user, product)
  {
    var db2 := db.(orders := db.orders[o := db.orders[o].(status := Paid)]);
    assert o in db2.orders && db2.orders[o].user == user && Purchased(db2.orders[o].status);
  }
}
