/**
 * The admin backend's review documents. Two generations of field names
 * live side by side (`userId`/`user`, `productId`/`product`,
 * `reviewText`/`comment`), and the pre-save hook fills whichever of a
 * pair is missing from the other. Validation runs before the hook, so
 * the required `userId` and `productId` must already be there.
 */
module AdminReviews {

  import opened Base
  import opened Text
  import opened Ids

  const TITLE_MAX: nat := 100
  const TEXT_MAX: nat := 1000

  datatype AdminReview = AdminReview(
    userId: Option<Id>,
    user: Option<Id>,
    productId: Option<Id>,
    product: Option<Id>,
    rating: int,
    title: Option<string>,
    reviewText: Option<string>,
    comment: Option<string>,
    isVerifiedPurchase: bool,
    isApproved: bool,
    isDeleted: bool,
    helpfulCount: int,
    createdAt: int,
    updatedAt: int)

  type AdminReviewMap = map<Id, AdminReview>

  predicate WithinLength(text: Option<string>, max: nat)
  {
    text.None? || |text.value| <= max
  }

  /** The schema's validators: the required ids, a rating from 1 to 5, no negative helpful count, the text lengths. */
  predicate Valid(r: AdminReview)
  {
    r.userId.Some? && r.productId.Some? && 1 <= r.rating <= 5 && r.helpfulCount >= 0 &&
    WithinLength(r.title, TITLE_MAX) && WithinLength(r.reviewText, TEXT_MAX) && WithinLength(r.comment, TEXT_MAX)
  }

  /**
   * The pre-save hook. Each pair is synchronised only when one side is
   * missing (for the texts: empty or missing); when both are set neither
   * changes. The update stamp is refreshed.
   */
  function PreSave(r: AdminReview, now: int): (q: AdminReview)
    ensures q.userId == (if r.userId.Some? then r.userId else r.user)
    ensures q.user == (if r.user.Some? then r.user else r.userId)
    ensures q.productId == (if r.productId.Some? then r.productId else r.product)
    ensures q.product == (if r.product.Some? then r.product else r.productId)
    ensures q.comment == (if Truthy(r.reviewText) && !Truthy(r.comment) then r.reviewText else r.comment)
    ensures q.reviewText == (if Truthy(r.comment) && !Truthy(r.reviewText) then r.comment else r.reviewText)
    ensures q.updatedAt == now
    ensures q.(userId := r.userId, user := r.user, productId := r.productId, product := r.product,
               reviewText := r.reviewText, comment := r.comment, updatedAt := r.updatedAt) == r
  {
    var userId := if r.userId.Some? then r.userId else r.user;
    var user := if r.user.Some? then r.user else r.userId;
    var productId := if r.productId.Some? then r.productId else r.product;
    var product := if r.product.Some? then r.product else r.productId;
    var comment := if Truthy(r.reviewText) && !Truthy(r.comment) then r.reviewText else r.comment;
    var text := if Truthy(r.comment) && !Truthy(r.reviewText) then r.comment else r.reviewText;
    r.(userId := userId, user := user, productId := productId, product := product,
       reviewText := text, comment := comment, updatedAt := now)
  }

  /**
   * After the hook every pair with a side set has both sides set, a
   * single side is copied across, and a second run changes nothing but
   * the stamp.
   */
  lemma PreSaveFillsPairs(r: AdminReview, now: int, later: int)
    ensures var q := PreSave(r, now);
      (r.userId.Some? || r.user.Some? ==> q.userId.Some? && q.user.Some?) &&
      (r.productId.Some? || r.product.Some? ==> q.productId.Some? && q.product.Some?) &&
      (Truthy(r.reviewText) || Truthy(r.comment) ==> Truthy(q.reviewText) && Truthy(q.comment)) &&
      (r.user.None? ==> q.user == q.userId) && (r.product.None? ==> q.product == q.productId) &&
      (!Truthy(r.comment) ==> q.comment == q.reviewText || !Truthy(q.reviewText)) &&
      PreSave(q, later) == q.(updatedAt := later)
  {
  }

  /** `review.save()`: validation, then the hook. */
  function Save(r: AdminReview, now: int): (q: Option<AdminReview>)
    ensures q.Some? <==> Valid(r)
    ensures q.Some? ==> Valid(q.value) && q.value == PreSave(r, now)
  {
    if Valid(r) then Some(PreSave(r, now)) else None
  }

  /**
   * The hook's second branch for the ids never runs on a save: a review
   * with `user` but no `userId` fails validation first.
   */
  lemma UserOnlyIsRejected(r: AdminReview, now: int)
    requires r.userId.None? && r.user.Some?
    ensures Save(r, now).None?
  {
  }

  /** Newest first by creation time. */
  predicate NewestFirst(s: seq<AdminReview>)
  {
    forall i :: 0 < i < |s| ==> s[i - 1].createdAt >= s[i].createdAt
  }

  /** `x` placed before the first review no newer than it. */
  function InsertNewest(x: AdminReview, s: seq<AdminReview>): (r: seq<AdminReview>)
    ensures multiset(r) == multiset(s) + multiset{x}
    ensures |r| == |s| + 1 && (r[0] == x || (s != [] && r[0] == s[0]))
  {
    if s == [] || s[0].createdAt <= x.createdAt then [x] + s
    else
      assert s == [s[0]] + s[1..];
      [s[0]] + InsertNewest(x, s[1..])
  }

  lemma {:induction false} InsertNewestSorted(x: AdminReview, s: seq<AdminReview>)
    requires NewestFirst(s)
    ensures NewestFirst(InsertNewest(x, s))
  {
    if !(s == [] || s[0].createdAt <= x.createdAt) {
      var tail := s[1..];
      assert NewestFirst(tail) by {
        forall i | 0 < i < |tail| ensures tail[i - 1].createdAt >= tail[i].createdAt {
          assert tail[i - 1] == s[i] && tail[i] == s[i + 1];
        }
      }
      InsertNewestSorted(x, tail);
    }
  }

  /** `.sort({ createdAt: -1 })`, by insertion. */
  function SortNewest(s: seq<AdminReview>): (r: seq<AdminReview>)
    ensures multiset(r) == multiset(s) && |r| == |s|
  {
    if s == [] then []
    else
      assert s == [s[0]] + s[1..];
      InsertNewest(s[0], SortNewest(s[1..]))
  }

  lemma {:induction false} SortNewestSorted(s: seq<AdminReview>)
    ensures NewestFirst(SortNewest(s))
  {
    if s != [] {
      SortNewestSorted(s[1..]);
      InsertNewestSorted(s[0], SortNewest(s[1..]));
    }
  }
}
