/**
 * The Python backend's role checks. A caller is the signed-in user's id
 * and role, or nobody. The guards raise 401 for nobody and 403 for the
 * wrong role; the predicates answer yes or no; the two filters force the
 * visibility flags onto a query.
 */
module RbacPy {

  import opened Base
  import opened Ids
  import opened Users

  const AUTH_REQUIRED: string := "Authentication required"
  const ADMIN_REQUIRED: string := "Admin access required"
  const NO_PERMISSION: string := "You don't have permission to access this resource"

  datatype Caller = Caller(id: Id, role: Role)

  /** `check_admin_role`. */
  function CheckAdmin(user: Option<Caller>): (r: Result<()>)
    ensures user.None? ==> r == Fail(401, AUTH_REQUIRED)
    ensures user.Some? && user.value.role != Admin ==> r == Fail(403, ADMIN_REQUIRED)
    ensures r.Ok? <==> user.Some? && user.value.role == Admin
  {
    if user.None? then Fail(401, AUTH_REQUIRED)
    else if user.value.role != Admin then Fail(403, ADMIN_REQUIRED)
    else Ok(())
  }

  /** `check_customer_or_admin`: anyone signed in. */
  function CheckSignedIn(user: Option<Caller>): (r: Result<()>)
    ensures r.Ok? <==> user.Some?
    ensures r.Err? ==> r == Fail(401, AUTH_REQUIRED)
  {
    if user.None? then Fail(401, AUTH_REQUIRED) else Ok(())
  }

  /** `check_resource_owner_or_admin`: ids are compared as text. */
  function CheckOwnerOrAdmin(user: Option<Caller>, resourceUserId: string): (r: Result<()>)
    ensures user.None? ==> r == Fail(401, AUTH_REQUIRED)
    ensures user.Some? ==> (r.Ok? <==> user.value.role == Admin || user.value.id == resourceUserId)
    ensures user.Some? && r.Err? ==> r == Fail(403, NO_PERMISSION)
  {
    if user.None? then Fail(401, AUTH_REQUIRED)
    else if user.value.role != Admin && user.value.id != resourceUserId then Fail(403, NO_PERMISSION)
    else Ok(())
  }

  /** "Signed in as an admin": the product, category, order-status, moderation and view-all predicates. */
  predicate IsAdmin(user: Option<Caller>)
  {
    user.Some? && user.value.role == Admin
  }

  predicate CanModifyProduct(user: Option<Caller>) { IsAdmin(user) }
  predicate CanModifyCategory(user: Option<Caller>) { IsAdmin(user) }
  predicate CanUpdateOrderStatus(user: Option<Caller>) { IsAdmin(user) }
  predicate CanModerateReview(user: Option<Caller>) { IsAdmin(user) }
  predicate CanViewAllOrders(user: Option<Caller>) { IsAdmin(user) }

  /** `can_view_order`: admins see every order, customers their own. */
  predicate CanViewOrder(user: Option<Caller>, orderUserId: string)
  {
    user.Some? && (user.value.role == Admin || user.value.id == orderUserId)
  }

  /** `can_create_review`: customers only. */
  predicate CanCreateReview(user: Option<Caller>)
  {
    user.Some? && user.value.role == Customer
  }

  /** `can_edit_review`: admins only; the author has no say once the review exists. */
  predicate CanEditReview(user: Option<Caller>, reviewUserId: string)
  {
    user.Some? && user.value.role == Admin
  }

  /** The guards and the predicates agree: the admin guard passes exactly for the admin predicate, the owner guard exactly for `can_view_order`. */
  lemma GuardsMatchPredicates(user: Option<Caller>, ownerId: string)
    ensures CheckAdmin(user).Ok? <==> CanModifyProduct(user)
    ensures CheckOwnerOrAdmin(user, ownerId).Ok? <==> CanViewOrder(user, ownerId)
  {
  }

  /**
   * Review rights split by role: nobody may both create and edit reviews,
   * an author may not edit their own review, and every signed-in caller
   * has exactly one of the two rights.
   */
  lemma ReviewRightsPartition(user: Option<Caller>, authorId: string)
    ensures !(CanCreateReview(user) && CanEditReview(user, authorId))
    ensures user.Some? && user.value.id == authorId && user.value.role == Customer ==> !CanEditReview(user, authorId)
    ensures user.Some? ==> (CanCreateReview(user) || CanEditReview(user, authorId))
  {
  }

  /** A stored query value. */
  datatype Value = Flag(b: bool) | Text(s: string)

  type Filter = map<string, Value>

  /** `filter_active_products`: the caller's filter with `isActive: true` and `isDeleted: false` forced. */
  function FilterActiveProducts(query: Filter): (r: Filter)
    ensures r.Keys == query.Keys + {"isActive", "isDeleted"}
    ensures r["isActive"] == Flag(true) && r["isDeleted"] == Flag(false)
    ensures forall k :: k in query && k != "isActive" && k != "isDeleted" ==> r[k] == query[k]
  {
    query["isActive" := Flag(true)]["isDeleted" := Flag(false)]
  }

  /** `filter_approved_reviews`: the caller's filter with `isApproved: true` and `isDeleted: false` forced. */
  function FilterApprovedReviews(query: Filter): (r: Filter)
    ensures r.Keys == query.Keys + {"isApproved", "isDeleted"}
    ensures r["isApproved"] == Flag(true) && r["isDeleted"] == Flag(false)
    ensures forall k :: k in query && k != "isApproved" && k != "isDeleted" ==> r[k] == query[k]
  {
    query["isApproved" := Flag(true)]["isDeleted" := Flag(false)]
  }

  /**
   * A caller cannot widen the product filter: whatever flags the query
   * carried, the result is the one for the query without them, and
   * filtering twice is filtering once.
   */
  lemma ActiveFilterOverrides(query: Filter, a: Value, d: Value)
    ensures FilterActiveProducts(query["isActive" := a]["isDeleted" := d]) == FilterActiveProducts(query)
    ensures FilterActiveProducts(FilterActiveProducts(query)) == FilterActiveProducts(query)
  {
  }

  /** The same for the review filter. */
  lemma ApprovedFilterOverrides(query: Filter, a: Value, d: Value)
    ensures FilterApprovedReviews(query["isApproved" := a]["isDeleted" := d]) == FilterApprovedReviews(query)
    ensures FilterApprovedReviews(FilterApprovedReviews(query)) == FilterApprovedReviews(query)
  {
  }
}
