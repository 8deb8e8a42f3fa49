/**
 * The Python wishlist endpoints. A wishlist entry pairs a user with a
 * product; the `(user, product)` index is not unique, so "at most one
 * entry per pair" is an invariant the endpoints keep rather than one the
 * store enforces. Entries are kept in insertion order, which is the order
 * `find_one` meets them in.
 */
module WishlistControllerPy {

  import opened Base
  import opened Text
  import opened Ids
  import opened Catalog
  import opened Carts

  const INVALID_PRODUCT: string := "Invalid product ID"
  const NOT_AVAILABLE: string := "Product not available"
  const NOT_IN_WISHLIST: string := "Product not in wishlist"
  const ALREADY_THERE: string := "Product already in wishlist"
  const ADDED: string := "Added to wishlist"
  const REMOVED: string := "Removed from wishlist"

  datatype Entry = Entry(id: Id, user: Id, product: Id)

  /** One line of `getWishlist`: the entry's id and the product as loaded. */
  datatype View = View(id: Id, productId: Id, product: Product)

  /** The answer of `addToWishlist`: a message, the entry's id and the product's id. */
  datatype Added = Added(message: string, id: Id, productId: Id)

  /** The answer of `toggleWishlist`; `id` is the new entry's id when one was added. */
  datatype Toggled = Toggled(message: string, inWishlist: bool, productId: Id, id: Option<Id>)

  /** The user has an entry for the product. */
  predicate Has(entries: seq<Entry>, user: Id, product: Id)
  {
    exists i :: 0 <= i < |entries| && entries[i].user == user && entries[i].product == product
  }

  /** At most one entry per user and product. */
  predicate Unique(entries: seq<Entry>)
  {
    forall i, j :: 0 <= i < j < |entries| ==> !(entries[i].user == entries[j].user && entries[i].product == entries[j].product)
  }

  /** Index of the first entry of a user for a product (`find_one(user, product)`). */
  function Find(entries: seq<Entry>, user: Id, product: Id): (r: Option<nat>)
    ensures r.Some? <==> Has(entries, user, product)
    ensures r.Some? ==> r.value < |entries| && entries[r.value].user == user && entries[r.value].product == product
    ensures r.Some? ==> forall j :: 0 <= j < r.value ==> !(entries[j].user == user && entries[j].product == product)
  {
    if entries == [] then None
    else if entries[0].user == user && entries[0].product == product then Some(0)
    else
      match Find(entries[1..], user, product)
      case None =>
        assert forall i :: 1 <= i < |entries| ==> entries[i] == entries[1..][i - 1];
        None
      case Some(i) => Some(i + 1)
  }

  /**
   * `getWishlist`: the user's entries, in order, whose product exists and
   * is active once loaded; the others are skipped silently.
   */
  function GetWishlist(products: Products, entries: seq<Entry>, user: Id): (r: seq<View>)
    ensures forall i :: 0 <= i < |r| ==>
      AvailablePy(products, r[i].productId) && r[i].product == LoadPy(products[r[i].productId]) &&
      Entry(r[i].id, user, r[i].productId) in entries
    ensures forall e :: e in entries && e.user == user && AvailablePy(products, e.product) ==>
      View(e.id, e.product, LoadPy(products[e.product])) in r
    ensures |r| <= |entries|
  {
    if entries == [] then []
    else
      var e := entries[0];
      var rest := GetWishlist(products, entries[1..], user);
      if e.user == user && AvailablePy(products, e.product) then [View(e.id, e.product, LoadPy(products[e.product]))] + rest
      else rest
  }

  /** The checks `addToWishlist` and `toggleWishlist` share: the id parses and names an active product. */
  function Available(products: Products, productId: string): (r: Result<Id>)
    ensures ParseObjectId(productId).None? ==> r == Fail(400, INVALID_PRODUCT)
    ensures ParseObjectId(productId).Some? && !AvailablePy(products, ParseObjectId(productId).value) ==> r == Fail(404, NOT_AVAILABLE)
    ensures r.Ok? <==> ParseObjectId(productId).Some? && AvailablePy(products, ParseObjectId(productId).value)
    ensures r.Ok? ==> r.value == Lower(productId)
  {
    match ParseObjectId(productId)
    case None => Fail(400, INVALID_PRODUCT)
    case Some(id) => if !AvailablePy(products, id) then Fail(404, NOT_AVAILABLE) else Ok(id)
  }

  /**
   * `addToWishlist`: a product already on the list is answered with the
   * existing entry and nothing is written; otherwise one entry is added
   * under `freshId`.
   */
  function Add(products: Products, entries: seq<Entry>, user: Id, productId: string, freshId: Id): (r: (seq<Entry>, Result<Added>))
    ensures Available(products, productId).Err? ==> r == (entries, Err(Available(products, productId).error))
    ensures Available(products, productId).Ok? ==>
      var id := Lower(productId);
      r.1.Ok? && r.1.value.productId == id &&
      (Has(entries, user, id) ==> r.0 == entries && r.1.value.message == ALREADY_THERE &&
                                  Entry(r.1.value.id, user, id) in entries) &&
      (!Has(entries, user, id) ==> r.0 == entries + [Entry(freshId, user, id)] && r.1.value == Added(ADDED, freshId, id))
  {
    match Available(products, productId)
    case Err(e) => (entries, Err(e))
    case Ok(id) =>
      match Find(entries, user, id)
      case Some(i) => (entries, Ok(Added(ALREADY_THERE, entries[i].id, id)))
      case None => (entries + [Entry(freshId, user, id)], Ok(Added(ADDED, freshId, id)))
  }

  /**
   * `removeFromWishlist`: deletes the user's first entry for the product,
   * or answers 404. The product itself is never looked at, so an entry
   * whose product has gone or been switched off can still be removed.
   */
  function Remove(entries: seq<Entry>, user: Id, productId: string): (r: (seq<Entry>, Result<string>))
    ensures ParseObjectId(productId).None? ==> r == (entries, Fail(400, INVALID_PRODUCT))
    ensures ParseObjectId(productId).Some? && !Has(entries, user, Lower(productId)) ==> r == (entries, Fail(404, NOT_IN_WISHLIST))
    ensures r.1.Ok? <==> ParseObjectId(productId).Some? && Has(entries, user, Lower(productId))
    ensures r.1.Ok? ==> r.1.value == REMOVED && |r.0| == |entries| - 1
  {
    match ParseObjectId(productId)
    case None => (entries, Fail(400, INVALID_PRODUCT))
    case Some(id) =>
      match Find(entries, user, id)
      case None => (entries, Fail(404, NOT_IN_WISHLIST))
      case Some(i) => (RemoveAt(entries, i), Ok(REMOVED))
  }

  /**
   * `toggleWishlist`: the product must be available even to be taken off
   * the list; then the first entry goes if there is one, or an entry is
   * added under `freshId`.
   */
  function Toggle(products: Products, entries: seq<Entry>, user: Id, productId: string, freshId: Id): (r: (seq<Entry>, Result<Toggled>))
    ensures Available(products, productId).Err? ==> r == (entries, Err(Available(products, productId).error))
    ensures Available(products, productId).Ok? ==>
      var id := Lower(productId);
      r.1.Ok? && r.1.value.productId == id && (r.1.value.inWishlist <==> !Has(entries, user, id)) &&
      (Has(entries, user, id) ==> |r.0| == |entries| - 1 && r.1.value == Toggled(REMOVED, false, id, None)) &&
      (!Has(entries, user, id) ==> r.0 == entries + [Entry(freshId, user, id)] && r.1.value == Toggled(ADDED, true, id, Some(freshId)))
  {
    match Available(products, productId)
    case Err(e) => (entries, Err(e))
    case Ok(id) =>
      match Find(entries, user, id)
      case Some(i) => (RemoveAt(entries, i), Ok(Toggled(REMOVED, false, id, None)))
      case None => (entries + [Entry(freshId, user, id)], Ok(Toggled(ADDED, true, id, Some(freshId))))
  }

  /** `clearWishlist`: every entry of the user goes; everyone else's stay, in order. */
  function Clear(entries: seq<Entry>, user: Id): (r: seq<Entry>)
    ensures forall e :: e in r <==> e in entries && e.user != user
    ensures |r| <= |entries|
  {
    if entries == [] then []
    else if entries[0].user == user then Clear(entries[1..], user)
    else [entries[0]] + Clear(entries[1..], user)
  }

  /** Removing one entry of a unique list leaves every other pair as it was and drops the removed pair. */
  lemma RemoveAtMembership(entries: seq<Entry>, i: nat, user: Id, product: Id)
    requires Unique(entries) && i < |entries|
    ensures Unique(RemoveAt(entries, i))
    ensures Has(RemoveAt(entries, i), user, product) <==>
      Has(entries, user, product) && !(entries[i].user == user && entries[i].product == product)
  {
    var r := RemoveAt(entries, i);
    if Has(entries, user, product) && !(entries[i].user == user && entries[i].product == product) {
      var k :| 0 <= k < |entries| && entries[k].user == user && entries[k].product == product;
      if k < i {
        assert r[k] == entries[k];
      } else {
        assert r[k - 1] == entries[k];
      }
    }
    if Has(r, user, product) {
      var k :| 0 <= k < |r| && r[k].user == user && r[k].product == product;
      if k < i {
        assert entries[k] == r[k];
      } else {
        assert entries[k + 1] == r[k];
      }
    }
  }

  /** Appending an entry for a pair the list lacks keeps it unique, and adds exactly that pair. */
  lemma AppendMembership(entries: seq<Entry>, e: Entry, user: Id, product: Id)
    requires Unique(entries) && !Has(entries, e.user, e.product)
    ensures Unique(entries + [e])
    ensures Has(entries + [e], user, product) <==> Has(entries, user, product) || (e.user == user && e.product == product)
  {
    var r := entries + [e];
    if Has(entries, user, product) {
      var k :| 0 <= k < |entries| && entries[k].user == user && entries[k].product == product;
      assert r[k] == entries[k];
    }
    if Has(r, user, product) && !(e.user == user && e.product == product) {
      var k :| 0 <= k < |r| && r[k].user == user && r[k].product == product;
      assert k < |entries| && entries[k] == r[k];
    }
    assert r[|entries|] == e;
  }

  /**
   * Every endpoint keeps the list free of duplicate pairs, so "the first
   * entry" the removing endpoints delete is the only one.
   */
  lemma EndpointsKeepUnique(products: Products, entries: seq<Entry>, user: Id, productId: string, freshId: Id)
    requires Unique(entries)
    ensures Unique(Add(products, entries, user, productId, freshId).0)
    ensures Unique(Remove(entries, user, productId).0)
    ensures Unique(Toggle(products, entries, user, productId, freshId).0)
    ensures Unique(Clear(entries, user))
  {
    var id := Lower(productId);
    if ParseObjectId(productId).Some? {
      match Find(entries, user, id)
      case Some(i) => RemoveAtMembership(entries, i, user, id);
      case None => AppendMembership(entries, Entry(freshId, user, id), user, id);
    }
    ClearUnique(entries, user);
  }

  lemma {:induction false} ClearUnique(entries: seq<Entry>, user: Id)
    requires Unique(entries)
    ensures Unique(Clear(entries, user))
  {
    if entries != [] {
      assert Unique(entries[1..]);
      ClearUnique(entries[1..], user);
      var rest := Clear(entries[1..], user);
      if entries[0].user != user {
        forall j | 0 <= j < |rest|
          ensures !(entries[0].user == rest[j].user && entries[0].product == rest[j].product)
        {
          assert rest[j] in entries[1..];
        }
      }
    }
  }

  /**
   * Adding is idempotent: a second add of the same product answers with
   * the entry the first one made and writes nothing.
   */
  lemma AddTwice(products: Products, entries: seq<Entry>, user: Id, productId: string, freshId: Id, otherId: Id)
    requires Add(products, entries, user, productId, freshId).1.Ok?
    ensures var (once, first) := Add(products, entries, user, productId, freshId);
      var (twice, second) := Add(products, once, user, productId, otherId);
      twice == once && second.Ok? && second.value.message == ALREADY_THERE && second.value.productId == first.value.productId
  {
    var id := Lower(productId);
    var once := Add(products, entries, user, productId, freshId).0;
    if !Has(entries, user, id) {
      assert once[|entries|] == Entry(freshId, user, id);
    }
    assert Has(once, user, id);
  }

  /**
   * Toggling an available product twice restores whether the user has it,
   * and leaves every other pair as it was; when the product was absent the
   * list comes back exactly.
   */
  lemma ToggleTwiceRestores(products: Products, entries: seq<Entry>, user: Id, productId: string,
                            freshId: Id, otherId: Id, u: Id, p: Id)
    requires Unique(entries)
    requires Toggle(products, entries, user, productId, freshId).1.Ok?
    ensures var once := Toggle(products, entries, user, productId, freshId).0;
      var twice := Toggle(products, once, user, productId, otherId);
      twice.1.Ok? && (Has(twice.0, u, p) <==> Has(entries, u, p)) &&
      (!Has(entries, user, Lower(productId)) ==> twice.0 == entries)
  {
    var id := Lower(productId);
    var once := Toggle(products, entries, user, productId, freshId).0;
    match Find(entries, user, id)
    case Some(i) =>
      RemoveAtMembership(entries, i, user, id);
      RemoveAtMembership(entries, i, u, p);
      AppendMembership(once, Entry(otherId, user, id), u, p);
    case None =>
      AppendMembership(entries, Entry(freshId, user, id), user, id);
      var j := Find(once, user, id).value;
      assert once[|entries|] == Entry(freshId, user, id);
      assert j == |entries|;
      assert RemoveAt(once, j) == entries;
  }

  /** Removing what was just added gives the list back, whatever became of the product in between. */
  lemma AddThenRemove(products: Products, entries: seq<Entry>, user: Id, productId: string, freshId: Id)
    requires Add(products, entries, user, productId, freshId).1.Ok?
    requires !Has(entries, user, Lower(productId))
    ensures Remove(Add(products, entries, user, productId, freshId).0, user, productId) == (entries, Ok(REMOVED))
  {
    var id := Lower(productId);
    var once := entries + [Entry(freshId, user, id)];
    assert once[|entries|] == Entry(freshId, user, id);
    assert Find(once, user, id) == Some(|entries|);
    assert RemoveAt(once, |entries|) == entries;
  }

  /** After clearing, the user's wishlist reads back empty and every other user's reads as before. */
  lemma ClearEmpties(products: Products, entries: seq<Entry>, user: Id, other: Id)
    requires other != user
    ensures GetWishlist(products, Clear(entries, user), user) == []
    ensures GetWishlist(products, Clear(entries, user), other) == GetWishlist(products, entries, other)
  {
    ClearViews(products, entries, user, user);
    ClearViews(products, entries, user, other);
  }

  lemma {:induction false} ClearViews(products: Products, entries: seq<Entry>, user: Id, viewer: Id)
    ensures GetWishlist(products, Clear(entries, user), viewer) == if viewer == user then [] else GetWishlist(products, entries, viewer)
  {
    if entries != [] {
      ClearViews(products, entries[1..], user, viewer);
    }
  }
}
