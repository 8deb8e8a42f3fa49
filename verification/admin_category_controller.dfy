/**
 * The admin backend's category endpoints. Names are stored trimmed and
 * compared exactly; a category is never removed, only switched off, and
 * only when no live product is in it.
 */
module AdminCategoryController {

  import opened Base
  import opened Text
  import opened Ids
  import opened AdminCatalog
  import AdminProductController

  const NAME_REQUIRED: string := "Category name is required"
  const NAME_TAKEN: string := "Category with this name already exists"
  const NAME_TAKEN_BY_OTHER: string := "Another category with this name already exists"
  const CATEGORY_NOT_FOUND: string := "Category not found"
  const UPDATE_FAILED: string := "Server error while updating category"
  const TOGGLE_FAILED: string := "Server error while toggling category status"
  const DELETE_FAILED: string := "Server error while deleting category"

  /** `!name || name.trim() === ''`. */
  predicate Blank(name: Option<string>)
  {
    name.None? || Trim(name.value) == ""
  }

  /** Some category other than `except` carries exactly this name. */
  predicate NameTaken(categories: Categories, name: string, except: Option<Id>)
  {
    exists id :: id in categories && categories[id].name == name && except != Some(id)
  }

  /** No two categories share a name. */
  predicate UniqueNames(categories: Categories)
  {
    forall a, b :: a in categories && b in categories && a != b ==> categories[a].name != categories[b].name
  }

  /** `createCategory`: a blank name, then a taken one, are refused; the new category is on. */
  function CreateCategory(categories: Categories, newId: Id, name: Option<string>, now: int): (r: (Categories, Result<Category>))
    requires newId !in categories
    ensures Blank(name) ==> r == (categories, Fail(400, NAME_REQUIRED))
    ensures !Blank(name) && NameTaken(categories, Trim(name.value), None) ==> r == (categories, Fail(400, NAME_TAKEN))
    ensures r.1.Ok? <==> !Blank(name) && !NameTaken(categories, Trim(name.value), None)
    ensures r.1.Ok? ==> r.1.value == Category(Trim(name.value), true, now) && r.0 == categories[newId := r.1.value]
  {
    if Blank(name) then (categories, Fail(400, NAME_REQUIRED))
    else if NameTaken(categories, Trim(name.value), None) then (categories, Fail(400, NAME_TAKEN))
    else
      var c := Category(Trim(name.value), true, now);
      (categories[newId := c], Ok(c))
  }

  /** Creating keeps names unique, and the stored name is trimmed and not blank. */
  lemma CreateKeepsUnique(categories: Categories, newId: Id, name: Option<string>, now: int)
    requires newId !in categories && UniqueNames(categories)
    ensures var r := CreateCategory(categories, newId, name, now);
      UniqueNames(r.0) && (r.1.Ok? ==> r.1.value.name != "" && Trim(r.1.value.name) == r.1.value.name)
  {
    var r := CreateCategory(categories, newId, name, now);
    if r.1.Ok? {
      TrimIdempotent(name.value);
      PutKeepsUnique(categories, newId, r.1.value, None);
    }
  }

  /** Storing a category under `id` keeps names unique when no other category has its name. */
  lemma PutKeepsUnique(categories: Categories, id: Id, c: Category, except: Option<Id>)
    requires UniqueNames(categories) && !NameTaken(categories, c.name, except)
    requires except.None? || except == Some(id)
    ensures UniqueNames(categories[id := c])
  {
    var m := categories[id := c];
    forall a, b | a in m && b in m && a != b
      ensures m[a].name != m[b].name
    {
      if a == id {
        assert !(b in categories && categories[b].name == c.name && except != Some(b));
      } else if b == id {
        assert !(a in categories && categories[a].name == c.name && except != Some(a));
      }
    }
  }

  /** `updateCategory`: blank name, then unknown category, then a name another category has. */
  function UpdateCategory(categories: Categories, raw: string, name: Option<string>): (r: (Categories, Result<Category>))
    ensures Blank(name) ==> r == (categories, Fail(400, NAME_REQUIRED))
    ensures !Blank(name) && IsObjectIdText(raw) && Lower(raw) !in categories ==> r == (categories, Fail(404, CATEGORY_NOT_FOUND))
    ensures r.1.Err? ==> r.0 == categories
    ensures r.1.Ok? <==> !Blank(name) && IsObjectIdText(raw) && Lower(raw) in categories &&
                         !NameTaken(categories, Trim(name.value), Some(Lower(raw)))
    ensures r.1.Ok? ==> r.1.value == categories[Lower(raw)].(name := Trim(name.value)) &&
                        r.0 == categories[Lower(raw) := r.1.value]
  {
    if Blank(name) then (categories, Fail(400, NAME_REQUIRED))
    else
      match FindCategory(categories, raw)
      case BadId => (categories, Fail(500, UPDATE_FAILED))
      case Missing => (categories, Fail(404, CATEGORY_NOT_FOUND))
      case Found(id) =>
        if NameTaken(categories, Trim(name.value), Some(id)) then (categories, Fail(400, NAME_TAKEN_BY_OTHER))
        else
          var c := categories[id].(name := Trim(name.value));
          (categories[id := c], Ok(c))
  }

  /**
   * A category may be renamed to its own name (in any surrounding
   * whitespace), and renaming keeps names unique.
   */
  lemma RenameToOwnName(categories: Categories, id: Id, padding: string)
    requires UniqueNames(categories) && IsCanonicalId(id) && id in categories && categories[id].name != ""
    requires Trim(padding + categories[id].name) == categories[id].name
    ensures UpdateCategory(categories, id, Some(padding + categories[id].name)) == (categories, Ok(categories[id]))
  {
    ParseCanonical(id);
    var c := categories[id];
    assert !NameTaken(categories, c.name, Some(id));
    assert categories[id := c] == categories;
  }

  lemma UpdateKeepsUnique(categories: Categories, raw: string, name: Option<string>)
    requires UniqueNames(categories)
    ensures UniqueNames(UpdateCategory(categories, raw, name).0)
  {
    var r := UpdateCategory(categories, raw, name);
    if r.1.Ok? {
      PutKeepsUnique(categories, Lower(raw), r.1.value, Some(Lower(raw)));
    }
  }

  /** `toggleCategoryStatus`: flips the category's state. */
  function ToggleCategoryStatus(categories: Categories, raw: string): (r: (Categories, Result<Category>))
    ensures r.1.Err? ==> r.0 == categories
    ensures r.1.Ok? <==> IsObjectIdText(raw) && Lower(raw) in categories
    ensures IsObjectIdText(raw) && Lower(raw) !in categories ==> r.1 == Fail(404, CATEGORY_NOT_FOUND)
    ensures r.1.Ok? ==> r.1.value.isActive == !categories[Lower(raw)].isActive && r.0 == categories[Lower(raw) := r.1.value]
  {
    match FindCategory(categories, raw)
    case BadId => (categories, Fail(500, TOGGLE_FAILED))
    case Missing => (categories, Fail(404, CATEGORY_NOT_FOUND))
    case Found(id) =>
      var c := categories[id].(isActive := !categories[id].isActive);
      (categories[id := c], Ok(c))
  }

  /** Toggling twice restores the category. */
  lemma ToggleCategoryTwice(categories: Categories, raw: string)
    requires IsObjectIdText(raw) && Lower(raw) in categories
    ensures ToggleCategoryStatus(ToggleCategoryStatus(categories, raw).0, raw).0 == categories
  {
    var id := Lower(raw);
    var once := ToggleCategoryStatus(categories, raw).0;
    assert once[id := categories[id]] == categories;
  }

  /** The live products in a category: `countDocuments({ categoryId, isDeleted: false })`. */
  function LiveProductsIn(products: AdminProducts, category: Id): set<Id>
  {
    set pid | pid in products && products[pid].categoryId == category && !products[pid].isDeleted
  }

  /** The refusal names the number of live products in the category. */
  function InUse(count: nat): string
  {
    "Cannot delete category. It has " + NatToString(count) + " product(s). Please remove or reassign products first."
  }

  /** `deleteCategory`: refused while live products are in it; otherwise it is only switched off. */
  function DeleteCategory(categories: Categories, products: AdminProducts, raw: string): (r: (Categories, Result<Category>))
    ensures r.1.Err? ==> r.0 == categories
    ensures r.0.Keys == categories.Keys
    ensures IsObjectIdText(raw) && Lower(raw) !in categories ==> r.1 == Fail(404, CATEGORY_NOT_FOUND)
    ensures IsObjectIdText(raw) && Lower(raw) in categories && LiveProductsIn(products, Lower(raw)) != {} ==>
      r.1 == Fail(400, InUse(|LiveProductsIn(products, Lower(raw))|))
    ensures r.1.Ok? <==> IsObjectIdText(raw) && Lower(raw) in categories && LiveProductsIn(products, Lower(raw)) == {}
    ensures r.1.Ok? ==> r.1.value == categories[Lower(raw)].(isActive := false) && r.0 == categories[Lower(raw) := r.1.value]
  {
    match FindCategory(categories, raw)
    case BadId => (categories, Fail(500, DELETE_FAILED))
    case Missing => (categories, Fail(404, CATEGORY_NOT_FOUND))
    case Found(id) =>
      var live := LiveProductsIn(products, id);
      if |live| > 0 then (categories, Fail(400, InUse(|live|)))
      else
        var c := categories[id].(isActive := false);
        (categories[id := c], Ok(c))
  }

  /**
   * A category with a live product cannot be deleted; once deleted, a
   * category takes no new products.
   */
  lemma DeletedCategoryTakesNoProducts(categories: Categories, products: AdminProducts, raw: string,
                                       newId: Id, b: AdminProductController.ProductBody, now: int)
    requires newId !in products && AdminProductController.CreateChecks(b).Ok? && b.categoryId == Some(raw)
    requires DeleteCategory(categories, products, raw).1.Ok?
    ensures AdminProductController.CreateProduct(products, DeleteCategory(categories, products, raw).0, newId, b, now) ==
      (products, Fail(400, AdminProductController.ADD_TO_INACTIVE))
  {
  }

  lemma LiveProductBlocksDelete(categories: Categories, products: AdminProducts, raw: string, pid: Id)
    requires IsObjectIdText(raw) && Lower(raw) in categories
    requires pid in products && products[pid].categoryId == Lower(raw) && !products[pid].isDeleted
    ensures DeleteCategory(categories, products, raw).1.Err?
    ensures DeleteCategory(categories, products, raw).0 == categories
  {
    assert pid in LiveProductsIn(products, Lower(raw));
  }

  /** Binary order of names, as the database sorts them. */
  predicate NameBefore(a: string, b: string)
  {
    a == [] || (b != [] && (a[0] < b[0] || (a[0] == b[0] && NameBefore(a[1..], b[1..]))))
  }

  lemma {:induction false} NameOrderTotal(a: string, b: string)
    ensures NameBefore(a, b) || NameBefore(b, a)
  {
    if a != [] && b != [] && a[0] == b[0] {
      NameOrderTotal(a[1..], b[1..]);
    }
  }

  predicate SortedByName(s: seq<Category>)
  {
    forall i :: 0 < i < |s| ==> NameBefore(s[i - 1].name, s[i].name)
  }

  /** `c` placed before the first category it sorts before. */
  function Insert(c: Category, s: seq<Category>): (r: seq<Category>)
    ensures multiset(r) == multiset(s) + multiset{c}
    ensures |r| == |s| + 1 && (r[0] == c || (s != [] && r[0] == s[0]))
  {
    if s == [] then [c]
    else if NameBefore(c.name, s[0].name) then [c] + s
    else
      assert s == [s[0]] + s[1..];
      [s[0]] + Insert(c, s[1..])
  }

  lemma {:induction false} InsertSorted(c: Category, s: seq<Category>)
    requires SortedByName(s)
    ensures SortedByName(Insert(c, s))
  {
    if s != [] && !NameBefore(c.name, s[0].name) {
      NameOrderTotal(c.name, s[0].name);
      var tail := s[1..];
      assert SortedByName(tail) by {
        forall i | 0 < i < |tail| ensures NameBefore(tail[i - 1].name, tail[i].name) {
          assert tail[i - 1] == s[i] && tail[i] == s[i + 1];
        }
      }
      InsertSorted(c, tail);
    }
  }

  /** The categories sorted by name, by insertion. */
  function SortByName(s: seq<Category>): (r: seq<Category>)
    ensures multiset(r) == multiset(s) && |r| == |s|
  {
    if s == [] then []
    else
      assert s == [s[0]] + s[1..];
      Insert(s[0], SortByName(s[1..]))
  }

  lemma {:induction false} SortByNameSorted(s: seq<Category>)
    ensures SortedByName(SortByName(s))
  {
    if s != [] {
      SortByNameSorted(s[1..]);
      InsertSorted(s[0], SortByName(s[1..]));
    }
  }

  function ActiveOnly(s: seq<Category>): (r: seq<Category>)
    ensures forall c :: c in r <==> c in s && c.isActive
    ensures forall c :: c in r ==> multiset(r)[c] == multiset(s)[c]
  {
    if s == [] then []
    else
      assert s == [s[0]] + s[1..];
      if s[0].isActive then [s[0]] + ActiveOnly(s[1..]) else ActiveOnly(s[1..])
  }

  /** `getActiveCategories`: the active categories, each as often as stored, in name order. */
  function GetActiveCategories(stored: seq<Category>): (r: seq<Category>)
    ensures forall c :: c in r <==> c in stored && c.isActive
    ensures forall c :: c in r ==> multiset(r)[c] == multiset(stored)[c]
  {
    SortByName(ActiveOnly(stored))
  }

  lemma ActiveCategoriesSorted(stored: seq<Category>)
    ensures SortedByName(GetActiveCategories(stored))
  {
    SortByNameSorted(ActiveOnly(stored));
  }
}
