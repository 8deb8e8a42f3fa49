/**
 * The one-off migration that merges the admin backend's and the shop's
 * collections into one schema: the slug generator, the merge of the two
 * product collections, and the per-document rules that fill in the
 * paired and defaulted fields of categories, orders and reviews. The
 * database reads and writes around these rules are not modelled; each
 * rule maps a document to the fields it sets.
 */
module Migration {

  import opened Base
  import opened Text
  import opened Ids

  // ---------------------------------------------------------------------
  // Slugs
  // ---------------------------------------------------------------------

  /** The characters a slug keeps: ASCII lower-case letters and digits. */
  predicate SlugAlnum(c: char)
  {
    IsLowerAscii(c) || IsDigit(c)
  }

  predicate NoDoubleDash(s: string)
  {
    forall i :: 0 < i < |s| ==> !(s[i - 1] == '-' && s[i] == '-')
  }

  /** Letters, digits and single dashes, with no dash at either end. */
  predicate IsSlug(s: string)
  {
    (forall i :: 0 <= i < |s| ==> SlugAlnum(s[i]) || s[i] == '-') &&
    NoDoubleDash(s) &&
    (s != [] ==> s[0] != '-' && s[|s| - 1] != '-')
  }

  /** The letters and digits of `s`, in order. */
  function Kept(s: string): (r: string)
    ensures forall i :: 0 <= i < |r| ==> SlugAlnum(r[i])
  {
    if s == [] then [] else (if SlugAlnum(s[0]) then [s[0]] else []) + Kept(s[1..])
  }

  /** What follows a run of characters other than letters and digits. */
  function SkipRun(s: string): (r: string)
    ensures |r| <= |s| && r == s[|s| - |r|..]
    ensures r == [] || SlugAlnum(r[0])
    ensures forall i :: 0 <= i < |s| - |r| ==> !SlugAlnum(s[i])
  {
    if s != [] && !SlugAlnum(s[0]) then
      var t := s[1..];
      var r := SkipRun(t);
      assert t[|t| - |r|..] == s[|s| - |r|..];
      assert forall i :: 1 <= i < |s| - |r| ==> s[i] == t[i - 1];
      r
    else s
  }

  /** `.replace(/[^a-z0-9]+/g, '-')`: each maximal run of other characters becomes one dash. */
  function Hyphenate(s: string): (r: string)
    ensures forall i :: 0 <= i < |r| ==> SlugAlnum(r[i]) || r[i] == '-'
    ensures NoDoubleDash(r)
    ensures r == [] <==> s == []
    ensures r != [] ==> (r[0] == '-' <==> !SlugAlnum(s[0]))
    decreases |s|
  {
    if s == [] then []
    else if SlugAlnum(s[0]) then [s[0]] + Hyphenate(s[1..])
    else "-" + Hyphenate(SkipRun(s[1..]))
  }

  /** `.replace(/^-|-$/g, '')`: one dash dropped from the front and one from the end. */
  function StripDashes(s: string): (r: string)
    ensures var t := if s != [] && s[0] == '-' then s[1..] else s;
      r == (if t != [] && t[|t| - 1] == '-' then t[..|t| - 1] else t)
  {
    var t := if s != [] && s[0] == '-' then s[1..] else s;
    if t != [] && t[|t| - 1] == '-' then t[..|t| - 1] else t
  }

  /** `generateSlug(name)`: lower-case, hyphenate, strip the end dashes. */
  function GenerateSlug(name: string): (r: string)
    ensures IsSlug(r)
  {
    var h := Hyphenate(Lower(name));
    var r := StripDashes(h);
    assert forall i :: 0 <= i < |r| ==> r[i] in h;
    r
  }

  lemma {:induction false} SkipRunKept(s: string)
    ensures Kept(SkipRun(s)) == Kept(s)
  {
    if s != [] && !SlugAlnum(s[0]) {
      SkipRunKept(s[1..]);
    }
  }

  lemma {:induction false} HyphenateKept(s: string)
    ensures Kept(Hyphenate(s)) == Kept(s)
    decreases |s|
  {
    if s != [] {
      var h := Hyphenate(s);
      if SlugAlnum(s[0]) {
        HyphenateKept(s[1..]);
        assert h[1..] == Hyphenate(s[1..]);
      } else {
        SkipRunKept(s[1..]);
        HyphenateKept(SkipRun(s[1..]));
        assert h[1..] == Hyphenate(SkipRun(s[1..]));
      }
    }
  }

  lemma KeptAppend(a: string, b: string)
    ensures Kept(a + b) == Kept(a) + Kept(b)
  {
    if a != [] {
      assert (a + b)[0] == a[0] && (a + b)[1..] == a[1..] + b;
      KeptAppend(a[1..], b);
    } else {
      assert a + b == b;
    }
  }

  lemma StripDashesKept(s: string)
    ensures Kept(StripDashes(s)) == Kept(s)
  {
    var t := if s != [] && s[0] == '-' then s[1..] else s;
    if s != [] && s[0] == '-' {
      assert s == "-" + t;
      KeptAppend("-", t);
    }
    if t != [] && t[|t| - 1] == '-' {
      assert t == t[..|t| - 1] + "-";
      KeptAppend(t[..|t| - 1], "-");
    }
  }

  /** The slug keeps exactly the letters and digits of the lower-cased name, in order. */
  lemma SlugKeepsLettersAndDigits(name: string)
    ensures Kept(GenerateSlug(name)) == Kept(Lower(name))
  {
    HyphenateKept(Lower(name));
    StripDashesKept(Hyphenate(Lower(name)));
  }

  lemma {:induction false} HyphenateOfSlugText(s: string)
    requires forall i :: 0 <= i < |s| ==> SlugAlnum(s[i]) || s[i] == '-'
    requires NoDoubleDash(s)
    ensures Hyphenate(s) == s
    decreases |s|
  {
    if s != [] {
      HyphenateOfSlugText(s[1..]);
      if !SlugAlnum(s[0]) && |s| > 1 {
        assert s[1] != '-';
        assert SkipRun(s[1..]) == s[1..];
      }
    }
  }

  lemma LowerOfSlugText(s: string)
    requires forall i :: 0 <= i < |s| ==> SlugAlnum(s[i]) || s[i] == '-'
    ensures Lower(s) == s
  {
    assert forall i :: 0 <= i < |s| ==> Lower(s)[i] == s[i];
  }

  /** A slug is its own slug, and only a slug is. */
  lemma SlugFixedPoints(s: string)
    ensures GenerateSlug(s) == s <==> IsSlug(s)
  {
    if IsSlug(s) {
      LowerOfSlugText(s);
      HyphenateOfSlugText(s);
    }
  }

  /** The slug is empty exactly when the name has no ASCII letter or digit. */
  lemma EmptySlugIffNoLettersOrDigits(name: string)
    ensures GenerateSlug(name) == "" <==> Kept(Lower(name)) == ""
  {
    var r := GenerateSlug(name);
    SlugKeepsLettersAndDigits(name);
    if r != "" {
      assert r[0] != '-' && SlugAlnum(r[0]);
      assert r == [r[0]] + r[1..];
      KeptAppend([r[0]], r[1..]);
    }
  }

  /** Generating a slug twice gives the slug once. */
  lemma SlugIdempotent(name: string)
    ensures GenerateSlug(GenerateSlug(name)) == GenerateSlug(name)
  {
    SlugFixedPoints(GenerateSlug(name));
  }

  // ---------------------------------------------------------------------
  // Products
  // ---------------------------------------------------------------------

  /** A product as either old collection holds it; any field may be missing. */
  datatype LegacyProduct = LegacyProduct(
    id: Id,
    name: Option<string>,
    slug: Option<string>,
    description: Option<string>,
    categoryId: Option<Id>,
    category: Option<string>,
    price: Option<int>,
    currency: Option<string>,
    stock: Option<int>,
    totalStock: Option<int>,
    maxUnitsPerUser: Option<int>,
    isUnlimitedPurchase: Option<bool>,
    imageUrl: Option<string>,
    images: Option<seq<string>>,
    isActive: Option<bool>,
    isDeleted: Option<bool>,
    createdAt: Option<int>,
    updatedAt: Option<int>)

  /** A product of the merged collection. */
  datatype UnifiedProduct = UnifiedProduct(
    id: Id,
    name: string,
    slug: string,
    description: string,
    categoryId: Option<Id>,
    category: string,
    price: Option<int>,
    currency: string,
    stock: int,
    totalStock: int,
    maxUnitsPerUser: int,
    isUnlimitedPurchase: bool,
    imageUrl: string,
    images: seq<string>,
    isActive: bool,
    isDeleted: bool,
    createdAt: int,
    updatedAt: int)

  /** Reading `.toLowerCase()` of a missing name stops the script. */
  const NO_NAME: string := "Cannot read properties of undefined (reading 'toLowerCase')"

  predicate AllNamed(products: seq<LegacyProduct>)
  {
    forall i :: 0 <= i < |products| ==> products[i].name.Some?
  }

  /** The given slug when there is one, else one generated from the name. */
  function SlugOrGenerated(p: LegacyProduct): (r: string)
    requires p.name.Some?
    ensures Truthy(p.slug) ==> r == p.slug.value
    ensures !Truthy(p.slug) ==> IsSlug(r) && Kept(r) == Kept(Lower(p.name.value))
  {
    if Truthy(p.slug) then p.slug.value
    else
      SlugKeepsLettersAndDigits(p.name.value);
      GenerateSlug(p.name.value)
  }

  /**
   * An admin product, the source of truth: its stock is the first of
   * `totalStock` and `stock` that is set and not zero, for both stock
   * fields; missing flags and texts take their defaults.
   */
  function FromAdmin(p: LegacyProduct, now: int): (u: UnifiedProduct)
    requires p.name.Some?
    ensures u.id == p.id && u.name == p.name.value && u.categoryId == p.categoryId && u.price == p.price
    ensures u.stock == u.totalStock == IntOr(p.totalStock, IntOr(p.stock, 0))
    ensures u.maxUnitsPerUser == IntOr(p.maxUnitsPerUser, 1) && u.maxUnitsPerUser != 0
    ensures u.isUnlimitedPurchase <==> p.isUnlimitedPurchase == Some(true)
    ensures u.isDeleted <==> p.isDeleted == Some(true)
    ensures u.isActive == p.isActive.GetOr(true)
    ensures p.images.Some? ==> u.images == p.images.value
    ensures p.images.None? ==> u.images == (if Truthy(p.imageUrl) then [p.imageUrl.value] else [])
  {
    UnifiedProduct(
      p.id, p.name.value, SlugOrGenerated(p), OrElse(p.description, ""), p.categoryId, OrElse(p.category, ""),
      p.price, OrElse(p.currency, "INR"),
      IntOr(p.totalStock, IntOr(p.stock, 0)), IntOr(p.totalStock, IntOr(p.stock, 0)),
      IntOr(p.maxUnitsPerUser, 1), p.isUnlimitedPurchase == Some(true), OrElse(p.imageUrl, ""),
      if p.images.Some? then p.images.value else if Truthy(p.imageUrl) then [p.imageUrl.value] else [],
      p.isActive.GetOr(true), p.isDeleted == Some(true), p.createdAt.GetOr(now), p.updatedAt.GetOr(now))
  }

  /**
   * A shop product the admin side does not know: no category id, both
   * stock fields from `stock`, a cap of one unit, never deleted, and its
   * first image, when that is non-empty, as the image.
   */
  function FromUser(p: LegacyProduct, now: int): (u: UnifiedProduct)
    requires p.name.Some?
    ensures u.id == p.id && u.name == p.name.value && u.categoryId.None? && u.price == p.price
    ensures u.stock == u.totalStock == IntOr(p.stock, 0)
    ensures u.maxUnitsPerUser == 1 && !u.isUnlimitedPurchase && !u.isDeleted
    ensures u.isActive == p.isActive.GetOr(true)
    ensures u.images == p.images.GetOr([])
    ensures u.imageUrl == (if p.images.Some? && |p.images.value| > 0 then p.images.value[0] else "")
  {
    var images := p.images.GetOr([]);
    UnifiedProduct(
      p.id, p.name.value, SlugOrGenerated(p), OrElse(p.description, ""), None, OrElse(p.category, ""),
      p.price, OrElse(p.currency, "INR"), IntOr(p.stock, 0), IntOr(p.stock, 0), 1, false,
      if |images| > 0 then images[0] else "", images,
      p.isActive.GetOr(true), false, p.createdAt.GetOr(now), p.updatedAt.GetOr(now))
  }

  /** The lower-cased names of the admin products. */
  function AdminNames(admin: seq<LegacyProduct>): (names: set<string>)
    requires AllNamed(admin)
    ensures forall i :: 0 <= i < |admin| ==> Lower(admin[i].name.value) in names
    ensures forall n :: n in names ==> exists i :: 0 <= i < |admin| && n == Lower(admin[i].name.value)
  {
    set i | 0 <= i < |admin| :: Lower(admin[i].name.value)
  }

  /**
   * The shop products whose lower-cased name is not taken, in their
   * order; two shop products with the same name are both kept.
   */
  function NewUserProducts(user: seq<LegacyProduct>, names: set<string>): (r: seq<LegacyProduct>)
    requires AllNamed(user)
    ensures AllNamed(r) && |r| <= |user|
    ensures forall p :: p in r <==> p in user && Lower(p.name.value) !in names
    ensures (forall i :: 0 <= i < |user| ==> Lower(user[i].name.value) !in names) ==> r == user
  {
    if user == [] then []
    else
      assert user == [user[0]] + user[1..];
      var rest := NewUserProducts(user[1..], names);
      if Lower(user[0].name.value) in names then rest else [user[0]] + rest
  }

  function MapAdmin(admin: seq<LegacyProduct>, now: int): (r: seq<UnifiedProduct>)
    requires AllNamed(admin)
    ensures |r| == |admin| && forall i :: 0 <= i < |admin| ==> r[i] == FromAdmin(admin[i], now)
  {
    seq(|admin|, i requires 0 <= i < |admin| => FromAdmin(admin[i], now))
  }

  function MapUser(user: seq<LegacyProduct>, now: int): (r: seq<UnifiedProduct>)
    requires AllNamed(user)
    ensures |r| == |user| && forall i :: 0 <= i < |user| ==> r[i] == FromUser(user[i], now)
  {
    seq(|user|, i requires 0 <= i < |user| => FromUser(user[i], now))
  }

  /**
   * `migrateProducts`: every admin product, in order, then the shop
   * products whose lower-cased name no admin product has. A product
   * without a name stops the script.
   */
  function MigrateProducts(admin: seq<LegacyProduct>, user: seq<LegacyProduct>, now: int): (r: Result<seq<UnifiedProduct>>)
    ensures r.Ok? <==> AllNamed(admin) && AllNamed(user)
    ensures r.Err? ==> r == Err(Crash(NO_NAME))
    ensures r.Ok? ==> r.value == MapAdmin(admin, now) + MapUser(NewUserProducts(user, AdminNames(admin)), now)
  {
    if !AllNamed(admin) || !AllNamed(user) then Err(Crash(NO_NAME))
    else Ok(MapAdmin(admin, now) + MapUser(NewUserProducts(user, AdminNames(admin)), now))
  }

  /**
   * The merge keeps every admin product at its position, adds a shop
   * product exactly when its lower-cased name differs from every admin
   * product's, and leaves both stock fields equal everywhere.
   */
  lemma MergeKeepsAdminAndNewNames(admin: seq<LegacyProduct>, user: seq<LegacyProduct>, now: int)
    requires AllNamed(admin) && AllNamed(user)
    ensures var r := MigrateProducts(admin, user, now).value;
      |r| >= |admin| &&
      (forall i :: 0 <= i < |admin| ==> r[i].id == admin[i].id && r[i].name == admin[i].name.value) &&
      (forall j :: |admin| <= j < |r| ==> r[j].categoryId.None? && Lower(r[j].name) !in AdminNames(admin)) &&
      (forall p :: p in user && Lower(p.name.value) !in AdminNames(admin) ==> FromUser(p, now) in r[|admin|..]) &&
      (forall x :: x in r ==> x.stock == x.totalStock)
  {
    var r := MigrateProducts(admin, user, now).value;
    var head := MapAdmin(admin, now);
    var tail := MapUser(NewUserProducts(user, AdminNames(admin)), now);
    assert r == head + tail;
    MergedTail(user, AdminNames(admin), now);
    assert r[|admin|..] == tail;
    forall j | |admin| <= j < |r| ensures r[j].categoryId.None? && Lower(r[j].name) !in AdminNames(admin) {
      assert r[j] == tail[j - |admin|];
    }
    forall x | x in r ensures x.stock == x.totalStock {
      assert x in head || x in tail;
    }
  }

  /** The converted new shop products: none has a category or an admin name, and every new one is there. */
  lemma MergedTail(user: seq<LegacyProduct>, names: set<string>, now: int)
    requires AllNamed(user)
    ensures var tail := MapUser(NewUserProducts(user, names), now);
      (forall j :: 0 <= j < |tail| ==> tail[j].categoryId.None? && Lower(tail[j].name) !in names) &&
      (forall p :: p in user && Lower(p.name.value) !in names ==> FromUser(p, now) in tail)
  {
    var kept := NewUserProducts(user, names);
    var tail := MapUser(kept, now);
    forall j | 0 <= j < |tail| ensures tail[j].categoryId.None? && Lower(tail[j].name) !in names {
      assert kept[j] in kept;
    }
    forall p | p in user && Lower(p.name.value) !in names ensures FromUser(p, now) in tail {
      var k :| 0 <= k < |kept| && kept[k] == p;
      assert tail[k] == FromUser(p, now);
    }
  }

  /**
   * Shop products are not de-duplicated among themselves: when no shop
   * name collides with an admin name, all of them are carried over, so
   * two shop products with the same name both land in the merge.
   */
  lemma UserDuplicatesKept(admin: seq<LegacyProduct>, user: seq<LegacyProduct>, now: int)
    requires AllNamed(admin) && AllNamed(user)
    requires forall i :: 0 <= i < |user| ==> Lower(user[i].name.value) !in AdminNames(admin)
    ensures MigrateProducts(admin, user, now) == Ok(MapAdmin(admin, now) + MapUser(user, now))
    ensures |MigrateProducts(admin, user, now).value| == |admin| + |user|
  {
    assert NewUserProducts(user, AdminNames(admin)) == user;
  }

  // ---------------------------------------------------------------------
  // Categories
  // ---------------------------------------------------------------------

  datatype LegacyCategory = LegacyCategory(name: Option<string>, slug: Option<string>, createdAt: Option<int>, updatedAt: Option<int>)

  /**
   * `migrateCategories`, for one category: a missing slug is generated
   * from the name (a missing name then stops the script) and a missing
   * update stamp is taken from the creation stamp or the current time.
   * The second component says whether anything was written.
   */
  function MigrateCategory(c: LegacyCategory, now: int): (r: Result<(LegacyCategory, bool)>)
    ensures r.Err? <==> !Truthy(c.slug) && c.name.None?
    ensures r.Err? ==> r == Err(Crash(NO_NAME))
    ensures r.Ok? ==> var (d, written) := r.value;
      d.slug.Some? && d.updatedAt.Some? && d.name == c.name && d.createdAt == c.createdAt &&
      (written <==> !Truthy(c.slug) || c.updatedAt.None?) &&
      (Truthy(d.slug) <==> Truthy(c.slug) || Kept(Lower(c.name.value)) != "") &&
      (Truthy(c.slug) ==> d.slug == c.slug) &&
      (!Truthy(c.slug) ==> IsSlug(d.slug.value) && Kept(d.slug.value) == Kept(Lower(c.name.value))) &&
      (c.updatedAt.Some? ==> d.updatedAt == c.updatedAt)
  {
    if !Truthy(c.slug) && c.name.None? then Err(Crash(NO_NAME))
    else
      var slug := if Truthy(c.slug) then c.slug else Some(GenerateSlug(c.name.value));
      var updatedAt := if c.updatedAt.Some? then c.updatedAt else Some(c.createdAt.GetOr(now));
      if !Truthy(c.slug) then
        SlugKeepsLettersAndDigits(c.name.value);
        EmptySlugIffNoLettersOrDigits(c.name.value);
        Ok((c.(slug := slug, updatedAt := updatedAt), true))
      else
        var d := c.(updatedAt := updatedAt);
        Ok((d, c.updatedAt.None?))
  }

  /**
   * A second run leaves a migrated category as it is, and writes it again
   * only when its slug came out empty, which is regenerated, empty again,
   * on every run.
   */
  lemma CategoryMigrationSettles(c: LegacyCategory, now: int, later: int)
    requires MigrateCategory(c, now).Ok?
    ensures var d := MigrateCategory(c, now).value.0;
      var again := MigrateCategory(d, later);
      again.Ok? && again.value.0 == d && (again.value.1 <==> !Truthy(d.slug))
  {
    var d := MigrateCategory(c, now).value.0;
    if !Truthy(d.slug) {
      EmptySlugIffNoLettersOrDigits(c.name.value);
    }
  }

  // ---------------------------------------------------------------------
  // Orders
  // ---------------------------------------------------------------------

  /** A line of an old order; `quantity` stands for the fields a line carries unchanged. */
  datatype LegacyLine = LegacyLine(productId: Option<Id>, product: Option<Id>, quantity: Option<int>)

  datatype StatusEntry = StatusEntry(status: Option<string>, timestamp: int)

  datatype LegacyOrder = LegacyOrder(
    userId: Option<Id>,
    user: Option<Id>,
    products: Option<seq<LegacyLine>>,
    items: Option<seq<LegacyLine>>,
    currency: Option<string>,
    status: Option<string>,
    statusHistory: Option<seq<StatusEntry>>,
    createdAt: Option<int>,
    updatedAt: Option<int>)

  /** The fields one order's `$set` carries; `None` is a field it leaves out. */
  datatype OrderUpdates = OrderUpdates(
    user: Option<Id>,
    userId: Option<Id>,
    lines: Option<seq<LegacyLine>>,
    currency: Option<string>,
    updatedAt: Option<int>,
    statusHistory: Option<seq<StatusEntry>>)

  /** Both product references of a line set to `productId || product`. */
  function LinkLine(l: LegacyLine): (r: LegacyLine)
    ensures r.productId == r.product == (if l.productId.Some? then l.productId else l.product)
    ensures r.quantity == l.quantity
  {
    var id := if l.productId.Some? then l.productId else l.product;
    l.(productId := id, product := id)
  }

  function LinkLines(lines: seq<LegacyLine>): (r: seq<LegacyLine>)
    ensures |r| == |lines| && forall i :: 0 <= i < |lines| ==> r[i] == LinkLine(lines[i])
  {
    seq(|lines|, i requires 0 <= i < |lines| => LinkLine(lines[i]))
  }

  /** The fields `migrateOrders` sets on one order. */
  function OrderUpdatesOf(o: LegacyOrder, now: int): OrderUpdates
  {
    OrderUpdates(
      if o.userId.Some? && o.user.None? then o.userId else None,
      if o.user.Some? && o.userId.None? then o.user else None,
      if o.products.Some? && |o.products.value| > 0 then Some(LinkLines(o.products.value)) else None,
      if !Truthy(o.currency) then Some("INR") else None,
      if o.updatedAt.None? then Some(o.createdAt.GetOr(now)) else None,
      if o.statusHistory.None? then Some([StatusEntry(o.status, o.createdAt.GetOr(now))]) else None)
  }

  predicate AnyOrderUpdate(u: OrderUpdates)
  {
    u.user.Some? || u.userId.Some? || u.lines.Some? || u.currency.Some? || u.updatedAt.Some? || u.statusHistory.Some?
  }

  /** `$set`: the relinked lines go to both `products` and `items`. */
  function ApplyOrderUpdates(o: LegacyOrder, u: OrderUpdates): LegacyOrder
  {
    o.(user := if u.user.Some? then u.user else o.user,
       userId := if u.userId.Some? then u.userId else o.userId,
       products := if u.lines.Some? then u.lines else o.products,
       items := if u.lines.Some? then u.lines else o.items,
       currency := if u.currency.Some? then u.currency else o.currency,
       updatedAt := if u.updatedAt.Some? then u.updatedAt else o.updatedAt,
       statusHistory := if u.statusHistory.Some? then u.statusHistory else o.statusHistory)
  }

  /**
   * `migrateOrders`, for one order: the stored order afterwards and
   * whether it was written. The user pair is mirrored when one side is
   * missing, every line of a non-empty list points at
   * `productId || product` under both names and is copied to `items`,
   * and a missing currency, update stamp or status history is filled in,
   * the history with the current status.
   */
  function MigrateOrder(o: LegacyOrder, now: int): (r: (LegacyOrder, bool))
    ensures var (d, written) := r;
      (written <==> AnyOrderUpdate(OrderUpdatesOf(o, now))) &&
      (o.userId.Some? || o.user.Some? ==> d.userId.Some? && d.user.Some?) &&
      (o.userId.Some? && o.user.Some? ==> d.userId == o.userId && d.user == o.user) &&
      (o.products.Some? && |o.products.value| > 0 ==>
         d.products == d.items && d.products.Some? && |d.products.value| == |o.products.value| &&
         forall i :: 0 <= i < |o.products.value| ==>
           d.products.value[i].productId == d.products.value[i].product == LinkLine(o.products.value[i]).product) &&
      Truthy(d.currency) && d.updatedAt.Some? && d.statusHistory.Some? &&
      (o.statusHistory.None? ==> d.statusHistory == Some([StatusEntry(o.status, o.createdAt.GetOr(now))])) &&
      (o.statusHistory.Some? ==> d.statusHistory == o.statusHistory) &&
      d.status == o.status && d.createdAt == o.createdAt
  {
    var u := OrderUpdatesOf(o, now);
    (ApplyOrderUpdates(o, u), AnyOrderUpdate(u))
  }

  lemma LinkLineIdempotent(l: LegacyLine)
    ensures LinkLine(LinkLine(l)) == LinkLine(l)
  {
  }

  /**
   * Running the order rule again changes nothing, but an order with lines
   * is written again on every run, since its lines are always relinked.
   */
  lemma OrderMigrationSettles(o: LegacyOrder, now: int, later: int)
    ensures var d := MigrateOrder(o, now).0;
      var again := MigrateOrder(d, later);
      again.0 == d && (again.1 <==> d.products.Some? && |d.products.value| > 0)
  {
    var d := MigrateOrder(o, now).0;
    if o.products.Some? && |o.products.value| > 0 {
      var linked := d.products.value;
      var again := LinkLines(linked);
      forall i | 0 <= i < |again| ensures again[i] == linked[i] {
        LinkLineIdempotent(o.products.value[i]);
      }
      assert again == linked;
    }
  }

  // ---------------------------------------------------------------------
  // Reviews
  // ---------------------------------------------------------------------

  datatype LegacyReview = LegacyReview(
    userId: Option<Id>,
    user: Option<Id>,
    productId: Option<Id>,
    product: Option<Id>,
    reviewText: Option<string>,
    comment: Option<string>,
    isApproved: Option<bool>,
    isVerifiedPurchase: Option<bool>,
    helpfulCount: Option<int>,
    createdAt: Option<int>,
    updatedAt: Option<int>)

  /** The id of a pair's missing side, when only the other side is set. */
  function MirrorId(from: Option<Id>, to: Option<Id>): (r: Option<Id>)
    ensures r.Some? <==> from.Some? && to.None?
    ensures r.Some? ==> r == from
  {
    if from.Some? && to.None? then from else None
  }

  /** The text of a pair's empty side, when only the other side has text. */
  function MirrorText(from: Option<string>, to: Option<string>): (r: Option<string>)
    ensures r.Some? <==> Truthy(from) && !Truthy(to)
    ensures r.Some? ==> r == from
  {
    if Truthy(from) && !Truthy(to) then from else None
  }

  /** `migrateReviews`, for one review: every field it sets, each only where missing. */
  function MigrateReviewFields(r: LegacyReview, now: int): (d: LegacyReview)
    ensures d.createdAt == r.createdAt
  {
    var user := MirrorId(r.userId, r.user);
    var userId := MirrorId(r.user, r.userId);
    var product := MirrorId(r.productId, r.product);
    var productId := MirrorId(r.product, r.productId);
    var comment := MirrorText(r.reviewText, r.comment);
    var text := MirrorText(r.comment, r.reviewText);
    r.(user := if user.Some? then user else r.user,
       userId := if userId.Some? then userId else r.userId,
       product := if product.Some? then product else r.product,
       productId := if productId.Some? then productId else r.productId,
       comment := if comment.Some? then comment else r.comment,
       reviewText := if text.Some? then text else r.reviewText,
       isApproved := if r.isApproved.None? then Some(true) else r.isApproved,
       isVerifiedPurchase := if r.isVerifiedPurchase.None? then Some(false) else r.isVerifiedPurchase,
       helpfulCount := if r.helpfulCount.None? then Some(0) else r.helpfulCount,
       updatedAt := if r.updatedAt.None? then Some(r.createdAt.GetOr(now)) else r.updatedAt)
  }

  /** `Object.keys(updates).length > 0`: some pair is half set or some defaulted field is missing. */
  predicate ReviewNeedsUpdate(r: LegacyReview)
  {
    MirrorId(r.userId, r.user).Some? || MirrorId(r.user, r.userId).Some? ||
    MirrorId(r.productId, r.product).Some? || MirrorId(r.product, r.productId).Some? ||
    MirrorText(r.reviewText, r.comment).Some? || MirrorText(r.comment, r.reviewText).Some? ||
    r.isApproved.None? || r.isVerifiedPurchase.None? || r.helpfulCount.None? || r.updatedAt.None?
  }

  /**
   * One review after the migration, and whether it was written: a review
   * is written exactly when some field was missing, and then every
   * written field was a missing one. Each pair with one side set has both
   * sides equal; a pair with both sides set is left as it was.
   */
  function MigrateReview(r: LegacyReview, now: int): (res: (LegacyReview, bool))
    ensures var (d, written) := res;
      (written <==> d != r) &&
      (r.userId.Some? || r.user.Some? ==> d.userId.Some? && d.user.Some?) &&
      (r.userId.None? || r.user.None? ==> d.userId == d.user) &&
      (r.productId.Some? || r.product.Some? ==> d.productId.Some? && d.product.Some?) &&
      (r.productId.None? || r.product.None? ==> d.productId == d.product) &&
      (Truthy(r.reviewText) || Truthy(r.comment) ==> Truthy(d.reviewText) && Truthy(d.comment)) &&
      (Truthy(r.reviewText) && Truthy(r.comment) ==> d.reviewText == r.reviewText && d.comment == r.comment) &&
      d.isApproved == Some(r.isApproved.GetOr(true)) &&
      d.isVerifiedPurchase == Some(r.isVerifiedPurchase.GetOr(false)) &&
      d.helpfulCount == Some(r.helpfulCount.GetOr(0)) &&
      d.updatedAt.Some? && (r.updatedAt.Some? ==> d.updatedAt == r.updatedAt)
  {
    (MigrateReviewFields(r, now), ReviewNeedsUpdate(r))
  }

  /** A second run finds nothing missing and writes nothing. */
  lemma ReviewMigrationSettles(r: LegacyReview, now: int, later: int)
    ensures var d := MigrateReview(r, now).0;
      MigrateReview(d, later) == (d, false)
  {
  }
}
