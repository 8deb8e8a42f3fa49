/**
 * The shop client's wishlist state: the storage key per user, the
 * product record it keeps, the membership test, and the toggle, both the
 * local one and the one that follows the backend's answer.
 */
module ClientWishlist {

  import opened Base
  import opened Text
  import opened ClientProducts

  const STORAGE_PREFIX: string := "online-annavaram@wishlist"

  /** The signed-in user as the client holds it; `mongoId` is its `_id`. */
  datatype UserRef = UserRef(id: Option<string>, mongoId: Option<string>)

  /** `storageKey`: the prefix, a colon, and the user's `id`, else `_id`, else `guest`. */
  function StorageKey(user: Option<UserRef>): (k: string)
    ensures user.Some? && Truthy(user.value.id) ==> k == STORAGE_PREFIX + ":" + user.value.id.value
    ensures user.Some? && !Truthy(user.value.id) && Truthy(user.value.mongoId) ==>
      k == STORAGE_PREFIX + ":" + user.value.mongoId.value
    ensures user.None? || (!Truthy(user.value.id) && !Truthy(user.value.mongoId)) ==> k == STORAGE_PREFIX + ":guest"
  {
    var suffix := match user
      case None => "guest"
      case Some(u) => OrElse(JsOr(u.id, u.mongoId), "guest");
    STORAGE_PREFIX + ":" + suffix
  }

  /** Two signed-in users with different ids never share a key, and neither shares the guests' key. */
  lemma StorageKeysSeparateUsers(a: UserRef, b: UserRef)
    requires Truthy(a.id) && Truthy(b.id) && a.id != b.id && a.id != Some("guest")
    ensures StorageKey(Some(a)) != StorageKey(Some(b)) && StorageKey(Some(a)) != StorageKey(None)
  {
    var p := STORAGE_PREFIX + ":";
    assert StorageKey(Some(a))[|p|..] == a.id.value;
    assert StorageKey(Some(b))[|p|..] == b.id.value;
    assert StorageKey(None)[|p|..] == "guest";
  }

  /** A wishlist entry. Entries the backend sends may lack either id. */
  datatype WishItem = WishItem(
    id: Option<string>,
    productId: Option<string>,
    name: Option<string>,
    price: Option<int>,
    category: Option<string>,
    slug: Option<string>,
    images: seq<string>,
    image: Option<string>,
    stock: Option<int>)

  /**
   * `normaliseProduct`: nothing without an identifier; otherwise the
   * identifier under both `id` and `productId`, the images or else the
   * single image, and the image or else the first of the images.
   */
  function NormaliseProduct(p: Option<ProductLike>): (r: Option<WishItem>)
    ensures r.Some? <==> DeriveProductId(p).Some?
    ensures r.Some? ==> r.value.id == r.value.productId == DeriveProductId(p) && r.value.name == p.value.name
    ensures r.Some? && p.value.images.Some? ==> r.value.images == p.value.images.value
    ensures r.Some? && p.value.images.None? ==>
      r.value.images == (if Truthy(p.value.image) then [p.value.image.value] else [])
    ensures r.Some? && Truthy(p.value.image) ==> r.value.image == p.value.image
  {
    match DeriveProductId(p)
    case None => None
    case Some(id) =>
      var q := p.value;
      var images := if q.images.Some? then q.images.value else if Truthy(q.image) then [q.image.value] else [];
      var image := if Truthy(q.image) then q.image
                   else if q.images.Some? && |q.images.value| > 0 then Some(q.images.value[0])
                   else None;
      Some(WishItem(Some(id), Some(id), q.name, q.price, q.category, q.slug, images, image, q.stock))
  }

  /** `String(item.productId || item.id)`: an entry with neither id is keyed `"undefined"`. */
  function KeyOf(item: WishItem): (k: string)
    ensures Truthy(item.productId) ==> k == item.productId.value
    ensures !Truthy(item.productId) && item.id.Some? ==> k == item.id.value
    ensures !Truthy(item.productId) && item.id.None? ==> k == "undefined"
  {
    var raw := JsOr(item.productId, item.id);
    if raw.Some? then raw.value else "undefined"
  }

  predicate Listed(items: seq<WishItem>, id: string)
  {
    exists i :: 0 <= i < |items| && KeyOf(items[i]) == id
  }

  /** What `isWishlisted` is asked about: an identifier, or a product. */
  datatype Query = ById(text: string) | ByProduct(product: Option<ProductLike>)

  /** `isWishlisted`: false without a usable identifier, else whether some entry has that key. */
  function IsWishlisted(items: seq<WishItem>, q: Query): (b: bool)
    ensures q.ById? ==> (b <==> q.text != "" && Listed(items, q.text))
    ensures q.ByProduct? ==> (b <==> DeriveProductId(q.product).Some? && Listed(items, DeriveProductId(q.product).value))
  {
    var id := match q
      case ById(s) => if s != "" then Some(s) else None
      case ByProduct(p) => DeriveProductId(p);
    id.Some? && exists i :: 0 <= i < |items| && KeyOf(items[i]) == id.value
  }

  /** Every entry without that key, in order. */
  function Without(items: seq<WishItem>, id: string): (r: seq<WishItem>)
    ensures forall x :: x in r <==> x in items && KeyOf(x) != id
    ensures !Listed(r, id)
    ensures !Listed(items, id) ==> r == items
  {
    if items == [] then []
    else
      assert items == [items[0]] + items[1..];
      var rest := Without(items[1..], id);
      if KeyOf(items[0]) != id then
        var r := [items[0]] + rest;
        assert forall i :: 1 <= i < |r| ==> r[i] == rest[i - 1];
        r
      else rest
  }

  const NO_PRODUCT: string := "Unable to identify product to wishlist"

  /** The local toggle: drop every entry of the product if there is one, else append the product. */
  function ToggleLocal(items: seq<WishItem>, parsed: WishItem): (r: seq<WishItem>)
    requires parsed.productId.Some? && parsed.productId.value != ""
  {
    var id := parsed.productId.value;
    if Listed(items, id) then Without(items, id) else items + [parsed]
  }

  /** The toggle after the backend's answer: append on `inWishlist`, without looking for a copy; else drop every entry. */
  function ToggleFromBackend(items: seq<WishItem>, parsed: WishItem, inWishlist: bool): (r: seq<WishItem>)
    requires parsed.productId.Some?
    ensures inWishlist ==> r == items + [parsed]
    ensures !inWishlist ==> !Listed(r, parsed.productId.value) &&
                            forall x :: x in r <==> x in items && KeyOf(x) != parsed.productId.value
  {
    if inWishlist then items + [parsed] else Without(items, parsed.productId.value)
  }

  /**
   * `toggleWishlist`: a product without an identifier is refused; with the
   * backend in use and answering (`backend` holds its `inWishlist`) its
   * answer decides, otherwise the local toggle applies.
   */
  function ToggleWishlist(items: seq<WishItem>, product: Option<ProductLike>, hasToken: bool, useLocal: bool,
                          backend: Option<bool>): (r: Result<seq<WishItem>>)
    ensures r.Err? <==> DeriveProductId(product).None?
    ensures r.Err? ==> r == Err(Crash(NO_PRODUCT))
    ensures r.Ok? && !useLocal && hasToken && backend.Some? ==>
      r.value == ToggleFromBackend(items, NormaliseProduct(product).value, backend.value)
    ensures r.Ok? && (useLocal || !hasToken || backend.None?) ==>
      r.value == ToggleLocal(items, NormaliseProduct(product).value)
  {
    match NormaliseProduct(product)
    case None => Err(Crash(NO_PRODUCT))
    case Some(parsed) =>
      if !useLocal && hasToken && backend.Some? then Ok(ToggleFromBackend(items, parsed, backend.value))
      else Ok(ToggleLocal(items, parsed))
  }

  /** The local toggle flips membership, and the entry it appends is keyed by the product's identifier. */
  lemma LocalToggleFlips(items: seq<WishItem>, product: ProductLike)
    requires DeriveProductId(Some(product)).Some?
    ensures var parsed := NormaliseProduct(Some(product)).value;
      var id := DeriveProductId(Some(product)).value;
      KeyOf(parsed) == id &&
      (Listed(ToggleLocal(items, parsed), id) <==> !Listed(items, id))
  {
    var parsed := NormaliseProduct(Some(product)).value;
    var id := DeriveProductId(Some(product)).value;
    var r := ToggleLocal(items, parsed);
    if !Listed(items, id) {
      assert KeyOf(r[|items|]) == id;
    }
  }

  /** Toggling an unlisted product twice locally gives the list back. */
  lemma LocalToggleTwice(items: seq<WishItem>, product: ProductLike)
    requires DeriveProductId(Some(product)).Some?
    requires !Listed(items, DeriveProductId(Some(product)).value)
    ensures var parsed := NormaliseProduct(Some(product)).value;
      ToggleLocal(ToggleLocal(items, parsed), parsed) == items
  {
    var parsed := NormaliseProduct(Some(product)).value;
    var id := DeriveProductId(Some(product)).value;
    var once := items + [parsed];
    assert KeyOf(once[|items|]) == id;
    WithoutLast(items, parsed, id);
  }

  lemma {:induction false} WithoutLast(items: seq<WishItem>, x: WishItem, id: string)
    requires !Listed(items, id) && KeyOf(x) == id
    ensures Without(items + [x], id) == items
  {
    if items == [] {
      assert [] + [x] == [x];
    } else {
      assert (items + [x])[1..] == items[1..] + [x];
      WithoutLast(items[1..], x, id);
    }
  }

  /** With the backend in use, an `inWishlist` answer for a product already listed adds a second entry for it. */
  lemma BackendAddDuplicates(items: seq<WishItem>, product: ProductLike)
    requires DeriveProductId(Some(product)).Some?
    requires Listed(items, DeriveProductId(Some(product)).value)
    ensures var r := ToggleWishlist(items, Some(product), true, false, Some(true));
      r.Ok? && |r.value| == |items| + 1 && r.value[|items|] == NormaliseProduct(Some(product)).value
  {
  }
}
