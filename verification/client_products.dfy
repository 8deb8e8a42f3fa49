/**
 * The shop client's view of a product, as the cart and the wishlist
 * receive it from a page, and the identifier both derive from it.
 */
module ClientProducts {

  import opened Base
  import opened Text

  /** A product object as a page hands it over; `mongoId` is its `_id`. */
  datatype ProductLike = ProductLike(
    mongoId: Option<string>,
    id: Option<string>,
    productId: Option<string>,
    slug: Option<string>,
    name: Option<string>,
    price: Option<int>,
    category: Option<string>,
    images: Option<seq<string>>,
    image: Option<string>,
    stock: Option<int>)

  /** `.replace(/\s+/g, '-')`: each run of whitespace becomes one dash. */
  function DashSpaces(s: string): (r: string)
    ensures forall i :: 0 <= i < |r| ==> !IsSpace(r[i])
    ensures r == [] <==> s == []
    ensures |r| <= |s|
    ensures (forall i :: 0 <= i < |s| ==> !IsSpace(s[i])) ==> r == s
    decreases |s|
  {
    if s == [] then []
    else if !IsSpace(s[0]) then [s[0]] + DashSpaces(s[1..])
    else "-" + DashSpaces(TrimStart(s[1..]))
  }

  /** The name-derived identifier: lower-cased, whitespace runs made dashes. */
  function NameKey(name: string): (r: string)
    ensures |r| <= |name| && (r == [] <==> name == [])
    ensures forall i :: 0 <= i < |r| ==> !IsSpace(r[i])
  {
    DashSpaces(Lower(name))
  }

  /**
   * `deriveProductId`: the first non-empty of `_id`, `id`, `productId` and
   * `slug`, else the name-derived key, else nothing; no product gives
   * nothing.
   */
  function DeriveProductId(p: Option<ProductLike>): (r: Option<string>)
    ensures r.Some? ==> r.value != ""
    ensures p.None? ==> r.None?
    ensures p.Some? ==> (r.None? <==>
      !Truthy(p.value.mongoId) && !Truthy(p.value.id) && !Truthy(p.value.productId) &&
      !Truthy(p.value.slug) && !Truthy(p.value.name))
    ensures p.Some? && Truthy(p.value.mongoId) ==> r == p.value.mongoId
    ensures p.Some? && !Truthy(p.value.mongoId) && Truthy(p.value.id) ==> r == p.value.id
    ensures p.Some? && !Truthy(p.value.mongoId) && !Truthy(p.value.id) && Truthy(p.value.productId) ==>
      r == p.value.productId
    ensures (p.Some? && !Truthy(p.value.mongoId) && !Truthy(p.value.id) && !Truthy(p.value.productId) &&
             Truthy(p.value.slug)) ==> r == p.value.slug
    ensures (p.Some? && !Truthy(p.value.mongoId) && !Truthy(p.value.id) && !Truthy(p.value.productId) &&
             !Truthy(p.value.slug) && Truthy(p.value.name)) ==> r == Some(NameKey(p.value.name.value))
  {
    match p
    case None => None
    case Some(q) =>
      var fromName := if Truthy(q.name) then Some(NameKey(q.name.value)) else None;
      var raw := JsOr(q.mongoId, JsOr(q.id, JsOr(q.productId, JsOr(q.slug, fromName))));
      if Truthy(raw) then raw else None
  }

  /** A name key is its own key: deriving from a derived identifier changes nothing. */
  lemma NameKeyIdempotent(name: string)
    ensures NameKey(NameKey(name)) == NameKey(name)
  {
    var k := NameKey(name);
    assert forall i :: 0 <= i < |k| ==> !IsUpperAscii(k[i]) by {
      NoUpperAfterLower(name);
    }
    assert Lower(k) == k by {
      assert forall i :: 0 <= i < |k| ==> Lower(k)[i] == k[i];
    }
  }

  lemma {:induction false} DashSpacesKeepsCase(s: string)
    requires forall i :: 0 <= i < |s| ==> !IsUpperAscii(s[i])
    ensures forall i :: 0 <= i < |DashSpaces(s)| ==> !IsUpperAscii(DashSpaces(s)[i])
    decreases |s|
  {
    if s != [] {
      if !IsSpace(s[0]) {
        DashSpacesKeepsCase(s[1..]);
      } else {
        var t := TrimStart(s[1..]);
        assert forall i :: 0 <= i < |t| ==> t[i] == s[1..][|s| - 1 - |t| + i];
        DashSpacesKeepsCase(t);
      }
    }
  }

  lemma NoUpperAfterLower(name: string)
    ensures forall i :: 0 <= i < |NameKey(name)| ==> !IsUpperAscii(NameKey(name)[i])
  {
    DashSpacesKeepsCase(Lower(name));
  }
}
