/**
 * What both cart services share: finding or opening the user's active
 * cart, the items of a cart, retiring a cart after checkout, the shape of
 * a cart snapshot and the arithmetic of its totals.
 */
module Carts {

  import opened Base
  import opened Ids
  import opened Catalog
  import opened Shop

  /** Index of the user's first active cart (`find_one(user, status == "active")`). */
  function FindActiveCart(carts: seq<Cart>, user: Id): (r: Option<nat>)
    ensures r.Some? ==> r.value < |carts| && carts[r.value].user == user && carts[r.value].status == Active
    ensures r.Some? ==> forall j :: 0 <= j < r.value ==> !(carts[j].user == user && carts[j].status == Active)
    ensures r.None? ==> forall j :: 0 <= j < |carts| ==> !(carts[j].user == user && carts[j].status == Active)
  {
    if carts == [] then None
    else if carts[0].user == user && carts[0].status == Active then Some(0)
    else
      match FindActiveCart(carts[1..], user)
      case None => None
      case Some(i) => Some(i + 1)
  }

  /** A cart id no stored cart uses: what a freshly generated object id is. */
  predicate FreshCartId(db: Db, id: Id)
  {
    forall i :: 0 <= i < |db.carts| ==> db.carts[i].id != id
  }

  /**
   * `getOrCreateActiveCart`: the user's existing active cart, untouched, or
   * else a new active cart appended under a fresh id.
   */
  function GetOrCreateActiveCart(db: Db, user: Id, freshId: Id): (r: (Db, Cart))
    ensures r.1.user == user && r.1.status == Active
    ensures FindActiveCart(r.0.carts, user) == Some(IndexOfCart(r.0, r.1))
    ensures FindActiveCart(db.carts, user).Some? ==> r.0 == db && r.1 == db.carts[FindActiveCart(db.carts, user).value]
    ensures FindActiveCart(db.carts, user).None? ==>
      r.1 == Cart(freshId, user, Active) && r.0 == db.(carts := db.carts + [r.1])
  {
    match FindActiveCart(db.carts, user)
    case Some(i) => (db, db.carts[i])
    case None =>
      var cart := Cart(freshId, user, Active);
      AppendedCartFound(db.carts, user, cart);
      (db.(carts := db.carts + [cart]), cart)
  }

  /** Where the cart `GetOrCreateActiveCart` hands back sits: the first active cart of its user. */
  function IndexOfCart(db: Db, cart: Cart): nat
  {
    match FindActiveCart(db.carts, cart.user)
    case Some(i) => i
    case None => |db.carts|
  }

  /** A cart appended after a user's inactive carts is the one the next lookup finds. */
  lemma {:induction false} AppendedCartFound(carts: seq<Cart>, user: Id, cart: Cart)
    requires FindActiveCart(carts, user).None?
    requires cart.user == user && cart.status == Active
    ensures FindActiveCart(carts + [cart], user) == Some(|carts|)
  {
    if carts != [] {
      assert (carts + [cart])[1..] == carts[1..] + [cart];
      AppendedCartFound(carts[1..], user, cart);
    }
  }

  /** Asking twice gives the same cart, and the second request writes nothing. */
  lemma GetOrCreateIdempotent(db: Db, user: Id, freshId: Id, otherId: Id)
    ensures var (db1, cart1) := GetOrCreateActiveCart(db, user, freshId);
      GetOrCreateActiveCart(db1, user, otherId) == (db1, cart1)
  {
  }

  /** The lines of one cart, in insertion order (`CartItem.find(cart == id)`). */
  function ItemsOf(items: seq<CartItem>, cart: Id): (r: seq<CartItem>)
    ensures forall i :: 0 <= i < |r| ==> r[i].cart == cart && r[i] in items
    ensures forall it :: it in items && it.cart == cart ==> it in r
    ensures |r| <= |items|
  {
    if items == [] then []
    else
      var rest := ItemsOf(items[1..], cart);
      if items[0].cart == cart then [items[0]] + rest else rest
  }

  /** The lines of every other cart, in order. */
  function WithoutCart(items: seq<CartItem>, cart: Id): (r: seq<CartItem>)
    ensures forall i :: 0 <= i < |r| ==> r[i].cart != cart && r[i] in items
    ensures forall it :: it in items && it.cart != cart ==> it in r
  {
    if items == [] then []
    else
      var rest := WithoutCart(items[1..], cart);
      if items[0].cart != cart then [items[0]] + rest else rest
  }

  /** Removing one cart's lines leaves every other cart's lines exactly as they were. */
  lemma {:induction false} WithoutCartKeepsOthers(items: seq<CartItem>, cart: Id, other: Id)
    ensures ItemsOf(WithoutCart(items, cart), cart) == []
    ensures other != cart ==> ItemsOf(WithoutCart(items, cart), other) == ItemsOf(items, other)
  {
    if items != [] {
      WithoutCartKeepsOthers(items[1..], cart, other);
    }
  }

  /** Stamps every cart with the given id as converted. */
  function ConvertCart(carts: seq<Cart>, cart: Id): (r: seq<Cart>)
    ensures |r| == |carts|
    ensures forall i :: 0 <= i < |r| ==> r[i] == if carts[i].id == cart then carts[i].(status := Converted) else carts[i]
  {
    if carts == [] then []
    else [if carts[0].id == cart then carts[0].(status := Converted) else carts[0]] + ConvertCart(carts[1..], cart)
  }

  /**
   * `clearCart`: every line of the cart is deleted and the cart is marked
   * converted; other carts and their lines, and every other collection, stay.
   */
  function ClearCart(db: Db, cart: Id): (r: Db)
    ensures ItemsOf(r.cartItems, cart) == []
    ensures forall other :: other != cart ==> ItemsOf(r.cartItems, other) == ItemsOf(db.cartItems, other)
    ensures |r.carts| == |db.carts|
    ensures forall i :: 0 <= i < |r.carts| ==>
      r.carts[i] == if db.carts[i].id == cart then db.carts[i].(status := Converted) else db.carts[i]
    ensures r.(carts := db.carts, cartItems := db.cartItems) == db
  {
    forall other | other != cart
      ensures ItemsOf(WithoutCart(db.cartItems, cart), other) == ItemsOf(db.cartItems, other)
    {
      WithoutCartKeepsOthers(db.cartItems, cart, other);
    }
    WithoutCartKeepsOthers(db.cartItems, cart, cart);
    db.(carts := ConvertCart(db.carts, cart), cartItems := WithoutCart(db.cartItems, cart))
  }

  /** After checkout the converted cart is never again anyone's active cart. */
  lemma ClearedCartRetired(db: Db, cart: Id, user: Id)
    ensures var r := ClearCart(db, cart);
      FindActiveCart(r.carts, user).Some? ==> r.carts[FindActiveCart(r.carts, user).value].id != cart
  {
  }

  /**
   * The unique `(cart, product)` index: no cart holds two lines for the same
   * product, and line ids are distinct.
   */
  predicate WellFormedLines(items: seq<CartItem>)
  {
    forall i, j :: 0 <= i < j < |items| ==>
      items[i].id != items[j].id && (items[i].cart == items[j].cart ==> items[i].product != items[j].product)
  }

  /** Sum of the quantities of some cart lines. */
  function CartQuantity(items: seq<CartItem>): int
  {
    if items == [] then 0 else items[0].quantity + CartQuantity(items[1..])
  }

  /** What some cart lines cost at the prices frozen into them. */
  function CartValue(items: seq<CartItem>): int
  {
    if items == [] then 0 else items[0].priceAtAddition * items[0].quantity + CartValue(items[1..])
  }

  /** The live product fields a snapshot line repeats. */
  datatype Live = Live(name: string, slug: string, stock: int, isActive: bool, category: Option<string>, images: seq<string>)

  function LiveOf(p: Product): Live
  {
    Live(p.name, p.slug, p.stock, p.isActive, p.category, p.images)
  }

  /** One line of a cart snapshot; `live` is absent when the product no longer exists. */
  datatype SnapshotItem = SnapshotItem(id: Id, productId: Option<Id>, quantity: int, unitPrice: nat, subtotal: int, live: Option<Live>)

  datatype Totals = Totals(quantity: int, amount: int)

  datatype Snapshot = Snapshot(items: seq<SnapshotItem>, totals: Totals)

  /** A snapshot line stands for a cart line: same id, same quantity, the frozen price and its subtotal. */
  predicate Mirrors(s: SnapshotItem, it: CartItem)
  {
    s.id == it.id && s.quantity == it.quantity && s.unitPrice == it.priceAtAddition &&
    s.subtotal == it.priceAtAddition * it.quantity
  }

  /** The totals loop (`for item in items: totals += ...`, `items.reduce(...)`), from a running total. */
  function Accumulate(items: seq<SnapshotItem>, acc: Totals): Totals
  {
    if items == [] then acc
    else Accumulate(items[1..], Totals(acc.quantity + items[0].quantity, acc.amount + items[0].subtotal))
  }

  /** The totals loop over mirrored lines adds up the cart's quantity and value. */
  lemma {:induction false} AccumulateMirrors(snap: seq<SnapshotItem>, items: seq<CartItem>, acc: Totals)
    requires |snap| == |items|
    requires forall i :: 0 <= i < |snap| ==> Mirrors(snap[i], items[i])
    ensures Accumulate(snap, acc) == Totals(acc.quantity + CartQuantity(items), acc.amount + CartValue(items))
  {
    if snap != [] {
      AccumulateMirrors(snap[1..], items[1..], Totals(acc.quantity + snap[0].quantity, acc.amount + snap[0].subtotal));
    }
  }

  /** The first error a per-line check reports, scanning in order. */
  function FirstError(items: seq<SnapshotItem>, check: SnapshotItem -> Option<Error>): (r: Result<()>)
    ensures r.Ok? <==> forall i :: 0 <= i < |items| ==> check(items[i]).None?
    ensures r.Err? ==> exists i :: 0 <= i < |items| && check(items[i]) == Some(r.error) &&
                                   forall j :: 0 <= j < i ==> check(items[j]).None?
  {
    if items == [] then Ok(())
    else if check(items[0]).Some? then Err(check(items[0]).value)
    else
      var r := FirstError(items[1..], check);
      assert forall i :: 1 <= i < |items| ==> items[i] == items[1..][i - 1];
      if r.Err? then
        var k :| 0 <= k < |items[1..]| && check(items[1..][k]) == Some(r.error) &&
                 forall j :: 0 <= j < k ==> check(items[1..][j]).None?;
        assert check(items[k + 1]) == Some(r.error);
        r
      else r
  }

  /** Units of a product a cart holds, summed over its lines. */
  function Held(items: seq<CartItem>, cart: Id, product: Id): int
  {
    if items == [] then 0 else Share(items[0], cart, product) + Held(items[1..], cart, product)
  }

  /** What one line contributes to `Held`. */
  function Share(it: CartItem, cart: Id, product: Id): int
  {
    if it.cart == cart && it.product == product then it.quantity else 0
  }

  lemma {:induction false} HeldAppend(items: seq<CartItem>, x: CartItem, cart: Id, product: Id)
    ensures Held(items + [x], cart, product) == Held(items, cart, product) + Share(x, cart, product)
  {
    if items != [] {
      assert (items + [x])[1..] == items[1..] + [x];
      HeldAppend(items[1..], x, cart, product);
    }
  }

  lemma {:induction false} HeldUpdate(items: seq<CartItem>, i: nat, x: CartItem, cart: Id, product: Id)
    requires i < |items|
    ensures Held(items[i := x], cart, product) == Held(items, cart, product) - Share(items[i], cart, product) + Share(x, cart, product)
  {
    if i > 0 {
      assert items[i := x][1..] == items[1..][i - 1 := x];
      HeldUpdate(items[1..], i - 1, x, cart, product);
    } else {
      assert items[i := x][1..] == items[1..];
    }
  }

  /** The sequence without its `i`-th element. */
  function RemoveAt<T>(s: seq<T>, i: nat): (r: seq<T>)
    requires i < |s|
    ensures |r| == |s| - 1
    ensures forall j :: 0 <= j < i ==> r[j] == s[j]
    ensures forall j :: i <= j < |r| ==> r[j] == s[j + 1]
  {
    s[..i] + s[i + 1..]
  }

  lemma {:induction false} HeldRemove(items: seq<CartItem>, i: nat, cart: Id, product: Id)
    requires i < |items|
    ensures Held(RemoveAt(items, i), cart, product) == Held(items, cart, product) - Share(items[i], cart, product)
  {
    if i > 0 {
      assert RemoveAt(items, i)[1..] == RemoveAt(items[1..], i - 1);
      HeldRemove(items[1..], i - 1, cart, product);
    } else {
      assert RemoveAt(items, i) == items[1..];
    }
  }

  /** Index of the first line of a cart for a product (`find_one(cart, product)`). */
  function FindLine(items: seq<CartItem>, cart: Id, product: Id): (r: Option<nat>)
    ensures r.Some? ==> r.value < |items| && items[r.value].cart == cart && items[r.value].product == product
    ensures r.None? ==> forall j :: 0 <= j < |items| ==> !(items[j].cart == cart && items[j].product == product)
  {
    if items == [] then None
    else if items[0].cart == cart && items[0].product == product then Some(0)
    else
      match FindLine(items[1..], cart, product)
      case None => None
      case Some(i) => Some(i + 1)
  }

  /** Index of the line with a given id, provided it belongs to the given cart (`find_one(id, cart)`). */
  function FindItem(items: seq<CartItem>, id: Id, cart: Id): (r: Option<nat>)
    ensures r.Some? ==> r.value < |items| && items[r.value].id == id && items[r.value].cart == cart
    ensures r.None? ==> forall j :: 0 <= j < |items| ==> !(items[j].id == id && items[j].cart == cart)
  {
    if items == [] then None
    else if items[0].id == id && items[0].cart == cart then Some(0)
    else
      match FindItem(items[1..], id, cart)
      case None => None
      case Some(i) => Some(i + 1)
  }

  /** Every stored line holds at least one unit (the `quantity >= 1` bound). */
  predicate PositiveLines(items: seq<CartItem>)
  {
    forall i :: 0 <= i < |items| ==> items[i].quantity >= 1
  }

  /** A line id no stored line uses. */
  predicate FreshItemId(items: seq<CartItem>, id: Id)
  {
    forall i :: 0 <= i < |items| ==> items[i].id != id
  }

  /** With no line for the product in the cart, the cart holds none of it. */
  lemma {:induction false} HeldNone(items: seq<CartItem>, cart: Id, product: Id)
    requires FindLine(items, cart, product).None?
    ensures Held(items, cart, product) == 0
  {
    if items != [] {
      HeldNone(items[1..], cart, product);
    }
  }

  /** In well-formed lines, the line `FindLine` finds is the only one: it alone makes up `Held`. */
  lemma {:induction false} HeldSingle(items: seq<CartItem>, cart: Id, product: Id)
    requires WellFormedLines(items)
    requires FindLine(items, cart, product).Some?
    ensures Held(items, cart, product) == items[FindLine(items, cart, product).value].quantity
  {
    var i := FindLine(items, cart, product).value;
    if i == 0 {
      assert FindLine(items[1..], cart, product).None? by {
        forall j | 0 <= j < |items[1..]|
          ensures !(items[1..][j].cart == cart && items[1..][j].product == product)
        {
          assert items[1..][j] == items[j + 1];
        }
      }
      HeldNone(items[1..], cart, product);
    } else {
      HeldSingle(items[1..], cart, product);
    }
  }

  /** Deleting a line of one cart leaves the lines of every other cart as they were. */
  lemma {:induction false} ItemsOfRemove(items: seq<CartItem>, i: nat, cart: Id)
    requires i < |items| && items[i].cart != cart
    ensures ItemsOf(RemoveAt(items, i), cart) == ItemsOf(items, cart)
  {
    if i > 0 {
      assert RemoveAt(items, i)[1..] == RemoveAt(items[1..], i - 1);
      ItemsOfRemove(items[1..], i - 1, cart);
    } else {
      assert RemoveAt(items, i) == items[1..];
    }
  }

  /** Rewriting a line of one cart leaves the lines of every other cart as they were. */
  lemma {:induction false} ItemsOfUpdate(items: seq<CartItem>, i: nat, x: CartItem, cart: Id)
    requires i < |items| && items[i].cart != cart && x.cart != cart
    ensures ItemsOf(items[i := x], cart) == ItemsOf(items, cart)
  {
    if i > 0 {
      assert items[i := x][1..] == items[1..][i - 1 := x];
      ItemsOfUpdate(items[1..], i - 1, x, cart);
    } else {
      assert items[i := x][1..] == items[1..];
    }
  }

  /** Appending a line of one cart leaves the lines of every other cart as they were. */
  lemma {:induction false} ItemsOfAppend(items: seq<CartItem>, x: CartItem, cart: Id)
    requires x.cart != cart
    ensures ItemsOf(items + [x], cart) == ItemsOf(items, cart)
  {
    if items != [] {
      assert (items + [x])[1..] == items[1..] + [x];
      ItemsOfAppend(items[1..], x, cart);
    }
  }

  /** What every cart endpoint answers with: the status code, the cart and its fresh snapshot. */
  datatype CartReply = CartReply(code: int, cart: Id, status: CartStatus, snapshot: Snapshot)

  /**
   * The merge both `addItem`s perform once the checks pass: an existing
   * line for the product grows by the quantity, keeping its frozen price,
   * and disappears if that leaves it empty; otherwise a new line is
   * appended at the given price.
   */
  function MergeLine(items: seq<CartItem>, cart: Id, product: Id, quantity: int, price: nat, freshId: Id): (r: seq<CartItem>)
    ensures forall c, p :: c != cart || p != product ==> Held(r, c, p) == Held(items, c, p)
    ensures FindLine(items, cart, product).None? ==>
      r == items + [CartItem(freshId, cart, product, quantity, price)] && Held(r, cart, product) == Held(items, cart, product) + quantity
    ensures FindLine(items, cart, product).Some? ==>
      var i := FindLine(items, cart, product).value;
      if items[i].quantity + quantity <= 0 then
        r == RemoveAt(items, i) && Held(r, cart, product) == Held(items, cart, product) - items[i].quantity
      else
        |r| == |items| && r[i] == items[i].(quantity := items[i].quantity + quantity) &&
        Held(r, cart, product) == Held(items, cart, product) + quantity
  {
    match FindLine(items, cart, product)
    case Some(i) =>
      var q := items[i].quantity + quantity;
      if q <= 0 then
        forall c, p ensures Held(RemoveAt(items, i), c, p) == Held(items, c, p) - Share(items[i], c, p) {
          HeldRemove(items, i, c, p);
        }
        RemoveAt(items, i)
      else
        forall c, p ensures Held(items[i := items[i].(quantity := q)], c, p) ==
                            Held(items, c, p) - Share(items[i], c, p) + Share(items[i].(quantity := q), c, p) {
          HeldUpdate(items, i, items[i].(quantity := q), c, p);
        }
        items[i := items[i].(quantity := q)]
    case None =>
      var x := CartItem(freshId, cart, product, quantity, price);
      forall c, p ensures Held(items + [x], c, p) == Held(items, c, p) + Share(x, c, p) {
        HeldAppend(items, x, c, p);
      }
      items + [x]
  }

  /** The merge leaves the lines of every other cart alone. */
  lemma MergeKeepsOtherCarts(items: seq<CartItem>, cart: Id, product: Id, quantity: int, price: nat, freshId: Id, other: Id)
    requires other != cart
    ensures ItemsOf(MergeLine(items, cart, product, quantity, price, freshId), other) == ItemsOf(items, other)
  {
    match FindLine(items, cart, product)
    case Some(i) =>
      if items[i].quantity + quantity <= 0 {
        ItemsOfRemove(items, i, other);
      } else {
        ItemsOfUpdate(items, i, items[i].(quantity := items[i].quantity + quantity), other);
      }
    case None =>
      ItemsOfAppend(items, CartItem(freshId, cart, product, quantity, price), other);
  }

  /**
   * With a fresh line id the merge keeps the unique `(cart, product)` index
   * and, for a positive quantity, keeps every line non-empty.
   */
  lemma MergeKeepsWellFormed(items: seq<CartItem>, cart: Id, product: Id, quantity: int, price: nat, freshId: Id)
    requires WellFormedLines(items) && PositiveLines(items) && FreshItemId(items, freshId)
    requires quantity >= 1
    ensures var r := MergeLine(items, cart, product, quantity, price, freshId);
      WellFormedLines(r) && PositiveLines(r)
  {
  }

  /** Setting a line's quantity in well-formed lines makes that the cart's holding of its product. */
  lemma SetLineHeld(items: seq<CartItem>, i: nat, q: int)
    requires WellFormedLines(items) && i < |items|
    ensures Held(items[i := items[i].(quantity := q)], items[i].cart, items[i].product) == q
  {
    var updated := items[i := items[i].(quantity := q)];
    assert FindLine(updated, items[i].cart, items[i].product) == Some(i) by {
      var k := FindLine(updated, items[i].cart, items[i].product);
      assert updated[i].cart == items[i].cart && updated[i].product == items[i].product;
      assert k.Some?;
    }
    assert WellFormedLines(updated);
    HeldSingle(updated, items[i].cart, items[i].product);
  }
}
