/**
 * The shop client's toast list: a toast identical in message and type to
 * one on screen is not shown twice, a new one goes at the end, and at
 * most three are kept, the oldest going first. The fresh id is a
 * parameter; the timer that later removes a toast is not modelled.
 */
module ClientToasts {

  import opened Base

  const MAX_TOASTS: nat := 3
  const DEFAULT_TYPE: string := "success"

  datatype Toast = Toast(id: int, message: string, kind: string)

  predicate Shown(toasts: seq<Toast>, message: string, kind: string)
  {
    exists i :: 0 <= i < |toasts| && toasts[i].message == message && toasts[i].kind == kind
  }

  /** `showToast(message, type = 'success')`. */
  function ShowToast(toasts: seq<Toast>, message: string, kind: Option<string>, id: int): (r: seq<Toast>)
    ensures Shown(toasts, message, kind.GetOr(DEFAULT_TYPE)) ==> r == toasts
    ensures !Shown(toasts, message, kind.GetOr(DEFAULT_TYPE)) ==>
      |r| == (if |toasts| + 1 > MAX_TOASTS then MAX_TOASTS else |toasts| + 1) &&
      r[|r| - 1] == Toast(id, message, kind.GetOr(DEFAULT_TYPE)) &&
      r[..|r| - 1] == toasts[|toasts| + 1 - |r|..]
  {
    var t := kind.GetOr(DEFAULT_TYPE);
    if exists i :: 0 <= i < |toasts| && toasts[i].message == message && toasts[i].kind == t then toasts
    else
      var updated := toasts + [Toast(id, message, t)];
      if |updated| > MAX_TOASTS then updated[|updated| - MAX_TOASTS..] else updated
  }

  /** `removeToast(id)`: every toast with that id goes, the others keep their order. */
  function RemoveToast(toasts: seq<Toast>, id: int): (r: seq<Toast>)
    ensures forall t :: t in r <==> t in toasts && t.id != id
    ensures |r| <= |toasts|
  {
    if toasts == [] then []
    else
      assert toasts == [toasts[0]] + toasts[1..];
      (if toasts[0].id != id then [toasts[0]] else []) + RemoveToast(toasts[1..], id)
  }

  /** No two toasts on screen share both message and type. */
  predicate Distinct(toasts: seq<Toast>)
  {
    forall i, j :: 0 <= i < j < |toasts| ==> !(toasts[i].message == toasts[j].message && toasts[i].kind == toasts[j].kind)
  }

  /** The list never grows past three and never holds the same toast twice. */
  lemma ShowKeepsInvariant(toasts: seq<Toast>, message: string, kind: Option<string>, id: int)
    requires |toasts| <= MAX_TOASTS && Distinct(toasts)
    ensures var r := ShowToast(toasts, message, kind, id); |r| <= MAX_TOASTS && Distinct(r)
  {
    var t := kind.GetOr(DEFAULT_TYPE);
    if !Shown(toasts, message, t) {
      var updated := toasts + [Toast(id, message, t)];
      assert Distinct(updated) by {
        forall i, j | 0 <= i < j < |updated|
          ensures !(updated[i].message == updated[j].message && updated[i].kind == updated[j].kind)
        {
          if j == |toasts| {
            assert updated[i] == toasts[i];
          }
        }
      }
    }
  }

  lemma {:induction false} RemoveAppended(toasts: seq<Toast>, x: Toast)
    requires forall i :: 0 <= i < |toasts| ==> toasts[i].id != x.id
    ensures RemoveToast(toasts + [x], x.id) == toasts
  {
    if toasts == [] {
      assert [] + [x] == [x];
    } else {
      assert (toasts + [x])[1..] == toasts[1..] + [x];
      RemoveAppended(toasts[1..], x);
    }
  }

  /**
   * Removing a toast just shown, with a fresh id, on a list with room,
   * gives the list back.
   */
  lemma ShowThenRemove(toasts: seq<Toast>, message: string, kind: Option<string>, id: int)
    requires |toasts| < MAX_TOASTS && !Shown(toasts, message, kind.GetOr(DEFAULT_TYPE))
    requires forall i :: 0 <= i < |toasts| ==> toasts[i].id != id
    ensures RemoveToast(ShowToast(toasts, message, kind, id), id) == toasts
  {
    RemoveAppended(toasts, Toast(id, message, kind.GetOr(DEFAULT_TYPE)));
  }
}
