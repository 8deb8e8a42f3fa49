/**
 * The home page's reducer: three dropdown flags of which opening one
 * closes the other two, the product list, and the loading flag. The
 * slider's fixed banners are not part of the state modelled here.
 */
module HomeReducer {

  import opened Base

  datatype HomeState = HomeState(
    categoryListDropdown: bool,
    filterListDropdown: bool,
    searchDropdown: bool,
    products: Option<seq<string>>,
    loading: bool)

  datatype Action =
    | CategoryListDropdown(open: bool)
    | FilterListDropdown(open: bool)
    | SearchDropdown(open: bool)
    | SetProducts(products: Option<seq<string>>)
    | Loading(loading: bool)
    | Unknown(kind: string)

  /** `homeState`: every flag down and no products. */
  function Initial(): HomeState
  {
    HomeState(false, false, false, None, false)
  }

  /** Dropdown `i` of the page: 0 the category list, 1 the filter list, 2 the search box. */
  function Dropdown(s: HomeState, i: nat): bool
    requires i < 3
  {
    if i == 0 then s.categoryListDropdown else if i == 1 then s.filterListDropdown else s.searchDropdown
  }

  /** The dropdown an action sets, if it is a dropdown action. */
  function Toggles(a: Action): (r: Option<nat>)
    ensures r.Some? <==> a.CategoryListDropdown? || a.FilterListDropdown? || a.SearchDropdown?
    ensures r.Some? ==> r.value < 3
  {
    match a
    case CategoryListDropdown(_) => Some(0)
    case FilterListDropdown(_) => Some(1)
    case SearchDropdown(_) => Some(2)
    case _ => None
  }

  /**
   * `homeReducer`: a dropdown action sets its own flag and shuts the other
   * two; every other action leaves the dropdowns alone. Only `SetProducts`
   * touches the products and only `Loading` the loading flag; an unknown
   * action changes nothing.
   */
  function Reduce(s: HomeState, a: Action): (r: HomeState)
    ensures Toggles(a).Some? ==> forall i :: 0 <= i < 3 ==> Dropdown(r, i) == (i == Toggles(a).value && a.open)
    ensures Toggles(a).None? ==> forall i :: 0 <= i < 3 ==> Dropdown(r, i) == Dropdown(s, i)
    ensures r.products == (if a.SetProducts? then a.products else s.products)
    ensures r.loading == (if a.Loading? then a.loading else s.loading)
    ensures a.Unknown? ==> r == s
  {
    match a
    case CategoryListDropdown(open) => s.(categoryListDropdown := open, filterListDropdown := false, searchDropdown := false)
    case FilterListDropdown(open) => s.(categoryListDropdown := false, filterListDropdown := open, searchDropdown := false)
    case SearchDropdown(open) => s.(categoryListDropdown := false, filterListDropdown := false, searchDropdown := open)
    case SetProducts(p) => s.(products := p)
    case Loading(l) => s.(loading := l)
    case Unknown(_) => s
  }

  /** At most one dropdown is open. */
  predicate AtMostOneOpen(s: HomeState)
  {
    (if s.categoryListDropdown then 1 else 0) + (if s.filterListDropdown then 1 else 0) +
    (if s.searchDropdown then 1 else 0) <= 1
  }

  /** The state after a sequence of actions. */
  function Run(s: HomeState, actions: seq<Action>): HomeState
    decreases |actions|
  {
    if actions == [] then s else Run(Reduce(s, actions[0]), actions[1..])
  }

  /** Every action keeps at most one dropdown open. */
  lemma ReduceKeepsOneOpen(s: HomeState, a: Action)
    requires AtMostOneOpen(s)
    ensures AtMostOneOpen(Reduce(s, a))
  {
  }

  /** Whatever actions are dispatched from the initial state, at most one dropdown is ever open. */
  lemma {:induction false} RunKeepsOneOpen(s: HomeState, actions: seq<Action>)
    requires AtMostOneOpen(s)
    ensures AtMostOneOpen(Run(s, actions))
    decreases |actions|
  {
    if actions != [] {
      ReduceKeepsOneOpen(s, actions[0]);
      RunKeepsOneOpen(Reduce(s, actions[0]), actions[1..]);
    }
  }

  lemma FromInitial(actions: seq<Action>)
    ensures AtMostOneOpen(Run(Initial(), actions))
  {
    RunKeepsOneOpen(Initial(), actions);
  }
}
