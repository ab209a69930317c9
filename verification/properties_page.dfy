/**
 * The property listing page: the "starting from" price of a property, the
 * search / city / sort filters and the page number, the query the page
 * sends for each state, and the previous / next pagination buttons.
 */
module PropertiesPage {
  import opened Wrappers
  import opened Strings

  datatype Room = Room(id: string, basePrice: int)

  /** `getMinPrice(rooms)`: the cheapest room's base price, 0 without rooms. */
  function MinPrice(rooms: seq<Room>): (r: int)
    ensures |rooms| == 0 ==> r == 0
    ensures |rooms| > 0 ==> exists i :: 0 <= i < |rooms| && rooms[i].basePrice == r
    ensures forall i :: 0 <= i < |rooms| ==> r <= rooms[i].basePrice
    decreases |rooms|
  {
    if |rooms| == 0 then 0
    else if |rooms| == 1 then rooms[0].basePrice
    else
      var rest := MinPrice(rooms[1..]);
      if rooms[0].basePrice <= rest then rooms[0].basePrice else rest
  }

  /** The page's state: the filters, the page number (from 1), what the last
      successful response reported (`totalPages` and how many properties it
      listed), and whether a fetch is in flight. */
  datatype PageState = PageState(
    search: string, city: string, sortBy: string, page: int,
    totalPages: int, count: nat, loading: bool)

  /** The page mounts loading, with nothing listed. */
  const InitialState := PageState("", "", "createdAt", 1, 1, 0, true)
  const PageSize := "12"

  /** The page number never drops below 1. */
  predicate ValidState(s: PageState) {
    s.page >= 1
  }

  datatype Event =
    | SearchTyped(query: string)
    | CityChosen(value: string)       // the select's value; "all" means every city
    | SortChosen(value: string)
    | PrevClicked
    | NextClicked
    | Loaded(totalPages: int, count: nat)  // a fetch answered with a page of `count` properties
    | LoadFailed                      // a fetch threw or answered with an error

  /** What the pagination strip shows. */
  datatype Pager = Hidden | Shown(prevEnabled: bool, nextEnabled: bool)

  /** The strip sits below the result grid, so it is drawn only when the page
      is not loading and the last response listed something, and then only
      for more than one page. */
  function Pagination(s: PageState): (p: Pager)
    ensures p.Shown? <==> !s.loading && s.count > 0 && s.totalPages > 1
    ensures p.Shown? ==> (p.prevEnabled <==> s.page != 1) && (p.nextEnabled <==> s.page != s.totalPages)
  {
    if s.loading then Hidden
    else if s.count == 0 then Hidden
    else if s.totalPages > 1 then Shown(s.page != 1, s.page != s.totalPages)
    else Hidden
  }

  /** The select shows `city || 'all'`. */
  function CitySelectValue(city: string): string {
    if city != "" then city else "all"
  }

  /** The Previous button is on screen and enabled. */
  predicate CanGoBack(s: PageState) {
    Pagination(s).Shown? && Pagination(s).prevEnabled
  }

  /** The Next button is on screen and enabled. */
  predicate CanGoForward(s: PageState) {
    Pagination(s).Shown? && Pagination(s).nextEnabled
  }

  /** The effect that fetches the listing depends on these four values. */
  predicate Refetches(s: PageState, t: PageState) {
    s.search != t.search || s.city != t.city || s.sortBy != t.sortBy || s.page != t.page
  }

  /** The filters and the page after one event; `loading` is left alone. */
  function Apply(s: PageState, e: Event): PageState {
    match e
    case SearchTyped(q) => s.(search := q, page := 1)
    case CityChosen(v) => s.(city := if v == "all" then "" else v, page := 1)
    case SortChosen(v) => s.(sortBy := v, page := 1)
    case PrevClicked => if CanGoBack(s) then s.(page := s.page - 1) else s
    case NextClicked => if CanGoForward(s) then s.(page := s.page + 1) else s
    case Loaded(n, c) => s.(totalPages := n, count := c, loading := false)
    case LoadFailed => s.(loading := false)
  }

  /** The state after one event, from a state the page can be in. A click on
      a hidden or disabled button does nothing; a change to the effect's
      inputs starts a fetch. */
  function Step(s: PageState, e: Event): (t: PageState)
    requires ValidState(s)
    ensures ValidState(t)
    // changing a filter starts again from page 1
    ensures e.SearchTyped? ==> t.search == e.query && t.page == 1
    ensures e.CityChosen? ==> t.city == (if e.value == "all" then "" else e.value) && t.page == 1
    ensures e.SortChosen? ==> t.sortBy == e.value && t.page == 1
    // the buttons move by exactly one page, and only when drawn and enabled
    ensures e.PrevClicked? ==> t.page == (if CanGoBack(s) then s.page - 1 else s.page)
    ensures e.NextClicked? ==> t.page == (if CanGoForward(s) then s.page + 1 else s.page)
    // a user event changes no other field, and it shows the spinner exactly
    // when it already showed or the effect's inputs changed
    ensures !(e.Loaded? || e.LoadFailed?) ==>
      t.totalPages == s.totalPages && t.count == s.count
      && (t.loading <==> s.loading || Refetches(s, t))
      && (!e.SearchTyped? ==> t.search == s.search)
      && (!e.CityChosen? ==> t.city == s.city)
      && (!e.SortChosen? ==> t.sortBy == s.sortBy)
    // an answered fetch records the page count and the result size; a
    // failed one keeps the previous ones; either way loading ends
    ensures e.Loaded? ==> t == s.(totalPages := e.totalPages, count := e.count, loading := false)
    ensures e.LoadFailed? ==> t == s.(loading := false)
  {
    var t := Apply(s, e);
    if e.Loaded? || e.LoadFailed? then t
    else t.(loading := s.loading || Refetches(s, t))
  }

  /** Between loads the buttons keep the page within 1..totalPages. */
  lemma ClicksStayInBounds(s: PageState, e: Event)
    requires ValidState(s) && s.page <= s.totalPages
    requires e.PrevClicked? || e.NextClicked?
    ensures 1 <= Step(s, e).page <= Step(s, e).totalPages
  {
  }

  /** A click that moves the page puts the page into the loading state, which
      hides the strip until the answer arrives: no second click can land on
      the same buttons before then. */
  lemma ClickHidesPagerUntilLoaded(s: PageState, e: Event)
    requires ValidState(s)
    requires e.PrevClicked? || e.NextClicked?
    ensures Step(s, e).page != s.page ==> Step(s, e).loading && Pagination(Step(s, e)).Hidden?
  {
  }

  /** A page whose answer listed nothing draws no buttons, so from page 2 or
      later the visitor cannot page back; only a filter change (which resets
      to page 1) leaves the empty page. */
  lemma EmptyPageStrandsVisitor(s: PageState)
    requires ValidState(s) && s.count == 0
    ensures Step(s, PrevClicked).page == s.page
    ensures Step(s, NextClicked).page == s.page
    ensures forall q :: Step(s, SearchTyped(q)).page == 1
    ensures forall v :: Step(s, CityChosen(v)).page == 1 && Step(s, SortChosen(v)).page == 1
  {
  }

  /** Concrete case: page 3 of 3 comes back empty, and Previous is not drawn. */
  lemma EmptyLastPageExample()
    ensures var s := Step(PageState("", "", "createdAt", 3, 3, 12, true), Loaded(3, 0));
      s.page == 3 && !s.loading && Pagination(s).Hidden? && Step(s, PrevClicked).page == 3
  {
  }

  /** On mount the page is on page 1 with no filters, sorted by creation
      date, and loading, so no pagination is drawn until the first answer. */
  lemma InitialStateHidesPager()
    ensures ValidState(InitialState) && InitialState.loading
    ensures Pagination(InitialState).Hidden?
    ensures Get(QueryParams(InitialState), "search").None? && Get(QueryParams(InitialState), "city").None?
    ensures Get(QueryParams(InitialState), "sortBy") == Some("createdAt")
  {
    QueryParamsRoundTrip(InitialState);
  }

  /** Choosing any city other than "" shows that choice back in the select. */
  lemma CityChoiceRoundTrip(s: PageState, value: string)
    requires ValidState(s) && value != ""
    ensures CitySelectValue(Step(s, CityChosen(value)).city) == value
  {
  }

  /** The query string's parameters, in order. */
  function QueryParams(f: PageState): (ps: seq<(string, string)>)
    requires ValidState(f)
    ensures |ps| == 3 + (if f.search != "" then 1 else 0) + (if f.city != "" then 1 else 0)
    ensures ps[0] == ("page", NatToString(f.page)) && ps[1] == ("limit", PageSize)
    ensures ps[|ps| - 1] == ("sortBy", f.sortBy)
    ensures ("search", f.search) in ps <==> f.search != ""
    ensures ("city", f.city) in ps <==> f.city != ""
    ensures forall i :: 0 <= i < |ps| ==> ps[i].0 in {"page", "limit", "search", "city", "sortBy"}
  {
    [("page", NatToString(f.page)), ("limit", PageSize)]
      + (if f.search != "" then [("search", f.search)] else [])
      + (if f.city != "" then [("city", f.city)] else [])
      + [("sortBy", f.sortBy)]
  }

  /** `URLSearchParams.get(key)`: the first value under `key`. */
  function Get(ps: seq<(string, string)>, key: string): (v: Option<string>)
    ensures v.None? <==> forall i :: 0 <= i < |ps| ==> ps[i].0 != key
    ensures v.Some? ==> exists i :: 0 <= i < |ps| && ps[i] == (key, v.value)
    decreases |ps|
  {
    if |ps| == 0 then None
    else if ps[0].0 == key then Some(ps[0].1)
    else Get(ps[1..], key)
  }

  /** Looking a key up in a concatenation. */
  lemma {:induction false} GetAppend(a: seq<(string, string)>, b: seq<(string, string)>, key: string)
    ensures Get(a + b, key) == if Get(a, key).Some? then Get(a, key) else Get(b, key)
    decreases |a|
  {
    if |a| > 0 {
      assert (a + b)[1..] == a[1..] + b;
      GetAppend(a[1..], b, key);
    } else {
      assert a + b == b;
    }
  }

  /** `URLSearchParams.get` on these pairs returns the page number (which
      parses back to the page), the page size, the sort key, and the search
      text and city exactly when they are set. */
  lemma QueryParamsRoundTrip(f: PageState)
    requires ValidState(f)
    ensures Get(QueryParams(f), "page").Some?
    ensures AllDigits(Get(QueryParams(f), "page").value)
    ensures ParseDigits(Get(QueryParams(f), "page").value) == f.page
    ensures Get(QueryParams(f), "limit") == Some(PageSize)
    ensures Get(QueryParams(f), "sortBy") == Some(f.sortBy)
    ensures Get(QueryParams(f), "search") == (if f.search != "" then Some(f.search) else None)
    ensures Get(QueryParams(f), "city") == (if f.city != "" then Some(f.city) else None)
  {
    ParseNatToString(f.page);
    var head := [("page", NatToString(f.page)), ("limit", PageSize)];
    var s := if f.search != "" then [("search", f.search)] else [];
    var c := if f.city != "" then [("city", f.city)] else [];
    var tail := [("sortBy", f.sortBy)];
    var ps := QueryParams(f);
    assert ps == head + (s + (c + tail));
    GetAppend(head, s + (c + tail), "limit");
    GetAppend(head, s + (c + tail), "page");
    GetAppend(head, s + (c + tail), "search");
    GetAppend(s, c + tail, "search");
    GetAppend(head, s + (c + tail), "city");
    GetAppend(s, c + tail, "city");
    GetAppend(c, tail, "city");
    GetAppend(head, s + (c + tail), "sortBy");
    GetAppend(s, c + tail, "sortBy");
    GetAppend(c, tail, "sortBy");
  }
}
