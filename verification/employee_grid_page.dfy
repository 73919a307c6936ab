/** `EmployeeGridPage`: the sortable table. Its state is the page and the
    sort column and direction sent with the query; clicking a column header
    sorts by it, and the two buttons page through the results. */
module EmployeeGridPage {
  import opened Common
  import Pagination

  const PAGE_SIZE: nat := 10

  /** The `field` of each entry of `columns`, in table order. */
  const COLUMNS: seq<string> := ["id", "name", "age", "class", "subjects", "attendance", "createdAt", "updatedAt"]

  datatype Direction = Asc | Desc

  datatype GridState = GridState(page: int, sortField: string, direction: Direction)

  /** Page 1, sorted by `id`, ascending. */
  const Initial: GridState := GridState(1, "id", Asc)

  function Flip(d: Direction): (r: Direction)
    ensures r != d
  {
    if d == Asc then Desc else Asc
  }

  /** `handleSort(field)`: the same column flips the direction; another column
      becomes the sort column, ascending. The page is kept. */
  function HandleSort(st: GridState, field: string): (r: GridState)
    ensures r.sortField == field && r.page == st.page
    ensures field == st.sortField ==> r.direction != st.direction
    ensures field != st.sortField ==> r.direction == Asc
  {
    if field == st.sortField then st.(direction := Flip(st.direction))
    else st.(sortField := field, direction := Asc)
  }

  /** Sorting twice on the current column restores the state. */
  lemma SortTwiceRestores(st: GridState)
    ensures HandleSort(HandleSort(st, st.sortField), st.sortField) == st
  {
  }

  /** A first click on a new column sorts ascending, a second one descending,
      whatever the previous direction was. */
  lemma NewColumnAscThenDesc(st: GridState, field: string)
    requires field != st.sortField
    ensures HandleSort(st, field).direction == Asc
    ensures HandleSort(HandleSort(st, field), field).direction == Desc
  {
  }

  function HandlePrevPage(st: GridState): GridState {
    st.(page := Pagination.PrevPage(st.page))
  }

  function HandleNextPage(st: GridState, totalCount: Option<nat>): GridState {
    st.(page := Pagination.NextPage(st.page, totalCount, PAGE_SIZE))
  }

  function TotalPages(totalCount: Option<nat>): nat {
    Pagination.TotalPages(totalCount, PAGE_SIZE)
  }

  /** A header click, or a button press seen with the query's current total. */
  datatype Event = SortBy(field: string) | Prev | Next(totalCount: Option<nat>)

  function Step(st: GridState, e: Event): GridState {
    match e
    case SortBy(field) => HandleSort(st, field)
    case Prev => HandlePrevPage(st)
    case Next(total) => HandleNextPage(st, total)
  }

  function Run(st: GridState, events: seq<Event>): GridState
    decreases |events|
  {
    if |events| == 0 then st else Run(Step(st, events[0]), events[1..])
  }

  /** The state the query may be sent with: a page from 1 on, sorted by one
      of the table's columns. */
  predicate Valid(st: GridState) {
    st.page >= 1 && st.sortField in COLUMNS
  }

  /** Header clicks only ever carry column fields. */
  predicate FromHeaders(events: seq<Event>) {
    forall i :: 0 <= i < |events| && events[i].SortBy? ==> events[i].field in COLUMNS
  }

  /** Every sequence of clicks from a valid state leaves a valid state. */
  lemma {:induction false} RunPreservesValid(st: GridState, events: seq<Event>)
    requires Valid(st) && FromHeaders(events)
    ensures Valid(Run(st, events))
    decreases |events|
  {
    if |events| > 0 {
      Pagination.PrevMatchesButton(st.page);
      var next := Step(st, events[0]);
      assert Valid(next);
      assert FromHeaders(events[1..]) by {
        forall i | 0 <= i < |events[1..]| && events[1..][i].SortBy?
          ensures events[1..][i].field in COLUMNS
        {
          assert events[1..][i] == events[i + 1];
        }
      }
      RunPreservesValid(next, events[1..]);
    }
  }

  /** The initial state is valid, so every reachable state is. */
  lemma ReachableValid(events: seq<Event>)
    requires FromHeaders(events)
    ensures Valid(Run(Initial, events))
  {
    RunPreservesValid(Initial, events);
  }

  /** The Next handler acts exactly when the Next button is enabled. */
  lemma NextButtonAgrees(st: GridState, totalCount: Option<nat>)
    requires st.page >= 1
    ensures HandleNextPage(st, totalCount) != st <==> !Pagination.NextDisabled(st.page, totalCount, PAGE_SIZE)
  {
    Pagination.NextMatchesButton(st.page, totalCount, PAGE_SIZE);
  }
}
