/** `EmployeeTilePage`: eight tiles per page, an admin-only Add button that
    opens the form modal, and a delete confirmation modal. The handlers for
    edit and flag exist but no control of the page calls them, and nothing
    ever opens the delete confirmation or records an employee to delete. */
module EmployeeTilePage {
  import opened Common
  import opened AuthSession
  import Pagination
  import PermissionButton

  const PAGE_SIZE: nat := 8

  datatype TileState = TileState(
    page: int,
    showDeleteModal: bool,
    employeeToDelete: Option<Employee>,
    showFormModal: bool,
    selectedEmployee: Option<Employee>)

  const Initial: TileState := TileState(1, false, None, false, None)

  function HandlePrevPage(st: TileState): TileState {
    st.(page := Pagination.PrevPage(st.page))
  }

  function HandleNextPage(st: TileState, totalCount: Option<nat>): TileState {
    st.(page := Pagination.NextPage(st.page, totalCount, PAGE_SIZE))
  }

  /** Paging keeps page 1 onwards, and Next needs `page * 8 < totalCount`. */
  lemma PagingStaysValid(st: TileState, totalCount: Option<nat>)
    requires st.page >= 1
    ensures HandlePrevPage(st).page >= 1 && HandleNextPage(st, totalCount).page >= 1
    ensures HandleNextPage(st, totalCount) != st <==> totalCount.Some? && st.page * 8 < totalCount.value
    ensures HandleNextPage(st, totalCount) != st <==> !Pagination.NextDisabled(st.page, totalCount, PAGE_SIZE)
  {
    Pagination.NextMatchesButton(st.page, totalCount, PAGE_SIZE);
  }

  /** `confirmDelete`: one delete for the recorded employee, nothing without one. */
  function ConfirmDelete(st: TileState): (t: Transition<TileState>)
    ensures t.state == st
    ensures st.employeeToDelete.None? ==> t.requests == []
    ensures st.employeeToDelete.Some? ==> t.requests == [DeleteEmployee(st.employeeToDelete.value.id)]
  {
    if st.employeeToDelete.Some? then Transition(st, [DeleteEmployee(st.employeeToDelete.value.id)])
    else Transition(st, [])
  }

  /** The delete mutation's `onCompleted` (close the confirmation, refetch)
      or `onError` (only a toast). */
  function DeleteSettled(st: TileState, success: bool): (t: Transition<TileState>)
    ensures success ==> t.state == st.(showDeleteModal := false) && t.requests == [RefetchEmployees]
    ensures !success ==> t.state == st && t.requests == []
  {
    if success then Transition(st.(showDeleteModal := false), [RefetchEmployees]) else Transition(st, [])
  }

  /** `handleFlag`: always flags, never unflags. */
  function HandleFlag(e: Employee): (r: Request)
    ensures r.FlagEmployee? && r.flagged && r.id == e.id
  {
    FlagEmployee(e.id, true)
  }

  /** `handleAddEmployee`: the form opens in add mode. */
  function HandleAdd(st: TileState): (r: TileState)
    ensures r.showFormModal && r.selectedEmployee.None?
    ensures r.(showFormModal := st.showFormModal, selectedEmployee := st.selectedEmployee) == st
  {
    st.(selectedEmployee := None, showFormModal := true)
  }

  /** `handleEditEmployee`: the form opens in edit mode for `e`. */
  function HandleEdit(st: TileState, e: Employee): (r: TileState)
    ensures r.showFormModal && r.selectedEmployee == Some(e)
    ensures r.(showFormModal := st.showFormModal, selectedEmployee := st.selectedEmployee) == st
  {
    st.(selectedEmployee := Some(e), showFormModal := true)
  }

  /** `handleFormModalClose`: closed, no selection, and the list is refetched. */
  function HandleFormClose(st: TileState): (t: Transition<TileState>)
    ensures !t.state.showFormModal && t.state.selectedEmployee.None?
    ensures t.requests == [RefetchEmployees]
    ensures t.state.(showFormModal := st.showFormModal, selectedEmployee := st.selectedEmployee) == st
  {
    Transition(st.(showFormModal := false, selectedEmployee := None), [RefetchEmployees])
  }

  /** The form modal opened by Edit and closed again leaves the page as it was,
      apart from having asked for a refetch. */
  lemma EditThenCloseRestores(st: TileState, e: Employee)
    requires !st.showFormModal && st.selectedEmployee.None?
    ensures HandleFormClose(HandleEdit(st, e)).state == st
    ensures HandleFormClose(HandleAdd(st)).state == st
  {
  }

  /** Everything the rendered page lets the user do. Add is in a
      `PermissionButton requiredRole="ADMIN"`; the confirmation's buttons
      exist only while it is open (`Modal` renders nothing when closed). */
  datatype Event =
    | AddClicked
    | PrevClicked
    | NextClicked(totalCount: Option<nat>)
    | DeleteCancelled
    | DeleteConfirmed
    | DeleteCompleted(success: bool)
    | FormClosed

  /** Whether the admin-only controls are rendered for this session. */
  predicate AdminControls(s: Session) {
    PermissionButton.Render(s, ADMIN, false, false) == PermissionButton.ShowChildren
  }

  function Step(st: TileState, s: Session, e: Event): Transition<TileState> {
    match e
    case AddClicked => if AdminControls(s) then Transition(HandleAdd(st), []) else Transition(st, [])
    case PrevClicked => Transition(HandlePrevPage(st), [])
    case NextClicked(total) => Transition(HandleNextPage(st, total), [])
    case DeleteCancelled => Transition(if st.showDeleteModal then st.(showDeleteModal := false) else st, [])
    case DeleteConfirmed => if st.showDeleteModal then ConfirmDelete(st) else Transition(st, [])
    case DeleteCompleted(ok) => DeleteSettled(st, ok)
    case FormClosed => if st.showFormModal then HandleFormClose(st) else Transition(st, [])
  }

  /** The state after `events` and every request made on the way. */
  function Run(st: TileState, s: Session, events: seq<Event>): Transition<TileState>
    decreases |events|
  {
    if |events| == 0 then Transition(st, [])
    else
      var t := Step(st, s, events[0]);
      var rest := Run(t.state, s, events[1..]);
      Transition(rest.state, t.requests + rest.requests)
  }

  /** The delete confirmation is closed and holds no employee. */
  predicate NoDeletePending(st: TileState) {
    !st.showDeleteModal && st.employeeToDelete.None?
  }

  predicate NoDeleteRequest(rs: seq<Request>) {
    forall i :: 0 <= i < |rs| ==> !rs[i].DeleteEmployee?
  }

  /** Nothing the page renders opens the confirmation, so from any state
      without a pending delete no delete is ever sent, and the form is only
      ever opened in add mode. */
  lemma {:induction false} DeleteNeverSent(st: TileState, s: Session, events: seq<Event>)
    requires NoDeletePending(st) && st.selectedEmployee.None?
    ensures NoDeletePending(Run(st, s, events).state)
    ensures Run(st, s, events).state.selectedEmployee.None?
    ensures NoDeleteRequest(Run(st, s, events).requests)
    decreases |events|
  {
    if |events| > 0 {
      var t := Step(st, s, events[0]);
      assert NoDeletePending(t.state) && t.state.selectedEmployee.None?;
      assert NoDeleteRequest(t.requests);
      DeleteNeverSent(t.state, s, events[1..]);
      var rest := Run(t.state, s, events[1..]);
      assert forall i :: 0 <= i < |t.requests + rest.requests| ==>
               (t.requests + rest.requests)[i] == (if i < |t.requests| then t.requests[i] else rest.requests[i - |t.requests|]);
    }
  }

  /** For a session that is not an admin's, the form modal never opens. */
  lemma {:induction false} FormClosedForNonAdmin(st: TileState, s: Session, events: seq<Event>)
    requires !IsAdmin(s) && !st.showFormModal
    ensures !Run(st, s, events).state.showFormModal
    decreases |events|
  {
    if |events| > 0 {
      FormClosedForNonAdmin(Step(st, s, events[0]).state, s, events[1..]);
    }
  }

  /** Both facts hold from the page's first render. */
  lemma FromInitial(s: Session, events: seq<Event>)
    ensures NoDeleteRequest(Run(Initial, s, events).requests)
    ensures !IsAdmin(s) ==> !Run(Initial, s, events).state.showFormModal
  {
    DeleteNeverSent(Initial, s, events);
    if !IsAdmin(s) {
      FormClosedForNonAdmin(Initial, s, events);
    }
  }
}
