/** `EmployeeList`: the table with a details modal per row, admin-only Add,
    Edit and Delete controls, a delete confirmation and the form modal. */
module EmployeeList {
  import opened Common
  import opened AuthSession
  import opened Text
  import PermissionButton

  datatype ListState = ListState(
    selectedEmployee: Option<Employee>,
    showDetailsModal: bool,
    showFormModal: bool,
    employeeToEdit: Option<Employee>,
    showDeleteModal: bool,
    employeeToDelete: Option<Employee>,
    deleteLoading: bool,             // the delete mutation is in flight
    pendingClears: nat)              // `closeModal` timers not yet fired

  const Initial: ListState := ListState(None, false, false, None, false, None, false, 0)

  /** The id the details query is sent with; `skip: !selectedEmployee`. */
  function DetailsQuery(st: ListState): (id: Option<int>)
    ensures id.Some? <==> st.selectedEmployee.Some?
    ensures id.Some? ==> id.value == st.selectedEmployee.value.id
  {
    if st.selectedEmployee.Some? then Some(st.selectedEmployee.value.id) else None
  }

  /** `handleRowClick`. */
  function RowClick(st: ListState, e: Employee): (r: ListState)
    ensures r.selectedEmployee == Some(e) && r.showDetailsModal
    ensures r.(selectedEmployee := st.selectedEmployee, showDetailsModal := st.showDetailsModal) == st
  {
    st.(selectedEmployee := Some(e), showDetailsModal := true)
  }

  /** `closeModal`, immediate part: the modal closes and a timer is set to
      clear the selection 300 ms later. */
  function CloseDetails(st: ListState): (r: ListState)
    ensures !r.showDetailsModal && r.selectedEmployee == st.selectedEmployee
    ensures r.pendingClears == st.pendingClears + 1
    ensures r.(showDetailsModal := st.showDetailsModal, pendingClears := st.pendingClears) == st
  {
    st.(showDetailsModal := false, pendingClears := st.pendingClears + 1)
  }

  /** The `setTimeout` callback of `closeModal`, as written: it clears the
      selection whatever happened since. */
  function SelectionTimerFired(st: ListState): (r: ListState)
    requires st.pendingClears > 0
    ensures r.selectedEmployee.None? && r.pendingClears == st.pendingClears - 1
    ensures r.(selectedEmployee := st.selectedEmployee, pendingClears := st.pendingClears) == st
  {
    st.(selectedEmployee := None, pendingClears := st.pendingClears - 1)
  }

  /** The callback as evidently intended: clear the selection only if the
      details modal has stayed closed. */
  function SelectionTimerFiredIntended(st: ListState): (r: ListState)
    requires st.pendingClears > 0
    ensures r.pendingClears == st.pendingClears - 1
    ensures st.showDetailsModal ==> r.selectedEmployee == st.selectedEmployee
    ensures !st.showDetailsModal ==> r.selectedEmployee.None?
    ensures r.(selectedEmployee := st.selectedEmployee, pendingClears := st.pendingClears) == st
  {
    if st.showDetailsModal then st.(pendingClears := st.pendingClears - 1)
    else SelectionTimerFired(st)
  }

  /** A row click fetches that employee's details, the fetch stays enabled
      while the closing modal fades, and stops once the timer clears the selection. */
  lemma DetailsFetchFollowsSelection(st: ListState, e: Employee)
    ensures DetailsQuery(RowClick(st, e)) == Some(e.id)
    ensures DetailsQuery(CloseDetails(RowClick(st, e))) == Some(e.id)
    ensures DetailsQuery(SelectionTimerFired(CloseDetails(RowClick(st, e)))) == None
    ensures DetailsQuery(SelectionTimerFiredIntended(CloseDetails(RowClick(st, e)))) == None
  {
  }

  /** `handleAddEmployee`: the form opens in add mode. */
  function HandleAdd(st: ListState): (r: ListState)
    ensures r.showFormModal && r.employeeToEdit.None?
    ensures r.(showFormModal := st.showFormModal, employeeToEdit := st.employeeToEdit) == st
  {
    st.(employeeToEdit := None, showFormModal := true)
  }

  /** `handleEditEmployee`: the form opens in edit mode for `e`; the click
      does not reach the row, so the details modal is untouched. */
  function HandleEdit(st: ListState, e: Employee): (r: ListState)
    ensures r.showFormModal && r.employeeToEdit == Some(e)
    ensures r.(showFormModal := st.showFormModal, employeeToEdit := st.employeeToEdit) == st
  {
    st.(employeeToEdit := Some(e), showFormModal := true)
  }

  /** `handleDeleteClick`: record the employee and open the confirmation. */
  function HandleDeleteClick(st: ListState, e: Employee): (r: ListState)
    ensures r.showDeleteModal && r.employeeToDelete == Some(e)
    ensures r.(showDeleteModal := st.showDeleteModal, employeeToDelete := st.employeeToDelete) == st
  {
    st.(employeeToDelete := Some(e), showDeleteModal := true)
  }

  /** `confirmDelete`: one delete for the recorded employee, nothing without one. */
  function ConfirmDelete(st: ListState): (t: Transition<ListState>)
    ensures st.employeeToDelete.None? ==> t == Transition(st, [])
    ensures st.employeeToDelete.Some? ==>
              t == Transition(st.(deleteLoading := true), [DeleteEmployee(st.employeeToDelete.value.id)])
  {
    if st.employeeToDelete.Some? then
      Transition(st.(deleteLoading := true), [DeleteEmployee(st.employeeToDelete.value.id)])
    else Transition(st, [])
  }

  /** The delete mutation's `onCompleted` (close the confirmation, refetch)
      or `onError` (a toast; the confirmation stays open). */
  function DeleteSettled(st: ListState, success: bool): (t: Transition<ListState>)
    ensures !t.state.deleteLoading
    ensures success ==> t.state == st.(showDeleteModal := false, deleteLoading := false)
                        && t.requests == [RefetchEmployees]
    ensures !success ==> t.state == st.(deleteLoading := false) && t.requests == []
  {
    if success then Transition(st.(showDeleteModal := false, deleteLoading := false), [RefetchEmployees])
    else Transition(st.(deleteLoading := false), [])
  }

  /** `handleFormModalClose`: closed, no employee to edit, and a refetch. */
  function HandleFormClose(st: ListState): (t: Transition<ListState>)
    ensures !t.state.showFormModal && t.state.employeeToEdit.None?
    ensures t.requests == [RefetchEmployees]
    ensures t.state.(showFormModal := st.showFormModal, employeeToEdit := st.employeeToEdit) == st
  {
    Transition(st.(showFormModal := false, employeeToEdit := None), [RefetchEmployees])
  }

  /** Clicking Delete on a row and confirming sends exactly one delete for
      that row; a failed delete leaves the confirmation open for the same
      employee, so confirming again retries it. */
  lemma DeleteFlow(st: ListState, e: Employee)
    ensures ConfirmDelete(HandleDeleteClick(st, e)).requests == [DeleteEmployee(e.id)]
    ensures var failed := DeleteSettled(ConfirmDelete(HandleDeleteClick(st, e)).state, false).state;
            failed.showDeleteModal && ConfirmDelete(failed).requests == [DeleteEmployee(e.id)]
    ensures !DeleteSettled(ConfirmDelete(HandleDeleteClick(st, e)).state, true).state.showDeleteModal
  {
  }

  /** The badges of the details modal: one per comma-separated piece, trimmed. */
  lemma DetailsBadges(e: Employee)
    ensures |SubjectBadges(e.subjects)| == Occurrences(e.subjects, ',') + 1
    ensures e.subjects == "" ==> SubjectBadges(e.subjects) == [""]
  {
    SubjectBadgesArePieces(e.subjects);
  }

  /** Everything the rendered list lets the user do. Add, Edit and Delete sit
      in `PermissionButton requiredRole="ADMIN"`; a modal's buttons exist only
      while it is open, and Delete in the confirmation is disabled while a
      delete is in flight. */
  datatype Event =
    | RowClicked(row: Employee)
    | DetailsClosed
    | SelectionTimer
    | AddClicked
    | EditClicked(row: Employee)
    | DeleteClicked(row: Employee)
    | DeleteCancelled
    | DeleteConfirmed
    | DeleteCompleted(success: bool)
    | FormClosed

  predicate AdminControls(s: Session) {
    PermissionButton.Render(s, ADMIN, false, false) == PermissionButton.ShowChildren
  }

  /** One event. `intended` picks the timer callback: as written, or as
      evidently intended. A timer event with no timer pending does nothing. */
  function Step(st: ListState, s: Session, e: Event, intended: bool): Transition<ListState> {
    match e
    case RowClicked(row) => Transition(RowClick(st, row), [])
    case DetailsClosed => Transition(if st.showDetailsModal then CloseDetails(st) else st, [])
    case SelectionTimer =>
      if st.pendingClears == 0 then Transition(st, [])
      else if intended then Transition(SelectionTimerFiredIntended(st), [])
      else Transition(SelectionTimerFired(st), [])
    case AddClicked => Transition(if AdminControls(s) then HandleAdd(st) else st, [])
    case EditClicked(row) => Transition(if AdminControls(s) then HandleEdit(st, row) else st, [])
    case DeleteClicked(row) => Transition(if AdminControls(s) then HandleDeleteClick(st, row) else st, [])
    case DeleteCancelled => Transition(if st.showDeleteModal then st.(showDeleteModal := false) else st, [])
    case DeleteConfirmed =>
      if st.showDeleteModal && !st.deleteLoading then ConfirmDelete(st) else Transition(st, [])
    case DeleteCompleted(ok) => DeleteSettled(st, ok)
    case FormClosed => if st.showFormModal then HandleFormClose(st) else Transition(st, [])
  }

  function Run(st: ListState, s: Session, events: seq<Event>, intended: bool): Transition<ListState>
    decreases |events|
  {
    if |events| == 0 then Transition(st, [])
    else
      var t := Step(st, s, events[0], intended);
      var rest := Run(t.state, s, events[1..], intended);
      Transition(rest.state, t.requests + rest.requests)
  }

  /** The confirmation, while open, always has an employee to delete. */
  predicate ConfirmationHasSubject(st: ListState) {
    st.showDeleteModal ==> st.employeeToDelete.Some?
  }

  /** The details modal, while open, always has a selected employee. */
  predicate DetailsHaveSubject(st: ListState) {
    st.showDetailsModal ==> st.selectedEmployee.Some?
  }

  /** Every reachable state keeps `ConfirmationHasSubject`, whichever timer
      callback runs. */
  lemma {:induction false} RunKeepsConfirmationSubject(st: ListState, s: Session, events: seq<Event>, intended: bool)
    requires ConfirmationHasSubject(st)
    ensures ConfirmationHasSubject(Run(st, s, events, intended).state)
    decreases |events|
  {
    if |events| > 0 {
      var t := Step(st, s, events[0], intended);
      assert ConfirmationHasSubject(t.state);
      RunKeepsConfirmationSubject(t.state, s, events[1..], intended);
    }
  }

  /** So a click on the confirmation's Delete always sends a request. */
  lemma ConfirmFromReachableSends(s: Session, events: seq<Event>, intended: bool)
    ensures var st := Run(Initial, s, events, intended).state;
            st.showDeleteModal && !st.deleteLoading ==>
              |Step(st, s, DeleteConfirmed, intended).requests| == 1
  {
    RunKeepsConfirmationSubject(Initial, s, events, intended);
  }

  /** As written: reopening a row within the 300 ms of a close lets the old
      timer clear the new selection, leaving the details modal open with no
      employee and the details query skipped. */
  lemma StaleTimerClearsReopenedSelection(s: Session, a: Employee, b: Employee)
    ensures var st := Run(Initial, s, [RowClicked(a), DetailsClosed, RowClicked(b), SelectionTimer], false).state;
            st.showDetailsModal && !DetailsHaveSubject(st) && DetailsQuery(st).None?
  {
    var events := [RowClicked(a), DetailsClosed, RowClicked(b), SelectionTimer];
    var s1 := RowClick(Initial, a);
    var s2 := CloseDetails(s1);
    var s3 := RowClick(s2, b);
    var s4 := SelectionTimerFired(s3);
    assert events[1..] == [DetailsClosed, RowClicked(b), SelectionTimer];
    assert events[1..][1..] == [RowClicked(b), SelectionTimer];
    assert events[1..][1..][1..] == [SelectionTimer];
    assert Run(s3, s, [SelectionTimer], false).state == s4;
    assert Run(s2, s, events[1..][1..], false).state == s4;
    assert Run(s1, s, events[1..], false).state == s4;
  }

  /** With the intended callback, every reachable state keeps `DetailsHaveSubject`. */
  lemma {:induction false} IntendedTimerKeepsDetailsSubject(st: ListState, s: Session, events: seq<Event>)
    requires DetailsHaveSubject(st)
    ensures DetailsHaveSubject(Run(st, s, events, true).state)
    decreases |events|
  {
    if |events| > 0 {
      var t := Step(st, s, events[0], true);
      assert DetailsHaveSubject(t.state);
      IntendedTimerKeepsDetailsSubject(t.state, s, events[1..]);
    }
  }

  predicate NoDeleteRequest(rs: seq<Request>) {
    forall i :: 0 <= i < |rs| ==> !rs[i].DeleteEmployee?
  }

  /** A session without the ADMIN permission never opens the confirmation or
      the form, and so never sends a delete. */
  lemma {:induction false} NonAdminNeverDeletes(st: ListState, s: Session, events: seq<Event>, intended: bool)
    requires !IsAdmin(s)
    requires !st.showDeleteModal && !st.showFormModal
    ensures !Run(st, s, events, intended).state.showDeleteModal
    ensures !Run(st, s, events, intended).state.showFormModal
    ensures NoDeleteRequest(Run(st, s, events, intended).requests)
    decreases |events|
  {
    if |events| > 0 {
      var t := Step(st, s, events[0], intended);
      assert NoDeleteRequest(t.requests);
      NonAdminNeverDeletes(t.state, s, events[1..], intended);
      var rest := Run(t.state, s, events[1..], intended);
      assert forall i :: 0 <= i < |t.requests + rest.requests| ==>
               (t.requests + rest.requests)[i] == (if i < |t.requests| then t.requests[i] else rest.requests[i - |t.requests|]);
    }
  }
}
