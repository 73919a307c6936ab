/** `EmployeeDetailPage`: one employee by the id in the route, with admin-only
    Edit and Delete actions. Delete asks `window.confirm` first; the answer
    is an input. */
module EmployeeDetailPage {
  import opened Common
  import opened AuthSession
  import opened Text
  import PermissionButton

  /** What the page renders, in the order its early returns test. */
  datatype DetailView = Spinner | ErrorAlert | NotFound | Details(employee: Employee)

  /** The early returns: loading, then error, then a missing employee. */
  function View(loading: bool, error: bool, employee: Option<Employee>): (v: DetailView)
    ensures v == Spinner <==> loading
    ensures v == ErrorAlert <==> !loading && error
    ensures v == NotFound <==> !loading && !error && employee.None?
    ensures v.Details? <==> !loading && !error && employee.Some?
    ensures v.Details? ==> v.employee == employee.value
  {
    if loading then Spinner
    else if error then ErrorAlert
    else if employee.None? then NotFound
    else Details(employee.value)
  }

  /** `handleDelete`: the delete mutation (bound to `employeeId`) only when confirmed. */
  function HandleDelete(employeeId: int, confirmed: bool): (rs: seq<Request>)
    ensures confirmed <==> rs != []
    ensures confirmed ==> rs == [DeleteEmployee(employeeId)]
  {
    if confirmed then [DeleteEmployee(employeeId)] else []
  }

  /** What the mutation's completion does: refetch the list and go home.
      The mutation has no `onError`, so a failure does neither. */
  datatype Completion = Completion(requests: seq<Request>, navigation: Option<string>)

  function DeleteSettled(success: bool): (c: Completion)
    ensures success ==> c == Completion([RefetchEmployees], Some("/"))
    ensures !success ==> c == Completion([], None)
  {
    if success then Completion([RefetchEmployees], Some("/")) else Completion([], None)
  }

  /** What the action bar shows: the Edit link and the Delete button. */
  datatype Actions = Actions(edit: bool, delete: bool)

  /** Both sit in `PermissionButton requiredRole="ADMIN" hide`. */
  function ActionBar(s: Session): (a: Actions)
    ensures a.edit <==> IsAdmin(s)
    ensures a.delete <==> IsAdmin(s)
  {
    PermissionButton.AdminOnlyHidden(s, false);
    var shown := PermissionButton.Render(s, ADMIN, false, true) == PermissionButton.ShowChildren;
    Actions(shown, shown)
  }

  /** A click on Delete: nothing when the button is hidden or disabled
      (`deleteLoading`), otherwise whatever the confirmation allows. */
  function DeleteClicked(s: Session, employeeId: int, deleteLoading: bool, confirmed: bool): seq<Request> {
    if ActionBar(s).delete && !deleteLoading then HandleDelete(employeeId, confirmed) else []
  }

  /** Only an admin who confirms, while no delete is in flight, sends a
      delete, and it is for the page's employee. */
  lemma DeleteNeedsAdminAndConfirm(s: Session, employeeId: int, deleteLoading: bool, confirmed: bool)
    ensures DeleteClicked(s, employeeId, deleteLoading, confirmed) != [] <==>
              IsAdmin(s) && !deleteLoading && confirmed
    ensures DeleteClicked(s, employeeId, deleteLoading, confirmed) != [] ==>
              DeleteClicked(s, employeeId, deleteLoading, confirmed) == [DeleteEmployee(employeeId)]
  {
  }

  /** The page's badges: one per comma-separated piece, trimmed. */
  lemma DetailBadges(e: Employee)
    ensures |SubjectBadges(e.subjects)| == Occurrences(e.subjects, ',') + 1
    ensures e.subjects == "" ==> SubjectBadges(e.subjects) == [""]
  {
    SubjectBadgesArePieces(e.subjects);
  }
}
