/** End-to-end flows across the session, the permission gate and the
    guarded mutation surfaces: an admin login enables deleting and saving,
    a user login blocks both before any request leaves the page, and a
    failed save can be retried. */
module Scenarios {
  import opened Common
  import opened AuthSession
  import opened FormFields
  import EmployeeFormModal
  import EmployeeDetailPage
  import EmployeeList

  const ADMIN_USER: User := User("1", "admin@x.com", ADMIN)
  const PLAIN_USER: User := User("2", "user@x.com", USER)

  /** After an admin login the detail page's confirmed delete is sent, and a
      valid form in the modal is saved. */
  lemma AdminLoginPermitsMutations(s: Session, token: string, employeeId: int,
                                   st: EmployeeFormModal.ModalState, employee: Option<Employee>, p: Parsed)
    requires EmployeeFormModal.IsValid(st.form, p)
    ensures var s1 := Login(s, Payload(token, ADMIN_USER)).session;
            && IsAdmin(s1)
            && EmployeeDetailPage.DeleteClicked(s1, employeeId, false, true) == [DeleteEmployee(employeeId)]
            && EmployeeFormModal.HandleSubmit(st, s1, employee, p).mutation.Some?
  {
    var s1 := Login(s, Payload(token, ADMIN_USER)).session;
    LoginDecidesAdmin(s, token, ADMIN_USER);
    EmployeeDetailPage.DeleteNeedsAdminAndConfirm(s1, employeeId, false, true);
  }

  /** After a user login the same actions send nothing: the delete control is
      hidden, the modal stops at the admin check, and no sequence of clicks on
      the list ever sends a delete. */
  lemma UserLoginBlocksMutations(s: Session, token: string, employeeId: int, confirmed: bool,
                                 st: EmployeeFormModal.ModalState, employee: Option<Employee>, p: Parsed,
                                 events: seq<EmployeeList.Event>, intended: bool)
    requires EmployeeFormModal.IsValid(st.form, p)
    ensures var s1 := Login(s, Payload(token, PLAIN_USER)).session;
            && !IsAdmin(s1)
            && EmployeeDetailPage.DeleteClicked(s1, employeeId, false, confirmed) == []
            && EmployeeFormModal.HandleSubmit(st, s1, employee, p).mutation.None?
            && EmployeeFormModal.HandleSubmit(st, s1, employee, p).notice == EmployeeFormModal.AdminOnlyNotice
            && EmployeeList.NoDeleteRequest(EmployeeList.Run(EmployeeList.Initial, s1, events, intended).requests)
  {
    var s1 := Login(s, Payload(token, PLAIN_USER)).session;
    LoginDecidesAdmin(s, token, PLAIN_USER);
    EmployeeDetailPage.DeleteNeedsAdminAndConfirm(s1, employeeId, false, confirmed);
    EmployeeList.NonAdminNeverDeletes(EmployeeList.Initial, s1, events, intended);
  }

  /** A save that fails on the server leaves the session as it was and the
      dialog open on the same form; once corrected, resubmitting sends the
      mutation. */
  lemma FailedSaveThenRetry(s: Session, token: string, st: EmployeeFormModal.ModalState,
                            employee: Option<Employee>, p: Parsed, fixedForm: FormData, q: Parsed)
    requires EmployeeFormModal.IsValid(st.form, p)
    requires EmployeeFormModal.IsValid(fixedForm, q)
    ensures var s1 := Login(s, Payload(token, ADMIN_USER)).session;
            var first := EmployeeFormModal.HandleSubmit(st, s1, employee, p);
            && first.mutation.Some?
            && first.state.form == st.form
            && !EmployeeFormModal.MutationCompleted(false).closeRequested
            && EmployeeFormModal.HandleSubmit(first.state.(form := fixedForm), s1, employee, q).mutation.Some?
  {
    var s1 := Login(s, Payload(token, ADMIN_USER)).session;
    LoginDecidesAdmin(s, token, ADMIN_USER);
    EmployeeFormModal.FailedSaveAllowsRetry(st, s1, employee, p, fixedForm, q);
  }
}
