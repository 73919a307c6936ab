/** `EmployeeForm`: the unguarded add/edit page form. It prefills every field
    in edit mode, and its submit handler always sends one create or update
    mutation with the texts as typed: no trimming, no range check, no role
    check. */
module EmployeeForm {
  import opened Common
  import opened Text
  import opened FormFields
  import EmployeeFormModal
  import AuthSession

  /** `isEditMode = !!employee`. */
  predicate IsEditMode(employee: Option<Employee>) {
    employee.Some?
  }

  /** The effect on `[employee, isEditMode]`: in edit mode the form is
      replaced by the employee's fields; otherwise it is left as it is. */
  function OnMount(f: FormData, employee: Option<Employee>, showNumber: real -> string): (r: FormData)
    ensures !IsEditMode(employee) ==> r == f
    ensures IsEditMode(employee) ==> r == FromEmployee(employee.value, showNumber)
  {
    if IsEditMode(employee) then FromEmployee(employee.value, showNumber) else f
  }

  /** The mutation variables: the texts untouched, the numbers as parsed
      (`None` is `NaN`, which the handler sends as is). */
  datatype RawPayload = RawPayload(
    name: string,
    age: Option<int>,
    className: string,
    subjects: string,
    attendance: Option<real>)

  datatype Mutation = CreateEmployee(data: RawPayload) | UpdateEmployee(id: int, data: RawPayload)

  /** `handleSubmit`: one mutation, whatever the form holds. */
  function HandleSubmit(f: FormData, employee: Option<Employee>, p: Parsed): (m: Mutation)
    ensures m.UpdateEmployee? <==> IsEditMode(employee)
    ensures IsEditMode(employee) ==> m.id == employee.value.id
    ensures m.data.name == f.name && m.data.className == f.className && m.data.subjects == f.subjects
    ensures m.data.age == p.age && m.data.attendance == p.attendance
  {
    var data := RawPayload(f.name, p.age, f.className, f.subjects, p.attendance);
    if IsEditMode(employee) then UpdateEmployee(employee.value.id, data) else CreateEmployee(data)
  }

  /** What `onCompleted` does: the list is refetched and the page goes to `/`. */
  datatype Completion = Completion(refetchEmployees: bool, navigation: Option<string>)

  /** Success refetches and navigates home; an error does neither. */
  function MutationCompleted(success: bool): (c: Completion)
    ensures c.refetchEmployees <==> success
    ensures success ==> c.navigation == Some("/")
    ensures !success ==> c.navigation == None
  {
    if success then Completion(true, Some("/")) else Completion(false, None)
  }

  /** Opening an employee for edit and saving it unchanged sends exactly that
      employee back, under its own id. */
  lemma EditUnchangedRoundTrip(f: FormData, e: Employee, showNumber: real -> string)
    ensures var m := HandleSubmit(OnMount(f, Some(e), showNumber), Some(e), Parsed(Some(e.age), Some(e.attendance)));
            m == UpdateEmployee(e.id, RawPayload(e.name, Some(e.age), e.className, e.subjects, Some(e.attendance)))
  {
  }

  /** Where the modal guards and this form does not: both dispatch one
      mutation per submit, but whenever the modal sends, what it sends is this
      form's payload with the texts trimmed and the numbers known. */
  lemma ModalSendsTrimmedPayload(f: FormData, s: AuthSession.Session, employee: Option<Employee>, p: Parsed)
    requires EmployeeFormModal.IsValid(f, p) && AuthSession.IsAdmin(s)
    ensures var raw := HandleSubmit(f, employee, p).data;
            var sent := EmployeeFormModal.HandleSubmit(EmployeeFormModal.ModalState(f, map[], false), s, employee, p)
                          .mutation.value.data;
            && sent.name == Trim(raw.name) && sent.className == Trim(raw.className)
            && sent.subjects == Trim(raw.subjects)
            && raw.age == Some(sent.age) && raw.attendance == Some(sent.attendance)
  {
    EmployeeFormModal.SubmittedPayloadIsForm(EmployeeFormModal.ModalState(f, map[], false), s, employee, p);
  }

  /** A whitespace-only name with an out-of-range age is sent by this form,
      by anyone, while the modal sends nothing for it even to an admin. */
  lemma UnguardedWhereModalRefuses(s: AuthSession.Session, employee: Option<Employee>)
    ensures var f := FormData(" ", "5", "Ops", "Math", "50");
            var p := Parsed(Some(5), Some(50.0));
            && HandleSubmit(f, employee, p).data.name == " "
            && HandleSubmit(f, employee, p).data.age == Some(5)
            && EmployeeFormModal.HandleSubmit(EmployeeFormModal.ModalState(f, map[], false), s, employee, p)
                 .mutation.None?
  {
    var f := FormData(" ", "5", "Ops", "Math", "50");
    var p := Parsed(Some(5), Some(50.0));
    assert !EmployeeFormModal.AgeAcceptable(f.age, p.age);
    EmployeeFormModal.ValidRules(f, p);
  }

  /** Edit-mode prefill of age 0: this form shows `"0"`, the modal an empty field. */
  lemma ZeroAgePrefillsDiffer(f: FormData, e: Employee, showNumber: real -> string)
    requires e.age == 0
    ensures OnMount(f, Some(e), showNumber).age == "0"
    ensures EmployeeFormModal.Prefill(e, showNumber).age == ""
  {
  }
}
