/** `EmployeeFormModal`: the guarded add/edit dialog. Submitting validates the
    five fields, then checks that the session is an admin session, and only
    then sends exactly one create or update mutation with a trimmed payload. */
module EmployeeFormModal {
  import opened Common
  import opened Text
  import opened FormFields
  import opened AuthSession

  /** `errors`: a message per field; `handleChange` blanks a message rather than removing it. */
  type Errors = map<Field, string>

  const NAME_REQUIRED: string := "Name is required"
  const AGE_REQUIRED: string := "Age is required"
  const AGE_RANGE: string := "Age must be between 18 and 65"
  const CLASS_REQUIRED: string := "Class is required"
  const SUBJECTS_REQUIRED: string := "At least one subject is required"
  const ATTENDANCE_REQUIRED: string := "Attendance is required"
  const ATTENDANCE_RANGE: string := "Attendance must be between 0 and 100"

  const MIN_AGE: int := 18
  const MAX_AGE: int := 65
  const MIN_ATTENDANCE: real := 0.0
  const MAX_ATTENDANCE: real := 100.0

  /** The age text passes: non-empty, an integer, within [18, 65]. */
  predicate AgeAcceptable(text: string, parsed: Option<int>) {
    text != "" && parsed.Some? && MIN_AGE <= parsed.value <= MAX_AGE
  }

  /** The attendance text passes: non-empty, a number, within [0, 100]. */
  predicate AttendanceAcceptable(text: string, parsed: Option<real>) {
    text != "" && parsed.Some? && MIN_ATTENDANCE <= parsed.value <= MAX_ATTENDANCE
  }

  /** The message `validateForm()` records for one field, if any. A text
      whose `trim()` is empty is one made only of whitespace
      (`Text.TrimEmptyIff`), and that is the test written here. */
  function FieldError(f: FormData, p: Parsed, field: Field): (m: Option<string>)
    ensures m.Some? ==> |m.value| > 0
  {
    match field
    case Name => if AllWhitespace(f.name) then Some(NAME_REQUIRED) else None
    case Age =>
      if f.age == "" then Some(AGE_REQUIRED)
      else if p.age.None? || p.age.value < MIN_AGE || p.age.value > MAX_AGE then Some(AGE_RANGE)
      else None
    case ClassName => if AllWhitespace(f.className) then Some(CLASS_REQUIRED) else None
    case Subjects => if AllWhitespace(f.subjects) then Some(SUBJECTS_REQUIRED) else None
    case Attendance =>
      if f.attendance == "" then Some(ATTENDANCE_REQUIRED)
      else if p.attendance.None? || p.attendance.value < MIN_ATTENDANCE
              || p.attendance.value > MAX_ATTENDANCE
      then Some(ATTENDANCE_RANGE)
      else None
  }

  /** Every field; `validateForm()` checks each one. */
  const AllFields: set<Field> := {Name, Age, ClassName, Subjects, Attendance}

  /** `validateForm()`: the error map it stores. A text field is flagged
      exactly when it trims to nothing, a number exactly when it is missing,
      unparsable or out of range, and each flagged field holds its message. */
  function Validate(f: FormData, p: Parsed): (errs: Errors)
    ensures Name in errs <==> Trim(f.name) == ""
    ensures ClassName in errs <==> Trim(f.className) == ""
    ensures Subjects in errs <==> Trim(f.subjects) == ""
    ensures Age in errs <==> !AgeAcceptable(f.age, p.age)
    ensures Attendance in errs <==> !AttendanceAcceptable(f.attendance, p.attendance)
    ensures Name in errs ==> errs[Name] == NAME_REQUIRED
    ensures ClassName in errs ==> errs[ClassName] == CLASS_REQUIRED
    ensures Subjects in errs ==> errs[Subjects] == SUBJECTS_REQUIRED
    ensures Age in errs ==> errs[Age] == (if f.age == "" then AGE_REQUIRED else AGE_RANGE)
    ensures Attendance in errs ==>
              errs[Attendance] == (if f.attendance == "" then ATTENDANCE_REQUIRED else ATTENDANCE_RANGE)
  {
    ErrorMapText(f, p);
    ErrorMapNumbers(f, p);
    ErrorMap(f, p)
  }

  /** The map of every message `FieldError` reports. */
  function ErrorMap(f: FormData, p: Parsed): Errors {
    map k | k in AllFields && FieldError(f, p, k).Some? :: FieldError(f, p, k).value
  }

  /** The text fields of `ErrorMap`, stated through `trim()`. */
  lemma ErrorMapText(f: FormData, p: Parsed)
    ensures var errs := ErrorMap(f, p);
            && (Name in errs <==> Trim(f.name) == "")
            && (ClassName in errs <==> Trim(f.className) == "")
            && (Subjects in errs <==> Trim(f.subjects) == "")
            && (Name in errs ==> errs[Name] == NAME_REQUIRED)
            && (ClassName in errs ==> errs[ClassName] == CLASS_REQUIRED)
            && (Subjects in errs ==> errs[Subjects] == SUBJECTS_REQUIRED)
  {
    TrimEmptyIff(f.name);
    TrimEmptyIff(f.className);
    TrimEmptyIff(f.subjects);
  }

  /** The number fields of `ErrorMap`. */
  lemma ErrorMapNumbers(f: FormData, p: Parsed)
    ensures var errs := ErrorMap(f, p);
            && (Age in errs <==> !AgeAcceptable(f.age, p.age))
            && (Attendance in errs <==> !AttendanceAcceptable(f.attendance, p.attendance))
            && (Age in errs ==> errs[Age] == (if f.age == "" then AGE_REQUIRED else AGE_RANGE))
            && (Attendance in errs ==>
                  errs[Attendance] == (if f.attendance == "" then ATTENDANCE_REQUIRED else ATTENDANCE_RANGE))
  {
  }

  /** The stored map holds exactly the messages `FieldError` reports. */
  lemma ValidateEntries(f: FormData, p: Parsed, k: Field)
    ensures k in Validate(f, p) <==> FieldError(f, p, k).Some?
    ensures k in Validate(f, p) ==> Validate(f, p)[k] == FieldError(f, p, k).value
  {
  }

  /** `Object.keys(newErrors).length === 0`: no field has a message. */
  predicate IsValid(f: FormData, p: Parsed) {
    && FieldError(f, p, Name).None? && FieldError(f, p, Age).None?
    && FieldError(f, p, ClassName).None? && FieldError(f, p, Subjects).None?
    && FieldError(f, p, Attendance).None?
  }

  /** The form is valid exactly when `validateForm()` stores no error. */
  lemma ValidIff(f: FormData, p: Parsed)
    ensures IsValid(f, p) <==> Validate(f, p) == map[]
  {
    var errs := Validate(f, p);
    if IsValid(f, p) {
      forall k: Field ensures k !in errs {
        ValidateEntries(f, p, k);
      }
      assert errs.Keys == {};
    } else {
      ValidateEntries(f, p, Name);
      ValidateEntries(f, p, ClassName);
      ValidateEntries(f, p, Subjects);
    }
  }

  /** The form is valid exactly when every field passes its own rule: each
      text has a character `trim()` keeps, and both numbers parse into range. */
  lemma ValidRules(f: FormData, p: Parsed)
    ensures IsValid(f, p) <==>
              !AllWhitespace(f.name) && !AllWhitespace(f.className) && !AllWhitespace(f.subjects)
              && AgeAcceptable(f.age, p.age) && AttendanceAcceptable(f.attendance, p.attendance)
  {
  }

  /** The variables of a create or update mutation. */
  datatype EmployeeData = EmployeeData(name: string, age: int, className: string, subjects: string, attendance: real)

  /** What the modal's rules promise about anything it sends. */
  predicate WellFormed(pl: EmployeeData) {
    && pl.name != "" && Trim(pl.name) == pl.name
    && pl.className != "" && Trim(pl.className) == pl.className
    && pl.subjects != "" && Trim(pl.subjects) == pl.subjects
    && MIN_AGE <= pl.age <= MAX_AGE
    && MIN_ATTENDANCE <= pl.attendance <= MAX_ATTENDANCE
  }

  /** `employeeData`: trimmed texts and the parsed numbers. */
  function PayloadOf(f: FormData, p: Parsed): EmployeeData
    requires p.age.Some? && p.attendance.Some?
  {
    EmployeeData(Trim(f.name), p.age.value, Trim(f.className), Trim(f.subjects), p.attendance.value)
  }

  /** A form that validates yields a well-formed payload. */
  lemma ValidFormGivesWellFormedPayload(f: FormData, p: Parsed)
    requires IsValid(f, p)
    ensures p.age.Some? && p.attendance.Some?
    ensures WellFormed(PayloadOf(f, p))
  {
    ValidRules(f, p);
    assert Trim(f.name) != "" by { TrimEmptyIff(f.name); }
    assert Trim(f.className) != "" by { TrimEmptyIff(f.className); }
    assert Trim(f.subjects) != "" by { TrimEmptyIff(f.subjects); }
    TrimIdempotent(f.name);
    TrimIdempotent(f.className);
    TrimIdempotent(f.subjects);
  }

  datatype Mutation = CreateEmployee(data: EmployeeData) | UpdateEmployee(id: int, data: EmployeeData)

  /** Toasts, reduced to which one is raised. */
  datatype Notice = FixErrorsNotice | AdminOnlyNotice | SavingNotice(updating: bool)

  datatype ModalState = ModalState(form: FormData, errors: Errors, submitted: bool)

  /** The result of `handleSubmit`: the new state, the mutation sent if any, the toast. */
  datatype Submission = Submission(state: ModalState, mutation: Option<Mutation>, notice: Notice)

  /** `handleSubmit` for the modal's `employee` prop (edit mode iff present). */
  function HandleSubmit(st: ModalState, s: Session, employee: Option<Employee>, p: Parsed): (r: Submission)
    ensures r.state == ModalState(st.form, Validate(st.form, p), true)
    ensures r.mutation.Some? <==> IsValid(st.form, p) && IsAdmin(s)
    ensures !IsValid(st.form, p) ==> r.notice == FixErrorsNotice
    ensures IsValid(st.form, p) && !IsAdmin(s) ==> r.notice == AdminOnlyNotice
    ensures r.mutation.Some? ==>
              && r.notice == SavingNotice(employee.Some?)
              && WellFormed(r.mutation.value.data)
              && (r.mutation.value.UpdateEmployee? <==> employee.Some?)
              && (employee.Some? ==> r.mutation.value.id == employee.value.id)
  {
    var next := ModalState(st.form, Validate(st.form, p), true);
    if !IsValid(st.form, p) then Submission(next, None, FixErrorsNotice)
    else if !IsAdmin(s) then Submission(next, None, AdminOnlyNotice)
    else
      ValidFormGivesWellFormedPayload(st.form, p);
      var data := PayloadOf(st.form, p);
      match employee
      case Some(e) => Submission(next, Some(UpdateEmployee(e.id, data)), SavingNotice(true))
      case None => Submission(next, Some(CreateEmployee(data)), SavingNotice(false))
  }

  /** The mutation carries exactly the trimmed texts and parsed numbers of the form. */
  lemma SubmittedPayloadIsForm(st: ModalState, s: Session, employee: Option<Employee>, p: Parsed)
    requires IsValid(st.form, p) && IsAdmin(s)
    ensures var m := HandleSubmit(st, s, employee, p).mutation.value;
            m.data.name == Trim(st.form.name) && m.data.className == Trim(st.form.className)
            && m.data.subjects == Trim(st.form.subjects)
            && Some(m.data.age) == p.age && Some(m.data.attendance) == p.attendance
  {
    ValidFormGivesWellFormedPayload(st.form, p);
    var m := HandleSubmit(st, s, employee, p).mutation.value;
    assert m.data == PayloadOf(st.form, p);
  }

  /** Edit-mode prefill: `employee.age ? employee.age.toString() : ''`, and the
      same for attendance, so a zero is shown as an empty field.
      `showNumber` is `Number.prototype.toString` on the attendance value. */
  function Prefill(e: Employee, showNumber: real -> string): (f: FormData)
    ensures f.name == e.name && f.className == e.className && f.subjects == e.subjects
    ensures f.age == "" <==> e.age == 0
    ensures e.age != 0 ==> IntValue(f.age) == e.age
    ensures e.attendance == 0.0 ==> f.attendance == ""
    ensures e.attendance != 0.0 ==> f.attendance == showNumber(e.attendance)
  {
    IntToStringRoundTrip(e.age);
    FormData(
      e.name,
      if e.age != 0 then IntToString(e.age) else "",
      e.className,
      e.subjects,
      if e.attendance != 0.0 then showNumber(e.attendance) else "")
  }

  /** The effect on `[isOpen, employee]`: when open, reset `submitted` and
      `errors` and load the form (blank in add mode, the employee in edit mode). */
  function OnOpen(st: ModalState, isOpen: bool, employee: Option<Employee>, showNumber: real -> string): (r: ModalState)
    ensures !isOpen ==> r == st
    ensures isOpen ==> r.errors == map[] && !r.submitted
    ensures isOpen && employee.None? ==> r.form == Blank
    ensures isOpen && employee.Some? ==> r.form == Prefill(employee.value, showNumber)
  {
    if !isOpen then st
    else
      var form := if employee.Some? then Prefill(employee.value, showNumber) else Blank;
      ModalState(form, map[], false)
  }

  /** A field's error is on screen: submitted, and a non-empty message stored. */
  predicate ErrorShown(st: ModalState, field: Field) {
    st.submitted && field in st.errors && st.errors[field] != ""
  }

  /** `handleChange`: write the field and blank its message if one is stored. */
  function HandleChange(st: ModalState, field: Field, value: string): (r: ModalState)
    ensures r.form == Set(st.form, field, value) && r.submitted == st.submitted
    ensures !ErrorShown(r, field)
    ensures forall g :: g != field ==> (ErrorShown(r, g) <==> ErrorShown(st, g))
    ensures r.errors.Keys == st.errors.Keys
  {
    var errors := if field in st.errors && st.errors[field] != "" then st.errors[field := ""] else st.errors;
    ModalState(Set(st.form, field, value), errors, st.submitted)
  }

  /** What the mutation's `onCompleted` / `onError` ask of the page. */
  datatype Completion = Completion(refetchEmployees: bool, closeRequested: bool)

  /** Success refetches the list and calls `onClose`; failure only raises a toast. */
  function MutationCompleted(success: bool): (c: Completion)
    ensures c.closeRequested <==> success
    ensures c.refetchEmployees <==> success
  {
    if success then Completion(true, true) else Completion(false, false)
  }

  /** A failed save leaves the dialog open with the form intact, and
      resubmitting once the form is valid sends the mutation (no automatic retry). */
  lemma FailedSaveAllowsRetry(st: ModalState, s: Session, employee: Option<Employee>,
                              p: Parsed, fixedForm: FormData, q: Parsed)
    requires IsValid(st.form, p) && IsAdmin(s)
    requires IsValid(fixedForm, q)
    ensures !MutationCompleted(false).closeRequested
    ensures HandleSubmit(HandleSubmit(st, s, employee, p).state.(form := fixedForm), s, employee, q)
              .mutation.Some?
  {
  }

  // ---- Prefill of a zero attendance ----

  /** An employee record the modal itself would accept. */
  predicate Acceptable(e: Employee) {
    && Trim(e.name) == e.name && e.name != ""
    && Trim(e.className) == e.className && e.className != ""
    && Trim(e.subjects) == e.subjects && e.subjects != ""
    && MIN_AGE <= e.age <= MAX_AGE
    && MIN_ATTENDANCE <= e.attendance <= MAX_ATTENDANCE
  }

  /** As written: an acceptable employee with attendance 0 cannot be saved
      unchanged, because the prefilled attendance field is empty and
      `validateForm()` reports it missing, however the field is parsed. */
  lemma ZeroAttendanceBlocksResave(e: Employee, showNumber: real -> string, p: Parsed)
    requires Acceptable(e) && e.attendance == 0.0
    ensures var st := OnOpen(ModalState(Blank, map[], false), true, Some(e), showNumber);
            && st.form.attendance == ""
            && Attendance in Validate(st.form, p)
            && Validate(st.form, p)[Attendance] == ATTENDANCE_REQUIRED
            && !IsValid(st.form, p)
  {
    var st := OnOpen(ModalState(Blank, map[], false), true, Some(e), showNumber);
    AttendanceMissing(st.form, p);
  }

  /** Such an employee exists: Ann, 30, in Ops, taking Math, never attending. */
  lemma ZeroAttendanceWitness()
    ensures Acceptable(Employee(1, "Ann", 30, "Ops", "Math", 0.0))
  {
    PlainWordTrims("Ann");
    PlainWordTrims("Ops");
    PlainWordTrims("Math");
  }

  /** An empty attendance field is reported as missing. */
  lemma AttendanceMissing(f: FormData, p: Parsed)
    requires f.attendance == ""
    ensures Attendance in Validate(f, p) && Validate(f, p)[Attendance] == ATTENDANCE_REQUIRED
    ensures !IsValid(f, p)
  {
    assert FieldError(f, p, Attendance) == Some(ATTENDANCE_REQUIRED);
  }

  /** A word of letters trims to itself. */
  lemma PlainWordTrims(w: string)
    requires forall i :: 0 <= i < |w| ==> 'A' <= w[i] <= 'z'
    ensures Trim(w) == w
  {
    if w != "" {
      assert 'A' <= w[0] <= 'z' && 'A' <= w[|w| - 1] <= 'z';
      TrimUntouched(w);
    }
  }

  /** Intended prefill, every present number printed (zero included, as
      `FromEmployee` does): any acceptable employee then validates unchanged,
      given that `parseInt`/`parseFloat` read back the printed numbers. */
  lemma IntendedPrefillRevalidates(e: Employee, showNumber: real -> string)
    requires Acceptable(e)
    requires showNumber(e.attendance) != ""
    ensures IsValid(FromEmployee(e, showNumber), Parsed(Some(e.age), Some(e.attendance)))
  {
    var f := FromEmployee(e, showNumber);
    assert !AllWhitespace(e.name) by { TrimEmptyIff(e.name); }
    assert !AllWhitespace(e.className) by { TrimEmptyIff(e.className); }
    assert !AllWhitespace(e.subjects) by { TrimEmptyIff(e.subjects); }
    ValidRules(f, Parsed(Some(e.age), Some(e.attendance)));
  }
}
