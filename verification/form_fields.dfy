/** The text state both employee forms keep: five string fields edited
    through `handleChange`, and the numbers `parseInt`/`parseFloat` read from
    the age and attendance texts. */
module FormFields {
  import opened Common
  import opened Text

  datatype Field = Name | Age | ClassName | Subjects | Attendance

  datatype FormData = FormData(
    name: string,
    age: string,
    className: string,
    subjects: string,
    attendance: string)

  const Blank: FormData := FormData("", "", "", "", "")

  /** `formData[field]`. */
  function Get(f: FormData, field: Field): string {
    match field
    case Name => f.name
    case Age => f.age
    case ClassName => f.className
    case Subjects => f.subjects
    case Attendance => f.attendance
  }

  /** `{ ...formData, [field]: value }`. */
  function Set(f: FormData, field: Field, value: string): (r: FormData)
    ensures Get(r, field) == value
    ensures forall g :: g != field ==> Get(r, g) == Get(f, g)
  {
    match field
    case Name => f.(name := value)
    case Age => f.(age := value)
    case ClassName => f.(className := value)
    case Subjects => f.(subjects := value)
    case Attendance => f.(attendance := value)
  }

  /** Writing a field and then writing it back restores the form. */
  lemma SetRestore(f: FormData, field: Field, value: string)
    ensures Set(Set(f, field, value), field, Get(f, field)) == f
  {
  }

  /** An employee's fields as form text: `age.toString()` and
      `attendance.toString()`, the latter given as `showNumber`. */
  function FromEmployee(e: Employee, showNumber: real -> string): (f: FormData)
    ensures f.name == e.name && f.className == e.className && f.subjects == e.subjects
    ensures f.age != "" && IntValue(f.age) == e.age
    ensures f.attendance == showNumber(e.attendance)
  {
    IntToStringRoundTrip(e.age);
    FormData(e.name, IntToString(e.age), e.className, e.subjects, showNumber(e.attendance))
  }

  /** `parseInt(formData.age, 10)` and `parseFloat(formData.attendance)`;
      `None` is `NaN`. The JavaScript parsers are not part of this model. */
  datatype Parsed = Parsed(age: Option<int>, attendance: Option<real>)
}
