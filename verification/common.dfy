/** Types shared by every component of the admin console: optional values
    (JavaScript `null`), outcomes of calls that may throw, the authenticated
    identity and the employee record returned by the API. */
module Common {

  /** A value that may be absent; `None` stands for JavaScript `null`/`undefined`. */
  datatype Option<+T> = None | Some(value: T)

  /** The outcome of an awaited call: it either returns a value or throws. */
  datatype Result<+T> = Ok(value: T) | Thrown

  /** The role string carried by an identity; the source compares it with these literals. */
  const ADMIN: string := "ADMIN"
  const USER: string := "USER"

  /** The identity returned by `me`, `login` and `signup`. */
  datatype User = User(id: string, email: string, role: string)

  /** An employee record as the API returns it. Timestamps are display-only and omitted. */
  datatype Employee = Employee(
    id: int,
    name: string,
    age: int,
    className: string,
    subjects: string,
    attendance: real)

  /** A call a handler makes on the API besides changing its own state:
      a delete or flag mutation, or a refetch of the employee list. */
  datatype Request = DeleteEmployee(id: int) | FlagEmployee(id: int, flagged: bool) | RefetchEmployees

  /** A handler's new state together with the calls it made, in order. */
  datatype Transition<S> = Transition(state: S, requests: seq<Request>)

  /** JavaScript truthiness of a possibly missing string: `null` and `""` are falsy. */
  predicate Present(s: Option<string>) {
    s.Some? && s.value != ""
  }
}
