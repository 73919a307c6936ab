/** `LoginPage`: the submit handler's error / loading / redirect state machine. */
module LoginPage {
  import opened Common
  import opened AuthSession

  const INVALID_CREDENTIALS: string := "Invalid email or password"

  datatype LoginForm = LoginForm(
    email: string,
    password: string,
    error: string,
    loading: bool,
    navigation: Option<string>)  // `window.location.href` after a successful login

  const InitialForm: LoginForm := LoginForm("", "", "", false, None)

  /** The submit button is disabled exactly while a login is in flight. */
  predicate SubmitDisabled(f: LoginForm) {
    f.loading
  }

  /** Before calling `login`: clear the error and mark the form busy. */
  function BeginSubmit(f: LoginForm): (r: LoginForm)
    ensures r.error == "" && SubmitDisabled(r)
    ensures r.email == f.email && r.password == f.password && r.navigation == f.navigation
  {
    f.(error := "", loading := true)
  }

  /** The landing page for a logged-in identity. */
  function LandingPath(u: User): (p: string)
    ensures p == "/admin" <==> u.role == ADMIN
    ensures p == "/admin" || p == "/dashboard"
  {
    if u.role == ADMIN then "/admin" else "/dashboard"
  }

  /** After `login` settles: redirect by role, or show the fixed message and re-enable. */
  function FinishSubmit(f: LoginForm, result: Result<User>): (r: LoginForm)
    ensures result.Ok? ==> r == f.(navigation := Some(LandingPath(result.value)))
    ensures result.Thrown? ==> r == f.(error := INVALID_CREDENTIALS, loading := false)
  {
    match result
    case Ok(u) => f.(navigation := Some(LandingPath(u)))
    case Thrown => f.(error := INVALID_CREDENTIALS, loading := false)
  }

  /** `handleSubmit` end to end against the session. */
  function HandleSubmit(f: LoginForm, s: Session, outcome: AuthOutcome): (r: (LoginForm, Session))
    ensures outcome.Payload? ==>
              r.0.navigation == Some(LandingPath(outcome.user)) && r.0.error == ""
              && SubmitDisabled(r.0) && r.1.user == Some(outcome.user)
    ensures !outcome.Payload? ==>
              r.0.error == INVALID_CREDENTIALS && !SubmitDisabled(r.0)
              && r.0.navigation == f.navigation && r.1 == s
  {
    var step := Login(s, outcome);
    (FinishSubmit(BeginSubmit(f), step.result), step.session)
  }

  /** A successful login lands on `/admin` exactly when the new session is an admin session. */
  lemma LandingMatchesAdmin(f: LoginForm, s: Session, outcome: AuthOutcome)
    requires outcome.Payload?
    ensures var r := HandleSubmit(f, s, outcome);
            r.0.navigation == Some("/admin") <==> IsAdmin(r.1)
  {
  }
}
