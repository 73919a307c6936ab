/** `ProtectedRoute`: hold while the session resolves, send anonymous
    visitors to the login page, render the protected content otherwise. */
module ProtectedRoute {
  import opened Common
  import opened AuthSession

  datatype RouteView =
    | LoadingPlaceholder
    | RedirectToLogin(target: string, from: string)  // `<Navigate to="/login" replace state={{from}}>`
    | RenderChildren

  const LOGIN_PATH: string := "/login"

  function Decide(s: Session, location: string): (v: RouteView)
    ensures s.loading ==> v == LoadingPlaceholder
    ensures !s.loading && s.user.None? ==> v == RedirectToLogin(LOGIN_PATH, location)
    ensures v == RenderChildren <==> PhaseOf(s) == Authenticated
  {
    if s.loading then LoadingPlaceholder
    else if s.user.None? then RedirectToLogin(LOGIN_PATH, location)
    else RenderChildren
  }

  /** Once rehydration has run, the route never shows the placeholder, and it
      shows the content exactly to a session that rehydrated to an identity. */
  lemma RouteAfterRehydration(stored: Option<string>, me: MeOutcome, location: string)
    ensures var v := Decide(CheckAuth(Initial(stored), me).session, location);
            v != LoadingPlaceholder
            && (v == RenderChildren <==> Present(stored) && me.MeUser?)
  {
    RehydrationSettles(stored, me);
  }

  /** After logout a settled session is redirected to the login page. */
  lemma RouteAfterLogout(s: Session, location: string)
    requires !s.loading
    ensures Decide(Logout(s), location) == RedirectToLogin(LOGIN_PATH, location)
  {
  }
}
