/** `PermissionButton`: the client-side authorization gate and the choice of
    what to render when it denies. */
module PermissionButton {
  import opened Common
  import opened AuthSession

  /** `hasPermission()` for the session's identity and a required role string. */
  function HasPermission(s: Session, requiredRole: string): (allowed: bool)
    ensures allowed ==> s.user.Some?
    ensures requiredRole == ADMIN ==> (allowed <==> IsAdmin(s))
    ensures requiredRole == USER ==> (allowed <==> s.user.Some?)
    ensures requiredRole != ADMIN && requiredRole != USER ==> !allowed
  {
    if s.user.None? then false
    else if requiredRole == ADMIN then IsAdmin(s)
    else if requiredRole == USER then true
    else false
  }

  /** Whatever passes the ADMIN gate passes the USER gate. */
  lemma AdminGateImpliesUserGate(s: Session)
    ensures HasPermission(s, ADMIN) ==> HasPermission(s, USER)
  {
  }

  /** What the component renders. */
  datatype Shown = ShowChildren | ShowFallback | ShowNothing

  /** The render choice. `hideDenied` is the `hide` prop; `hasFallback` says
      whether a non-null `fallback` prop was passed (it defaults to null,
      which renders nothing). */
  function Render(s: Session, requiredRole: string, hasFallback: bool, hideDenied: bool): (r: Shown)
    ensures r == ShowChildren <==> HasPermission(s, requiredRole)
    ensures r == ShowFallback <==> !HasPermission(s, requiredRole) && !hideDenied && hasFallback
    ensures hideDenied ==> r != ShowFallback
  {
    if !HasPermission(s, requiredRole) then
      if hideDenied then ShowNothing
      else if hasFallback then ShowFallback
      else ShowNothing
    else ShowChildren
  }

  /** The `requiredRole="ADMIN" hide` pattern the views use for Edit and
      Delete: the control appears for admins and nothing at all appears otherwise. */
  lemma AdminOnlyHidden(s: Session, hasFallback: bool)
    ensures Render(s, ADMIN, hasFallback, true) == (if IsAdmin(s) then ShowChildren else ShowNothing)
  {
  }
}
