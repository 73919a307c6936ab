/** `Layout`: the top bar with its links and the mobile menu. */
module Layout {
  import opened Common
  import opened AuthSession
  import Navigation
  import PermissionButton

  /** `toggleMobileMenu`. */
  function ToggleMobileMenu(open: bool): (r: bool)
    ensures r != open
  {
    !open
  }

  /** `closeMobileMenu`, called by every link of the mobile menu. */
  function CloseMobileMenu(open: bool): (r: bool)
    ensures !r
  {
    false
  }

  /** Toggling twice restores the menu; closing is idempotent and undoes an
      opening toggle. */
  lemma MobileMenuLaws(open: bool)
    ensures ToggleMobileMenu(ToggleMobileMenu(open)) == open
    ensures CloseMobileMenu(CloseMobileMenu(open)) == CloseMobileMenu(open)
    ensures CloseMobileMenu(ToggleMobileMenu(false)) == false
  {
  }

  /** The routes of the links in the bar, in order; Add Employee sits in a
      `PermissionButton requiredRole="ADMIN" hide`. */
  function NavLinks(s: Session): (links: seq<string>)
    ensures |links| == (if IsAdmin(s) then 4 else 3)
    ensures links[..3] == ["/", "/employees/grid", "/employees/tile"]
    ensures "/add" in links <==> IsAdmin(s)
  {
    PermissionButton.AdminOnlyHidden(s, false);
    var base := ["/", "/employees/grid", "/employees/tile"];
    if PermissionButton.Render(s, ADMIN, false, true) == PermissionButton.ShowChildren then base + ["/add"]
    else base
  }

  /** The highlighted link of the bar for a location. */
  function Highlighted(pathname: string, link: string): bool {
    if link == "/" then Navigation.HomeHighlighted(pathname) else Navigation.IsActive(pathname, link)
  }

  /** On either view page exactly its own link is highlighted, Home included. */
  lemma ViewPageHighlightsOnlyItself(s: Session, view: string)
    requires view == "/employees/grid" || view == "/employees/tile"
    ensures forall i :: 0 <= i < |NavLinks(s)| ==> (Highlighted(view, NavLinks(s)[i]) <==> NavLinks(s)[i] == view)
  {
    var links := NavLinks(s);
    Navigation.HomeHighlightIff(view);
    assert view[1] != '/';
    forall i | 0 <= i < |links| ensures Highlighted(view, links[i]) <==> links[i] == view {
      var l := links[i];
      if l != view && l != "/" {
        assert l == "/employees/grid" || l == "/employees/tile" || l == "/add";
        assert |view| == |l| || l == "/add";
        if l == "/add" {
          assert view[1] != l[1];
          assert !Navigation.IsActive(view, l);
        }
      }
    }
  }
}
