/** `Sidebar` and its `MenuItem`: collapsing the sidebar, and how a menu
    entry with a submenu differs from a plain link. */
module Sidebar {
  import opened Common
  import Navigation

  /** What `toggleSidebar` leaves: the new `collapsed` value, and the value
      passed to `onCollapse` if that callback was given. */
  datatype Toggled = Toggled(collapsed: bool, reported: Option<bool>)

  function ToggleSidebar(collapsed: bool, hasOnCollapse: bool): (r: Toggled)
    ensures r.collapsed == !collapsed
    ensures hasOnCollapse ==> r.reported == Some(r.collapsed)
    ensures !hasOnCollapse ==> r.reported.None?
  {
    var next := !collapsed;
    Toggled(next, if hasOnCollapse then Some(next) else None)
  }

  /** Toggling twice restores the sidebar, and the parent is told both times,
      the second time the original value. */
  lemma ToggleTwiceRestores(collapsed: bool, hasOnCollapse: bool)
    ensures ToggleSidebar(ToggleSidebar(collapsed, hasOnCollapse).collapsed, hasOnCollapse).collapsed == collapsed
    ensures hasOnCollapse ==>
              ToggleSidebar(ToggleSidebar(collapsed, hasOnCollapse).collapsed, hasOnCollapse).reported == Some(collapsed)
  {
  }

  /** The `children` prop of a `MenuItem`: none, a single element, or an
      array of `count` elements. */
  datatype Children = NoChildren | SingleChild | ChildList(count: nat)

  /** `Array.isArray(children) && children.length > 0`. */
  predicate HasSubmenu(c: Children) {
    c.ChildList? && c.count > 0
  }

  /** The `to` of the rendered link. */
  function LinkTarget(to: string, c: Children): (t: string)
    ensures HasSubmenu(c) ==> t == "#"
    ensures !HasSubmenu(c) ==> t == to
  {
    if HasSubmenu(c) then "#" else to
  }

  /** What a click on a menu entry does. */
  datatype Clicked = Clicked(isOpen: bool, defaultPrevented: bool, onClickInvoked: bool)

  /** The link's `onClick`: `toggleSubmenu(e)`, then `onClick()` for a plain entry. */
  function Click(isOpen: bool, c: Children, hasOnClick: bool): (r: Clicked)
    ensures HasSubmenu(c) ==> r.isOpen == !isOpen && r.defaultPrevented && !r.onClickInvoked
    ensures !HasSubmenu(c) ==> r.isOpen == isOpen && !r.defaultPrevented && (r.onClickInvoked <==> hasOnClick)
  {
    if HasSubmenu(c) then Clicked(!isOpen, true, false) else Clicked(isOpen, false, hasOnClick)
  }

  /** Two clicks on a submenu entry close what the first opened. */
  lemma SubmenuClickTwice(isOpen: bool, c: Children, hasOnClick: bool)
    requires HasSubmenu(c)
    ensures Click(Click(isOpen, c, hasOnClick).isOpen, c, hasOnClick).isOpen == isOpen
  {
  }

  /** The highlight class: `isActive && !hasSubmenu`. */
  predicate Highlighted(isActive: bool, c: Children) {
    isActive && !HasSubmenu(c)
  }

  /** The Employees entry of the sidebar has two child entries, so it links
      to `#` whatever its `to`, never navigates, never calls `closeSidebar` and is never
      highlighted, even on its own section. */
  lemma EmployeesEntryIsOnlyAToggle(to: string, pathname: string, isOpen: bool, isMobile: bool)
    ensures LinkTarget(to, ChildList(2)) == "#"
    ensures !Click(isOpen, ChildList(2), isMobile).onClickInvoked
    ensures !Highlighted(Navigation.IsActive(pathname, "/employees"), ChildList(2))
  {
  }

  /** A leaf entry on a phone (`onClick = isMobile ? closeSidebar : undefined`)
      closes the sidebar exactly when on a phone. */
  lemma LeafClosesOnMobile(isOpen: bool, isMobile: bool)
    ensures Click(isOpen, NoChildren, isMobile).onClickInvoked <==> isMobile
    ensures Click(isOpen, SingleChild, isMobile).onClickInvoked <==> isMobile
  {
  }
}
