/** The `isActive(path)` rule that `Layout` and `Sidebar` both define to
    highlight the link of the current route: the path itself, or anything
    below it. */
module Navigation {
  import opened Text

  /** `location.pathname === path || location.pathname.startsWith(`${path}/`)`. */
  predicate IsActive(pathname: string, path: string) {
    pathname == path || StartsWith(pathname, path + "/")
  }

  /** A link is active on its own path and on every path below it. */
  lemma ActiveOnSelfAndBelow(path: string, rest: string)
    ensures IsActive(path, path)
    ensures IsActive(path + "/" + rest, path)
  {
    assert (path + "/" + rest)[..|path + "/"|] == path + "/";
  }

  /** A sibling that merely extends the name is not active: `/add` on
      `/address`. */
  lemma SiblingInactive(path: string, more: string)
    requires more != "" && more[0] != '/'
    ensures !IsActive(path + more, path)
  {
    var t := path + more;
    assert t[|path|] == more[0];
    assert (path + "/")[|path|] == '/';
  }

  /** Whether `s` starts with two slashes. */
  predicate DoubleSlash(s: string) {
    |s| >= 2 && s[0] == '/' && s[1] == '/'
  }

  /** The root link is active only on `/` itself and on paths beginning
      `//`: every other route is a sibling, not a child, of `/`. */
  lemma RootActiveIff(pathname: string)
    ensures IsActive(pathname, "/") <==> pathname == "/" || DoubleSlash(pathname)
  {
    var p := "/" + "/";
    assert |p| == 2 && p[0] == '/' && p[1] == '/';
    if DoubleSlash(pathname) {
      assert pathname[..2] == p;
    }
    if StartsWith(pathname, p) {
      assert pathname[0] == p[0] && pathname[1] == p[1];
    }
  }

  /** The Home link's highlight: `isActive('/') && !isActive('/employees')`. */
  predicate HomeHighlighted(pathname: string) {
    IsActive(pathname, "/") && !IsActive(pathname, "/employees")
  }

  /** The second conjunct never matters: Home is highlighted exactly on `/`
      and on paths beginning `//`, so it is dark on `/employees/grid` and
      `/add` alike. */
  lemma HomeHighlightIff(pathname: string)
    ensures HomeHighlighted(pathname) <==> pathname == "/" || DoubleSlash(pathname)
  {
    RootActiveIff(pathname);
    var e := "/employees";
    assert |e| == 10 && e[1] == 'e';
    assert (e + "/")[1] == 'e';
    assert DoubleSlash(pathname) ==> pathname != e && !StartsWith(pathname, e + "/");
  }
}
