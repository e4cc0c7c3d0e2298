/** The admin sidebar's navigation: which item is highlighted for the
    current address. */
module Sidebar {
  import opened Text

  datatype NavItem = NavItem(name: string, icon: string, path: string)

  /** `navItems`. */
  const NavItems: seq<NavItem> := [
    NavItem("Products", "shopping_bag", "/admin/products"),
    NavItem("Categories", "category", "/admin/categories"),
    NavItem("Pin Parser", "content_cut", "/admin/pin-parser"),
    NavItem("Feedback", "feedback", "/admin/feedback"),
    NavItem("Settings", "settings", "/admin/settings")
  ]

  /** `isActive`: the address is the item's path, or (for any path but
      "/admin") lies below it after a '/'. */
  predicate IsActive(pathname: string, path: string) {
    pathname == path || (path != "/admin" && StartsWith(pathname, path + "/"))
  }

  /** An item is active exactly on its own path and on the addresses
      `path + "/" + rest`, the latter only when its path is not "/admin". */
  lemma IsActiveIff(pathname: string, path: string)
    ensures IsActive(pathname, path) <==>
      pathname == path || (path != "/admin" && exists rest :: pathname == path + "/" + rest)
  {
    if path != "/admin" && StartsWith(pathname, path + "/") {
      var rest := pathname[|path| + 1..];
      assert pathname == pathname[..|path| + 1] + rest;
    }
    if path != "/admin" && exists rest :: pathname == path + "/" + rest {
      var rest :| pathname == path + "/" + rest;
      assert pathname[..|path| + 1] == path + "/";
    }
  }

  /** A sub-route activates its item: "/admin/products/edit/7" activates
      Products. */
  lemma SubRouteActive(path: string, rest: string)
    requires path != "/admin"
    ensures IsActive(path + "/" + rest, path)
  {
    IsActiveIff(path + "/" + rest, path);
  }

  /** An address that merely extends the path without a '/' is not active:
      "/admin/productsX" does not activate Products. */
  lemma PartialNotActive(path: string, tail: string)
    requires tail != [] && tail[0] != '/'
    ensures !IsActive(path + tail, path)
  {
    var p := path + tail;
    assert p[|path|] == tail[0];
  }

  /** "/admin" is active only on exactly "/admin". */
  lemma AdminExactOnly(pathname: string)
    ensures IsActive(pathname, "/admin") <==> pathname == "/admin"
  {
  }

  /** Two paths that differ at some position are never both prefixes of
      one address. */
  lemma DivergentPrefixes(p: string, a: string, b: string, k: nat)
    requires k < |a| && k < |b| && a[k] != b[k]
    ensures !(IsPrefix(a, p) && IsPrefix(b, p))
  {
  }

  lemma ActiveIsPrefix(pathname: string, path: string)
    requires IsActive(pathname, path)
    ensures IsPrefix(path, pathname)
  {
    if pathname != path {
      assert pathname[..|path|] == (path + "/")[..|path|] == path;
    }
  }

  /** Whatever the address, at most one item of the sidebar is highlighted. */
  lemma AtMostOneActive(pathname: string, i: nat, j: nat)
    requires i < j < |NavItems|
    ensures !(IsActive(pathname, NavItems[i].path) && IsActive(pathname, NavItems[j].path))
  {
    var a := NavItems[i].path;
    var b := NavItems[j].path;
    if IsActive(pathname, a) && IsActive(pathname, b) {
      ActiveIsPrefix(pathname, a);
      ActiveIsPrefix(pathname, b);
      var k := if i == 0 && j == 2 then 8 else 7;
      assert a[k] != b[k];
      DivergentPrefixes(pathname, a, b, k);
    }
  }
}
