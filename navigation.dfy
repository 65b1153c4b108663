/** `useNavigation`: which navigation entry is active, and the mobile
    menu flag. The browser's `location.pathname` is a parameter. */
module Navigation {
  import opened Common

  /** `isActive(path)` on the page at `currentPath`: the root entry is
      active on "/" and "/dashboard", any other entry on every path that
      starts with it. */
  function IsActive(currentPath: string, path: string): bool
  {
    if path == "/" then currentPath == "/" || currentPath == "/dashboard"
    else StartsWith(currentPath, path)
  }

  /** An entry other than the root is active on its own path and below
      it, and on any path it is a textual prefix of. */
  lemma {:induction false} ActiveBelow(path: string, rest: string)
    requires path != "/"
    ensures IsActive(path + rest, path)
  {
    assert (path + rest)[..|path|] == path;
  }

  /** For any entry other than the root, being active is having the
      entry as a prefix of the current path. */
  lemma ActiveIffPrefix(currentPath: string, path: string)
    requires path != "/"
    ensures IsActive(currentPath, path) <==> exists rest :: currentPath == path + rest
  {
    if IsActive(currentPath, path) {
      var rest := currentPath[|path|..];
      assert currentPath == path + rest;
    }
    if exists rest :: currentPath == path + rest {
      var rest :| currentPath == path + rest;
      ActiveBelow(path, rest);
    }
  }

  /** The root entry is not active on "/generate" even though every path
      starts with "/", while "/gen" is active there. */
  lemma ActiveExamples()
    ensures !IsActive("/generate", "/")
    ensures IsActive("/generate", "/gen")
    ensures IsActive("/dashboard", "/")
  {
    ActiveBelow("/gen", "erate");
    assert "/gen" + "erate" == "/generate";
  }

  class NavigationState {
    var currentPath: string
    var isMobileMenuOpen: bool

    /** The hook's first render, then the effect that reads the path. */
    constructor (pathname: string)
      ensures currentPath == pathname && !isMobileMenuOpen
    {
      currentPath, isMobileMenuOpen := pathname, false;
    }

    method ToggleMobileMenu()
      modifies this
      ensures isMobileMenuOpen == !old(isMobileMenuOpen) && currentPath == old(currentPath)
    {
      isMobileMenuOpen := !isMobileMenuOpen;
    }

    method CloseMobileMenu()
      modifies this
      ensures !isMobileMenuOpen && currentPath == old(currentPath)
    {
      isMobileMenuOpen := false;
    }

    /** `handleLocationChange` on `popstate`. */
    method HandleLocationChange(pathname: string)
      modifies this
      ensures currentPath == pathname && !isMobileMenuOpen
    {
      currentPath := pathname;
      CloseMobileMenu();
    }
  }
}
