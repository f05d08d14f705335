/**
  The page header: the three navigation links, which of them is highlighted for the current
  path, whether they are shown at all, and the avatar initials of the signed-in user.
 */
module Header {
  import opened Text

  datatype NavItem = NavItem(to: string, text: string)

  const NavItems: seq<NavItem> := [
    NavItem("/dashboard", "Dashboard"),
    NavItem("/change-requests", "Change Requests"),
    NavItem("/approvers", "Approvers")
  ]

  /** The header's defaults when no props are given. */
  const DefaultIsAuthenticated: bool := true
  const DefaultUserName: string := "John Doe"

  /** A link is highlighted when the path is the link's target or lies below it. */
  predicate IsActive(path: string, to: string)
  {
    path == to || StartsWith(path, to + "/")
  }

  /** Reference reading: the path equals the target, or it continues the target with a '/' right after it. */
  lemma IsActiveIff(path: string, to: string)
    ensures IsActive(path, to) <==>
      (path == to || (|path| > |to| && path[..|to|] == to && path[|to|] == '/'))
  {
    if |path| > |to| && path[..|to|] == to && path[|to|] == '/' {
      assert path[..|to| + 1] == path[..|to|] + [path[|to|]];
    }
    if StartsWith(path, to + "/") {
      assert path[..|to|] == (to + "/")[..|to|];
      assert path[|to|] == (to + "/")[|to|];
    }
  }

  /** A path that merely begins with the same letters does not highlight a link. */
  lemma SiblingPathNotActive()
    ensures !IsActive("/dashboardx", "/dashboard")
    ensures IsActive("/change-requests/new", "/change-requests")
    ensures IsActive("/change-requests/1", "/change-requests")
  {
    IsActiveIff("/dashboardx", "/dashboard");
    IsActiveIff("/change-requests/new", "/change-requests");
    IsActiveIff("/change-requests/1", "/change-requests");
  }

  lemma ActiveSharesSecondChar(path: string, to: string)
    requires |to| >= 2
    requires IsActive(path, to)
    ensures |path| >= 2 && path[1] == to[1]
  {
    IsActiveIff(path, to);
    if path != to {
      assert path[..|to|][1] == to[1];
    }
  }

  /** Whatever the path, at most one navigation link is highlighted. */
  lemma AtMostOneActive(path: string, i: int, j: int)
    requires 0 <= i < |NavItems| && 0 <= j < |NavItems|
    requires IsActive(path, NavItems[i].to) && IsActive(path, NavItems[j].to)
    ensures i == j
  {
    ActiveSharesSecondChar(path, NavItems[i].to);
    ActiveSharesSecondChar(path, NavItems[j].to);
    assert NavItems[0].to[1] == 'd' && NavItems[1].to[1] == 'c' && NavItems[2].to[1] == 'a';
  }

  /** The navigation links rendered: all of them when signed in, none otherwise. */
  function VisibleNavItems(isAuthenticated: bool): seq<NavItem>
  {
    if isAuthenticated then NavItems else []
  }

  /** The indices of the visible links that are highlighted on `path`. */
  function ActiveLinks(path: string, isAuthenticated: bool): set<int>
  {
    var items := VisibleNavItems(isAuthenticated);
    set i | 0 <= i < |items| && IsActive(path, items[i].to)
  }

  /** At most one visible link is highlighted; signed out, none is. */
  lemma ActiveLinksAtMostOne(path: string, isAuthenticated: bool)
    ensures |ActiveLinks(path, isAuthenticated)| <= 1
    ensures !isAuthenticated ==> ActiveLinks(path, isAuthenticated) == {}
  {
    var r := ActiveLinks(path, isAuthenticated);
    if r != {} {
      var i :| i in r;
      forall j | j in r ensures j == i {
        AtMostOneActive(path, i, j);
      }
      assert r == {i};
    }
  }

  /** With the default props all three links are shown, and every path below
      `/change-requests/` (a change request's page, or the create page) highlights exactly
      the 'Change Requests' link. */
  lemma DefaultHeader(path: string)
    ensures VisibleNavItems(DefaultIsAuthenticated) == NavItems
    ensures StartsWith(path, "/change-requests/") ==> ActiveLinks(path, DefaultIsAuthenticated) == {1}
  {
    if StartsWith(path, "/change-requests/") {
      assert NavItems[1].to + "/" == "/change-requests/";
      assert IsActive(path, NavItems[1].to);
      var r := ActiveLinks(path, DefaultIsAuthenticated);
      assert 1 in r;
      forall j | j in r ensures j == 1 {
        AtMostOneActive(path, 1, j);
      }
    }
  }

  /** The avatar of the default user shows "JD". */
  lemma DefaultInitials()
    ensures Initials(DefaultUserName) == "JD"
  {
    assert DefaultUserName == "John" + " " + "Doe";
    InitialsOfTwoWords("John", "Doe");
  }
}
