/**
 * The dashboard sidebar: the role read from the stored user, the links
 * offered to each role, each link's route and which link is highlighted.
 */
module Sidebar {
  import opened Js
  import opened Text
  import opened AuthSlice

  /** `(user?.role || user?.Role || "").toString().toLowerCase()`. */
  function NormalizeRole(user: Option<User>): (r: string)
    ensures user.None? ==> r == ""
    ensures user.Some? && Truthy(user.value.role) ==> r == Lower(user.value.role.value)
    ensures user.Some? && !Truthy(user.value.role) && Truthy(user.value.legacyRole) ==> r == Lower(user.value.legacyRole.value)
    ensures user.Some? && !Truthy(user.value.role) && !Truthy(user.value.legacyRole) ==> r == ""
  {
    if user.None? then "" else Lower(OrElse(Or(user.value.role, user.value.legacyRole), ""))
  }

  datatype NavLink = NavLink(to: string, caption: string)

  const StudentLinks: seq<NavLink> := [NavLink("student", "My Courses"), NavLink("course-management", "Course Management")]

  const AdminLinks: seq<NavLink> := [
    NavLink("", "Dashboard Overview"), NavLink("course-management", "Course Management"),
    NavLink("batch", "Batch Management"), NavLink("Quiz", "Quiz Management"), NavLink("Lessons", "Lessons Management")]

  /** A student gets two links; every other role, the empty one included, gets the five admin links. */
  function NavLinks(role: string): (ls: seq<NavLink>)
    ensures role == "student" ==> |ls| == 2 && ls[0].to == "student" && ls[1].to == "course-management"
    ensures role != "student" ==> |ls| == 5 && ls[0].to == "" && ls[1].to == "course-management" && ls[2].to == "batch"
                                  && ls[3].to == "Quiz" && ls[4].to == "Lessons"
    ensures forall i, j :: 0 <= i < j < |ls| ==> ls[i].to != ls[j].to && ls[i].caption != ls[j].caption
  {
    if role == "student" then StudentLinks else AdminLinks
  }

  const DashboardRoot := "/dashboard"

  /** The link target: the dashboard root for an empty `to`, else a path below it. */
  function RoutePath(to: string): (p: string)
    ensures to == "" ==> p == DashboardRoot
    ensures to != "" ==> p == DashboardRoot + "/" + to
  {
    if to == "" then DashboardRoot else DashboardRoot + "/" + to
  }

  /** Distinct link targets have distinct routes. */
  lemma RoutePathInjective(a: string, b: string)
    requires RoutePath(a) == RoutePath(b)
    ensures a == b
  {
    var prefix := DashboardRoot + "/";
    if a != "" && b != "" {
      assert RoutePath(a)[|prefix|..] == a;
      assert RoutePath(b)[|prefix|..] == b;
    }
  }

  /** A link is highlighted when the current path equals its route. */
  predicate IsActive(pathname: string, link: NavLink)
  {
    pathname == RoutePath(link.to)
  }

  /** Whatever the path and role, at most one link is highlighted. */
  lemma AtMostOneActive(pathname: string, role: string, i: nat, j: nat)
    requires i < |NavLinks(role)| && j < |NavLinks(role)|
    requires IsActive(pathname, NavLinks(role)[i]) && IsActive(pathname, NavLinks(role)[j])
    ensures i == j
  {
    var ls := NavLinks(role);
    RoutePathInjective(ls[i].to, ls[j].to);
  }
}
