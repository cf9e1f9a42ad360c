/**
 * The dashboard frame: a student opening the dashboard root is sent to
 * the student page, replacing the history entry.
 */
module DashboardLayout {
  import opened Js
  import opened AuthSlice
  import Sidebar

  const StudentHome := "/dashboard/student"

  /** A navigation the layout performs; `replace` is always set. */
  datatype Navigation = Navigation(to: string, replace: bool)

  /** The layout's effect: a redirect exactly when the path is the dashboard root and the role is "student". */
  function Redirect(pathname: string, user: Option<User>): (r: Option<Navigation>)
    ensures r.Some? <==> pathname == Sidebar.DashboardRoot && Sidebar.NormalizeRole(user) == "student"
    ensures r.Some? ==> r.value == Navigation(StudentHome, true)
  {
    if pathname == Sidebar.DashboardRoot && Sidebar.NormalizeRole(user) == "student"
    then Some(Navigation(StudentHome, true)) else None
  }

  /** The target does not trigger the redirect again, so it fires at most once. */
  lemma RedirectSettles(pathname: string, user: Option<User>)
    ensures var r := Redirect(pathname, user); r.Some? ==> Redirect(r.value.to, user).None?
  {
  }

  /** After the redirect the student's sidebar highlights exactly its first link, "My Courses". */
  lemma RedirectHighlightsMyCourses(user: Option<User>, i: nat)
    requires Sidebar.NormalizeRole(user) == "student"
    requires i < |Sidebar.NavLinks("student")|
    ensures Sidebar.IsActive(Redirect(Sidebar.DashboardRoot, user).value.to, Sidebar.NavLinks("student")[i]) <==> i == 0
  {
    if i == 1 {
      var r := Sidebar.RoutePath("course-management");
      assert r[11] != StudentHome[11];
    }
  }
}
