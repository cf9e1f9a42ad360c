/**
 * The route guard: from the session and the route's allowed roles it
 * decides to render the children, to redirect to the login page "/"
 * (clearing the session when the session is corrupt or the configuration
 * invalid), or to redirect to "/unauthorized".
 */
module ProtectedRoute {
  import opened Js
  import opened Text
  import opened AuthSlice

  /** `allowedRoles` as received: an array of role names, or something that is not an array. */
  datatype AllowedRoles = RoleList(roles: seq<string>) | NotAnArray

  /** The guard's three outcomes; `clearSession` says whether `logout` is dispatched. */
  datatype Decision = Allow | RedirectLogin(clearSession: bool) | Unauthorized

  /** Some allowed role equals `role` once both are lower-cased. */
  predicate RoleAllowed(role: string, roles: seq<string>)
  {
    exists i :: 0 <= i < |roles| && Lower(roles[i]) == Lower(role)
  }

  /** `normalizedAllowedRoles.includes(normalizedUserRole)`. */
  function Includes(roles: seq<string>, role: string): (r: bool)
    ensures r <==> RoleAllowed(role, roles)
  {
    if |roles| == 0 then false
    else if Lower(roles[0]) == Lower(role) then true
    else
      var r := Includes(roles[1..], role);
      assert RoleAllowed(role, roles[1..]) ==> RoleAllowed(role, roles) by {
        if RoleAllowed(role, roles[1..]) {
          var i :| 0 <= i < |roles[1..]| && Lower(roles[1..][i]) == Lower(role);
          assert Lower(roles[i + 1]) == Lower(role);
        }
      }
      r
  }

  /** The guard's decision for a session and a route configuration. */
  function Guard(s: Session, allowed: AllowedRoles): (d: Decision)
    ensures !Truthy(s.token) ==> d == RedirectLogin(false)
    ensures Truthy(s.token) && s.user.None? ==> d == RedirectLogin(true)
    ensures Truthy(s.token) && s.user.Some? && !Truthy(s.user.value.role) ==> d == RedirectLogin(true)
    ensures Truthy(s.token) && s.user.Some? && Truthy(s.user.value.role) && allowed.NotAnArray? ==> d == RedirectLogin(true)
    ensures d == Allow <==>
              Truthy(s.token) && s.user.Some? && Truthy(s.user.value.role) &&
              allowed.RoleList? && RoleAllowed(s.user.value.role.value, allowed.roles)
    ensures d == Unauthorized <==>
              Truthy(s.token) && s.user.Some? && Truthy(s.user.value.role) &&
              allowed.RoleList? && !RoleAllowed(s.user.value.role.value, allowed.roles)
  {
    if !Truthy(s.token) then RedirectLogin(false)
    else if s.user.None? then RedirectLogin(true)
    else if !Truthy(s.user.value.role) then RedirectLogin(true)
    else if allowed.NotAnArray? then RedirectLogin(true)
    else if !Includes(allowed.roles, s.user.value.role.value) then Unauthorized
    else Allow
  }

  /** The session after the guard ran: only the error paths dispatch `logout`. */
  function SessionAfter(s: Session, allowed: AllowedRoles): (r: Session)
    ensures Guard(s, allowed) == RedirectLogin(true) ==> r == AuthSlice.Initial
    ensures Guard(s, allowed) != RedirectLogin(true) ==> r == s
  {
    if Guard(s, allowed) == RedirectLogin(true) then Logout(s) else s
  }

  /** The redirect target of a decision; `None` means the children are rendered. */
  function Target(d: Decision): (t: Option<string>)
    ensures t.None? <==> d == Allow
  {
    match d
    case Allow => None
    case RedirectLogin(_) => Some("/")
    case Unauthorized => Some("/unauthorized")
  }

  /** Role comparison ignores ASCII case: two roles equal up to case get the same decision. */
  lemma CaseInsensitive(s: Session, u: User, r1: string, r2: string, allowed: AllowedRoles)
    requires r1 != "" && r2 != "" && Lower(r1) == Lower(r2)
    ensures Guard(s.(user := Some(u.(role := Some(r1)))), allowed) == Guard(s.(user := Some(u.(role := Some(r2)))), allowed)
  {
  }

  /** A stored role "Admin" is allowed by a route that allows "admin". */
  lemma AdminMatchesCapitalised(s: Session, u: User)
    requires Truthy(s.token) && s.user == Some(u) && u.role == Some("Admin")
    ensures Guard(s, RoleList(["admin"])) == Allow
  {
    assert Lower("admin") == Lower("Admin");
  }

  /** A student on an admin-only route is sent to "/unauthorized" and stays logged in. */
  lemma StudentOnAdminRoute(s: Session, u: User)
    requires Truthy(s.token) && s.user == Some(u) && u.role == Some("student")
    ensures Guard(s, RoleList(["admin"])) == Unauthorized
    ensures SessionAfter(s, RoleList(["admin"])) == s
  {
    assert Lower("admin") != Lower("student") by {
      assert Lower("admin")[0] == 'a' && Lower("student")[0] == 's';
    }
  }

  /** The dashboard route allows "admin", "user" and "student", in any letter case. */
  lemma DashboardRoles(s: Session, u: User)
    requires Truthy(s.token) && s.user == Some(u) && u.role.Some?
    requires Lower(u.role.value) == "admin" || Lower(u.role.value) == "user" || Lower(u.role.value) == "student"
    ensures Guard(s, RoleList(["admin", "user", "student"])) == Allow
  {
    var roles := ["admin", "user", "student"];
    var role := u.role.value;
    var i := if Lower(role) == "admin" then 0 else if Lower(role) == "user" then 1 else 2;
    LowerRoleNames();
    assert Lower(roles[i]) == Lower(role);
    assert Truthy(u.role) by {
      assert |role| == |Lower(role)| > 0;
    }
    assert RoleAllowed(role, roles);
  }

  /** The dashboard's role names are already lower case. */
  lemma LowerRoleNames()
    ensures Lower("admin") == "admin" && Lower("user") == "user" && Lower("student") == "student"
  {
    LowerOfLower("admin");
    LowerOfLower("user");
    LowerOfLower("student");
  }
}
