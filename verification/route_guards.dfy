/** The route guards of the layout: `StoreProtectedRoute`,
    `BranchProtectedRoute` and `AuthenticatedRoute`, each a pure decision of
    the session's `token` and `user` (and the route's `allowedRoles`). */
module RouteGuards {
  import opened Wrappers
  import opened JsValues
  import opened AuthSlice

  datatype Decision = Render | Redirect(to: string)

  const Landing := "/"
  const UnauthorizedPath := "/unauthorized"
  const StoreHome := "/store"
  const BranchHome := "/branch"

  const AdminRole := "admin"
  const BranchManagerRole := "branch_manager"

  /** The role check: no `allowedRoles` admits everyone; otherwise the user
      must exist and hold one of the roles. */
  predicate RoleAdmitted(user: Option<User>, allowedRoles: Option<seq<string>>) {
    allowedRoles.None? || (user.Some? && user.value.role in allowedRoles.value)
  }

  /** The home area of a role: admins go to the store, branch managers to
      the branch; other roles and anonymous users have none. */
  function RoleHome(user: Option<User>): (r: Option<string>)
    ensures r == Some(StoreHome) <==> user.Some? && user.value.role == AdminRole
    ensures r == Some(BranchHome) <==> user.Some? && user.value.role == BranchManagerRole
    ensures r.Some? ==> r.value == StoreHome || r.value == BranchHome
  {
    if user.Some? && user.value.role == AdminRole then Some(StoreHome)
    else if user.Some? && user.value.role == BranchManagerRole then Some(BranchHome)
    else None
  }

  function StoreProtectedRoute(token: Option<string>, user: Option<User>, allowedRoles: Option<seq<string>>): (d: Decision)
    ensures !Present(token) ==> d == Redirect(Landing)
    ensures d == Render <==> Present(token) && RoleAdmitted(user, allowedRoles)
    ensures d == Redirect(UnauthorizedPath) <==> Present(token) && !RoleAdmitted(user, allowedRoles)
  {
    if !Present(token) then Redirect(Landing)
    else if allowedRoles.Some? && (user.None? || user.value.role !in allowedRoles.value) then Redirect(UnauthorizedPath)
    else Render
  }

  function BranchProtectedRoute(token: Option<string>, user: Option<User>, allowedRoles: Option<seq<string>>): (d: Decision)
    ensures !Present(token) ==> d == Redirect(Landing)
    ensures d == Render <==> Present(token) && RoleAdmitted(user, allowedRoles)
    ensures d == Redirect(UnauthorizedPath) <==> Present(token) && !RoleAdmitted(user, allowedRoles)
  {
    if !Present(token) then Redirect(Landing)
    else if allowedRoles.Some? && (user.None? || user.value.role !in allowedRoles.value) then Redirect(UnauthorizedPath)
    else Render
  }

  /** The two protected-route components decide identically. */
  lemma ProtectedRoutesAgree(token: Option<string>, user: Option<User>, allowedRoles: Option<seq<string>>)
    ensures BranchProtectedRoute(token, user, allowedRoles) == StoreProtectedRoute(token, user, allowedRoles)
  {
  }

  /** On the branch tree (`allowedRoles = ["branch_manager"]`) a signed-in
      admin is refused and a branch manager admitted. */
  lemma BranchTreeAdmitsOnlyManagers(token: Option<string>, u: User)
    requires Present(token)
    ensures u.role == AdminRole ==> BranchProtectedRoute(token, Some(u), Some([BranchManagerRole])) == Redirect(UnauthorizedPath)
    ensures u.role == BranchManagerRole ==> BranchProtectedRoute(token, Some(u), Some([BranchManagerRole])) == Render
  {
  }

  /** Keeps signed-in users off the login screen: a user with a home role
      is sent there, anyone else sees the children. It looks only at `user`. */
  function AuthenticatedRoute(user: Option<User>): (d: Decision)
    ensures d == Render <==> RoleHome(user).None?
    ensures d.Redirect? ==> Some(d.to) == RoleHome(user)
  {
    match RoleHome(user)
    case Some(home) => Redirect(home)
    case None => Render
  }

  /** `AuthenticatedRoute` with the token check the protected routes make:
      only a session that the home area will admit is sent there. */
  function AuthenticatedRouteWithToken(token: Option<string>, user: Option<User>): (d: Decision)
    ensures d == Render <==> !Present(token) || RoleHome(user).None?
    ensures d.Redirect? ==> Some(d.to) == RoleHome(user) && Present(token)
  {
    if Present(token) then AuthenticatedRoute(user) else Render
  }
}
