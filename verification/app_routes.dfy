/** The application's route table: the landing route behind
    `AuthenticatedRoute` (whose login page redirects by role), the branch
    tree for branch managers, the store tree for admins, and the
    unauthorized and not-found pages, which always render. */
module AppRoutes {
  import opened Wrappers
  import opened JsValues
  import opened AuthSlice
  import opened AuthFlows
  import opened RouteGuards
  import opened LoginPage
  import opened Http
  import opened JsStrings

  /** `path` is `root` or a path below it, as the router matches a splat
      route: without regard to letter case, since no route of the table
      sets `caseSensitive`. Every `root` here is written in lower case. */
  predicate InTree(path: string, root: string) {
    var p := ToLower(path);
    p == root || (|p| > |root| && p[..|root| + 1] == root + "/")
  }

  /** The route table's paths are written in lower case. */
  lemma LowerCasePaths()
    ensures ToLower(Landing) == Landing && ToLower(UnauthorizedPath) == UnauthorizedPath
    ensures ToLower(StoreHome) == StoreHome && ToLower(BranchHome) == BranchHome
  {
    ToLowerNoCapitals(Landing);
    ToLowerNoCapitals(UnauthorizedPath);
    ToLowerNoCapitals(StoreHome);
    ToLowerNoCapitals(BranchHome);
  }

  /** The unauthorized page lies in neither protected tree, which is why
      the router always renders it. */
  lemma UnauthorizedOutsideTrees()
    ensures !InTree(UnauthorizedPath, StoreHome) && !InTree(UnauthorizedPath, BranchHome)
  {
    LowerCasePaths();
    assert UnauthorizedPath[..|StoreHome| + 1][1] != (StoreHome + "/")[1];
    assert UnauthorizedPath[..|BranchHome| + 1][1] != (BranchHome + "/")[1];
  }

  /** Only "/" itself lower-cases to "/". */
  lemma LowerLanding(path: string)
    ensures ToLower(path) == Landing <==> path == Landing
  {
    if ToLower(path) == Landing {
      assert LowerChar(path[0]) == '/';
    } else if path == Landing {
      LowerCasePaths();
    }
  }

  predicate KnownTarget(p: string) {
    p == Landing || p == UnauthorizedPath || p == StoreHome || p == BranchHome
  }

  /** What the router does with `path` for the session `a`. */
  function Route(a: AuthState, path: string): (d: Decision)
    ensures d.Redirect? ==> KnownTarget(d.to)
    ensures path == UnauthorizedPath ==> d == Render
    ensures InTree(path, StoreHome) && path != Landing && !InTree(path, BranchHome) ==>
              (d == Render <==> Present(a.token) && a.user.Some? && a.user.value.role == AdminRole)
    ensures InTree(path, BranchHome) && path != Landing ==>
              (d == Render <==> Present(a.token) && a.user.Some? && a.user.value.role == BranchManagerRole)
    ensures path == Landing ==> (d == Render <==> RoleHome(a.user).None?) && (d.Redirect? ==> Some(d.to) == RoleHome(a.user))
  {
    UnauthorizedOutsideTrees();
    if path == Landing then
      (match AuthenticatedRoute(a.user)
       case Redirect(p) => Redirect(p)
       case Render =>
         // The login page's own redirect effect, kept as written. It never
         // fires here: `AuthenticatedRoute` has already redirected every
         // user with a home role, and those are the users it would move.
         match LoginRedirect(a.user)
         case Some(p) => Redirect(p)
         case None => Render)
    else if InTree(path, BranchHome) then BranchProtectedRoute(a.token, a.user, Some([BranchManagerRole]))
    else if InTree(path, StoreHome) then StoreProtectedRoute(a.token, a.user, Some([AdminRole]))
    else Render
  }

  /** The router ignores the letter case of the path: a path is routed as
      its lower case is. */
  lemma RouteIgnoresCase(a: AuthState, path: string)
    ensures Route(a, path) == Route(a, ToLower(path))
  {
    ToLowerIdempotent(path);
    LowerLanding(path);
    LowerCasePaths();
  }

  /** A signed-out visit to "/Store" is the store tree's, so it is sent to
      the landing route rather than to the not-found page. */
  lemma SignedOutMixedCaseStore(a: AuthState)
    requires !Present(a.token)
    ensures Route(a, "/Store") == Redirect(Landing)
  {
    var p := ToLower("/Store");
    assert p[0] == '/' && p[1] == 's' && p[2] == 't' && p[3] == 'o' && p[4] == 'r' && p[5] == 'e';
    assert p == StoreHome;
    assert p[1] != BranchHome[1];
  }

  /** A branch manager is refused the store tree; an admin gets it. */
  lemma StoreTreeByRole(a: AuthState)
    requires Present(a.token) && a.user.Some?
    ensures a.user.value.role == BranchManagerRole ==> Route(a, StoreHome) == Redirect(UnauthorizedPath)
    ensures a.user.value.role == AdminRole ==> Route(a, StoreHome) == Render
  {
  }

  /** A fulfilled login that names an admin user but carries no `access`
      token leaves a session that the router bounces between the landing
      route and the store tree forever. */
  lemma RedirectLoopAsWritten(u: User)
    requires u.role == AdminRole
    ensures var a := LoginUser(Start, Ok(LoginData(None, Some("r"), Some(u)))).client.auth;
            Route(a, Landing) == Redirect(StoreHome) && Route(a, StoreHome) == Redirect(Landing)
  {
  }

  /** The route table with the landing route's two role redirects gated on
      the token, as the protected routes gate on it. */
  function RouteWithToken(a: AuthState, path: string): (d: Decision)
    ensures d.Redirect? ==> KnownTarget(d.to)
    ensures path == UnauthorizedPath ==> d == Render
  {
    if path == Landing then
      (match AuthenticatedRouteWithToken(a.token, a.user)
       case Redirect(p) => Redirect(p)
       case Render =>
         match LoginRedirectWithToken(a.token, a.user)
         case Some(p) => Redirect(p)
         case None => Render)
    else Route(a, path)
  }

  /** With the token check, every redirect lands on a route that renders:
      navigation settles after at most one hop, for every session. */
  lemma RoutesSettleWithToken(a: AuthState, path: string)
    ensures var d := RouteWithToken(a, path);
            d.Redirect? ==> RouteWithToken(a, d.to) == Render
  {
    var d := RouteWithToken(a, path);
    if d.Redirect? {
      LowerCasePaths();
      assert !InTree(Landing, StoreHome) && !InTree(Landing, BranchHome);
      UnauthorizedOutsideTrees();
      assert InTree(StoreHome, StoreHome) && !InTree(StoreHome, BranchHome);
      assert InTree(BranchHome, BranchHome);
    }
  }

  /** The check changes nothing for a session whose token is present or
      whose user has no home area. */
  lemma RouteWithTokenAgrees(a: AuthState, path: string)
    requires Present(a.token) || RoleHome(a.user).None?
    ensures RouteWithToken(a, path) == Route(a, path)
  {
  }
}
