/** The route table and the authentication guard `router.beforeEach` of src/router/index.ts.
    The guard answers by calling `next`; the model returns the calls it makes, in order.
    The router acts on the first call, so `Decision` is the effective navigation. */
module Router {
  import opened Types

  /** A route record: its path, name, `meta.requiresAuth` flag and nested records. */
  datatype RouteRecord = RouteRecord(path: string, name: Option<string>, requiresAuth: bool, children: seq<RouteRecord>)

  // The route table (src/router/index.ts:13-65).
  const HomeRoute: RouteRecord := RouteRecord("/", Some("home"), false, [])
  const UserView: RouteRecord := RouteRecord("", Some("user"), true, [])
  const UserLayout: RouteRecord := RouteRecord("/user", None, true, [UserView])
  const BoardView: RouteRecord := RouteRecord("", Some("board"), true, [])
  const BoardLayout: RouteRecord := RouteRecord("/:boardId", None, true, [BoardView])
  const NotFoundRoute: RouteRecord := RouteRecord("/404", Some("404"), false, [])
  const Routes: seq<RouteRecord> := [HomeRoute, UserLayout, BoardLayout, NotFoundRoute]

  /** The `matched` list of every route a navigation can end on: a top-level record with no
      children, or a top-level record followed by one of its children (the table nests one
      level deep). */
  function LeafChains(records: seq<RouteRecord>): seq<seq<RouteRecord>> {
    if records == [] then []
    else
      var r := records[0];
      (if r.children == [] then [[r]]
       else seq(|r.children|, i requires 0 <= i < |r.children| => [r, r.children[i]]))
      + LeafChains(records[1..])
  }

  /** `to.matched.every((record) => record.meta.requiresAuth)` (src/router/index.ts:71). */
  function RequiresAuth(matched: seq<RouteRecord>): (r: bool)
    ensures r <==> forall i :: 0 <= i < |matched| ==> matched[i].requiresAuth
  {
    matched == [] || (matched[0].requiresAuth && RequiresAuth(matched[1..]))
  }

  /** The target of a navigation as the guard sees it. `redirect` is the `redirect` query
      value (`None` when absent). */
  datatype Location = Location(name: Option<string>, fullPath: string, redirect: Option<string>, matched: seq<RouteRecord>)

  /** One call of `next`: go on, go to a path, or go to a path with a `redirect` query. */
  datatype NextCall = Proceed | Redirect(path: string) | RedirectWithQuery(path: string, redirect: string)

  /** The call the guard makes when it reaches src/router/index.ts:80-87. */
  function AuthCheck(authenticated: bool, to: Location): NextCall {
    if authenticated then Proceed else RedirectWithQuery("/", to.fullPath)
  }

  /** Every `next` call of the guard, as written (src/router/index.ts:68-88). On a public
      route other than an authenticated visit to `home`, `next()` at line 77 is not followed
      by `return`, so control falls through to the authentication check and `next` is
      called a second time. */
  function GuardCalls(authenticated: bool, to: Location): (calls: seq<NextCall>)
    ensures 1 <= |calls| <= 2
    ensures |calls| == 2 <==> !RequiresAuth(to.matched) && !(authenticated && to.name == Some("home"))
  {
    if !RequiresAuth(to.matched) then
      if authenticated && to.name == Some("home") then [Redirect(to.redirect.GetOr("/user"))]
      else [Proceed, AuthCheck(authenticated, to)]
    else [AuthCheck(authenticated, to)]
  }

  /** The guard with `return next()` at line 77: every path calls `next` once. */
  function GuardCallsFixed(authenticated: bool, to: Location): (calls: seq<NextCall>)
    ensures |calls| == 1
  {
    if !RequiresAuth(to.matched) then
      if authenticated && to.name == Some("home") then [Redirect(to.redirect.GetOr("/user"))]
      else [Proceed]
    else [AuthCheck(authenticated, to)]
  }

  /** The navigation the guard decides: its first (with the fix, its only) `next` call. */
  function Decision(authenticated: bool, to: Location): NextCall {
    GuardCallsFixed(authenticated, to)[0]
  }

  /** The fix changes no decision; it only drops the second call. */
  lemma FixedGuardKeepsFirstCall(authenticated: bool, to: Location)
    ensures GuardCallsFixed(authenticated, to) == GuardCalls(authenticated, to)[..1]
  {
  }

  /** An unauthenticated visit to `/404` calls `next` twice: once to proceed, then a second
      call asking for `/` with a `redirect` query. */
  lemma PublicRouteCallsNextTwice()
    ensures GuardCalls(false, Location(Some("404"), "/404", None, [NotFoundRoute]))
         == [Proceed, RedirectWithQuery("/", "/404")]
  {
  }

  // ---------------------------------------------------------------- properties

  /** The routes a navigation can end on, with their matched chains. */
  lemma RouteTableChains()
    ensures LeafChains(Routes) == [[HomeRoute], [UserLayout, UserView], [BoardLayout, BoardView], [NotFoundRoute]]
  {
    assert LeafChains(Routes[4..]) == [];
    assert Routes[3..][1..] == Routes[4..];
    assert LeafChains(Routes[3..]) == [[NotFoundRoute]];
    assert seq(1, i requires 0 <= i < 1 => [BoardLayout, BoardLayout.children[i]]) == [[BoardLayout, BoardView]];
    assert Routes[2..][1..] == Routes[3..];
    assert LeafChains(Routes[2..]) == [[BoardLayout, BoardView], [NotFoundRoute]];
    assert seq(1, i requires 0 <= i < 1 => [UserLayout, UserLayout.children[i]]) == [[UserLayout, UserView]];
    assert Routes[1..][1..] == Routes[2..];
    assert LeafChains(Routes[1..]) == [[UserLayout, UserView], [BoardLayout, BoardView], [NotFoundRoute]];
  }

  /** The table: both `/user` records and both `/:boardId` records require authentication,
      `home` and `404` do not, and so exactly the `user` and `board` routes are guarded. */
  lemma RouteTableAuth()
    ensures UserLayout.requiresAuth && UserView.requiresAuth
    ensures BoardLayout.requiresAuth && BoardView.requiresAuth
    ensures !HomeRoute.requiresAuth && !NotFoundRoute.requiresAuth
    ensures forall c: seq<RouteRecord> :: c in LeafChains(Routes) ==>
              (c != [] && (RequiresAuth(c) <==> c[|c| - 1].name == Some("user") || c[|c| - 1].name == Some("board")))
  {
    RouteTableChains();
    forall c: seq<RouteRecord> | c in LeafChains(Routes)
      ensures c != [] && (RequiresAuth(c) <==> c[|c| - 1].name == Some("user") || c[|c| - 1].name == Some("board"))
    {
      assert c == [HomeRoute] || c == [UserLayout, UserView] || c == [BoardLayout, BoardView] || c == [NotFoundRoute];
    }
  }

  /** A route with no matched records counts as requiring authentication. */
  lemma EmptyMatchRequiresAuth(to: Location)
    requires to.matched == []
    ensures RequiresAuth(to.matched)
    ensures Decision(false, to) == RedirectWithQuery("/", to.fullPath)
  {
  }

  /** An authenticated visit to the public `home` route is sent on to the `redirect` query
      value when there is one, otherwise to `/user`; `next` is called once. */
  lemma HomeForwardsSignedInUser(to: Location)
    requires !RequiresAuth(to.matched) && to.name == Some("home")
    ensures GuardCalls(true, to) == [Redirect(if to.redirect.Some? then to.redirect.value else "/user")]
  {
  }

  /** On a route that requires authentication, a signed-in user proceeds and anyone else is
      sent to `/` with the target's full path as `redirect`; `next` is called once. */
  lemma GuardedRoute(authenticated: bool, to: Location)
    requires RequiresAuth(to.matched)
    ensures authenticated ==> GuardCalls(authenticated, to) == [Proceed]
    ensures !authenticated ==> GuardCalls(authenticated, to) == [RedirectWithQuery("/", to.fullPath)]
  {
  }

  /** On any other public visit the first call proceeds; the second, fall-through call
      proceeds again for a signed-in user and asks for `/` for anyone else. */
  lemma PublicRouteFallThrough(authenticated: bool, to: Location)
    requires !RequiresAuth(to.matched) && !(authenticated && to.name == Some("home"))
    ensures GuardCalls(authenticated, to)[0] == Proceed
    ensures GuardCalls(authenticated, to)[1]
         == if authenticated then Proceed else RedirectWithQuery("/", to.fullPath)
  {
  }

  /** No unauthenticated navigation is let through to a guarded route. */
  lemma NoUnauthenticatedEntry(to: Location)
    requires RequiresAuth(to.matched)
    ensures Decision(false, to) != Proceed
  {
  }

  /** The round trip of a sign-in: the redirect to `/` that stops an unauthenticated visit
      to `to` leads, once the user is signed in, back to `to`'s full path. */
  lemma SignInReturnsToTarget(to: Location)
    requires RequiresAuth(to.matched)
    ensures Decision(false, to).RedirectWithQuery?
    ensures var d := Decision(false, to);
            Decision(true, Location(Some("home"), d.path + "?redirect=" + d.redirect, Some(d.redirect), [HomeRoute]))
            == Redirect(to.fullPath)
  {
  }
}
