/**
 * The route table and request dispatch: which paths exist, which of them sit
 * behind the authentication gate and which need the admin role, and how one
 * request changes the server's state.
 */
module Server {
  import opened Wrappers
  import opened Strings
  import opened Tokens
  import opened RefreshStore
  import opened Http
  import opened Sessions
  import opened Gate

  datatype Route = LoginRoute | RefreshRoute | UploadRoute | DownloadRoute | DeleteRoute | FilesRoute | StaticRoute

  /** No exact path lies in the static subtree, so the patterns never compete. */
  lemma ExactPathsAreNotStatic()
    ensures !HasPrefix("/refresh", "/static/") && !HasPrefix("/download", "/static/")
  {
    assert "/refresh"[..8][1] != "/static/"[1];
    assert "/download"[..8][1] != "/static/"[1];
  }

  /** How a route is protected. */
  datatype Guard = Open | SignedIn | AdminOnly

  /** The path a route is registered under (for the static subtree, its prefix). */
  function PathOf(route: Route): string
  {
    match route
    case LoginRoute => "/login"
    case RefreshRoute => "/refresh"
    case UploadRoute => "/upload"
    case DownloadRoute => "/download"
    case DeleteRoute => "/delete"
    case FilesRoute => "/files"
    case StaticRoute => "/static/"
  }

  /** The registered patterns: six exact paths and the `/static/` subtree. */
  function RouteOf(path: string): (r: Option<Route>)
    ensures forall route :: route != StaticRoute ==> (r == Some(route) <==> path == PathOf(route))
    ensures r == Some(StaticRoute) <==> HasPrefix(path, PathOf(StaticRoute))
  {
    ExactPathsAreNotStatic();
    if path == "/login" then Some(LoginRoute)
    else if path == "/refresh" then Some(RefreshRoute)
    else if path == "/upload" then Some(UploadRoute)
    else if path == "/download" then Some(DownloadRoute)
    else if path == "/delete" then Some(DeleteRoute)
    else if path == "/files" then Some(FilesRoute)
    else if HasPrefix(path, "/static/") then Some(StaticRoute)
    else None
  }

  /** Which handlers are wrapped by the gate, and with which `requireAdmin` flag. */
  function GuardOf(route: Route): (g: Guard)
    ensures g == AdminOnly <==> route == DeleteRoute
    ensures g == Open <==> route == LoginRoute || route == RefreshRoute || route == StaticRoute
  {
    match route
    case LoginRoute => Open
    case RefreshRoute => Open
    case StaticRoute => Open
    case DeleteRoute => AdminOnly
    case _ => SignedIn
  }

  /** A request: its path, its form/query values and its cookies. */
  datatype Request = Request(path: string, form: map<string, string>, cookies: map<string, Token>)

  /** `r.FormValue(name)`: the empty string when absent. */
  function FormValue(req: Request, name: string): string
  {
    if name in req.form then req.form[name] else ""
  }

  /** `r.Cookie(name)`: absent or the cookie's value. */
  function Cookie(req: Request, name: string): Option<Token>
  {
    if name in req.cookies then Some(req.cookies[name]) else None
  }

  /** Where a request ends up. */
  datatype Dispatch =
    | ToLogin
    | ToRefresh
    | ToHandler(route: Route)
    | Denied(status: int, message: string)
    | Crashed
    | Unrouted

  /** The route lookup followed, for gated routes, by the gate's decision. */
  function DispatchOf(req: Request, now: int): (d: Dispatch)
    ensures d.ToHandler? && GuardOf(d.route) != Open ==>
      Cookie(req, "access_token").Some? && Validate(Cookie(req, "access_token").value, AccessKey, now).Some?
    ensures d == ToHandler(DeleteRoute) <==>
      && req.path == "/delete"
      && Authorize(Cookie(req, "access_token"), true, now).Pass?
    ensures d.Denied? ==> RouteOf(req.path).Some? && GuardOf(RouteOf(req.path).value) != Open
  {
    match RouteOf(req.path)
    case None => Unrouted
    case Some(route) =>
      if route == LoginRoute then ToLogin
      else if route == RefreshRoute then ToRefresh
      else if GuardOf(route) == Open then ToHandler(route)
      else
        match Authorize(Cookie(req, "access_token"), GuardOf(route) == AdminOnly, now)
        case Deny(status, message) => Denied(status, message)
        case Abort => Crashed
        case Pass(_) => ToHandler(route)
  }

  /** The server's persistent state as far as the session core sees it. */
  datatype State = State(users: Users, store: Store)

  datatype Outcome = Outcome(response: Response, state: State)

  /**
   * Serves one request. `matches` is the password comparison and `handler` the
   * file and static handlers behind the gate; the gate itself neither issues
   * tokens nor touches the store, and only login and refresh change the store.
   */
  function Serve(st: State, req: Request, now: int, matches: PasswordCheck, handler: (Route, Request) -> Response): (out: Outcome)
    ensures out.state.users == st.users
    ensures !DispatchOf(req, now).ToLogin? && !DispatchOf(req, now).ToRefresh? ==> out.state == st
    ensures out.response.Issued? && !DispatchOf(req, now).ToLogin? && !DispatchOf(req, now).ToRefresh? ==>
      DispatchOf(req, now).ToHandler? && out.response == handler(DispatchOf(req, now).route, req)
    ensures DispatchOf(req, now).Denied? ==> out.response == Error(DispatchOf(req, now).status, DispatchOf(req, now).message)
  {
    match DispatchOf(req, now)
    case ToLogin =>
      var step := Login(st.users, st.store, matches, FormValue(req, "username"), FormValue(req, "password"), now);
      Outcome(step.response, st.(store := step.store))
    case ToRefresh =>
      var step := Refresh(st.users, st.store, Cookie(req, "refresh_token"), now);
      Outcome(step.response, st.(store := step.store))
    case ToHandler(route) => Outcome(handler(route, req), st)
    case Denied(status, message) => Outcome(Error(status, message), st)
    case Crashed => Outcome(Aborted, st)
    case Unrouted => Outcome(NotFound, st)
  }

  /** Only `/delete` requires the admin role; login, refresh and static files are not gated at all. */
  lemma OnlyDeleteRequiresAdmin(path: string)
    ensures RouteOf(path).Some? && GuardOf(RouteOf(path).value) == AdminOnly <==> path == "/delete"
    ensures RouteOf(path).Some? && GuardOf(RouteOf(path).value) == SignedIn <==>
      path == "/upload" || path == "/download" || path == "/files"
  {
  }

  /** A gated handler runs exactly when the gate admits the request, and then its response is the handler's own. */
  lemma GatedHandlerRunsOnlyWhenAdmitted(st: State, req: Request, now: int, matches: PasswordCheck,
                                         handler: (Route, Request) -> Response, route: Route)
    requires RouteOf(req.path) == Some(route) && GuardOf(route) != Open
    ensures var out := Serve(st, req, now, matches, handler);
      && out.state == st
      && match Authorize(Cookie(req, "access_token"), GuardOf(route) == AdminOnly, now)
         case Pass(_) => out.response == handler(route, req)
         case Deny(status, message) => out.response == Error(status, message)
         case Abort => out.response == Aborted
  {
  }

  /** The login request for a user. */
  function LoginRequest(username: string, password: string): Request
  {
    Request("/login", map["username" := username, "password" := password], map[])
  }

  /** The refresh request presenting a refresh token. */
  function RefreshRequest(token: Token): Request
  {
    Request("/refresh", map[], map["refresh_token" := token])
  }

  /** `/login` with good credentials issues the user's token pair and appends the user's row. */
  lemma ServeLogin(st: State, matches: PasswordCheck, handler: (Route, Request) -> Response,
                   username: string, password: string, now: int)
    requires Authentic(st.users, matches, username, password)
    ensures Serve(st, LoginRequest(username, password), now, matches, handler) ==
      Outcome(Issued(IssueAccess(username, st.users[username].role, now), IssueRefresh(username, now), "Login successful"),
              st.(store := st.store + [Row(username, IssueRefresh(username, now), now + RefreshLifetime)]))
  {

  }

  /** `/refresh` with a redeemable token issues a fresh pair and rotates the user's rows. */
  lemma ServeRefresh(st: State, matches: PasswordCheck, handler: (Route, Request) -> Response, token: Token, now: int)
    requires Redeemable(st.store, Some(token), now)
    ensures var username := token.claims.username;
      Serve(st, RefreshRequest(token), now, matches, handler) ==
        Outcome(Issued(IssueAccess(username, if username in st.users then st.users[username].role else "", now), IssueRefresh(username, now), "Token refreshed"),
                st.(store := Rotate(st.store, Row(username, IssueRefresh(username, now), now + RefreshLifetime))))
  {

  }

  /** `/refresh` with a live refresh token the store no longer holds is refused and changes nothing. */
  lemma ServeRetiredRefresh(st: State, matches: PasswordCheck, handler: (Route, Request) -> Response, token: Token, now: int)
    requires Validate(token, RefreshKey, now).Some?
    requires !Holds(st.store, token.claims.username, token)
    ensures Serve(st, RefreshRequest(token), now, matches, handler) == Outcome(Error(StatusUnauthorized, "Refresh token not found"), st)
  {

  }

  /**
   * Logging in and then calling the admin-only delete endpoint with the access
   * token just received reaches the delete handler exactly when the user's role
   * is "admin"; any other role gets 403 "Admin only".
   */
  lemma LoginThenDelete(st: State, matches: PasswordCheck, handler: (Route, Request) -> Response,
                        username: string, password: string, t0: int, t1: int, query: map<string, string>)
    requires Authentic(st.users, matches, username, password)
    requires t1 < t0 + AccessLifetime
    ensures var login := Serve(st, LoginRequest(username, password), t0, matches, handler);
      && login.response.Issued?
      && var del := Request("/delete", query, map["access_token" := login.response.access]);
         Serve(login.state, del, t1, matches, handler).response ==
           if st.users[username].role == "admin" then handler(DeleteRoute, del) else Error(StatusForbidden, "Admin only")
  {

  }

  /**
   * The access token a successful refresh hands out opens every signed-in route
   * (upload, download, listing) until it expires, whatever the store holds by then.
   */
  lemma RefreshedAccessTokenOpensGatedRoutes(st: State, matches: PasswordCheck, handler: (Route, Request) -> Response,
                                             token: Token, t1: int, later: State, t: int, req: Request)
    requires Redeemable(st.store, Some(token), t1)
    requires t1 <= t < t1 + AccessLifetime
    requires RouteOf(req.path).Some? && GuardOf(RouteOf(req.path).value) == SignedIn
    requires Cookie(req, "access_token") == Some(Serve(st, RefreshRequest(token), t1, matches, handler).response.access)
    ensures Serve(later, req, t, matches, handler) == Outcome(handler(RouteOf(req.path).value, req), later)
  {

  }

  /**
   * Log in, refresh, refresh again: each step issues a new pair, and the
   * login's original refresh token, though its signature and expiry are still
   * good, is then rejected as not found and changes nothing. The requests
   * come in order within the refresh token's lifetime, and the second refresh
   * falls in a later second than the login (otherwise it re-issues the login's
   * own token).
   */
  lemma RotationScenario(st: State, matches: PasswordCheck, handler: (Route, Request) -> Response,
                         username: string, password: string, t0: int, t1: int, t2: int, t3: int)
    requires Authentic(st.users, matches, username, password)
    requires t0 <= t1 <= t2 <= t3 < t0 + RefreshLifetime
    requires t0 < t2
    ensures
      var login := Serve(st, LoginRequest(username, password), t0, matches, handler);
      && login.response.Issued?
      && var first := Serve(login.state, RefreshRequest(login.response.refresh), t1, matches, handler);
      && first.response.Issued?
      && var second := Serve(first.state, RefreshRequest(first.response.refresh), t2, matches, handler);
      && second.response.Issued?
      && Serve(second.state, RefreshRequest(login.response.refresh), t3, matches, handler)
           == Outcome(Error(StatusUnauthorized, "Refresh token not found"), second.state)
  {
    var r0 := IssueRefresh(username, t0);
    ServeLogin(st, matches, handler, username, password, t0);
    var login := Serve(st, LoginRequest(username, password), t0, matches, handler);
    assert Redeemable(login.state.store, Some(r0), t1) by {
      assert login.state.store[|login.state.store| - 1] == Row(username, r0, t0 + RefreshLifetime);
    }
    ServeRefresh(login.state, matches, handler, r0, t1);
    var first := Serve(login.state, RefreshRequest(r0), t1, matches, handler);
    var r1 := IssueRefresh(username, t1);
    assert Redeemable(first.state.store, Some(r1), t2) by {
      assert Row(username, r1, t1 + RefreshLifetime) in first.state.store;
    }
    ServeRefresh(first.state, matches, handler, r1, t2);
    var second := Serve(first.state, RefreshRequest(r1), t2, matches, handler);
    var r2 := IssueRefresh(username, t2);
    assert r2 != r0;
    assert !Holds(second.state.store, username, r0);
    ServeRetiredRefresh(second.state, matches, handler, r0, t3);
  }
}
