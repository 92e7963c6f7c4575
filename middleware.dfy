/** The edge middleware (src/middleware.ts): for requests under `/admin` it resolves the
    user, relaying any session-cookie refresh onto the pass-through response, and sends an
    anonymous visitor to `/login`. */
module Middleware {
  import opened Js
  import opened Cookies
  import opened Http
  import opened Supabase

  /** `config.matcher: ["/admin/:path*"]`: `/admin` itself and everything below it. */
  predicate Matches(path: string) {
    path == "/admin" || "/admin/" <= path
  }

  /** The middleware's own test: `pathname.startsWith("/admin") && !user`. */
  predicate SendsToLogin(path: string, u: GetUserResult) {
    "/admin" <= path && u.user.None?
  }

  /** The request URL with only its path replaced by `/login`. */
  function LoginUrl(url: Url): (r: Url)
    ensures r.origin == url.origin && r.query == url.query && r.pathname == "/login"
  {
    url.(pathname := "/login")
  }

  /** Everything the matcher lets through passes the middleware's own prefix test, so on every
      invocation the visitor is redirected exactly when there is no user. */
  lemma MatchedPathsRedirectIffAnonymous(path: string, u: GetUserResult)
    requires Matches(path)
    ensures SendsToLogin(path, u) <==> u.user.None?
  {
    if path != "/admin" {
      assert path[..6] == "/admin/"[..6];
    }
  }

  /** The prefix test alone is wider than the matcher: `/administrator` passes it. */
  lemma PrefixTestWiderThanMatcher()
    ensures !Matches("/administrator") && "/admin" <= "/administrator"
  {
    assert "/administrator"[6] != "/admin/"[6];
  }

  /** What happens to `getUser`: it throws (caught, the middleware answers null), or it runs,
      handing cookie batches to `setAll` and resolving to a result. */
  datatype Attempt<T> = Threw | Completed(value: T)

  /** `middleware(req)`. Without a user under `/admin`: a fresh redirect that carries none of
      the cookies set on the pass-through response. Otherwise: the pass-through response with
      every refreshed cookie set on it, in order. A throw yields null. */
  method Middleware(req: Request, auth: Attempt<AuthCall<GetUserResult>>, backend: Backend)
    returns (res: Response?)
    modifies backend
    ensures backend.log == old(backend.log) + [GetUser]
    ensures auth.Threw? ==> res == null
    ensures auth.Completed? ==> res != null && fresh(res)
    ensures auth.Completed? && SendsToLogin(req.url.pathname, auth.value.result) ==>
      res.kind == Redirect(LoginUrl(req.url)) && res.cookies == map[]
    ensures auth.Completed? && !SendsToLogin(req.url.pathname, auth.value.result) ==>
      res.kind == Next && res.cookies == SetInOrder(map[], Flatten(auth.value.setAllCalls))
  {
    var next := new Response(Next);
    backend.Call(GetUser);
    if auth.Threw? {
      return null;
    }
    RelaySetAll(next, auth.value.setAllCalls);
    var user := auth.value.result.user;
    if "/admin" <= req.url.pathname && user.None? {
      res := new Response(Redirect(LoginUrl(req.url)));
      return;
    }
    return next;
  }

  /** Whether the framework runs the middleware at all. */
  datatype Routing = Bypassed | Invoked(result: Response?)

  /** A request outside the matcher never reaches the middleware: no auth call is made. */
  method Route(req: Request, auth: Attempt<AuthCall<GetUserResult>>, backend: Backend)
    returns (d: Routing)
    modifies backend
    ensures d.Bypassed? <==> !Matches(req.url.pathname)
    ensures d.Bypassed? ==> backend.log == old(backend.log)
    ensures d.Invoked? ==> (backend.log == old(backend.log) + [GetUser]
      && (d.result == null <==> auth.Threw?)
      && (d.result != null ==> (fresh(d.result)
          && (d.result.kind.Redirect? <==> auth.value.result.user.None?))))
  {
    if !Matches(req.url.pathname) {
      return Bypassed;
    }
    var res := Middleware(req, auth, backend);
    if auth.Completed? {
      MatchedPathsRedirectIffAnonymous(req.url.pathname, auth.value.result);
    }
    return Invoked(res);
  }
}
