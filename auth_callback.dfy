/** The OAuth callback route (src/app/auth/callback/route.ts): exchange the `code` for a
    session, writing the session cookies onto a redirect to `/admin`. */
module AuthCallback {
  import opened Js
  import opened Cookies
  import opened Http
  import opened Supabase

  /** `new URL("/admin", origin)`. */
  function AdminUrl(origin: string): Url {
    Url(origin, "/admin", [])
  }

  /** `new URL("/login?error=oauth", origin)`. */
  function OAuthErrorUrl(origin: string): Url {
    Url(origin, "/login", [QueryParam("error", "oauth")])
  }

  /** The redirect target: `/login?error=oauth` only when a code was given and its exchange
      failed, `/admin` otherwise; always on the request's origin. */
  function Target(url: Url, exchange: ExchangeResult): (r: Url)
    ensures r.origin == url.origin
    ensures r.pathname == "/login" <==> Present(QueryGet(url.query, "code")) && exchange.error.Some?
    ensures r.pathname == "/admin" <==> !(Present(QueryGet(url.query, "code")) && exchange.error.Some?)
    ensures r.pathname == "/login" ==> r.query == [QueryParam("error", "oauth")]
    ensures r.pathname == "/admin" ==> r.query == []
  {
    var code := QueryGet(url.query, "code");
    if Present(code) && exchange.error.Some? then OAuthErrorUrl(url.origin) else AdminUrl(url.origin)
  }

  /** `GET`. At most one exchange, and none without a code. The `/admin` redirect is built
      first and receives the cookies the exchange sets; the error redirect is a fresh
      response without them. */
  method Get(req: Request, exchange: AuthCall<ExchangeResult>, backend: Backend) returns (res: Response)
    modifies backend
    ensures fresh(res)
    ensures var code := QueryGet(req.url.query, "code");
      backend.log == old(backend.log) + (if Present(code) then [ExchangeCode(code.value)] else [])
    ensures res.kind == Redirect(Target(req.url, exchange.result))
    ensures var code := QueryGet(req.url.query, "code");
      res.cookies == if Present(code) && exchange.result.error.None?
                     then SetInOrder(map[], Flatten(exchange.setAllCalls)) else map[]
  {
    var code := QueryGet(req.url.query, "code");
    var response := new Response(Redirect(AdminUrl(req.url.origin)));
    if Present(code) {
      backend.Call(ExchangeCode(code.value));
      RelaySetAll(response, exchange.setAllCalls);
      if exchange.result.error.Some? {
        res := new Response(Redirect(OAuthErrorUrl(req.url.origin)));
        return;
      }
    }
    return response;
  }
}
