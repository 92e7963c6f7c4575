/** The admin API gate (src/app/api/admin/_utils.ts): a per-request Supabase client whose
    cookie writes are buffered, the fail-closed `requireAdmin` decision, and
    `applyCookies`, which replays the buffer onto a response. */
module AdminApiUtils {
  import opened Js
  import opened Cookies
  import opened Http
  import opened Supabase

  datatype CookieKV = CookieKV(name: string, value: string)

  /** `createRouteClient(req)`: the client's cookie adapter reads the request's cookies and
      appends every write to the in-memory buffer `cookiesToSet`. */
  class RouteClient {
    const request: Request
    var cookiesToSet: seq<CookieMutation>

    constructor (req: Request)
      ensures request == req && cookiesToSet == []
    {
      request := req;
      cookiesToSet := [];
    }

    /** Cookie adapter `getAll`: the request's cookies as name/value pairs, in their order. */
    function GetAll(): (kv: seq<CookieKV>)
      ensures |kv| == |request.cookies|
      ensures forall i :: 0 <= i < |kv| ==>
        kv[i].name == request.cookies[i].name && kv[i].value == request.cookies[i].value
    {
      seq(|request.cookies|, i requires 0 <= i < |request.cookies| =>
        CookieKV(request.cookies[i].name, request.cookies[i].value))
    }

    /** Cookie adapter `setAll`: append the batch to the buffer; nothing is written anywhere else. */
    method SetAll(next: seq<CookieMutation>)
      modifies this
      ensures cookiesToSet == old(cookiesToSet) + next
    {
      cookiesToSet := cookiesToSet + next;
    }
  }

  /** `supabase.auth.getUser()` on a route client: the call is logged, and every `setAll`
      batch the library issues while refreshing the session lands in the buffer, in order. */
  method GetUserVia(client: RouteClient, auth: AuthCall<GetUserResult>, backend: Backend)
    returns (u: GetUserResult)
    modifies client, backend
    ensures u == auth.result
    ensures client.cookiesToSet == old(client.cookiesToSet) + Flatten(auth.setAllCalls)
    ensures backend.log == old(backend.log) + [GetUser]
  {
    backend.Call(GetUser);
    var batches := auth.setAllCalls;
    for i := 0 to |batches|
      invariant client.cookiesToSet == old(client.cookiesToSet) + Flatten(batches[..i])
      invariant backend.log == old(backend.log) + [GetUser]
    {
      assert batches[..i + 1][..i] == batches[..i];
      client.SetAll(batches[i]);
    }
    assert batches[..|batches|] == batches;
    u := auth.result;
  }

  /** The outcome of `requireAdmin`. */
  datatype Decision = Unauthorized | Forbidden | Admin(user: User)

  /** The profile row grants the admin capability: no lookup error, a row, `is_admin` true. */
  predicate GrantsAdmin(p: ProfileResult) {
    p.error.None? && p.data.Some? && p.data.value.isAdmin == Some(true)
  }

  /** `requireAdmin`'s decision, fail-closed: authentication is judged first, and only an
      authenticated user whose profile lookup succeeded with a truthy `is_admin` is let in. */
  function Decide(u: GetUserResult, p: ProfileResult): (d: Decision)
    ensures d.Unauthorized? <==> !Authenticated(u)
    ensures d.Forbidden? <==> Authenticated(u) && !GrantsAdmin(p)
    ensures d.Admin? <==> Authenticated(u) && GrantsAdmin(p)
    ensures d.Admin? ==> u.user == Some(d.user)
  {
    if u.error.Some? || u.user.None? then Unauthorized
    else if p.error.Some? || p.data.None? || p.data.value.isAdmin != Some(true) then Forbidden
    else Admin(u.user.value)
  }

  /** The denial response `requireAdmin` builds: 401 `{"error":"unauthorized"}` or
      403 `{"error":"forbidden"}`. */
  function DenialKind(d: Decision): (k: Kind)
    requires !d.Admin?
    ensures k.JsonReply? && k.body == ErrorBody(if d.Unauthorized? then "unauthorized" else "forbidden")
    ensures StatusOf(k) == (if d.Unauthorized? then 401 else 403)
  {
    if d.Unauthorized? then ErrorReply(401, "unauthorized") else ErrorReply(403, "forbidden")
  }

  /** The backend calls the gate makes: `getUser`, then, only for an authenticated user,
      the `is_admin` lookup keyed by that user's id. */
  function GateOps(u: GetUserResult): (ops: seq<Op>)
    ensures |ops| == 1 || |ops| == 2
    ensures ops[0] == GetUser
    ensures |ops| == 2 <==> Authenticated(u)
    ensures Authenticated(u) ==> ops[1] == SelectIsAdmin(u.user.value.id)
  {
    [GetUser] + (if Authenticated(u) then [SelectIsAdmin(u.user.value.id)] else [])
  }

  datatype Gate = Denied(response: Response) | Granted(client: RouteClient, user: User)

  /** `requireAdmin(req)`. A denial is a freshly built response that carries none of the
      cookie writes buffered while resolving the user; on success the client and its
      buffer are handed back together with the user. */
  method RequireAdmin(req: Request, auth: AuthCall<GetUserResult>, profile: ProfileResult, backend: Backend)
    returns (gate: Gate)
    modifies backend
    ensures backend.log == old(backend.log) + GateOps(auth.result)
    ensures gate.Denied? <==> !Decide(auth.result, profile).Admin?
    ensures gate.Denied? ==> (fresh(gate.response)
      && gate.response.kind == DenialKind(Decide(auth.result, profile))
      && gate.response.cookies == map[])
    ensures gate.Granted? ==> (fresh(gate.client) && gate.client.request == req
      && gate.client.cookiesToSet == Flatten(auth.setAllCalls)
      && gate.user == Decide(auth.result, profile).user)
  {
    var client := new RouteClient(req);
    var u := GetUserVia(client, auth, backend);
    if u.error.Some? || u.user.None? {
      var res := new Response(ErrorReply(401, "unauthorized"));
      return Denied(res);
    }
    backend.Call(SelectIsAdmin(u.user.value.id));
    if profile.error.Some? || profile.data.None? || profile.data.value.isAdmin != Some(true) {
      var res := new Response(ErrorReply(403, "forbidden"));
      return Denied(res);
    }
    return Granted(client, u.user.value);
  }

  /** `applyCookies(res, cookiesToSet)`: every buffered write is set on `res`, in order (a
      later write to a name wins), and `res` itself is returned. */
  method ApplyCookies(res: Response, cookiesToSet: seq<CookieMutation>) returns (r: Response)
    modifies res
    ensures r == res
    ensures res.cookies == SetInOrder(old(res.cookies), cookiesToSet)
  {
    res.SetEach(cookiesToSet);
    r := res;
  }

  /** How a gated handler ends, leaving object identity aside: the response it returns
      (its kind, and whether the gate's buffer was applied to it) or a throw, and the
      backend calls it made. */
  datatype Exit = Exit(kind: Kind, relayed: bool, ops: seq<Op>) | Crash(ops: seq<Op>)

  /** The discipline every admin handler keeps. Denied: the gate's own response is
      returned unchanged and nothing but the gate's calls reaches the backend. Admitted:
      the gate's calls come first, and every response goes through `applyCookies`. */
  predicate KeepsGate(u: GetUserResult, p: ProfileResult, e: Exit) {
    var d := Decide(u, p);
    (!d.Admin? ==> e == Exit(DenialKind(d), false, GateOps(u)))
    && (d.Admin? ==> GateOps(u) <= e.ops && (e.Exit? ==> e.relayed))
  }

  /** The cookies a handler's response ends up with: the gate's buffer if it was relayed. */
  function ExitCookies(e: Exit, auth: AuthCall<GetUserResult>): Jar
    requires e.Exit?
  {
    if e.relayed then SetInOrder(map[], Flatten(auth.setAllCalls)) else map[]
  }
}
