/** The projects admin API (src/app/api/admin/projects/route.ts): `GET` lists, `POST` inserts
    or updates, `DELETE` removes a row and then, best effort, its stored image. Each handler
    runs the gate first and returns its denial untouched; every later exit relays the
    gate's cookie buffer through `applyCookies`. */
module ProjectsRoute {
  import opened Js
  import opened Cookies
  import opened Http
  import opened Supabase
  import opened AdminApiUtils

  /** `.order("sort_order", { ascending: true }).order("created_at", { ascending: false })`. */
  const ProjectsOrder: seq<OrderBy> := [OrderBy("sort_order", true), OrderBy("created_at", false)]

  const ImageBucket: string := "project-images"

  /** `GET`: 400 with the query's error message, otherwise `{ projects: data ?? [] }`. */
  function GetExit(u: GetUserResult, p: ProfileResult, q: QueryResult): (e: Exit)
    ensures KeepsGate(u, p, e) && e.Exit?
    ensures Decide(u, p).Admin? ==> e.ops == GateOps(u) + [SelectProjects(ProjectsOrder)]
    ensures Decide(u, p).Admin? ==> (StatusOf(e.kind) == 200 <==> q.error.None?)
    ensures Decide(u, p).Admin? && q.error.Some? ==> e.kind == ErrorReply(400, q.error.value.message)
    ensures Decide(u, p).Admin? && q.error.None? ==>
      e.kind == JsonReply(200, JObj(map["projects" := JArr(if q.data.Some? then q.data.value else [])]))
  {
    var d := Decide(u, p);
    if !d.Admin? then Exit(DenialKind(d), false, GateOps(u))
    else
      var ops := GateOps(u) + [SelectProjects(ProjectsOrder)];
      if q.error.Some? then Exit(ErrorReply(400, q.error.value.message), true, ops)
      else Exit(JsonReply(200, JObj(map["projects" := JArr(q.data.GetOr([]))])), true, ops)
  }

  method Get(req: Request, auth: AuthCall<GetUserResult>, profile: ProfileResult, query: QueryResult,
             backend: Backend)
    returns (res: Response)
    modifies backend
    ensures fresh(res)
    ensures var e := GetExit(auth.result, profile, query);
      res.kind == e.kind && res.cookies == ExitCookies(e, auth)
      && backend.log == old(backend.log) + e.ops
  {
    var gate := RequireAdmin(req, auth, profile, backend);
    if gate.Denied? {
      return gate.response;
    }
    var cookiesToSet := gate.client.cookiesToSet;
    backend.Call(SelectProjects(ProjectsOrder));
    if query.error.Some? {
      res := new Response(ErrorReply(400, query.error.value.message));
      res := ApplyCookies(res, cookiesToSet);
      return;
    }
    res := new Response(JsonReply(200, JObj(map["projects" := JArr(query.data.GetOr([]))])));
    res := ApplyCookies(res, cookiesToSet);
  }

  /** The id `POST` reads: `body.id ?? null`. */
  function BodyId(body: Json): (id: Json)
    ensures Prop(body, "id").Some? && Prop(body, "id").value != JNull ==> id == body.fields["id"]
    ensures Prop(body, "id").None? || Prop(body, "id").value == JNull ==> id == JNull
  {
    Coalesce(Prop(body, "id"), JNull)
  }

  /** The object `POST` writes: `body.payload ?? {}`. */
  function BodyPayload(body: Json): (payload: Json)
    ensures body.JObj? && "payload" in body.fields && body.fields["payload"] != JNull ==> payload == body.fields["payload"]
    ensures !(body.JObj? && "payload" in body.fields) || body.fields["payload"] == JNull ==> payload == JObj(map[])
  {
    Coalesce(Prop(body, "payload"), JObj(map[]))
  }

  /** The write `POST` issues: an update of the row matching a truthy id, otherwise an insert. */
  function WriteOp(body: Json): (op: Op)
    ensures op.UpdateProject? <==> Truthy(BodyId(body))
    ensures op.UpdateProject? ==> op.whereId == BodyId(body) && op.values == BodyPayload(body)
    ensures op.InsertProject? ==> op.values == BodyPayload(body)
  {
    var id := BodyId(body);
    var payload := BodyPayload(body);
    if Truthy(id) then UpdateProject(id, payload) else InsertProject(payload)
  }

  /** `POST`. `req.json()` rejects a body that is not JSON, and reading `body.id` of a
      `null` body throws; otherwise exactly one write is issued. */
  function PostExit(u: GetUserResult, p: ProfileResult, body: Option<Json>, write: WriteResult): (e: Exit)
    ensures KeepsGate(u, p, e)
    ensures Decide(u, p).Admin? ==> (e.Crash? <==> body.None? || body.value == JNull)
    ensures e.Crash? ==> e.ops == GateOps(u)
    ensures Decide(u, p).Admin? && e.Exit? ==> e.ops == GateOps(u) + [WriteOp(body.value)]
    ensures Decide(u, p).Admin? && e.Exit? ==>
      e.kind == if write.error.Some? then ErrorReply(400, write.error.value.message) else OkReply()
  {
    var d := Decide(u, p);
    if !d.Admin? then Exit(DenialKind(d), false, GateOps(u))
    else if body.None? || body.value == JNull then Crash(GateOps(u))
    else
      var ops := GateOps(u) + [WriteOp(body.value)];
      if write.error.Some? then Exit(ErrorReply(400, write.error.value.message), true, ops)
      else Exit(OkReply(), true, ops)
  }

  method Post(req: Request, body: Option<Json>, auth: AuthCall<GetUserResult>, profile: ProfileResult,
              write: WriteResult, backend: Backend)
    returns (out: Outcome)
    modifies backend
    ensures var e := PostExit(auth.result, profile, body, write);
      (out.Throws? <==> e.Crash?)
      && (out.Responds? ==> fresh(out.response) && out.response.kind == e.kind
                            && out.response.cookies == ExitCookies(e, auth))
      && backend.log == old(backend.log) + e.ops
  {
    var gate := RequireAdmin(req, auth, profile, backend);
    if gate.Denied? {
      return Responds(gate.response);
    }
    var cookiesToSet := gate.client.cookiesToSet;
    if body.None? || body.value == JNull {
      return Throws;
    }
    var id := BodyId(body.value);
    var payload := BodyPayload(body.value);
    if Truthy(id) {
      backend.Call(UpdateProject(id, payload));
    } else {
      backend.Call(InsertProject(payload));
    }
    var res: Response;
    if write.error.Some? {
      res := new Response(ErrorReply(400, write.error.value.message));
    } else {
      res := new Response(OkReply());
    }
    res := ApplyCookies(res, cookiesToSet);
    return Responds(res);
  }

  /** `DELETE ?id=..&image_path=..`: 400 "missing id" without an id; otherwise the row is
      deleted, and only once that succeeded is the image removed, when a path was given.
      The storage result is not looked at: the reply is `{ ok: true }` either way. */
  function DeleteExit(u: GetUserResult, p: ProfileResult, url: Url, del: WriteResult): (e: Exit)
    ensures KeepsGate(u, p, e) && e.Exit?
    ensures Decide(u, p).Admin? && !Present(QueryGet(url.query, "id")) ==>
      e == Exit(ErrorReply(400, "missing id"), true, GateOps(u))
    ensures e.kind == OkReply() <==> Decide(u, p).Admin? && Present(QueryGet(url.query, "id")) && del.error.None?
    ensures Decide(u, p).Admin? && Present(QueryGet(url.query, "id")) && del.error.Some? ==>
      e.kind == ErrorReply(400, del.error.value.message)
    ensures Decide(u, p).Admin? && Present(QueryGet(url.query, "id")) ==>
      var imagePath := QueryGet(url.query, "image_path");
      e.ops == GateOps(u) + [DeleteProject(QueryGet(url.query, "id").value)]
               + (if del.error.None? && Present(imagePath) then [Remove(ImageBucket, [JStr(imagePath.value)])] else [])
  {
    var d := Decide(u, p);
    var id := QueryGet(url.query, "id");
    var imagePath := QueryGet(url.query, "image_path");
    if !d.Admin? then Exit(DenialKind(d), false, GateOps(u))
    else if !Present(id) then Exit(ErrorReply(400, "missing id"), true, GateOps(u))
    else
      var ops := GateOps(u) + [DeleteProject(id.value)];
      if del.error.Some? then Exit(ErrorReply(400, del.error.value.message), true, ops)
      else if Present(imagePath) then Exit(OkReply(), true, ops + [Remove(ImageBucket, [JStr(imagePath.value)])])
      else Exit(OkReply(), true, ops)
  }

  method Delete(req: Request, auth: AuthCall<GetUserResult>, profile: ProfileResult, del: WriteResult,
                backend: Backend)
    returns (res: Response)
    modifies backend
    ensures fresh(res)
    ensures var e := DeleteExit(auth.result, profile, req.url, del);
      res.kind == e.kind && res.cookies == ExitCookies(e, auth)
      && backend.log == old(backend.log) + e.ops
  {
    var gate := RequireAdmin(req, auth, profile, backend);
    if gate.Denied? {
      return gate.response;
    }
    var cookiesToSet := gate.client.cookiesToSet;
    var id := QueryGet(req.url.query, "id");
    var imagePath := QueryGet(req.url.query, "image_path");
    if !Present(id) {
      res := new Response(ErrorReply(400, "missing id"));
      res := ApplyCookies(res, cookiesToSet);
      return;
    }
    backend.Call(DeleteProject(id.value));
    if del.error.Some? {
      res := new Response(ErrorReply(400, del.error.value.message));
      res := ApplyCookies(res, cookiesToSet);
      return;
    }
    if Present(imagePath) {
      backend.Call(Remove(ImageBucket, [JStr(imagePath.value)]));
    }
    res := new Response(OkReply());
    res := ApplyCookies(res, cookiesToSet);
  }
}
