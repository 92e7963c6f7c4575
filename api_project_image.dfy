/** The image admin API (src/app/api/admin/project-image/route.ts): `POST` stores an uploaded
    file under a fresh `<uuid>.<ext>` name, `DELETE` removes a stored object by path. */
module ProjectImageRoute {
  import opened Js
  import opened Cookies
  import opened Http
  import opened Supabase
  import opened AdminApiUtils

  const Bucket: string := "project-images"

  /** What `form.get("file")` yields: nothing, a text field, or a file. */
  datatype FormValue = NoValue | Text(s: string) | FileValue(name: string, mimeType: string)

  /** `name.split(".").pop() || "bin"`: the text after the last dot, the whole name when there
      is no dot, and "bin" when that text is empty. */
  function Extension(name: string): (ext: string)
    ensures ext != "" && '.' !in ext
    ensures '.' !in name ==> ext == if name == "" then "bin" else name
  {
    var parts := Split(name, '.');
    assert '.' !in name ==> parts == [name] by {
      if '.' !in name {
        SplitNoSeparator(name, '.');
      }
    }
    var last := parts[|parts| - 1];
    if last == "" then "bin" else last
  }

  /** The extension is exactly what follows the last dot (or "bin" if nothing does). */
  lemma ExtensionAfterLastDot(name: string, i: int)
    requires 0 <= i < |name| && name[i] == '.' && '.' !in name[i + 1..]
    ensures Extension(name) == if i + 1 == |name| then "bin" else name[i + 1..]
  {
    SplitLast(name, '.', i);
  }

  /** The storage path `${uuid}.${ext}`. */
  function ObjectPath(uuid: string, name: string): (path: string)
    ensures path == uuid + "." + Extension(name)
    ensures |path| > |uuid| + 1 && path[..|uuid|] == uuid && path[|uuid|] == '.'
  {
    uuid + "." + Extension(name)
  }

  /** Deriving the extension again from the stored path gives back the same extension. */
  lemma ObjectPathKeepsExtension(uuid: string, name: string)
    ensures Extension(ObjectPath(uuid, name)) == Extension(name)
  {
    var path := ObjectPath(uuid, name);
    var ext := Extension(name);
    assert path[|uuid| + 1..] == ext;
    ExtensionAfterLastDot(path, |uuid|);
  }

  /** `file.type || "application/octet-stream"`. */
  function ContentType(mimeType: string): string {
    if mimeType == "" then "application/octet-stream" else mimeType
  }

  /** The single upload `POST` issues for a file. */
  function UploadOp(uuid: string, file: FormValue): (op: Op)
    requires file.FileValue?
    ensures op.Upload? && op.bucket == Bucket && op.path == ObjectPath(uuid, file.name)
    ensures op.cacheControl == "3600" && !op.upsert
    ensures op.contentType == if file.mimeType != "" then file.mimeType else "application/octet-stream"
  {
    Upload(Bucket, ObjectPath(uuid, file.name), "3600", false, ContentType(file.mimeType))
  }

  /** The upload succeeded: no error and a non-empty `data.path`. */
  predicate Stored(r: UploadResult) {
    r.error.None? && r.data.Some? && Present(r.data.value.path)
  }

  /** `POST`. `req.formData()` rejects a body that is not a form. Anything but a file under
      "file" is 400 "missing file" with no upload; otherwise one upload, then 400 with the
      error message (or "upload failed") or `{ path }` with the path the storage reports. */
  function UploadExit(u: GetUserResult, p: ProfileResult, form: Option<FormValue>, uuid: string,
                      upload: UploadResult): (e: Exit)
    ensures KeepsGate(u, p, e)
    ensures Decide(u, p).Admin? ==> (e.Crash? <==> form.None?)
    ensures e.Crash? ==> e.ops == GateOps(u)
    ensures Decide(u, p).Admin? && form.Some? && !form.value.FileValue? ==>
      e == Exit(ErrorReply(400, "missing file"), true, GateOps(u))
    ensures Decide(u, p).Admin? && form.Some? && form.value.FileValue? ==>
      e.Exit? && e.ops == GateOps(u) + [UploadOp(uuid, form.value)]
      && (Stored(upload) ==> e.kind == JsonReply(200, JObj(map["path" := JStr(upload.data.value.path.value)])))
      && (!Stored(upload) ==> e.kind == ErrorReply(400, if upload.error.Some? then upload.error.value.message
                                                        else "upload failed"))
  {
    var d := Decide(u, p);
    if !d.Admin? then Exit(DenialKind(d), false, GateOps(u))
    else if form.None? then Crash(GateOps(u))
    else if !form.value.FileValue? then Exit(ErrorReply(400, "missing file"), true, GateOps(u))
    else
      var ops := GateOps(u) + [UploadOp(uuid, form.value)];
      if upload.error.Some? || upload.data.None? || !Present(upload.data.value.path) then
        Exit(ErrorReply(400, if upload.error.Some? then upload.error.value.message else "upload failed"), true, ops)
      else
        Exit(JsonReply(200, JObj(map["path" := JStr(upload.data.value.path.value)])), true, ops)
  }

  method Post(req: Request, form: Option<FormValue>, uuid: string, auth: AuthCall<GetUserResult>,
              profile: ProfileResult, upload: UploadResult, backend: Backend)
    returns (out: Outcome)
    modifies backend
    ensures var e := UploadExit(auth.result, profile, form, uuid, upload);
      (out.Throws? <==> e.Crash?)
      && (out.Responds? ==> fresh(out.response) && out.response.kind == e.kind
                            && out.response.cookies == ExitCookies(e, auth))
      && backend.log == old(backend.log) + e.ops
  {
    var gate := RequireAdmin(req, auth, profile, backend);
    if gate.Denied? {
      return Responds(gate.response);
    }
    var cookiesToSet := gate.client.cookiesToSet;
    if form.None? {
      return Throws;
    }
    var file := form.value;
    var res: Response;
    if !file.FileValue? {
      res := new Response(ErrorReply(400, "missing file"));
      res := ApplyCookies(res, cookiesToSet);
      return Responds(res);
    }
    var filePath := uuid + "." + Extension(file.name);
    backend.Call(Upload(Bucket, filePath, "3600", false, ContentType(file.mimeType)));
    if upload.error.Some? || upload.data.None? || !Present(upload.data.value.path) {
      var message := if upload.error.Some? then upload.error.value.message else "upload failed";
      res := new Response(ErrorReply(400, message));
      res := ApplyCookies(res, cookiesToSet);
      return Responds(res);
    }
    res := new Response(JsonReply(200, JObj(map["path" := JStr(upload.data.value.path.value)])));
    res := ApplyCookies(res, cookiesToSet);
    return Responds(res);
  }

  /** `body?.path` of the parsed body. */
  function BodyPath(body: Json): Option<Json> {
    if body == JNull then None else Prop(body, "path")
  }

  /** `DELETE` with body `{ path }`: `req.json()` rejects a body that is not JSON; a missing or
      falsy path is 400 "missing path" with nothing removed; otherwise one removal, then 400
      with its error message or `{ ok: true }`. */
  function RemoveExit(u: GetUserResult, p: ProfileResult, body: Option<Json>, remove: WriteResult): (e: Exit)
    ensures KeepsGate(u, p, e)
    ensures Decide(u, p).Admin? ==> (e.Crash? <==> body.None?)
    ensures e.Crash? ==> e.ops == GateOps(u)
    ensures Decide(u, p).Admin? && body.Some? ==>
      var path := BodyPath(body.value);
      e.Exit?
      && (!(path.Some? && Truthy(path.value)) ==> e == Exit(ErrorReply(400, "missing path"), true, GateOps(u)))
      && (path.Some? && Truthy(path.value) ==>
            e.ops == GateOps(u) + [Remove(Bucket, [path.value])]
            && e.kind == if remove.error.Some? then ErrorReply(400, remove.error.value.message) else OkReply())
  {
    var d := Decide(u, p);
    if !d.Admin? then Exit(DenialKind(d), false, GateOps(u))
    else if body.None? then Crash(GateOps(u))
    else
      var path := BodyPath(body.value);
      if !(path.Some? && Truthy(path.value)) then Exit(ErrorReply(400, "missing path"), true, GateOps(u))
      else
        var ops := GateOps(u) + [Remove(Bucket, [path.value])];
        if remove.error.Some? then Exit(ErrorReply(400, remove.error.value.message), true, ops)
        else Exit(OkReply(), true, ops)
  }

  method Delete(req: Request, body: Option<Json>, auth: AuthCall<GetUserResult>, profile: ProfileResult,
                remove: WriteResult, backend: Backend)
    returns (out: Outcome)
    modifies backend
    ensures var e := RemoveExit(auth.result, profile, body, remove);
      (out.Throws? <==> e.Crash?)
      && (out.Responds? ==> fresh(out.response) && out.response.kind == e.kind
                            && out.response.cookies == ExitCookies(e, auth))
      && backend.log == old(backend.log) + e.ops
  {
    var gate := RequireAdmin(req, auth, profile, backend);
    if gate.Denied? {
      return Responds(gate.response);
    }
    var cookiesToSet := gate.client.cookiesToSet;
    if body.None? {
      return Throws;
    }
    var path := BodyPath(body.value);
    var res: Response;
    if !(path.Some? && Truthy(path.value)) {
      res := new Response(ErrorReply(400, "missing path"));
      res := ApplyCookies(res, cookiesToSet);
      return Responds(res);
    }
    backend.Call(Remove(Bucket, [path.value]));
    if remove.error.Some? {
      res := new Response(ErrorReply(400, remove.error.value.message));
    } else {
      res := new Response(OkReply());
    }
    res := ApplyCookies(res, cookiesToSet);
    return Responds(res);
  }
}
