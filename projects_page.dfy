/** The admin projects page (src/app/admin/projects/page.tsx): the form <-> payload
    conversions as functions, and the component's state (project list, form, editing id,
    message, image selection) as a class whose methods are the page's handlers. The fetches
    a handler issues are appended to `sent`; their replies are parameters. */
module ProjectsPage {
  import opened Js
  import opened Http
  import Supabase
  import ProjectsRoute
  import ProjectImageRoute

  /** A row as the list endpoint returns it; `None` is a `null` column. */
  datatype Project = Project(
    id: string,
    title: string,
    description: string,
    tags: Option<seq<string>>,
    liveUrl: Option<string>,
    repoUrl: Option<string>,
    imageUrl: Option<string>,
    imageName: Option<string>,
    imagePath: Option<string>,
    isPublished: bool,
    sortOrder: Option<int>)

  /** The editable form; `sortOrder` holds `Number(input.value)`, which may be NaN. */
  datatype Form = Form(
    title: string,
    description: string,
    tags: string,
    liveUrl: string,
    repoUrl: string,
    imageUrl: string,
    imageName: string,
    isPublished: bool,
    sortOrder: JsNumber)

  const EmptyForm: Form := Form("", "", "", "", "", "", "", true, Num(0.0))

  /** A `string | null | undefined` value. */
  datatype Nullish = Undefined | Null | Str(s: string)

  /** A file picked in the browser: its name and MIME type (`file.type`, possibly ""). */
  datatype File = File(name: string, mimeType: string)

  /** The selected or existing image (`ImageState`; the preview URL plays no part here). */
  datatype ImageState = ImageState(file: Option<File>, path: Nullish, name: Option<string>)

  /** The requests the page sends. */
  datatype Fetch =
    | ListRequest                    // GET /api/admin/projects
    | SaveRequest(id: Option<string>, payload: Payload) // POST /api/admin/projects, body `SaveBody`
    | UploadRequest(file: File)      // POST /api/admin/project-image, form field "file"
    | ImageDeleteRequest(path: string) // DELETE /api/admin/project-image
    | DeleteRequest(url: Url)        // DELETE /api/admin/projects?id=..[&image_path=..]

  /** A reply: `res.ok` with the parsed value, or the failure's text and status text. */
  datatype Answer<T> = Ok(value: T) | Failed(text: string, statusText: string)

  /** `text || res.statusText`. */
  function ErrorText<T>(a: Answer<T>): string
    requires a.Failed?
  {
    if a.text != "" then a.text else a.statusText
  }

  // ---------------------------------------------------------------------------------------
  // Tags: `form.tags.split(",").map((t) => t.trim()).filter(Boolean)`.
  // ---------------------------------------------------------------------------------------

  /** `.map((t) => t.trim()).filter(Boolean)`: the pieces, trimmed, that are not empty. */
  function KeptTags(parts: seq<string>): seq<string> {
    if parts == [] then []
    else (if Trim(parts[0]) == "" then [] else [Trim(parts[0])]) + KeptTags(parts[1..])
  }

  /** `tagsArray`. */
  function TagsArray(s: string): seq<string> {
    KeptTags(Split(s, ','))
  }

  /** A trimmed string contains only characters of the original. */
  lemma TrimKeepsOut(s: string, c: char)
    requires c !in s
    ensures c !in Trim(s)
  {
    var r := Trim(s);
    var i :| TrimmedAt(s, r, i);
    assert forall k :: 0 <= k < |r| ==> r[k] == s[i + k];
  }

  /** A tag as the form round-trips it: trimmed, non-empty, without a comma. */
  predicate CleanTag(t: string) {
    t != "" && Trim(t) == t && ',' !in t
  }

  /** The trimmed, non-empty text of a comma-free piece is a clean tag. */
  lemma TrimmedPieceClean(piece: string)
    requires ',' !in piece && Trim(piece) != ""
    ensures CleanTag(Trim(piece))
  {
    TrimKeepsOut(piece, ',');
    TrimIdempotent(piece);
  }

  lemma {:induction false} KeptTagsClean(parts: seq<string>)
    requires forall i :: 0 <= i < |parts| ==> ',' !in parts[i]
    ensures forall i :: 0 <= i < |KeptTags(parts)| ==> CleanTag(KeptTags(parts)[i])
  {
    if parts != [] {
      KeptTagsClean(parts[1..]);
      if Trim(parts[0]) != "" {
        TrimmedPieceClean(parts[0]);
      }
      CleanConcat(if Trim(parts[0]) == "" then [] else [Trim(parts[0])], KeptTags(parts[1..]));
    }
  }

  /** Clean tags stay clean when two lists of them are concatenated. */
  lemma CleanConcat(a: seq<string>, b: seq<string>)
    requires forall i :: 0 <= i < |a| ==> CleanTag(a[i])
    requires forall i :: 0 <= i < |b| ==> CleanTag(b[i])
    ensures forall i :: 0 <= i < |a + b| ==> CleanTag((a + b)[i])
  {
  }

  /** Every tag `tagsArray` yields is clean: trimmed, non-empty and comma-free. */
  lemma TagsArrayClean(s: string)
    ensures forall i :: 0 <= i < |TagsArray(s)| ==> CleanTag(TagsArray(s)[i])
  {
    KeptTagsClean(Split(s, ','));
  }

  /** Pieces that trim to the given non-empty tags keep exactly those tags. */
  lemma {:induction false} KeptTagsTrimmed(parts: seq<string>, tags: seq<string>)
    requires |parts| == |tags|
    requires forall i :: 0 <= i < |parts| ==> Trim(parts[i]) == tags[i] != ""
    ensures KeptTags(parts) == tags
  {
    if parts != [] {
      KeptTagsTrimmed(parts[1..], tags[1..]);
      assert tags == [tags[0]] + tags[1..];
    }
  }

  /** `" " + t` for every tag. */
  function Spaced(ts: seq<string>): (r: seq<string>)
    ensures |r| == |ts| && forall i :: 0 <= i < |ts| ==> r[i] == " " + ts[i]
  {
    seq(|ts|, i requires 0 <= i < |ts| => " " + ts[i])
  }

  /** Joining with "," pieces that each start with a space is joining with ", ". */
  lemma {:induction false} JoinSpaced(ts: seq<string>)
    requires |ts| >= 1
    ensures Join(Spaced(ts), [',']) == [' '] + Join(ts, ", ")
  {
    if |ts| > 1 {
      JoinSpaced(ts[1..]);
      assert Spaced(ts)[1..] == Spaced(ts[1..]);
      var rest := Join(ts[1..], ", ");
      calc {
        Join(Spaced(ts), [',']);
        Spaced(ts)[0] + [','] + Join(Spaced(ts)[1..], [',']);
        ([' '] + ts[0]) + [','] + ([' '] + rest);
        { SeparatorSplit(ts[0], rest); }
        [' '] + (ts[0] + ", " + rest);
        [' '] + Join(ts, ", ");
      }
    }
  }

  /** The pieces `split(",")` finds in `tags.join(", ")`: the first tag, then each further
      tag behind its space. */
  function Pieces(tags: seq<string>): (parts: seq<string>)
    requires |tags| >= 1
    ensures |parts| == |tags| && parts[0] == tags[0]
    ensures forall i :: 1 <= i < |tags| ==> parts[i] == [' '] + tags[i]
  {
    [tags[0]] + Spaced(tags[1..])
  }

  lemma SeparatorSplit(a: string, b: string)
    ensures a + [','] + ([' '] + b) == a + ", " + b
  {
    assert ", " == [','] + [' '];
  }

  lemma JoinPieces(tags: seq<string>)
    requires |tags| >= 1
    ensures Join(Pieces(tags), [',']) == Join(tags, ", ")
  {
    var parts := Pieces(tags);
    if |tags| > 1 {
      var rest := Join(tags[1..], ", ");
      calc {
        Join(parts, [',']);
        parts[0] + [','] + Join(parts[1..], [',']);
        { assert parts[1..] == Spaced(tags[1..]); }
        tags[0] + [','] + Join(Spaced(tags[1..]), [',']);
        { JoinSpaced(tags[1..]); }
        tags[0] + [','] + ([' '] + rest);
        { SeparatorSplit(tags[0], rest); }
        tags[0] + ", " + rest;
        Join(tags, ", ");
      }
    }
  }

  /** Each piece trims back to its clean tag. */
  lemma TrimPieces(tags: seq<string>)
    requires |tags| >= 1
    requires forall i :: 0 <= i < |tags| ==> CleanTag(tags[i])
    ensures forall i :: 0 <= i < |tags| ==> Trim(Pieces(tags)[i]) == tags[i] != ""
  {
    var parts := Pieces(tags);
    forall i | 1 <= i < |tags|
      ensures Trim(parts[i]) == tags[i]
    {
      TrimSpacedTag(tags[i]);
    }
  }

  lemma TrimSpacedTag(tag: string)
    requires Trim(tag) == tag
    ensures Trim([' '] + tag) == tag
  {
    TrimDropsLeadingSpace(' ', tag);
  }

  /** `edit` then `tagsArray`: joining clean tags with ", " and parsing the text gives the same
      tags back. */
  lemma TagsRoundTrip(tags: seq<string>)
    requires forall i :: 0 <= i < |tags| ==> CleanTag(tags[i])
    ensures TagsArray(Join(tags, ", ")) == tags
  {
    if |tags| == 0 {
      NoTagsRoundTrip(tags);
    } else {
      SomeTagsRoundTrip(tags);
    }
  }

  lemma NoTagsRoundTrip(tags: seq<string>)
    requires |tags| == 0
    ensures TagsArray(Join(tags, ", ")) == tags
  {
    assert Join(tags, ", ") == "";
    SplitNoSeparator("", ',');
    assert Trim("") == "";
    assert KeptTags([""]) == [] + KeptTags([]);
  }

  lemma SomeTagsRoundTrip(tags: seq<string>)
    requires |tags| >= 1
    requires forall i :: 0 <= i < |tags| ==> CleanTag(tags[i])
    ensures TagsArray(Join(tags, ", ")) == tags
  {
    var parts := Pieces(tags);
    calc {
      TagsArray(Join(tags, ", "));
      { JoinPieces(tags); }
      KeptTags(Split(Join(parts, [',']), ','));
      { PiecesCommaFree(tags); SplitJoin(parts, ','); }
      KeptTags(parts);
      { TrimPieces(tags); KeptTagsTrimmed(parts, tags); }
      tags;
    }
  }

  lemma PiecesCommaFree(tags: seq<string>)
    requires |tags| >= 1
    requires forall i :: 0 <= i < |tags| ==> ',' !in tags[i]
    ensures forall i :: 0 <= i < |tags| ==> ',' !in Pieces(tags)[i]
  {
    forall i | 1 <= i < |tags|
      ensures ',' !in Pieces(tags)[i]
    {
      assert Pieces(tags)[i] == [' '] + tags[i];
    }
  }

  // ---------------------------------------------------------------------------------------
  // The payload `save` builds.
  // ---------------------------------------------------------------------------------------

  /** `s.trim() || null`. */
  function OrNull(s: string): (v: Json)
    ensures v == JNull <==> Trim(s) == ""
    ensures v != JNull ==> v == JStr(Trim(s))
  {
    if Trim(s) == "" then JNull else JStr(Trim(s))
  }

  /** `Number(n) || 0`: NaN (and zero) become 0. */
  function NumberOrZero(n: JsNumber): (r: real)
    ensures n.Num? ==> r == n.r
    ensures n.NaN? ==> r == 0.0
  {
    if n.NaN? || n.r == 0.0 then 0.0 else n.r
  }

  function StrArray(ss: seq<string>): (v: Json)
    ensures v.JArr? && |v.items| == |ss| && forall i :: 0 <= i < |ss| ==> v.items[i] == JStr(ss[i])
  {
    JArr(seq(|ss|, i requires 0 <= i < |ss| => JStr(ss[i])))
  }

  function NullishJson(v: Nullish): Json
    requires !v.Undefined?
  {
    if v.Null? then JNull else JStr(v.s)
  }

  /** `file?.type ? uploadedPath : imageFile?.path`. */
  function ChosenPath(file: Option<File>, uploadedPath: Nullish, oldPath: Nullish): Nullish {
    if file.Some? && file.value.mimeType != "" then uploadedPath else oldPath
  }

  /** The `payload` object `save` builds. `imageName` is `None` and `imagePath` `Undefined`
      where the source leaves the value `undefined`. */
  datatype Payload = Payload(
    title: string,
    description: string,
    tags: seq<string>,
    liveUrl: Json,
    repoUrl: Json,
    imageUrl: Json,
    isPublished: bool,
    sortOrder: real,
    imageName: Option<string>,
    imagePath: Nullish)

  function BuildPayload(form: Form, file: Option<File>, uploadedPath: Nullish, oldPath: Nullish): Payload {
    Payload(Trim(form.title), Trim(form.description), TagsArray(form.tags),
            OrNull(form.liveUrl), OrNull(form.repoUrl), OrNull(form.imageUrl),
            form.isPublished, NumberOrZero(form.sortOrder),
            if file.Some? then Some(file.value.name) else None,
            ChosenPath(file, uploadedPath, oldPath))
  }

  /** The payload's required check is the form's, its tags are clean, and it names the chosen
      file exactly when there is one. */
  lemma PayloadFromForm(form: Form, file: Option<File>, uploadedPath: Nullish, oldPath: Nullish)
    ensures var p := BuildPayload(form, file, uploadedPath, oldPath);
      (Incomplete(p) <==> RequiredMissing(form))
      && (forall i :: 0 <= i < |p.tags| ==> CleanTag(p.tags[i]))
      && (p.imageName.Some? <==> file.Some?)
  {
    TagsArrayClean(form.tags);
  }

  /** The payload as `JSON.stringify` sends it: keys whose value is `undefined` are left out. */
  function PayloadJson(p: Payload): map<string, Json> {
    var base := map[
      "title" := JStr(p.title),
      "description" := JStr(p.description),
      "tags" := StrArray(p.tags),
      "live_url" := p.liveUrl,
      "repo_url" := p.repoUrl,
      "image_url" := p.imageUrl,
      "is_published" := JBool(p.isPublished),
      "sort_order" := JNum(p.sortOrder)];
    var named := if p.imageName.Some? then base["image_name" := JStr(p.imageName.value)] else base;
    if p.imagePath.Undefined? then named else named["image_path" := NullishJson(p.imagePath)]
  }

  /** The required-field check: a trimmed title or description is empty. */
  predicate RequiredMissing(form: Form) {
    Trim(form.title) == "" || Trim(form.description) == ""
  }

  /** `!payload.title || !payload.description`. */
  predicate Incomplete(p: Payload) {
    p.title == "" || p.description == ""
  }

  /** `editingId` is truthy. */
  predicate Editing(editingId: Option<string>) {
    Present(editingId)
  }

  /** The POST body as written: `editingId ? { id: editingId, ...payload } : payload`. */
  function FlatSaveBody(editingId: Option<string>, payload: Payload): (body: Json)
    ensures body.JObj? && "payload" !in body.fields
    ensures Editing(editingId) <==> "id" in body.fields
    ensures Editing(editingId) ==> body.fields["id"] == JStr(editingId.value)
  {
    if Editing(editingId) then JObj(PayloadJson(payload)["id" := JStr(editingId.value)]) else JObj(PayloadJson(payload))
  }

  /** As written, the handler that reads `body.payload ?? {}` never sees the form: whatever the
      payload holds, the page's POST updates the edited row with, or inserts, an empty object. */
  lemma FlatBodyWritesEmptyObject(editingId: Option<string>, payload: Payload)
    ensures ProjectsRoute.WriteOp(FlatSaveBody(editingId, payload))
      == if Editing(editingId) then Supabase.UpdateProject(JStr(editingId.value), JObj(map[]))
         else Supabase.InsertProject(JObj(map[]))
  {
    assert "payload" !in PayloadJson(payload);
  }

  /** The body the handler expects: `{ id: editingId, payload }`. */
  function SaveBody(editingId: Option<string>, payload: Payload): Json {
    JObj(map["id" := (if Editing(editingId) then JStr(editingId.value) else JNull),
             "payload" := JObj(PayloadJson(payload))])
  }

  /** With the wrapped body the handler writes exactly the payload the form produced: an
      update of the edited row, or an insert when nothing is being edited. */
  lemma SaveBodyWritesPayload(editingId: Option<string>, payload: Payload)
    ensures ProjectsRoute.WriteOp(SaveBody(editingId, payload))
      == if Editing(editingId) then Supabase.UpdateProject(JStr(editingId.value), JObj(PayloadJson(payload)))
         else Supabase.InsertProject(JObj(PayloadJson(payload)))
  {
  }

  /** The JSON body a request sends: the wrapped save body, `{ path }` for an image deletion,
      none for the others. */
  function RequestBody(f: Fetch): Option<Json> {
    match f
    case SaveRequest(id, payload) => Some(SaveBody(id, payload))
    case ImageDeleteRequest(path) => Some(JObj(map["path" := JStr(path)]))
    case _ => None
  }

  /** The image-deletion handler reads back exactly the path the page sends. */
  lemma ImageDeleteBodyPath(path: string)
    ensures RequestBody(ImageDeleteRequest(path)).Some?
    ensures ProjectImageRoute.BodyPath(RequestBody(ImageDeleteRequest(path)).value) == Some(JStr(path))
  {
  }

  // ---------------------------------------------------------------------------------------
  // Replacing the stored image after a save.
  // ---------------------------------------------------------------------------------------

  /** The deletion test as written: `file?.type && payload.image_path !== imageFile?.path`. */
  predicate DeletesOldImageAsWritten(file: Option<File>, uploadedPath: Nullish, oldPath: Nullish) {
    file.Some? && file.value.mimeType != "" && ChosenPath(file, uploadedPath, oldPath) != oldPath
  }

  /** As written, a failed upload (`saveFile` gives `undefined`) still deletes the stored image,
      while the saved payload carries no `image_path` that would replace it. */
  lemma FailedUploadDeletesOldImage()
    ensures var file := Some(File("cover.png", "image/png"));
      DeletesOldImageAsWritten(file, Undefined, Str("old.png"))
      && BuildPayload(EmptyForm, file, Undefined, Str("old.png")).imagePath.Undefined?
  {
  }

  /** The evident intent: delete the old image only when there is one, and only once a new
      one was stored under a new path. */
  predicate ReplacesOldImage(file: Option<File>, uploadedPath: Nullish, oldPath: Nullish) {
    file.Some? && file.value.mimeType != "" && uploadedPath.Str? && uploadedPath != oldPath
    && oldPath.Str? && oldPath.s != ""
  }

  /** When the old image is deleted, the saved payload points at the newly stored one. */
  lemma ReplacementIsSaved(form: Form, file: Option<File>, uploadedPath: Nullish, oldPath: Nullish)
    requires ReplacesOldImage(file, uploadedPath, oldPath)
    ensures DeletesOldImageAsWritten(file, uploadedPath, oldPath)
    ensures BuildPayload(form, file, uploadedPath, oldPath).imagePath == uploadedPath != oldPath
    ensures PathOrEmpty(oldPath) != ""
  {
  }

  /** As written, a typed file replacing no stored image still sends a delete, for the path
      `""`, which the image route refuses with 400 "missing path"; the intended test sends none. */
  lemma NoStoredImageDeletesEmptyPath()
    ensures var file := Some(File("cover.png", "image/png"));
      DeletesOldImageAsWritten(file, Str("new.png"), Undefined)
      && PathOrEmpty(Undefined) == ""
      && !ReplacesOldImage(file, Str("new.png"), Undefined)
  {
  }

  /** What `saveFile` resolves to: `null` without a file, the stored path, or `undefined`
      after a failed upload. */
  function UploadedPath(file: Option<File>, upload: Answer<string>): Nullish {
    if file.None? then Null else if upload.Ok? then Str(upload.value) else Undefined
  }

  /** `imageFile?.path || ""`. */
  function PathOrEmpty(v: Nullish): string {
    if v.Str? then v.s else ""
  }

  /** The file chosen in the form, if any. */
  function ChosenFile(image: Option<ImageState>): Option<File> {
    if image.Some? then image.value.file else None
  }

  /** `imageFile?.path`: the stored path the form was opened with. */
  function OldPath(image: Option<ImageState>): Nullish {
    if image.Some? then image.value.path else Undefined
  }

  /** The upload request `saveFile` sends, none without a chosen file. */
  function Uploads(image: Option<ImageState>): seq<Fetch> {
    var file := ChosenFile(image);
    if file.Some? then [UploadRequest(file.value)] else []
  }

  /** The payload `save` posts for this form, image state and upload answer. */
  function SavedPayload(form: Form, image: Option<ImageState>, upload: Answer<string>): Payload {
    var file := ChosenFile(image);
    BuildPayload(form, file, UploadedPath(file, upload), OldPath(image))
  }

  /** The delete request for the replaced image after a successful save, if any. */
  function Replaced(image: Option<ImageState>, upload: Answer<string>): seq<Fetch> {
    var file := ChosenFile(image);
    if ReplacesOldImage(file, UploadedPath(file, upload), OldPath(image))
    then [ImageDeleteRequest(PathOrEmpty(OldPath(image)))] else []
  }

  // ---------------------------------------------------------------------------------------
  // `edit`, `reset` and the delete URL.
  // ---------------------------------------------------------------------------------------

  /** The form `edit(p)` fills in. */
  function FormOf(p: Project): (f: Form)
    ensures f.title == p.title && f.description == p.description
    ensures f.tags == Join(p.tags.GetOr([]), ", ")
    ensures f.liveUrl == p.liveUrl.GetOr("") && f.repoUrl == p.repoUrl.GetOr("")
            && f.imageUrl == p.imageUrl.GetOr("") && f.imageName == p.imageName.GetOr("")
    ensures f.isPublished == p.isPublished && f.sortOrder == Num(p.sortOrder.GetOr(0) as real)
  {
    Form(p.title, p.description, Join(p.tags.GetOr([]), ", "), p.liveUrl.GetOr(""), p.repoUrl.GetOr(""),
         p.imageUrl.GetOr(""), p.imageName.GetOr(""), p.isPublished, Num(p.sortOrder.GetOr(0) as real))
  }

  /** A URL column the form gives back unchanged: null, or a trimmed non-empty string. */
  predicate CleanUrl(u: Option<string>) {
    u.None? || (u.value != "" && Trim(u.value) == u.value)
  }

  function UrlJson(u: Option<string>): Json {
    if u.None? then JNull else JStr(u.value)
  }

  /** Editing a row and saving it untouched writes back its own fields: trimmed title and
      description, the same tags, the same URLs (null stays null), flag and order. */
  lemma EditSaveRoundTrip(p: Project, file: Option<File>, uploadedPath: Nullish, oldPath: Nullish)
    requires p.title != "" && Trim(p.title) == p.title && p.description != "" && Trim(p.description) == p.description
    requires p.tags.Some? ==> forall i :: 0 <= i < |p.tags.value| ==> CleanTag(p.tags.value[i])
    requires CleanUrl(p.liveUrl) && CleanUrl(p.repoUrl) && CleanUrl(p.imageUrl)
    ensures !RequiredMissing(FormOf(p))
    ensures var pl := BuildPayload(FormOf(p), file, uploadedPath, oldPath);
      pl.title == p.title && pl.description == p.description && pl.tags == p.tags.GetOr([])
      && pl.liveUrl == UrlJson(p.liveUrl) && pl.repoUrl == UrlJson(p.repoUrl) && pl.imageUrl == UrlJson(p.imageUrl)
      && pl.isPublished == p.isPublished && pl.sortOrder == p.sortOrder.GetOr(0) as real
  {
    TagsRoundTrip(p.tags.GetOr([]));
    UrlRoundTrip(p.liveUrl);
    UrlRoundTrip(p.repoUrl);
    UrlRoundTrip(p.imageUrl);
  }

  /** A clean URL column shown in the form and read back by `save` is unchanged. */
  lemma UrlRoundTrip(u: Option<string>)
    requires CleanUrl(u)
    ensures OrNull(u.GetOr("")) == UrlJson(u)
  {
    assert Trim("") == "";
  }

  /** The empty form never passes the required check. */
  lemma EmptyFormIsIncomplete()
    ensures RequiredMissing(EmptyForm)
  {
    assert Trim("") == "";
  }

  /** The DELETE URL `del` builds: `id` always, `image_path` only when the path is truthy. */
  function DeleteUrl(origin: string, id: string, imagePath: Option<string>): (url: Url)
    ensures url.origin == origin && url.pathname == "/api/admin/projects"
    ensures QueryGet(url.query, "id") == Some(id)
    ensures Present(QueryGet(url.query, "image_path")) <==> Present(imagePath)
    ensures Present(imagePath) ==> QueryGet(url.query, "image_path") == imagePath
  {
    var q := [QueryParam("id", id)] + (if Present(imagePath) then [QueryParam("image_path", imagePath.value)] else []);
    assert q[0] == QueryParam("id", id);
    assert !Present(imagePath) ==> q == [QueryParam("id", id)];
    assert Present(imagePath) ==> q[1..] == [QueryParam("image_path", imagePath.value)];
    Url(origin, "/api/admin/projects", q)
  }

  // ---------------------------------------------------------------------------------------
  // The component state.
  // ---------------------------------------------------------------------------------------

  class AdminProjectsPage {
    var loading: bool
    var projects: seq<Project>
    var form: Form
    var editingId: Option<string>
    var msg: string
    var image: Option<ImageState>
    var sent: seq<Fetch>

    /** The initial state, before the mount effect loads the list. */
    constructor ()
      ensures loading && projects == [] && form == EmptyForm && editingId == None
      ensures msg == "" && image == None && sent == []
    {
      loading := true;
      projects := [];
      form := EmptyForm;
      editingId := None;
      msg := "";
      image := None;
      sent := [];
    }

    /** `load`: one GET; a failure empties the list and reports it, a success shows
        `json.projects ?? []`; nothing else changes. */
    method Load(reply: Answer<Option<seq<Project>>>)
      modifies this
      ensures sent == old(sent) + [ListRequest] && !loading
      ensures reply.Failed? ==> projects == [] && msg == "Load error: " + ErrorText(reply)
      ensures reply.Ok? ==> projects == reply.value.GetOr([]) && msg == ""
      ensures form == old(form) && editingId == old(editingId) && image == old(image)
    {
      loading := true;
      msg := "";
      sent := sent + [ListRequest];
      if reply.Failed? {
        msg := "Load error: " + ErrorText(reply);
        projects := [];
        loading := false;
        return;
      }
      projects := reply.value.GetOr([]);
      loading := false;
    }

    /** `reset`: the empty form, nothing being edited; the rest is untouched. */
    method Reset()
      modifies this
      ensures form == EmptyForm && editingId == None
      ensures loading == old(loading) && projects == old(projects) && msg == old(msg)
              && image == old(image) && sent == old(sent)
    {
      form := EmptyForm;
      editingId := None;
    }

    /** `edit(p)`: edit `p`'s id with its fields in the form; its image becomes the selection
        only when it has a (truthy) name, otherwise the previous selection stays. */
    method Edit(p: Project)
      modifies this
      ensures editingId == Some(p.id) && form == FormOf(p) && msg == ""
      ensures image == if p.imageName.Some? && p.imageName.value != ""
                       then Some(ImageState(None, if p.imagePath.Some? then Str(p.imagePath.value) else Null,
                                            p.imageName))
                       else old(image)
      ensures loading == old(loading) && projects == old(projects) && sent == old(sent)
    {
      editingId := Some(p.id);
      form := FormOf(p);
      if p.imageName.Some? && p.imageName.value != "" {
        image := Some(ImageState(None, if p.imagePath.Some? then Str(p.imagePath.value) else Null, p.imageName));
      }
      msg := "";
    }

    /** The file input's change handler: the picked file (or none) and its name replace
        those of the selection, whose stored path is kept. */
    method ChooseImage(picked: Option<File>)
      modifies this
      ensures image == Some(ImageState(picked, if old(image).Some? then old(image).value.path else Undefined,
                                       if picked.Some? then Some(picked.value.name) else None))
      ensures loading == old(loading) && projects == old(projects) && form == old(form)
              && editingId == old(editingId) && msg == old(msg) && sent == old(sent)
    {
      var path := if image.Some? then image.value.path else Undefined;
      image := Some(ImageState(picked, path, if picked.Some? then Some(picked.value.name) else None));
    }

    /** `saveFile`: with a file selected, one upload whose stored path is returned, or
        `undefined` after reporting the failure; without a file, `null` and no request. */
    method SaveFile(upload: Answer<string>) returns (uploadedPath: Nullish)
      modifies this
      ensures var file := ChosenFile(image);
        uploadedPath == UploadedPath(file, upload)
        && sent == old(sent) + Uploads(image)
        && (file.Some? && upload.Failed? ==> msg == "Image upload error: " + ErrorText(upload))
        && (file.None? || upload.Ok? ==> msg == old(msg))
      ensures loading == old(loading) && projects == old(projects) && form == old(form)
              && editingId == old(editingId) && image == old(image)
    {
      uploadedPath := Null;
      if image.Some? && image.value.file.Some? {
        sent := sent + [UploadRequest(image.value.file.value)];
        if upload.Failed? {
          msg := "Image upload error: " + ErrorText(upload);
          uploadedPath := Undefined;
        } else {
          uploadedPath := Str(upload.value);
        }
      }
    }

    /** `deleteImage(path)`: one DELETE with body `{ path }`; a failure is reported. */
    method DeleteImage(path: string, reply: Answer<()>)
      modifies this
      ensures sent == old(sent) + [ImageDeleteRequest(path)]
      ensures msg == if reply.Failed? then "Image delete error: " + ErrorText(reply) else old(msg)
      ensures loading == old(loading) && projects == old(projects) && form == old(form)
              && editingId == old(editingId) && image == old(image)
    {
      sent := sent + [ImageDeleteRequest(path)];
      if reply.Failed? {
        msg := "Image delete error: " + ErrorText(reply);
      }
    }

    /** The end of `save`, once the payload is built: the message is cleared and the required
        check is made on the payload; then the POST of the wrapped `{ id, payload }` body, and
        after a successful save the deletion of the replaced image when there is one, the
        cleared selection and form, and a reload. */
    method Post(payload: Payload, replaced: Option<string>, saveReply: Answer<()>,
                deleteReply: Answer<()>, loadReply: Answer<Option<seq<Project>>>)
      modifies this
      ensures Incomplete(payload) ==>
        sent == old(sent) && msg == "Title and description are required."
        && form == old(form) && editingId == old(editingId) && image == old(image)
        && projects == old(projects) && loading == old(loading)
      ensures !Incomplete(payload) && saveReply.Failed? ==>
        sent == old(sent) + [SaveRequest(old(editingId), payload)]
        && msg == "Save error: " + ErrorText(saveReply)
        && form == old(form) && editingId == old(editingId) && image == old(image)
        && projects == old(projects) && loading == old(loading)
      ensures !Incomplete(payload) && saveReply.Ok? ==>
        sent == old(sent) + [SaveRequest(old(editingId), payload)]
                + (if replaced.Some? then [ImageDeleteRequest(replaced.value)] else []) + [ListRequest]
        && msg == "Saved \U{2705}" && form == EmptyForm && editingId == None && image == None
        && projects == (if loadReply.Ok? then loadReply.value.GetOr([]) else []) && !loading
    {
      msg := "";
      if Incomplete(payload) {
        msg := "Title and description are required.";
        return;
      }
      sent := sent + [SaveRequest(editingId, payload)];
      if saveReply.Failed? {
        msg := "Save error: " + ErrorText(saveReply);
        return;
      }
      if replaced.Some? {
        DeleteImage(replaced.value, deleteReply);
      }
      ghost var deleted := sent;
      image := None;
      Reset();
      Load(loadReply);
      msg := "Saved \U{2705}";
      assert sent == deleted + [ListRequest];
    }

    /** `save`: a selected file is uploaded first, even when the form then fails the required
        check; then the payload is built and `Post` checks and sends it. The old image is
        deleted only when a new one was stored under a new path (the code as written posts a
        flat body and deletes the old image after a failed upload too: see
        `FlatBodyWritesEmptyObject` and `FailedUploadDeletesOldImage`). */
    method Save(upload: Answer<string>, saveReply: Answer<()>, deleteReply: Answer<()>,
                loadReply: Answer<Option<seq<Project>>>)
      modifies this
      ensures RequiredMissing(old(form)) ==>
        sent == old(sent) + Uploads(old(image)) && msg == "Title and description are required."
        && form == old(form) && editingId == old(editingId) && image == old(image)
        && projects == old(projects) && loading == old(loading)
      ensures !RequiredMissing(old(form)) && saveReply.Failed? ==>
        sent == old(sent) + Uploads(old(image)) + [SaveRequest(old(editingId), SavedPayload(old(form), old(image), upload))]
        && msg == "Save error: " + ErrorText(saveReply)
        && form == old(form) && editingId == old(editingId) && image == old(image)
        && projects == old(projects) && loading == old(loading)
      ensures !RequiredMissing(old(form)) && saveReply.Ok? ==>
        sent == old(sent) + Uploads(old(image)) + [SaveRequest(old(editingId), SavedPayload(old(form), old(image), upload))]
                + Replaced(old(image), upload) + [ListRequest]
        && msg == "Saved \U{2705}" && form == EmptyForm && editingId == None && image == None
        && projects == (if loadReply.Ok? then loadReply.value.GetOr([]) else []) && !loading
    {
      var current := form;
      var chosen := image;
      var uploadedPath := SaveFile(upload);
      var file := ChosenFile(chosen);
      var oldPath := OldPath(chosen);
      var payload := BuildPayload(current, file, uploadedPath, oldPath);
      var replaced := if ReplacesOldImage(file, uploadedPath, oldPath) then Some(PathOrEmpty(oldPath)) else None;
      Post(payload, replaced, saveReply, deleteReply, loadReply);
    }

    /** `del(id, image_path)`: nothing without confirmation; otherwise one DELETE to
        `DeleteUrl`, then on success a reload and "Deleted ✅". */
    method Del(origin: string, id: string, imagePath: Option<string>, confirmed: bool,
               reply: Answer<()>, loadReply: Answer<Option<seq<Project>>>)
      modifies this
      ensures !confirmed ==> sent == old(sent) && msg == old(msg) && projects == old(projects)
                             && loading == old(loading)
      ensures confirmed && reply.Failed? ==>
        sent == old(sent) + [DeleteRequest(DeleteUrl(origin, id, imagePath))]
        && msg == "Delete error: " + ErrorText(reply) && projects == old(projects)
        && loading == old(loading)
      ensures confirmed && reply.Ok? ==>
        sent == old(sent) + [DeleteRequest(DeleteUrl(origin, id, imagePath)), ListRequest]
        && msg == "Deleted \U{2705}" && projects == (if loadReply.Ok? then loadReply.value.GetOr([]) else [])
        && !loading
      ensures form == old(form) && editingId == old(editingId) && image == old(image)
    {
      if !confirmed {
        return;
      }
      msg := "";
      sent := sent + [DeleteRequest(DeleteUrl(origin, id, imagePath))];
      if reply.Failed? {
        msg := "Delete error: " + ErrorText(reply);
        return;
      }
      Load(loadReply);
      msg := "Deleted \U{2705}";
    }
  }
}
