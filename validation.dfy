/** The project input schemas (src/lib/validation/projects.ts). Each zod schema becomes a
    parser from a parsed JSON body to either the normalised record or the set of issues zod
    would report; `AcceptableCreate` and `AcceptableUpdate` say field by field, independently
    of the parser, which bodies are accepted. */
module ProjectValidation {
  import opened Js

  datatype PathElem = Key(key: string) | Index(index: nat)

  datatype IssueKind =
    | Required                       // a required key is missing
    | InvalidType                    // a value of the wrong JSON type (null included)
    | TooShort(message: string)      // `.min(...)` on a string's length
    | TooLong(message: string)       // `.max(...)` on a string's or an array's length
    | NotInteger                     // `.int()`
    | BelowMinimum(minimum: int)     // `.min(...)` on a number
    | AboveMaximum(maximum: int)     // `.max(...)` on a number
    | InvalidUrl(message: string)    // `.url(...)`
    | UnrecognizedKeys(keys: set<string>)   // `.strict()`
    | Custom(message: string)        // `.refine(...)`
    | InvalidUnion                   // no branch of `z.union` matched

  datatype Issue = Issue(path: seq<PathElem>, kind: IssueKind)

  /** A zod parse result: the output value, or the (non-empty) set of issues. */
  datatype Parsed<T> = Valid(value: T) | Invalid(issues: set<Issue>)

  function IssuesOf<T>(p: Parsed<T>): set<Issue> {
    if p.Invalid? then p.issues else {}
  }

  /** A nullable field's value. */
  datatype Nullable<T> = Null | NonNull(v: T)

  /** The parsed project fields; `None` is a key absent from the output object. */
  datatype ProjectInput = ProjectInput(
    title: Option<string>,
    description: Option<string>,
    isPublished: Option<bool>,
    sortOrder: Option<int>,
    tags: Option<seq<string>>,
    liveUrl: Option<Nullable<string>>,
    repoUrl: Option<Nullable<string>>,
    imageUrl: Option<Nullable<string>>,
    imageName: Option<Nullable<string>>,
    imagePath: Option<Nullable<string>>)

  /** The keys the strict schemas know. */
  predicate Whitelisted(key: string) {
    key == "title" || key == "description" || key == "is_published" || key == "sort_order" || key == "tags"
    || key == "live_url" || key == "repo_url" || key == "image_url" || key == "image_name" || key == "image_path"
  }

  const MaxTags := 25
  const MaxSortOrder := 100000

  /** The decimal digits of `n`, as `${n}` prints them. */
  function Decimal(n: nat): string {
    if n < 10 then [(n + '0' as int) as char] else Decimal(n / 10) + [(n % 10 + '0' as int) as char]
  }

  // ---------------------------------------------------------------------------------------
  // Reference definition: which field values are acceptable.
  // ---------------------------------------------------------------------------------------

  /** A string whose trimmed length (in UTF-16 code units) is 1..max. */
  predicate GoodText(v: Json, max: nat) {
    v.JStr? && 1 <= Utf16Length(Trim(v.s)) <= max
  }

  predicate IsInteger(r: real) {
    r.Floor as real == r
  }

  predicate GoodTags(v: Json) {
    v.JArr? && |v.items| <= MaxTags && forall i :: 0 <= i < |v.items| ==> GoodText(v.items[i], 40)
  }

  predicate GoodSortOrder(v: Json) {
    v.JNum? && IsInteger(v.r) && 0.0 <= v.r <= MaxSortOrder as real
  }

  predicate GoodUrl(v: Json, isUrl: string -> bool) {
    v == JNull || (v.JStr? && isUrl(Trim(v.s)))
  }

  /** The value given for a whitelisted key is acceptable; nothing is for any other key. */
  predicate AcceptableField(key: string, v: Json, isUrl: string -> bool) {
    if key == "title" then GoodText(v, 120)
    else if key == "description" then GoodText(v, 2000)
    else if key == "is_published" then v.JBool?
    else if key == "sort_order" then GoodSortOrder(v)
    else if key == "tags" then GoodTags(v)
    else if key == "live_url" || key == "repo_url" || key == "image_url" then GoodUrl(v, isUrl)
    else if key == "image_name" then v == JNull || GoodText(v, 255)
    else if key == "image_path" then v == JNull || GoodText(v, 500)
    else false
  }

  /** `projectCreateSchema` accepts: an object with a title and a description, every key of
      which is whitelisted and carries an acceptable value. */
  predicate AcceptableCreate(input: Json, isUrl: string -> bool) {
    input.JObj? && "title" in input.fields && "description" in input.fields
    && forall k :: k in input.fields ==> AcceptableField(k, input.fields[k], isUrl)
  }

  /** `projectUpdateSchema` accepts: a non-empty object every key of which is whitelisted
      and carries an acceptable value. */
  predicate AcceptableUpdate(input: Json, isUrl: string -> bool) {
    input.JObj? && |input.fields| > 0
    && forall k :: k in input.fields ==> AcceptableField(k, input.fields[k], isUrl)
  }

  /** Whatever creates a project may also update it. */
  lemma CreateImpliesUpdate(input: Json, isUrl: string -> bool)
    requires AcceptableCreate(input, isUrl)
    ensures AcceptableUpdate(input, isUrl)
  {
    assert "title" in input.fields.Keys;
  }

  // ---------------------------------------------------------------------------------------
  // The schemas as parsers.
  // ---------------------------------------------------------------------------------------

  /** `z.string().trim().min(1, tooShort).max(max, tooLong)`: the trimmed string, or the
      length issues (both checks run), or a type issue. */
  function ParseText(v: Json, at: seq<PathElem>, max: nat, tooShort: string, tooLong: string): (r: Parsed<string>)
    requires max >= 1
    ensures r.Valid? <==> GoodText(v, max)
    ensures r.Valid? ==> r.value == Trim(v.s)
    ensures r.Invalid? ==> r.issues != {} && forall i :: i in r.issues ==> i.path == at
  {
    if !v.JStr? then Invalid({Issue(at, InvalidType)})
    else
      var t := Trim(v.s);
      var issues := (if Utf16Length(t) < 1 then {Issue(at, TooShort(tooShort))} else {})
                    + (if Utf16Length(t) > max then {Issue(at, TooLong(tooLong))} else {});
      if issues == {} then Valid(t) else Invalid(issues)
  }

  /** `nonEmptyString(caption, max)` as a required key of an object. */
  function RequiredText(f: map<string, Json>, key: string, caption: string, max: nat): (r: Parsed<string>)
    requires max >= 1
    ensures r.Valid? <==> key in f && GoodText(f[key], max)
    ensures r.Valid? ==> r.value == Trim(f[key].s)
    ensures r.Invalid? ==> r.issues != {}
  {
    if key !in f then Invalid({Issue([Key(key)], Required)})
    else ParseText(f[key], [Key(key)], max, caption + " is required",
                   caption + " must be at most " + Decimal(max) + " characters")
  }

  /** `nonEmptyString(caption, max)` made optional by `.partial()`. */
  function OptionalText(f: map<string, Json>, key: string, caption: string, max: nat): (r: Parsed<Option<string>>)
    requires max >= 1
    ensures r.Valid? <==> key !in f || GoodText(f[key], max)
    ensures r.Valid? ==> r.value == if key in f then Some(Trim(f[key].s)) else None
    ensures r.Invalid? ==> r.issues != {}
  {
    if key !in f then Valid(None)
    else
      var t := RequiredText(f, key, caption, max);
      if t.Valid? then Valid(Some(t.value)) else Invalid(t.issues)
  }

  /** `z.boolean().optional()`. */
  function OptionalBool(f: map<string, Json>, key: string): (r: Parsed<Option<bool>>)
    ensures r.Valid? <==> key !in f || f[key].JBool?
    ensures r.Valid? ==> r.value == if key in f then Some(f[key].b) else None
    ensures r.Invalid? ==> r.issues != {}
  {
    if key !in f then Valid(None)
    else if f[key].JBool? then Valid(Some(f[key].b))
    else Invalid({Issue([Key(key)], InvalidType)})
  }

  /** `z.number().int().min(0).max(100000).optional()`. */
  function OptionalSortOrder(f: map<string, Json>): (r: Parsed<Option<int>>)
    ensures r.Valid? <==> "sort_order" !in f || GoodSortOrder(f["sort_order"])
    ensures r.Valid? && "sort_order" in f ==> r.value.Some? && r.value.value as real == f["sort_order"].r
    ensures r.Valid? && "sort_order" !in f ==> r.value.None?
    ensures r.Invalid? ==> r.issues != {}
  {
    var at := [Key("sort_order")];
    if "sort_order" !in f then Valid(None)
    else if !f["sort_order"].JNum? then Invalid({Issue(at, InvalidType)})
    else
      var n := f["sort_order"].r;
      var issues := (if !IsInteger(n) then {Issue(at, NotInteger)} else {})
                    + (if n < 0.0 then {Issue(at, BelowMinimum(0))} else {})
                    + (if n > MaxSortOrder as real then {Issue(at, AboveMaximum(MaxSortOrder))} else {});
      if issues == {} then Valid(Some(n.Floor)) else Invalid(issues)
  }

  /** The element issues of a tag array, the first element being at index `from`. */
  function TagIssues(items: seq<Json>, from: nat): (r: set<Issue>)
    ensures forall i :: i in r ==> |i.path| == 2 && i.path[0] == Key("tags")
  {
    if items == [] then {}
    else
      IssuesOf(ParseText(items[0], [Key("tags"), Index(from)], 40, "Tags cannot be empty",
                         "Tags must be at most 40 characters"))
      + TagIssues(items[1..], from + 1)
  }

  /** An array's elements raise no issue exactly when every one is an acceptable tag. */
  lemma {:induction false} TagIssuesEmpty(items: seq<Json>, from: nat)
    ensures TagIssues(items, from) == {} <==> forall i :: 0 <= i < |items| ==> GoodText(items[i], 40)
  {
    if items != [] {
      var head := ParseText(items[0], [Key("tags"), Index(from)], 40, "Tags cannot be empty",
                            "Tags must be at most 40 characters");
      TagIssuesEmpty(items[1..], from + 1);
      assert IssuesOf(head) == {} <==> GoodText(items[0], 40);
      AllGoodTextCons(items);
    }
  }

  /** Every element of a non-empty array is acceptable exactly when its head and every
      element of its tail are. */
  lemma AllGoodTextCons(items: seq<Json>)
    requires items != []
    ensures (forall i :: 0 <= i < |items| ==> GoodText(items[i], 40))
            <==> GoodText(items[0], 40) && forall j :: 0 <= j < |items[1..]| ==> GoodText(items[1..][j], 40)
  {
    assert forall j :: 0 <= j < |items[1..]| ==> items[1..][j] == items[j + 1];
  }

  /** The trimmed strings of a string array. */
  function TrimAll(items: seq<Json>): (r: seq<string>)
    requires forall i :: 0 <= i < |items| ==> items[i].JStr?
    ensures |r| == |items| && forall i :: 0 <= i < |items| ==> r[i] == Trim(items[i].s)
  {
    if items == [] then [] else [Trim(items[0].s)] + TrimAll(items[1..])
  }

  /** `tagsSchema`: at most 25 tags, each trimmed to 1..40; missing means `[]` when the schema
      keeps its default, and stays missing under `.partial()`. */
  function Tags(f: map<string, Json>, withDefault: bool): (r: Parsed<Option<seq<string>>>)
    ensures r.Valid? <==> "tags" !in f || GoodTags(f["tags"])
    ensures r.Valid? && "tags" in f ==> r.value == Some(TrimAll(f["tags"].items))
    ensures r.Valid? && "tags" !in f ==> r.value == if withDefault then Some([]) else None
    ensures r.Invalid? ==> r.issues != {}
  {
    var at := [Key("tags")];
    if "tags" !in f then Valid(if withDefault then Some([]) else None)
    else if !f["tags"].JArr? then Invalid({Issue(at, InvalidType)})
    else
      var items := f["tags"].items;
      var issues := (if |items| > MaxTags then {Issue(at, TooLong("Too many tags"))} else {})
                    + TagIssues(items, 0);
      TagIssuesEmpty(items, 0);
      if issues == {} then Valid(Some(TrimAll(items))) else Invalid(issues)
  }

  /** `urlOrNull`: `z.string().trim().url(...).nullable().optional()`. */
  function OptionalUrl(f: map<string, Json>, key: string, isUrl: string -> bool): (r: Parsed<Option<Nullable<string>>>)
    ensures r.Valid? <==> key !in f || GoodUrl(f[key], isUrl)
    ensures r.Valid? ==> r.value == if key !in f then None
                                    else if f[key] == JNull then Some(Null)
                                    else Some(NonNull(Trim(f[key].s)))
    ensures r.Invalid? ==> r.issues != {}
  {
    var at := [Key(key)];
    if key !in f then Valid(None)
    else if f[key] == JNull then Valid(Some(Null))
    else if !f[key].JStr? then Invalid({Issue(at, InvalidType)})
    else if isUrl(Trim(f[key].s)) then Valid(Some(NonNull(Trim(f[key].s))))
    else Invalid({Issue(at, InvalidUrl("Must be a valid URL"))})
  }

  /** `z.string().trim().min(1, tooShort).max(max, tooLong).nullable().optional()`. */
  function OptionalNullableText(f: map<string, Json>, key: string, max: nat, tooShort: string, tooLong: string)
    : (r: Parsed<Option<Nullable<string>>>)
    requires max >= 1
    ensures r.Valid? <==> key !in f || f[key] == JNull || GoodText(f[key], max)
    ensures r.Valid? ==> r.value == if key !in f then None
                                    else if f[key] == JNull then Some(Null)
                                    else Some(NonNull(Trim(f[key].s)))
    ensures r.Invalid? ==> r.issues != {}
  {
    if key !in f then Valid(None)
    else if f[key] == JNull then Valid(Some(Null))
    else
      var t := ParseText(f[key], [Key(key)], max, tooShort, tooLong);
      if t.Valid? then Valid(Some(NonNull(t.value))) else Invalid(t.issues)
  }

  /** `.strict()`: the keys outside the whitelist, reported together. */
  function StrictIssues(f: map<string, Json>): (r: set<Issue>)
    ensures r == {} <==> forall k :: k in f ==> Whitelisted(k)
  {
    var unknown := set k | k in f && !Whitelisted(k);
    assert unknown == {} ==> forall k :: k in f ==> k !in unknown;
    if unknown == {} then {} else {Issue([], UnrecognizedKeys(unknown))}
  }

  /** The field-by-field reading of the text fields: the required keys are there and each
      of title, description, is_published, sort_order and tags, when present, passes its own
      field schema. */
  predicate CoreGood(f: map<string, Json>, partial: bool) {
    (partial || ("title" in f && "description" in f))
    && ("title" in f ==> GoodText(f["title"], 120))
    && ("description" in f ==> GoodText(f["description"], 2000))
    && ("is_published" in f ==> f["is_published"].JBool?)
    && ("sort_order" in f ==> GoodSortOrder(f["sort_order"]))
    && ("tags" in f ==> GoodTags(f["tags"]))
  }

  /** The same for the link and image fields, none of which is required. */
  predicate LinksGood(f: map<string, Json>, isUrl: string -> bool) {
    ("live_url" in f ==> GoodUrl(f["live_url"], isUrl))
    && ("repo_url" in f ==> GoodUrl(f["repo_url"], isUrl))
    && ("image_url" in f ==> GoodUrl(f["image_url"], isUrl))
    && ("image_name" in f ==> f["image_name"] == JNull || GoodText(f["image_name"], 255))
    && ("image_path" in f ==> f["image_path"] == JNull || GoodText(f["image_path"], 500))
  }

  /** The field-by-field reading of the schema body: no key outside the whitelist, and the
      text, link and image fields pass. */
  predicate FieldsGood(f: map<string, Json>, isUrl: string -> bool, partial: bool) {
    CoreGood(f, partial) && LinksGood(f, isUrl) && forall k :: k in f ==> Whitelisted(k)
  }

  /** Key by key acceptance gives the field-by-field reading of the text fields. */
  lemma CoreFromKeys(f: map<string, Json>, isUrl: string -> bool)
    requires forall k :: k in f ==> AcceptableField(k, f[k], isUrl)
    ensures CoreGood(f, true)
  {
    if "title" in f { assert AcceptableField("title", f["title"], isUrl); }
    if "description" in f { assert AcceptableField("description", f["description"], isUrl); }
    if "is_published" in f { assert AcceptableField("is_published", f["is_published"], isUrl); }
    if "sort_order" in f { assert AcceptableField("sort_order", f["sort_order"], isUrl); }
    if "tags" in f { assert AcceptableField("tags", f["tags"], isUrl); }
  }

  /** Key by key acceptance gives the field-by-field reading of the link and image fields. */
  lemma LinksFromKeys(f: map<string, Json>, isUrl: string -> bool)
    requires forall k :: k in f ==> AcceptableField(k, f[k], isUrl)
    ensures LinksGood(f, isUrl)
  {
    if "live_url" in f { assert AcceptableField("live_url", f["live_url"], isUrl); }
    if "repo_url" in f { assert AcceptableField("repo_url", f["repo_url"], isUrl); }
    if "image_url" in f { assert AcceptableField("image_url", f["image_url"], isUrl); }
    if "image_name" in f { assert AcceptableField("image_name", f["image_name"], isUrl); }
    if "image_path" in f { assert AcceptableField("image_path", f["image_path"], isUrl); }
  }

  /** Key by key acceptance gives the field-by-field reading. */
  lemma FieldsGoodFromKeys(f: map<string, Json>, isUrl: string -> bool)
    requires forall k :: k in f ==> AcceptableField(k, f[k], isUrl)
    ensures FieldsGood(f, isUrl, true)
  {
    forall k | k in f
      ensures Whitelisted(k)
    {
      assert AcceptableField(k, f[k], isUrl);
    }
    CoreFromKeys(f, isUrl);
    LinksFromKeys(f, isUrl);
  }

  /** A whitelisted key that the field-by-field reading lets through is acceptable. */
  lemma KeyFromFieldsGood(f: map<string, Json>, isUrl: string -> bool, partial: bool, k: string)
    requires CoreGood(f, partial) && LinksGood(f, isUrl) && k in f && Whitelisted(k)
    ensures AcceptableField(k, f[k], isUrl)
  {
    var v := f[k];
    if k == "title" {
      assert GoodText(v, 120);
    } else if k == "description" {
      assert GoodText(v, 2000);
    } else if k == "is_published" {
      assert v.JBool?;
    } else if k == "sort_order" {
      assert GoodSortOrder(v);
    } else if k == "tags" {
      assert GoodTags(v);
    } else if k == "live_url" || k == "repo_url" || k == "image_url" {
      assert GoodUrl(v, isUrl);
    } else if k == "image_name" {
      assert v == JNull || GoodText(v, 255);
    } else {
      assert k == "image_path";
      assert v == JNull || GoodText(v, 500);
    }
  }

  /** The field-by-field reading gives key by key acceptance. */
  lemma KeysFromFieldsGood(f: map<string, Json>, isUrl: string -> bool, partial: bool)
    requires FieldsGood(f, isUrl, partial)
    ensures forall k :: k in f ==> AcceptableField(k, f[k], isUrl)
  {
    forall k | k in f
      ensures AcceptableField(k, f[k], isUrl)
    {
      KeyFromFieldsGood(f, isUrl, partial, k);
    }
  }

  /** The field-by-field reading agrees with the key-by-key one of `AcceptableField`. */
  lemma FieldsGoodIff(f: map<string, Json>, isUrl: string -> bool, partial: bool)
    ensures FieldsGood(f, isUrl, partial)
        <==> (partial || ("title" in f && "description" in f))
             && forall k :: k in f ==> AcceptableField(k, f[k], isUrl)
  {
    if forall k :: k in f ==> AcceptableField(k, f[k], isUrl) {
      FieldsGoodFromKeys(f, isUrl);
    }
    if FieldsGood(f, isUrl, partial) {
      KeysFromFieldsGood(f, isUrl, partial);
    }
  }

  /** The text fields the schema outputs. */
  datatype CoreFields = CoreFields(
    title: Option<string>,
    description: Option<string>,
    isPublished: Option<bool>,
    sortOrder: Option<int>,
    tags: Option<seq<string>>)

  /** The link and image fields the schema outputs. */
  datatype LinkFields = LinkFields(
    liveUrl: Option<Nullable<string>>,
    repoUrl: Option<Nullable<string>>,
    imageUrl: Option<Nullable<string>>,
    imageName: Option<Nullable<string>>,
    imagePath: Option<Nullable<string>>)

  /** title, description, is_published, sort_order and tags of the schema body. */
  function ParseCore(f: map<string, Json>, partial: bool): (r: Parsed<CoreFields>)
    ensures r.Valid? <==> CoreGood(f, partial)
    ensures r.Valid? ==> r.value == CoreFields(
      if "title" in f then Some(Trim(f["title"].s)) else None,
      if "description" in f then Some(Trim(f["description"].s)) else None,
      if "is_published" in f then Some(f["is_published"].b) else None,
      if "sort_order" in f then Some(f["sort_order"].r.Floor) else None,
      if "tags" in f then Some(TrimAll(f["tags"].items)) else if partial then None else Some([]))
    ensures r.Invalid? ==> r.issues != {}
  {
    var title := if partial then OptionalText(f, "title", "Title", 120)
                 else var t := RequiredText(f, "title", "Title", 120);
                      if t.Valid? then Valid(Some(t.value)) else Invalid(t.issues);
    var description := if partial then OptionalText(f, "description", "Description", 2000)
                       else var t := RequiredText(f, "description", "Description", 2000);
                            if t.Valid? then Valid(Some(t.value)) else Invalid(t.issues);
    var isPublished := OptionalBool(f, "is_published");
    var sortOrder := OptionalSortOrder(f);
    var tags := Tags(f, !partial);
    if title.Valid? && description.Valid? && isPublished.Valid? && sortOrder.Valid? && tags.Valid? then
      Valid(CoreFields(title.value, description.value, isPublished.value, sortOrder.value, tags.value))
    else
      Invalid(IssuesOf(title) + IssuesOf(description) + IssuesOf(isPublished) + IssuesOf(sortOrder)
              + IssuesOf(tags))
  }

  /** live_url, repo_url, image_url, image_name and image_path of the schema body. */
  function ParseLinks(f: map<string, Json>, isUrl: string -> bool): (r: Parsed<LinkFields>)
    ensures r.Valid? <==> LinksGood(f, isUrl)
    ensures r.Valid? ==> r.value == LinkFields(
      OptionalUrl(f, "live_url", isUrl).value,
      OptionalUrl(f, "repo_url", isUrl).value,
      OptionalUrl(f, "image_url", isUrl).value,
      OptionalNullableText(f, "image_name", 255, "image_name cannot be empty", "image_name is too long").value,
      OptionalNullableText(f, "image_path", 500, "image_path cannot be empty", "image_path is too long").value)
    ensures r.Invalid? ==> r.issues != {}
  {
    var liveUrl := OptionalUrl(f, "live_url", isUrl);
    var repoUrl := OptionalUrl(f, "repo_url", isUrl);
    var imageUrl := OptionalUrl(f, "image_url", isUrl);
    var imageName := OptionalNullableText(f, "image_name", 255, "image_name cannot be empty", "image_name is too long");
    var imagePath := OptionalNullableText(f, "image_path", 500, "image_path cannot be empty", "image_path is too long");
    if liveUrl.Valid? && repoUrl.Valid? && imageUrl.Valid? && imageName.Valid? && imagePath.Valid? then
      Valid(LinkFields(liveUrl.value, repoUrl.value, imageUrl.value, imageName.value, imagePath.value))
    else
      Invalid(IssuesOf(liveUrl) + IssuesOf(repoUrl) + IssuesOf(imageUrl) + IssuesOf(imageName)
              + IssuesOf(imagePath))
  }

  /** The object body shared by both schemas; `partial` is `.partial()`. Every field's issues
      and the unknown keys are reported together. */
  function ParseFields(f: map<string, Json>, isUrl: string -> bool, partial: bool): (r: Parsed<ProjectInput>)
    ensures r.Valid? <==> FieldsGood(f, isUrl, partial)
    ensures r.Valid? ==> r.value == ProjectInput(
      if "title" in f then Some(Trim(f["title"].s)) else None,
      if "description" in f then Some(Trim(f["description"].s)) else None,
      if "is_published" in f then Some(f["is_published"].b) else None,
      if "sort_order" in f then Some(f["sort_order"].r.Floor) else None,
      if "tags" in f then Some(TrimAll(f["tags"].items)) else if partial then None else Some([]),
      OptionalUrl(f, "live_url", isUrl).value,
      OptionalUrl(f, "repo_url", isUrl).value,
      OptionalUrl(f, "image_url", isUrl).value,
      OptionalNullableText(f, "image_name", 255, "image_name cannot be empty", "image_name is too long").value,
      OptionalNullableText(f, "image_path", 500, "image_path cannot be empty", "image_path is too long").value)
    ensures r.Invalid? ==> r.issues != {}
  {
    var core := ParseCore(f, partial);
    var links := ParseLinks(f, isUrl);
    if core.Valid? && links.Valid? && StrictIssues(f) == {} then
      var c := core.value;
      var l := links.value;
      Valid(ProjectInput(c.title, c.description, c.isPublished, c.sortOrder, c.tags,
                         l.liveUrl, l.repoUrl, l.imageUrl, l.imageName, l.imagePath))
    else
      Invalid(IssuesOf(core) + IssuesOf(links) + StrictIssues(f))
  }

  /** `projectCreateSchema.safeParse(input)`. */
  function ParseCreate(input: Json, isUrl: string -> bool): (r: Parsed<ProjectInput>)
    ensures r.Valid? <==> AcceptableCreate(input, isUrl)
    ensures r.Invalid? ==> r.issues != {}
  {
    if !input.JObj? then Invalid({Issue([], InvalidType)})
    else
      FieldsGoodIff(input.fields, isUrl, false);
      ParseFields(input.fields, isUrl, false)
  }

  /** What the create schema outputs for title and description is their trimmed text, and
      for tags the trimmed tags, `[]` when the key is missing. */
  lemma CreateOutput(input: Json, isUrl: string -> bool)
    requires ParseCreate(input, isUrl).Valid?
    ensures input.JObj? && "title" in input.fields && input.fields["title"].JStr?
    ensures "description" in input.fields && input.fields["description"].JStr?
    ensures "tags" in input.fields ==> GoodTags(input.fields["tags"])
    ensures ParseCreate(input, isUrl).value.title == Some(Trim(input.fields["title"].s))
    ensures ParseCreate(input, isUrl).value.description == Some(Trim(input.fields["description"].s))
    ensures ParseCreate(input, isUrl).value.tags
            == if "tags" in input.fields then Some(TrimAll(input.fields["tags"].items)) else Some([])
  {
    FieldsGoodIff(input.fields, isUrl, false);
  }

  /** No key of the object is one the schema's shape knows, so the parsed object is `{}`
      (`.strict()` reports the others but leaves them out of the output). */
  predicate NoShapeKey(f: map<string, Json>) {
    forall k :: k in f ==> !Whitelisted(k)
  }

  /** The issue of the update schema's `.refine`. */
  const AtLeastOneField := Issue([], Custom("At least one field must be provided"))

  /** `projectUpdateSchema.safeParse(input)` under zod 3: every field optional, no unknown
      key, and the refinement that the parsed object has at least one key. zod 3 runs the
      refinement on the parsed object unless the parse was aborted by a type error; a type
      error needs a known key, and then the parsed object is not empty, so the refinement
      fails exactly when the body has no known key, unknown keys or not. */
  function ParseUpdate(input: Json, isUrl: string -> bool): (r: Parsed<ProjectInput>)
    ensures r.Valid? <==> AcceptableUpdate(input, isUrl)
    ensures input.JObj? && NoShapeKey(input.fields) ==> r.Invalid? && AtLeastOneField in r.issues
    ensures input.JObj? && !NoShapeKey(input.fields) ==> r == ParseFields(input.fields, isUrl, true)
    ensures input == JObj(map[]) ==> r == Invalid({AtLeastOneField})
    ensures r.Invalid? ==> r.issues != {}
  {
    if !input.JObj? then Invalid({Issue([], InvalidType)})
    else
      FieldsGoodIff(input.fields, isUrl, true);
      var fields := ParseFields(input.fields, isUrl, true);
      if NoShapeKey(input.fields) then
        assert input.fields != map[] ==> exists k :: k in input.fields && !Whitelisted(k);
        Invalid(IssuesOf(fields) + {AtLeastOneField})
      else
        fields
  }

  /** A body with only unknown keys gets both the `.strict()` issue and the refinement's. */
  lemma UnknownKeysOnly(f: map<string, Json>, isUrl: string -> bool)
    requires f != map[] && NoShapeKey(f)
    ensures ParseUpdate(JObj(f), isUrl) == Invalid(StrictIssues(f) + {AtLeastOneField})
  {
    var core := ParseCore(f, true);
    var links := ParseLinks(f, isUrl);
    assert CoreGood(f, true);
    assert LinksGood(f, isUrl);
    assert IssuesOf(ParseFields(f, isUrl, true)) == IssuesOf(core) + IssuesOf(links) + StrictIssues(f);
  }

  // ---------------------------------------------------------------------------------------
  // projectIdSchema
  // ---------------------------------------------------------------------------------------

  /** `/^\d+$/`: one or more ASCII digits and nothing else. */
  predicate AllDigits(s: string) {
    |s| > 0 && forall i :: 0 <= i < |s| ==> '0' <= s[i] <= '9'
  }

  /** `Number(s)` for a digit string, read exactly. */
  function DigitsValue(s: string): (n: nat)
    requires forall i :: 0 <= i < |s| ==> '0' <= s[i] <= '9'
  {
    if s == [] then 0 else 10 * DigitsValue(s[..|s| - 1]) + (s[|s| - 1] as int - '0' as int)
  }

  /** The value is zero exactly when every digit is '0'. */
  lemma {:induction false} DigitsValueZero(s: string)
    requires forall i :: 0 <= i < |s| ==> '0' <= s[i] <= '9'
    ensures DigitsValue(s) == 0 <==> forall i :: 0 <= i < |s| ==> s[i] == '0'
  {
    if s != [] {
      DigitsValueZero(s[..|s| - 1]);
      assert forall i :: 0 <= i < |s| - 1 ==> s[..|s| - 1][i] == s[i];
    }
  }

  /** `projectIdSchema.safeParse(input).data.id` as written: a positive integer number, or a
      digit string converted with `Number` (so "0" and "000" give 0). */
  function ParseProjectId(input: Json): (r: Parsed<int>)
    ensures r.Valid? <==> (input.JObj? && "id" in input.fields
      && ((input.fields["id"].JNum? && IsInteger(input.fields["id"].r) && input.fields["id"].r > 0.0)
          || (input.fields["id"].JStr? && AllDigits(input.fields["id"].s))))
    ensures r.Valid? && input.fields["id"].JNum? ==> r.value as real == input.fields["id"].r && r.value > 0
    ensures r.Valid? && input.fields["id"].JStr? ==> r.value == DigitsValue(input.fields["id"].s) && r.value >= 0
  {
    if !input.JObj? then Invalid({Issue([], InvalidType)})
    else if "id" !in input.fields then Invalid({Issue([Key("id")], InvalidUnion)})
    else
      var id := input.fields["id"];
      if id.JNum? && IsInteger(id.r) && id.r > 0.0 then Valid(id.r.Floor)
      else if id.JStr? && AllDigits(id.s) then Valid(DigitsValue(id.s))
      else Invalid({Issue([Key("id")], InvalidUnion)})
  }

  /** As written, the string branch lets "0" through and yields the id 0, although its message
      says "positive integer string". */
  lemma ZeroIdStringAccepted()
    ensures ParseProjectId(JObj(map["id" := JStr("0")])) == Valid(0)
  {
    assert AllDigits("0");
    assert DigitsValue("0") == 10 * DigitsValue("") + 0;
  }

  /** The id schema as its messages intend: a digit string must also denote a positive number. */
  function ParsePositiveProjectId(input: Json): (r: Parsed<int>)
    ensures r.Valid? ==> r.value > 0
    ensures r.Valid? <==> ParseProjectId(input).Valid? && ParseProjectId(input).value > 0
    ensures r.Valid? ==> r == ParseProjectId(input)
  {
    var id := ParseProjectId(input);
    if id.Valid? && id.value == 0 then Invalid({Issue([Key("id")], InvalidUnion)}) else id
  }

  /** The intended schema rejects exactly the all-zero digit strings the written one accepts. */
  lemma PositiveIdRejectsZeroStrings(s: string)
    requires AllDigits(s)
    ensures ParsePositiveProjectId(JObj(map["id" := JStr(s)])).Valid? <==> exists i :: 0 <= i < |s| && s[i] != '0'
  {
    DigitsValueZero(s);
  }
}
