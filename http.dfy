/** Requests and responses as the route handlers and the middleware see them. */
module Http {
  import opened Js
  import opened Cookies

  datatype QueryParam = QueryParam(name: string, value: string)

  /** A parsed URL: origin, path and query string (the fragment plays no part here). */
  datatype Url = Url(origin: string, pathname: string, query: seq<QueryParam>)

  /** `url.searchParams.get(name)`: the first value given for `name`, or null. */
  function QueryGet(query: seq<QueryParam>, name: string): (r: Option<string>)
    ensures r.None? <==> forall i :: 0 <= i < |query| ==> query[i].name != name
    ensures r.Some? ==> exists i :: (0 <= i < |query| && query[i] == QueryParam(name, r.value)
      && forall j :: 0 <= j < i ==> query[j].name != name)
  {
    if query == [] then None
    else if query[0].name == name then Some(query[0].value)
    else
      var r := QueryGet(query[1..], name);
      assert forall j :: 1 <= j < |query| ==> query[j] == query[1..][j - 1];
      r
  }

  /** A `truthy` optional string: present and not empty. */
  predicate Present(s: Option<string>) {
    s.Some? && s.value != ""
  }

  /** A cookie as the incoming request carries it. */
  datatype RequestCookie = RequestCookie(name: string, value: string)

  datatype Request = Request(url: Url, cookies: seq<RequestCookie>)

  /** What a response is, apart from its cookies:
      `NextResponse.json(body, { status })`, `NextResponse.redirect(url)` or `NextResponse.next()`. */
  datatype Kind =
    | JsonReply(status: int, body: Json)
    | Redirect(location: Url)
    | Next

  /** The HTTP status each kind of response is sent with. */
  function StatusOf(k: Kind): int {
    match k
    case JsonReply(status, _) => status
    case Redirect(_) => 307
    case Next => 200
  }

  /** `{ error: message }`. */
  function ErrorBody(message: string): Json {
    JObj(map["error" := JStr(message)])
  }

  /** `NextResponse.json({ error: message }, { status })`. */
  function ErrorReply(status: int, message: string): Kind {
    JsonReply(status, ErrorBody(message))
  }

  /** `NextResponse.json({ ok: true })`. */
  function OkReply(): Kind {
    JsonReply(200, JObj(map["ok" := JBool(true)]))
  }

  /** A response object; its kind is fixed when it is built, its cookie jar is written in place. */
  class Response {
    const kind: Kind
    var cookies: Jar

    constructor (kind: Kind)
      ensures this.kind == kind && cookies == map[]
    {
      this.kind := kind;
      cookies := map[];
    }

    /** `this.cookies.set(m.name, m.value, m.options)`. */
    method Set(m: CookieMutation)
      modifies this
      ensures cookies == SetOne(old(cookies), m)
    {
      cookies := cookies[m.name := EntryOf(m)];
    }

    /** `ms.forEach(({ name, value, options }) => this.cookies.set(name, value, options))`. */
    method SetEach(ms: seq<CookieMutation>)
      modifies this
      ensures cookies == SetInOrder(old(cookies), ms)
    {
      for i := 0 to |ms|
        invariant cookies == SetInOrder(old(cookies), ms[..i])
      {
        assert ms[..i + 1][..i] == ms[..i];
        Set(ms[i]);
      }
      assert ms[..|ms|] == ms;
    }
  }

  /** How a route handler ends: with a response, or by throwing (the framework then
      answers with its own error page, without any queued cookie). */
  datatype Outcome = Responds(response: Response) | Throws
}
