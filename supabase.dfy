/** The hosted backend as the handlers use it. Its answers are oracle inputs (a user or an
    error, a profile row or an error, an upload result); what the model keeps is which
    calls are made, in which order and with which arguments, recorded in a `Backend` log. */
module Supabase {
  import opened Js
  import opened Cookies
  import opened Http

  datatype User = User(id: string, email: Option<string>)

  datatype ApiError = ApiError(message: string)

  /** `auth.getUser()`: `{ data: { user }, error }`. */
  datatype GetUserResult = GetUserResult(user: Option<User>, error: Option<ApiError>)

  /** `!(error || !user)`: the session resolved to a user and no error was reported. */
  predicate Authenticated(u: GetUserResult) {
    u.error.None? && u.user.Some?
  }

  /** `auth.exchangeCodeForSession(code)`: `{ error }`. */
  datatype ExchangeResult = ExchangeResult(error: Option<ApiError>)

  /** An auth call: the batches the library hands to the cookie adapter's `setAll`
      while it runs (session refresh), in call order, then what it resolves to. */
  datatype AuthCall<T> = AuthCall(setAllCalls: seq<seq<CookieMutation>>, result: T)

  /** A row of `profiles`, reduced to `is_admin` (`None` is SQL null). */
  datatype Profile = Profile(isAdmin: Option<bool>)

  /** `.maybeSingle()` on the profile lookup: the row if there is one, or an error. */
  datatype ProfileResult = ProfileResult(data: Option<Profile>, error: Option<ApiError>)

  /** `select("*")` on `projects`: the rows, or an error. */
  datatype QueryResult = QueryResult(data: Option<seq<Json>>, error: Option<ApiError>)

  /** `insert`, `update`, `delete` and storage `remove`: only the error matters. */
  datatype WriteResult = WriteResult(error: Option<ApiError>)

  /** Storage `upload`: `{ data: { path }, error }`. */
  datatype UploadData = UploadData(path: Option<string>)
  datatype UploadResult = UploadResult(data: Option<UploadData>, error: Option<ApiError>)

  datatype OrderBy = OrderBy(column: string, ascending: bool)

  /** Every backend call the core issues. */
  datatype Op =
    | GetUser
    | SelectIsAdmin(userId: string)
    | SelectProjects(orderBy: seq<OrderBy>)
    | UpdateProject(whereId: Json, values: Json)
    | InsertProject(values: Json)
    | DeleteProject(projectId: string)
    | Upload(bucket: string, path: string, cacheControl: string, upsert: bool, contentType: string)
    | Remove(bucket: string, paths: seq<Json>)
    | ExchangeCode(code: string)

  /** The backend as seen from one request: the calls made so far. */
  class Backend {
    var log: seq<Op>

    constructor ()
      ensures log == []
    {
      log := [];
    }

    method Call(op: Op)
      modifies this
      ensures log == old(log) + [op]
    {
      log := log + [op];
    }
  }

  /** An auth call whose cookie adapter writes straight onto `res`: each `setAll` batch the
      library issues is set on the response with `forEach`, batch after batch. */
  method RelaySetAll(res: Response, batches: seq<seq<CookieMutation>>)
    modifies res
    ensures res.cookies == SetInOrder(old(res.cookies), Flatten(batches))
  {
    for i := 0 to |batches|
      invariant res.cookies == SetInOrder(old(res.cookies), Flatten(batches[..i]))
    {
      assert batches[..i + 1][..i] == batches[..i];
      SetInOrderAppend(old(res.cookies), Flatten(batches[..i]), batches[i]);
      res.SetEach(batches[i]);
    }
    assert batches[..|batches|] == batches;
  }
}
