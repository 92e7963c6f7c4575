/** The page-side session check (src/app/admin/_utils.ts): resolve the user of the cookie
    store's client, or produce a 401. */
module AdminUtils {
  import opened Js
  import opened Http
  import opened Supabase
  import AdminApiUtils

  /** The server client built over the request's cookie store; it is only passed through. */
  datatype ServerClient = ServerClient(handle: nat)

  /** `{ supabase, user, error }`; `error` is the 401 response, or null. */
  datatype SupabaseAndUser = SupabaseAndUser(supabase: ServerClient, user: Option<User>, error: Option<Kind>)

  /** `getSupabaseAndUser()`: the client comes back on both branches; a `getUser` error or a
      missing user gives no user and a 401 `{"error":"unauthorized"}`, success gives the user
      and no error. */
  function GetSupabaseAndUser(client: ServerClient, u: GetUserResult): (r: SupabaseAndUser)
    ensures r.supabase == client
    ensures r.error.None? <==> Authenticated(u)
    ensures r.error.Some? ==> r.user.None? && r.error.value == ErrorReply(401, "unauthorized")
    ensures r.error.None? ==> r.user == u.user
  {
    if u.error.Some? || u.user.None? then SupabaseAndUser(client, None, Some(ErrorReply(401, "unauthorized")))
    else SupabaseAndUser(client, u.user, None)
  }

  /** The page-side check and the API gate agree on who is unauthenticated, and give the same
      401 response to them. */
  lemma AgreesWithApiGate(client: ServerClient, u: GetUserResult, p: ProfileResult)
    ensures GetSupabaseAndUser(client, u).error.Some? <==> AdminApiUtils.Decide(u, p).Unauthorized?
    ensures GetSupabaseAndUser(client, u).error.Some? ==>
      GetSupabaseAndUser(client, u).error.value == AdminApiUtils.DenialKind(AdminApiUtils.Decide(u, p))
  {
  }
}
