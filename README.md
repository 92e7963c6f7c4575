# Admin projects back office — a Dafny model

This project models the logic of a small Next.js admin app backed by Supabase:

- **The admin API gate.** A per-request route client buffers the auth library's cookie writes. `requireAdmin` is a fail-closed decision: it authenticates first, then looks up the profile's `is_admin` flag. `applyCookies` replays the buffer onto a response.
- **The API routes.** `/api/admin/projects` lists, inserts or updates, and deletes rows. `/api/admin/project-image` uploads and removes stored images.
- **The middleware** that guards `/admin`.
- **The OAuth callback.**
- **The page-side session check.**
- **The zod project schemas.**
- **The admin projects page.** Its form ↔ payload conversions, and its component state with the handlers that change it.
- **The breadcrumb trail.**

Backend calls (auth, table queries, storage) are oracle inputs.
- Each handler gets their answers as parameters.
- It records the calls it makes in a `Backend` log.
- An auth call also carries the cookie batches the library passes to the cookie adapter's `setAll` while it runs.

Responses are objects:
- their kind (a JSON reply with status and body, a redirect, or pass-through) is fixed when they are built;
- their cookie jar is written in place.

Each route handler is a method proved against a pure `*Exit` function. That function gives the response kind, whether the gate's cookies were relayed, and the backend calls made. Every `*Exit` satisfies `KeepsGate`:
- a denied request gets the gate's own 401/403 and no further backend call;
- an admitted request's every response goes through `applyCookies`.

Cookie writes follow the framework's store: one entry per name, and a later `set` wins.

The zod schemas are parsers. Each returns the normalised record or a non-empty set of issues. Each is proved equivalent to a field-by-field acceptance predicate (`AcceptableCreate`, `AcceptableUpdate`).

The page is a class:
- its fields are the component's state;
- its methods are `load`, `reset`, `edit`, the file-input handler, `saveFile`, `deleteImage`, `save` and `del`;
- each request a handler sends is appended to `sent`, and the replies are parameters.

## Model

| member | source | states |
|---|---|---|
| `AdminApiUtils.RouteClient.constructor` | src/app/api/admin/_utils.ts:12-17 | a new route client reads the given request and starts with an empty `cookiesToSet` buffer |
| `AdminApiUtils.RouteClient.GetAll` | src/app/api/admin/_utils.ts:24-28 | the adapter's `getAll` yields exactly the request's cookies as name/value pairs, same length, same order |
| `AdminApiUtils.RouteClient.SetAll` | src/app/api/admin/_utils.ts:29-37 | `setAll` only appends the batch to the end of the buffer; nothing else is written |
| `AdminApiUtils.GetUserVia` | src/app/api/admin/_utils.ts:48-51 | `getUser` is logged once, returns the oracle's result, and leaves the buffer extended by every `setAll` batch of the call, in call order |
| `AdminApiUtils.Decide` | src/app/api/admin/_utils.ts:53-71 | unauthorized iff the user lookup errs or yields no user; forbidden iff authenticated but the profile lookup errs, finds no row or `is_admin` is not true; admin iff both succeed, with that user |
| `AdminApiUtils.DenialKind` | src/app/api/admin/_utils.ts:53-70 | a denial is 401 `{"error":"unauthorized"}` or 403 `{"error":"forbidden"}` |
| `AdminApiUtils.GateOps` | src/app/api/admin/_utils.ts:48-64 | the gate always calls `getUser`; it makes the `is_admin` lookup keyed by the user's id exactly when the user is authenticated, and never otherwise |
| `AdminApiUtils.RequireAdmin` | src/app/api/admin/_utils.ts:45-74 | denied iff the decision is not admin; a denial is a fresh response of the denial kind with an empty cookie jar (the buffered writes are dropped); success hands back a fresh client on the request whose buffer holds all refresh writes, and the user |
| `AdminApiUtils.ApplyCookies` | src/app/api/admin/_utils.ts:76-84 | returns the same response object, whose jar is the old jar with the buffered writes applied in list order |
| `AdminUtils.GetSupabaseAndUser` | src/app/admin/_utils.ts:4-20 | the client is returned on both branches; error is null iff authenticated; otherwise the user is null and the error is a 401 `{"error":"unauthorized"}`; on success the user is the resolved one |
| `AdminUtils.AgreesWithApiGate` | src/app/admin/_utils.ts:11-17 | the page-side check fails exactly for the users the API gate calls unauthorized, and with the same 401 |
| `Cookies.SetOne` | src/app/api/admin/_utils.ts:81 | `cookies.set` adds or replaces the entry for that name and leaves every other name as it was |
| `Cookies.LastWriteWins` | src/app/api/admin/_utils.ts:80-82 | after a list of writes, a name holds its last write in the list, or what it held before if the list never names it |
| `Cookies.SetInOrderAppend` | src/middleware.ts:21-26 | applying batch `a` then batch `b` is applying `a + b` |
| `Cookies.SetInOrderIdempotent` | src/app/api/admin/_utils.ts:80-82 | replaying the same writes a second time leaves the jar unchanged |
| `Http.QueryGet` | src/app/api/admin/projects/route.ts:63-65 | `searchParams.get` is null iff no parameter has the name; otherwise it is the value of the first one that does |
| `Http.Response.Set` | src/app/api/admin/_utils.ts:81 | one `set` on the response's jar, as `Cookies.SetOne` |
| `Http.Response.SetEach` | src/app/api/admin/_utils.ts:80-82 | the `forEach` leaves the jar with all writes applied in order (proved by loop invariant) |
| `Supabase.RelaySetAll` | src/middleware.ts:21-26 | an adapter that writes straight onto a response ends with every batch applied to that response, batch after batch, in order |
| `ProjectsRoute.GetExit` | src/app/api/admin/projects/route.ts:6-25 | keeps the gate; when admitted, one select ordered by `sort_order` ascending then `created_at` descending; status 200 iff the query has no error, with `{ projects: data ?? [] }`; otherwise 400 with the query's error message |
| `ProjectsRoute.Get` | src/app/api/admin/projects/route.ts:6-25 | the handler returns a fresh response of `GetExit`'s kind, with the gate's writes iff relayed, and logs exactly `GetExit`'s calls |
| `ProjectsRoute.WriteOp` | src/app/api/admin/projects/route.ts:38-43 | an update keyed by `body.id` exactly when that id is truthy, otherwise an insert; the written object is `body.payload ?? {}` |
| `ProjectsRoute.BodyId` | src/app/api/admin/projects/route.ts:38 | `body.id ?? null`: the body's `id` when present and not null, else null |
| `ProjectsRoute.BodyPayload` | src/app/api/admin/projects/route.ts:39 | `body.payload ?? {}`: the body's `payload` when present and not null, else the empty object |
| `ProjectsRoute.PostExit` | src/app/api/admin/projects/route.ts:27-55 | keeps the gate; once admitted it throws iff the body is not JSON or is `null`; otherwise exactly one write, then 400 with its error message or `{ ok: true }` |
| `ProjectsRoute.Post` | src/app/api/admin/projects/route.ts:27-55 | the handler throws iff `PostExit` crashes, else returns a fresh response of its kind with the relayed cookies, and logs its calls |
| `ProjectsRoute.DeleteExit` | src/app/api/admin/projects/route.ts:57-85 | keeps the gate; no truthy `id` gives 400 "missing id" and no call; with an id, the row delete by that id always follows the gate's calls; its failure gives 400 with its error message, success `{ ok: true }`; a storage removal happens iff the row delete succeeded and `image_path` is truthy, right after the delete, and removes exactly that path |
| `ProjectsRoute.Delete` | src/app/api/admin/projects/route.ts:57-85 | the handler returns a fresh response of `DeleteExit`'s kind with the relayed cookies, and logs its calls |
| `ProjectImageRoute.Extension` | src/app/api/admin/project-image/route.ts:20 | the extension is never empty and has no dot; a dot-free name is its own extension, or "bin" when empty |
| `ProjectImageRoute.ExtensionAfterLastDot` | src/app/api/admin/project-image/route.ts:20 | the extension is exactly the text after the last dot, or "bin" when nothing follows it |
| `ProjectImageRoute.ObjectPath` | src/app/api/admin/project-image/route.ts:21 | the path is `<uuid>.<ext>`: it starts with the uuid followed by a dot |
| `ProjectImageRoute.ObjectPathKeepsExtension` | src/app/api/admin/project-image/route.ts:20-21 | the extension derived from the stored path is the extension of the uploaded name |
| `ProjectImageRoute.UploadOp` | src/app/api/admin/project-image/route.ts:24-30 | one upload to "project-images" at `ObjectPath`, cache control "3600", no upsert, content type the file's type or "application/octet-stream" when it is empty |
| `ProjectImageRoute.UploadExit` | src/app/api/admin/project-image/route.ts:6-42 | keeps the gate; throws iff the body is no form; anything but a file gives 400 "missing file" and no upload; otherwise one upload, then `{ path }` when storage reports a path, else 400 with the error message or "upload failed" |
| `ProjectImageRoute.Post` | src/app/api/admin/project-image/route.ts:6-42 | the handler throws iff `UploadExit` crashes, else returns a fresh response of its kind with the relayed cookies, and logs its calls |
| `ProjectImageRoute.RemoveExit` | src/app/api/admin/project-image/route.ts:44-67 | keeps the gate; throws iff the body is not JSON; a missing or falsy `path` gives 400 "missing path" and no removal; otherwise one removal of that path, then 400 with its error or `{ ok: true }` |
| `ProjectImageRoute.Delete` | src/app/api/admin/project-image/route.ts:44-67 | the handler throws iff `RemoveExit` crashes, else returns a fresh response of its kind with the relayed cookies, and logs its calls |
| `Middleware.Matches` | src/middleware.ts:51-53 | the matcher `/admin/:path*` admits `/admin` itself and every path under `/admin/` (definition; its consequences are `MatchedPathsRedirectIffAnonymous` and `PrefixTestWiderThanMatcher`) |
| `Middleware.SendsToLogin` | src/middleware.ts:35 | the redirect condition: the path starts with `/admin` and there is no user (definition, used by `Middleware`'s contract) |
| `Middleware.LoginUrl` | src/middleware.ts:36-37 | the login URL is the request URL with only the path replaced by `/login` |
| `Middleware.MatchedPathsRedirectIffAnonymous` | src/middleware.ts:35-53 | on every path the matcher admits, the prefix test holds, so the visitor is sent to login exactly when there is no user |
| `Middleware.PrefixTestWiderThanMatcher` | src/middleware.ts:51-53 | `/administrator` passes the `startsWith("/admin")` test but is not matched |
| `Middleware.Middleware` | src/middleware.ts:4-49 | `getUser` is always called; a throw gives null; with no user under `/admin`, a fresh redirect to `LoginUrl` with an empty jar; otherwise the pass-through response with every refreshed cookie set on it in order |
| `Middleware.Route` | src/middleware.ts:51-53 | a path outside the matcher bypasses the middleware with no backend call; a matched one makes exactly one `getUser` and redirects iff there is no user |
| `AuthCallback.Target` | src/app/auth/callback/route.ts:25-33 | the redirect stays on the request's origin; it goes to `/login?error=oauth` iff a code was given and its exchange failed, to `/admin` with no query otherwise |
| `AuthCallback.Get` | src/app/auth/callback/route.ts:4-34 | at most one exchange, none without a truthy code; the response redirects to `Target`; it carries the exchange's cookies iff a code was exchanged successfully, and the error redirect carries none |
| `ProjectValidation.CreateImpliesUpdate` | src/lib/validation/projects.ts:96-106 | every body the create schema accepts is accepted by the update schema |
| `ProjectValidation.ParseText` | src/lib/validation/projects.ts:24-29 | a string field is valid iff it is a string whose trimmed UTF-16 length is 1..max; the output is the trimmed string; issues sit at the field's path |
| `ProjectValidation.RequiredText` | src/lib/validation/projects.ts:48-49 | a required text key is valid iff present and acceptable; output is its trimmed text |
| `ProjectValidation.OptionalText` | src/lib/validation/projects.ts:102-103 | under `.partial()` a text key is valid iff absent or acceptable; output is absent or the trimmed text |
| `ProjectValidation.OptionalBool` | src/lib/validation/projects.ts:52 | `is_published` is valid iff absent or a boolean, which is output |
| `ProjectValidation.OptionalSortOrder` | src/lib/validation/projects.ts:53 | `sort_order` is valid iff absent or an integer in 0..100000; the output equals the input number |
| `ProjectValidation.TagIssuesEmpty` | src/lib/validation/projects.ts:33-38 | the element checks of a tag array raise no issue iff every element is a string of trimmed length 1..40 |
| `ProjectValidation.TrimAll` | src/lib/validation/projects.ts:33-35 | the output tags are the input strings, each trimmed, same order |
| `ProjectValidation.Tags` | src/lib/validation/projects.ts:31-40 | `tags` is valid iff absent or an array of at most 25 acceptable strings; output is the trimmed tags, and `[]` for a missing key unless the schema is partial |
| `ProjectValidation.OptionalUrl` | src/lib/validation/projects.ts:17-22 | a URL key is valid iff absent, null, or a string whose trimmed text satisfies the URL predicate; output is absent, null or the trimmed URL |
| `ProjectValidation.OptionalNullableText` | src/lib/validation/projects.ts:70-88 | `image_name`/`image_path` are valid iff absent, null or an acceptable text of the given bound; output absent, null or trimmed |
| `ProjectValidation.StrictIssues` | src/lib/validation/projects.ts:90 | `.strict()` reports nothing iff every key is whitelisted |
| `ProjectValidation.FieldsGoodFromKeys` | src/lib/validation/projects.ts:46-90 | key-by-key acceptance implies the field-by-field reading of the schema |
| `ProjectValidation.KeysFromFieldsGood` | src/lib/validation/projects.ts:46-90 | the field-by-field reading implies key-by-key acceptance |
| `ProjectValidation.FieldsGoodIff` | src/lib/validation/projects.ts:46-90 | the field-by-field reading holds iff the required keys are present (unless partial) and every key is acceptable |
| `ProjectValidation.ParseCore` | src/lib/validation/projects.ts:46-56 | title, description, flag, order and tags parse iff each passes its schema (and the required keys are there), giving their normalised values |
| `ProjectValidation.ParseLinks` | src/lib/validation/projects.ts:58-88 | the URL and image fields parse iff each passes its schema, giving their normalised values |
| `ProjectValidation.ParseFields` | src/lib/validation/projects.ts:46-90 | the object schema accepts iff the field-by-field reading holds, and then outputs every field normalised; a rejection has at least one issue |
| `ProjectValidation.ParseCreate` | src/lib/validation/projects.ts:96 | the create schema succeeds iff `AcceptableCreate`; a failure reports at least one issue |
| `ProjectValidation.CreateOutput` | src/lib/validation/projects.ts:46-56 | an accepted create body yields its trimmed title and description, and its trimmed tags or `[]` |
| `ProjectValidation.ParseUpdate` | src/lib/validation/projects.ts:102-106 | the update schema succeeds iff `AcceptableUpdate`: all fields optional, no unknown key, at least one key; the refinement's issue is reported iff the body has no known key (`{}` gives exactly that issue); with a known key the result is the object schema's |
| `ProjectValidation.UnknownKeysOnly` | src/lib/validation/projects.ts:90-106 | a body with only unknown keys is rejected with both the `.strict()` issue and the refinement's issue |
| `ProjectValidation.DigitsValueZero` | src/lib/validation/projects.ts:120-121 | a digit string converts to 0 iff all its digits are '0' |
| `ProjectValidation.ParseProjectId` | src/lib/validation/projects.ts:115-123 | `id` is valid iff it is a positive integer number or an all-digit string; the number is kept, the string is converted to its value |
| `ProjectValidation.ZeroIdStringAccepted` | src/lib/validation/projects.ts:118-121 | as written, `{ "id": "0" }` parses to the id 0 |
| `ProjectValidation.ParsePositiveProjectId` | src/lib/validation/projects.ts:115-123 | the intended id schema only yields positive ids, accepting exactly what the written one accepts with a positive value |
| `ProjectValidation.PositiveIdRejectsZeroStrings` | src/lib/validation/projects.ts:118-121 | the intended schema accepts a digit string iff it has a non-zero digit |
| `Breadcrumbs.Crumbs` | src/components/Breadcrumbs.tsx:19-43 | one crumb per item in order with its caption; a separator iff not first; a link iff the href is truthy and the item is not last, pointing at that href; current page iff last |
| `Breadcrumbs.Render` | src/components/Breadcrumbs.tsx:13-19 | nothing is rendered iff the items are missing or empty; otherwise one crumb per item, the last being the current page |
| `Breadcrumbs.OneCurrentPage` | src/components/Breadcrumbs.tsx:20-39 | a rendered trail has exactly one crumb marked as the current page |
| `Breadcrumbs.SeparatorsBetween` | src/components/Breadcrumbs.tsx:27 | a trail of n crumbs has exactly n - 1 separators |
| `Js.Prop` | src/app/api/admin/projects/route.ts:38-39 | a property read is defined iff the value is an object with that key, and yields its value |
| `Js.Coalesce` | src/app/api/admin/projects/route.ts:38-39 | `a ?? b` is `a` unless it is undefined or null, then `b` |
| `Js.Trim` | src/lib/validation/projects.ts:27 | `trim` drops only white space from both ends and leaves neither end white |
| `Js.TrimIdempotent` | src/app/admin/projects/page.tsx:51 | trimming twice is trimming once |
| `Js.Utf16Length` | src/lib/validation/projects.ts:28-29 | a string's `length` lies between its character count and twice that, and is 0 only for the empty string |
| `Js.Split` | src/app/admin/projects/page.tsx:50 | `split` yields at least one piece, none containing the separator, that join back into the string |
| `Js.SplitJoin` | src/app/admin/projects/page.tsx:50 | splitting undoes joining separator-free pieces |
| `Js.SplitLast` | src/app/api/admin/project-image/route.ts:20 | the last piece of a split is the text after the last separator |
| `ProjectsPage.KeptTags` | src/app/admin/projects/page.tsx:51-52 | each piece trimmed, empty results dropped, order kept (definition; `KeptTagsClean` and `KeptTagsTrimmed` state its properties) |
| `ProjectsPage.TagsArray` | src/app/admin/projects/page.tsx:48-53 | `tagsArray`: the tags text split on commas, then `KeptTags` (definition; `TagsArrayClean` and `TagsRoundTrip` state its properties) |
| `ProjectsPage.KeptTagsClean` | src/app/admin/projects/page.tsx:48-53 | trimming comma-free pieces and dropping empties yields only clean tags: non-empty, trimmed, comma-free |
| `ProjectsPage.TagsArrayClean` | src/app/admin/projects/page.tsx:48-53 | every tag `tagsArray` yields is clean |
| `ProjectsPage.KeptTagsTrimmed` | src/app/admin/projects/page.tsx:51-52 | pieces trimming to given non-empty tags keep exactly those tags, in order |
| `ProjectsPage.TagsRoundTrip` | src/app/admin/projects/page.tsx:48-53 | joining clean tags with ", " (as `edit` does) and parsing the text back gives the same tags |
| `ProjectsPage.JoinPieces` | src/app/admin/projects/page.tsx:174 | the ", "-joined text is the ","-join of the first tag and the space-prefixed others |
| `ProjectsPage.OrNull` | src/app/admin/projects/page.tsx:96-98 | `s.trim() \|\| null` is null iff the trimmed text is empty, else the trimmed text |
| `ProjectsPage.NumberOrZero` | src/app/admin/projects/page.tsx:101 | `Number(x) \|\| 0` keeps a number and turns NaN into 0 |
| `ProjectsPage.BuildPayload` | src/app/admin/projects/page.tsx:93-104 | the payload: trimmed title and description, `tagsArray`, the URLs as `OrNull`, the flag, `NumberOrZero` of the order, the chosen file's name or null, and the path `ChosenPath` picks (definition; `PayloadFromForm` states its properties) |
| `ProjectsPage.PayloadFromForm` | src/app/admin/projects/page.tsx:93-109 | the payload fails the required check iff the form's trimmed title or description is empty; its tags are all clean; it names an image iff a file was chosen |
| `ProjectsPage.FlatSaveBody` | src/app/admin/projects/page.tsx:114 | the body as written, `{ id: editingId, ...payload }`: an object with no `payload` key, having `id` iff a row is being edited, with that row's id |
| `ProjectsPage.FlatBodyWritesEmptyObject` | src/app/admin/projects/page.tsx:114 | as written, the flat POST body makes the handler update the edited row with, or insert, an empty object whatever the form holds |
| `ProjectsPage.SaveBodyWritesPayload` | src/app/admin/projects/page.tsx:114 | with the wrapped `{ id, payload }` body the handler writes exactly the form's payload, as an update iff editing |
| `ProjectsPage.ImageDeleteBodyPath` | src/app/admin/projects/page.tsx:133-138 | the image-delete handler reads back exactly the path the page sends |
| `ProjectsPage.DeletesOldImageAsWritten` | src/app/admin/projects/page.tsx:123 | the deletion test as written: a file with a non-empty type was chosen and the payload's path differs from the stored one (definition; see Findings) |
| `ProjectsPage.FailedUploadDeletesOldImage` | src/app/admin/projects/page.tsx:123-125 | as written, a failed upload of a typed file still triggers deletion of the stored image, while the payload carries no new path |
| `ProjectsPage.ReplacementIsSaved` | src/app/admin/projects/page.tsx:123-125 | the intended deletion test implies the written one; then there is a stored image to delete and the saved payload points at the new, different path |
| `ProjectsPage.NoStoredImageDeletesEmptyPath` | src/app/admin/projects/page.tsx:123-125 | as written, a typed file replacing no stored image still sends an image delete, for the empty path; the intended test sends none |
| `ProjectsPage.FormOf` | src/app/admin/projects/page.tsx:171-181 | `edit` fills title and description as they are, tags joined with ", ", null URLs and name as "", the flag, and order or 0 |
| `ProjectsPage.EditSaveRoundTrip` | src/app/admin/projects/page.tsx:169-181 | saving an edited row untouched passes the required check and writes back its title, description, tags, URLs (null stays null), flag and order |
| `ProjectsPage.UrlRoundTrip` | src/app/admin/projects/page.tsx:175-177 | a clean URL column shown in the form and read back is unchanged |
| `ProjectsPage.EmptyFormIsIncomplete` | src/app/admin/projects/page.tsx:28-38 | the empty form never passes the required check |
| `ProjectsPage.DeleteUrl` | src/app/admin/projects/page.tsx:193-195 | the DELETE URL targets `/api/admin/projects` on the origin with the id, and has an `image_path` iff the path is truthy, with that path |
| `ProjectsPage.AdminProjectsPage.constructor` | src/app/admin/projects/page.tsx:41-46 | the initial state: loading, no projects, the empty form, no edit, no message, no image, no request |
| `ProjectsPage.AdminProjectsPage.Load` | src/app/admin/projects/page.tsx:55-75 | one GET; not loading afterwards; a failure empties the list with "Load error: " and the text, success shows `projects ?? []` with no message; form, edit and image unchanged |
| `ProjectsPage.AdminProjectsPage.Reset` | src/app/admin/projects/page.tsx:82-85 | the empty form and no edited id; everything else unchanged |
| `ProjectsPage.AdminProjectsPage.Edit` | src/app/admin/projects/page.tsx:169-187 | edits the row's id with `FormOf` in the form and clears the message; the row's image becomes the selection only when it has a truthy name |
| `ProjectsPage.AdminProjectsPage.ChooseImage` | src/app/admin/projects/page.tsx:283-288 | the picked file and its name replace the selection's, keeping its stored path; nothing else changes |
| `ProjectsPage.AdminProjectsPage.SaveFile` | src/app/admin/projects/page.tsx:145-167 | with a file, one upload resolving to its stored path, or to undefined after reporting "Image upload error"; without a file, null and no request |
| `ProjectsPage.AdminProjectsPage.DeleteImage` | src/app/admin/projects/page.tsx:133-143 | one image DELETE for the path; a failure is reported, the rest is unchanged |
| `ProjectsPage.AdminProjectsPage.Post` | src/app/admin/projects/page.tsx:106-130 | an incomplete payload stops with the required message and no request; otherwise one save POST carrying the edited id and the payload (its JSON body is the corrected one, see Left out); a failure is reported with nothing else changed; success deletes the replaced image if any, clears selection, form and edit, reloads and says "Saved ✅" |
| `ProjectsPage.AdminProjectsPage.Save` | src/app/admin/projects/page.tsx:87-131 | the upload runs first even when the required check then fails; the POST carries the payload built from the old form and upload; the old image is deleted only when one is stored and a new one was stored under a new path; a missing required field or a failed POST leaves the list and the loading flag unchanged, while success reloads and ends with loading false |
| `ProjectsPage.AdminProjectsPage.Del` | src/app/admin/projects/page.tsx:189-206 | nothing without confirmation; otherwise one DELETE to `DeleteUrl`, then a reported failure, or a reload and "Deleted ✅"; the form is untouched; loading is unchanged unless the delete succeeded, after which the reload leaves it false |

## Left out

- Backend internals are not modelled. The auth library, table queries, storage and sign-out are answers given as parameters. Only the calls made and their arguments are kept.
- Table and storage calls made after the gate are taken not to refresh the session. Only `getUser` and `exchangeCodeForSession` pass cookie batches to `setAll`.
- The Supabase client adapters (`src/lib/supabase-server.ts`, `src/lib/supabase-browser.ts`) are not part of this model. Neither are the login, sign-out and landing pages.
- Uploaded bytes are not modelled. `File.arrayBuffer`, `FormData` encoding and the byte copy are left out. A form value either is a file (name and type) or is not.
- `crypto.randomUUID` is a parameter.
- A body that `req.json()` or `req.formData()` rejects is the `None` of an optional parameter. It ends in a throw.
- zod's `.url()` check is a predicate parameter.
- The schemas follow zod 3 semantics: `.partial()` drops the `tags` default, and `.refine` runs on a result that only has check issues. zod 4 differs on both.
- zod issues form a set. Their order and zod's default messages are not modelled: a type error or a missing key is an issue kind, not text.
- JSON numbers are exact reals. `JSON.parse` rounds a literal to a double and turns one out of range (such as `1e400`) into Infinity; neither is modelled.
- The form's `sort_order` holds the already-converted `Number(input)`: a number or NaN. The string-to-number conversion itself is left out.
- React rendering, state scheduling and `await` interleaving are not modelled. Each handler runs to completion with its updates applied at once.
- The mount effect's initial `load` is not modelled separately; it is a call of `Load`.
- `window.confirm` is the `confirmed` parameter and `window.location.origin` is `origin`. `scrollTo`, the image preview URL and the "Selected:" text are not modelled.
- The field inputs' change handlers only copy a value into one form field, so they are not modelled separately.
- `console.log`, the `runtime` exports and the markup are not modelled. Neither is the React `key` of list entries.
- ProjectsPage.AdminProjectsPage.Save: models the corrected behaviour from the Findings below. It posts the wrapped `{ id, payload }` body (`RequestBody`/`SaveBody` give the JSON). It deletes the old image only when there is one and a new one was stored under a new path. The code as written is captured by `FlatSaveBody` with `FlatBodyWritesEmptyObject`, and by `DeletesOldImageAsWritten` with `FailedUploadDeletesOldImage`.
- ProjectsPage.AdminProjectsPage.Post: its required check is made on the payload, as the source does. `Save`'s contract states it on the form.
- ProjectsPage.AdminProjectsPage.Post: the save request it records is given the corrected `{ id, payload }` JSON body by `RequestBody`. The flat `{ id, ...payload }` the page posts as written is `FlatSaveBody` (see Findings).
- ProjectValidation.ParseProjectId: reads a digit string's value exactly (`DigitsValue`). `Number` rounds strings beyond 2^53 and gives Infinity past about 309 digits, which the model does not reproduce.
- ProjectValidation.ParseProjectId: accepts any positive integer number. `z.number().int()` rejects the Infinity that `JSON.parse` makes of a literal such as `1e400`, which the model reads as a large integer.

## Findings

| source | as written | input that shows it | evidently intended | confidence | as-written member | corrected member |
|---|---|---|---|---|---|---|
| src/app/admin/projects/page.tsx:114 | the page posts `{ id, ...payload }` flat, while the handler writes `body.payload ?? {}` | any save: the body has no `payload` key, so the handler writes `{}` (an update of the row with nothing, or an insert of an empty row) | post `{ id: editingId, payload }` so the handler writes the form's fields | high (not executed) | `ProjectsPage.FlatBodyWritesEmptyObject` | `ProjectsPage.SaveBodyWritesPayload` |
| src/app/admin/projects/page.tsx:123-125 | the old image is deleted when `file?.type && payload.image_path !== imageFile?.path` | a typed file "cover.png" whose upload fails: `saveFile` gives `undefined`, which differs from the stored "old.png", so "old.png" is removed while the payload carries no new path | delete the old image only when there is one, and only once a new one was stored under a different path | high (not executed) | `ProjectsPage.FailedUploadDeletesOldImage` | `ProjectsPage.ReplacementIsSaved` |
| src/lib/validation/projects.ts:118-121 | the id's string branch accepts any `/^\d+$/` and converts it with `Number` | `{ "id": "0" }` parses to the id 0, despite the message "id must be a positive integer string" | accept only digit strings that denote a positive number, like the numeric branch | medium (not executed) | `ProjectValidation.ZeroIdStringAccepted` | `ProjectValidation.PositiveIdRejectsZeroStrings` |
