# Jira Sprinter route handlers, modelled in Dafny

This project models the four server routes that carry the logic of Jira Sprinter. In this web application a signed-in user stores a language-model API key and a Jira credential. The user then pushes reviewed draft tickets into a Jira project. The four routes are:

- `app/api/jira-tickets/route.ts`: the bulk ticket publisher (module `JiraTickets`, pure functions). It validates the submitted drafts and builds one Jira create-issue payload per ticket. For a failed call it picks the error message through a fixed fallback chain. It reports one result per ticket, in input order. The overall status is 207 Multi-Status (section 11.1 of RFC 4918) when any ticket failed, and 200 otherwise.
- `app/api/jira-project-config/route.ts`: the project-configuration cache (module `ProjectConfig`, class `ConfigTable`). A stored configuration is reused while it is strictly younger than one day. Otherwise the configuration is fetched from Jira, reduced to four fields per issue type, and upserted under the credential's id.
- `app/api/api-keys/route.ts`: the per-user key table (module `ApiKeys`, class `KeyTable`). It has create, list and delete. A caller can only delete their own keys, and no answer carries the secret key.
- `app/api/jira-credentials/route.ts`: the credential store (module `JiraCredentials`, class `CredentialStore`). Each user has at most one credential. Writes are upserts. The API token never appears in an answer.

Two helper modules sit under these. `Common` holds `Option`, the session check and the status codes. `Json` holds JSON values and the JavaScript semantics the handlers depend on: property access, `v[0]`, `v[Object.keys(v)[0]]`, truthiness and `String(v)`.

Outside inputs become parameters:

- The session is an `Option<UserId>`. A request is authenticated when the id is present and non-empty, which is the test `!session?.user?.id`.
- A request body is an `Option<Json>`. `None` means `req.json()` threw. That error is not a validation error, so the handler falls into its generic 500 branch.
- Each Jira create-issue call is `send(i, payload)`: the way the i-th call ended. It either threw with a message, or Jira answered with ok or not-ok and a body that may fail to parse.
- The project-configuration fetch is a `Fetch` value.
- `Date.now()` is `now`, in milliseconds.
- Ids that the store generates are a `freshId` argument. A `requires` clause says that no existing row uses it.
- Zod's e-mail check is the predicate argument `isEmail`.

The story-points field is sent only for a truthy estimate, so an estimate of 0 is dropped (`JiraTickets.BuildPayload`, `JiraTickets.StoryPointsOnTheWire`). The schema accepts 0 and negative estimates, and so does the model.

The publisher has no deduplication. Submitting an already-created ticket again makes a new create call, and each call's result is reported on its own. The model keeps this behaviour and does not fix it.

## Model

| member | source | states |
|---|---|---|
| `JiraTickets.ParseIssueType` | app/api/jira-tickets/route.ts:17 | the type enum accepts exactly "task", "story" and "bug", and the accepted value is the one whose literal was sent |
| `JiraTickets.ParsePriority` | app/api/jira-tickets/route.ts:18 | the priority enum accepts exactly "low", "medium" and "high", each giving its own priority |
| `JiraTickets.ParsePoints` | app/api/jira-tickets/route.ts:19 | `estimatedPoints` is accepted exactly when absent or a number (null is refused), and its value encodes back to what was sent |
| `JiraTickets.ParseTicketExactly` | app/api/jira-tickets/route.ts:14-20 | a JSON value validates as ticket t if and only if its five members encode t and t's title and description are non-empty |
| `JiraTickets.TicketRoundTrip` | app/api/jira-tickets/route.ts:14-20 | serialising a well-formed ticket the way the dashboard sends it and validating it gives the same ticket back |
| `JiraTickets.ParseEachSpec` | app/api/jira-tickets/route.ts:22-24 | the `tickets` array validates if and only if every element does, and then gives one ticket per element, in order |
| `JiraTickets.Capitalize` | app/api/jira-tickets/route.ts:73 | the result keeps the length and everything after the first character, and the first character is upper-cased |
| `JiraTickets.IssueTypeName` | app/api/jira-tickets/route.ts:71-74 | the issue-type name is Task, Story or Bug for task, story or bug |
| `JiraTickets.IssueTypeNameRoundTrip` | app/api/jira-tickets/route.ts:71-74 | each draft type maps to a distinct Jira issue-type name, and reading that name back gives the draft type |
| `JiraTickets.BuildPayload` | app/api/jira-tickets/route.ts:64-79 | the project key comes from the stored credential, summary is the title and description the description; the story points are present exactly when the estimate is a non-zero number, and then equal it |
| `JiraTickets.PayloadFieldsLookup` | app/api/jira-tickets/route.ts:64-79 | the `fields` object of any payload binds `summary` to the summary, `customfield_10016` to the story points exactly when they are present, and has no `priority` member |
| `JiraTickets.StoryPointsOnTheWire` | app/api/jira-tickets/route.ts:64-79 | in the JSON sent, `customfield_10016` is present exactly for a non-zero estimate and carries it; no `priority` member is ever sent (`PRIORITY_MAP` is unused) |
| `JiraTickets.FirstTruthy` | app/api/jira-tickets/route.ts:109-113 | a chain of JavaScript `or` over the candidates yields the string form of the first truthy candidate, or the fallback when none is truthy |
| `JiraTickets.ErrorMessage` | app/api/jira-tickets/route.ts:105-117 | an unparseable or null error body leaves the default "Failed to create Jira ticket"; otherwise the first truthy one of `errorMessages[0]`, the value under the first key of `errors` and `message` gives the reported error (as `new Error` converts it), and with none truthy the default stays |
| `JiraTickets.JiraErrorMessagesFirst` | app/api/jira-tickets/route.ts:108-113 | whatever else the error body holds, when its `errorMessages[0]` is a non-empty string, that string is the reported error |
| `JiraTickets.JiraFieldErrorNext` | app/api/jira-tickets/route.ts:110-111 | with `errorMessages` absent, null or empty, a non-empty string under the first key of `errors` is the reported error, whatever else the body holds |
| `JiraTickets.JiraEmptyErrorDefault` | app/api/jira-tickets/route.ts:106-113 | every error body whose `errorMessages` and `errors` are absent, null or empty and whose `message` is absent or falsy reports the default message |
| `JiraTickets.ErrorMessageNonEmpty` | app/api/jira-tickets/route.ts:105-117 | the reported error is never empty unless the candidate it was taken from is an array |
| `JiraTickets.PublishOne` | app/api/jira-tickets/route.ts:62-143 | each result keeps the ticket's title; it is created exactly when Jira answered ok with a non-null JSON body, and then carries that body's id and key and the ticket's priority; otherwise it is failed: with the thrown message, with the extracted error message for a not-ok answer, with the parser's error text for an ok answer that does not parse, and with the TypeError text of reading `id` of null for an ok `null` answer |
| `JiraTickets.PublishAll` | app/api/jira-tickets/route.ts:61-145 | N tickets give N results, in input order, and the i-th result is the i-th ticket's own call's result |
| `JiraTickets.PublishIsolation` | app/api/jira-tickets/route.ts:128-143 | a ticket's result depends only on its own call, so a failure elsewhere in the batch cannot change it |
| `JiraTickets.FailedEntriesSpec` | app/api/jira-tickets/route.ts:147-151 | the filter of failed entries is empty if and only if every entry was created |
| `JiraTickets.PublishTickets` | app/api/jira-tickets/route.ts:26-179 | with no session user the answer is 401; with no stored credential it is 400 whatever the body; an invalid body is 400 "Invalid input data"; an unreadable body is 500 |
| `JiraTickets.PublishOutcome` | app/api/jira-tickets/route.ts:147-164 | for a valid request the answer carries all N results; its status is 207 "Some tickets failed to create" if and only if some entry failed, and 200 "All tickets created successfully" if and only if all were created |
| `JiraTickets.CredentialCheckedFirst` | app/api/jira-tickets/route.ts:35-52 | without a stored credential, neither the body nor any Jira call affects the answer |
| `JiraTickets.SecondOfThreeRejected` | app/api/jira-tickets/route.ts:61-164 | three tickets where Jira rejects the second with its invalid-project answer give three results (created, failed, created), the failed one carrying Jira's field error "valid project is required", and a 207 "Some tickets failed to create" |
| `JiraTickets.InvalidProjectReported` | app/api/jira-tickets/route.ts:106-113 | Jira's invalid-project answer (empty `errorMessages`, one `project` field error) reports that field error |
| `ProjectConfig.FreshnessWindow` | app/api/jira-project-config/route.ts:41-46 | a stored configuration counts as fresh exactly while now is before its write time plus 86 400 000 ms; an age of exactly one day is stale |
| `ProjectConfig.SummarizeAll` | app/api/jira-project-config/route.ts:83-88 | projecting the issue types fails exactly when one of them is null; otherwise it gives one summary per issue type, in order, each keeping only id, name, description and subtask |
| `ProjectConfig.ExtractProject` | app/api/jira-project-config/route.ts:79-88 | a successful extraction reads the key, name and projected issue types of the first element of `projects` |
| `ProjectConfig.EmptyProjectsFail` | app/api/jira-project-config/route.ts:82-83 | an empty `projects` list makes the extraction fail |
| `ProjectConfig.ExtractFirstProject` | app/api/jira-project-config/route.ts:82-88 | whatever else the answer holds, a `projects` array whose first element has an `issuetypes` array free of nulls yields that project's key and name and one summary per issue type, in order |
| `ProjectConfig.FetchedProject` | app/api/jira-project-config/route.ts:69-79 | a project comes only from a fetch that did not throw, answered ok and had a readable JSON body, and such a fetch yields exactly the extraction of that body |
| `ProjectConfig.ConfigTable.Upsert` | app/api/jira-project-config/route.ts:91-106 | after the upsert, the credential has exactly one configuration, which holds the given project stamped at now, and every other credential's configuration is unchanged |
| `ProjectConfig.ConfigTable.Get` | app/api/jira-project-config/route.ts:12-121 | 401 without a session and 400 without a credential, with no write in either case; the cached row with `cached: true` exactly when it exists and is strictly younger than a day; otherwise a failed fetch gives 500 and no write, and a successful one stores the project and returns it with `cached: false` |
| `ApiKeys.ParseKeyInput` | app/api/api-keys/route.ts:9-12 | a body is accepted if and only if `key` and `model` are both non-empty strings, and the accepted values are the ones sent |
| `ApiKeys.OwnedBy` | app/api/api-keys/route.ts:68-76 | the listing holds exactly the caller's rows, each shown as id and model only |
| `ApiKeys.InsertAddsOneKey` | app/api/api-keys/route.ts:25-31 | adding a row under an unused id gives its owner exactly one more key and leaves every other user's keys unchanged |
| `ApiKeys.RemoveOwnKey` | app/api/api-keys/route.ts:106-119 | removing a row the caller owns takes exactly that row from the caller's keys and leaves every other user's keys unchanged |
| `ApiKeys.KeyTable.Post` | app/api/api-keys/route.ts:14-58 | 401 without a session, 500 for an unreadable body and 400 for an invalid one, with no write in any of these; otherwise exactly one new row owned by the caller, a 201 answer with id and model but no key, and the caller's key count grows by one |
| `ApiKeys.KeyTable.Get` | app/api/api-keys/route.ts:60-86 | 401 without a session; otherwise 200 with exactly the caller's rows as id and model |
| `ApiKeys.KeyTable.Delete` | app/api/api-keys/route.ts:88-132 | 401 without a session, 400 without an id, and 404 for a missing or foreign id, with the table unchanged in all three; otherwise 200 and exactly that row is removed; the table changes if and only if the answer is 200 |
| `Json.ToText` | app/api/jira-tickets/route.ts:117 | `null`, booleans, numbers and strings always convert: to "null", "true"/"false", the decimal digits and the string itself; an object converts to "[object Object]" and throws exactly when it has its own `toString` member (a parsed value is never callable); an array conversion throws only when one of its non-null elements does |
| `Json.NonEmptyText` | app/api/jira-credentials/route.ts:10 | the non-empty-string check accepts exactly a present non-empty string and gives that string |
| `JiraCredentials.ParseCredentialInput` | app/api/jira-credentials/route.ts:9-14 | an accepted body has non-empty domain, token and project key and an e-mail-shaped email, and the accepted values are the ones sent |
| `JiraCredentials.ParseCredentialInputComplete` | app/api/jira-credentials/route.ts:9-14 | every body whose four fields meet the schema is accepted with those values |
| `JiraCredentials.Redact` | app/api/jira-credentials/route.ts:48-49 | the answer drops only the token: putting the token back restores the stored row |
| `JiraCredentials.RedactIgnoresToken` | app/api/jira-credentials/route.ts:48-49 | the answer holds nothing of the token: two rows that differ only in their token give the same answer |
| `JiraCredentials.Summary` | app/api/jira-credentials/route.ts:86-91 | the listing shows the row's id, domain, email and project key |
| `JiraCredentials.Upserted` | app/api/jira-credentials/route.ts:29-46 | after the upsert the user has exactly one row, holding the four submitted fields; its id is kept on update and fresh on create; every other user's row is unchanged |
| `JiraCredentials.UpsertedKeepsInvariant` | app/api/jira-credentials/route.ts:29-46 | with an unused fresh id, the upsert keeps every row filed under its owner and keeps row ids unique |
| `JiraCredentials.UpsertIdempotent` | app/api/jira-credentials/route.ts:29-46 | submitting the same data twice leaves the same stored state as submitting it once |
| `JiraCredentials.CredentialStore.Post` | app/api/jira-credentials/route.ts:16-72 | 401 without a session, 500 for an unreadable body and 400 for an invalid one, with no write in any of these; otherwise the caller's row is upserted and the 201 answer is that row without its token |
| `JiraCredentials.CredentialStore.Get` | app/api/jira-credentials/route.ts:74-102 | 401 without a session; otherwise 200 with the caller's id, domain, email and project key, or null when there is no row |
| `JiraCredentials.CredentialStore.Delete` | app/api/jira-credentials/route.ts:104-129 | 401 without a session; the caller's row and no other is removed, with 200; with no row the store's failure gives 500 "Internal server error" and nothing changes |

## Left out

- The pages `app/dashboard/page.tsx` and `app/page.tsx` are UI state, form wiring and redirects.
- `app/api/process-document/route.ts` is not part of this model. It is a wrapper around a language-model call and `JSON.parse`.
- The outgoing HTTP requests are left out: URLs, the Basic-auth header and its base64 encoding, and the request headers. Only each call's outcome is an input.
- `Promise.all` runs the per-ticket calls concurrently. The model maps over the tickets in order. Each call returns its own result and there is no shared accumulator, so the order of the results is the same either way.
- Store failures are not modelled, except the one the source relies on. A failing `findUnique`, `findMany`, `create` or `upsert` would give a 500. The one modelled failure is deleting a missing credential row.
- The database schema is not part of this model. Column types, `createdAt`/`updatedAt` on credential rows, and any cascade from a credential to its project configuration are left out. The project configuration's key and name are stored as they were read.
- Logging (`console.*`) is left out.
- The `errors` detail that zod attaches to a 400 answer is left out. Only the status and message are modelled.
- `Json.Decimal` states only the shape of `String(n)` (non-empty, a leading '-' exactly for negatives), not its digits. JavaScript writes integers of magnitude 10^21 or more in exponent form and rounds integers above 2^53, while the model prints every digit.
- JSON numbers are integers, because floating point is left out. Only an estimate's presence and zero-ness affect a payload. A float in a Jira error body would render differently from the model's decimal integer.
- The model does not reorder integer-like keys in `Object.keys`. JavaScript lists such keys first in ascending order, and the model keeps insertion order for all keys.
- `Json.Index0` on a string takes the first character of the model's string. JavaScript's `s[0]` takes the first UTF-16 code unit, so for an `errorMessages` string that starts outside the Basic Multilingual Plane the source reports a lone surrogate.
- Upper-casing is ASCII only. It is applied only to the three fixed type literals.
- The e-mail check is the `isEmail` parameter and is not defined further.
- Generated ids are a `freshId` argument that no existing row uses. How the store generates ids is left out.
- `ApiKeys.KeyTable.Get` returns a set. The source returns the rows in the store's order, which the source does not fix.
- `ProjectConfig.ExtractProject`: its contract states only what a successful extraction reads. The failure cases (null data, missing `projects`, no first project, `issuetypes` not an array, a null issue type) are in its body, and `ProjectConfig.EmptyProjectsFail` and `ProjectConfig.SummarizeAll` state the main ones.
- `JiraTickets.PublishOne`: when Jira answers ok with a body that `JSON.parse` rejects, the reported message is the parser's own error text. That text is an input (`Unparseable.syntaxError`), not fixed by the model.
- `JiraFieldErrorNext`: states the case where the first key of `errors` is not given again later, and where `errorMessages` is absent, null or `[]`. For other bodies (a repeated first key, `errorMessages` such as `[""]`), the reported error follows from `JiraTickets.ErrorMessage`'s contract, not from this lemma.
- The TypeError texts are V8's (`Json.ConversionErrorMessage`, `JiraTickets.NullResultMessage`). Another JavaScript engine words them differently.
