# IISF site core, modelled in Dafny

This project is a Dafny model of the deterministic core of the IISF
(Intersectional Safety) web site. The site is a Next.js application. Beside
it runs a VoltAgent agent server. The model covers:

- the research-inquiry workflow and the CRM snapshot of the ops strategy cycle;
- the agent tools: SEO analyzer, CRM, IndexNow, email draft, Sanity CMS and ops intel;
- the API routes: agent relay and stream, ops chat, ops verify, ops CRM, ops
  auth, contact form and the Sanity SEO webhook;
- the ops host proxy and the agent-server configuration resolver;
- the sitemap, the RSS feed and the local blog index;
- the `seo-lint` build script;
- the state logic of three ops pages: chat, verify and pipeline.

Each core source file has its own module. Shared concepts are defined once:

- `Common`: `Option` and `Result`.
- `Json`: a JavaScript value, its truthiness, `||`, template rendering and
  error objects.
- `Text`: `trim`, `split`/`join`, prefix, suffix and substring tests, and
  ASCII case mapping.
- `Numerals`: decimal and base-36 rendering, with a round-trip lemma.
- `Counting`: the `summary[k] = (summary[k] ?? 0) + 1` tally and the
  insertion-ordered `Set` (dedup). The tally is a map with no inherited keys; the plain
  JavaScript object behaves differently for the names `Object.prototype` already has (see
  "Left out").
- `UriEncoding`: `encodeURIComponent`, with its decoder as a partner.
- `Paragraphs`: the `/\n\n+/` split followed by `filter(Boolean)`.
- `AgentRelay`: the fetch-with-fallback and error relay code. Four route
  handlers carry copies of it.

I/O is replaced by parameters:

- Network, Supabase, Sanity, Resend and file-system calls take a parameter
  that gives their outcome. A function from request to outcome stands for
  `fetch`.
- `JSON.parse` and `new URL` are function parameters.
- Clocks, random keys and environment variables are plain inputs.

Code that updates state step by step is modelled as methods with loops. Each
is proved equal to a specification function, and lemmas state what that
function means. There are two such classes: the `seo-lint` script
(`SeoLint.Linter`, which holds the failure and note lists) and the
ops chat page (`OpsChatPage.OpsChat`, which holds the React state).

## Model

| member | source | states |
|---|---|---|
| `InquiryWorkflow.ParseArea` | iisf-site/my-agent-app/src/workflows/index.ts:30-36 | A string parses to an area exactly when it is that area's name; anything else is refused (the zod enum) |
| `InquiryWorkflow.ParseAreaName` | iisf-site/my-agent-app/src/workflows/index.ts:48 | Each of the five area names parses back to its area (round trip) |
| `InquiryWorkflow.Classify` | iisf-site/my-agent-app/src/workflows/index.ts:61-84 | The input is kept; the id is "INQ-" followed by base-36 digits whose value is the clock reading; each area maps to its Charter standard, "other" to "General Charter" |
| `InquiryWorkflow.DistinctTimesDistinctIds` | iisf-site/my-agent-app/src/workflows/index.ts:62 | Inquiries classified at different milliseconds get different ids |
| `InquiryWorkflow.Route` | iisf-site/my-agent-app/src/workflows/index.ts:94-136 | A routed result keeps the inquiry id and standard and is never "board-review"; after a review it is acknowledged iff approved, with the approval or rejection message; without a review, a known area is acknowledged and "other" suspends for board review with the id, name, institution and description |
| `InquiryWorkflow.AcknowledgementMentions` | iisf-site/my-agent-app/src/workflows/index.ts:116 | The acknowledgement names the applicant, the inquiry id, the standard and the e-mail address |
| `InquiryWorkflow.ApprovalMentions` | iisf-site/my-agent-app/src/workflows/index.ts:104 | The approval message names the applicant's e-mail and the standard |
| `InquiryWorkflow.Start` | iisf-site/my-agent-app/src/workflows/index.ts:59-136 | A run suspends iff the area is "other", carrying the classified data; otherwise it completes acknowledged with the classified id |
| `InquiryWorkflow.Resume` | iisf-site/my-agent-app/src/workflows/index.ts:94-107 | Only a suspended run can be resumed; it completes with the same id, acknowledged iff the review approves |
| `InquiryWorkflow.Lifecycle` | iisf-site/my-agent-app/src/workflows/index.ts:59-136 | Every inquiry completes, directly or after one review, with the classified "INQ-" id and standard; a completed run cannot be resumed again |
| `StrategyCycleWorkflow.CountHighPriorityOpen` | iisf-site/my-agent-app/src/workflows/index.ts:280-282 | Counts the contacts outside "committed"/"declined" whose priority is at most 2, a null priority counting as 0 as `null <= 2` does: the count is 0 exactly when no contact qualifies, equals the number of contacts exactly when every one does, and never exceeds it |
| `StrategyCycleWorkflow.NullPriorityCounted` | iisf-site/my-agent-app/src/workflows/index.ts:280 | An open contact with a null priority is counted as high priority |
| `StrategyCycleWorkflow.LoadCrmSnapshot` | iisf-site/my-agent-app/src/workflows/index.ts:262-291 | A missing or empty Supabase URL or key fails with the configuration error; a query error fails with its message; otherwise the loop's stage and type tallies and its high-priority counter (null priority counted) equal the snapshot of the rows (null rows read as none) |
| `StrategyCycleWorkflow.PrefixStep` | iisf-site/my-agent-app/src/workflows/index.ts:277-283 | One loop iteration adds exactly the current contact to both tallies and to the high-priority count |
| `StrategyCycleWorkflow.SnapshotCounts` | iisf-site/my-agent-app/src/workflows/index.ts:273-290 | The stage summary and the type summary each add up to the total contact count, and the high-priority count is at most the total |
| `StrategyCycleWorkflow.FirstValid` | iisf-site/my-agent-app/src/workflows/index.ts:410-413 | A result is a schema-valid candidate at an index within the allowed attempts, with every earlier candidate invalid, so it is the first valid one; none exactly when every allowed attempt is invalid |
| `StrategyCycleWorkflow.SchemaCheckedStep` | iisf-site/my-agent-app/src/workflows/index.ts:410-413 | With maxRetries 2, at most three candidates are tried and only a result meeting every bound of the result schema is accepted |
| `StrategyCycleWorkflow.TooManyActionsInvalid` | iisf-site/my-agent-app/src/workflows/index.ts:308 | A result with more than five next actions is refused by the schema |
| `AgentRelay.AgentBase` | iisf-site/app/api/ops/verify/route.ts:16 | The agent URL from the environment (or the default) with one trailing slash removed |
| `AgentRelay.FetchAgentSpec` | iisf-site/app/api/ops/verify/route.ts:19-35 | One or two requests are sent, to the base + path and then base + "/api" + path, with the same init; the second is sent iff the first answered 404 or 405; the outcome is that of the last request |
| `AgentRelay.FetchAgent` | iisf-site/app/api/ops/verify/route.ts:19-35 | The loop over the candidate URLs sends exactly the requests and returns exactly the outcome of the specification above |
| `AgentRelay.NormalizeErrorPayload` | iisf-site/app/api/ops/verify/route.ts:37-48 | An unparsable or null body is returned as the raw text; a parsed body yields its details, else its error, else its message field (the first present one), else the raw text; the result is truthy or the raw text |
| `AgentRelay.FailureBody` | iisf-site/app/api/agent/route.ts:69-76 | The failure object has exactly error, details and upstreamStatus; details is the normalised upstream body and upstreamStatus the upstream status |
| `AgentRelay.RelayFailure` | iisf-site/app/api/agent/route.ts:69-76 | An upstream failure is relayed with its own status when a JSON response can carry it; otherwise the handler fails and the client sees a retryable 503 |
| `AgentRelay.RelayStream` | iisf-site/app/api/ops/chat/route.ts:70-89 | The upstream body is streamed through iff the upstream answered OK with a body; other answers are relayed as failures and a thrown fetch as a 503 |
| `AgentRoute.Post` | iisf-site/app/api/agent/route.ts:44-88 | Without a secret the route answers "not configured" and sends nothing; an unreadable body is a 503 and sends nothing; otherwise the body is posted to /agents/iisf-assistant/text with the bearer secret, a success returns the upstream JSON and a failure relays status and details |
| `AgentRoute.Get` | iisf-site/app/api/agent/route.ts:90-121 | Without a secret nothing is sent; otherwise GET /agents with the bearer secret; the listing is relayed with 200 when the answer is OK and parses, and every other outcome (error status, unreadable body, thrown fetch) is the same 503 "Agent service unavailable" |
| `AgentRoute.PostKeepsUpstreamStatus` | iisf-site/app/api/agent/route.ts:66-77 | A failed first attempt with a relayable status other than 404 or 405 reaches the client with that same status |
| `AgentStreamRoute.Post` | iisf-site/app/api/agent/stream/route.ts:41-90 | Without a secret nothing is sent; an unreadable body sends nothing; otherwise every request carries the client body unchanged and the reply is the relayed stream or failure of the fetch specification |
| `OpsChatRoute.UpstreamBody` | iisf-site/app/api/ops/chat/route.ts:62-67 | The upstream body keeps the client's input and conversationId, sets stream to true and carries a userId, and has no other keys |
| `OpsChatRoute.Post` | iisf-site/app/api/ops/chat/route.ts:42-97 | Without a secret nothing is sent; a null or unreadable body is a 503; otherwise the rewritten body is streamed to the stream endpoint and the reply is the relayed stream or failure |
| `OpsChatRoute.DefaultUser` | iisf-site/app/api/ops/chat/route.ts:64 | A body without userId is sent as user "ops-dashboard" |
| `AgentServer.IsLocalhostUrl` | iisf-site/lib/agent-server.ts:6-13 | A parsable URL is local iff its hostname is localhost or 127.0.0.1; an unparsable one iff its text contains either name (case-insensitively for "localhost") |
| `AgentServer.LowerKeepsDigits` | iisf-site/lib/agent-server.ts:11 | Lower-casing the URL does not change whether it contains "127.0.0.1" |
| `AgentServer.Resolve` | iisf-site/lib/agent-server.ts:15-48 | Production iff NODE_ENV is "production"; a non-blank VOLTAGENT_URL (trimmed) wins, else the production default, else localhost; the URL loses one trailing slash; the error names the missing secret first, then a localhost URL in production |
| `AgentServer.UsableConfig` | iisf-site/lib/agent-server.ts:32-38 | A configuration has no error exactly when the environment sets a non-empty secret and, in production, the resolved URL is not a localhost URL |
| `AgentServer.DevelopmentNeedsOnlySecret` | iisf-site/lib/agent-server.ts:32-38 | Outside production a secret is all a configuration needs |
| `AgentServer.ProductionDefault` | iisf-site/lib/agent-server.ts:17-28 | In production with no VOLTAGENT_URL the Railway default is used and is not local |
| `SeoWebhook.ExtractSlug` | iisf-site/app/api/seo/webhook/route.ts:24-37 | A string slug, or the current field of an object slug, is returned trimmed; a blank or other value gives none; a returned slug is non-empty and trimmed |
| `SeoWebhook.NormalizePath` | iisf-site/app/api/seo/webhook/route.ts:39-53 | None iff the value is blank; otherwise a path starting with "/" that has no trailing "/" unless it is "/" |
| `SeoWebhook.NormalizePathIdempotent` | iisf-site/app/api/seo/webhook/route.ts:39-53 | Normalising a normalised path changes nothing when it does not end in white space |
| `SeoWebhook.NormalizePathNotIdempotent` | iisf-site/app/api/seo/webhook/route.ts:39-53 | "a /" normalises to "/a ", which normalises again to "/a": the function is not idempotent in general |
| `SeoWebhook.IsAuthorized` | iisf-site/app/api/seo/webhook/route.ts:65-90 | With no secret configured the request is refused with that reason; otherwise it is accepted iff the bearer token, the trimmed header or the trimmed query parameter equals the secret |
| `SeoWebhook.UntrimmedSecretNeverMatches` | iisf-site/app/api/seo/webhook/route.ts:74-84 | A configured secret with surrounding white space can never be matched |
| `SeoWebhook.PathCandidates` | iisf-site/app/api/seo/webhook/route.ts:155-158 | An array of strings yields its normalised paths, all starting with "/"; an array holding a non-string is refused |
| `SeoWebhook.Chars` | iisf-site/app/api/seo/webhook/route.ts:155 | A string given as paths is iterated character by character |
| `SeoWebhook.NormalizeAll` | iisf-site/app/api/seo/webhook/route.ts:155-158 | Every kept candidate path starts with "/" |
| `SeoWebhook.ReadChange` | iisf-site/app/api/seo/webhook/route.ts:146-149 | A null payload cannot be read (the handler throws) |
| `SeoWebhook.Revalidate` | iisf-site/app/api/seo/webhook/route.ts:151-172 | The loop revalidates each path of the insertion-ordered set once, in first-insertion order |
| `SeoWebhook.RevalidatedShape` | iisf-site/app/api/seo/webhook/route.ts:151-166 | The revalidated list starts with "/" and "/sitemap.xml", and has no duplicates |
| `SeoWebhook.BlogPagesRevalidated` | iisf-site/app/api/seo/webhook/route.ts:160-166 | /blog, /rss.xml and /feed.xml are revalidated iff the change is a post or has a slug, or the payload lists them |
| `SeoWebhook.IndexNowUrls` | iisf-site/app/api/seo/webhook/route.ts:174-176 | A URL is submitted iff it is the site URL of an indexable revalidated path ("/" maps to the bare site) |
| `SeoWebhook.SubmitIndexNow` | iisf-site/app/api/seo/webhook/route.ts:92-125 | No key means "not configured" and no URLs means "No eligible URLs", neither sending anything; a sent request carries the host, key, key location and URL list; a report is attempted iff a request was sent |
| `SeoWebhook.SuccessBody` | iisf-site/app/api/seo/webhook/route.ts:180-186 | The reply has exactly ok, type, operation, revalidated and indexNow; ok is true; revalidated lists the paths in order; type is truthy or null |
| `SeoWebhook.Post` | iisf-site/app/api/seo/webhook/route.ts:127-187 | Unauthorised is 401 with the reason; bad JSON is 400; an unreadable payload is not handled; otherwise the reply is 200 with the revalidated set and the IndexNow report of its indexable URLs |
| `SeoWebhook.PostSlugSubmission` | iisf-site/app/api/seo/webhook/route.ts:160-176 | A post with a slug revalidates "/", the sitemap, the blog, both feeds and the post, and submits the site, /blog and the post URL |
| `SeoWebhook.PostInsertions` | iisf-site/app/api/seo/webhook/route.ts:151-166 | The insertions for a post with a slug are already distinct, so they are revalidated as inserted |
| `SeoWebhook.PostUrls` | iisf-site/app/api/seo/webhook/route.ts:174-176 | Of those paths only "/", /blog and the post are submitted; the XML feeds and sitemap are skipped |
| `CrmTools.InsertRow` | iisf-site/my-agent-app/src/tools/crm.ts:40-54 | The inserted row takes name, type and notes from the arguments; stage defaults to "identified" and priority to 3 |
| `CrmTools.MinimalContact` | iisf-site/my-agent-app/src/tools/crm.ts:40-54 | A contact given only a name and type is stored as "identified", priority 3, with every optional column null |
| `CrmTools.AddContact` | iisf-site/my-agent-app/src/tools/crm.ts:38-57 | The tool throws iff the Supabase URL or key is missing; an insert error is returned as its message; otherwise the id, name and stage read back are returned |
| `CrmTools.ResolveId` | iisf-site/my-agent-app/src/tools/crm.ts:79-85 | A non-empty contact id wins; otherwise a non-empty name is looked up and a miss names it in the error; with neither, "Provide contact_id or name"; a resolved id is non-empty and is the given id or the lookup's |
| `CrmTools.IdBeatsName` | iisf-site/my-agent-app/src/tools/crm.ts:79-80 | Once a contact id is given, the name and its lookup make no difference |
| `CrmTools.AppendNotes` | iisf-site/my-agent-app/src/tools/crm.ts:96-97 | With no stored notes the new notes replace them; otherwise the result is the stored notes, a newline, then the new notes |
| `CrmTools.UpdateFields` | iisf-site/my-agent-app/src/tools/crm.ts:88-98 | The update lists each supplied column once, in the order stage, priority, next_action, next_action_date, notes, with its value |
| `CrmTools.BuildUpdates` | iisf-site/my-agent-app/src/tools/crm.ts:88-98 | The sequence of `if` statements builds exactly the map and key list of the update fields above |
| `CrmTools.Put` | iisf-site/my-agent-app/src/tools/crm.ts:89-97 | One assignment extends the map and its insertion-ordered keys by that column's entry and nothing else |
| `CrmTools.FieldMapValues` | iisf-site/my-agent-app/src/tools/crm.ts:88-98 | For fields in strictly ascending column order, the map holds each field's value |
| `CrmTools.FieldMapKeys` | iisf-site/my-agent-app/src/tools/crm.ts:88-98 | The map has no key other than the columns of the fields written |
| `CrmTools.UpdatesWritten` | iisf-site/my-agent-app/src/tools/crm.ts:88-98 | A column is in the update map iff it was supplied, and then with its value |
| `CrmTools.NotesAppended` | iisf-site/my-agent-app/src/tools/crm.ts:93-98 | Supplied notes are written as the stored notes, a newline and the new notes |
| `CrmTools.UpdateStatus` | iisf-site/my-agent-app/src/tools/crm.ts:75-105 | Missing configuration throws; an unresolved contact returns its error; no supplied field returns "No fields to update"; success happens iff a contact resolves, a field is supplied and the write succeeds, and then lists the resolved id and the written columns in order |
| `CrmTools.UpdatedColumnsAreSupplied` | iisf-site/my-agent-app/src/tools/crm.ts:104 | A column is listed as updated iff it was supplied |
| `CrmTools.ColumnNamesDistinct` | iisf-site/my-agent-app/src/tools/crm.ts:88-98 | Distinct columns have distinct names, so the `updated` list has no duplicates |
| `CrmTools.AddNote` | iisf-site/my-agent-app/src/tools/crm.ts:120-138 | Missing configuration throws; an unresolved contact returns its error; a note is logged iff the contact resolves and the insert succeeds, and reports the interaction id, the contact id and the type |
| `CrmTools.QueryOf` | iisf-site/my-agent-app/src/tools/crm.ts:156-163 | The limit is the given one or 50, and there are at most four filters |
| `CrmTools.QueryTypeFilter` | iisf-site/my-agent-app/src/tools/crm.ts:158 | The type filter is applied iff a non-empty type is given |
| `CrmTools.QueryStageFilter` | iisf-site/my-agent-app/src/tools/crm.ts:159 | The stage filter is applied iff a non-empty stage is given |
| `CrmTools.QueryPriorityFilter` | iisf-site/my-agent-app/src/tools/crm.ts:160 | A priority filter is applied iff min_priority is non-zero, and its bound is min_priority |
| `CrmTools.QuerySearchFilter` | iisf-site/my-agent-app/src/tools/crm.ts:161 | A search filter is applied iff a non-empty search term is given, and its term is that one |
| `CrmTools.ActivityMapMeans` | iisf-site/my-agent-app/src/tools/crm.ts:175-183 | The interaction map has a key for each contact with interactions, counting them and keeping the summary of the first one listed |
| `CrmTools.InteractionMap` | iisf-site/my-agent-app/src/tools/crm.ts:175-183 | The loop over the interactions builds exactly that map |
| `CrmTools.StageSummary` | iisf-site/my-agent-app/src/tools/crm.ts:186-190 | The loop builds exactly the tally of the stages |
| `CrmTools.RunQuery` | iisf-site/my-agent-app/src/tools/crm.ts:154-214 | Missing configuration throws; otherwise the tool returns the answer built from the contacts, interactions and stage rows |
| `CrmTools.QueryReports` | iisf-site/my-agent-app/src/tools/crm.ts:192-212 | In a non-empty answer every stage count is the number of contacts in that stage, and a contact with interactions reports the summary of its first listed interaction |
| `CrmRoute.ListQuery` | iisf-site/app/api/ops/crm/route.ts:21-25 | The listing is limited to 100; type, stage and search filters are applied iff given; there is never a priority filter |
| `CrmRoute.Summaries` | iisf-site/app/api/ops/crm/route.ts:31-37 | The loop builds exactly the stage tally and the type tally |
| `CrmRoute.CountsObject` | iisf-site/app/api/ops/crm/route.ts:32-33 | The JSON summary object has the tally's keys, each with its count |
| `CrmRoute.List` | iisf-site/app/api/ops/crm/route.ts:12-43 | A query error is a 500 with its message; otherwise 200 with the contacts (none for null) and the stage and type summaries and total |
| `CrmRoute.SummaryAddsUp` | iisf-site/app/api/ops/crm/route.ts:31-41 | The stage counts and the type counts each add up to the total, and each count is the number of rows with that value |
| `CrmRoute.Destructure` | iisf-site/app/api/ops/crm/route.ts:48 | Destructuring throws iff the body is unreadable or null; otherwise it splits off id and keeps every other field |
| `CrmRoute.PatchUpdate` | iisf-site/app/api/ops/crm/route.ts:48-51 | An update exists only for an object with a truthy id, and writes every field except id to that id |
| `CrmRoute.Patch` | iisf-site/app/api/ops/crm/route.ts:46-54 | An unreadable or null body is unhandled; no truthy id is a 400 "id required"; a write error is a 500 with its message; 200 ok iff an update exists and the write succeeds |
| `CrmRoute.PatchKeepsOtherFields` | iisf-site/app/api/ops/crm/route.ts:48-51 | Every field other than id is written unchanged, and no field is added |
| `CrmRoute.FalsyIdRefused` | iisf-site/app/api/ops/crm/route.ts:49 | A missing or falsy id is refused with 400 "id required" whatever the database would do |
| `OpsProxy.OpsHostNames` | iisf-site/proxy.ts:12-19 | A host is an ops host iff it starts with "ops.intersectionalsafety.org" or "ops.localhost" (the port is dropped before matching) |
| `OpsProxy.RewriteTarget` | iisf-site/proxy.ts:22 | A rewritten path always lies under /ops ("/" becomes "/ops") |
| `OpsProxy.Proxy` | iisf-site/proxy.ts:14-39 | A request to an ops host outside /ops, /api/ops and /_next is rewritten under /ops; otherwise a gated path without the password cookie is redirected to the login page with "from" set to the path; else it passes through |
| `OpsProxy.NoPasswordNoGate` | iisf-site/proxy.ts:30 | With OPS_PASSWORD unset or empty nothing is ever redirected |
| `OpsProxy.OpsHostRootBypassesGate` | iisf-site/proxy.ts:19-24 | On the ops host "/" is rewritten to the gated dashboard "/ops" and served without a cookie although a password is set |
| `OpsProxy.GatedProxy` | iisf-site/proxy.ts:14-39 | The corrected proxy applies the gate to the path it will serve: it redirects iff that path is gated and the cookie does not match, and rewrites otherwise when the host calls for it |
| `OpsProxy.GatedProxyProtects` | iisf-site/proxy.ts:26-36 | The corrected proxy serves a gated page only to a request whose cookie matches the password |
| `OpsProxy.GatedProxyAgreesOffOpsHost` | iisf-site/proxy.ts:26-38 | Wherever no rewrite happens, the corrected proxy decides exactly like the original |
| `OpsAuth.Login` | iisf-site/app/api/ops/auth/route.ts:3-24 | A null or unreadable body throws; no password configured is a 500; a different password is a 401; a cookie is set iff the status is 200, and then it is ops_session holding the password, httpOnly, secure in production, lax, path "/", seven days |
| `OpsAuth.AfterLogin` | iisf-site/app/api/ops/auth/route.ts:16-22 | A reply with a cookie replaces the browser's session; any other reply leaves the browser unchanged |
| `OpsAuth.LoginOpensGate` | iisf-site/app/api/ops/auth/route.ts:15-23 | After a successful login no path is redirected to the login page, by the proxy as written or as corrected |
| `OpsAuth.FailedLoginKeepsRefusal` | iisf-site/app/api/ops/auth/route.ts:7-13 | A failed login leaves the browser as it was, so a refused browser is still redirected from gated pages |
| `IndexNowTool.InvalidUrls` | iisf-site/my-agent-app/src/tools/indexnow.ts:32-34 | A URL is listed as invalid iff it is one of the submitted URLs and does not contain "intersectionalsafety.org"; order and repetitions are stated by `IndexNowTool.InvalidUrlsAppend` |
| `IndexNowTool.InvalidSingle` | iisf-site/my-agent-app/src/tools/indexnow.ts:32-34 | A single URL is listed exactly when it lacks the domain |
| `IndexNowTool.InvalidUrlsAppend` | iisf-site/my-agent-app/src/tools/indexnow.ts:32-34 | The invalid URLs of a concatenation are those of each part, in order; with the single-URL case this makes the list the in-order filter, repetitions kept |
| `IndexNowTool.StatusMessage` | iisf-site/my-agent-app/src/tools/indexnow.ts:64-72 | Statuses 400, 403, 422 and 429 get their own non-empty explanation; any other status reports the response's status text |
| `IndexNowTool.MappedStatusesIgnoreText` | iisf-site/my-agent-app/src/tools/indexnow.ts:64-72 | For the four mapped statuses the status text makes no difference |
| `IndexNowTool.Refusal` | iisf-site/my-agent-app/src/tools/indexnow.ts:26-39 | A missing key is refused first; then any off-site URL refuses the whole batch, naming the invalid URLs; nothing is refused iff the key is set and every URL is on the site |
| `IndexNowTool.Outcome` | iisf-site/my-agent-app/src/tools/indexnow.ts:55-78 | Success iff the endpoint answers OK, reporting every URL and their count; another answer reports the status and its message; a thrown fetch reports the error |
| `IndexNowTool.Submit` | iisf-site/my-agent-app/src/tools/indexnow.ts:25-80 | A refused call sends nothing; a request is sent iff the key is set and every URL is on the site, and then carries the site host, key, key location and the URLs unchanged |
| `IndexNowTool.OffSiteUrlNamed` | iisf-site/my-agent-app/src/tools/indexnow.ts:32-39 | A single off-site URL stops the submission, and the error message names it |
| `Sitemap.AbsoluteUrl` | iisf-site/app/sitemap.ts:34-36 | The URL is the site followed by the path, character for character |
| `Sitemap.ToDate` | iisf-site/app/sitemap.ts:38-42 | A missing, empty or unparsable date gives the current time; otherwise the parsed date |
| `Sitemap.PostPages` | iisf-site/app/sitemap.ts:63-70 | At most one entry per post, each weekly with priority 0.7 |
| `Sitemap.PostPagesListed` | iisf-site/app/sitemap.ts:63-70 | Every post with a non-empty slug gets its /blog/ entry |
| `Sitemap.PostPagesFromListings` | iisf-site/app/sitemap.ts:63-70 | Every entry is the entry of some post with a non-empty slug |
| `Sitemap.PostPagesAppend` | iisf-site/app/sitemap.ts:63-70 | The entries of two runs of posts are the entries of each, in order: the listing keeps the posts' order |
| `Sitemap.CmsPostListed` | iisf-site/app/sitemap.ts:63-70 | Every CMS post with a non-empty slug is listed under /blog/ with its updated-or-published date, weekly, priority 0.7 |
| `Sitemap.CmsEntryIsPost` | iisf-site/app/sitemap.ts:63-70 | Every CMS entry is that entry of a CMS post with a non-empty slug |
| `Sitemap.LocalPostListed` | iisf-site/app/sitemap.ts:73-81 | Every local post with a non-empty slug is listed under /blog/ with its date |
| `Sitemap.LocalEntryIsPost` | iisf-site/app/sitemap.ts:73-81 | Every local entry is that entry of a local post with a non-empty slug |
| `Sitemap.Sitemap` | iisf-site/app/sitemap.ts:44-90 | The sitemap has no two entries with the same URL and lists exactly the URLs of the static and blog pages |
| `Sitemap.StaticPathsDistinct` | iisf-site/app/sitemap.ts:21-30 | The static routes have distinct paths |
| `Sitemap.StaticUrlsDistinct` | iisf-site/app/sitemap.ts:45-50 | So the static entries have distinct URLs |
| `Sitemap.SitemapFilters` | iisf-site/app/sitemap.ts:85-87 | The sitemap is the static-then-blog list with every entry whose URL occurred earlier removed |
| `Sitemap.DistinctPrefixKept` | iisf-site/app/sitemap.ts:85-87 | The first-occurrence filter keeps a prefix of distinct entries whole |
| `Sitemap.StaticPagesFirst` | iisf-site/app/sitemap.ts:45-50 | Every static page appears, unchanged, at the head of the sitemap |
| `Sitemap.BlogPagesUnderBlog` | iisf-site/app/sitemap.ts:63-81 | Every blog entry's URL is under the site's /blog/ |
| `Sitemap.LegalNotListed` | iisf-site/app/sitemap.ts:26 | The noindex /legal page is not among the static or blog URLs |
| `Sitemap.LegalAbsent` | iisf-site/app/sitemap.ts:26 | The sitemap never lists /legal |
| `Sitemap.FallbackListsLocalPosts` | iisf-site/app/sitemap.ts:71-82 | When the CMS is unavailable, every local post with a slug is listed |
| `Sitemap.EmptySlugsSkipped` | iisf-site/app/sitemap.ts:63-81 | No blog entry, from the CMS or the local posts, has the empty-slug URL "/blog/" |
| `Blog.MdxFiles` | iisf-site/lib/blog.ts:14 | A file is kept iff it is in the directory and ends in ".mdx" |
| `Blog.SlugOf` | iisf-site/lib/blog.ts:17 | The slug is the file name without its ".mdx" suffix |
| `Blog.PostOf` | iisf-site/lib/blog.ts:16-26 | A post has its file's slug, the title (or the slug), the date (or "") and the description of its metadata |
| `Blog.BeforeTotal` | iisf-site/lib/blog.ts:28 | String order on dates is total and antisymmetric |
| `Blog.BeforeTransitive` | iisf-site/lib/blog.ts:28 | String order on dates is transitive |
| `Blog.Insert` | iisf-site/lib/blog.ts:28 | Insertion adds the post and loses nothing |
| `Blog.SortByDate` | iisf-site/lib/blog.ts:28 | Sorting is a permutation of the posts |
| `Blog.InsertDescending` | iisf-site/lib/blog.ts:28 | Inserting into a newest-first list keeps it newest-first |
| `Blog.NotBeforeChain` | iisf-site/lib/blog.ts:28 | "Not earlier than" is transitive |
| `Blog.SortDescending` | iisf-site/lib/blog.ts:28 | The sorted list is newest-first |
| `Blog.AllPosts` | iisf-site/lib/blog.ts:13-29 | The posts are newest-first, a permutation of the posts of the ".mdx" files, and each comes from a file in the directory |
| `Blog.OnePostPerFile` | iisf-site/lib/blog.ts:14-26 | Every ".mdx" file's post is listed |
| `Rss.Link` | iisf-site/app/rss.xml/route.ts:23 | The link is the blog base URL followed by the slug |
| `Rss.Description` | iisf-site/app/rss.xml/route.ts:25 | A missing excerpt gives an empty CDATA description |
| `Rss.Item` | iisf-site/app/rss.xml/route.ts:19-26 | Each item is a newline-indented `<item>` element; what it carries is stated by `Rss.ItemCarriesPost` |
| `Rss.ItemCarriesPost` | iisf-site/app/rss.xml/route.ts:19-26 | An item contains the title as CDATA in `<title>`, the post link in `<link>`, the rendered date in `<pubDate>` and the description |
| `Rss.ItemsAppend` | iisf-site/app/rss.xml/route.ts:18-28 | The items of two post lists are the concatenation of their items |
| `Rss.Feed` | iisf-site/app/rss.xml/route.ts:15-46 | The response is 200 with the RSS content type; the body is the channel header, exactly the items, and the channel footer |
| `Rss.ItemInPlace` | iisf-site/app/rss.xml/route.ts:18-28 | Each post's item sits between the items of the posts before it and after it |
| `Rss.MissingExcerptIsEmpty` | iisf-site/app/rss.xml/route.ts:25 | A post without an excerpt has an empty description in its item |
| `EmailDraft.ParagraphHtml` | iisf-site/my-agent-app/src/tools/email-draft.ts:36 | A paragraph becomes one `<p>` element with no newline in it; a blank paragraph becomes `<p></p>` |
| `EmailDraft.BodyLines` | iisf-site/my-agent-app/src/tools/email-draft.ts:33-37 | The HTML body has one line per non-empty paragraph, each that paragraph's element |
| `EmailDraft.BlankParagraphKept` | iisf-site/my-agent-app/src/tools/email-draft.ts:35-36 | A body of white space only survives `filter(Boolean)` and becomes an empty `<p></p>` |
| `EmailDraft.FrameEnds` | iisf-site/my-agent-app/src/tools/email-draft.ts:39-48 | The template starts with "<" and ends with ">", so the outer `trim` leaves the body untouched |
| `EmailDraft.Html` | iisf-site/my-agent-app/src/tools/email-draft.ts:39-48 | The e-mail is the header, the paragraph HTML and the footer |
| `EmailDraft.RequestOf` | iisf-site/my-agent-app/src/tools/email-draft.ts:51-64 | The request goes to the recipient, copies the board, keeps the subject, carries the HTML and the bearer key, and sets X-Priority iff urgency is high |
| `EmailDraft.Reply` | iisf-site/my-agent-app/src/tools/email-draft.ts:67-82 | Success iff Resend accepts, with the e-mail id, recipient, subject and message; a refusal reports status and body; a thrown fetch reports the error |
| `EmailDraft.Draft` | iisf-site/my-agent-app/src/tools/email-draft.ts:26-83 | Without an API key nothing is sent and the key error is returned; otherwise exactly the request above is sent and the reply reports its answer |
| `EmailDraft.SuccessNamesRecipient` | iisf-site/my-agent-app/src/tools/email-draft.ts:72-79 | A successful send names the recipient in its message and copied the board |
| `Paragraphs.FirstBreak` | iisf-site/my-agent-app/src/tools/email-draft.ts:34 | The first position of two consecutive line feeds, or none iff there is no such pair |
| `Paragraphs.RunEnd` | iisf-site/my-agent-app/src/tools/email-draft.ts:34 | The end of a run of line feeds |
| `Paragraphs.LineFeeds` | iisf-site/my-agent-app/src/tools/email-draft.ts:34 | A string of n line feeds |
| `Paragraphs.Split` | iisf-site/my-agent-app/src/tools/email-draft.ts:34 | The pieces between runs of two or more line feeds: one more piece than gaps, and no piece holds a double line feed |
| `Paragraphs.GapsWide` | iisf-site/my-agent-app/src/tools/email-draft.ts:34 | Each separator taken out is at least two line feeds wide |
| `Paragraphs.PiecesStartClean` | iisf-site/my-agent-app/src/tools/email-draft.ts:34 | The separator is greedy: no piece after one starts with a line feed |
| `Paragraphs.PiecesEndClean` | iisf-site/my-agent-app/src/tools/email-draft.ts:34 | The separator starts at the first line feed: no piece before one ends with a line feed |
| `Paragraphs.SplitWeave` | iisf-site/my-agent-app/src/tools/email-draft.ts:34 | Putting the pieces back with their gaps gives the original text |
| `Paragraphs.SplitNoBreak` | iisf-site/my-agent-app/src/tools/email-draft.ts:34 | A text without a double line feed is one piece |
| `Paragraphs.NonEmpty` | iisf-site/my-agent-app/src/tools/email-draft.ts:35 | `filter(Boolean)` keeps exactly the non-empty pieces |
| `Paragraphs.NonEmptyIdempotent` | iisf-site/my-agent-app/src/tools/email-draft.ts:35 | Filtering twice is filtering once |
| `Paragraphs.Of` | iisf-site/my-agent-app/src/tools/email-draft.ts:33-35 | Every paragraph is non-empty and has no double line feed |
| `Paragraphs.PieceKept` | iisf-site/my-agent-app/src/tools/email-draft.ts:33-35 | Every non-empty piece of the split is a paragraph |
| `Paragraphs.SingleParagraph` | iisf-site/my-agent-app/src/tools/email-draft.ts:33-35 | A non-empty text without a double line feed is a single paragraph |
| `Paragraphs.NoParagraphs` | iisf-site/my-agent-app/src/tools/email-draft.ts:33-35 | A text with no paragraphs splits into empty pieces only, and consists of line feeds only |
| `Paragraphs.WeaveOfEmpty` | iisf-site/my-agent-app/src/tools/email-draft.ts:33 | Empty pieces rejoined with their separators give line feeds only |
| `SanityCms.SanityUrl` | iisf-site/my-agent-app/src/tools/sanity-cms.ts:8-10 | The URL is the project's API base, the path, then "/production" |
| `SanityCms.SanityUrlInjective` | iisf-site/my-agent-app/src/tools/sanity-cms.ts:8-10 | Different paths give different URLs |
| `SanityCms.QueryUrl` | iisf-site/my-agent-app/src/tools/sanity-cms.ts:26 | The query URL is the query endpoint with a "query" parameter that decodes to the UTF-8 of the GROQ query |
| `SanityCms.Query` | iisf-site/my-agent-app/src/tools/sanity-cms.ts:24-34 | A result iff the response is OK, and then the result field; a non-OK status and a thrown fetch each report their error |
| `SanityCms.SpansTrimmed` | iisf-site/my-agent-app/src/tools/sanity-cms.ts:77 | Every span is trimmed and holds no double line feed |
| `SanityCms.DraftId` | iisf-site/my-agent-app/src/tools/sanity-cms.ts:83 | The draft id is "drafts." followed by base-36 digits whose value is the clock reading |
| `SanityCms.DraftIdsDiffer` | iisf-site/my-agent-app/src/tools/sanity-cms.ts:83 | Drafts created at different milliseconds get different ids |
| `SanityCms.StudioUrl` | iisf-site/my-agent-app/src/tools/sanity-cms.ts:115 | The studio link starts with the studio base and ends with the id |
| `SanityCms.MutationOf` | iisf-site/my-agent-app/src/tools/sanity-cms.ts:84-106 | The mutation goes to the mutate endpoint with the bearer token and holds one create of the draft with title, slug, date, excerpt and blocks |
| `SanityCms.CreateDraft` | iisf-site/my-agent-app/src/tools/sanity-cms.ts:56-122 | Without a token nothing is sent; otherwise exactly the mutation is sent; a draft is created iff Sanity accepts, reporting id, studio link, transaction and message; a refusal and a thrown fetch report their errors |
| `SanityCms.StudioLinksCreatedDraft` | iisf-site/my-agent-app/src/tools/sanity-cms.ts:83-117 | The studio link of a created draft ends with the id of the document the mutation created |
| `ContactRoute.FormOf` | iisf-site/app/api/contact/route.ts:9 | The form's four fields are read from the body by name |
| `ContactRoute.Truthful` | iisf-site/app/api/contact/route.ts:29 | `filter(Boolean)` keeps only truthy values |
| `ContactRoute.MailText` | iisf-site/app/api/contact/route.ts:22-30 | The mail text is the name line, the organization line only when one is given, then "Message:" and the message, one per line (the empty line is dropped) |
| `ContactRoute.KeptEntries` | iisf-site/app/api/contact/route.ts:22-29 | Filtering keeps the name line, the organization line iff one is given, "Message:" and the message |
| `ContactRoute.MailOf` | iisf-site/app/api/contact/route.ts:18-31 | The mail goes to the board with the "[IISF Contact]" subject and the text above |
| `ContactRoute.Post` | iisf-site/app/api/contact/route.ts:7-49 | A null or unreadable body is a 500; a missing name, subject or message is a 400 and sends nothing; mail is sent iff the form is complete; 200 iff it was sent and Resend reports no error |
| `ContactRoute.OrganizationOptional` | iisf-site/app/api/contact/route.ts:24 | With plain strings the text has an organization line iff a non-empty organization is given |
| `ContactRoute.RequiredFields` | iisf-site/app/api/contact/route.ts:11-16 | A form missing its name or message is refused with 400 whatever Resend would do |
| `OpsIntel.ExecuteAsWritten` | iisf-site/my-agent-app/src/tools/ops-intel.ts:417-426 | "all_sections" lists the keys; a key gives its text; an inherited member name such as "toString" yields that member; anything else gives the not-found message |
| `OpsIntel.InheritedNameNotReported` | iisf-site/my-agent-app/src/tools/ops-intel.ts:421-422 | Asking for "toString" returns the inherited function instead of the not-found message |
| `OpsIntel.Execute` | iisf-site/my-agent-app/src/tools/ops-intel.ts:417-426 | Corrected lookup: "all_sections" lists the keys, a key gives its text, and every other name gives the not-found message |
| `OpsIntel.UnknownSectionNamed` | iisf-site/my-agent-app/src/tools/ops-intel.ts:422-424 | The not-found message names the section asked for |
| `OpsIntel.NineKeys` | iisf-site/my-agent-app/src/tools/ops-intel.ts:9-400 | The table has nine distinct keys, none of them "all_sections" |
| `OpsIntel.ListingLines` | iisf-site/my-agent-app/src/tools/ops-intel.ts:418-420 | The listing is the header followed by the keys, one per line |
| `OpsIntel.FundingScoutSectionsMissing` | iisf-site/my-agent-app/src/tools/ops-intel.ts:422-424 | The six extra funding sections the funding agent asks for are all reported as not found |
| `SeoLint.MissingToken` | iisf-site/scripts/seo-lint.mjs:27 | The message is the file path, the fixed infix and then exactly the missing token |
| `SeoLint.MissingTokenInjective` | iisf-site/scripts/seo-lint.mjs:27 | Two missing-token messages for one file are equal only for the same token |
| `SeoLint.Absent` | iisf-site/scripts/seo-lint.mjs:25-29 | The absent needles, in order: each is one of the needles and does not occur in the file |
| `SeoLint.AbsentComplete` | iisf-site/scripts/seo-lint.mjs:25-29 | Every needle that does not occur in the file is listed |
| `SeoLint.AbsentNone` | iisf-site/scripts/seo-lint.mjs:25-29 | A file holding every needle yields no missing-token failure |
| `SeoLint.MissingTokens` | iisf-site/scripts/seo-lint.mjs:25-29 | One failure per absent needle, in needle order, each naming its needle |
| `SeoLint.MissingTokenReported` | iisf-site/scripts/seo-lint.mjs:25-29 | A needle's message is among the failures exactly when the needle is absent |
| `SeoLint.MissingFileOnly` | iisf-site/scripts/seo-lint.mjs:12-23 | A missing file yields the single missing-file failure and no token checks |
| `SeoLint.IncludeFailuresOfText` | iisf-site/scripts/seo-lint.mjs:21-34 | A non-empty file yields its missing-token failures, followed by the localhost failure exactly when it mentions "http://localhost" or "127.0.0.1" |
| `SeoLint.LocalhostNotToken` | iisf-site/scripts/seo-lint.mjs:27-32 | The localhost failure can never be mistaken for a missing-token failure |
| `SeoLint.EmptyFilePasses` | iisf-site/scripts/seo-lint.mjs:23 | An existing but empty file passes every check of its list |
| `SeoLint.KeyOf` | iisf-site/scripts/seo-lint.mjs:89 | The key is the name without a ".txt" suffix in any case; a key file gives its 32-character key |
| `SeoLint.KeyFiles` | iisf-site/scripts/seo-lint.mjs:81-83 | Only entries whose name is 32 hex digits plus ".txt" (any case) are kept |
| `SeoLint.KeyFilesComplete` | iisf-site/scripts/seo-lint.mjs:81-83 | Every entry with a key-file name is kept |
| `SeoLint.Mismatched` | iisf-site/scripts/seo-lint.mjs:88-94 | The key files whose trimmed content differs from their key, in order |
| `SeoLint.KeyMismatchesSnoc` | iisf-site/scripts/seo-lint.mjs:88-94 | One more key file adds its mismatch failure exactly when its content differs |
| `SeoLint.KeyMismatchesNameFiles` | iisf-site/scripts/seo-lint.mjs:88-94 | One failure per mismatched key file, each naming that file |
| `SeoLint.MismatchedComplete` | iisf-site/scripts/seo-lint.mjs:88-94 | Every key file whose content differs from its key is reported |
| `SeoLint.Linter.constructor` | iisf-site/scripts/seo-lint.mjs:5-6 | The run starts with no failures and no notes |
| `SeoLint.Linter.ReadFile` | iisf-site/scripts/seo-lint.mjs:12-19 | An existing file gives its content and no failure; a missing one gives "" and appends the missing-file failure; notes unchanged |
| `SeoLint.Linter.CheckTokens` | iisf-site/scripts/seo-lint.mjs:25-29 | The failures grow by one missing-token failure per absent needle, in needle order; notes unchanged |
| `SeoLint.Linter.CheckKeyFiles` | iisf-site/scripts/seo-lint.mjs:88-94 | The failures grow by one mismatch failure per key file whose trimmed content differs from its key, in order; notes unchanged |
| `SeoLint.Linter.RequireIncludes` | iisf-site/scripts/seo-lint.mjs:21-34 | The failures grow by exactly the file's include failures; notes unchanged |
| `SeoLint.Linter.CheckPublic` | iisf-site/scripts/seo-lint.mjs:79-99 | The failures grow by the public-directory failures and the notes by the key-file listing |
| `SeoLint.Run` | iisf-site/scripts/seo-lint.mjs:36-107 | The collected failures and notes are those of the whole lint, and the exit code is 1 exactly when there is a failure, 0 otherwise |
| `SeoLint.FileFailuresSnoc` | iisf-site/scripts/seo-lint.mjs:36-77 | Running one more file check appends exactly that check's failures |
| `SeoLint.IncludePasses` | iisf-site/scripts/seo-lint.mjs:21-34 | A file check passes exactly when the file exists and is empty, or holds every needle and no localhost URL |
| `SeoLint.FileFailuresEmpty` | iisf-site/scripts/seo-lint.mjs:36-77 | Any list of file checks yields no failure exactly when every check in it passes |
| `SeoLint.PublicPasses` | iisf-site/scripts/seo-lint.mjs:79-99 | The public check passes exactly when the directory exists, holds a key file, and every key file matches its key |
| `SeoLint.NoMismatchIff` | iisf-site/scripts/seo-lint.mjs:88-94 | No mismatch failure exactly when every key file matches |
| `SeoLint.ExitZeroIff` | iisf-site/scripts/seo-lint.mjs:101-107 | The lint exits 0 exactly when every file check passes and the public directory has matching key files |
| `SeoLint.KeyFileNameAnyCase` | iisf-site/scripts/seo-lint.mjs:83 | The key-file pattern is case-insensitive: upper- and lower-cased key-file names still match |
| `SeoLint.SiteKeyFile` | iisf-site/scripts/seo-lint.mjs:83-89 | The site's key-file name matches the pattern and yields its 32-digit key |
| `OpsChatPage.LineDeltaOnlyTextDeltas` | iisf-site/app/ops/chat/page.tsx:60-71 | A line adds text only if it starts with "data: ", its payload parses, the event's type is "text-delta" and its `textDelta` is truthy; the text added is that delta |
| `OpsChatPage.CollectedAppend` | iisf-site/app/ops/chat/page.tsx:59-73 | The text gathered from two runs of lines is the first run's text followed by the second's |
| `OpsChatPage.LinesTextSnoc` | iisf-site/app/ops/chat/page.tsx:59-73 | One more line adds exactly its own delta to the text |
| `OpsChatPage.LinesTextAppend` | iisf-site/app/ops/chat/page.tsx:59-73 | The text of concatenated line lists is the concatenation of their texts |
| `OpsChatPage.ChunkLinesAppend` | iisf-site/app/ops/chat/page.tsx:54-59 | Each chunk is split on its own, so the lines of two chunk lists are the lines of the first then of the second |
| `OpsChatPage.StreamTextAppend` | iisf-site/app/ops/chat/page.tsx:54-74 | The text read from a stream is the text of its first chunks followed by that of the rest |
| `OpsChatPage.NoDataNoText` | iisf-site/app/ops/chat/page.tsx:60 | Lines none of which starts with "data: " add no text |
| `OpsChatPage.LastReplaced` | iisf-site/app/ops/chat/page.tsx:65-69 | Same number of messages, all but the last unchanged, the last keeps its fields except the new content |
| `OpsChatPage.LastReplacedAppended` | iisf-site/app/ops/chat/page.tsx:51-69 | After the placeholder is appended, replacing the last content touches only the placeholder |
| `OpsChatPage.LastReplacedTwice` | iisf-site/app/ops/chat/page.tsx:65-69 | Replacing the last content twice leaves the second content, so each delta overwrites the previous full text |
| `OpsChatPage.ReplyText` | iisf-site/app/ops/chat/page.tsx:85 | The reply is the truthy `text`, else the truthy `output`, else "Task completed." |
| `OpsChatPage.RepliesShape` | iisf-site/app/ops/chat/page.tsx:46-90 | Every reply appends one or two messages, the first from the assistant; two exactly when a stream fails while being read; an exception, an error status or an unparsable body append only the warning |
| `OpsChatPage.StreamReplyNotEmpty` | iisf-site/app/ops/chat/page.tsx:75-81 | A completed stream never leaves the assistant message empty: it holds the streamed text, or the no-text reply when there was none |
| `OpsChatPage.OpsChat.constructor` | iisf-site/app/ops/chat/page.tsx:13-21 | The page opens with the one welcome system message, an empty input, not loading, and the conversation id "ops_" followed by the mount time |
| `OpsChatPage.OpsChat.SetInput` | iisf-site/app/ops/chat/page.tsx:19 | Typing sets the input and changes nothing else |
| `OpsChatPage.OpsChat.ReadStream` | iisf-site/app/ops/chat/page.tsx:54-74 | The read loop's full text is the stream's text, and the last message shows exactly that text |
| `OpsChatPage.OpsChat.ReadLines` | iisf-site/app/ops/chat/page.tsx:59-73 | The line loop extends the text read so far by the lines' text and keeps the last message equal to it |
| `OpsChatPage.OpsChat.ReceiveStream` | iisf-site/app/ops/chat/page.tsx:48-81 | The streaming branch appends exactly the stream's replies; input and loading unchanged |
| `OpsChatPage.OpsChat.Receive` | iisf-site/app/ops/chat/page.tsx:46-90 | Whichever way the answer arrives, the messages grow by exactly its replies |
| `OpsChatPage.OpsChat.Submit` | iisf-site/app/ops/chat/page.tsx:35-92 | Posts the trimmed input with the conversation id, appends the user's message and then the replies, clears the input and ends not loading |
| `OpsChatPage.OpsChat.SendMessage` | iisf-site/app/ops/chat/page.tsx:31-93 | A blank input or a request in flight changes nothing and sends nothing; otherwise it behaves as a submission of the trimmed input |
| `OpsChatPage.BufferedLinesOfWhole` | iisf-site/app/ops/chat/page.tsx:57-59 | A reader that carries a chunk's unfinished line into the next chunk sees the lines of the whole stream text, wherever it was cut |
| `OpsChatPage.BufferedTextChunkingIrrelevant` | iisf-site/app/ops/chat/page.tsx:57-59 | With that reader, two streams carrying the same text give the same reply text |
| `OpsChatPage.DataLineDelta` | iisf-site/app/ops/chat/page.tsx:60-64 | A "data: " line whose payload is a text-delta event with a non-empty delta adds that delta |
| `OpsChatPage.DeltaOfLine` | iisf-site/app/ops/chat/page.tsx:60-64 | The sample event line adds "Hi" |
| `OpsChatPage.EventCutAcrossChunksIsLost` | iisf-site/app/ops/chat/page.tsx:57-59 | As written, the sample event read in one chunk gives "Hi", but the same event cut into two chunks gives no text |
| `OpsChatPage.BufferedKeepsCutEvent` | iisf-site/app/ops/chat/page.tsx:57-59 | The buffered reader gives "Hi" for the event cut into two chunks |
| `OpsChatPage.BufferedOneLine` | iisf-site/app/ops/chat/page.tsx:57-59 | One line without a line feed, spread over any number of chunks, gives that line's text |
| `VerifyPage.Without` | iisf-site/app/ops/verify/page.tsx:44 | Filtering removes every copy of the id, keeps only earlier members, and never lengthens the selection |
| `VerifyPage.WithoutKeeps` | iisf-site/app/ops/verify/page.tsx:44 | Every other selected agent stays selected |
| `VerifyPage.Toggle` | iisf-site/app/ops/verify/page.tsx:42-46 | The id is selected afterwards exactly when it was not before; an unselected id is appended at the end; nothing else is added |
| `VerifyPage.ToggleOthers` | iisf-site/app/ops/verify/page.tsx:42-46 | Toggling one agent never changes whether another is selected |
| `VerifyPage.WithoutDistinct` | iisf-site/app/ops/verify/page.tsx:44 | Removing an id keeps a selection without duplicates |
| `VerifyPage.ToggleKeepsDistinct` | iisf-site/app/ops/verify/page.tsx:42-46 | Toggling keeps a selection without duplicates |
| `VerifyPage.WithoutAbsent` | iisf-site/app/ops/verify/page.tsx:44 | Removing an id that is not selected leaves the selection as it was |
| `VerifyPage.WithoutAppended` | iisf-site/app/ops/verify/page.tsx:44 | Removing an id just appended restores the previous selection |
| `VerifyPage.ToggleTwiceAbsent` | iisf-site/app/ops/verify/page.tsx:42-46 | Toggling an unselected agent twice restores the selection |
| `VerifyPage.ToggleTwicePresent` | iisf-site/app/ops/verify/page.tsx:42-46 | Toggling a selected agent twice keeps the same members but moves that agent to the end |
| `VerifyPage.ToggleTwiceReorders` | iisf-site/app/ops/verify/page.tsx:38-46 | On the opening selection, toggling "iisf-ops" twice gives ["iisf-assistant", "iisf-ops"], a different order |
| `VerifyPage.ButtonMatchesGuard` | iisf-site/app/ops/verify/page.tsx:49-109 | The run button is disabled exactly when the run's guard would return at once |
| `VerifyPage.RunVerification` | iisf-site/app/ops/verify/page.tsx:48-66 | A request is made exactly when the input is not blank, two agents are selected and nothing is loading; it carries the trimmed input and the selection; otherwise the page is unchanged; after a run the result is the parsed answer when there is one, else none, and loading is over |
| `VerifyPage.OpeningStateRuns` | iisf-site/app/ops/verify/page.tsx:19-57 | From the opening page, any non-blank input sends both agent options |
| `VerifyPage.RunNeedsBoth` | iisf-site/app/ops/verify/page.tsx:19-49 | A runnable selection without duplicates drawn from the two options holds both of them |
| `PipelinePage.InStage` | iisf-site/app/ops/pipeline/page.tsx:77 | A column lists only contacts of that stage, and no more of them than the list holds |
| `PipelinePage.InStageDrawn` | iisf-site/app/ops/pipeline/page.tsx:77 | Every contact of a column comes from the contact list |
| `PipelinePage.InStageComplete` | iisf-site/app/ops/pipeline/page.tsx:77 | Every contact appears in the column of its own stage |
| `PipelinePage.InStageAppend` | iisf-site/app/ops/pipeline/page.tsx:77 | A column of two concatenated lists is the column of the first followed by that of the second |
| `PipelinePage.GroupedOver` | iisf-site/app/ops/pipeline/page.tsx:76-79 | The grouping has one entry per stage and no other, each the column of that stage |
| `PipelinePage.InItsColumn` | iisf-site/app/ops/pipeline/page.tsx:76-79 | A contact is in the column of a known stage exactly when that is its stage |
| `PipelinePage.UnknownStageHidden` | iisf-site/app/ops/pipeline/page.tsx:76-79 | A contact whose stage is not one of the ten appears in no column |
| `PipelinePage.Occupied` | iisf-site/app/ops/pipeline/page.tsx:87 | The stages counted in the header are among the stages filtered, each with a non-empty column |
| `PipelinePage.StageCount` | iisf-site/app/ops/pipeline/page.tsx:87 | The header's stage count is at most 10 |
| `PipelinePage.OccupiedIff` | iisf-site/app/ops/pipeline/page.tsx:87 | A stage is counted exactly when some contact is in it |
| `PipelinePage.NoStagesIff` | iisf-site/app/ops/pipeline/page.tsx:87 | The count is 0 exactly when no contact is in a known stage |
| `PipelinePage.MoveTargets` | iisf-site/app/ops/pipeline/page.tsx:173 | The move buttons are exactly the stages other than the contact's own |
| `PipelinePage.OtherStages` | iisf-site/app/ops/pipeline/page.tsx:173 | Filtering out one stage keeps exactly the other stages |
| `PipelinePage.StagesDistinct` | iisf-site/app/ops/pipeline/page.tsx:21-24 | There are ten stages, all different |
| `PipelinePage.OtherStagesCount` | iisf-site/app/ops/pipeline/page.tsx:173 | From distinct stages, filtering removes one when the current stage is among them and none otherwise |
| `PipelinePage.MoveTargetsCount` | iisf-site/app/ops/pipeline/page.tsx:173 | A contact in a known stage gets nine move buttons, one in an unknown stage gets ten |
| `PipelinePage.AlignmentStars` | iisf-site/app/ops/pipeline/page.tsx:163 | No score or 0 shows nothing; 1 to 5 shows five stars, that many filled; any other score makes `repeat` throw |
| `PipelinePage.Params` | iisf-site/app/ops/pipeline/page.tsx:48-50 | The query holds the type exactly when it is non-empty (first), the search exactly when it is non-empty, and nothing else |
| `PipelinePage.ContactsOf` | iisf-site/app/ops/pipeline/page.tsx:53 | The contacts field, or [] when it is missing or null |
| `PipelinePage.MoveStage` | iisf-site/app/ops/pipeline/page.tsx:66-74 | The PATCH body is exactly {id, stage} and the reload uses the current filters |
| `SeoAnalyzer.TitleCheck` | iisf-site/my-agent-app/src/tools/seo-analyzer.ts:28-31 | A title deducts 0, 5 or 10 points: nothing exactly when its JavaScript length (UTF-16 code units) is 30 to 65, 10 exactly when it is below 30; it records an issue exactly when it deducts, and a note otherwise |
| `SeoAnalyzer.MetaCheck` | iisf-site/my-agent-app/src/tools/seo-analyzer.ts:34-40 | The meta description deducts 0, 3, 5 or 15 points: 15 exactly when it is missing or empty, nothing exactly when its length in UTF-16 code units is 120 to 165 |
| `SeoAnalyzer.WordCheck` | iisf-site/my-agent-app/src/tools/seo-analyzer.ts:45-47 | Under 300 words deducts 20, under 800 deducts 5, otherwise nothing, with an issue exactly when points are deducted |
| `SeoAnalyzer.LineStartsFrom` | iisf-site/my-agent-app/src/tools/seo-analyzer.ts:50-51 | There are at most as many line-start matches as positions left |
| `SeoAnalyzer.LineStartsZero` | iisf-site/my-agent-app/src/tools/seo-analyzer.ts:50-51 | No heading is counted exactly when no line starts with the marker |
| `SeoAnalyzer.HeadingCheck` | iisf-site/my-agent-app/src/tools/seo-analyzer.ts:52-53 | 10 points are deducted exactly when there is no "## " heading and more than 300 words |
| `SeoAnalyzer.Occurrences` | iisf-site/my-agent-app/src/tools/seo-analyzer.ts:60-61 | The non-overlapping matches of a non-empty keyword never cover more than the text; an empty keyword matches once per UTF-16 code unit plus once, between `|s| + 1` and `2|s| + 1` times |
| `SeoAnalyzer.EmptyKeywordInEmoji` | iisf-site/my-agent-app/src/tools/seo-analyzer.ts:60-61 | An empty keyword matches three times in one emoji, which is two code units |
| `SeoAnalyzer.OccurrencesZeroIffAbsent` | iisf-site/my-agent-app/src/tools/seo-analyzer.ts:60-64 | A non-empty keyword has no match exactly when it does not occur in the text |
| `SeoAnalyzer.NotContainsShorter` | iisf-site/my-agent-app/src/tools/seo-analyzer.ts:60-61 | A text shorter than the keyword cannot contain it |
| `SeoAnalyzer.DensityHundredths` | iisf-site/my-agent-app/src/tools/seo-analyzer.ts:62 | The density is infinite exactly when there are matches but no words |
| `SeoAnalyzer.DensityRounds` | iisf-site/my-agent-app/src/tools/seo-analyzer.ts:62 | The density in hundredths of a percent is 10000 * matches / words rounded to the nearest integer, halves up |
| `SeoAnalyzer.KeywordCheck` | iisf-site/my-agent-app/src/tools/seo-analyzer.ts:63-66 | A keyword deducts 0, 3 or 5 points, 5 exactly when its lower-cased form never occurs in the lower-cased body |
| `SeoAnalyzer.KeywordChecks` | iisf-site/my-agent-app/src/tools/seo-analyzer.ts:59-67 | One check per keyword, in keyword order |
| `SeoAnalyzer.Slug` | iisf-site/my-agent-app/src/tools/seo-analyzer.ts:72 | The slug is the part of the URL after its last "/" |
| `SeoAnalyzer.SlugChecks` | iisf-site/my-agent-app/src/tools/seo-analyzer.ts:73-76 | The slug passes exactly when it has at most 75 UTF-16 code units, no upper-case letter and no underscore |
| `SeoAnalyzer.AstralTitlePasses` | iisf-site/my-agent-app/src/tools/seo-analyzer.ts:28-31 | A title of 20 characters outside the Basic Multilingual Plane is 40 code units long and passes the length check |
| `SeoAnalyzer.FixedChecksOf` | iisf-site/my-agent-app/src/tools/seo-analyzer.ts:28-53 | Four checks, title, meta, words, headings, deducting at most 10, 15, 20 and 10 points |
| `SeoAnalyzer.Clamp` | iisf-site/my-agent-app/src/tools/seo-analyzer.ts:79 | The score is never negative and is unchanged when it was not |
| `SeoAnalyzer.ClampOfNatural` | iisf-site/my-agent-app/src/tools/seo-analyzer.ts:79 | Clamping a non-negative score leaves it as it was |
| `SeoAnalyzer.GradeMonotone` | iisf-site/my-agent-app/src/tools/seo-analyzer.ts:80 | A higher score never earns a lower grade |
| `SeoAnalyzer.KeywordReport` | iisf-site/my-agent-app/src/tools/seo-analyzer.ts:56-63 | The report has exactly the given keywords as keys, each mapped to its number of case-insensitive occurrences in the body and the density text of that count over the word count |
| `SeoAnalyzer.Density` | iisf-site/my-agent-app/src/tools/seo-analyzer.ts:62-63 | No match gives "0.00%" when there are words and "NaN%" when there are none; otherwise the text of the rounded hundredths |
| `SeoAnalyzer.Analyze` | iisf-site/my-agent-app/src/tools/seo-analyzer.ts:22-90 | The tool's step-by-step scoring returns exactly the scorecard of all its checks |
| `SeoAnalyzer.ReportFrom` | iisf-site/my-agent-app/src/tools/seo-analyzer.ts:79-89 | The running score, issues, notes and keyword report, clamped and graded, make up the scorecard |
| `SeoAnalyzer.KeywordStage` | iisf-site/my-agent-app/src/tools/seo-analyzer.ts:55-68 | The keyword stage applies the keyword checks to the running totals, and the report is non-empty exactly when keywords were given |
| `SeoAnalyzer.CheckKeywords` | iisf-site/my-agent-app/src/tools/seo-analyzer.ts:59-67 | The keyword loop applies every keyword's check in order and fills the report with each keyword's count and density |
| `SeoAnalyzer.KeywordStep` | iisf-site/my-agent-app/src/tools/seo-analyzer.ts:59-67 | One more keyword appends its check and records its match count and density |
| `SeoAnalyzer.ApplyAll` | iisf-site/my-agent-app/src/tools/seo-analyzer.ts:28-77 | Applying checks in order leaves 100 less their total deduction, and their issues and notes in order |
| `SeoAnalyzer.Apply` | iisf-site/my-agent-app/src/tools/seo-analyzer.ts:29-31 | One check lowers the score by its deduction and pushes its issue or note |
| `SeoAnalyzer.Record` | iisf-site/my-agent-app/src/tools/seo-analyzer.ts:29-31 | Appending a check extends the totals and lists by that check alone |
| `SeoAnalyzer.ScoreInRange` | iisf-site/my-agent-app/src/tools/seo-analyzer.ts:25-79 | The final score always lies in 0..100 |
| `SeoAnalyzer.ChecksWithoutKeywords` | iisf-site/my-agent-app/src/tools/seo-analyzer.ts:57 | Without keywords a run is the four fixed checks and then the slug checks |
| `SeoAnalyzer.FixedBound` | iisf-site/my-agent-app/src/tools/seo-analyzer.ts:28-53 | The four fixed checks deduct at most 55 points |
| `SeoAnalyzer.SlugPartBound` | iisf-site/my-agent-app/src/tools/seo-analyzer.ts:71-77 | The URL checks deduct at most 7 points |
| `SeoAnalyzer.FourChecksBound` | iisf-site/my-agent-app/src/tools/seo-analyzer.ts:28-53 | Four checks within their bounds deduct at most 55 points |
| `SeoAnalyzer.FixedDeductionsBound` | iisf-site/my-agent-app/src/tools/seo-analyzer.ts:28-77 | Without keywords a run deducts at most 62 points |
| `SeoAnalyzer.NoKeywordsFloor` | iisf-site/my-agent-app/src/tools/seo-analyzer.ts:25-79 | Without keywords the score is at least 38, so the clamp only matters with keywords |
| `SeoAnalyzer.SlugDeductionsBound` | iisf-site/my-agent-app/src/tools/seo-analyzer.ts:73-75 | A slug loses at most 3 + 2 + 2 = 7 points |
| `SeoAnalyzer.TotalOfConcat` | iisf-site/my-agent-app/src/tools/seo-analyzer.ts:25-79 | The deductions of two runs of checks add up |
| `SeoAnalyzer.ChecksConsistent` | iisf-site/my-agent-app/src/tools/seo-analyzer.ts:28-77 | Every check of a run records an issue exactly when it deducts points |
| `SeoAnalyzer.PartsConsistent` | iisf-site/my-agent-app/src/tools/seo-analyzer.ts:28-77 | The fixed, keyword and URL parts each record an issue exactly when they deduct |
| `SeoAnalyzer.KeywordPartConsistent` | iisf-site/my-agent-app/src/tools/seo-analyzer.ts:57-67 | Every keyword check records an issue exactly when it deducts |
| `SeoAnalyzer.AllConsistentConcat` | iisf-site/my-agent-app/src/tools/seo-analyzer.ts:28-77 | Consistency survives concatenating runs of checks |
| `SeoAnalyzer.AbsentKeywordDeducts` | iisf-site/my-agent-app/src/tools/seo-analyzer.ts:64 | A keyword absent from the body costs exactly 5 points with the not-found issue naming it |
| `VerifyRoute.ReplyText` | iisf-site/app/api/ops/verify/route.ts:82 | The response is truthy or "" |
| `VerifyRoute.QueryAgent` | iisf-site/app/api/ops/verify/route.ts:50-87 | The entry names its agent; without a secret nothing is sent and the error is "IISF_AGENT_SECRET is not configured"; otherwise the requests are those of the two-path fetch; there is no error exactly when the last answer was OK with a JSON body, and then the response is its reply text; an error entry has an empty response |
| `VerifyRoute.AgentIds` | iisf-site/app/api/ops/verify/route.ts:98-101 | A non-empty array is used as given; absent, null or [] falls back to the two top-level agents; any list used is non-empty |
| `VerifyRoute.QueryAll` | iisf-site/app/api/ops/verify/route.ts:101 | One entry per id, in order, each that id's query |
| `VerifyRoute.Responses` | iisf-site/app/api/ops/verify/route.ts:104 | There are never more responses than entries |
| `VerifyRoute.Denominator` | iisf-site/app/api/ops/verify/route.ts:110 | The denominator is at least 1 and at least each word set's size |
| `VerifyRoute.CrossMultiplication` | iisf-site/app/api/ops/verify/route.ts:110-112 | The ratio is below 0.2 exactly when 5 * shared < d, and below 0.4 exactly when 5 * shared < 2d |
| `VerifyRoute.RatioBelow` | iisf-site/app/api/ops/verify/route.ts:110-112 | For a ratio s / d, being below t is 5s < 5td |
| `VerifyRoute.ScaleStrict` | iisf-site/app/api/ops/verify/route.ts:110-112 | Scaling by a positive number keeps a strict comparison |
| `VerifyRoute.AgreementIsRatioTest` | iisf-site/app/api/ops/verify/route.ts:105-113 | The integer test gives the same level as comparing the real overlap ratio with 0.2 and 0.4 |
| `VerifyRoute.AgreementUsesFirstTwo` | iisf-site/app/api/ops/verify/route.ts:106-108 | Only the first two successful responses decide the level |
| `VerifyRoute.DisjointResponsesAreLow` | iisf-site/app/api/ops/verify/route.ts:107-111 | Two responses sharing no long word are "low" |
| `VerifyRoute.IdenticalResponsesAreHigh` | iisf-site/app/api/ops/verify/route.ts:107-113 | Two identical responses with a word longer than four characters are "high" |
| `VerifyRoute.IdenticalShortResponsesAreLow` | iisf-site/app/api/ops/verify/route.ts:107-111 | Two identical responses without such a word are "low" |
| `VerifyRoute.Post` | iisf-site/app/api/ops/verify/route.ts:89-125 | A JSON reply with status 200, 400 or 500; an unreadable body gives 500 and a missing or non-string input 400, both sending nothing; unusable agent ids give 500 sending nothing; otherwise every agent is queried and the requests sent are those of the queries, with 200 carrying the input, one entry per requested agent and the agreement of the successful responses exactly when some response is usable, and 500 otherwise |
| `VerifyRoute.ResultsFollowRequest` | iisf-site/app/api/ops/verify/route.ts:98-101 | The results follow the requested agents one for one, in order |
| `VerifyRoute.NoSecretNoRequests` | iisf-site/app/api/ops/verify/route.ts:53-60 | Without a secret no request is sent and no response counts, so the agreement stays "high" |
| `VerifyRoute.EmptyFailureCountsAsAnswer` | iisf-site/app/api/ops/verify/route.ts:71-78 | An upstream failure with an empty body leaves the falsy error "", so the entry counts as an empty answer |
| `Numerals.Digit` | iisf-site/my-agent-app/src/workflows/index.ts:62 | The digit character of a value is a digit of any larger radix and reads back as that value |
| `Numerals.DivideByRadix` | iisf-site/my-agent-app/src/workflows/index.ts:62 | Dividing by the radix shrinks a number of two or more digits and loses only the last digit |
| `Numerals.ToRadix` | iisf-site/my-agent-app/src/workflows/index.ts:62 | `toString(radix)` gives at least one digit of that radix, with no leading zero |
| `Numerals.RadixRoundTrip` | iisf-site/my-agent-app/src/workflows/index.ts:62 | Reading back the digits gives the number |
| `Numerals.UpperKeepsValue` | iisf-site/my-agent-app/src/workflows/index.ts:62 | Upper-casing base-36 digits keeps their value |
| `Numerals.IntToString` | iisf-site/my-agent-app/src/tools/seo-analyzer.ts:29 | A number prints as at least one character |
| `Numerals.Base36Upper` | iisf-site/my-agent-app/src/workflows/index.ts:62 | The inquiry id suffix is digits and upper-case letters that read back as the time stamp |
| `Numerals.Base36UpperInjective` | iisf-site/my-agent-app/src/workflows/index.ts:62 | Different time stamps give different inquiry ids |
| `Counting.CountAbsent` | iisf-site/app/api/ops/crm/route.ts:34-37 | A value that does not occur is counted 0 times |
| `Counting.TallyCounts` | iisf-site/app/api/ops/crm/route.ts:32-37 | The summary's keys are exactly the values that occur, each mapped to its number of occurrences, at least 1 |
| `Counting.TallySnoc` | iisf-site/app/api/ops/crm/route.ts:34-37 | One more contact raises its value's count by one, starting from 0 |
| `Counting.MapSumRemove` | iisf-site/app/api/ops/crm/route.ts:32-41 | A total over a map is one entry plus the total of the rest |
| `Counting.TallySum` | iisf-site/app/api/ops/crm/route.ts:32-41 | The counts of a summary add up to the number of contacts, the `total` |
| `Counting.DedupBy` | iisf-site/app/sitemap.ts:85-87 | The entries left have distinct keys, the same set of keys, and are drawn from the input |
| `Counting.DedupIsFirstsFilter` | iisf-site/app/sitemap.ts:85-87 | Keeping the first entry per key equals the filter that keeps an entry when the first index of its key is its own |
| `Counting.FirstsFilterExtends` | iisf-site/app/sitemap.ts:85-87 | Appending entries never changes what the filter keeps of the earlier ones |
| `Counting.FirstsFilterOfDistinct` | iisf-site/app/sitemap.ts:85-87 | Entries with distinct keys are all kept, in order |
| `Counting.Dedup` | iisf-site/app/api/seo/webhook/route.ts:151-172 | The insertion-ordered set holds no duplicates and exactly the values added |
| `Counting.DedupSnoc` | iisf-site/app/api/seo/webhook/route.ts:151-172 | Adding a value already present changes nothing; a new one goes at the end |
| `Counting.DedupExtends` | iisf-site/app/api/seo/webhook/route.ts:151-172 | Later additions never reorder earlier values |
| `Counting.DedupOfDistinct` | iisf-site/app/api/seo/webhook/route.ts:151-172 | Distinct values are kept as added |
| `Counting.DedupMembers` | iisf-site/app/api/seo/webhook/route.ts:151-172 | A value is in the set exactly when it was added |
| `UriEncoding.Utf8` | iisf-site/my-agent-app/src/tools/sanity-cms.ts:26 | A character encodes to one to four bytes, an ASCII character to itself |
| `UriEncoding.HexDigit` | iisf-site/my-agent-app/src/tools/sanity-cms.ts:26 | A hex digit reads back as its value |
| `UriEncoding.Escapes` | iisf-site/my-agent-app/src/tools/sanity-cms.ts:26 | Escaped bytes are written with "%" and hex digits only |
| `UriEncoding.EncodeChar` | iisf-site/my-agent-app/src/tools/sanity-cms.ts:26 | An encoded character is unreserved characters and "%" only |
| `UriEncoding.Encode` | iisf-site/my-agent-app/src/tools/sanity-cms.ts:26 | `encodeURIComponent` output holds only unreserved characters and "%" |
| `UriEncoding.DecodeEscapes` | iisf-site/my-agent-app/src/tools/sanity-cms.ts:26 | Decoding escaped bytes gives those bytes back |
| `UriEncoding.DecodeChar` | iisf-site/my-agent-app/src/tools/sanity-cms.ts:26 | Decoding an encoded character gives its UTF-8 bytes |
| `UriEncoding.DecodeEncode` | iisf-site/my-agent-app/src/tools/sanity-cms.ts:26 | Percent-decoding the encoded query gives the query's UTF-8 bytes |
| `UriEncoding.EncodeUnreserved` | iisf-site/my-agent-app/src/tools/sanity-cms.ts:26 | A string of unreserved characters encodes to itself |
| `UriEncoding.NoDelimiters` | iisf-site/my-agent-app/src/tools/sanity-cms.ts:26 | The encoded query cannot contain "&", "#", "=", "+" or a space, so it stays one query parameter |
| `Text.TrimStart` | iisf-site/lib/agent-server.ts:17 | The kept suffix starts with a non-space and everything dropped is white space |
| `Text.TrimEnd` | iisf-site/lib/agent-server.ts:17 | The kept prefix ends with a non-space and everything dropped is white space |
| `Text.Trim` | iisf-site/lib/agent-server.ts:17 | The result is empty exactly for a blank string, and otherwise starts and ends with a non-space |
| `Text.TrimIdempotent` | iisf-site/app/api/seo/webhook/route.ts:76-79 | Trimming twice is trimming once |
| `Text.LeadingWord` | iisf-site/my-agent-app/src/tools/seo-analyzer.ts:43 | The longest prefix without white space |
| `Text.TokensAreWords` | iisf-site/my-agent-app/src/tools/seo-analyzer.ts:43 | Every word counted is a non-empty run without white space |
| `Text.TokensOfJoin` | iisf-site/my-agent-app/src/tools/seo-analyzer.ts:43 | Words joined by single spaces split back into the same words |
| `Text.SplitJoin` | iisf-site/my-agent-app/src/tools/email-draft.ts:34 | Joining the pieces of a split with the separator gives back the string |
| `Text.JoinSplit` | iisf-site/my-agent-app/src/tools/email-draft.ts:34 | Splitting undoes joining when no piece contains the separator |
| `Text.Split` | iisf-site/my-agent-app/src/tools/email-draft.ts:34 | A split gives at least one piece and no piece contains the separator |
| `Text.Repeat` | iisf-site/app/ops/pipeline/page.tsx:163 | `repeat(n)` has n times the length of its text |
| `Text.StripTrailingSlash` | iisf-site/app/api/ops/verify/route.ts:16 | One trailing "/" is removed exactly when there is one, and nothing else changes |
| `Text.ReplaceChar` | iisf-site/my-agent-app/src/tools/email-draft.ts:36 | Replacing a character by text without it leaves none of it, and a string without it is unchanged |
| `Text.JsLength` | iisf-site/my-agent-app/src/tools/seo-analyzer.ts:28 | The JavaScript `length`, in UTF-16 code units: between the number of characters and twice it |
| `Text.JsLengthOfBmp` | iisf-site/my-agent-app/src/tools/seo-analyzer.ts:28 | A string of Basic Multilingual Plane characters has one code unit per character |
| `Text.JsLengthOfAstral` | iisf-site/my-agent-app/src/tools/seo-analyzer.ts:28 | A string of characters beyond U+FFFF has two code units per character |
| `Json.Or` | iisf-site/app/api/ops/verify/route.ts:82 | `a \|\| b`: the first value when it is truthy, else the second |

## Notes

- `normalizePath` in the SEO webhook is not idempotent. "a /" becomes "/a ", and normalizing
  again gives "/a" (`SeoWebhook.NormalizePathNotIdempotent`).
- On the verify page, toggling a selected agent twice moves it to the end of the selection
  (`VerifyPage.ToggleTwiceReorders`). The run sends the agents in that order.
- The blog comparator never returns 0. The order of two posts with the same date is left to
  the sort implementation, so `Blog.SortByDate` fixes one order: a later post goes first, and
  ties keep their file order.
- `NextResponse.json` refuses a status with no body (204, 205, 304) or one outside
  200..599. The relay routes then answer 503, and `AgentRelay.RelayFailure` models that.
- An upstream failure whose body is empty gives the error "", which is falsy. The verify
  route then counts that entry as an empty answer (`VerifyRoute.EmptyFailureCountsAsAnswer`).

## Left out

- Network, database, file system and mail I/O: `fetch`, Supabase, Sanity, Resend, IndexNow
  and `fs` are parameters that describe each call's outcome. Console output is not modelled.
- The VoltAgent engine, the language models behind the agents and the agent definitions are
  not part of this model. The workflow steps that call an agent take its answer as a parameter.
- Clocks and randomness are parameters: `Date.now()`, `new Date().toISOString()`,
  `toUTCString()`, `durationMs` and the random Sanity `_key`s.
- `Promise.all` is modelled as an in-order map, since its result keeps the input order.
- React effects, scrolling, focus and rendering are left out. Only the pages' state
  transitions and the requests they send are modelled.
- The prose of the ops-intel sections is a parameter. Only the keys and the lookup are
  modelled.
- The zod schemas are modelled only where a bounded field decides a branch. This includes
  the strategy-cycle schema's action limit. The zod `.min(1)` on the IndexNow URL list is
  not modelled.
- Case mapping (`toLowerCase` and `toUpperCase`) covers ASCII letters only.
- The CRM search's `ilike` matching is done by Supabase. Its result is a parameter.
- Floating point is replaced by exact integers. The verify route's overlap ratio is
  compared by cross-multiplication, which is proved equal to the real-number ratio. Sitemap
  priorities are in tenths. Alignment scores are integers.
- `SeoAnalyzer.DensityHundredths`: the density is an integer number of hundredths, not the
  `toFixed(2)` string. It is proved to round halves up. A binary float can round a printed
  half the other way, and that case is not modelled.
- `LoadCrmSnapshot`, `StageSummary` and `Summaries`: the tallies are maps, so a stage or
  contact type named like an `Object.prototype` member is counted like any other value. On the
  plain JavaScript object, `"constructor"` reads the inherited function first, so its entry
  becomes a string, and `"__proto__"` does not create an entry at all.
- `KeywordReport`: a keyword named `"__proto__"` is an ordinary key of the report map; on
  the plain JavaScript object that assignment replaces the report's prototype instead, so a
  report with only that keyword has no own key and the scorecard's `keywords` is undefined.
- `Before`: compares strings by code point. JavaScript's `<` compares UTF-16 code units; the
  two orders differ only between a character beyond U+FFFF and one in U+E000 to U+FFFF,
  which ISO dates and file names in the blog do not contain.
- The `config.matcher` of `proxy.ts`, which keeps static assets away from the proxy, is not
  modelled: `OpsProxy` describes the proxy for every path it is given.
- Server-sent events are read as whole text chunks. The UTF-8 decoding of a chunk boundary
  inside a multi-byte character is not modelled.

## Findings

| source | as written | input that shows it | evidently intended | confidence | as-written member | corrected member |
|---|---|---|---|---|---|---|
| iisf-site/proxy.ts:19-36 | On the ops host, a path outside `/ops` is rewritten to `/ops...` and returned before the auth gate runs | Host `ops.intersectionalsafety.org`, path `/`, no `ops_session` cookie, `OPS_PASSWORD` = "pw": served as `/ops` without login | The gate applies to the rewritten path, so the dashboard needs the password on every host | medium, not executed | `OpsProxy.OpsHostRootBypassesGate` | `OpsProxy.GatedProxyProtects` |
| iisf-site/app/ops/chat/page.tsx:57-59 | Each chunk is split at line feeds on its own, so an SSE `data:` line cut across two chunks is lost | The chunks `data: {"type":"te` and `xt-delta","textDelta":"Hi"}` give no text, while the same line in one chunk gives "Hi" | Keep the unfinished last line of a chunk and put it in front of the next one | high, not executed | `OpsChatPage.EventCutAcrossChunksIsLost` | `OpsChatPage.BufferedKeepsCutEvent` |
| iisf-site/my-agent-app/src/tools/ops-intel.ts:421-424 | `OPS_INTEL[section]` also finds inherited object members, so they are not reported as missing | section "toString" returns a function instead of the not-found message | Look up the table's own keys only | high, not executed | `OpsIntel.InheritedNameNotReported` | `OpsIntel.UnknownSectionNamed` |
