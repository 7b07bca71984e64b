# OpenProject MCP server — a Dafny model of its deterministic core

The OpenProject MCP server connects a tool-calling protocol to the HAL+JSON
API of OpenProject. Most of its code is asynchronous HTTP and web-framework
wiring. Inside that wiring sit small deterministic components. This project
models those components and proves what they promise:

- **Name resolution** in both generations of the metadata tools (`CoreMetadata`,
  `LegacyMetadata`, shared `Resolution`), and in the work-package and user
  tools (`WorkPackages`, `Users`). An exact, case-insensitive pass runs first,
  then a substring pass. Otherwise an ambiguity or not-found error lists the
  names, sorted as the source sorts them.
- **The TTL metadata cache** keyed by `base_url:endpoint` (`MetadataCache`). It
  is a class holding a map, and it takes an integer clock.
- **The HTTP client** (`Client`): the retry loop over an abstract sequence of
  outcomes, the attempt bound, the backoff exponents, the 2xx/non-2xx split,
  JSON-body classification, constructor validation and the single-shot
  `post_file`.
- **The HAL helpers** (`Hal`), the embedded-collection helper (`Collections`) and the
  duration parser for time entries (`TimeParser`).
- **Paging in the tools.** Page-size clamping and next offsets (`Paging`,
  `Projects`, `Queries`, `Attachments`). The membership paging loop is
  shared by both generations (`Memberships`, `CoreMemberships`,
  `LegacyMemberships`).
- **The attachment tools** (`Attachments`): Content-Disposition file names,
  argument checks and file-handle discipline for uploads, and bounded
  previews of content.
- **The HTTP transport middlewares**:
  - the fixed-window rate limiter (`RateLimit`), a class over its entry table;
  - JSON-RPC payload classification (`MessageMiddleware`);
  - Accept negotiation (`AcceptMiddleware`);
  - Origin checks and CORS (`OriginCors`);
  - trusted-proxy HTTPS detection (`TrustedProxy`);
  - the request body limit (`MaxBody`);
  - the security header defaults (`SecurityHeaders`);
  - the health and readiness endpoints (`Ops`);
  - the boolean environment switch (`HttpConfig`).
- **Structured logging fields** (`Observability`) and **the import guard** that
  keeps the core free of transports and web frameworks (`CoreImports`).

Shared modules hold the common pieces:

- `Py`: a JSON value model (integers only), and Python exceptions as a `Result`.
- `Text`: ASCII string operations.
- `Lists`: filter, map and their lemmas.
- `Sorting`: a stable sort by a `(text, int)` key, proved sorted, a
  permutation and stable.
- `Wrappers`: `Option`.
- `Responses`: a mutable response header map.

Network fetches, the clock, the filesystem and the foreign libraries become
parameters.

The older user tool `src/openproject_mcp/tools/users.py` holds the same
custom-field, profile and `get_user_by_id` code as
`src/openproject_mcp/core/tools/users.py`, five lines earlier in the file.
The rows below cite the core copy.

## Model

The table lists the members that carry a contract: lemmas, methods, and
functions with their own `ensures`. The definitions those contracts are
stated over carry no `ensures` of their own, so they have no row. They
model these source lines, and these rows state their properties:

- `TrustedProxy.IsHttpsRequest`: src/openproject_mcp/transports/http/trusted_proxy.py:25-49. Stated by `TrustedProxy.HttpsCases`, `UntrustedHeadersIgnored`, `DirectHttps`, `ForwardedPartAnywhere` and `FirstForwardedProtoOnly`.
- `MaxBody.Decision`: src/openproject_mcp/transports/http/max_body_middleware.py:23-68. Stated by `MaxBody.Dispatch`, `DecisionCases`, `ExactlyMaxPasses` and `DeclaredLengthRefused`.
- `HttpConfig.GetBoolEnv`: src/openproject_mcp/transports/http/config.py:7-17. Stated by `HttpConfig.GetBoolEnvCases` and `OnlyNormalisedMatters`.
- `Ops.FailedChecks`: src/openproject_mcp/transports/http/ops.py:13. Stated by `Ops.BuildReadinessStatus`, `FailedNames` and `FailedInOrder`.
- `CoreImports.IsForbidden`, `NodeErrors` and `FileErrors`: scripts/check_core_imports.py:27-47. Stated by `CoreImports.SubmoduleForbidden`, `StarlettexAllowed`, `ScanFile`, `NodeErrorsMeaning` and `FileErrorsMeaning`.
- `CoreMetadata.ResolveFromItems`: src/openproject_mcp/core/tools/metadata.py:228-258. Stated by `CoreMetadata.ExactNameWins`, `UniqueSubstringWins`, `ResolveFromItemsErrors` and `ResolveFromItemsSound`.
- `CoreMetadata.ResolveProjectFromItems`: src/openproject_mcp/core/tools/metadata.py:261-299. Stated by `CoreMetadata.IdentifierBeforeName`, `ProjectNameExactWins`, `IdentifierSubstringWins` and `ResolveProjectErrors`.
- `CoreMetadata.ResolveUserFromItems`: src/openproject_mcp/core/tools/metadata.py:302-341. Stated by `CoreMetadata.UserExactOnName`, `BlankUserNeverMatches`, `UniqueUserSubstringWins` and `ResolveUserErrors`.
- `CoreMetadata.ResolveTypeForProject`: src/openproject_mcp/core/tools/metadata.py:391-406. Stated by `CoreMetadata.TypeFallback`.
- `CoreMemberships.PrincipalFromMembership`: src/openproject_mcp/core/tools/memberships.py:18-53. Stated by `CoreMemberships.FromLink`, `FillFromUser`, `LinkFieldsKept`, `LinkWithTitleDecides`, `UserHref`, `GroupHref` and `EmbeddedUserOnly`.
- `CoreMemberships.MembershipListing` and `LegacyMemberships.MembershipListing`: src/openproject_mcp/core/tools/memberships.py:72-156 and src/openproject_mcp/tools/memberships.py:60-138. Stated by the `ListingCounts`, sorted-listing and `GetProjectMemberships` rows of each module.
- `AcceptMiddleware.Flags`: src/openproject_mcp/transports/http/accept_middleware.py:11-37. Stated by `AcceptMiddleware.ParseAccept`, `ParametersIgnored` and `MoreRangesKeepFlags`.
- `AcceptMiddleware.Decide`: src/openproject_mcp/transports/http/accept_middleware.py:48-79. Stated by `AcceptMiddleware.DecisionCases`, `UnknownRangesPass`, `EventStreamOnlyRefused` and `RequestIdHeader`.
- `MessageMiddleware.Classification`: src/openproject_mcp/transports/http/message_middleware.py:31-61. Stated by `MessageMiddleware.ClassifyPayload`, `BatchConcat` and `SingletonBatch`.
- `MessageMiddleware.Dispatch`: src/openproject_mcp/transports/http/message_middleware.py:84-112. Stated by `MessageMiddleware.DispatchOutcomes`, `EmptyBodyIsInvalidRequest` and `OtherRequestsPass`.
- `OriginCors.Dispatch`: src/openproject_mcp/transports/http/origin_cors_middleware.py:72-99. Stated by `OriginCors.DispatchCases`.
- `TimeParser.ParseDuration`: src/openproject_mcp/utils/time_parser.py:15-59. Stated by `TimeParser.ParseDurationString` and the `TimeParser` lemmas after it.
- `WorkPackages.UpdatePayload`: src/openproject_mcp/tools/work_packages.py:484-655. Stated by `WorkPackages.UpdateWith` and the `WorkPackages.Update*` lemmas.
- `Attachments.OpenSource` and `Attachments.Attach`: src/openproject_mcp/core/tools/attachments.py:38-133. Stated by `Attachments.RejectedBeforeRequest`, `SourceDefaults` and `AttachFileToWp`.
- `Client.Run`: src/openproject_mcp/client.py:120-195. Stated by `Client.Request`, `RunStopsAtFirstFinal`, `RunBounded`, `ExhaustedStatusIsHttpError` and `ExhaustedNetworkIsClientError`.
- `Observability.LogEvent`: src/openproject_mcp/core/observability.py:34-42, with the cleaning it is meant to do. Stated by `Observability.LogEventNeverRaises` and `AsWrittenAgreesWithoutClash`.
- The as-written halves of the findings are `Queries.RunQueryAsWritten`, `Memberships.TotalAsWritten`, `LegacyMemberships.MembershipListingAsWritten`, `CoreMemberships.SortKeyAsWritten` and `Observability.LogEventAsWritten`. Each is paired with the lemma named beside it under "## Findings".


| member | source | states |
|---|---|---|
| AcceptMiddleware.ParseAccept | src/openproject_mcp/transports/http/accept_middleware.py:11-37 | the scan computes `Flags`: JSON only when the header is missing or blank, otherwise whether some comma part, parameters dropped, names each |
| AcceptMiddleware.ParametersIgnored | src/openproject_mcp/transports/http/accept_middleware.py:24-26 | a range followed by ";" and any parameters, q-values included, matches as the bare range does |
| AcceptMiddleware.MoreRangesKeepFlags | src/openproject_mcp/transports/http/accept_middleware.py:20-37 | adding media ranges to a non-blank header never clears a flag |
| AcceptMiddleware.RequestIdHeader | src/openproject_mcp/transports/http/accept_middleware.py:62-78 | `X-Request-Id` is sent exactly when there is a request id, with that id |
| AcceptMiddleware.DecisionCases | src/openproject_mcp/transports/http/accept_middleware.py:48-81 | `GET /mcp` gets 405 whatever it accepts; otherwise 406 exactly when the event stream is acceptable and JSON is not; every other request passes |
| AcceptMiddleware.UnknownRangesPass | src/openproject_mcp/transports/http/accept_middleware.py:15-66 | a non-blank header naming no known range raises neither flag and passes |
| AcceptMiddleware.EventStreamOnlyRefused | src/openproject_mcp/transports/http/accept_middleware.py:34-79 | a header naming only the event stream, with parameters or not, is refused with 406 |
| Attachments.FilenameUnquoted | src/openproject_mcp/core/tools/attachments.py:33 | the value kept neither starts nor ends with a double quote |
| Attachments.ParseDispositionFilename | src/openproject_mcp/core/tools/attachments.py:27-35 | a missing or empty header gives `None`; a file name returned is non-empty and unquoted |
| Attachments.AfterFirstAppend | src/openproject_mcp/core/tools/attachments.py:33 | `split(c, 1)[1]` is the text after the first `c` |
| Attachments.SplitTwoParts | src/openproject_mcp/core/tools/attachments.py:30 | splitting `<type>;<part>` on ";" gives the two parts |
| Attachments.FilenamePart | src/openproject_mcp/core/tools/attachments.py:32-33 | the part ` filename=<v>` names a file, and its raw value is v |
| Attachments.UnquoteQuoted | src/openproject_mcp/core/tools/attachments.py:33 | unquoting `"<name>"` gives the name |
| Attachments.UnquoteBare | src/openproject_mcp/core/tools/attachments.py:33 | unquoting a bare name leaves it alone |
| Attachments.FilenameOfPart | src/openproject_mcp/core/tools/attachments.py:31-34 | the value of ` filename=<name>`, quoted or not, is the name |
| Attachments.DispositionRoundTrip | src/openproject_mcp/core/tools/attachments.py:27-35 | a header built as `<type>; filename=<name>`, quoted or not, gives the name back |
| Attachments.Metadata | src/openproject_mcp/core/tools/attachments.py:100-102 | the metadata part always holds `fileName`, and `description` exactly when a non-empty one is given, and nothing else |
| Attachments.UploadResult | src/openproject_mcp/core/tools/attachments.py:122-133 | a raised error becomes a client error; an answer goes through the client's status check |
| Attachments.RejectedBeforeRequest | src/openproject_mcp/core/tools/attachments.py:56-98 | every rejected call fails before the request with a client error: both contents, no content and no path, a path that is not a file, and empty content each give their own message |
| Attachments.SourceDefaults | src/openproject_mcp/core/tools/attachments.py:68-88 | the file name is `file_name`, else the path's name, else "attachment.bin"; the content type is `content_type`, else the guessed type, else "application/octet-stream"; the file is read from disk exactly when no content was given |
| Attachments.FileHandle.constructor | src/openproject_mcp/core/tools/attachments.py:80-87 | a new handle is open, read from disk or held in memory |
| Attachments.FileHandle.Close | src/openproject_mcp/core/tools/attachments.py:97-128 | closing leaves the handle closed |
| Attachments.AttachFileToWp | src/openproject_mcp/core/tools/attachments.py:38-133 | the tool computes `Attach`; one POST is sent with the metadata and the file exactly when the checks pass; the session's Content-Type is dropped for the POST and restored after; a handle opened from disk is closed on every path and an in-memory one never is |
| Attachments.ItemFromSelfLink | src/openproject_mcp/core/tools/attachments.py:166-171 | an attachment without id and file name takes both from its self link |
| Attachments.ListAttachments | src/openproject_mcp/core/tools/attachments.py:136-198 | a negative offset raises; the page size is clamped to 1..200; `next_offset` is set exactly when the next page starts below an integer total, and is offset plus page size |
| Attachments.ListingReadsOnePage | src/openproject_mcp/core/tools/attachments.py:151-185 | only the page at (offset, clamped page size) is read, and there is one item per dict element, in order |
| Attachments.ListAttachmentsPage | src/openproject_mcp/core/tools/attachments.py:161-198 | the loop computes `ListAttachments` |
| Attachments.DownloadHref | src/openproject_mcp/core/tools/attachments.py:201-214 | a download location returned is truthy; a missing one raises |
| Attachments.RangeCoversMaxBytes | src/openproject_mcp/core/tools/attachments.py:276 | the range asked for ends at byte `max_bytes - 1`: exactly `max_bytes` bytes from the start |
| Attachments.PreviewIsBodyPrefix | src/openproject_mcp/core/tools/attachments.py:262-301 | the preview is the first `max_bytes` bytes of the body of the GET used (all of it when it fits), with that GET's content type; the plain GET is made only after a 416 |
| Attachments.GetAttachmentContent | src/openproject_mcp/core/tools/attachments.py:262-301 | a non-positive `max_bytes` raises before any request, and a successful preview reports its own length, never more than `max_bytes` |
| MetadataCache.CacheKey | src/openproject_mcp/core/tools/metadata.py:53-57 | the key is the base URL, a `:`, then the endpoint |
| MetadataCache.CacheKeyInjective | src/openproject_mcp/core/tools/metadata.py:53-57 | for one base URL, different endpoints get different keys |
| MetadataCache.StoredEntryHits | src/openproject_mcp/core/tools/metadata.py:73-82 | an entry stored at `now` is served exactly until `now + ttl` |
| MetadataCache.Cache.constructor | src/openproject_mcp/core/tools/metadata.py:49 | the cache starts empty |
| MetadataCache.Cache.FetchMetadata | src/openproject_mcp/core/tools/metadata.py:60-83 | a fresh entry is served with no request and no change; otherwise exactly one GET is made and, when it yields a listing, only this key's entry is replaced, stamped `now`; a failed GET or listing leaves the cache unchanged |
| MetadataCache.TwoCallsOneFetch | src/openproject_mcp/core/tools/metadata.py:60-83 | two lookups within the TTL make one request and return the same items; a failed first lookup caches nothing |
| Resolution.NormWord | src/openproject_mcp/core/tools/metadata.py:214-215 | a name without surrounding whitespace normalises to its letter-by-letter lowering |
| Resolution.Conclude | src/openproject_mcp/core/tools/metadata.py:237-258 | exactly one substring match returns its id; several raise an ambiguity error and none a not-found error, both carrying the query |
| Resolution.CandidatesSorted | src/openproject_mcp/core/tools/metadata.py:222-250 | the ambiguity candidates are the names of the matches, a permutation of them, read off a sort of the matches by `(norm(name), id)` |
| Resolution.AvailableSorted | src/openproject_mcp/core/tools/metadata.py:218-258 | the not-found list is a permutation of all item names, sorted by normalised name |
| Resolution.ConcludeOk | src/openproject_mcp/core/tools/metadata.py:237-239 | a successful substring pass returns the id of one of the items |
| Client.Backoffs | src/openproject_mcp/client.py:169-173 | the sleeps before retries 1..n are `backoff_base_seconds` times 1, 2, 4, ...: retry `i` sleeps `2**i` times the base |
| Client.SafeJson | src/openproject_mcp/client.py:197-218 | an empty body is `{}`; a body that is not JSON, or JSON that is not an object, raises a parse error; a non-JSON body's message ends with `repr` of its first 500 characters; a success is the body's object |
| Client.SafeJsonQuotesPlainSnippet | src/openproject_mcp/client.py:205-209 | a non-JSON body of at most 500 plain characters ends the message between single quotes, as `{snippet!r}` writes it |
| Text.Repr | src/openproject_mcp/client.py:209 | `repr` of a string starts and ends with its quote and is at least two characters longer than the string |
| Text.ReprOfPlain | src/openproject_mcp/client.py:209 | `repr` of a string with no quote, backslash or escaped character is the string between single quotes |
| Text.ReprBodyNoBareQuote | src/openproject_mcp/client.py:209 | inside `repr` every occurrence of the chosen quote is escaped by a backslash |
| Client.ToHttpError | src/openproject_mcp/client.py:220-245 | the error carries the status, method and URL; the JSON object when the body parses as one, else the text cut to 500 characters; a falsy message falls back to "request failed" |
| Client.Request | src/openproject_mcp/client.py:120-195 | the loop makes at least one call, its last call and result are those of the retry rule `Run`, and it sleeps the backoff multipliers of every retry |
| Client.RunStopsAtFirstFinal | src/openproject_mcp/client.py:145-195 | every attempt before the last was retried and the last was not; the result is that attempt's outcome |
| Client.RunBounded | src/openproject_mcp/client.py:169-183 | at most `max_retries + 1` calls are made |
| Client.ExhaustedStatusIsHttpError | src/openproject_mcp/client.py:166-178 | when every call answers a retryable non-2xx status, the call after `max_retries` retries raises that status as an HTTP error |
| Client.ExhaustedNetworkIsClientError | src/openproject_mcp/client.py:182-189 | when every call hits a network error, the call after `max_retries` retries raises a client error |
| Client.TwoUnavailableThenOk | src/openproject_mcp/client.py:120-180 | with the defaults, two 503 answers and then a 200 take three calls and return the 200's body (also lines 43-47) |
| Client.NewClient | src/openproject_mcp/client.py:76-86 | an accepted base URL is the given one with exactly its trailing '/' characters removed (`rstrip("/")`): a non-empty prefix, not ending in '/', followed in the input by '/' only; the key is non-empty; the retry settings default to `RetryConfig()`; an empty key is a ValueError |
| Client.NewClientBaseUrl | src/openproject_mcp/client.py:76-80 | the base URL is accepted exactly when it holds a character other than '/' |
| Client.NewClientTrailingSlash | src/openproject_mcp/client.py:76 | extra trailing slashes make no difference |
| Client.Session.PostFile | src/openproject_mcp/client.py:266-334 | a missing file raises "File not found" with no upload; otherwise one upload without the session's Content-Type, with the Accept header, the file name and content type defaulted in order, and the session headers restored; the result is that of the single attempt |
| Client.Session.Send | src/openproject_mcp/client.py:296-309 | Content-Type is popped for the call and put back: the session headers are unchanged afterwards and the upload saw them without Content-Type |
| Client.PostFinal | src/openproject_mcp/client.py:310-334 | a network or other transport error is a client error with no retry; a non-2xx answer is an HTTP error with its status |
| CoreMemberships.KindOfHref | src/openproject_mcp/core/tools/memberships.py:30-33 | a type is inferred exactly when the href contains "/users/" or "/groups/", and it is "Group" exactly when only "/groups/" occurs |
| CoreMemberships.FromLink | src/openproject_mcp/core/tools/memberships.py:19-33 | the principal link's href and title are taken as they are, and a falsy href gives neither id nor type |
| CoreMemberships.FillFromUser | src/openproject_mcp/core/tools/memberships.py:36-46 | the embedded user only fills the id, name, href and type that are still `None` |
| CoreMemberships.LinkFieldsKept | src/openproject_mcp/core/tools/memberships.py:18-53 | whatever the principal link gave (href, title, parsed id, inferred type) survives the fallback to the embedded user |
| CoreMemberships.LinkWithTitleDecides | src/openproject_mcp/core/tools/memberships.py:27-36 | a principal link with a non-empty string href and a title decides the principal alone, `_embedded` unread |
| CoreMemberships.UserHref | src/openproject_mcp/core/tools/memberships.py:27-31 | an href `.../users/n` gives the id n and the type "User" |
| CoreMemberships.GroupHref | src/openproject_mcp/core/tools/memberships.py:27-33 | an href `.../groups/n` without "/users/" gives the id n and the type "Group" |
| CoreMemberships.EmbeddedUserOnly | src/openproject_mcp/core/tools/memberships.py:36-46 | without a principal link the embedded user gives the id, name, self href and the type "User" |
| CoreMemberships.MemberItem | src/openproject_mcp/core/tools/memberships.py:117-138 | an item is built exactly when the membership id, the principal and the role names can all be computed, and it holds exactly those |
| CoreMemberships.SortAsWrittenKeepsOrder | src/openproject_mcp/core/tools/memberships.py:145-148 | the sort key as written reads `user_name` and `user_id`, absent from these items, so `sort=True` keeps the read order |
| CoreMemberships.SortItems | src/openproject_mcp/core/tools/memberships.py:145-148 | the intended sort by principal name then principal id returns a permutation of the items, ordered by that key |
| CoreMemberships.SortIgnoresNames | src/openproject_mcp/core/tools/memberships.py:145-148 | members read as "b" then "a" stay in that order as written, and swap under the intended sort |
| CoreMemberships.NameAfterName | src/openproject_mcp/core/tools/memberships.py:147 | "b" does not sort at or before "a" under the name key |
| CoreMemberships.PageRequest | src/openproject_mcp/core/tools/memberships.py:93-105 | each request is a GET of `/api/v3/memberships` at the offset, with the page size and the project filter |
| CoreMemberships.ListingCounts | src/openproject_mcp/core/tools/memberships.py:150-156 | `scanned` is the number of items, at most `max_pages` pages are scanned and at least one when any is allowed, and a `total` is only reported from a page read |
| CoreMemberships.SortedListingPermutes | src/openproject_mcp/core/tools/memberships.py:145-156 | the sorted listing is a permutation of the unsorted one, ordered by principal, with the same total and page count |
| CoreMemberships.NoPagesEmptyListing | src/openproject_mcp/core/tools/memberships.py:95-156 | with `max_pages` at most 0 nothing is requested and the listing is empty with no total |
| CoreMemberships.GetProjectMemberships | src/openproject_mcp/core/tools/memberships.py:72-156 | the tool computes `MembershipListing`: resolve the project, clamp the page size, scan, optionally sort, report the counters |
| CoreMetadata.ExactNameWins | src/openproject_mcp/core/tools/metadata.py:228-234 | the first item whose normalised name equals the normalised query is returned, whatever other items contain the query |
| CoreMetadata.UniqueSubstringWins | src/openproject_mcp/core/tools/metadata.py:236-239 | with no exact hit, a single item whose name contains the query is returned |
| CoreMetadata.ResolveFromItemsErrors | src/openproject_mcp/core/tools/metadata.py:218-258 | with no exact hit, several matches raise an ambiguity error listing a permutation of the matches' names sorted by `(norm(name), id)`; none raise a not-found error listing a permutation of all names sorted by normalised name |
| CoreMetadata.ResolveFromItemsSound | src/openproject_mcp/core/tools/metadata.py:228-239 | a returned id belongs to an item whose name contains the query |
| CoreMetadata.EmptyQueryMatchesAll | src/openproject_mcp/core/tools/metadata.py:214-237 | an empty or blank query is a substring of every name |
| CoreMetadata.IdentifierBeforeName | src/openproject_mcp/core/tools/metadata.py:261-267 | the first identifier match wins, even over an earlier exact name match |
| CoreMetadata.ProjectNameExactWins | src/openproject_mcp/core/tools/metadata.py:268-271 | without an identifier match, the first exact name wins |
| CoreMetadata.IdentifierSubstringWins | src/openproject_mcp/core/tools/metadata.py:273-281 | the substring pass accepts a hit in the identifier alone |
| CoreMetadata.ResolveProjectErrors | src/openproject_mcp/core/tools/metadata.py:283-299 | ambiguity candidates and the not-found list of the project resolver: permutations of the names, sorted as the source sorts them |
| CoreMetadata.UserExactOnName | src/openproject_mcp/core/tools/metadata.py:312-315 | the exact pass of the user resolver reads only the name |
| CoreMetadata.BlankUserNeverMatches | src/openproject_mcp/core/tools/metadata.py:305-320 | a user whose fields all normalise to the empty string never matches, not even the empty query |
| CoreMetadata.UniqueUserSubstringWins | src/openproject_mcp/core/tools/metadata.py:317-323 | a single user whose name, login or mail contains the query is returned |
| CoreMetadata.ResolveUserErrors | src/openproject_mcp/core/tools/metadata.py:325-341 | ambiguity candidates and the not-found list of the user resolver: permutations of the names, sorted as the source sorts them |
| CoreMetadata.ResolveUser | src/openproject_mcp/core/tools/metadata.py:426-455 | 401 and 403 become a permissions resolution error, 404, 405 and 501 an unavailable-endpoint error, any other failure propagates; a listing is resolved by the user resolver |
| CoreMetadata.ResolveProjectIdForTypes | src/openproject_mcp/core/tools/metadata.py:119-133 | an int, or a string of ASCII digits, is the id itself with no lookup; a failed listing propagates |
| CoreMetadata.TypesLookupOrder | src/openproject_mcp/core/tools/metadata.py:135-166 | on any listing page, the first exact identifier wins; with none, the first exact name; with neither, a single project whose name contains the query is the answer, several raise an ambiguity error whose candidates are a permutation of their names, and none raise a not-found error listing a permutation of all names sorted by normalised name |
| CoreMetadata.TypesLookupNotFound | src/openproject_mcp/core/tools/metadata.py:135-166 | a single project that matches by no identifier, exact name or name substring is not found |
| CoreMetadata.TypesLookupIgnoresIdentifierSubstring | src/openproject_mcp/core/tools/metadata.py:148-166 | the type lookup's substring pass reads names only: a project matching by identifier substring alone is not found there, but the project resolver finds it (also lines 273-281) |
| CoreMetadata.FetchProjectTypes | src/openproject_mcp/core/tools/metadata.py:169-182 | `None` exactly when the scoped endpoint answers 404, 405 or 501; a listing otherwise; any other failure propagates |
| CoreMetadata.TypeFallback | src/openproject_mcp/core/tools/metadata.py:391-405 | when the scoped endpoint is unavailable the global types decide; otherwise the global list is never consulted |
| CoreMetadata.PaginateBounded | src/openproject_mcp/core/tools/metadata.py:185-208 | at most `max_pages` requests are made |
| CoreMetadata.PaginateStopsAtEmpty | src/openproject_mcp/core/tools/metadata.py:206-207 | the fetch stops after the first empty batch: later pages are never read |
| CoreMetadata.FetchPaginatedItems | src/openproject_mcp/core/tools/metadata.py:185-208 | the loop computes `Paginate`: at most `max_pages` requests at offsets 0, p, 2p, ..., the batches concatenated in order |
| Hal.GetLink | src/openproject_mcp/core/hal.py:4-10 | no `_links` gives `None`; a `_links` dict gives the link of the relation or `None`; a `_links` that is not a dict raises |
| Hal.GetEmbedded | src/openproject_mcp/core/hal.py:31-38 | no `_embedded` gives `None`; a dict gives the embedded resource of the relation or `None`; a non-dict raises |
| Hal.LinkPutGet | src/openproject_mcp/core/hal.py:13-28 | after a link with an href and a title is put under a relation, `get_link_href` and `get_link_title` read them back and other relations are unaffected |
| Hal.ParseIdFromHref | src/openproject_mcp/core/hal.py:41-47 | `None` and the empty href give `None` |
| Hal.NonNumericSegmentNone | src/openproject_mcp/core/hal.py:46-52 | a last segment with no digit gives `None`, as `int()` raises `ValueError` and the error is caught |
| Hal.HrefId | src/openproject_mcp/core/hal.py:41-52 | a falsy href gives `None`; it raises exactly on a truthy value that is not a string |
| Hal.HrefRoundTrip | src/openproject_mcp/core/hal.py:41-52 | for every natural `n`, an href ending in `/` and the decimal digits of `n` gives `n` |
| Hal.HrefRoundTripTrailingSlash | src/openproject_mcp/core/hal.py:41-52 | the same with a trailing `/` |
| Hal.ResolveProperty | src/openproject_mcp/core/hal.py:55-73 | a root key that is present wins whatever its value; otherwise a truthy link title; otherwise the embedded resource, or `None` |
| LegacyMemberships.UserFromMembership | src/openproject_mcp/tools/memberships.py:17-41 | a reported href is always truthy: a falsy link href is never reported |
| LegacyMemberships.EmbeddedUserWins | src/openproject_mcp/tools/memberships.py:25-35 | an embedded user with an id and a name keeps both, whatever the user link says |
| LegacyMemberships.LinkFillsUser | src/openproject_mcp/tools/memberships.py:29-35 | with an empty embedded user, a titled link `.../users/n` gives the id n, the title and the href |
| LegacyMemberships.FalsyHrefIgnored | src/openproject_mcp/tools/memberships.py:29-33 | a falsy link href gives no href, and the id then comes from the embedded user alone |
| LegacyMemberships.MemberItem | src/openproject_mcp/tools/memberships.py:100-120 | an item is built exactly when the membership id, the user and the role names can all be computed, and it holds exactly those |
| LegacyMemberships.SortItems | src/openproject_mcp/tools/memberships.py:127-130 | the sort succeeds exactly when every truthy name is a string and every two items whose normalised user names tie have user ids Python can order (both numeric or falsy, both non-empty strings, or equal); otherwise it raises a TypeError; on success a permutation ordered by (normalised user name, user id) |
| LegacyMemberships.PageRequest | src/openproject_mcp/tools/memberships.py:84-88 | each request is a GET of `/api/v3/projects/{id}/memberships` at the offset, with the page size and no filter |
| LegacyMemberships.ListingCounts | src/openproject_mcp/tools/memberships.py:132-138 | `scanned` is the number of items, at most `max_pages` pages are scanned and at least one when any is allowed, and a `total` is only reported from a page read |
| LegacyMemberships.SortedListingOrders | src/openproject_mcp/tools/memberships.py:127-138 | the sorted listing is a permutation of the unsorted one, ordered by user, with the same total and page count |
| LegacyMemberships.GetProjectMemberships | src/openproject_mcp/tools/memberships.py:60-138 | the tool computes the corrected `MembershipListing`: resolve the project, clamp the page size, scan, optionally sort, report the counters; the code as written is `MembershipListingAsWritten` (see Findings) |
| LegacyMemberships.NoPagesRaisesAsWritten | src/openproject_mcp/tools/memberships.py:82-132 | with `max_pages` at most 0 the code as written raises `UnboundLocalError` on `payload`, where the corrected listing is empty with no total; with at least one page the two agree |
| LegacyMetadata.Norm | src/openproject_mcp/tools/metadata.py:182-183 | the older `_norm` succeeds exactly on a present string, and then agrees with the current one |
| LegacyMetadata.AsNamed | src/openproject_mcp/tools/metadata.py:196-205 | the items seen with their names present, one for one |
| LegacyMetadata.ExactPassIsFirstIndex | src/openproject_mcp/tools/metadata.py:199-202 | on named items the exact pass returns the id of the first item whose normalised name equals the query |
| LegacyMetadata.AgreesWithCurrent | src/openproject_mcp/tools/metadata.py:186-226 | when every name is present, the older resolver answers exactly what the current one answers: same exact pass, same substring pass, same sorted errors |
| LegacyMetadata.UnnamedBeforeHitRaises | src/openproject_mcp/tools/metadata.py:182-202 | a `None` name reached by the exact pass before any hit raises |
| LegacyMetadata.ExactHitBeforeUnnamed | src/openproject_mcp/tools/metadata.py:199-202 | an exact hit ahead of every `None` name is returned; later items are never looked at |
| LegacyMetadata.TypeFallback | src/openproject_mcp/tools/metadata.py:113-176 | the fall-back to the global type list happens exactly on 404, 405 or 501; any other failure of the scoped listing propagates; a scoped listing is resolved directly (also lines 273-287) |
| MaxBody.Payload | src/openproject_mcp/transports/http/max_body_middleware.py:56-61 | the 413 payload holds exactly the configured error code and "Body exceeds limit" |
| MaxBody.ConcatAppend | src/openproject_mcp/transports/http/max_body_middleware.py:50 | joining the chunks distributes over a split of the chunk list |
| MaxBody.TotalMonotone | src/openproject_mcp/transports/http/max_body_middleware.py:45 | the running total never falls as chunks are read |
| MaxBody.ReadStream | src/openproject_mcp/transports/http/max_body_middleware.py:41-50 | the scan stops at the first chunk that carries the total over the limit and reports it; otherwise every chunk is read and joined in order |
| MaxBody.Dispatch | src/openproject_mcp/transports/http/max_body_middleware.py:26-54 | the outcome is `Decision`; the stream is read only up to the first chunk over the limit; a body that fits is buffered on the request and the stream marked consumed; otherwise the request is untouched |
| MaxBody.DecisionCases | src/openproject_mcp/transports/http/max_body_middleware.py:23-68 | only a POST to the MCP path with a non-zero limit is checked; such a request is refused with 413 exactly when its declared length or its stream runs over the limit; otherwise the handlers see the chunks joined in order |
| MaxBody.StreamTooLargeIsLength | src/openproject_mcp/transports/http/max_body_middleware.py:41-47 | with a non-negative limit the stream is too large exactly when the whole body is |
| MaxBody.ExactlyMaxPasses | src/openproject_mcp/transports/http/max_body_middleware.py:44-50 | a body of exactly the limit passes however it is chunked; one byte more is refused |
| MaxBody.DeclaredLengthRefused | src/openproject_mcp/transports/http/max_body_middleware.py:31-39 | a declared length over the limit is refused whatever the stream holds |
| Memberships.DeniedError | src/openproject_mcp/core/tools/memberships.py:106-114 | a 403 is re-raised as a 403 "Permission denied" naming the membership listing, without the response bodies; any other error propagates |
| Memberships.DeniedErrorKeepsStatus | src/openproject_mcp/core/tools/memberships.py:106-114 | only a 403 is rewritten, and the status is never changed |
| Memberships.MembershipId | src/openproject_mcp/core/tools/memberships.py:118-124 | a present, non-`None` `id` is the membership id |
| Memberships.PickedMembers | src/openproject_mcp/core/tools/memberships.py:61-68 | a value is picked exactly when some dict element holds it, truthy, under the key |
| Memberships.RoleNames | src/openproject_mcp/core/tools/memberships.py:56-69 | every role name returned is truthy |
| Memberships.RolesFromMembership | src/openproject_mcp/core/tools/memberships.py:56-69 | the loop returns the truthy names of the embedded roles, then the truthy titles of the role links, each in order, as `RoleNames` defines them |
| Memberships.PageAt | src/openproject_mcp/core/tools/memberships.py:96-114 | a page that is fetched is returned as it is |
| Memberships.ScanBounded | src/openproject_mcp/core/tools/memberships.py:95-143 | a successful scan makes at most `max_pages` requests, at least one when any is allowed, and has a last page exactly when it made one |
| Memberships.ShortFirstPage | src/openproject_mcp/core/tools/memberships.py:142-143 | a first page shorter than `page_size` is the only one requested |
| Memberships.AppendMembers | src/openproject_mcp/core/tools/memberships.py:117-138 | the inner loop appends one item per element of the batch, in order, or raises the first element's error |
| Memberships.MapResultErrorSticks | src/openproject_mcp/core/tools/memberships.py:117-138 | an element that raises makes the whole page raise with its error |
| Memberships.ScanStep | src/openproject_mcp/core/tools/memberships.py:140-143 | a full page is followed by what the remaining requests gather at the next offset |
| Memberships.ScanPage | src/openproject_mcp/core/tools/memberships.py:96-138 | one turn reads the page at the offset and appends its items |
| Memberships.ScanMemberships | src/openproject_mcp/core/tools/memberships.py:89-143 | the loop computes `ScanPages`: at most `max_pages` requests at offsets 0, p, 2p, ..., stopping after a page with fewer than `page_size` elements, the items gathered in order |
| Memberships.Total | src/openproject_mcp/core/tools/memberships.py:150-153 | the total of the last page read, and `None` when no page was requested; on a page read it agrees with the code as written |
| Memberships.NoPagesNoTotal | src/openproject_mcp/core/tools/memberships.py:95-150 | with `max_pages` at most 0 no page is requested and the code as written raises on the unbound `payload` |
| Memberships.SortByNameId | src/openproject_mcp/core/tools/memberships.py:145-148 | the sort succeeds exactly when every truthy name is a string and every two items whose normalised names tie have ids Python can order (both numeric or falsy, both non-empty strings, or equal); otherwise it raises a TypeError |
| Memberships.SingleItemSorts | src/openproject_mcp/core/tools/memberships.py:145-148 | one item with a usable name sorts whatever its id, since no pair is compared |
| Memberships.DistinctNamesSort | src/openproject_mcp/core/tools/memberships.py:145-148 | two items with different normalised names sort whatever their ids, since the ids are never compared |
| Memberships.StringIdsSort | src/openproject_mcp/core/tools/memberships.py:145-148 | two non-empty string ids on a name tie can be ordered |
| Memberships.MixedIdsOnTieRaise | src/openproject_mcp/core/tools/memberships.py:145-148 | an int id and a string id on a name tie raise a TypeError |
| Memberships.UnusableNameRaises | src/openproject_mcp/core/tools/memberships.py:145-148 | a truthy name that is not a string makes the key raise |
| Memberships.SortByNameIdOrders | src/openproject_mcp/core/tools/memberships.py:145-148 | the sorted list is ordered by `(norm(name), id)`, is a permutation, and keeps items with equal keys in their original order |
| MessageMiddleware.ClassifyPayload | src/openproject_mcp/transports/http/message_middleware.py:31-61 | the scan computes `Classification`: a batch is invalid when empty or when any element is not a request, notifications only when every element is one, requests otherwise; a single object is classified alone; anything else is invalid; `valid` is false exactly when the kind is invalid |
| MessageMiddleware.BatchConcat | src/openproject_mcp/transports/http/message_middleware.py:43-54 | a batch classifies as its two halves combine: one invalid element spoils it, one element with an `"id"` makes it requests |
| MessageMiddleware.AllAppend | src/openproject_mcp/transports/http/message_middleware.py:47-51 | every element of a joined batch is a request (a notification) exactly when every element of both halves is |
| MessageMiddleware.SingletonBatch | src/openproject_mcp/transports/http/message_middleware.py:43-61 | a batch of one element classifies as that element alone |
| MessageMiddleware.Receiver.constructor | src/openproject_mcp/transports/http/message_middleware.py:64-65 | a fresh receiver has not yet handed out its body |
| MessageMiddleware.Receiver.Receive | src/openproject_mcp/transports/http/message_middleware.py:67-72 | the first call returns the body, every later call an empty body, never with more to come |
| MessageMiddleware.ReceiveTwice | src/openproject_mcp/transports/http/message_middleware.py:64-74 | the first two reads of a fresh receiver give the whole body once, then nothing |
| MessageMiddleware.ErrorPayload | src/openproject_mcp/transports/http/message_middleware.py:14-28 | the error payload holds `jsonrpc` "2.0", a `None` id and the code and message, plus `request_id` exactly when there is one |
| MessageMiddleware.DispatchOutcomes | src/openproject_mcp/transports/http/message_middleware.py:84-109 | a POST to `/mcp` is answered -32700 with 400 exactly when the body does not decode, -32600 with 400 exactly when the payload is invalid, 202 exactly for notifications only, and is replayed with the identical body exactly when it holds requests |
| MessageMiddleware.EmptyBodyIsInvalidRequest | src/openproject_mcp/transports/http/message_middleware.py:90-102 | an empty POST body reads as `{}`, which is an invalid request |
| MessageMiddleware.OtherRequestsPass | src/openproject_mcp/transports/http/message_middleware.py:85-86 | any other method or path is handed on untouched |
| OriginCors.DevLocalhostAllowlist | src/openproject_mcp/transports/http/origin_cors_middleware.py:17-25 | nothing unless local development is allowed; then exactly http and https on localhost and 127.0.0.1, any port |
| OriginCors.BuildVary | src/openproject_mcp/transports/http/origin_cors_middleware.py:33-39 | the loop computes `Dedup` joined with ", " |
| OriginCors.CoversSnoc | src/openproject_mcp/transports/http/origin_cors_middleware.py:35-38 | one more item covers its own trimmed lower-case form, when non-empty |
| OriginCors.SeenFoldSnoc | src/openproject_mcp/transports/http/origin_cors_middleware.py:37-38 | one more kept token adds its own lower-case form to those seen |
| OriginCors.DedupCovers | src/openproject_mcp/transports/http/origin_cors_middleware.py:33-39 | the kept tokens cover the lower-case form of every non-empty item, and nothing else |
| OriginCors.IsFirstUncovered | src/openproject_mcp/transports/http/origin_cors_middleware.py:37 | an item is a first spelling exactly when it is non-empty and its lower-case form is not yet covered |
| OriginCors.DedupIsFirstSpellings | src/openproject_mcp/transports/http/origin_cors_middleware.py:33-39 | the tokens kept are exactly the first spelling of each lower-case form, trimmed, in item order |
| OriginCors.DedupTokens | src/openproject_mcp/transports/http/origin_cors_middleware.py:33-39 | the kept tokens are non-empty, trimmed, comma-free when the items are, and pairwise distinct ignoring case |
| OriginCors.DedupOfDistinct | src/openproject_mcp/transports/http/origin_cors_middleware.py:33-39 | trimmed, non-empty, pairwise distinct tokens are kept as they are |
| OriginCors.DedupSeesStripped | src/openproject_mcp/transports/http/origin_cors_middleware.py:36 | only the trimmed items matter |
| OriginCors.SplitJoined | src/openproject_mcp/transports/http/origin_cors_middleware.py:39 | splitting the ", "-joined comma-free tokens on "," gives them back, all but the first behind a space |
| OriginCors.StripSpaced | src/openproject_mcp/transports/http/origin_cors_middleware.py:36 | a trimmed token survives a leading space being stripped |
| OriginCors.VaryIdempotent | src/openproject_mcp/transports/http/origin_cors_middleware.py:33-39 | building the Vary value again from its own tokens gives the same string |
| OriginCors.DefaultPortElided | src/openproject_mcp/transports/http/origin_cors_middleware.py:144-152 | the serialised origin is the bare `scheme://host` exactly for http on 80 and https on 443; any other port follows a colon |
| OriginCors.ErrorResponseOf | src/openproject_mcp/transports/http/origin_cors_middleware.py:42-53 | the body holds `error` and `message`, plus `request_id` exactly when there is one; the headers hold the JSON content type, `vary` exactly when a non-empty one is given and `X-Request-Id` exactly when there is a request id |
| OriginCors.VaryOfThree | src/openproject_mcp/transports/http/origin_cors_middleware.py:106-112 | three distinct trimmed names pass through `_build_vary` unchanged, in order |
| OriginCors.DistinctByLength | src/openproject_mcp/transports/http/origin_cors_middleware.py:106-112 | names of different lengths are distinct ignoring case |
| OriginCors.PreflightHeaders | src/openproject_mcp/transports/http/origin_cors_middleware.py:101-127 | the preflight allows the serialised origin, POST and OPTIONS plus GET when SSE is enabled, credentials "true" exactly when configured, and a max age exactly when it is positive |
| OriginCors.PreflightVary | src/openproject_mcp/transports/http/origin_cors_middleware.py:106-119 | the preflight varies on `Origin` and both `Access-Control-Request-*` headers, each once, in that order |
| OriginCors.ApplyCorsHeaders | src/openproject_mcp/transports/http/origin_cors_middleware.py:129-142 | the response's headers become `CorsHeaders` of the old ones; the status is unchanged |
| OriginCors.DedupPair | src/openproject_mcp/transports/http/origin_cors_middleware.py:136 | merging a name into a Vary value keeps the trimmed value, then the name unless the value already spells it |
| OriginCors.SameSpellingToken | src/openproject_mcp/transports/http/origin_cors_middleware.py:136 | a value spelling the name ignoring case is its own single token |
| OriginCors.AppendedNameToken | src/openproject_mcp/transports/http/origin_cors_middleware.py:136 | joining a value and a name leaves the name as the last token |
| OriginCors.MergedVaryHasName | src/openproject_mcp/transports/http/origin_cors_middleware.py:136 | the merged Vary has a token with the name's lower-case form |
| OriginCors.CorsHeadersProps | src/openproject_mcp/transports/http/origin_cors_middleware.py:129-142 | Allow-Origin is the serialised origin, Expose-Headers the configured list, Allow-Credentials "true" when configured, a Vary header is present, no header is removed, and every other header keeps its value |
| OriginCors.MergedVaryHasOrigin | src/openproject_mcp/transports/http/origin_cors_middleware.py:131-136 | the merge always leaves a Vary token that is `Origin` |
| OriginCors.CorsVaryHasOrigin | src/openproject_mcp/transports/http/origin_cors_middleware.py:131-136 | after `_apply_cors_headers` some Vary token is `Origin`, whatever Vary held before |
| OriginCors.DispatchCases | src/openproject_mcp/transports/http/origin_cors_middleware.py:66-99 | without an Origin the request passes with no CORS headers; with one it is refused with 403 `origin_denied` exactly when it does not parse or matches no allowed origin; only an allowed OPTIONS to the MCP path or `/mcp-sse` gets the 204 preflight; otherwise it passes and gets the CORS headers |
| Collections.Dicts | src/openproject_mcp/core/tools/_collections.py:17 | the dict filter never adds elements |
| Collections.DictsAreTheDictElements | src/openproject_mcp/core/tools/_collections.py:17 | the dicts kept are exactly the dict elements, in their original order |
| Collections.DictsKeepAllIffAllDicts | src/openproject_mcp/core/tools/_collections.py:17 | nothing is dropped exactly when every element is a dict |
| Collections.EmbeddedElements | src/openproject_mcp/core/tools/_collections.py:8-17 | a missing `_embedded` or `elements` gives `[]`; `elements` that is not a list raises the ValueError; a success holds at most as many elements as the list |
| Collections.EmbeddedElementsOfPage | src/openproject_mcp/core/tools/_collections.py:8-17 | a collection page built from dicts gives those dicts back |
| Paging.ClampPageSize | src/openproject_mcp/tools/projects.py:13-15 | the page size lies in 1..200; a size in range is kept, a smaller one becomes 1 and a larger one 200 |
| Paging.NextOffset | src/openproject_mcp/tools/projects.py:58-60 | there is a next offset exactly when the total is an int greater than `offset + page_size`, and it is that sum |
| Paging.LastPageCoversTotal | src/openproject_mcp/tools/projects.py:58-60 | following `next_offset` from inside the collection ends on a page that is inside it and reaches its end: no record is skipped and no page past the end is requested |
| Projects.ListProjects | src/openproject_mcp/tools/projects.py:18-68 | a negative offset raises; a failed request propagates; otherwise the items are the id and name of each project kept by the name filter, in payload order; the total is the payload's int `total`, else the number of items; a listing echoes the offset and the clamped page size, and its next offset follows the `next_offset` rule on its total |
| Projects.ListProjectsOneRequest | src/openproject_mcp/tools/projects.py:40-43 | only the one request for the clamped page is read |
| Projects.NarrowKeepsMatches | src/openproject_mcp/tools/projects.py:48-50 | the name filter keeps exactly the projects whose casefolded name contains the trimmed, casefolded needle |
| Projects.BlankNeedleKeepsAll | src/openproject_mcp/tools/projects.py:48-50 | a needle of blanks keeps every project |
| Projects.TotalFallsBackToCount | src/openproject_mcp/tools/projects.py:52-56 | without an integer `total` in the payload, the total is the number of projects listed |
| Queries.ComputeNextOffset | src/openproject_mcp/core/tools/queries.py:12-38 | no next page when the total, the page size or the offset is not an int; a next page is always the page after `offset` |
| Queries.NextPageIffRecordsRemain | src/openproject_mcp/core/tools/queries.py:30-38 | when `count` is what the page really holds, a next page is announced exactly when records exist past the current page |
| Queries.ShortCountAnnouncesEmptyPage | src/openproject_mcp/core/tools/queries.py:34-36 | a `count` short of the page announces a page past the end: one record of two on page 1 of size 2 gives page 2 |
| Queries.LastPageHoldsLastRecord | src/openproject_mcp/core/tools/queries.py:30-32 | following `next_offset` from a page inside the results ends on the page holding the last record: no page is skipped and no empty page is requested |
| Queries.IntOr | src/openproject_mcp/core/tools/queries.py:77-87 | an int field is taken, and anything else falls back |
| Queries.QueryToSummary | src/openproject_mcp/core/tools/queries.py:41-50 | without `_links` the summary holds the scalar fields, no href and no project id; a `_links` that is not a dict raises |
| Queries.QuerySummaryOfPayload | src/openproject_mcp/core/tools/queries.py:41-50 | summarising a served query gives back its id, name and `self` href, and the project id its project href ends in |
| Queries.Summaries | src/openproject_mcp/core/tools/queries.py:73 | the summaries of all elements in order; the list raises exactly when one element does |
| Queries.ListRequest | src/openproject_mcp/core/tools/queries.py:63-70 | the GET of `/api/v3/queries` at the offset, with the clamped page size, and a project filter exactly when a project is given |
| Queries.ListQueries | src/openproject_mcp/core/tools/queries.py:53-100 | a failed GET propagates; one summary per embedded element; the payload's int `pageSize`, `offset` and `count` take precedence over the requested size, the requested offset and the number of items; the total is the payload's int `total`; the next offset is computed from that total and the reported page size, offset and count, and when present is the page after the offset |
| Queries.ListQueriesItemsInOrder | src/openproject_mcp/core/tools/queries.py:72-73 | the items are the summaries of the embedded elements in order, and the listing raises exactly when one of them does |
| Queries.SecondPageOfThree | src/openproject_mcp/core/tools/queries.py:30-32 | page 1 of size 2 out of 3 announces page 2 |
| Queries.RunRequest | src/openproject_mcp/core/tools/queries.py:111-118 | the GET of the query's path at the page number, with the clamped size and no filter |
| Queries.RunQueryError | src/openproject_mcp/core/tools/queries.py:119-129 | a 404 becomes "Query not found."; any other error propagates unchanged |
| Queries.RunQueryErrorKeeps | src/openproject_mcp/core/tools/queries.py:120-128 | the rewrite keeps the status and both response bodies, and names the GET of the query |
| Queries.ResultsOf | src/openproject_mcp/core/tools/queries.py:131-135 | without `_embedded` the results are an empty dict |
| Queries.DictsIn | src/openproject_mcp/core/tools/queries.py:136-141 | iterating a list keeps its dict elements; iterating `None`, a bool or an int raises |
| Queries.ResultElements | src/openproject_mcp/core/tools/queries.py:136-141 | results that are not a dict hold no elements |
| Queries.RunQuery | src/openproject_mcp/core/tools/queries.py:103-169 | a failed GET is rewritten as above; a response succeeds exactly when its results and their elements can be read; the run carries the query id, the dict elements of `results._embedded.elements` in order, the results' int `total`, and the int `count`, `pageSize` and `offset` of the results, which fall back to the number of items, the clamped page size and the requested page; the next offset is computed from those, and when present is the page after the offset |
| Queries.RunQueryNonDictResults | src/openproject_mcp/core/tools/queries.py:131-169 | results that are not a dict give an empty page at the requested page number and the clamped size, with no total and no next page |
| Queries.RunQueryAgreesOnDictResults | src/openproject_mcp/core/tools/queries.py:131-169 | where the results are a dict, the code as written and the guarded reads agree |
| Queries.NullResultsRaise | src/openproject_mcp/core/tools/queries.py:143-152 | `"results": null` makes the code as written raise where the guarded reads give an empty page |
| Queries.RunQueryFirstPage | src/openproject_mcp/core/tools/queries.py:103-169 | page 1 of size 2 out of 3 results returns both work packages and announces page 2 |
| RateLimit.WindowStart | src/openproject_mcp/transports/http/rate_limit.py:67 | the window start is the multiple of `window_s` at or below `now`, less than one window away |
| RateLimit.LruUnique | src/openproject_mcp/transports/http/rate_limit.py:84-88 | the least entry by `(last_used_seq, key)` is unique, so the eviction victim is determined |
| RateLimit.LeastRecentlyUsed | src/openproject_mcp/transports/http/rate_limit.py:85-88 | `min` over the entries returns the entry with the smallest `(last_used_seq, key)` |
| RateLimit.SweepSize | src/openproject_mcp/transports/http/rate_limit.py:70-78 | the TTL sweep never grows the table |
| RateLimit.AdmittedTable | src/openproject_mcp/transports/http/rate_limit.py:80-112 | the lookup and the limit test leave the swept table with only the caller's entry changed, and with only the least recently used entry dropped when a new key arrives at capacity |
| RateLimit.FixedWindowLimiter.constructor | src/openproject_mcp/transports/http/rate_limit.py:38-53 | the limiter starts with its settings, an empty table and sequence number 0, and satisfies its invariant |
| RateLimit.FixedWindowLimiter.ResetEpoch | src/openproject_mcp/transports/http/rate_limit.py:114-116 | the reset epoch is the end of the window holding `now`: within one window after `now` |
| RateLimit.FixedWindowLimiter.SweepIdle | src/openproject_mcp/transports/http/rate_limit.py:70-78 | every entry idle for at least `ttl_windows` windows is deleted and every other entry is kept unchanged |
| RateLimit.FixedWindowLimiter.AdmitKey | src/openproject_mcp/transports/http/rate_limit.py:80-96 | a known key keeps its entry and the table; a new key gets a fresh entry, after evicting the least recently used entry when the table is full; the table never exceeds `max_keys` |
| RateLimit.FixedWindowLimiter.CheckAndIncrement | src/openproject_mcp/transports/http/rate_limit.py:59-112 | the sequence number grows by one; the request passes exactly when the count in the current window is below the limit; the new table is the swept table with the caller's entry stamped and counted; the remaining count and the retry-after follow the source; the invariant (at most `max_keys` entries, counts within the limit) is kept |
| RateLimit.FixedWindowLimiter.Charge | src/openproject_mcp/transports/http/rate_limit.py:98-112 | a new window resets the count; the entry is stamped; the request is counted exactly when the count is below the limit |
| RateLimit.RetryAfterIsResetEpoch | src/openproject_mcp/transports/http/rate_limit.py:107-116 | a refused caller waits between 1 and `window_s` seconds, exactly until the reset epoch |
| RateLimit.LimitOneFrozenClock | src/openproject_mcp/transports/http/rate_limit.py:59-112 | with a limit of 1 and the clock standing still, the first request passes and the second is refused until the window ends |
| SecurityHeaders.DefaultsContent | src/openproject_mcp/transports/http/security_headers_middleware.py:23-42 | the defaults are the five baseline headers with their fixed values, CSP exactly when enabled and HSTS exactly when it applies, and nothing else |
| SecurityHeaders.ApplyBaseline | src/openproject_mcp/transports/http/security_headers_middleware.py:24-30 | the five unconditional `setdefault` calls add the baseline under the headers already set; the status is unchanged |
| SecurityHeaders.Apply | src/openproject_mcp/transports/http/security_headers_middleware.py:23-42 | the headers become the defaults under the old headers, HSTS only when enabled and the request is HTTPS; an HTTPS check that raises leaves after the baseline and CSP writes |
| SecurityHeaders.SetDefaultExtends | src/openproject_mcp/transports/http/security_headers_middleware.py:24-41 | one `setdefault` offers one more default under the headers already set |
| SecurityHeaders.ExistingKept | src/openproject_mcp/transports/http/security_headers_middleware.py:23-42 | every header the application set keeps its value, and every header added is one of the seven the middleware knows |
| SecurityHeaders.HeadersPresent | src/openproject_mcp/transports/http/security_headers_middleware.py:23-42 | the baseline five are always present, with the fixed value unless the application set its own; CSP and HSTS are present only when they apply or were already set |
| SecurityHeaders.ApplyIdempotent | src/openproject_mcp/transports/http/security_headers_middleware.py:23-42 | applying the defaults a second time changes nothing |
| Ops.IsOpsPath | src/openproject_mcp/transports/http/ops.py:5-9 | a path is an ops path exactly when it is `/healthz` or `/readyz` |
| Ops.BuildReadinessStatus | src/openproject_mcp/transports/http/ops.py:12-19 | the report echoes the checks, lists the failed ones, and its status is "ok" or "fail" |
| Ops.FailedNames | src/openproject_mcp/transports/http/ops.py:13 | a name is reported failed exactly when some check of that name did not pass |
| Ops.StatusOk | src/openproject_mcp/transports/http/ops.py:14 | the status is "ok" exactly when every check passed |
| Ops.FailedInOrder | src/openproject_mcp/transports/http/ops.py:13 | failed names keep the order of the checks |
| HttpConfig.GetBoolEnvCases | src/openproject_mcp/transports/http/config.py:7-17 | a true spelling gives true and a false spelling false whatever the default; the default decides exactly when the variable is missing or is none of the twelve spellings |
| HttpConfig.SpellingsDisjoint | src/openproject_mcp/transports/http/config.py:13-16 | no spelling means both true and false |
| HttpConfig.NormaliseIdempotent | src/openproject_mcp/transports/http/config.py:12 | trimming and lower-casing twice is doing it once |
| HttpConfig.OnlyNormalisedMatters | src/openproject_mcp/transports/http/config.py:12-17 | the answer depends only on the trimmed, lower-cased value |
| Observability.CleanFields | src/openproject_mcp/core/observability.py:30-31 | the cleaned fields are exactly the unreserved ones, with their values |
| Observability.CleanIdempotent | src/openproject_mcp/core/observability.py:30-31 | cleaning twice is cleaning once |
| Observability.CleanKeepsUnreserved | src/openproject_mcp/core/observability.py:30-31 | a map with no reserved name is its own cleaning, and only such a map is |
| Observability.LogExtra | src/openproject_mcp/core/observability.py:41 | the `extra` holds `event` and exactly the unreserved fields |
| Observability.LogExtraContent | src/openproject_mcp/core/observability.py:34-42 | the `extra` names the event, holds every unreserved field with its value and no reserved one |
| Observability.LogInfo | src/openproject_mcp/core/observability.py:42 | `logger.info` with INFO enabled raises `KeyError` exactly when an `extra` key is a `LogRecord` attribute, `message` or `asctime`; disabled, it never raises |
| Observability.SafeFields | src/openproject_mcp/core/observability.py:30-31 | the corrected filter keeps exactly the fields `LogRecord` accepts, with their values |
| Observability.LogEventNeverRaises | src/openproject_mcp/core/observability.py:34-42 | the corrected `log_event` never raises (no field can be named `event`, the positional parameter) and an enabled logger receives the event name and every accepted field |
| Observability.MessageFieldRaises | src/openproject_mcp/core/observability.py:41-42 | the code as written raises `KeyError` for a field named `message` when INFO is enabled |
| Observability.AsWrittenAgreesWithoutClash | src/openproject_mcp/core/observability.py:34-42 | without a `message` or `asctime` field, the code as written and the corrected one log the same `extra` |
| CoreImports.SubmoduleForbidden | scripts/check_core_imports.py:27-31 | every module below a forbidden prefix, at any depth, is forbidden |
| CoreImports.StarletteRoutingForbidden | scripts/check_core_imports.py:16-31 | `starlette.routing` is forbidden |
| CoreImports.StarlettexAllowed | scripts/check_core_imports.py:27-31 | a module that only shares the first letters, `starlettex`, is not forbidden |
| CoreImports.ErrorTextInjective | scripts/check_core_imports.py:42-46 | different modules give different messages for the same file |
| CoreImports.ScanImport | scripts/check_core_imports.py:38-42 | the inner loop reports each forbidden name of an `import`, in order |
| CoreImports.ImportErrorsSnoc | scripts/check_core_imports.py:39-42 | one more name adds its message exactly when it is forbidden |
| CoreImports.ScanFile | scripts/check_core_imports.py:34-47 | the scan computes `FileErrors`, node by node in walk order |
| CoreImports.NodeErrorsMeaning | scripts/check_core_imports.py:38-46 | a node reports a module exactly when it imports it and the module is forbidden |
| CoreImports.ImportsSnoc | scripts/check_core_imports.py:37 | a file imports a module when its last node does or the nodes before it do |
| CoreImports.FileErrorsMeaning | scripts/check_core_imports.py:34-47 | a file's messages name exactly the forbidden modules it imports by name or by absolute `from` |
| CoreImports.RelativeImportIgnored | scripts/check_core_imports.py:44-45 | a relative `from . import` adds nothing |
| CoreImports.CheckCore | scripts/check_core_imports.py:50-59 | the run collects every file's violations in order and exits 1 exactly when there are any, 0 otherwise |
| CoreImports.FailsIffSomeFileViolates | scripts/check_core_imports.py:50-59 | the run fails exactly when some file has a violation |
| TimeParser.MatchAt | src/openproject_mcp/utils/time_parser.py:7-8 | a match of `(\d+(?:\.\d+)?)` and the unit spans at least two characters of the text and captures a non-negative decimal |
| TimeParser.Scan | src/openproject_mcp/utils/time_parser.py:62-66 | the sum over all matches, scanning left to right, is never negative |
| TimeParser.SumMatches | src/openproject_mcp/utils/time_parser.py:62-66 | the loop over `finditer` returns the sum of every captured decimal, as `Scan` defines it |
| TimeParser.ScanAdvance | src/openproject_mcp/utils/time_parser.py:64-65 | one step of `finditer`: a match is summed and skipped whole, otherwise one character is skipped |
| TimeParser.RoundHalfUp | src/openproject_mcp/utils/time_parser.py:37-38 | the result is the nearest integer, halves rounded away from zero |
| TimeParser.ParseDurationString | src/openproject_mcp/utils/time_parser.py:15-59 | the method computes `ParseDuration`: `None`, normalisation, then the checks and the scans |
| TimeParser.ParseNormalizedString | src/openproject_mcp/utils/time_parser.py:28-59 | the method computes `ParseNormalized` on the normalised text |
| TimeParser.ParseNormalizedRounded | src/openproject_mcp/utils/time_parser.py:33-45 | a non-empty normalised text without `-` yields the designators of `hours * 60 + minutes`, rounded half-up |
| TimeParser.ConcatDurationParts | src/openproject_mcp/utils/time_parser.py:49-59 | the joined `parts` list is `PT`, then `{h}H` when `h` is non-zero, then `{m}M` when `m` is non-zero |
| TimeParser.NormalizeKeepsChar | src/openproject_mcp/utils/time_parser.py:27 | lower-casing, stripping and collapsing whitespace keep exactly the characters that are neither letters nor whitespace |
| TimeParser.NegativeRefused | src/openproject_mcp/utils/time_parser.py:30-31 | any `-` anywhere in the input is refused as a negative duration |
| TimeParser.ScanWithoutDigits | src/openproject_mcp/utils/time_parser.py:7-8 | a text without digits has no token and sums to zero |
| TimeParser.NoDigitsRefused | src/openproject_mcp/utils/time_parser.py:36-43 | an input without digits is refused |
| TimeParser.NoDigitsNormalized | src/openproject_mcp/utils/time_parser.py:36-43 | a non-empty normalised text without digits or `-` is refused as not greater than zero |
| TimeParser.BlankRefused | src/openproject_mcp/utils/time_parser.py:27-29 | an empty or all-whitespace input is refused as required |
| TimeParser.FromMinutesPositive | src/openproject_mcp/utils/time_parser.py:45-59 | a positive whole number of minutes always yields `PT` and its hours and minutes designators, so the last error is never raised |
| TimeParser.ScanToken | src/openproject_mcp/utils/time_parser.py:7-8 | a whole number followed by the unit letter is one token of that value |
| TimeParser.ScanForeignToken | src/openproject_mcp/utils/time_parser.py:7-8 | a whole number followed by a letter other than the unit contributes nothing to that unit |
| TimeParser.ScanDecimal | src/openproject_mcp/utils/time_parser.py:7-8 | a decimal followed by the unit letter is one token of its exact value |
| TimeParser.ParseDurationIdempotent | src/openproject_mcp/utils/time_parser.py:15-59 | every output is accepted again and yields itself |
| TimeParser.FromMinutesHM | src/openproject_mcp/utils/time_parser.py:45-59 | `h * 60 + m` minutes with `m < 60` yield `PT{h}H{m}M`, each part present only when non-zero |
| TimeParser.ExampleHours | src/openproject_mcp/utils/time_parser.py:15-59 | `"2h"` yields `"PT2H"` |
| TimeParser.ExampleMinutes | src/openproject_mcp/utils/time_parser.py:15-59 | `"30m"` yields `"PT30M"` |
| TimeParser.ExampleCompact | src/openproject_mcp/utils/time_parser.py:15-59 | `"2h30m"` yields `"PT2H30M"` |
| TimeParser.ExampleSpaced | src/openproject_mcp/utils/time_parser.py:15-59 | `"2h 30m"` yields `"PT2H30M"` |
| TimeParser.ExampleDecimal | src/openproject_mcp/utils/time_parser.py:15-59 | `"1.5h"` yields `"PT1H30M"` |
| TimeParser.ExampleRounding | src/openproject_mcp/utils/time_parser.py:15-59 | `"1.25h"` yields `"PT1H15M"`: 75 minutes exactly |
| TimeParser.ExampleInvalid | src/openproject_mcp/utils/time_parser.py:40-43 | `"invalid"` is refused as not greater than zero |
| TimeParser.ExampleNegative | src/openproject_mcp/utils/time_parser.py:30-31 | `"-1h"` is refused as negative |
| TrustedProxy.IpInTrusted | src/openproject_mcp/transports/http/trusted_proxy.py:17-22 | an address that does not parse raises before any network is read; true only when some network holds the address |
| TrustedProxy.TrustedSearchFound | src/openproject_mcp/transports/http/trusted_proxy.py:19-21 | a search that answers true has met a network holding the address |
| TrustedProxy.TrustedSearchIsAny | src/openproject_mcp/transports/http/trusted_proxy.py:19-22 | when every network parses, the answer is whether some network holds the address |
| TrustedProxy.HttpsCases | src/openproject_mcp/transports/http/trusted_proxy.py:25-49 | a request is HTTPS exactly when its scheme is https in any case, or it came from a trusted proxy whose `Forwarded` or `X-Forwarded-Proto` says so; it raises only when the peer address or a network does not parse |
| TrustedProxy.UntrustedHeadersIgnored | src/openproject_mcp/transports/http/trusted_proxy.py:30-35 | unless the peer is a trusted proxy, the proxy headers are ignored and the request's own scheme decides |
| TrustedProxy.DirectHttps | src/openproject_mcp/transports/http/trusted_proxy.py:27-28 | a direct HTTPS request is HTTPS whatever the configuration and headers |
| TrustedProxy.ForwardedPartAnywhere | src/openproject_mcp/transports/http/trusted_proxy.py:37-43 | a `proto=https` part counts wherever it stands among the ";" parts of `Forwarded`, in any case and spacing |
| TrustedProxy.FirstForwardedProtoOnly | src/openproject_mcp/transports/http/trusted_proxy.py:45-47 | only the first `X-Forwarded-Proto` value is read |
| Users.CfDigits | src/openproject_mcp/core/tools/users.py:14-57 | a key matches `^customField(\d+)$` only as the prefix followed by digits (Python's `$` also allows one final newline), and the captured group is those digits |
| Users.CfDigitsMatch | src/openproject_mcp/core/tools/users.py:14 | every `customField<digits>` key matches, with or without a final newline, and captures its digits |
| Users.InitField | src/openproject_mcp/core/tools/users.py:17-25 | a fresh accumulator keeps the key, has no value, title, href or links, and has an id exactly when the id part is all digits |
| Users.InitFieldNumbered | src/openproject_mcp/core/tools/users.py:17-25 | the field numbered n gets the id n |
| Users.MergeLink | src/openproject_mcp/core/tools/users.py:28-40 | a non-dict item changes nothing; a dict appends its entry, and title, href and value are only filled while still `None` |
| Users.MergeLinks | src/openproject_mcp/core/tools/users.py:73-75 | the inner loop merges the items one after the other, as `MergeAll` defines |
| Users.MergeAllLinks | src/openproject_mcp/core/tools/users.py:28-75 | after a list is merged, `links` holds one entry per dict item, in list order |
| Users.MergeAllValue | src/openproject_mcp/core/tools/users.py:39-75 | the value is the earlier one, else the first non-`None` title of the items |
| Users.MergeAllTitle | src/openproject_mcp/core/tools/users.py:35-75 | the title is the earlier one, else the first truthy title |
| Users.MergeAllHref | src/openproject_mcp/core/tools/users.py:37-75 | the href is the earlier one, else the first truthy href |
| Users.MergeAllKey | src/openproject_mcp/core/tools/users.py:28-40 | merging never changes the key or the id |
| Users.Accumulated | src/openproject_mcp/core/tools/users.py:58-71 | each accumulator is stored under its own key |
| Users.InsertStrict | src/openproject_mcp/core/tools/users.py:79-81 | inserting a field with a new sort key keeps the list strictly sorted |
| Users.SortKeysDiffer | src/openproject_mcp/core/tools/users.py:79-81 | fields with different keys have different sort keys, so the order is total |
| Users.SortFields | src/openproject_mcp/core/tools/users.py:79-81 | the sort returns exactly the accumulators, strictly ordered by (id or 0, key) |
| Users.RootPass | src/openproject_mcp/core/tools/users.py:51-59 | the first loop makes one accumulator per matching root property, holding that property's value |
| Users.MergeLinkField | src/openproject_mcp/core/tools/users.py:71-77 | one link name's accumulator (the root one, or a new one) absorbs its link items |
| Users.LinkPass | src/openproject_mcp/core/tools/users.py:61-77 | after the `_links` loop every matching root or link key has its accumulator, as both passes leave it |
| Users.ExtractCustomFields | src/openproject_mcp/core/tools/users.py:43-81 | the result holds one accumulator per matching key, as both passes leave it, in increasing (id or 0, key) order |
| Users.RootValueKept | src/openproject_mcp/core/tools/users.py:39-59 | a non-`None` root value stays the field's value even when links for the same key exist |
| Users.LinkOnlyField | src/openproject_mcp/core/tools/users.py:28-77 | a field with only links takes the first non-`None` link title as value, the first truthy title and href, and one entry per dict item |
| Users.FieldsDistinct | src/openproject_mcp/core/tools/users.py:49-81 | no two fields of the result share a key |
| Users.ContactEmail | src/openproject_mcp/core/tools/users.py:85-87 | the email is "mail" when it is truthy, and "email" otherwise |
| Users.ContactEmailVisible | src/openproject_mcp/core/tools/users.py:87 | an email is reported exactly when "mail" or "email" is truthy |
| Users.UserPayloadToProfile | src/openproject_mcp/core/tools/users.py:84-103 | the profile fails only where reading the self link fails; otherwise it copies the user's attributes, the email and the self href, and holds the extracted custom fields |
| Users.UserLookupError | src/openproject_mcp/core/tools/users.py:117-131 | a 403 becomes "Permission denied: unable to view this user.", a 404 "User not found or insufficient permissions...", and any other error propagates unchanged |
| Users.UserLookupErrorKeeps | src/openproject_mcp/core/tools/users.py:123-130 | the rewrite keeps the status code and both response bodies, and names the GET of the user |
| Users.GetUserById | src/openproject_mcp/core/tools/users.py:106-133 | a failed GET raises the rewritten error; a payload becomes its profile |
| Users.MatchPrincipalByName | src/openproject_mcp/core/tools/users.py:142-154 | an error is either the "ambiguous" or the "not found" message for the name |
| Users.MatchPrincipalByNameSound | src/openproject_mcp/core/tools/users.py:142-149 | an id returned belongs to a principal whose name matched exactly or, uniquely, partially |
| Users.UsersPageSize | src/openproject_mcp/core/tools/users.py:210-212 | a negative offset raises "offset must be >= 0"; otherwise the page size is clamped to 1..200 and a page size in range is kept |
| Users.ApplyEmailFilter | src/openproject_mcp/core/tools/users.py:224-240 | without a filter the users pass unchanged; with one, exactly the users whose email contains the trimmed, casefolded needle remain, in order, and the warning is added exactly when no user showed an email; a shown email that is not a string raises |
| Users.BlankFilterKeepsAll | src/openproject_mcp/core/tools/users.py:227-234 | a filter of only whitespace keeps every user |
| WorkPackages.NormValueEmpty | src/openproject_mcp/tools/work_packages.py:91-95 | a value normalises to "" exactly when it is not a string or is all whitespace |
| WorkPackages.NormCollapsedWords | src/openproject_mcp/tools/work_packages.py:94-95 | whitespace runs inside a name collapse to one space, so a space and a tab read as one space |
| WorkPackages.MatchPrincipal | src/openproject_mcp/tools/work_packages.py:135-148 | an error is either the "ambiguous" or the "not found" message for the query |
| WorkPackages.MatchVersion | src/openproject_mcp/tools/work_packages.py:151-165 | an error is either the "ambiguous" or the "not found" message for the query |
| WorkPackages.MatchByNameSound | src/openproject_mcp/tools/work_packages.py:135-165 | an id returned belongs to a candidate whose normalised name equals the query or contains it |
| WorkPackages.UniqueExactWins | src/openproject_mcp/tools/work_packages.py:137-155 | the only exact match, when it has an id, is the answer |
| WorkPackages.UniquePartialWins | src/openproject_mcp/tools/work_packages.py:141-159 | the only partial match, when it has an id, is the answer |
| WorkPackages.TwoExactAmbiguous | src/openproject_mcp/tools/work_packages.py:144-164 | two exact matches, wherever they stand, raise the ambiguity error |
| WorkPackages.BlankQueryNoPartial | src/openproject_mcp/tools/work_packages.py:141-157 | an empty query never matches partially |
| WorkPackages.ResolveProjectId | src/openproject_mcp/tools/work_packages.py:315-347 | errors are ValueErrors listing names: the not-found error lists every project name in listing order, the ambiguity error more than one matching name |
| WorkPackages.ResolveProjectIdSound | src/openproject_mcp/tools/work_packages.py:325-341 | the id found belongs to a listed project matched by identifier, by exact name or by name substring |
| WorkPackages.IdentifierFirst | src/openproject_mcp/tools/work_packages.py:330-333 | the first identifier match wins, even over an earlier project whose name matches |
| WorkPackages.ResolveProjectIdAgrees | src/openproject_mcp/tools/work_packages.py:315-347 | for a non-numeric query this lookup picks the same project as the metadata tools' type lookup |
| WorkPackages.PrefixesDiffer | src/openproject_mcp/tools/work_packages.py:344-347 | the ambiguity and the not-found errors can be told apart by their text |
| WorkPackages.AmbiguousStage | src/openproject_mcp/tools/work_packages.py:338-344 | an ambiguity error comes only from the substring stage, with more than one match, and lists exactly their names |
| WorkPackages.ResolveProjectIdAmbiguousNames | src/openproject_mcp/tools/work_packages.py:342-344 | the ambiguity error names the same projects as the type lookup's candidates, in listing order rather than sorted |
| WorkPackages.NumericId | src/openproject_mcp/tools/work_packages.py:246-282 | an int is the id, and a string is an id exactly when it is all ASCII digits once stripped, with that decimal value |
| WorkPackages.NumericIdOfDecimal | src/openproject_mcp/tools/work_packages.py:248-249 | the decimal form of n, padded with whitespace, takes the fast path back to n |
| WorkPackages.StripPadded | src/openproject_mcp/tools/work_packages.py:248 | stripping removes the padding around a word |
| WorkPackages.NumericIdNeedsDigits | src/openproject_mcp/tools/work_packages.py:248 | a string holding anything but digits and whitespace never takes the fast path |
| WorkPackages.ResolveVersion | src/openproject_mcp/tools/work_packages.py:240-270 | the fast path first; an unknown project raises; a 403 or 404 on the version listing is re-raised with a hint, keeping status and bodies; otherwise the name is matched among the versions |
| WorkPackages.ResolvePrincipal | src/openproject_mcp/tools/work_packages.py:273-312 | the fast path first; a failure of the assignee listing other than 403 or 404 propagates |
| WorkPackages.AvailableAssigneesFirst | src/openproject_mcp/tools/work_packages.py:292-294 | a match among the available assignees is final: memberships and the global resolver are never consulted |
| WorkPackages.MembershipsFinal | src/openproject_mcp/tools/work_packages.py:300-306 | a non-empty membership list decides, its errors included |
| WorkPackages.GlobalResolverLast | src/openproject_mcp/tools/work_packages.py:311-312 | with no assignees and no memberships to search, the global resolver decides |
| WorkPackages.DescriptionRoundTrip | src/openproject_mcp/tools/work_packages.py:35-40 | reading a description object back gives its text; anything without a string `raw` reads as "" (also line 514) |
| WorkPackages.AppendedShape | src/openproject_mcp/tools/work_packages.py:516-522 | the appended text ends with the new text, starts with the existing text right-stripped, and separates the two with a blank line when anything of the existing text remains (also lines 695-697) |
| WorkPackages.AppendedIgnoresTrailingSpace | src/openproject_mcp/tools/work_packages.py:517 | trailing whitespace of the existing text makes no difference (also line 696) |
| WorkPackages.AppendedTwice | src/openproject_mcp/tools/work_packages.py:695-697 | appending twice keeps both texts, in order, separated by blank lines |
| WorkPackages.AppendDescription | src/openproject_mcp/tools/work_packages.py:679-702 | a work package without `lockVersion` raises the 422; otherwise the body holds exactly the lock version and the appended description |
| WorkPackages.RewriteAppendError | src/openproject_mcp/tools/work_packages.py:710-721 | a 409 on the PATCH gets the "updated by someone else" message and loses its bodies; any other error propagates |
| WorkPackages.EstimatedTime | src/openproject_mcp/tools/work_packages.py:543-550 | a value starting with "PT" is passed through; anything else goes through the duration parser, whose error becomes a ValueError |
| WorkPackages.EstimatedTimeStable | src/openproject_mcp/tools/work_packages.py:543-550 | a duration the update produced is passed through unchanged by a second update |
| WorkPackages.LookUp | src/openproject_mcp/tools/work_packages.py:553-609 | a lookup is made only for a provided field, and its failure propagates |
| WorkPackages.JsonHas | src/openproject_mcp/tools/work_packages.py:567 | membership in a dict is key membership |
| WorkPackages.TypeId | src/openproject_mcp/tools/work_packages.py:595-604 | the project-scoped type lookup when the project is known and it succeeds, else the global lookup |
| WorkPackages.ResolveLinksPresence | src/openproject_mcp/tools/work_packages.py:561-592 | only a given version, assignee or accountable is looked up; an explicit `None` has no id |
| WorkPackages.ResolveLinksIds | src/openproject_mcp/tools/work_packages.py:566-592 | a given version is looked up only when the work package offers a `version` link, and the ids are the resolvers' answers |
| WorkPackages.ResolveTypeLink | src/openproject_mcp/tools/work_packages.py:594-605 | a type link carries the answer of the project-scoped or else the global type lookup |
| WorkPackages.CheckInput | src/openproject_mcp/tools/work_packages.py:494-550 | both descriptions raise first, then a missing `lockVersion`, then a percentage outside [0, 100]; on success the lock version is the current one and an estimated time is sent exactly when given, as parsed |
| WorkPackages.UpdateWith | src/openproject_mcp/tools/work_packages.py:494-612 | the input checks fail first, then the link lookups; a body is built only when both succeed |
| WorkPackages.UpdateOnlyProvided | src/openproject_mcp/tools/work_packages.py:507-612 | only provided fields are sent: the current lock version, the plain fields exactly as given, an estimated time exactly when given, and `_links` exactly when a link field was provided |
| WorkPackages.UpdateLinksProvided | src/openproject_mcp/tools/work_packages.py:552-612 | `_links` holds an entry exactly for each provided link field; an omitted one leaves its key absent |
| WorkPackages.UpdateVersionLink | src/openproject_mcp/tools/work_packages.py:561-572 | a version set to `None` sends `{"href": None}`; a given one links to the resolved version |
| WorkPackages.UpdateAssigneeLink | src/openproject_mcp/tools/work_packages.py:574-582 | an assignee set to `None` sends `{"href": None}`; a given one links to the resolved user |
| WorkPackages.UpdateAccountableLink | src/openproject_mcp/tools/work_packages.py:584-592 | an accountable set to `None` clears `responsible`; a given one links it to the resolved user |
| WorkPackages.UpdateTypeLink | src/openproject_mcp/tools/work_packages.py:594-605 | a type is looked up in the work package's project when its link names one and that lookup succeeds, else globally |
| WorkPackages.UpdateSubjectOnly | src/openproject_mcp/tools/work_packages.py:507-512 | a subject-only update sends exactly the lock version and the subject |
| WorkPackages.UpdateVersionNotWritable | src/openproject_mcp/tools/work_packages.py:566-570 | a given version is refused when the work package offers no `version` link |
| WorkPackages.UpdateDescriptionProvided | src/openproject_mcp/tools/work_packages.py:513-523 | a description is sent exactly when one is given or appended, and a given one replaces the text |
| WorkPackages.UpdateAppendAgrees | src/openproject_mcp/tools/work_packages.py:515-523 | `append_description` sends the same description as the dedicated append tool (also lines 695-701) |
| WorkPackages.UpdateEstimatedSent | src/openproject_mcp/tools/work_packages.py:543-550 | the estimated time sent is the outcome of parsing the given one |
| WorkPackages.UpdateEstimatedStable | src/openproject_mcp/tools/work_packages.py:543-550 | the estimated time sent is passed through unchanged by a second update |
| WorkPackages.ErrorMessages | src/openproject_mcp/tools/work_packages.py:636-640 | the messages kept are truthy and come one per error at most |
| WorkPackages.RewritePatchError | src/openproject_mcp/tools/work_packages.py:618-653 | a 409 and a 422 keep their status and bodies and get a new message; anything else propagates unchanged |
| WorkPackages.RewriteKeepsStatus | src/openproject_mcp/tools/work_packages.py:618-652 | a rewritten 409 or 422 keeps its status and its JSON body |
| WorkPackages.ValidationMessagesJoined | src/openproject_mcp/tools/work_packages.py:641-642 | every error message of the body appears, in order, joined by "; " after "Validation failed: " |
| WorkPackages.ValidationFailedPlain | src/openproject_mcp/tools/work_packages.py:629-645 | a 422 body with no error messages and no `message` says only "Validation failed." |


## Left out

- Asynchronous HTTP I/O (httpx calls, streaming downloads, `await`) is not modelled. Each request is an oracle parameter: a sequence of outcomes for the retrying client, and a page function for the listings.
- `asyncio.sleep` is not modelled. The client model returns the backoff exponent of each wait instead. The float delays (`backoff_base_seconds`) and the latency measurements are left out.
- Clocks are not modelled: `time.time` becomes an integer parameter `now`, in whole seconds.
- Concurrency is not modelled. The rate limiter's `anyio.Lock` is left out because the model is sequential. Request timeouts and context-variable isolation are left out too.
- Tool discovery and registration through reflection (core/registry.py) is not part of this model.
- Starlette/FastMCP wiring is not part of this model: application assembly, the `dispatch` bodies of the rate-limit middlewares, the request-id middleware, bootstrap and logging setup.
- Thin glue with no logic of its own is not part of this model: time entries (a POST over the duration parser), system tools, the smoke test, the compatibility shims and the package inits.
- The HMAC/SHA-256 digest of an API key is taken to be collision-free. The limiter is keyed by the digest string it is given.
- `ipaddress`, `json.loads`, `ast.parse`/`ast.walk`, `rglob`, `mimetypes.guess_type`, base64 decoding and the file system are parameters. Their own behaviour is not modelled.
- Python's `re` is not modelled. The duration parser's token regex is a hand-written scanner (`TimeParser.MatchAt`, `TimeParser.Scan`).
- `str.casefold`, `str.lower`, `str.strip` and `str.split` act on ASCII only: letters A-Z are lowered, and whitespace is the ASCII part of `isspace`. Non-ASCII case folding and Unicode spaces are not modelled.
- Python's `int()` is modelled by `Text.ParseInt`: surrounding ASCII whitespace, an optional sign, then ASCII digits. Underscore separators and non-ASCII digits, which `int()` also accepts, are rejected. `Hal.ParseIdFromHref` uses it on the last segment of an href. The numeric fast paths of the work-package tools (`WorkPackages.NumericId`) take `str.isdigit` as ASCII digits.
- JSON numbers are integers. Floats in API payloads are not modelled.
- Dicts are sequences or maps. Insertion order is kept only where the source's output depends on it (readiness checks, custom fields, and the token order inside `Vary` and inside the joined allow/expose lists).
- Response and session headers are maps, so their insertion order is lost. For example, `Client.Session.Send` puts back the `Content-Type` it popped, and httpx then lists it last; the model cannot say where it stands.
- Pydantic `model_validate` is not modelled: metadata and user models are taken as already validated records.
- The work-package summary conversion `_wp_to_summary` and the core client and model modules are not part of this model. Query results keep each work package as its JSON object.
- The paging helpers of the older work-package tools fetch principals and versions page by page over the network. The model takes the fetched lists as parameters (`WorkPackages.ResolvePrincipal`, `WorkPackages.ResolveVersion`). The same bounded loop is modelled once, in `CoreMetadata.FetchPaginatedItems`.
- The remaining work-package tools (get, list, create, status update, comments, search, and the status/type/version listings) are single requests with no logic beyond the rules modelled here. They are not modelled.
- The global user listing of `get_users` and its fall-back to project memberships are not modelled, because they are driven by the network. The argument checks, the page-size clamp and the email filter are modelled.
- `download_attachment` writes the downloaded bytes to disk. It is I/O and is not modelled. The bounded preview `get_attachment_content` is modelled.
- The older `list_projects` imports `_embedded_elements` from the older metadata module, which does not define it, so importing that module raises `ImportError`. The model's page oracle for `Projects.ListProjects` returns the validated elements, so the model does not depend on that helper.
- The HTTP settings the middlewares read are configuration fields of the model: CSP/HSTS switches, the body limit and its error code, allowed origins, localhost allowance, trusted proxies and CORS settings. src/openproject_mcp/transports/http/config.py defines only `_get_bool_env` and a small `HttpConfig`, so those settings are defined outside this model. `HttpConfig.from_env` is modelled only through `_get_bool_env`.
- `OriginSpec.matches` and `_normalize_origin` are defined outside this model. They are parameters of `OriginCors`.
- Header names are compared case-sensitively, as the middlewares' own checks compare them. Starlette's case-insensitive header lookup is not modelled.
- `SecurityHeaders.Apply`: an exception from `is_https_request` is modelled as a returned flag, after the writes that precede it.
- Logger calls and printing to stderr are I/O and are not modelled. `log_event` is modelled as the `extra` mapping it builds, and as whether `logger.info` accepts it.
- Memberships.SortByNameId: it raises whenever two items tying on the normalised name have ids Python cannot order. Python's sort raises only if it actually compares that pair, which depends on the order of the input. Two different list ids are also taken as failing, although Python orders lists element by element. `LegacyMemberships.SortItems` inherits both simplifications.
- CoreMetadata.ResolveProjectIdForTypes: `str.isdigit` is taken as ASCII digits. Python's `isdigit` also holds for characters such as "²", on which the following `int()` raises `ValueError`. The model looks such a string up by name instead.
- Users.CfDigits: the pattern's `\d` is taken as ASCII digits. Python's `\d` also matches other Unicode decimal digits such as "٣", which the model does not read as a custom-field key.
- Users.InitField: `str.isdigit` is taken as ASCII digits, so a key part made of other Unicode digits gets no id. Python would convert it with `int()`, or raise for a digit such as "²".
- Observability.LogInfo: the refused names are the reserved attributes listed in the source plus `message` and `asctime`. Record attributes added by later Python versions, such as `taskName`, are not modelled.
- TimeParser.SumMatches: the sum is exact. Each `total += Decimal(...)` in the source rounds to the 28 significant digits of Decimal's default context, so token values that need more digits sum differently.
- TimeParser.ParseNormalized: `hours * 60 + minutes` is computed exactly, with no rounding to 28 significant digits. The source rounds before `quantize`, so "0.4999999999999999999999999999999m" gives PT1M there and the "greater than zero" error in the model. When the whole minutes need more than 28 digits, `quantize` raises `decimal.InvalidOperation`, as for "10000000000000000000000000000h". The model returns a duration for such input. `TimeParser.ParseDurationString`, `TimeParser.ParseNormalizedString` and `TimeParser.ParseNormalizedRounded` inherit both gaps.
- TimeParser.ParseDurationString: inherits the exact arithmetic of `TimeParser.ParseNormalized` (no 28-digit rounding and no `InvalidOperation`), and the ASCII digits of `TimeParser.MatchAt`.
- TimeParser.ParseNormalizedString: inherits the exact arithmetic of `TimeParser.ParseNormalized` (no 28-digit rounding and no `InvalidOperation`).
- TimeParser.ParseNormalizedRounded: rounds the exact sum. The source rounds `hours * 60 + minutes` to 28 significant digits first.
- TimeParser.MatchAt: `\d` is taken as ASCII digits. In a Python str pattern, `\d` matches every Unicode decimal digit, so "٣h" is PT3H in the source and an error in the model.
- RateLimit.FixedWindowLimiter.constructor: requires a positive window and room for at least one key. The source accepts any settings without checking. A zero window raises `ZeroDivisionError` at the first check. A capacity of 0 or less raises `ValueError` from `min` over the empty table when the first key arrives. A negative window runs with floor division. None of these settings is modelled.
- Py.AsInt: a `bool` counts as an int and is read as 1 or 0. The source echoes a bool `total`, `count`, `pageSize` or `offset` as `True` or `False` in its result. Only the numeric value is modelled.
- MessageMiddleware.Dispatch: the decoded body is `Some(json)` or `None`. A body that is not valid UTF-8 makes `json.loads` raise `UnicodeDecodeError`, which is not a `JSONDecodeError`. The source lets that error escape instead of answering -32700, and the model does not capture it.
- Client.SafeJson: `repr` of the snippet (`Text.Repr`) escapes the ASCII controls, DEL and U+0080-U+00A0 and U+00AD as `\xNN`; other characters Python finds unprintable (U+2028, unassigned code points, surrogates) are written as themselves, where Python writes `\uNNNN` or `\UNNNNNNNN`.

## Findings

| source | as written | input that shows it | evidently intended | confidence | as-written member | corrected member |
|---|---|---|---|---|---|---|
| src/openproject_mcp/core/tools/queries.py:145-152 | `run_query` guards `total` and `count` with `isinstance(results, dict)`, then calls `results.get("pageSize")` and `results.get("offset")` unguarded | a response whose `_embedded.results` is `null` | results that are not a dict give an empty page, like the guarded fields | not executed | Queries.RunQueryAsWritten (Queries.NullResultsRaise) | Queries.RunQuery |
| src/openproject_mcp/core/tools/memberships.py:150 | `payload.get("total")` reads the last page after the loop, but `payload` is bound only inside the loop | `max_pages=0`: no page is requested, and reading `payload` raises `UnboundLocalError` | an empty listing with no total | not executed | Memberships.TotalAsWritten (Memberships.NoPagesNoTotal) | Memberships.Total |
| src/openproject_mcp/core/tools/memberships.py:145-148 | the `sort=True` key reads `user_name` and `user_id`, which this generation's items (`principal_name`, `principal_id`) do not have | two members read as "b" then "a" stay in that order | order by principal name, then principal id | not executed | CoreMemberships.SortKeyAsWritten (CoreMemberships.SortIgnoresNames) | CoreMemberships.SortItems |
| src/openproject_mcp/tools/memberships.py:132 | the older listing reads `payload` after its page loop, and `payload` is bound only inside the loop | `max_pages=0`: no page is requested, and reading `payload` raises `UnboundLocalError` | an empty listing with no total | not executed | LegacyMemberships.MembershipListingAsWritten (LegacyMemberships.NoPagesRaisesAsWritten) | LegacyMemberships.MembershipListing |
| src/openproject_mcp/core/observability.py:41-42 | `_clean_fields` drops the record's attributes but keeps `message` and `asctime`, which `Logger.makeRecord` also refuses | `log_event("e", message="done")` with INFO enabled raises `KeyError` | the field is dropped like the other reserved names, and the event is logged | not executed | Observability.LogEventAsWritten (Observability.MessageFieldRaises) | Observability.LogEvent (Observability.LogEventNeverRaises) |
