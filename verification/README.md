# VOC gateway and dashboard rules in Dafny

VOC is a vulnerability-operations console. It has two halves:

- a Flask gateway, which proxies a threat-intelligence platform;
- a React dashboard in TypeScript.

Most of the code moves HTTP requests. Under that sits a layer of small, deterministic rules, and this project models that layer and proves properties of it:

- **Gateway routes** (`VOC-Front/routes`, `taranis_gateway/routes`): listing projections, first-match lookups by id with 404 on a miss, ids forced into update payloads, placeholder ids on create, the case-insensitive 409 title check, fixed bodies for delete replies, and default query parameters.
- **Dashboard aggregation** (`utils/helpers.ts`, `DashboardVI.tsx`, `GeographicalMap.tsx`): severity and status counts, percentages, top-N rankings, colour and label tables, the CVE priority order, the CVSS buckets, risk tiers and pagination.
- **HTTP client** (`utils/api.ts`): which statuses resolve, the retry schedule, the vulnerabilities cache, the query string, CVE normalisation and the dispatch on the feed's reply shape.
- **Page logic** (report items, report-item types, products, publishing, bot presets, access control, the add-news modal): payload builders, list reducers, selection toggles and the interpretation of delete replies.

How the model is built:

- JSON is a datatype (`JsonData.Json`). Objects are maps, so key order is not represented.
- Python and JavaScript each get their own rules for truthiness, `str`/`String`, `get`, iteration and `||`.
- Every upstream call is a parameter `Resp(status, text, body)`. The body is `None` when it does not parse.
- A route either replies (`Reply(status, body)`) or raises an exception it does not catch (`Crash`).
- A route that writes upstream also returns the payload it sent (`Exchange`).
- CVSS scores are integer tenths.
- Clocks, random draws, route parameters and exception texts are parameters.

One module per source file, plus five shared modules: `Wrappers`, `JsonData`, `Text`, `Lists` and `Upstream`.

Behaviours of the code worth noting:

- The vulnerability-assessment route raises only on statuses 400 to 599, as `raise_for_status` does. 1xx and 3xx replies are not errors.
- Its 401 branch can never be taken, because the headers are built even when the login fails (`AssessRoutes.AuthenticationBranchUnreachable`).
- `handleApiError` always calls `retryRequest` with no retry made yet, so a connection error is retried once, after one second (`ApiClient.ConnectionErrorRetriesOnce`). The three-retry schedule exists only as a function.
- A delete from the publish list is judged on the reply's status after the client's interceptor has run. The 401 rule in its `catch` block is never what decides (`PublishPage.CatchRuleNeverFires`).
- On the bot-preset form, preset values loaded for editing are never sent. Loading leaves the bot type unselected, and selecting a type resets the values (`BotPresetForm.LoadedValuesNeverSent`).

## Model

| member | source | states |
|---|---|---|
| AccessControlRoutes.AuthHeaders | taranis_gateway/routes/access_control_routes.py:28-33 | the headers are exactly Authorization and Content-Type; the bearer text is the token, or the literal `None` when the login failed |
| AccessControlRoutes.AuthHeadersAlwaysTruthy | taranis_gateway/routes/access_control_routes.py:28-33 | the header dict is never falsy, whatever the login returned |
| AccessControlRoutes.NameOf | taranis_gateway/routes/access_control_routes.py:50-51 | `x.get("name")` succeeds exactly on dicts and yields the name or null |
| AccessControlRoutes.NamesOf | taranis_gateway/routes/access_control_routes.py:50-51 | a missing roles/organizations key lists nothing; over a list, the result is defined exactly when every entry is a dict and holds each entry's name in order |
| AccessControlRoutes.SimplifyUser | taranis_gateway/routes/access_control_routes.py:45-54 | a projected user has exactly the six keys, copies id/username/name/tag (null when absent) and reduces roles and organizations to their names; it fails exactly when the user or one of its roles or organizations is not a dict |
| AccessControlRoutes.UserWithoutRolesListsNone | taranis_gateway/routes/access_control_routes.py:50-51 | a user with neither key lists empty roles and organizations |
| AccessControlRoutes.GetUsers | taranis_gateway/routes/access_control_routes.py:38-62 | the upstream status is passed on with exactly the keys `total_count` and `items`; `total_count` is the upstream one or 0 when missing; `items` holds, position by position, the projection of each upstream item (id, username, name and tag as `get` returns them, roles and organizations as their names); a body that does not parse or an item that is not a dict gives 500 with the error text |
| AccessControlRoutes.GetUsersKeepsOrder | taranis_gateway/routes/access_control_routes.py:38-62 | the users listed from upstream items `xs + ys` are those listed from `xs` followed by those listed from `ys` |
| AccessControlRoutes.GetUserById | taranis_gateway/routes/access_control_routes.py:64-83 | a 200 answer is the first upstream user whose id equals the path id, returned whole; a body without items gives 404; any answer other than 500 needs a parsed dict body |
| AccessControlRoutes.UserLookupHitIffMatch | taranis_gateway/routes/access_control_routes.py:74-80 | over a list of dicts, 404 exactly when no id matches and 200 exactly when one does |
| AccessControlRoutes.UserLookupIgnoresStatus | taranis_gateway/routes/access_control_routes.py:69-80 | the upstream status never changes the answer |
| AnalyzeRoutes.NewsAggregateParams | VOC-Front/routes/analyze_routes.py:97-108 | exactly the nine known parameters are sent; each is the caller's value when given, else its default |
| AnalyzeRoutes.NoArgsSendDefaults | VOC-Front/routes/analyze_routes.py:98-108 | with no arguments the query is the default one |
| AnalyzeRoutes.UnknownArgsIgnored | VOC-Front/routes/analyze_routes.py:98-108 | an argument outside the nine known names does not change the query |
| AnalyzeRoutes.UnlockField | VOC-Front/routes/analyze_routes.py:74-81 | the reply carries the upstream status and a message naming the field |
| AnalyzeRoutes.UnlockMessageNamesField | VOC-Front/routes/analyze_routes.py:81 | the message contains the field name, and different fields give different replies |
| AnalyzeRoutes.DeleteReportItem | VOC-Front/routes/analyze_routes.py:85-92 | a fixed success message with the upstream status, whatever that status is |
| AssessRoutes.AssessBody | taranis_gateway/routes/assess_routes.py:31-34 | a status from 400 to 599 raises; a reply is 200 with exactly `total` and `items`, where items is the upstream `items` (missing means empty) and total is its length |
| AssessRoutes.GetVulnerabilityAssessItems | taranis_gateway/routes/assess_routes.py:17-37 | the request goes to the vulnerabilities group with limit 50000, range ALL and a 60 s timeout; a failed request or an error status gives the fixed 500 error; a 200 answer counts and returns the upstream items |
| AssessRoutes.AuthenticationBranchUnreachable | taranis_gateway/routes/assess_routes.py:21-23 | the request is always issued and 401 is never answered, because the header dict is never empty |
| AssessRoutes.AssessReturnsItemsCounted | taranis_gateway/routes/assess_routes.py:33-34 | a list of items comes back whole and in order, with its length as total |
| AssessRoutes.AssessWithoutItemsIsEmpty | taranis_gateway/routes/assess_routes.py:33-34 | a reply without `items` gives total 0 and no items |
| BotsRoutes.SimplifyBotNode | VOC-Front/routes/bots_routes.py:39-48 | a listed node has exactly id, title, description, url and tag; url is read from `api_url`, and each value is null when absent; a non-dict node fails |
| BotsRoutes.GetBotsNodes | VOC-Front/routes/bots_routes.py:32-56 | the upstream status is passed on with exactly the keys `total_count` and `items`; `total_count` is the upstream one or 0 when missing; `items` holds, position by position, the projection of each upstream item (exactly id, title, description, tag and `url` read from `api_url`, each as `get` returns it); an unparsable body or a non-dict item gives 500 with the error text |
| BotsRoutes.GetBotsNodesKeepsOrder | VOC-Front/routes/bots_routes.py:32-56 | the nodes listed from upstream items `xs + ys` are those listed from `xs` followed by those listed from `ys` |
| BotsRoutes.GetBotPresetById | VOC-Front/routes/bots_routes.py:79-94 | a non-200 upstream status is echoed with its number; over well-formed items, 404 exactly when no id equals the path id, and 200 is the first matching preset |
| BotsRoutes.BotPresetLookupHitIffMatch | VOC-Front/routes/bots_routes.py:79-94 | over a listing of dicts with ids, the answer is 404 exactly when no id equals the path id and 200 exactly when one does |
| BotsRoutes.CreateBotPreset | VOC-Front/routes/bots_routes.py:97-107 | the payload's id is always replaced by the fresh UUID and its other members are kept; a non-dict payload fails before anything is sent |
| BotsRoutes.UpdateBotPreset | VOC-Front/routes/bots_routes.py:110-120 | the payload's id is forced to the path id and its other members are kept |
| BotsRoutes.DeleteBotPreset | VOC-Front/routes/bots_routes.py:123-130 | the reply echoes `{"deleted": id}` with the upstream status; a failed request gives 500 |
| ContentRoutes.SimplifyReportItemType | taranis_gateway/routes/content_routes.py:52-61 | a listed type has exactly id, title, description, subtitle and tag, each copied or null; a non-dict item fails |
| ContentRoutes.GetReportItemTypesSimple | taranis_gateway/routes/content_routes.py:44-69 | the upstream status is passed on with exactly the keys `total_count` and `items`; `total_count` is the upstream one or 0 when missing; `items` holds, position by position, the projection of each upstream item (exactly id, title, description, subtitle and tag, each as `get` returns it); an unparsable body or a non-dict item gives 500 with the listing error |
| ContentRoutes.ReportItemTypesKeepOrder | taranis_gateway/routes/content_routes.py:44-69 | the types listed from upstream items `xs + ys` are those listed from `xs` followed by those listed from `ys` |
| ContentRoutes.EmptyEnvelopeListsNothing | taranis_gateway/routes/content_routes.py:60-64 | an envelope without items or total_count lists nothing, with a total of 0 |
| ContentRoutes.DeleteReportItemType | taranis_gateway/routes/content_routes.py:116-123 | a fixed success message with the upstream status, even a failing one; a failed request gives 500 |
| DataCollectionRoutes.ParseFailureBody | VOC-Front/routes/data_collection_routes.py:48-53 | the 500 body has exactly error, details, status_code and raw_text, with the upstream status and text |
| DataCollectionRoutes.GetCollectorNodes | VOC-Front/routes/data_collection_routes.py:36-56 | a parsed reply is relayed; an unparsable one gives 500 with the parse-failure body; a failed request gives the connection error |
| DataCollectionRoutes.SourceTestOnStrings | VOC-Front/routes/data_collection_routes.py:93 | indexing a string element raises, whatever the string |
| DataCollectionRoutes.WithSourceOptions | VOC-Front/routes/data_collection_routes.py:99-106 | a found source is answered 200 with exactly the two option keys added and its other members unchanged |
| DataCollectionRoutes.GetOsintSourceById | VOC-Front/routes/data_collection_routes.py:83-106 | a non-200 listing is answered with its status; a miss over a well-formed list is 404; a 200 answer is the first source whose id equals the path id, enriched with both option lists |
| DataCollectionRoutes.MatchingSourceIsTruthy | VOC-Front/routes/data_collection_routes.py:95-96 | a matching source is never falsy, so 404 means that no source matched |
| DataCollectionRoutes.SourceLookupHitIffMatch | VOC-Front/routes/data_collection_routes.py:92-106 | over a list of sources that all have an id, 200 exactly when one matches |
| DataCollectionRoutes.GetOsintSourceGroupById | VOC-Front/routes/data_collection_routes.py:154-173 | a non-200 listing is answered with its status; missing items or no dict with the path id gives 404; a 200 answer is the first matching group with the sources list added |
| DataCollectionRoutes.GroupScanRaisesOnlyOnNonIterable | VOC-Front/routes/data_collection_routes.py:163-164 | the group scan raises exactly when `items` is not iterable |
| DataCollectionRoutes.UpdateOsintSource | VOC-Front/routes/data_collection_routes.py:110-119 | the payload sent carries the path id |
| DataCollectionRoutes.UpdateOsintSourceGroup | VOC-Front/routes/data_collection_routes.py:190-196 | the payload sent carries the path id |
| DataCollectionRoutes.WithPlaceholderId | VOC-Front/routes/data_collection_routes.py:128-133 | a payload with an id is sent unchanged; one without gets the placeholder; a scalar payload raises |
| DataCollectionRoutes.CreateOsintSource | VOC-Front/routes/data_collection_routes.py:123-133 | the id sent is the caller's, else the all-zero placeholder |
| DataCollectionRoutes.CreateOsintSourceGroup | VOC-Front/routes/data_collection_routes.py:177-186 | the id sent is the caller's, else the placeholder ending in 1 |
| DataCollectionRoutes.CreateAlwaysSendsAnId | VOC-Front/routes/data_collection_routes.py:128-130 | a dict payload is always sent with an id, and a supplied id is never replaced |
| DataCollectionRoutes.DeleteOsintSource | VOC-Front/routes/data_collection_routes.py:137-143 | 204 becomes 200 with the success message, exactly; any other status is passed on with the fixed error |
| DataCollectionRoutes.DeleteOsintSourceGroup | VOC-Front/routes/data_collection_routes.py:200-206 | 204 becomes 200 with the success message, exactly; any other status is passed on with the fixed error |
| PresentersRoutes.NumericIdMatchesItsText | taranis_gateway/routes/presenters_routes.py:62 | ids are compared as text: the numeric id n matches the path id exactly when the path spells n |
| PresentersRoutes.GetProductTypeById | taranis_gateway/routes/presenters_routes.py:54-71 | a non-200 listing is answered with its status; missing items gives 404; a 200 answer is the first type whose id text equals the path id, with the presenters added |
| PresentersRoutes.ProductTypeLookupHitIffMatch | taranis_gateway/routes/presenters_routes.py:61-71 | over entries that all have an id, 404 exactly when none matches and 200 exactly when one does |
| PresentersRoutes.NormalizeTitle | taranis_gateway/routes/presenters_routes.py:85 | the normalised title is no longer than the title, has no whitespace of Python's `str.isspace` set at either end, and holds no upper-case ASCII letter |
| PresentersRoutes.NormalizeTitleIdempotent | taranis_gateway/routes/presenters_routes.py:85 | normalising a normalised title changes nothing, so the check compares canonical forms |
| PresentersRoutes.DataTitle | taranis_gateway/routes/presenters_routes.py:85-86 | the payload title is readable exactly when the payload is a dict with a string title |
| PresentersRoutes.CreateProductType | taranis_gateway/routes/presenters_routes.py:74-90 | when the listing is not 200 the payload is posted unchanged; a refusal is 409 with the title quoted and nothing posted; a listing without items never refuses |
| PresentersRoutes.CreateRefusedIffTitleTaken | taranis_gateway/routes/presenters_routes.py:81-86 | nothing is posted exactly when an existing title equals the new one after strip and lower-casing, and the answer is then 409 |
| PresentersRoutes.TitleCheckIgnoresCase | taranis_gateway/routes/presenters_routes.py:85 | an upper-cased title normalises like the original |
| PresentersRoutes.UpdateProductType | taranis_gateway/routes/presenters_routes.py:93-100 | a path `int()` refuses (see `Text.PyInt`) raises before anything is sent; otherwise the id sent is the integer `int()` reads from it |
| PresentersRoutes.UpdateRefusesSeparatorPath | taranis_gateway/routes/presenters_routes.py:93-100 | a path id led by U+001C raises before anything is sent, though its stripped form is a valid id |
| PresentersRoutes.UpdateSendsPathInteger | taranis_gateway/routes/presenters_routes.py:97 | a path that prints the integer n sends the id n |
| PresentersRoutes.DeleteProductType | taranis_gateway/routes/presenters_routes.py:103-109 | 204 becomes 200 with the success message, exactly; any other status is passed on with the fixed error |
| PublishRoutes.GetPublisherPresetById | taranis_gateway/routes/publish_routes.py:57-71 | a non-200 status is passed on; a non-empty dict body raises (500); a 200 answer is the first dict in the bare list whose id equals the path id |
| PublishRoutes.PresetLookupHitIffMatch | taranis_gateway/routes/publish_routes.py:65-69 | over a list of dicts, 404 exactly when no id matches and 200 exactly when one does |
| PublishRoutes.DeletePublisherPreset | taranis_gateway/routes/publish_routes.py:96-103 | a fixed message with the upstream status; a failed request gives 500 |
| PublisherRoutes.GetProducts | VOC-Front/routes/publisher_routes.py:36-39 | the listing always requests the same fixed query and relays the reply |
| PublisherRoutes.ProductsQueryIgnoresArgs | VOC-Front/routes/publisher_routes.py:38 | the caller's arguments never change the request |
| PublisherRoutes.PostGeneralProduct | VOC-Front/routes/publisher_routes.py:43-64 | a blank reply gets the default message with the upstream status; a JSON reply is relayed; a failed request or a non-blank non-JSON reply gives 500 |
| PublisherRoutes.RawResponse | VOC-Front/routes/publisher_routes.py:91 | the quote is a prefix of the text of at most 200 characters, the whole text when that is short, and "Empty response" for no text |
| PublisherRoutes.InvalidResponseBody | VOC-Front/routes/publisher_routes.py:88-92 | the 500 body has exactly error, status_code and raw_response, with the upstream status and quote |
| PublisherRoutes.TranslateWrite | VOC-Front/routes/publisher_routes.py:79-92 | 401 is answered with the fixed authentication error, and only 401; otherwise a blank reply gets the default, a JSON reply is relayed, and a non-JSON reply gives 500 |
| PublisherRoutes.InvalidResponseQuotesText | VOC-Front/routes/publisher_routes.py:83-92 | the 500 body always quotes the first 200 characters of the text; its "Empty response" fallback is never reached |
| PublisherRoutes.UpdateProduct | VOC-Front/routes/publisher_routes.py:69-92 | 401 gives the authentication error; otherwise a blank reply gives "Product updated successfully" with status `success` and the upstream status, a JSON reply is relayed with the upstream status, and a non-JSON reply gives 500 with the upstream status and text |
| PublisherRoutes.UpstreamPublishPath | VOC-Front/routes/publisher_routes.py:97 | the upstream path names the product and the preset under `publishers` |
| PublisherRoutes.PublishPathRewrite | VOC-Front/routes/publisher_routes.py:95-97 | the local and upstream paths share the product and preset and differ only in the `publish`/`publishers` segment |
| PublisherRoutes.PublishProductWithPreset | VOC-Front/routes/publisher_routes.py:94-118 | the call goes to the upstream `publishers` path; 401 gives the authentication error; otherwise a blank reply gives the message naming the preset with status `success`, a JSON reply is relayed with the upstream status, and a non-JSON reply gives 500 |
| PublisherRoutes.WritesDifferOnlyWhenBlank | VOC-Front/routes/publisher_routes.py:79-118 | the update and the publish route answer the same reply alike, except on a blank reply other than 401, where their default messages differ |
| PublisherRoutes.DeleteProduct | VOC-Front/routes/publisher_routes.py:120-123 | a fixed message with the upstream status |
| Helpers.RoundedPercent | VOC-Front/voc_front_new/src/utils/helpers.ts:11 | the percentage is 0 for an empty list, never above 100, and otherwise the integer nearest to the exact ratio, halves rounded up |
| Helpers.RoundedPercentMonotone | VOC-Front/voc_front_new/src/utils/helpers.ts:11 | more closed vulnerabilities never give a lower percentage |
| Helpers.RoundedPercentEnds | VOC-Front/voc_front_new/src/utils/helpers.ts:11 | none closed is 0 percent and all closed is 100 percent |
| Helpers.VulnerabilitySummary | VOC-Front/voc_front_new/src/utils/helpers.ts:5-21 | the total is the number of vulnerabilities, each count is the number with that severity or status, the three status counts add up to at most the total, and the percentage closed is the rounded share |
| Helpers.StatusCountsBounded | VOC-Front/voc_front_new/src/utils/helpers.ts:8-10 | the closed, in-progress and open counts add up to at most the number of vulnerabilities |
| Helpers.Bump | VOC-Front/voc_front_new/src/utils/helpers.ts:26 | `acc[x] = (acc[x] \|\| 0) + 1` adds an entry with count 1 at the end for a new value and keeps the length for a known one |
| Helpers.BumpCount | VOC-Front/voc_front_new/src/utils/helpers.ts:26 | one step adds one to the count of the value and leaves every other count unchanged |
| Helpers.BumpShape | VOC-Front/voc_front_new/src/utils/helpers.ts:26 | one step adds the value to the keys and one to the total, and keeps keys distinct and counts positive |
| Helpers.TallyOf | VOC-Front/voc_front_new/src/utils/helpers.ts:24-28 | the tally has one entry per distinct value, each value's count is its number of occurrences, the counts are positive and they add up to the number of values |
| Helpers.EntryCount | VOC-Front/voc_front_new/src/utils/helpers.ts:30-33 | each entry of the tally carries the count recorded for its value |
| Helpers.EntryOfKey | VOC-Front/voc_front_new/src/utils/helpers.ts:30-33 | every counted value has an entry |
| Helpers.SeveritySummary | VOC-Front/voc_front_new/src/utils/helpers.ts:23-34 | one entry per severity met, each with its number of vulnerabilities, at least one, adding up to the number of vulnerabilities |
| Helpers.StatusSummary | VOC-Front/voc_front_new/src/utils/helpers.ts:36-47 | one entry per status met, each with its number of vulnerabilities, at least one, adding up to the number of vulnerabilities |
| Helpers.InsertByCountElements | VOC-Front/voc_front_new/src/utils/helpers.ts:58 | inserting adds exactly the entry |
| Helpers.InsertByCountSorted | VOC-Front/voc_front_new/src/utils/helpers.ts:58 | inserting into a list sorted by decreasing count keeps it sorted |
| Helpers.SortByCount | VOC-Front/voc_front_new/src/utils/helpers.ts:58 | the result is sorted by decreasing count and is a permutation of the entries |
| Helpers.SliceEnd | VOC-Front/voc_front_new/src/utils/helpers.ts:59 | `slice(0, limit)` keeps `limit` entries or all of them, and a negative limit counts from the end |
| Helpers.PrefixOfSortedIsTop | VOC-Front/voc_front_new/src/utils/helpers.ts:58-59 | in a sorted list, every entry of a prefix counts at least as much as every entry after it |
| Helpers.TopN | VOC-Front/voc_front_new/src/utils/helpers.ts:56-59 | the ranking is sorted, has the length `slice` gives, holds only entries of the tally, and each of them counts at least as much as every entry left out |
| Helpers.TopVendors | VOC-Front/voc_front_new/src/utils/helpers.ts:49-60 | the ranked vendors are sorted by decreasing count, each with its number of vulnerabilities, and as many as the limit allows |
| Helpers.TopProducts | VOC-Front/voc_front_new/src/utils/helpers.ts:62-73 | the ranked products are sorted by decreasing count, each with its number of vulnerabilities, and as many as the limit allows |
| Helpers.RankedCounts | VOC-Front/voc_front_new/src/utils/helpers.ts:49-73 | the ranking is sorted by decreasing count, never longer than the list counted, and each entry is a counted value with its number of occurrences |
| Helpers.RankedCountsKeepMostFrequent | VOC-Front/voc_front_new/src/utils/helpers.ts:49-60 | a value that misses the top-N cut occurs no more often than any value kept |
| Helpers.TallyLength | VOC-Front/voc_front_new/src/utils/helpers.ts:24-28 | a tally has at most as many entries as values were counted |
| Helpers.SeverityColor | VOC-Front/voc_front_new/src/utils/helpers.ts:99-118 | the colour is one of the seven palette colours, and grey for any severity without a case of its own |
| Helpers.SeverityColorIgnoresCase | VOC-Front/voc_front_new/src/utils/helpers.ts:99-118 | the colour ignores case, and a severity without a case is drawn like UNKNOWN |
| Helpers.SeverityColorsDistinct | VOC-Front/voc_front_new/src/utils/helpers.ts:101-114 | two different severities with a case of their own get different colours |
| Helpers.StatusColor | VOC-Front/voc_front_new/src/utils/helpers.ts:120-131 | the colour is one of four, and grey exactly for a status other than OPEN, CLOSED and IN_PROGRESS in any case |
| Helpers.StatusColorIgnoresCase | VOC-Front/voc_front_new/src/utils/helpers.ts:120-131 | the status colour ignores case |
| Helpers.TranslateSeverity | VOC-Front/voc_front_new/src/utils/helpers.ts:141-154 | the four graded severities get a French label in any case; anything else is returned unchanged |
| Helpers.TranslateStatus | VOC-Front/voc_front_new/src/utils/helpers.ts:156-167 | the three statuses get a French label in any case; anything else is returned unchanged |
| Helpers.TranslationsIgnoreCase | VOC-Front/voc_front_new/src/utils/helpers.ts:141-167 | a recognised value is translated whatever its case, and translating a status label again leaves it unchanged |
| ApiClient.Settle | VOC-Front/voc_front_new/src/utils/api.ts:13-66 | a reply resolves with its body exactly when its status is in 200..499; any other status rejects with the interceptor's message |
| ApiClient.RejectionText | VOC-Front/voc_front_new/src/utils/api.ts:64-66 | the rejection text is `Erreur API <status>: ` followed by the body's truthy `message`, or by `Erreur inconnue` when there is none |
| ApiClient.ClientErrorsResolve | VOC-Front/voc_front_new/src/utils/api.ts:13 | a 404 reaches the caller as data, while 500 and 199 are rejected |
| ApiClient.RetryDelay | VOC-Front/voc_front_new/src/utils/api.ts:44 | the wait before a retry lies between one and ten seconds and is either the cap or one second doubled once per earlier retry |
| ApiClient.RetryDelaySchedule | VOC-Front/voc_front_new/src/utils/api.ts:44 | the waits are 1, 2, 4 and 8 seconds, 10 seconds from the fifth on, and never shrink as the retry count grows |
| ApiClient.RetryRequest | VOC-Front/voc_front_new/src/utils/api.ts:38-50 | the request is rethrown exactly when the retries are used up; otherwise it is sent again after the capped delay |
| ApiClient.ConnectionErrorRetriesOnce | VOC-Front/voc_front_new/src/utils/api.ts:53-63 | a connection error is retried with the defaults, so after one second |
| ApiClient.UpperOr | VOC-Front/voc_front_new/src/utils/api.ts:443-454 | a missing, null or empty text gives the default, a string is upper-cased, any other value throws; the result is never empty |
| ApiClient.NormalizeCve | VOC-Front/voc_front_new/src/utils/api.ts:439-465 | a normalised record fails exactly on a null record or a non-string severity or status; otherwise severity and status are upper-cased or defaulted, the flags are their truthiness, and each of the 19 `||` members is its truthy value or its default |
| ApiClient.Defaulted | VOC-Front/voc_front_new/src/utils/api.ts:440-464 | the defaulted members are exactly the 19 names, each its truthy value or its default |
| ApiClient.EmptyRecordDefaults | VOC-Front/voc_front_new/src/utils/api.ts:439-465 | an empty record gets `UNKNOWN`, `OPEN`, no flag, `Unknown` vendor and product, source `NVD`, score 0 and the current time as its dates |
| ApiClient.EmptyDefaulted | VOC-Front/voc_front_new/src/utils/api.ts:444-464 | the defaulted members of an empty record are the defaults the source lists |
| ApiClient.SomeDefaults | VOC-Front/voc_front_new/src/utils/api.ts:444-464 | vendor and product default to `Unknown`, source to `NVD`, the score to 0 and the dates to the current time |
| ApiClient.NormalizeIsIdempotent | VOC-Front/voc_front_new/src/utils/api.ts:439-465 | normalising an already normalised record, all 25 members, returns it unchanged |
| ApiClient.RenderNormalizes | VOC-Front/voc_front_new/src/utils/api.ts:439-465 | a record whose texts are upper-case and whose 19 defaulted members are already truthy or their default is a fixed point of normalisation |
| ApiClient.NormalizeAll | VOC-Front/voc_front_new/src/utils/api.ts:472-482 | mapping the normaliser succeeds exactly when every element normalises, and keeps length and order |
| ApiClient.FeedPage | VOC-Front/voc_front_new/src/utils/api.ts:433-488 | an empty body gives an empty page; `all_cves` and a bare array are counted by length; `items` takes a truthy `total_count`; any other shape throws |
| ApiClient.FeedShapesAgree | VOC-Front/voc_front_new/src/utils/api.ts:471-484 | a bare array, the same array under `all_cves`, and the same array under `items` without a total give the same page |
| ApiClient.Store | VOC-Front/voc_front_new/src/utils/api.ts:491-498 | after a fetch the cache holds the page's items, its total and the fetch time |
| ApiClient.CacheAnswersStoredQuery | VOC-Front/voc_front_new/src/utils/api.ts:369-396 | a stored page answers a later query exactly when filters, page and page size match and less than five minutes have passed; a forced refresh and the initial cache never answer |
| ApiClient.SentFilters | VOC-Front/voc_front_new/src/utils/api.ts:407-422 | the filters sent are exactly the set ones, each at most once, in increasing position |
| ApiClient.FilterValue | VOC-Front/voc_front_new/src/utils/api.ts:410-421 | a filter has a value exactly when it is sent: a non-empty text, or a defined flag or bound |
| ApiClient.FeedQuery | VOC-Front/voc_front_new/src/utils/api.ts:407-426 | the query lists the sent filters with their values in the fixed order and always ends with `page` and `page_size` |
| ApiClient.OnlyFirstNameIsSeverity | VOC-Front/voc_front_new/src/utils/api.ts:410-421 | no filter other than the first is sent under the name `severity` |
| ApiClient.FalseFlagIsSent | VOC-Front/voc_front_new/src/utils/api.ts:410-414 | a `kev` flag set to false is sent, while an empty severity is dropped |
| ApiClient.FalseKevSent | VOC-Front/voc_front_new/src/utils/api.ts:414 | a false `kev` flag appears in the query as `kev=false` |
| ApiClient.EmptySeverityDropped | VOC-Front/voc_front_new/src/utils/api.ts:410 | an empty severity never appears in the query |
| ApiClient.DecimalText | VOC-Front/voc_front_new/src/utils/api.ts:416-419 | a bound prints with a minus sign exactly when negative, and with a point exactly when it is not whole, never ending in a zero after the point |
| ApiClient.DecimalTextOfInteger | VOC-Front/voc_front_new/src/utils/api.ts:416-419 | a whole bound prints as the integer it is |
| ApiClient.DecimalTextScaleFree | VOC-Front/voc_front_new/src/utils/api.ts:416-419 | the printed text depends on the number only: `7.5` and `7.50` print alike |
| ApiClient.DecimalTextSevenAndAHalf | VOC-Front/voc_front_new/src/utils/api.ts:416 | 7.5 prints as `7.5` |
| ApiClient.DecimalTextSmallNegative | VOC-Front/voc_front_new/src/utils/api.ts:416-419 | -0.05 prints as `-0.05` |
| ApiClient.DecimalBoundSent | VOC-Front/voc_front_new/src/utils/api.ts:416 | a minimum CVSS score of 7.5 is sent as `cvss_min=7.5` |
| ApiClient.GetCollectors | VOC-Front/voc_front_new/src/utils/api.ts:173-194 | a well-formed reply gives exactly its default-collector entries, in the reply's order; any other reply gives `[]`; a null entry throws |
| ApiClient.GetCollectorsKeepsOrder | VOC-Front/voc_front_new/src/utils/api.ts:179-184 | the collectors of a reply listing `xs + ys` are those of `xs` followed by those of `ys` |
| ApiClient.GetCollectorsOfOne | VOC-Front/voc_front_new/src/utils/api.ts:179-184 | a one-entry reply gives that entry exactly when it is the default collector, and nothing otherwise |
| ApiClient.GetCollectorsOnlyDefault | VOC-Front/voc_front_new/src/utils/api.ts:179-183 | every collector returned is the default one, so filtering the answer again changes nothing |
| ApiClient.FetchReportItemTypes | VOC-Front/voc_front_new/src/utils/api.ts:847-856 | an accepted reply gives its truthy `items`, else the body when it is an array, else `[]`; a rejected reply throws |
| ApiClient.ReportItemTypesEndToEnd | VOC-Front/voc_front_new/src/utils/api.ts:847-856 | behind the gateway's listing, the front end gets exactly the listed items, or throws when the gateway's status is not accepted |
| JsonData.Field | VOC-Front/voc_front_new/src/utils/api.ts:440 | a member is present exactly when the value is an object holding that key, and is then that key's value |
| JsonData.PyGet | taranis_gateway/routes/presenters_routes.py:61 | `get` succeeds exactly on a dict, giving the member when present and the default otherwise |
| JsonData.PySet | VOC-Front/routes/data_collection_routes.py:116 | assigning a key succeeds exactly on a dict; the key is added or replaced and every other key keeps its value |
| JsonData.TruthinessDiffersOnlyOnEmptyContainers | VOC-Front/voc_front_new/src/utils/api.ts:433 | JavaScript and Python truthiness disagree exactly on the empty array and the empty object |
| JsonData.JsOr | VOC-Front/voc_front_new/src/utils/api.ts:440-449 | `a \|\| d` is `a` when it is truthy and `d` otherwise, `undefined` included |
| JsonData.JsBoolean | VOC-Front/voc_front_new/src/utils/api.ts:450-453 | `Boolean(a)` is exactly the truthiness of `a` |
| JsonData.PyStr | taranis_gateway/routes/presenters_routes.py:62 | `str` of a string is itself and of an integer its decimal text; only containers have no modelled text |
| JsonData.JsString | VOC-Front/voc_front_new/src/pages/intelligence/ProductTypeEditPage.tsx:69 | `String` of a string is itself and of an integer its decimal text |
| JsonData.JsStringOfIntMatchesText | VOC-Front/voc_front_new/src/pages/intelligence/ProductTypeEditPage.tsx:69 | a numeric id matches a route parameter under `String` exactly when the parameter is the id's decimal text |
| JsonData.JsToString | VOC-Front/voc_front_new/src/pages/intelligence/EditReportItemType.tsx:61 | `toString` throws exactly on `null` and `undefined` and otherwise agrees with `String` |
| JsonData.PyIter | taranis_gateway/routes/presenters_routes.py:62 | iterating raises exactly on scalars; a list yields its elements, a dict as many keys as it has, and a string only strings |
| JsonData.PyContainsStr | VOC-Front/routes/data_collection_routes.py:129 | `x in v` raises on scalars, tests the keys of a dict and the elements of a list |
| JsonData.PyLen | taranis_gateway/routes/assess_routes.py:34 | `len` raises exactly on scalars and is the element count of a list |
| Text.Upper | VOC-Front/voc_front_new/src/utils/helpers.ts:100 | upper-casing keeps the length and maps each character on its own |
| Text.UpperIdempotent | VOC-Front/voc_front_new/src/utils/api.ts:443-454 | upper-casing an upper-cased text changes nothing |
| Text.Lower | taranis_gateway/routes/presenters_routes.py:85 | lower-casing keeps the length and maps each character on its own |
| Text.LowerIdempotent | taranis_gateway/routes/presenters_routes.py:85 | lower-casing a lower-cased text changes nothing |
| Text.LowerUpper | taranis_gateway/routes/presenters_routes.py:85 | lower-casing forgets an earlier upper-casing |
| Text.Strip | VOC-Front/routes/publisher_routes.py:59 | the stripped text is no longer than the input and neither starts nor ends with a character of Python's whitespace set, which includes the no-break space and the Unicode spaces |
| Text.StripEmptyIffBlank | VOC-Front/routes/publisher_routes.py:59 | `not text.strip()` holds exactly when every character is whitespace |
| Text.StripRemovesOnlySpace | VOC-Front/routes/publisher_routes.py:59 | stripping keeps the middle of the text unchanged and removes only whitespace around it |
| Text.StripKeepsMiddle | VOC-Front/routes/publisher_routes.py:59 | each character of the stripped text is the input character at the same place after the leading whitespace |
| Text.StripDropsEnds | VOC-Front/routes/publisher_routes.py:59 | every character stripping removes from either end is whitespace |
| Text.NoBreakSpaceIsBlank | VOC-Front/routes/publisher_routes.py:59 | a reply text made of no-break spaces is blank, as `not text.strip()` finds |
| Text.StripUpper | taranis_gateway/routes/presenters_routes.py:85 | stripping and case mapping commute |
| Text.NatToString | VOC-Front/routes/bots_routes.py:85 | a printed number is a non-empty digit string with no leading zero unless it is 0 |
| Text.NatToStringInjective | VOC-Front/routes/bots_routes.py:85 | distinct numbers print differently |
| Text.ParseInt | VOC-Front/voc_front_new/src/pages/intelligence/EditReportItemPage.tsx:414 | `parseInt(s, 10)` skips JavaScript whitespace and one sign, and is NaN exactly when no decimal digit follows them |
| Text.ParseIntRoundTrip | VOC-Front/voc_front_new/src/pages/intelligence/EditReportItemPage.tsx:414 | parsing a printed integer with radix 10 gives the integer back |
| Text.ParseIntIgnoresSuffix | VOC-Front/voc_front_new/src/pages/intelligence/EditReportItemPage.tsx:489 | `parseInt(s, 10)` reads the digit prefix and ignores what follows it |
| Text.ParseIntAuto | VOC-Front/voc_front_new/src/pages/intelligence/ProductTypeEditPage.tsx:155-159 | radix-less `parseInt` reads `0x` or `0X` after the sign as hexadecimal, NaN when no hex digit follows; without the prefix it is the radix-10 reading |
| Text.ParseIntAutoRoundTrip | VOC-Front/voc_front_new/src/pages/intelligence/ProductTypeEditPage.tsx:155-159 | a printed integer reads back unchanged without a radix too |
| Text.ParseIntAutoHex | VOC-Front/voc_front_new/src/pages/intelligence/ProductTypeEditPage.tsx:155-159 | `0x` followed by hex digits reads as their hexadecimal value, ignoring what follows them |
| Text.ParseIntStopsAtHexPrefix | VOC-Front/voc_front_new/src/pages/intelligence/ProductTypeEditPage.tsx:325-328 | with radix 10 a `0x` text reads as 0, the digit before the `x` |
| Text.PyInt | taranis_gateway/routes/presenters_routes.py:97 | `int(text)` succeeds exactly when, after stripping the whitespace `int()` skips (the `strip()` set less U+001C to U+001F) and one sign, the text is ASCII digits with single underscores between them; its value is those digits read in decimal, with the sign |
| Text.PyIntRoundTrip | taranis_gateway/routes/presenters_routes.py:97 | `int(str(n))` is `n` for every integer |
| Text.GroupedValue | taranis_gateway/routes/presenters_routes.py:97 | digits with single underscores between them have a value, and nothing else does |
| Text.GroupedValueDigits | taranis_gateway/routes/presenters_routes.py:97 | the value of grouped digits is that of the digits with the underscores removed |
| Text.PyIntDigits | taranis_gateway/routes/presenters_routes.py:97 | a plain digit string reads as its decimal value |
| Text.PyIntNegative | taranis_gateway/routes/presenters_routes.py:97 | a minus sign before digits negates their value |
| Text.PyIntGrouping | taranis_gateway/routes/presenters_routes.py:97 | `int("1_000")` is 1000 |
| Text.PyIntRefusesDoubledUnderscore | taranis_gateway/routes/presenters_routes.py:97 | two underscores in a row are refused |
| Text.PyIntRefusesLeadingUnderscore | taranis_gateway/routes/presenters_routes.py:97 | an underscore before the first digit is refused |
| Text.PyIntRefusesTrailingUnderscore | taranis_gateway/routes/presenters_routes.py:97 | an underscore after the last digit is refused |
| Text.PyIntKeepsSeparators | taranis_gateway/routes/presenters_routes.py:97 | a text led by the separator U+001C, which `strip()` removes, is refused by `int()`, though its stripped form reads as 5 |
| Lists.Filter | VOC-Front/voc_front_new/src/utils/helpers.ts:7-10 | the filtered sequence holds exactly the elements meeting the predicate and is no longer than the input |
| Lists.FilterAppend | VOC-Front/voc_front_new/src/utils/api.ts:181-183 | filtering distributes over concatenation, so retained elements keep their order |
| Lists.FilterAll | VOC-Front/voc_front_new/src/utils/api.ts:181-183 | filtering with a predicate every element meets returns the input unchanged |
| Lists.CountIf | VOC-Front/voc_front_new/src/utils/helpers.ts:7-10 | the count is the length of the filtered sequence |
| Lists.CountIfComplement | VOC-Front/voc_front_new/src/pages/intelligence/NewReportItemTypeForm.tsx:217-219 | the counts of a predicate and of its negation add up to the length |
| Lists.Occurrences | VOC-Front/voc_front_new/src/utils/helpers.ts:24-28 | an element occurs a positive number of times exactly when it is in the sequence |
| Lists.FindFirst | VOC-Front/voc_front_new/src/pages/intelligence/ProductTypeEditPage.tsx:262 | the position found is the first one meeting the predicate; there is none exactly when no element meets it |
| Lists.FindFirstAt | VOC-Front/voc_front_new/src/pages/intelligence/ProductTypeEditPage.tsx:262 | the first position meeting the predicate is the one reported |
| Lists.Find | VOC-Front/voc_front_new/src/pages/intelligence/ProductTypeEditPage.tsx:69 | `find` returns the first element meeting the predicate, or `undefined` exactly when none does |
| Lists.RemoveAt | VOC-Front/voc_front_new/src/pages/intelligence/EditReportItemType.tsx:134 | removing by index drops exactly that element and keeps the others in order; an index out of range removes nothing |
| Lists.RemoveAll | VOC-Front/voc_front_new/src/pages/access-control/EditAclPage.tsx:100 | removing a value drops every copy of it and keeps every other value; a list without the value is returned unchanged |
| Lists.RemoveAllAppend | VOC-Front/voc_front_new/src/pages/access-control/EditAclPage.tsx:100 | removing from `xs + ys` removes from `xs` and from `ys` and keeps the rest in order |
| Lists.RemoveAllOfOne | VOC-Front/voc_front_new/src/pages/access-control/EditAclPage.tsx:100 | a single element is kept exactly when it is not the value removed |
| Lists.Toggle | VOC-Front/voc_front_new/src/pages/access-control/EditAclPage.tsx:97-103 | an absent id is appended, a present one removed; no other id changes |
| Lists.ToggleTwiceSameMembers | VOC-Front/voc_front_new/src/pages/access-control/EditAclPage.tsx:97-111 | toggling the same id twice gives back the same ids |
| Lists.ToggleTwiceAbsent | VOC-Front/voc_front_new/src/pages/access-control/EditAclPage.tsx:97-111 | toggling an absent id twice gives back the very same list |
| Lists.ToggleSet | VOC-Front/voc_front_new/src/components/modals/AddNewsItemsModal.tsx:76-86 | a check box adds an unchecked id and removes a checked one, leaving every other id alone |
| Lists.ToggleSetTwice | VOC-Front/voc_front_new/src/components/modals/AddNewsItemsModal.tsx:76-86 | checking and unchecking the same box restores the selection |
| Lists.LastWins | VOC-Front/voc_front_new/src/components/dashboard/GeographicalMap.tsx:60-63 | the map's keys are exactly the names that occur |
| Lists.LastWinsValue | VOC-Front/voc_front_new/src/components/dashboard/GeographicalMap.tsx:60-63 | a name's value is the one of its last entry |
| Upstream.ErrorBody | VOC-Front/routes/data_collection_routes.py:143 | the error body holds exactly the `error` member with the message |
| Upstream.MessageBody | VOC-Front/routes/data_collection_routes.py:142 | the message body holds exactly the `message` member with the text |
| Upstream.Relay | VOC-Front/routes/data_collection_routes.py:79 | a relay replies exactly when the upstream body parses, with that body and the upstream status |
| Upstream.Guarded | VOC-Front/routes/bots_routes.py:93-94 | the handler leaves a reply alone and turns an uncaught exception into 500 with the prefixed text |
| Upstream.DeleteReply | VOC-Front/routes/data_collection_routes.py:141-143 | upstream 204 becomes 200 with the fixed message; every other status is passed on with the fixed error |
| Upstream.PyNext | VOC-Front/routes/data_collection_routes.py:93 | the scan finds the first element whose test is true, misses exactly when every test is false, and raises at the first test that raises |
| Upstream.PyNextStopsAtMatch | VOC-Front/routes/data_collection_routes.py:93 | once a prefix holds a match, nothing appended after it changes the result |
| Upstream.PyNextOnStrings | taranis_gateway/routes/presenters_routes.py:62 | a test that treats all strings alike gives the same scan over any strings of the same number |
| Upstream.PyScan | VOC-Front/routes/bots_routes.py:87-88 | scanning a list is scanning its elements; scanning `None`, a boolean or an integer raises |
| Upstream.PyMap | VOC-Front/routes/bots_routes.py:40-48 | the comprehension succeeds exactly when every element does, keeping length and order |
| Upstream.SimplifiedListing | VOC-Front/routes/bots_routes.py:35-56 | a listing keeps the upstream status, projects every item in order and defaults `total_count` to 0; a failing projection or an unparsable body gives 500 |
| Upstream.GetOrNull | VOC-Front/routes/bots_routes.py:41-45 | `get` gives the member, or `None` when it is missing |
| Upstream.ForceId | VOC-Front/routes/data_collection_routes.py:116 | the payload sent carries the forced id and the caller's other members, and the upstream reply is relayed; a non-dict payload raises before sending |
| Upstream.FixedReply | VOC-Front/routes/publisher_routes.py:123 | the reply has the fixed body and the upstream status |
| Upstream.FixedReplyIgnoresUpstreamBody | VOC-Front/routes/publisher_routes.py:123 | two upstream replies with the same status give the same reply whatever their bodies |
| Upstream.GuardedFixedReply | VOC-Front/routes/bots_routes.py:124-130 | a delete that was sent echoes the fixed body with the upstream status; one that raised answers 500 with the prefixed text |
| ProductEdit.OrText | VOC-Front/voc_front_new/src/pages/intelligence/ProductTypeEditPage.tsx:156-158 | `a \|\| d` on an optional string: the value when present and non-empty, otherwise the fallback |
| ProductEdit.FindProduct | VOC-Front/voc_front_new/src/pages/intelligence/ProductTypeEditPage.tsx:65-76 | a null reply fails to load; a missing or null `items` is "not found"; a non-array `items` fails; a found product is the first listed one whose id prints as the route id, and the not-found message names the route id |
| ProductEdit.FindProductIffMatch | VOC-Front/voc_front_new/src/pages/intelligence/ProductTypeEditPage.tsx:69-76 | over a list of product objects the page reports "not found" exactly when no id matches and finds a product exactly when one does |
| ProductEdit.NumericIdMatchesRoute | VOC-Front/voc_front_new/src/pages/intelligence/ProductTypeEditPage.tsx:69 | a numeric product id matches the route that spells it, because both sides are compared as strings |
| ProductEdit.SelectedItems | VOC-Front/voc_front_new/src/pages/intelligence/ProductTypeEditPage.tsx:153 | the report items sent are exactly the loaded ones whose ids are selected, never more than were loaded |
| ProductEdit.SelectedItemsAppend | VOC-Front/voc_front_new/src/pages/intelligence/ProductTypeEditPage.tsx:153 | the items are sent in loaded order: loading `xs + ys` sends the selected items of `xs` followed by those of `ys` |
| ProductEdit.SelectedItemsOfOne | VOC-Front/voc_front_new/src/pages/intelligence/ProductTypeEditPage.tsx:153 | a single loaded item is sent exactly when its id is selected |
| ProductEdit.SelectedInLoadedOrder | VOC-Front/voc_front_new/src/pages/intelligence/ProductTypeEditPage.tsx:153 | the items keep their loaded order, not the order of selection |
| ProductEdit.SaveBody | VOC-Front/voc_front_new/src/pages/intelligence/ProductTypeEditPage.tsx:155-161 | the payload's id is radix-less `parseInt(id \|\| '0')`, title and description fall back to texts naming the route id, the product type falls back to the route id, and the items are the selected ones |
| ProductEdit.EmptyFormFallsBackToRoute | VOC-Front/voc_front_new/src/pages/intelligence/ProductTypeEditPage.tsx:155-161 | on the route of product n, an empty form saves product n, typed n, under the title "Product n" |
| ProductEdit.FormTypeWins | VOC-Front/voc_front_new/src/pages/intelligence/ProductTypeEditPage.tsx:159 | a product type chosen in the form is the one sent, whatever the route |
| ProductEdit.NoRouteSavesZero | VOC-Front/voc_front_new/src/pages/intelligence/ProductTypeEditPage.tsx:156-159 | without a route id both the id and the product type are 0 |
| ProductEdit.HexRouteIdReadAsHex | VOC-Front/voc_front_new/src/pages/intelligence/ProductTypeEditPage.tsx:155 | a route id `0x` followed by hex digits is saved as their hexadecimal value |
| ProductEdit.PublishCheck | VOC-Front/voc_front_new/src/pages/intelligence/ProductTypeEditPage.tsx:205-219 | publishing is refused without a route id, then without a selected item, then without a selected preset, with the message of the first failed check; it passes exactly when all three hold |
| ProductEdit.PublishSendsSaveBody | VOC-Front/voc_front_new/src/pages/intelligence/ProductTypeEditPage.tsx:227-235 | once the checks pass, the update sent before publishing equals the save payload |
| ProductEdit.FailedPresets | VOC-Front/voc_front_new/src/pages/intelligence/ProductTypeEditPage.tsx:238-245 | the presets collected are exactly those whose request failed, and none are collected exactly when every request succeeded |
| ProductEdit.FailedPresetsAppend | VOC-Front/voc_front_new/src/pages/intelligence/ProductTypeEditPage.tsx:238-245 | failures are collected in the order the presets were tried: those of `p1 + p2` are those of `p1` followed by those of `p2` |
| ProductEdit.FailedPresetsOfOne | VOC-Front/voc_front_new/src/pages/intelligence/ProductTypeEditPage.tsx:238-245 | a single preset is collected exactly when its request failed |
| ProductEdit.JoinComma | VOC-Front/voc_front_new/src/pages/intelligence/ProductTypeEditPage.tsx:246-253 | `join(', ')` gives the empty text for no presets and the preset itself for one |
| ProductEdit.JoinCommaAppend | VOC-Front/voc_front_new/src/pages/intelligence/ProductTypeEditPage.tsx:246-253 | appending a preset to a non-empty list appends a comma, a space and the preset to the joined text |
| ProductEdit.Publish | VOC-Front/voc_front_new/src/pages/intelligence/ProductTypeEditPage.tsx:205-253 | the outcome is a refusal exactly when a check fails, an update failure exactly when the checks pass and the update fails, success exactly when every publish request succeeds, and otherwise the failed presets named in the error message |
| ProductEdit.OneFailureNamed | VOC-Front/voc_front_new/src/pages/intelligence/ProductTypeEditPage.tsx:238-253 | with two presets of which the second fails, the message names only the second |
| ProductEdit.TemplatePath | VOC-Front/voc_front_new/src/pages/intelligence/ProductTypeEditPage.tsx:261-264 | the value of the first `template_path` entry, or the empty text when there is none or no parameter values at all |
| ProductEdit.SetTemplatePath | VOC-Front/voc_front_new/src/pages/intelligence/ProductTypeEditPage.tsx:265-276 | the first `template_path` entry gets the new value and every other entry is unchanged; without one, a new entry is appended |
| ProductEdit.TemplatePathRoundTrip | VOC-Front/voc_front_new/src/pages/intelligence/ProductTypeEditPage.tsx:261-276 | reading the template path after setting it gives the value set |
| ProductEdit.TemplatePathSetTwice | VOC-Front/voc_front_new/src/pages/intelligence/ProductTypeEditPage.tsx:265-276 | setting twice is setting once with the later value |
| ProductEdit.PreviewTemplate | VOC-Front/voc_front_new/src/pages/intelligence/ProductTypeEditPage.tsx:311-314 | the preview template is the value of the first parameter whose non-empty key contains `TEMPLATE_PATH` in upper case, or the empty text |
| ProductEdit.PreviewUsesTemplatePath | VOC-Front/voc_front_new/src/pages/intelligence/ProductTypeEditPage.tsx:311-314 | when only `template_path` entries mention the template path, the preview uses the value the editor just set |
| ProductEdit.PreviewCheck | VOC-Front/voc_front_new/src/pages/intelligence/ProductTypeEditPage.tsx:304-320 | the preview opens exactly when a product type, a selected item and a template are present, with the first selected item; otherwise the three refusals in order |
| ProductEdit.PreviewSaveBody | VOC-Front/voc_front_new/src/pages/intelligence/ProductTypeEditPage.tsx:324-330 | the save before the preview sends the save payload's title, description and items, and the same ids unless an id has a hex prefix |
| ProductEdit.PreviewAndSaveDisagreeOnHex | VOC-Front/voc_front_new/src/pages/intelligence/ProductTypeEditPage.tsx:155-159 | on a hexadecimal route id the preview saves product 0 while the plain save saves the hex value |
| PublishPage.ResolvedDelete | VOC-Front/voc_front_new/src/pages/intelligence/PublishPage.tsx:140-158 | a resolved reply counts as deleted exactly when it is 2xx or a 401 carrying the "Product deleted" message; otherwise the thrown error's message names the status and the reply's message or "Unknown error" |
| PublishPage.CaughtDelete | VOC-Front/voc_front_new/src/pages/intelligence/PublishPage.tsx:160-181 | an error counts as deleted exactly when it carries a 401 reply with the success message; without a reply, the alert is the no-response text when a request was made and "Error: " with the message otherwise |
| PublishPage.HandleDelete | VOC-Front/voc_front_new/src/pages/intelligence/PublishPage.tsx:127-185 | a reply that arrives is treated as deleted exactly when it is 2xx or a 401 with the success message; a lost request always ends in an alert |
| PublishPage.CatchRuleNeverFires | VOC-Front/voc_front_new/src/pages/intelligence/PublishPage.tsx:163-171 | the 401 rule of the catch block never decides: the verdict is "deleted" exactly when the try block's rules accept the reply |
| PublishPage.ServerErrorShowsInterceptorText | VOC-Front/voc_front_new/src/pages/intelligence/PublishPage.tsx:160-181 | a 5xx reply is shown as "Error: " with the client's error text, never as "Failed to delete product" |
| PublishPage.ClientErrorIsUnexpected | VOC-Front/voc_front_new/src/pages/intelligence/PublishPage.tsx:158 | a 3xx or 4xx reply other than the 401 success is shown as an unexpected response |
| PublishPage.ToggleSelection | VOC-Front/voc_front_new/src/pages/intelligence/PublishPage.tsx:119-125 | toggling flips the membership of the id, leaves every other id as it was, and appends an id not yet selected |
| PublishPage.ToggleSelectionTwice | VOC-Front/voc_front_new/src/pages/intelligence/PublishPage.tsx:119-125 | toggling an unselected id twice restores the selection |
| PublishPage.Search | VOC-Front/voc_front_new/src/pages/intelligence/PublishPage.tsx:187-189 | the listed products are exactly those whose lower-cased title contains the lower-cased search, never more than there are |
| PublishPage.SearchAppend | VOC-Front/voc_front_new/src/pages/intelligence/PublishPage.tsx:187-189 | the matches keep the list order: searching `xs + ys` gives the matches of `xs` followed by those of `ys` |
| PublishPage.SearchOfOne | VOC-Front/voc_front_new/src/pages/intelligence/PublishPage.tsx:187-189 | a single product is listed exactly when its lower-cased title contains the lower-cased search |
| PublishPage.EmptySearchKeepsAll | VOC-Front/voc_front_new/src/pages/intelligence/PublishPage.tsx:187-189 | an empty search lists every product, in order |
| PublishPage.SearchIgnoresQueryCase | VOC-Front/voc_front_new/src/pages/intelligence/PublishPage.tsx:187-189 | upper-casing the search does not change the result |
| AclEditor.Ids | VOC-Front/voc_front_new/src/pages/access-control/EditAclPage.tsx:83-84 | one id per member, in order |
| AclEditor.Load | VOC-Front/voc_front_new/src/pages/access-control/EditAclPage.tsx:74-84 | the loaded state keeps the ACL, copies name and description, defaults item type and id to the empty text and the four flags to false, and selects exactly the ids of the ACL's users and roles, in order |
| AclEditor.ToggleUser | VOC-Front/voc_front_new/src/pages/access-control/EditAclPage.tsx:97-103 | the user id's membership flips, every other user keeps its state, and the role selection is untouched |
| AclEditor.ToggleRole | VOC-Front/voc_front_new/src/pages/access-control/EditAclPage.tsx:105-111 | the role id's membership flips, every other role keeps its state, and the user selection is untouched |
| AclEditor.SelectAllUsers | VOC-Front/voc_front_new/src/pages/access-control/EditAclPage.tsx:266-272 | checking selects exactly the ids of all listed users; unchecking selects none; roles are untouched |
| AclEditor.SelectAllRoles | VOC-Front/voc_front_new/src/pages/access-control/EditAclPage.tsx:324-330 | checking selects exactly the ids of all listed roles; unchecking selects none; users are untouched |
| AclEditor.Resolve | VOC-Front/voc_front_new/src/pages/access-control/EditAclPage.tsx:127-128 | one entry per selected id, in selection order: the listed member with that id, or undefined exactly when no listed member has it |
| AclEditor.Submit | VOC-Front/voc_front_new/src/pages/access-control/EditAclPage.tsx:113-129 | nothing is sent before an ACL is loaded; otherwise the name, description, flags, item type and id are sent as they stand and the selections are resolved against the listed users and roles |
| AclEditor.ResolveListed | VOC-Front/voc_front_new/src/pages/access-control/EditAclPage.tsx:127-128 | with unique ids, resolving a listed member's id gives back that member |
| AclEditor.SelectAllSendsEveryone | VOC-Front/voc_front_new/src/pages/access-control/EditAclPage.tsx:266-272 | after "select all" the payload carries every listed user, in list order |
| AclEditor.UntouchedSaveRoundTrip | VOC-Front/voc_front_new/src/pages/access-control/EditAclPage.tsx:74-129 | loading an ACL and saving it untouched sends back its own users and roles, provided each is still listed |
| AclEditor.ToggleUserTwice | VOC-Front/voc_front_new/src/pages/access-control/EditAclPage.tsx:97-103 | toggling an unselected user twice leaves the payload as it was |
| AddNewsItems.Open | VOC-Front/voc_front_new/src/components/modals/AddNewsItemsModal.tsx:61-68 | opening empties the list, the offset and the selection and starts the first fetch, with the main spinner on and no error |
| AddNewsItems.StartFetch | VOC-Front/voc_front_new/src/components/modals/AddNewsItemsModal.tsx:31-36 | offset 0 shows the main spinner, any other offset the load-more spinner; the error is cleared and nothing else changes |
| AddNewsItems.FinishFetch | VOC-Front/voc_front_new/src/components/modals/AddNewsItemsModal.tsx:47-57 | both spinners stop; a failed request sets the error and keeps list, offset and hasMore; a reply replaces the list at offset 0 and appends otherwise, a missing page counts as empty, hasMore holds exactly when the page had 20 items, and the offset advances by the page length |
| AddNewsItems.LoadMore | VOC-Front/voc_front_new/src/components/modals/AddNewsItemsModal.tsx:70-74 | a fetch starts exactly when no later page is loading and more are expected, and asks for the current offset |
| AddNewsItems.FetchKeepsCount | VOC-Front/voc_front_new/src/components/modals/AddNewsItemsModal.tsx:47-50 | when the offset counts the listed items, a successful fetch at that offset keeps it so |
| AddNewsItems.BrowseListsEveryPage | VOC-Front/voc_front_new/src/components/modals/AddNewsItemsModal.tsx:28-74 | opening and loading more after every full page lists all pages in the order received, the offset is their total length, and load-more stays enabled exactly while the last page is full |
| AddNewsItems.Check | VOC-Front/voc_front_new/src/components/modals/AddNewsItemsModal.tsx:76-86 | the checked state of the item flips and every other item's state is unchanged |
| AddNewsItems.ItemsToAdd | VOC-Front/voc_front_new/src/components/modals/AddNewsItemsModal.tsx:88-92 | the items handed back are exactly the listed items whose ids are checked, never more than are listed |
| AddNewsItems.ItemsToAddAppend | VOC-Front/voc_front_new/src/components/modals/AddNewsItemsModal.tsx:88-92 | items are handed back in list order: listing `xs + ys` hands back the checked items of `xs` followed by those of `ys` |
| AddNewsItems.ItemsToAddOfOne | VOC-Front/voc_front_new/src/components/modals/AddNewsItemsModal.tsx:88-92 | a single listed item is handed back exactly when its id is checked |
| AddNewsItems.CheckTwiceChangesNothing | VOC-Front/voc_front_new/src/components/modals/AddNewsItemsModal.tsx:76-89 | checking a box twice leaves the items added unchanged |
| AddNewsItems.AllCheckedAddsList | VOC-Front/voc_front_new/src/components/modals/AddNewsItemsModal.tsx:89 | with every listed id checked the whole list is added, in order |
| AddNewsItems.AddedInListOrder | VOC-Front/voc_front_new/src/components/modals/AddNewsItemsModal.tsx:89 | items checked in reverse order still come out in list order |
| GeographicalMap.RiskTier | VOC-Front/voc_front_new/src/components/dashboard/GeographicalMap.tsx:28-36 | the tier is "no data" exactly for counts of at most 0, and otherwise exactly the band 1-99, 100-999, 1000-4999, 5000-9999 or 10000 and above that the count falls in |
| GeographicalMap.RiskColor | VOC-Front/voc_front_new/src/components/dashboard/GeographicalMap.tsx:16-36 | the colour is one of the six palette colours, the one of the count's tier |
| GeographicalMap.RiskTierMonotone | VOC-Front/voc_front_new/src/components/dashboard/GeographicalMap.tsx:28-36 | a larger count never gets a lower tier |
| GeographicalMap.TierColorsDistinct | VOC-Front/voc_front_new/src/components/dashboard/GeographicalMap.tsx:16-23 | different tiers have different colours |
| GeographicalMap.RiskColorChangesOnlyAtThresholds | VOC-Front/voc_front_new/src/components/dashboard/GeographicalMap.tsx:30-34 | two counts with no threshold between them get the same colour |
| GeographicalMap.DataMap | VOC-Front/voc_front_new/src/components/dashboard/GeographicalMap.tsx:60-63 | the table has an entry for a name exactly when the data lists that name |
| GeographicalMap.CountryValue | VOC-Front/voc_front_new/src/components/dashboard/GeographicalMap.tsx:93 | a country absent from the data is drawn with count 0 |
| GeographicalMap.LastEntryWins | VOC-Front/voc_front_new/src/components/dashboard/GeographicalMap.tsx:60-93 | the last entry for a name decides its count |
| Dashboard.CompareCves | VOC-Front/voc_front_new/src/pages/DashboardVI.tsx:21-39 | a CVE from 2024 or 2025 sorts before one from another year; otherwise the later year first, and within a year the later publication first |
| Dashboard.CompareCvesIsConsistent | VOC-Front/voc_front_new/src/pages/DashboardVI.tsx:21-39 | the comparator is negative exactly on that order, antisymmetric, zero only on equal dates, and the order is irreflexive and transitive, as a sort comparator must be |
| Dashboard.TotalPages | VOC-Front/voc_front_new/src/pages/DashboardVI.tsx:106 | the page count is the least number of pages of the given size that holds every result |
| Dashboard.TotalPagesExamples | VOC-Front/voc_front_new/src/pages/DashboardVI.tsx:64-106 | no results make no pages, a full page makes one, one more result makes two |
| Dashboard.MergePage | VOC-Front/voc_front_new/src/pages/DashboardVI.tsx:145-150 | an appended page follows the previous list unchanged; otherwise the page replaces the list |
| Dashboard.LoadMore | VOC-Front/voc_front_new/src/pages/DashboardVI.tsx:358-364 | a next page is requested exactly when the current page is not the last and no load is running, and it is the following page |
| Dashboard.LoadMoreStaysInRange | VOC-Front/voc_front_new/src/pages/DashboardVI.tsx:358-364 | loading more from a page in range never asks for a page past the last |
| Dashboard.HandleSort | VOC-Front/voc_front_new/src/pages/DashboardVI.tsx:219-224 | the clicked field becomes the sort field; the same field flips the direction and a new field sorts descending |
| Dashboard.HandleSortTwice | VOC-Front/voc_front_new/src/pages/DashboardVI.tsx:219-224 | clicking the same header twice restores the direction |
| Dashboard.ComputeRiskStats | VOC-Front/voc_front_new/src/pages/DashboardVI.tsx:168-184 | the counts are those of the high-risk and of the exploitable vulnerabilities, and the percentage is the exploitable share rounded to the nearest whole percent, 0 for an empty list |
| Dashboard.HighRiskRule | VOC-Front/voc_front_new/src/pages/DashboardVI.tsx:168-172 | a CVE is high-risk exactly when its score is 9.0 or more, or 7.0 or more with a known exploit or a proof of concept; raising a score never lowers the risk |
| Dashboard.SeverityData | VOC-Front/voc_front_new/src/pages/DashboardVI.tsx:187-193 | five bars in the order CRITICAL, HIGH, MEDIUM, LOW, UNKNOWN, each counting the vulnerabilities of that severity, UNKNOWN also counting empty ones |
| Dashboard.BarTotalOfFive | VOC-Front/voc_front_new/src/pages/DashboardVI.tsx:187-193 | the total of five bars is the sum of their counts |
| Dashboard.SeverityBarsPartition | VOC-Front/voc_front_new/src/pages/DashboardVI.tsx:187-193 | the bars count no vulnerability twice and every vulnerability of a known or empty severity once |
| Dashboard.StatusData | VOC-Front/voc_front_new/src/pages/DashboardVI.tsx:197-201 | three bars OPEN, IN_PROGRESS, CLOSED, each counting the vulnerabilities of that status |
| Dashboard.CvssBucket | VOC-Front/voc_front_new/src/pages/DashboardVI.tsx:316-331 | a score lies in exactly one of the buckets [0,4], (4,7], (7,9], (9,10], and in none outside [0,10] |
| Dashboard.CvssDistribution | VOC-Front/voc_front_new/src/pages/DashboardVI.tsx:293-353 | four counts, one per bucket, all 0 for an empty list |
| Dashboard.CvssDistributionPartition | VOC-Front/voc_front_new/src/pages/DashboardVI.tsx:316-331 | the four counts add up to the number of scores between 0 and 10 |
| TemplatePreview.TemplateField | VOC-Front/voc_front_new/src/pages/intelligence/TemplatePreviewPage.tsx:9-23 | an id names a template field exactly when it is one of 1 to 9, as a number or as its text, and then names the field of that position; null, a boolean or a missing id names none |
| TemplatePreview.Fold | VOC-Front/voc_front_new/src/pages/intelligence/TemplatePreviewPage.tsx:21-42 | the attribute loop fails exactly when some attribute is null |
| TemplatePreview.StepAccumulates | VOC-Front/voc_front_new/src/pages/intelligence/TemplatePreviewPage.tsx:22-41 | one more attribute keeps the object built faithful to the reference definitions: set fields are the mentioned ones, list fields hold every contribution in order, other fields the last value, cvss wrapped as `{vectorString}` |
| TemplatePreview.FoldAccumulates | VOC-Front/voc_front_new/src/pages/intelligence/TemplatePreviewPage.tsx:21-42 | the object the loop builds is the one the reference definitions describe |
| TemplatePreview.UnknownAttributeIgnored | VOC-Front/voc_front_new/src/pages/intelligence/TemplatePreviewPage.tsx:22-23 | an attribute whose id names no field changes nothing, wherever it stands |
| TemplatePreview.FalsyValueStillCreatesList | VOC-Front/voc_front_new/src/pages/intelligence/TemplatePreviewPage.tsx:26-33 | a falsy value adds nothing to a list field, but the field is still created as an empty list |
| TemplatePreview.AttributesOf | VOC-Front/voc_front_new/src/pages/intelligence/TemplatePreviewPage.tsx:21 | an array of attributes is walked as it is, and a missing or falsy `attributes` walks nothing |
| TemplatePreview.MapReportItemToTemplate | VOC-Front/voc_front_new/src/pages/intelligence/TemplatePreviewPage.tsx:5-56 | the result is `{attrs}`, whose base fields are the item's title, description (falling back to the title), created and last-updated dates, uuid and completed flag with their defaults; an item without attributes gets the base fields only |
| TemplatePreview.PreviewFieldsFromAttributes | VOC-Front/voc_front_new/src/pages/intelligence/TemplatePreviewPage.tsx:21-55 | in the preview, a list field fed by some attribute holds every value fed to it in attribute order, and a scalar field the last value fed to it |
| TemplatePreview.FieldNameNotBase | VOC-Front/voc_front_new/src/pages/intelligence/TemplatePreviewPage.tsx:9-50 | no template field shares its name with a base field, so the base fields never overwrite an attribute |
| EditReportItem.GroupItems | VOC-Front/voc_front_new/src/pages/intelligence/EditReportItemPage.tsx:427-431 | the items of all groups together: an id is in it exactly when some group lists it |
| EditReportItem.InitialAttributes | VOC-Front/voc_front_new/src/pages/intelligence/EditReportItemPage.tsx:426-431 | one blank value for each item of each of the type's groups, and no other entry |
| EditReportItem.FindType | VOC-Front/voc_front_new/src/pages/intelligence/EditReportItemPage.tsx:421 | the first type with the id, or none exactly when no listed type has it |
| EditReportItem.SelectType | VOC-Front/voc_front_new/src/pages/intelligence/EditReportItemPage.tsx:413-441 | an unparsable or zero id clears the type and the report; an unknown id changes nothing; a known id sets that type, blank attributes and an empty report of that type |
| EditReportItem.SelectingListedTypeSelectsIt | VOC-Front/voc_front_new/src/pages/intelligence/EditReportItemPage.tsx:413-441 | choosing a listed type by the text of its id selects that type and keeps the form's other fields |
| EditReportItem.FindFirstListed | VOC-Front/voc_front_new/src/pages/intelligence/EditReportItemPage.tsx:421 | the lookup of a listed type's id, with no earlier type sharing it, finds that type |
| EditReportItem.ChangeAttribute | VOC-Front/voc_front_new/src/pages/intelligence/EditReportItemPage.tsx:469-475 | without a form nothing happens; otherwise the attribute gets the value and every other attribute and form field is unchanged |
| EditReportItem.ChangesCompose | VOC-Front/voc_front_new/src/pages/intelligence/EditReportItemPage.tsx:469-475 | editing the same attribute twice keeps the later value, and edits to two different attributes commute |
| EditReportItem.AggregateIds | VOC-Front/voc_front_new/src/pages/intelligence/EditReportItemPage.tsx:444 | the ids of the attached aggregates |
| EditReportItem.NewAggregates | VOC-Front/voc_front_new/src/pages/intelligence/EditReportItemPage.tsx:445-452 | every offered item whose id is not attached becomes an empty aggregate, nothing attached is offered again, and nothing else is added |
| EditReportItem.NewAggregatesAppend | VOC-Front/voc_front_new/src/pages/intelligence/EditReportItemPage.tsx:445-452 | the new aggregates keep the offered order: offering `xs + ys` adds the new items of `xs` followed by those of `ys` |
| EditReportItem.NewAggregatesOfOne | VOC-Front/voc_front_new/src/pages/intelligence/EditReportItemPage.tsx:445-452 | a single offered item becomes an empty aggregate exactly when its id is not attached yet |
| EditReportItem.AddNewsItems | VOC-Front/voc_front_new/src/pages/intelligence/EditReportItemPage.tsx:443-463 | without a report nothing happens; otherwise the new aggregates follow the attached ones, which keep their order, and the type is unchanged |
| EditReportItem.AddNewsItemsIdempotent | VOC-Front/voc_front_new/src/pages/intelligence/EditReportItemPage.tsx:443-463 | offering the same batch again adds nothing |
| EditReportItem.NothingNew | VOC-Front/voc_front_new/src/pages/intelligence/EditReportItemPage.tsx:445-446 | a batch whose ids are all attached adds no aggregate |
| EditReportItem.BatchDuplicatesKept | VOC-Front/voc_front_new/src/pages/intelligence/EditReportItemPage.tsx:445-452 | an item offered twice in one batch is attached twice, because the batch is filtered only against the aggregates already attached |
| EditReportItem.SavePayload | VOC-Front/voc_front_new/src/pages/intelligence/EditReportItemPage.tsx:477-500 | saving is refused exactly until both the form and the type exist; the payload carries the type id, the form's attributes, title, title prefix and completed flag, and the attached aggregates' ids in order (none without a report) |
| EditReportItem.SaveAfterSelectAndEdit | VOC-Front/voc_front_new/src/pages/intelligence/EditReportItemPage.tsx:413-500 | choosing a type and filling one attribute saves every group item of the type, blank except the one filled, with no aggregates |
| ReportItemTypeEditor.ListedTypes | VOC-Front/voc_front_new/src/pages/intelligence/EditReportItemType.tsx:56-59 | the listing is `items` when that is a truthy array, otherwise the body itself when it is an array, and nothing otherwise |
| ReportItemTypeEditor.OrUndefined | VOC-Front/voc_front_new/src/pages/intelligence/EditReportItemType.tsx:81-83 | `x \|\| y`: x when truthy, otherwise y |
| ReportItemTypeEditor.ArrayOr | VOC-Front/voc_front_new/src/pages/intelligence/EditReportItemType.tsx:76-81 | `(x \|\| [])`: a falsy value walks nothing, and a truthy one can be walked exactly when it is an array |
| ReportItemTypeEditor.ToAttr | VOC-Front/voc_front_new/src/pages/intelligence/EditReportItemType.tsx:81-89 | an attribute is converted exactly when it is not null; a falsy id becomes `now` plus its position, and type, occurrences and name take their defaults `'Text'`, 0, 1 and the title, then the name, then the empty text |
| ReportItemTypeEditor.ToAttrs | VOC-Front/voc_front_new/src/pages/intelligence/EditReportItemType.tsx:81-89 | the attributes convert exactly when none is null, one per attribute, each with its position |
| ReportItemTypeEditor.ToGroup | VOC-Front/voc_front_new/src/pages/intelligence/EditReportItemType.tsx:76-80 | a converted group's falsy id becomes `now` plus its position, and its name is the title, then the name, then the empty text |
| ReportItemTypeEditor.ToGroups | VOC-Front/voc_front_new/src/pages/intelligence/EditReportItemType.tsx:76-90 | the groups convert exactly when each does, one per group, each with its position |
| ReportItemTypeEditor.LoadType | VOC-Front/voc_front_new/src/pages/intelligence/EditReportItemType.tsx:53-99 | a listing that is not an array fails with its own message; a listing of items with ids that has no id printing as the path id fails as "not found"; a loaded type is the conversion of the first item whose id prints as the path id |
| ReportItemTypeEditor.Transform | VOC-Front/voc_front_new/src/pages/intelligence/EditReportItemType.tsx:69-90 | the id, subtitle and tag are copied; the title is the truthy title, else the truthy name, else ""; the description is the truthy description or ""; one converted group per listed group, in order; it fails exactly when the groups are not an array or one of them fails |
| ReportItemTypeEditor.LoadTypeFindsFirstMatch | VOC-Front/voc_front_new/src/pages/intelligence/EditReportItemType.tsx:60-91 | over items whose ids can be read, the type loaded is the conversion of the first item whose id prints as the path id, and a conversion that throws gives the error text |
| ReportItemTypeEditor.LoadFindsNumericId | VOC-Front/voc_front_new/src/pages/intelligence/EditReportItemType.tsx:61-91 | a type whose numeric id prints as the path id is found and loaded, with no groups when it lists none |
| ReportItemTypeEditor.AddGroup | VOC-Front/voc_front_new/src/pages/intelligence/EditReportItemType.tsx:117-130 | the groups gain one empty group with the temporary id `now` at the end, the others unchanged |
| ReportItemTypeEditor.RemoveGroup | VOC-Front/voc_front_new/src/pages/intelligence/EditReportItemType.tsx:132-136 | only the group at the index goes, the others keep their order, and an index out of range changes nothing |
| ReportItemTypeEditor.RemoveAddedGroup | VOC-Front/voc_front_new/src/pages/intelligence/EditReportItemType.tsx:117-136 | removing the group just added gives back the type as it was |
| ReportItemTypeEditor.AddAttribute | VOC-Front/voc_front_new/src/pages/intelligence/EditReportItemType.tsx:148-161 | a group index out of range throws; otherwise that group gains the attribute "New Attribute" with the temporary id `now` at the end, and every other group is unchanged |
| ReportItemTypeEditor.RemoveAttribute | VOC-Front/voc_front_new/src/pages/intelligence/EditReportItemType.tsx:163-168 | a group index out of range throws; otherwise only the attribute at the index goes from that group, and every other group and field is unchanged |
| ReportItemTypeEditor.RemoveAddedAttribute | VOC-Front/voc_front_new/src/pages/intelligence/EditReportItemType.tsx:148-168 | removing the attribute just added to a group gives back the type as it was |
| ReportItemTypeEditor.GroupPayload | VOC-Front/voc_front_new/src/pages/intelligence/EditReportItemType.tsx:182-198 | a group and each of its attributes carry their id exactly when it is not a temporary id above 10^12; the group keeps its name and description, each attribute its name, description, type, occurrences and catalogue attribute, and each is numbered by its position |
| ReportItemTypeEditor.SavePayload | VOC-Front/voc_front_new/src/pages/intelligence/EditReportItemType.tsx:182-199 | one payload group per group, in order, each numbered by its position |
| ReportItemTypeEditor.NewGroupsSentWithoutId | VOC-Front/voc_front_new/src/pages/intelligence/EditReportItemType.tsx:117-199 | a group added in the editor is sent without an id, and after removing a group the rest are renumbered from 0 in order |
| NewReportItemType.DialogSave | VOC-Front/voc_front_new/src/pages/intelligence/NewReportItemTypeForm.tsx:85-102 | the dialog refuses exactly while no attribute is chosen (the empty choice or id 0); otherwise it hands back the chosen attribute, name, description and occurrences under the temporary id `now` |
| NewReportItemType.AddAttribute | VOC-Front/voc_front_new/src/pages/intelligence/NewReportItemTypeForm.tsx:179-194 | without an active group nothing changes; otherwise the attribute is appended to each group with the active id and no other group changes |
| NewReportItemType.RemoveAttribute | VOC-Front/voc_front_new/src/pages/intelligence/NewReportItemTypeForm.tsx:196-204 | in the groups with the id, exactly the attributes with the other id go; every other group, and every other field, is unchanged |
| NewReportItemType.RemoveAttributeAppend | VOC-Front/voc_front_new/src/pages/intelligence/NewReportItemTypeForm.tsx:196-204 | within the group the attributes left keep their order: removing from `xs + ys` leaves what is left of `xs` followed by what is left of `ys` |
| NewReportItemType.RemoveAttributeOfOne | VOC-Front/voc_front_new/src/pages/intelligence/NewReportItemTypeForm.tsx:196-204 | a single attribute is kept exactly when its id is not the one removed |
| NewReportItemType.RemoveUndoesAdd | VOC-Front/voc_front_new/src/pages/intelligence/NewReportItemTypeForm.tsx:179-204 | removing an attribute just added, under an id its group did not use yet, gives back the groups as they were |
| NewReportItemType.AddGroup | VOC-Front/voc_front_new/src/pages/intelligence/NewReportItemTypeForm.tsx:206-215 | an empty group with the id `now` is appended |
| NewReportItemType.RemoveGroup | VOC-Front/voc_front_new/src/pages/intelligence/NewReportItemTypeForm.tsx:217-219 | every group with the id goes, exactly those, and the others remain |
| NewReportItemType.RemoveGroupAppend | VOC-Front/voc_front_new/src/pages/intelligence/NewReportItemTypeForm.tsx:217-219 | the groups left keep their order: removing from `xs + ys` leaves what is left of `xs` followed by what is left of `ys` |
| NewReportItemType.RemoveGroupOfOne | VOC-Front/voc_front_new/src/pages/intelligence/NewReportItemTypeForm.tsx:217-219 | a single group is kept exactly when its id is not the one removed |
| NewReportItemType.RemoveGroupUndoesAdd | VOC-Front/voc_front_new/src/pages/intelligence/NewReportItemTypeForm.tsx:206-219 | removing a group just added, under an id no group used, gives back the groups as they were |
| NewReportItemType.GroupPayload | VOC-Front/voc_front_new/src/pages/intelligence/NewReportItemTypeForm.tsx:238-250 | a group is sent under its name and description with its position, and each of its attributes with its name, description, occurrences, catalogue attribute and position |
| NewReportItemType.CreatePayload | VOC-Front/voc_front_new/src/pages/intelligence/NewReportItemTypeForm.tsx:232-251 | the id is `now`, the title is the name, the subtitle and description repeat the description, the tag is the fixed icon, and the groups are sent in order, each numbered by its position |
| BotPresetForm.VariantNibble | VOC-Front/voc_front_new/src/pages/intelligence/BotPresetForm.tsx:54 | `r & 0x3 \| 0x8` is always between 8 and 11, a digit `8` to `b` |
| BotPresetForm.Fill | VOC-Front/voc_front_new/src/pages/intelligence/BotPresetForm.tsx:52-56 | the filled text has the template's length, keeps every character that is not a placeholder, puts a hex digit for each `x` and a variant digit for each `y` |
| BotPresetForm.GeneratedIdIsVersion4Uuid | VOC-Front/voc_front_new/src/pages/intelligence/BotPresetForm.tsx:51-57 | whatever the random draws, the generated id is a version-4 UUID: 8-4-4-4-12 lower-case hex digits, version digit 4 and a variant digit `8` to `b` |
| BotPresetForm.FillShape | VOC-Front/voc_front_new/src/pages/intelligence/BotPresetForm.tsx:52-56 | filling any template laid out like the UUID one gives a version-4 UUID |
| BotPresetForm.TemplateShape | VOC-Front/voc_front_new/src/pages/intelligence/BotPresetForm.tsx:52 | the template has its dashes, version digit and variant placeholder at the UUID positions and `x` everywhere else |
| BotPresetForm.ChangeNode | VOC-Front/voc_front_new/src/pages/intelligence/BotPresetForm.tsx:137-142 | a new node is selected and the type and every entered value are forgotten; nothing else changes |
| BotPresetForm.ChangeType | VOC-Front/voc_front_new/src/pages/intelligence/BotPresetForm.tsx:144-148 | a new type is selected and every entered value is forgotten; the node and the rest are unchanged |
| BotPresetForm.ChangeParameter | VOC-Front/voc_front_new/src/pages/intelligence/BotPresetForm.tsx:150-155 | the parameter gets the value and every other entered value is kept |
| BotPresetForm.Or | VOC-Front/voc_front_new/src/pages/intelligence/BotPresetForm.tsx:101-106 | `x \|\| d` on an optional string: the value when present and non-empty, otherwise the fallback |
| BotPresetForm.LoadedValues | VOC-Front/voc_front_new/src/pages/intelligence/BotPresetForm.tsx:109-115 | a preset without stored values loads none; otherwise a key is loaded exactly when some stored value has it |
| BotPresetForm.LoadedValuesLastWins | VOC-Front/voc_front_new/src/pages/intelligence/BotPresetForm.tsx:111-113 | a key stored twice keeps its last value |
| BotPresetForm.LoadPreset | VOC-Front/voc_front_new/src/pages/intelligence/BotPresetForm.tsx:78-118 | a route id matching no preset sets "Bot Preset not found."; otherwise the first matching preset fills the node, tag, title, subtitle, name, description and values with their defaults, leaves the type unselected and clears the error |
| BotPresetForm.CurrentBotType | VOC-Front/voc_front_new/src/pages/intelligence/BotPresetForm.tsx:131-135 | no type without both a node and a type chosen; otherwise a type is found exactly when the first node with the chosen id has a bot of the chosen type, and then it is the first such bot of that node |
| BotPresetForm.LaterNodeIgnored | VOC-Front/voc_front_new/src/pages/intelligence/BotPresetForm.tsx:133 | a node appended after one that already has the chosen id does not change the type found |
| BotPresetForm.ValueFor | VOC-Front/voc_front_new/src/pages/intelligence/BotPresetForm.tsx:174-184 | each parameter is sent with what was entered, else its default, else the empty text |
| BotPresetForm.Submit | VOC-Front/voc_front_new/src/pages/intelligence/BotPresetForm.tsx:157-209 | submitting is refused without both a node and a type, then when the type is not found; otherwise tag, name and description are sent as they stand, title and subtitle fall back to name and description, the bot id is the type's, one value per parameter of the type is sent, and the preset is updated under the route id exactly when there is one and created under a fresh UUID otherwise |
| BotPresetForm.NewTypeSendsDefaults | VOC-Front/voc_front_new/src/pages/intelligence/BotPresetForm.tsx:144-184 | a freshly chosen type sends every parameter at its default |
| BotPresetForm.NodeChangeNeedsType | VOC-Front/voc_front_new/src/pages/intelligence/BotPresetForm.tsx:137-162 | after a node change the form is refused until a type is chosen again |
| BotPresetForm.LoadedValuesNeverSent | VOC-Front/voc_front_new/src/pages/intelligence/BotPresetForm.tsx:96-148 | a loaded preset cannot be submitted before a type is chosen, and choosing one clears the loaded values, so loaded values are never sent |

## Left out

- HTTP I/O, token acquisition and TLS settings: each upstream reply is a parameter. `get_api_token` is modelled only through its result.
- Route registration, rendering plumbing, configuration tables and pure relay routes: they hold no logic beyond passing status and body on.
- React state, hooks, effects, timers, alerts, navigation and rendering: each page operation is modelled as a function from the old state and the inputs to the new state or the payload sent.
- Waiting before a retry, and the repeated request itself: only the decision and the delay are modelled.
- Exception message texts: they are a parameter (`exc`) wherever a route reports `str(e)`.
- `uuid.uuid4()`, `Math.random()`, `Date.now()` and `new Date()`: they are parameters. For `generateUUID`, the random draws are a function `draw`, and the model states the output format.
- Key order of Python dicts and JavaScript objects: objects are maps. Iterating a dict yields one placeholder key per entry. Every scan in the gateway treats all string elements alike, and the lemmas next to each scan state this.
- ProductEdit.SelectedItems: its own contract states membership and count only; the loaded-list order is proved for all inputs by `ProductEdit.SelectedItemsAppend` together with `ProductEdit.SelectedItemsOfOne`, rather than in the member's ensures.
- ProductEdit.FailedPresets: its own contract states membership, emptiness and count only; the order in which failures are collected is proved for all inputs by `ProductEdit.FailedPresetsAppend` together with `ProductEdit.FailedPresetsOfOne`, rather than in the member's ensures.
- PublishPage.Search: its own contract states membership and count only; the list order of the matches is proved for all inputs by `PublishPage.SearchAppend` together with `PublishPage.SearchOfOne`, rather than in the member's ensures.
- AddNewsItems.ItemsToAdd: its own contract states membership and count only; the list order of the items handed back is proved for all inputs by `AddNewsItems.ItemsToAddAppend` together with `AddNewsItems.ItemsToAddOfOne`, rather than in the member's ensures.
- EditReportItem.NewAggregates: its own contract states membership and count only; the offered order of the new aggregates is proved for all inputs by `EditReportItem.NewAggregatesAppend` together with `EditReportItem.NewAggregatesOfOne`, rather than in the member's ensures.
- NewReportItemType.RemoveAttribute: its own contract states membership within each group only; the order of the attributes left is proved for all inputs by `NewReportItemType.RemoveAttributeAppend` together with `NewReportItemType.RemoveAttributeOfOne`, rather than in the member's ensures.
- NewReportItemType.RemoveGroup: its own contract states membership and count only; the order of the groups left is proved for all inputs by `NewReportItemType.RemoveGroupAppend` together with `NewReportItemType.RemoveGroupOfOne`, rather than in the member's ensures.
- Lists.RemoveAll: its own contract states membership, and no change for a list without the value, only; the order of the elements kept is proved for all inputs by `Lists.RemoveAllAppend` together with `Lists.RemoveAllOfOne`, rather than in the member's ensures.
- Dashboard.CompareCves: a `published_date` that `new Date` cannot parse is not representable. In the source its year is NaN, so such a CVE sorts after every 2024 or 2025 one, while against any other CVE the comparator returns NaN, which `sort` takes as equal.
- Dashboard.CompareCvesIsConsistent: holds for parseable dates only. With an unparsable date the source comparator is not consistent: that CVE compares equal to a 2019 and to a 2020 CVE, which are not equal to each other, so the order `sort` then produces depends on the engine.
- Helpers.TallyOf: values are tallied in order of first appearance. `Object.entries` lists integer-like keys first, so among equal counts the ranked order can differ from the source's. Values named like members of `Object.prototype` are not modelled either: in the source's plain `{}`, "constructor", "toString" and "valueOf" start from the inherited function, so their count becomes a string, and "__proto__" is dropped; here every value starts from 0.
- Helpers.SeveritySummary: inherits the `Object.prototype` gap of `Helpers.TallyOf`.
- Helpers.StatusSummary: inherits the `Object.prototype` gap of `Helpers.TallyOf`.
- Helpers.TopVendors: inherits the `Object.prototype` gap and the tie order of `Helpers.TallyOf`.
- Helpers.TopProducts: inherits the `Object.prototype` gap and the tie order of `Helpers.TallyOf`.
- Helpers.RankedCounts: inherits the `Object.prototype` gap and the tie order of `Helpers.TallyOf`.
- Helpers.RoundedPercent: rounds the exact ratio. The source computes `k / n * 100` in doubles, which can fall just below a half: 23 of 40 shows 57 where the model gives 58 (likewise 46 of 80, 29 of 200 and 57 of 200). `Helpers.VulnerabilitySummary` and `Dashboard.ComputeRiskStats` inherit this through their percentages.
- Helpers.VulnerabilitySummary: its closed percentage inherits the exact-ratio rounding of `Helpers.RoundedPercent`.
- Dashboard.ComputeRiskStats: its exploitable percentage inherits the exact-ratio rounding of `Helpers.RoundedPercent`.
- Text.Upper: maps ASCII letters only. The full Unicode case mapping of `upper()`, `lower()`, `toUpperCase()` and `toLowerCase()` ("é" to "É", "ß" to "SS", which also changes the length) is not modelled.
- Text.Lower: maps ASCII letters only. The full Unicode case mapping of `upper()`, `lower()`, `toUpperCase()` and `toLowerCase()` ("é" to "É", "ß" to "SS", which also changes the length) is not modelled.
- Text.LowerUpper: holds for the ASCII mapping; under the full Unicode mapping "ß" breaks it.
- PresentersRoutes.NormalizeTitle: titles that differ only in the case of non-ASCII letters ("Été" and "été") count as different here, while the source refuses the second with 409.
- PresentersRoutes.CreateProductType: titles that differ only in the case of non-ASCII letters ("Été" and "été") count as different here, while the source refuses the second with 409.
- PresentersRoutes.CreateRefusedIffTitleTaken: titles that differ only in the case of non-ASCII letters ("Été" and "été") count as different here, while the source refuses the second with 409.
- PresentersRoutes.TitleCheckIgnoresCase: titles that differ only in the case of non-ASCII letters ("Été" and "été") count as different here, while the source refuses the second with 409.
- PublishPage.Search: a search that differs from a title only in the case of non-ASCII letters does not match here, while it does in the source.
- PublishPage.SearchIgnoresQueryCase: a search that differs from a title only in the case of non-ASCII letters does not match here, while it does in the source.
- Helpers.SeverityColor: upper-cases ASCII letters only, so a severity written with a non-ASCII letter that `toUpperCase()` maps onto an ASCII one ("crıtical" with a dotless i, "hıgh") gets grey here, while the source gives it that severity's colour.
- Helpers.SeverityColorIgnoresCase: states case-insensitivity for ASCII letters only; a severity written with a non-ASCII letter that `toUpperCase()` maps onto an ASCII one ("crıtical" with a dotless i, "hıgh") is drawn like UNKNOWN here but not in the source.
- Helpers.StatusColor: upper-cases ASCII letters only, so a status written with a non-ASCII letter that `toUpperCase()` maps onto an ASCII one ("cloſed" with a long s, "ın_progress") gets grey here, while the source gives it that status's colour.
- Helpers.StatusColorIgnoresCase: states case-insensitivity for ASCII letters only; a status written with a non-ASCII letter that `toUpperCase()` maps onto an ASCII one ("cloſed" with a long s, "ın_progress") is grey here but not in the source.
- Helpers.TranslateSeverity: upper-cases ASCII letters only, so a severity written with a non-ASCII letter that `toUpperCase()` maps onto an ASCII one ("crıtical" with a dotless i, "hıgh") is returned unchanged here, while the source translates it.
- Helpers.TranslateStatus: upper-cases ASCII letters only, so a status written with a non-ASCII letter that `toUpperCase()` maps onto an ASCII one ("cloſed" with a long s, "ın_progress") is returned unchanged here, while the source translates it.
- Helpers.TranslationsIgnoreCase: states case-insensitivity for ASCII letters only; values such as "crıtical" or "cloſed", which the source translates through `toUpperCase()`, are left unchanged here.
- ApiClient.UpperOr: upper-cases ASCII letters only, so "crıtical" gives "CRıTICAL" here and "CRITICAL" in the source, and "ß" keeps its length here while the source gives "SS".
- ApiClient.NormalizeCve: its severity and status go through `ApiClient.UpperOr`, so they inherit its ASCII-only upper-casing ("crıtical" gives "CRıTICAL" here, "CRITICAL" in the source).
- ProductEdit.IsPreviewTemplate: upper-cases the key's ASCII letters only, so a key such as "template_patẖ", whose last letter `toUpperCase()` turns into "H" followed by a combining mark, is no template here, while the source takes it as one.
- ProductEdit.PreviewTemplate: inherits the ASCII-only key test of `ProductEdit.IsPreviewTemplate`; a key such as "template_patẖ" is skipped here but chosen by the source.
- ProductEdit.PreviewUsesTemplatePath: holds for the ASCII-only key test; under the full Unicode mapping a key such as "template_patẖ" placed earlier would also be taken as the template.
- ProductEdit.PreviewCheck: inherits the ASCII-only key test of `ProductEdit.IsPreviewTemplate`, so a product type whose only template key is like "template_patẖ" is refused here for lack of a template, while the source opens the preview.
- Text.PyInt: Unicode decimal digits (Arabic-Indic, full-width and the like), which `int()` also accepts, are refused here.
- PresentersRoutes.UpdateProductType: a path id written with non-ASCII decimal digits raises here, while the source sends it.
- Text.ParseInt: the value is an exact integer, while `parseInt` returns a double and rounds values beyond 2^53.
- Text.ParseIntAuto: the value is an exact integer, while `parseInt` returns a double and rounds values beyond 2^53.
- Text.ParseIntRoundTrip: `Text.IntToString` prints every integer in plain decimal digits. JavaScript's `toString` switches to exponent notation from 10^21 on, and `parseInt` then reads only the digits before the decimal point, so the page's key round trip fails for such ids.
- ApiClient.FeedQuery: bounds are finite decimals printed in positional notation. The exponent notation `toString` uses below 10^-6 and from 10^21 on, and decimals with more digits than a double holds, are not modelled.
- ApiClient.NormalizeCve: the three dates default to one `now`, while the source calls `new Date()` once per member, so they could differ by a millisecond.
- PresentersRoutes.GetProductTypeById: `str()` of a list or dict id is not modelled, so such an id never matches.
- ReportItemTypeEditor.GroupPayload: only integer ids above 10^12 count as temporaries. A numeric string id above 10^12, which JavaScript would also compare as greater, is not modelled.
- In-place mutation of group objects shared between the old and new state (`EditReportItemType.tsx` lines 159 and 166): each state is a fresh value.
- Template ids that coincide with inherited JavaScript property names (`constructor`, `toString`): not modelled in the template mapping.
- TemplatePreview.ValueOf: a missing `value` is read as `null`, while the page keeps `undefined`. Both add nothing to a list field, but once the attributes are serialised a `cvss` or scalar field holding `undefined` is dropped, while the model keeps it as `null`.
- Floating-point rules are left out: `calculateRiskScore`, `isHighRisk`, `getCvssScoreRanges`, the EPSS buckets and `Math.round` on fractional scores. Scores and percentages are integer tenths, and rounding is stated on integers.
- `handleProductTypeSelect` (`ProductTypeEditPage.tsx` lines 133-141) and the plain field setters (`handleGroupChange`, `handleInputChange`, `handleFormChange`): they copy one input into one field.
- `fetchBotPresets` and the other front-end fetchers that return the reply body unchanged: they are relays.
- The other form and list pages (OSINT sources, remote access, publisher presets, product-type detail and listings) and the chart components: they repeat the copy, toggle and search idioms modelled here, or are presentation.
