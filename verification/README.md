# Sanctions screening API: verified model

A Dafny model of the request-handling layer of the sanctions screening API: the per-key rate
limiter, the versioned watchlist store and its CSV reader, the review queue, the append-only audit
log, the tenant store, and the handlers that drive several stores in one request.

## How it is laid out

| file | what it holds |
|---|---|
| `RateLimiter.dfy` | the token-bucket limiter as an object over a map of buckets, and what one call does |
| `LimiterRuns.dfy` | sequences of timed calls: memory bound, exact reason for a denial, greedy optimality, Retry-After |
| `LimiterEviction.dfy` | what forgetting idle clients costs: the exact window bounds, isolation, inert denials |
| `LimiterNeighbours.dfy` | when one client's calls cost another client anything |
| `LimiterWaits.dfy` | which waits after a denial are long enough, and how exact Retry-After is |
| `Watchlist.dfy`, `WatchlistRuns.dfy` | the watchlist table and every sequence of uploads to it |
| `Text.dfy`, `Csv.dfy` | trimming, splitting and joining; the CSV reader |
| `Timestamps.dfy` | the stored RFC 3339 text, its order, and what zones do to it |
| `Audit.dfy`, `Review.dfy`, `Tenants.dfy` | the three other tables |
| `Service.dfy` | the handlers as interleaved processes over the watchlist, review and audit stores, one SQL statement a step, any of which may fail, and what each request is answered |
| `Protocol.dfy`, `ScreeningLedger.dfy` | what every interleaving keeps between the review queue and the audit log |
| `Ledgers.dfy` | the tables counted against the writes that succeeded, and the runs that lose an event |
| `UploadHistory.dfy` | watchlists over interleaved runs: the versions told and the history kept |
| `Erasure.dfy`, `Observations.dfy`, `Transcripts.dfy` | tenant isolation: every other tenant can be deleted from a run, and nobody notices |
| `Gateway.dfy`, `GatewayErasure.dfy` | the tenant table in front of the service: whose key, whose request, whose consent; and erasure over all four databases |
| `Handlers.dfy` | the middleware and the handlers as methods over the store objects |
| `Tables.dfy`, `Wrappers.dfy` | selections, pages and counts over rows; options and results |

Each store is a class whose fields are its table; each method is tied to a function from the old
table to the new one, and the theorems about runs are about those functions. The tables are the
sequences of rows in insertion order, so a query without `ORDER BY` is taken to answer in row order.

The limiter's instants are seconds, as real numbers, and its tokens are reals. The stores' times are
nanoseconds in the years 0000 to 9999, told in a zone that is a whole number of minutes from UTC.

## What the model shows about the code

* Eviction breaks the limiter's plain (burst, rate) promise when ten idle minutes do not refill a
  bucket. `BoundingSlopes`, `IsolationIffRefillsWhileIdle`, `NeighboursUnseenIffRefillsWhileIdle` and
  `InertIffRefillsWhileIdle` give the exact condition in each case: `600 * rate >= burst`. Without it
  the window bound that does hold has slope `max(rate, burst / 600)`, and one client's calls can cost
  another client its admissions.
* Retry-After is always enough, and one second more than needed exactly when `1 / rate` is a whole
  number of seconds (`RetryAfterIsExactUnlessWhole`).
* The architecture notes promise that every event is appended to the audit trail
  (docs/architecture.md:55). The handlers ignore a failed append, so it is not so:
  `ADecisionCanLackItsEvent` and `ACaseCanLackItsEvent` are runs that lose one. A decision is in the
  log exactly when its winner's append succeeded (`DecisionIsLoggedIff`), and a case has an event to
  refer to exactly when some screening of its tenant and request had its append succeed
  (`CaseRefersIff`), whatever else fails.
* However many requests race to decide a case, at most one is answered 200 (`DecisionToldOnce`), and
  what it was told stands (`DecisionToldStands`), logged or not.
* A screening asks for its tenant's consent when the key is looked up, not when it is screened: an
  opt-out in between comes too late (`ScreeningsAskConsent`, `OptOutCanComeTooLate`). The consent used
  is the present one exactly when the tenant's last word since that lookup, if any, says the same
  (`ConsentIsCurrentIff`).
* `CountSince` compares text. It counts an event rightly for every `since` exactly when the event is
  stamped in UTC (`CountsRightlyIffUTC`), as all events of the handlers are; a caller of `Record` who
  supplies a time in another zone is miscounted.
* An upload of no entries would use up no version number (`VersionsAreConsecutive`); the handler
  never makes one because the CSV reader refuses files without entries (`AcceptedIff`).
* The order of CSV columns matters to the entry of a row exactly when a field has two columns
  (`OrderIrrelevantIff`). To a whole file it matters whenever there are two columns, one of them a name
  column (`FileOrderIrrelevantIff`), because rows are skipped when their first cell is blank, whatever
  column comes first.
* Risk flags survive storage exactly when none contains a comma and the list is not a single blank
  flag (`FlagsSurvive`).

## Model

| member | source | states |
|---|---|---|
| RateLimit.RateLimiter.constructor | internal/httpapi/ratelimit.go:26-38 | a new limiter knows no client, and its rate and burst are positive whatever was asked for |
| RateLimit.RateLimiter.Sweep | internal/httpapi/ratelimit.go:46-55 | the cleanup runs at most once in ten minutes and then forgets exactly the clients silent for longer, touching no bucket that stays |
| RateLimit.RateLimiter.Allow | internal/httpapi/ratelimit.go:42-77 | one call sweeps, creates, refills and consumes in place: the verdict and the new view of the map are those of the one-call specification, and no other client's bucket changes |
| RateLimit.Middleware | internal/httpapi/ratelimit.go:82-98 | a non-positive rate serves every request; otherwise a request is served or answered 429 with Retry-After as the limiter decides |
| RateLimitRuns.MemoryIsBounded | internal/httpapi/ratelimit.go:46-76 | after every call the map has every client called in the last ten minutes and none silent for over twenty; each bucket has 0 <= tokens <= burst and last = lastSeen = its client's latest call |
| RateLimitRuns.DeniedIffOverdrawn | internal/httpapi/ratelimit.go:57-76 | in any run with evictions, a call is denied if and only if one more admission would exceed burst + rate * elapsed since some call in the same bucket's life |
| RateLimitRuns.GreedyIsOptimal | internal/httpapi/ratelimit.go:57-76 | in every prefix of every run the limiter admits at least as many of a client's calls as any choice of them that keeps the (burst, rate) bound on all windows |
| RateLimitRuns.ConformingClientIsNeverDenied | internal/httpapi/ratelimit.go:57-76 | a client whose arrivals keep the bound is never denied, whatever others do |
| RateLimitRuns.RetryAfterEarnsOne | internal/httpapi/ratelimit.go:93 | Retry-After is the least whole number of seconds that earns more than one token |
| RateLimitRuns.RetryAfterIsSound | internal/httpapi/ratelimit.go:63-76 | in any run with sweeps, the client's first call at least Retry-After seconds after a denial is admitted unless another of its calls was admitted meanwhile |
| RateLimitWaits.WaitServesIff | internal/httpapi/ratelimit.go:63-76 | a wait of s seconds after a denial is enough in every run if and only if rate * s >= 1 |
| RateLimitWaits.RetryAfterIsExactUnlessWhole | internal/httpapi/ratelimit.go:93 | Retry-After is enough in every run; one second less is enough if and only if 1 / rate is whole, and less than that never is |
| RateLimitEviction.WindowBound | internal/httpapi/ratelimit.go:42-77 | for every slope that is at least the rate and worth a burst in ten minutes, no window of any run admits more than burst + slope * length of one client's calls |
| RateLimitEviction.BoundingSlopes | internal/httpapi/ratelimit.go:46-76 | those slopes are exactly the ones that bound every window of every run; for any other there is a run that breaks it |
| RateLimitEviction.EvictionUnseen | internal/httpapi/ratelimit.go:46-70 | when 600 * rate >= burst, each verdict in an interleaved run is that of a never-dropped bucket fed only this client's calls |
| RateLimitEviction.IsolationIffRefillsWhileIdle | internal/httpapi/ratelimit.go:46-76 | clients are isolated from eviction and from each other in all runs if and only if 600 * rate >= burst |
| RateLimitNeighbours.NeighboursUnseenIffRefillsWhileIdle | internal/httpapi/ratelimit.go:46-76 | erasing all other clients' calls from a run leaves a client's verdicts as they were, in all runs, if and only if 600 * rate >= burst |
| RateLimitEviction.DropDenied | internal/httpapi/ratelimit.go:63-76 | when 600 * rate >= burst, removing any set of denied calls from a run leaves all other verdicts as they were |
| RateLimitEviction.InertIffRefillsWhileIdle | internal/httpapi/ratelimit.go:46-76 | denied calls are inert in all runs if and only if 600 * rate >= burst |
| Watchlist.Store.UploadList | internal/watchlist/watchlist.go:94-147 | the transaction statement by statement: if all succeed, the next version number, the previous rows deactivated, the new ones inserted in order; if any fails, the table as it was; the caller's slice is stamped as far as the loop got |
| Watchlist.Store.ActiveEntries | internal/watchlist/watchlist.go:149-176 | exactly the tenant's active rows, in row order |
| Watchlist.Store.ListNames | internal/watchlist/watchlist.go:178-196 | each list of the tenant with its maximum version and nothing else |
| WatchlistRuns.ActiveIsLastUpload | internal/watchlist/watchlist.go:109-141 | after any uploads the active rows of a list are its last upload's entries, in order |
| WatchlistRuns.ActiveEntriesAreLastUploads | internal/watchlist/watchlist.go:149-176 | what ActiveEntries returns is, as a multiset, the union over the tenant's lists of each list's last upload |
| WatchlistRuns.ActiveRowsCarryMaximum | internal/watchlist/watchlist.go:101-141 | ids number the rows, versions never exceed their list's maximum and every active row carries it |
| WatchlistRuns.KeepsHistory | internal/watchlist/watchlist.go:101-141 | version v of a list still holds its v-th non-empty upload, in order, and no other version exists |
| WatchlistRuns.VersionsAreConsecutive | internal/watchlist/watchlist.go:101-107 | the n-th upload of a list returns n if and only if none before it was empty |
| WatchlistRuns.NamesReportHistory | internal/watchlist/watchlist.go:178-196 | ListNames reports the lists with a non-empty upload and how many each had |
| UploadHistory.ListsAreUploads | internal/httpapi/manage_handlers.go:187-198 | whatever is interleaved with them, and whichever of them fail, the watchlist table is that of the stored uploads alone, so the results above hold in every run |
| UploadHistory.VersionsToldAreConsecutive | internal/httpapi/manage_handlers.go:187-198 | in every interleaved run the n-th upload of a list answered 200 is told version n and the number of rows this version has, then and ever after, which is not zero |
| UploadHistory.HistoryIsKept | internal/httpapi/manage_handlers.go:203-220 | at any time in any run the list names shown are those of the uploads answered 200, each with how many there were, and version v still holds the v-th of them in order |
| UploadHistory.SuspectsAreLastUploads | internal/httpapi/handlers.go:258-279 | in every run a screening is handed, of each list, the entries of the tenant's last upload answered 200, in order, under that upload's version |
| Csv.ParseCSV | internal/watchlist/watchlist.go:227-299 | the loops with their early rejection read a file as the reference filtered map does: refused as a formula file exactly when, under a name column, some row with a first cell has a name, entity id, country or dob that starts, trimmed, with = + - or @; otherwise each such row in order gives the entry that holds its cells |
| Csv.RefusedIff | internal/watchlist/watchlist.go:234-298 | each of the four refusals has its exact condition on the cells of the file |
| Csv.EntriesHoldRows | internal/watchlist/watchlist.go:263-294 | an accepted file gives one entry per row with a first cell, in order; each field is the trimmed cell under its heading's first column, blank where there is none |
| Csv.NamesIff | internal/watchlist/watchlist.go:238-245 | a header cell names a column exactly when it spells its heading in whatever case, white space around it or not |
| Csv.AcceptedIff | internal/watchlist/watchlist.go:234-298 | a file is accepted exactly when it has a name column, a row with a non-blank first cell and no such row with a guarded cell that starts with = + - or @; the result is never empty |
| Csv.ParseSplits | internal/watchlist/watchlist.go:234-298 | parsing splits over data rows, for all files and errors included: two accepted parts give their entries concatenated, one rejected row refuses the whole, and a part without live rows adds nothing |
| Csv.PaddingIsHarmless | internal/watchlist/watchlist.go:268-274 | blank cells added to rows, and any cells beyond the header, change nothing |
| Csv.OrderIrrelevantIff | internal/watchlist/watchlist.go:238-274 | rearranging columns leaves every live row's entry as it was, rows of any width, if and only if no field has two columns |
| Csv.ColumnsMayMove | internal/watchlist/watchlist.go:234-298 | a file with rearranged columns, rows of any width, reads the same while the blank-first-cell verdicts stay the same |
| Csv.FileOrderIrrelevantIff | internal/watchlist/watchlist.go:234-298 | every rearrangement of every file under a header reads the same if and only if there are not two columns or none is a name column |
| Csv.WriteThenParse | internal/watchlist/watchlist.go:224-299 | writing entries under the documented header, or any with its columns in that order, and parsing the file gives the same entries back if and only if there is one and each is writable: trimmed fields, an entity id, proper pieces, nothing the guard rejects |
| Csv.DocumentedHeaderIsInOrder | internal/watchlist/watchlist.go:224-226 | every field of the documented header is read from the column it stands in |
| Csv.PiecesRoundTrip | internal/watchlist/watchlist.go:254-262 | joining strings with pipes and splitting again gives them back if and only if each is trimmed, non-blank and free of pipes |
| Csv.PiecesSplit | internal/watchlist/watchlist.go:254-262 | the parts of a cell are those before a pipe followed by those after it, and a part without pipes counts trimmed unless it is blank |
| Csv.PiecesSettle | internal/watchlist/watchlist.go:254-262 | splitting a cell, joining and splitting again gives the same list |
| Timestamps.TextOrderIsTimeOrder | internal/audit/audit.go:103-110 | for all UTC instants of the years 0000 to 9999, comparing the stored text agrees with comparing whole seconds (section 5.1 of RFC 3339) |
| Timestamps.TextTellsIffUTC | internal/audit/audit.go:179-188 | the text of a time tells rightly whether its second is at or after that of every UTC since, if and only if the time is told in UTC |
| Timestamps.TextIsRFC3339 | internal/audit/audit.go:109 | the stored text has the layout of RFC 3339 (section 5.6), and its fields are the date and time of day of the zone's clock and the offset |
| Timestamps.SecondsAreGregorian | internal/audit/audit.go:103-110 | those dates are the proleptic Gregorian calendar's, by its closed form |
| Timestamps.ParseFormat | internal/audit/audit.go:156-158 | a stored timestamp, in any zone, reads back as the time cut to its second |
| Audit.Store.Record | internal/audit/audit.go:99-119 | appends one row with its defaults filled in, stamped with the supplied time in its own zone or else with the clock in UTC, and returns its id |
| Audit.Store.Query | internal/audit/audit.go:121-162 | the newest events that agree with every non-blank one of tenant, request and kind, newest first, as many as the limit or 100 when it is not positive: none out of order, and none left out unless the page is full of newer ones |
| Audit.RecordThenQuery | internal/audit/audit.go:99-162 | after an append, a page the event belongs on is the event as it reads back, with its id, default kind and second, followed by the old page less its last place; no other page changes |
| Audit.AppendOnly | internal/audit/audit.go:39-43 | a recorded event is never changed or lost and reads back with its id, as screening_completed unless told otherwise, at its own time or else the clock's, cut to the second |
| Audit.PagesArePrefixes | internal/audit/audit.go:121-140 | a smaller positive limit gives a prefix of a larger one, and a short page is the whole answer |
| Audit.CountIsSumOverTenants | internal/audit/audit.go:164-176 | per-tenant counts of distinct non-empty tenants never exceed the unfiltered count, and add up to it exactly when they cover every row's tenant |
| Audit.CountSinceCountsSeconds | internal/audit/audit.go:179-188 | CountSince counts exactly the tenant's events of the kind whose second is at or after the second of since, when those events are stamped in UTC |
| Audit.CountsRightlyIffUTC | internal/audit/audit.go:103-110 | an event is counted rightly for every since if and only if it is stamped in UTC |
| Review.Store.Create | internal/review/review.go:127-145 | appends one row, pending unless told otherwise, with flags joined by commas, and returns its id |
| Review.Store.List | internal/review/review.go:147-198 | the newest of the tenant's cases that have the status asked for, or of all, newest first, as many as the limit or 100 when it is not positive: none out of order, and none left out unless the page is full of newer ones |
| Review.Store.Get | internal/review/review.go:200-235 | the tenant's case with that id, or none |
| Review.Store.Decide | internal/review/review.go:237-253 | refuses a blank or pending status, fails when the database does or when no pending case of the tenant has the id, and otherwise decides it |
| Review.DecideIsCompareAndSet | internal/review/review.go:241-251 | a decision changes the one pending case of that tenant and id and no other row, and cannot be repeated |
| Review.FlagsSurvive | internal/review/review.go:134-135 | stored risk flags come back unchanged if and only if none contains a comma and they are not a single blank flag |
| Review.CreateThenGet | internal/review/review.go:127-145 | Get after Create returns the case as given, cut to the second, but for risk flags that are not storable, which never come back; other lookups do not change |
| Review.CreateThenList | internal/review/review.go:147-198 | List after Create starts with the case as given but for risk flags that are not storable, the rest is the old page less its last place, and no other page changes |
| Review.DecideThenGet | internal/review/review.go:200-253 | after a decision Get returns the same case with the decision, its second and its author; every other case is as it was |
| Review.DecideThenList | internal/review/review.go:147-253 | after a decision the case is gone from its tenant's pending cases, stands among those of its new status and among all by its id, with decision, second and author, and nothing else changes on any page of any tenant |
| Protocol.RunsAreSafe | internal/httpapi/manage_handlers.go:135-157 | every interleaving keeps: a decided case has one winning handler and carries its decision and a clean author, a pending case has none, and each decision event belongs to a winner |
| Protocol.EveryDecisionIsAccounted | internal/httpapi/manage_handlers.go:139-157 | for every case of every run, events + winners yet to record + winners whose append failed is 1 once decided and 0 while pending, and each event carries the final status and author |
| Protocol.DecisionsAreFinal | internal/review/review.go:243-251 | the row of a decided case never changes again |
| ScreeningLedger.ScreeningsAreBooked | internal/httpapi/handlers.go:288-330 | every interleaving keeps: each case and each screening event belongs to exactly one screening, and a screening's event and cases carry its result |
| ScreeningLedger.CasesAreHighRisk | internal/httpapi/handlers.go:305-330 | every case of every run is about a sanctions-related candidate of confidence at least 0.9 that a pending screening of its tenant returned, and carries its query, request, candidate, list, confidence, sanitised reasoning, flags, model and prompt |
| ScreeningLedger.EventsTellScreenings | internal/httpapi/handlers.go:289-303 | every screening event tells a screening of its tenant: query, outcome, the candidates' names in order and whether any was verified |
| Ledgers.EventsAreReports | internal/httpapi/handlers.go:289-303 | in every run, failures included, a tenant's request has as many screening events as its screenings had successful audit appends |
| Ledgers.CasesAreFilings | internal/httpapi/handlers.go:305-330 | in every run, failures included, a tenant's request has as many cases as its pending screenings made successful inserts on looking at a sanctions-related candidate of confidence at least 0.9 |
| Ledgers.FinishedScreening | internal/httpapi/handlers.go:288-330 | in every run a screening that is over has in the table exactly one case per sanctions-related candidate of confidence at least 0.9 when its status is pending, else none, less its own failed inserts, each about such a candidate, and one event of its own unless its append failed |
| Ledgers.CaseRefersIff | internal/httpapi/handlers.go:297-327 | in every run a case refers to a screening event already in the log if and only if some screening of its tenant and request had its append succeed |
| Ledgers.CasesReferToEvents | internal/httpapi/handlers.go:297-327 | so if appends after screenings succeed, every case refers to an earlier event of its tenant and request, whatever other writes fail |
| Ledgers.ACaseCanLackItsEvent | internal/httpapi/handlers.go:297-302 | a screening whose append fails and whose insert does not leaves a case without an event |
| Ledgers.DecisionIsLoggedIff | internal/httpapi/manage_handlers.go:147-156 | in every run a case's decision is in the log if and only if its winner's append succeeded; at most one ever does, and none while it is pending |
| Ledgers.ADecisionCanLackItsEvent | internal/httpapi/manage_handlers.go:149-157 | a decision whose append fails is answered 200 and leaves no event |
| Ledgers.DecisionToldOnce | internal/httpapi/manage_handlers.go:139-157 | of all requests that race to decide a case, in any run, at most one is answered 200 |
| Ledgers.DecisionToldStands | internal/httpapi/manage_handlers.go:139-157 | a request answered 200 was its tenant's, and the case carries that decision for ever after |
| Erasure.UploadLocal | internal/watchlist/watchlist.go:94-147 | an upload does to its own tenant's rows what it would do alone and nothing to anyone else's |
| Erasure.DecideLocal | internal/review/review.go:241-251 | a decision succeeds and acts on a tenant's own table, under the case's number there, as it does on the shared one |
| Erasure.StepCommutes | internal/httpapi/handlers.go:258-330 | any step of anyone, seen by one tenant, is its own step or no step at all |
| Erasure.OthersCanBeErased | internal/httpapi/handlers.go:258-330 | deleting all other tenants' requests from any interleaved run leaves the tenant's part of all stores equal up to its own numbering |
| Observations.NamesKeepOrder | internal/review/review.go:161 | the renaming of case ids keeps their order |
| Observations.EventNamesKeepOrder | internal/audit/audit.go:139 | the renaming of event ids keeps their order |
| Observations.TenantsAreIsolated | internal/httpapi/manage_handlers.go:34-85 | with all other tenants erased a tenant reads the same versions, list names, active entries, single cases, case pages, event pages and counts, ids renamed |
| Transcripts.SameTranscript | internal/httpapi/manage_handlers.go:34-255 | with all other tenants erased every request of the tenant, at every point of the run, is answered as it was - refusals, conflicts, failures, versions, screening results, pages - but for one order-preserving renaming of ids |
| Handlers.DecideCase | internal/httpapi/manage_handlers.go:108-159 | 400, 500, 409 or 200 exactly when due; a decision made leaves the pending case and one event, if its append succeeds, with the decision and its author - what X-Reviewer holds between white space if that is 1 to 128 letters, digits or ._%+-@, else api - and nothing else; the stores and the answer are those of its two steps in a row |
| Handlers.AuthorIff | internal/httpapi/manage_handlers.go:135-138 | that is the author for every header |
| Handlers.ScreenTenant | internal/httpapi/handlers.go:258-333 | 500 and no change when the watchlists cannot be loaded or the screening fails; otherwise the log gains its event unless the append fails, the queue gains in order one pending case for each sanctions-related candidate of confidence at least 0.9 whose insert succeeds, none unless the status is pending, and it ends, and answers, as the handler's steps in a row do |
| Handlers.UploadWatchlist | internal/httpapi/manage_handlers.go:179-198 | 400 exactly for a name that is empty or has a slash, space or tab, or a refused file, 500 when any statement of the transaction fails, both without a change; otherwise the version told holds as many entries as told, the file's, in order, and is in force |
| Handlers.PathsOfAList | internal/httpapi/manage_handlers.go:179-180 | the long path of any name reaches that list, and so does the short one if and only if the name does not itself end in /upload |
| Handlers.ListCases | internal/httpapi/manage_handlers.go:44-56 | answers the tenant's newest cases of the status asked for, as many as asked for from 1 to 200, else 50 |
| Handlers.ListAudit | internal/httpapi/manage_handlers.go:240-252 | answers the tenant's newest events of the request and kind asked for, as many as asked for from 1 to 500, else 100 |
| Handlers.GetCase | internal/httpapi/manage_handlers.go:70-85 | 400 for a bad id, 500 when the lookup fails, 404 exactly when the tenant has no such case |
| Handlers.ListWatchlists | internal/httpapi/manage_handlers.go:203-220 | answers the lists the tenant has rows of, each with the highest version among them |
| Handlers.Authenticate | internal/httpapi/tenant_middleware.go:44-59 | 401 for a missing or unknown key, 500 when the lookup fails; otherwise the session of the tenant whose key it is |
| Tenants.Store.CreateTenant | internal/tenant/store.go:58-78 | refuses tiers other than screening_only and full and ids or keys already taken, and fails without a change when the database does; a new tenant starts with the LLM cascade off |
| Tenants.Store.SetLLMCascade | internal/tenant/store.go:106-120 | the update loop gives the tenant with that id the flag and changes nothing else; it succeeds if and only if there is such a tenant, and changes nothing when the database fails |
| Tenants.RunsStayDistinct | internal/tenant/store.go:39-46 | in every run ids and key hashes stay unique |
| Tenants.OneTenantChanges | internal/tenant/store.go:106-120 | so in every run an opt-in or opt-out changes at most one tenant |
| Tenants.CascadeIsOptIn | internal/tenant/store.go:69-72 | in every run a tenant's flag is its last opt-in or opt-out since creation, off before any |
| Tenants.KeyFindsItsTenant | internal/tenant/store.go:80-85 | with an injective hash, a raw key finds exactly the tenant created with it, as created but for its present opt-in |
| Gateway.PlaysAreRuns | internal/httpapi/tenant_middleware.go:38-61 | behind the middleware the stores run as the service model says and the tenant table as its own runs do, so everything proved of those holds of all four databases together |
| Gateway.StepsAreRequests | internal/httpapi/tenant_middleware.go:44-59 | a request let in does at each step what it asks, for the tenant and with the consent of its session; one not let in does nothing |
| Gateway.ScreeningsAskConsent | internal/httpapi/handlers.go:281 | in every run a screening goes through the LLM cascade if and only if its tenant was opted in at the lookup that let its request in: a successful one, under a new number, of the tenant's key |
| Gateway.LetInOnce | internal/httpapi/tenant_middleware.go:49-59 | that lookup is the only one that let the request in |
| Gateway.ConsentIsCurrentIff | internal/httpapi/handlers.go:281 | a screening's use of the cascade agrees with what its tenant has opted for by then if and only if the tenant's last word since that lookup, if any, says the same |
| Gateway.CascadeNeedsOptIn | internal/httpapi/handlers.go:281 | it does so only if the tenant's last toggle before that lookup was an opt-in |
| Gateway.OptOutCanComeTooLate | internal/httpapi/tenant_middleware.go:49-59 | a tenant that opts out after the lookup is still screened with the cascade |
| Gateway.RequestsActForTheirKey | internal/httpapi/tenant_middleware.go:49-59 | with an injective hash, every step of every request is for the tenant created with the key that let it in |
| GatewayErasure.WorldsCanBeErased | internal/httpapi/tenant_middleware.go:38-61 | deleting all other tenants' keys, requests and changes from any run over all four databases leaves a tenant's row, sessions and part of the stores as they were, up to its own numbering |
| GatewayErasure.TenantsHearTheSame | internal/httpapi/tenant_middleware.go:38-61 | and every step of its requests is answered as it was, but for one order-preserving renaming of ids |

## Left out

- Screening itself, the LLM cascade, and sanitising and flagging of model output: their source is not part of the repository; they are arbitrary functions of what the handler passes them (`Env`), and what they draw from elsewhere is an argument.
- CSV lexing and JSON encoding: library code; the reader starts from rows of cells, and payloads and string lists are kept as values.
- SQLite: each statement, and the whole upload transaction, is one atomic step of the service model, and fails without effect or succeeds; a statement that takes effect and yet reports an error is not modelled, nor are rows that cannot be scanned.
- Floating point, `sync.Mutex` and clock readings that go backwards: `allow` is one atomic step on exact reals, and time never decreases.
- Durations longer than about 292 years, at which Go's time subtraction saturates.
- Routes, tier checks, the other middlewares and request validation, of which only the checks on list names, case ids and decisions are kept: the limiter's key is opaque. Each route builds its own limiter, outside tenant authentication, so nothing is said about one bucket being shared across routes or by a tenant's requests.
- Legacy mode with missing stores.
- Error texts, among them the rejected field quoted by the CSV reader.
- Strings are sequences of characters rather than bytes; lower-casing covers the letters whose lower case is ASCII, the only ones a heading comparison can see.
- Timestamps in other layouts, in zones with odd seconds, or outside the years 0000 to 9999: only the stores' own text is read back. It is in UTC when the handlers write it, as they supply no time; a time supplied to `Record` or `Create` is stored in its own zone (internal/audit/audit.go:109, internal/review/review.go:140). The created_at column of the watchlist table is never read and is not kept.
- ListTenants, tenant id generation and random tokens: a new id is an argument, and a collision is the duplicate error.
- Migrations, `ParseVersion`, bootstrap, configuration and the OpenAPI text.
