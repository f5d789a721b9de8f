# Church management core, modelled in Dafny

This project models the core logic of a church-management application: a
NestJS API with a web client built on Next.js. Each source file of the core
becomes one Dafny module, and the properties its code and unit tests promise
are proved about that module.

The model covers these parts of the API:

- the in-memory data store: soft delete, undelete, hard delete and the bulk
  variants for households, funds, contributions, documents and children; the
  role rules (`slugify`, create, update, delete with reassignment); read
  receipts; group membership; the audit-log listing; request-type reordering;
  the CSV field escape (section 2 of RFC 4180);
- the demo mock database: attendance, read receipts, audit logs,
  contributions and sessions;
- the resilience and infrastructure services: the circuit-breaker state
  machine, the LRU/TTL cache, the observability counters and spans, and the
  event store's query, append and clear over an in-memory sequence;
- the audit read-model projections;
- the request-level rules: member listing (filter, sort, paginate), the auth
  guard (token extraction, precedence, demo users, status gating), the giving
  controller's role matrix, the documents service's validation, tenant
  resolution, and the immutable `Document` and `User` entities.

The model covers these web-side helpers:

- the giving summaries, both the shared calculation and the page's own;
- URL-parameter state, and the drawer that uses it;
- the toast queue;
- the CSV email parser of the member import;
- the form-to-payload builders of the server actions;
- the preference and theme response validators.

State that the source changes in place is a `class`: the stores, the breaker,
the cache, the observability service, the event store, the toast store and
`URLSearchParams`. Each of their methods is proved against a specification
function on the old state. Pure code is datatypes, functions and lemmas.

The model has no clock, randomness or I/O. The current time, fresh ids,
latencies, host date parsing (`Date.parse`, `toISOString`, month keys),
`Number()`, the auth service's token resolver and every fetch are
parameters. A fetch that fails, or a call that throws, is a `Result.Err`.

Times are integers, in epoch milliseconds. Giving amounts are integers, in
cents. Averages and rates are `real`.

In two places the unit tests and the code disagree, and the model follows
the code:

- the toast test that expects a sticky `maxToasts`;
- the documents `create` ordering, where the code looks up the user before it
  checks the size.

## Model

| member | source | states |
|---|---|---|
| CircuitBreaker.Keep | api/src/resilience/circuit-breaker.service.ts:123-128 | a push onto a buffer under 100 entries appends; at 100 the oldest entry is shifted off, so a buffer of at most 100 stays at most 100 |
| CircuitBreaker.KeepDropsOldest | api/src/resilience/circuit-breaker.service.ts:196-199 | the pushed entry is the newest one kept and the rest is a suffix of the previous buffer: only the oldest entries are dropped |
| CircuitBreaker.TransitionTo | api/src/resilience/circuit-breaker.service.ts:182-201 | the breaker takes the new state and records from/to/time/reason in the bounded history; nothing else changes |
| CircuitBreaker.Reset | api/src/resilience/circuit-breaker.service.ts:96-104 | reset closes the breaker, zeroes the success, failure and half-open counters, clears the latencies, records a "Manual reset" transition and keeps `totalRequests` and the last failure/success times |
| CircuitBreaker.SuccessRate | api/src/resilience/circuit-breaker.service.ts:78-94 | the success rate is 100 before any request and lies in [0,100] while successes do not exceed requests |
| CircuitBreaker.AverageLatency | api/src/resilience/circuit-breaker.service.ts:79-81 | the average latency is 0 with no latencies and never negative for non-negative latencies |
| CircuitBreaker.ExecuteKeepsValid | api/src/resilience/circuit-breaker.service.ts:41-72 | a fail-fast call and an admitted call both keep the breaker invariant: an open breaker has a last failure time, outcomes never exceed requests, both buffers hold at most 100 entries |
| CircuitBreaker.ResetKeepsValid | api/src/resilience/circuit-breaker.service.ts:96-104 | reset keeps the breaker invariant |
| CircuitBreaker.ClosedFailure | api/src/resilience/circuit-breaker.service.ts:144-163 | in CLOSED a failure adds one to `failureCount` and the breaker is OPEN afterwards exactly when the count reaches `failureThreshold` |
| CircuitBreaker.ClosedSuccess | api/src/resilience/circuit-breaker.service.ts:120-127 | in CLOSED a success leaves the state and the failure count alone and adds one success |
| CircuitBreaker.FifthFailureOpens | api/src/resilience/circuit-breaker.service.ts:21-163 | with the default threshold of 5, four failures leave the breaker CLOSED and the fifth opens it |
| CircuitBreaker.OpenWaitsForTimeout | api/src/resilience/circuit-breaker.service.ts:45-180 | an open breaker admits a call exactly when `timeoutMs` have passed since the last failure |
| CircuitBreaker.OpenMovesToHalfOpen | api/src/resilience/circuit-breaker.service.ts:47-49 | an admitted call on an open breaker first moves it to HALF_OPEN with the reason "Timeout elapsed", then runs the call |
| CircuitBreaker.HalfOpenFailureReopens | api/src/resilience/circuit-breaker.service.ts:164-170 | in HALF_OPEN any failure reopens the breaker, clears the trial counters and stamps the failure time |
| CircuitBreaker.HalfOpenSuccess | api/src/resilience/circuit-breaker.service.ts:130-141 | in HALF_OPEN the success that reaches `halfOpenSuccessThreshold` closes the breaker and zeroes the failure and trial counts; a success short of it stays HALF_OPEN |
| CircuitBreaker.EveryExecuteCounts | api/src/resilience/circuit-breaker.service.ts:42 | every `execute`, admitted or not, adds exactly one to `totalRequests` |
| CircuitBreaker.CircuitBreakerService.Execute | api/src/resilience/circuit-breaker.service.ts:41-72 | the wrapped call runs exactly when the breaker admits it; a refused call counts the request and returns the fallback's value or the "Circuit breaker is OPEN" error; an admitted call returns the call's outcome and records it |
| CircuitBreaker.CircuitBreakerService.GetMetrics | api/src/resilience/circuit-breaker.service.ts:78-94 | the metrics are the view of the current fields (see SuccessRate, AverageLatency) |
| CircuitBreaker.CircuitBreakerService.ResetBreaker | api/src/resilience/circuit-breaker.service.ts:96-104 | the fields become `Reset` of the old ones; the settings stay |
| CircuitBreaker.CircuitBreakerService.SetFailureThreshold | api/src/resilience/circuit-breaker.service.ts:106-108 | only the failure threshold changes, to the given value |
| CircuitBreaker.CircuitBreakerService.SetTimeout | api/src/resilience/circuit-breaker.service.ts:110-112 | only the timeout changes, to the given value |
| CircuitBreaker.CircuitBreakerService.SetHalfOpenSuccessThreshold | api/src/resilience/circuit-breaker.service.ts:114-116 | only the half-open success threshold changes, to the given value |
| CircuitBreaker.CircuitBreakerService.RecordSuccessAt | api/src/resilience/circuit-breaker.service.ts:120-142 | the fields become `RecordSuccess` of the old ones |
| CircuitBreaker.CircuitBreakerService.RecordFailureAt | api/src/resilience/circuit-breaker.service.ts:144-171 | the fields become `RecordFailure` of the old ones |
| CircuitBreaker.CircuitBreakerService.TransitionToState | api/src/resilience/circuit-breaker.service.ts:182-201 | only the state and the history change, as `TransitionTo` says |
| CircuitBreaker.CircuitBreakerService.constructor | api/src/resilience/circuit-breaker.service.ts:16-39 | a new breaker is closed with no counts, a failure threshold of 5, a timeout of 60 seconds and a half-open success threshold of 1 |
| CircuitBreaker.CircuitBreakerService.Admit | api/src/resilience/circuit-breaker.service.ts:44-56 | the OPEN check admits the call exactly when `Admits` holds; an admitted call on an open breaker leaves it HALF_OPEN with a "Timeout elapsed" transition, a refused one changes nothing |
| CircuitBreaker.CircuitBreakerService.RecordOutcomeAt | api/src/resilience/circuit-breaker.service.ts:58-70 | a call that resolves is recorded as a success, one that rejects as a failure, each at the call's end time |
| CircuitBreaker.CircuitBreakerService.PushLatency | api/src/resilience/circuit-breaker.service.ts:123-128 | the latency buffer becomes `Keep` of the old one: the new latency appended, the oldest dropped past 100 |
| CircuitBreaker.CircuitBreakerService.CountTrialSuccess | api/src/resilience/circuit-breaker.service.ts:130-141 | a HALF_OPEN success counts one more trial and closes the breaker, clearing the failure and trial counts, once the trial successes reach the threshold |
| CircuitBreaker.CircuitBreakerService.ReactToFailure | api/src/resilience/circuit-breaker.service.ts:154-170 | after a counted failure CLOSED opens at the threshold, HALF_OPEN opens at once and clears the trial counts, OPEN stays as it is |
| InMemoryCache.NamespacesNeverCollide | api/src/cache-store/in-memory-cache.service.ts:111-113 | the same key under two different namespaces gives two different stored keys |
| InMemoryCache.NamespacedKeyShape | api/src/cache-store/in-memory-cache.service.ts:111-113 | a namespaced key is the namespace, a colon and the key, in that order |
| InMemoryCache.ExpiryWindow | api/src/cache-store/in-memory-cache.service.ts:43-61 | a ttl of 0 or none never expires; a positive ttl expires exactly once the clock is past `now + ttl*1000` |
| InMemoryCache.IndexOf | api/src/cache-store/in-memory-cache.service.ts:36 | the index found holds the key, and no index is found exactly when no entry has the key |
| InMemoryCache.FindAt | api/src/cache-store/in-memory-cache.service.ts:36 | with unique keys, looking up an entry's key finds that entry |
| InMemoryCache.FindAbsent | api/src/cache-store/in-memory-cache.service.ts:36-40 | a key no entry carries is not found |
| InMemoryCache.RemoveShape | api/src/cache-store/in-memory-cache.service.ts:71 | `Map.delete` keeps keys unique, keeps exactly the entries under other keys, and shrinks by one exactly when the key was present |
| InMemoryCache.RemoveFacts | api/src/cache-store/in-memory-cache.service.ts:69-72 | after `delete` the key is gone and every other key finds what it found before |
| InMemoryCache.PutFacts | api/src/cache-store/in-memory-cache.service.ts:62-66 | `Map.set` keeps keys unique, finds the new entry under its key, leaves other keys alone, and grows by one exactly for a new key |
| InMemoryCache.Oldest | api/src/cache-store/in-memory-cache.service.ts:118-127 | the entry picked was created before now, no entry is older, every earlier entry is strictly newer (the first of equals wins), and none is picked exactly when every entry is as new as now |
| InMemoryCache.EvictFacts | api/src/cache-store/in-memory-cache.service.ts:118-133 | eviction keeps keys unique, removes exactly the oldest entry when there is one with a non-empty key, and removes nothing when every entry is as new as now |
| InMemoryCache.GotFacts | api/src/cache-store/in-memory-cache.service.ts:33-51 | `get` hits exactly when the key is present and not expired, then returns its value and changes nothing; a miss leaves no entry under the key and other keys untouched |
| InMemoryCache.SetThenGet | api/src/cache-store/in-memory-cache.service.ts:33-67 | after `set`, `get` of the same key returns the value until it expires |
| InMemoryCache.StoredFacts | api/src/cache-store/in-memory-cache.service.ts:53-67 | `set` keeps keys unique; overwriting a key never evicts and keeps the size; a new key on a full cache evicts the oldest entry so the size stays 1000 |
| InMemoryCache.NothingOlderThanNow | api/src/cache-store/in-memory-cache.service.ts:57-129 | on a full cache whose entries were all created at the current time, nothing is evicted and the new key makes 1001 entries |
| InMemoryCache.FindOldest | api/src/cache-store/in-memory-cache.service.ts:119-127 | the scan loop finds the key of `Oldest`, or none |
| InMemoryCache.InMemoryCacheService.constructor | api/src/cache-store/in-memory-cache.service.ts:23-31 | a new cache is empty, with zero hits and misses and the cleanup timer scheduled |
| InMemoryCache.InMemoryCacheService.Get | api/src/cache-store/in-memory-cache.service.ts:33-51 | the result and new entries are `Got` of the namespaced key; exactly one of hits and misses goes up |
| InMemoryCache.InMemoryCacheService.Set | api/src/cache-store/in-memory-cache.service.ts:53-67 | the entries become `Stored` of the namespaced key, keys stay unique |
| InMemoryCache.InMemoryCacheService.EvictLru | api/src/cache-store/in-memory-cache.service.ts:118-133 | the entries become `Evict` of the old ones |
| InMemoryCache.InMemoryCacheService.Delete | api/src/cache-store/in-memory-cache.service.ts:69-72 | only the namespaced key is removed |
| InMemoryCache.InMemoryCacheService.Clear | api/src/cache-store/in-memory-cache.service.ts:74-81 | no entries, zero hits and misses, cleanup timer stopped |
| InMemoryCache.InMemoryCacheService.GetStats | api/src/cache-store/in-memory-cache.service.ts:83-99 | `size` and `entries` both equal the number of stored keys; hits and misses are the counters |
| Observability.Average | api/src/observability/observability.service.ts:165-187 | each average is 0 before the first operation, and otherwise the value that times the count gives the total; it is never negative for a non-negative total |
| Observability.SucceededMsAppend | api/src/observability/observability.service.ts:47-53 | one more operation adds its duration to the successful total exactly when it succeeded |
| Observability.ReplayCountsEveryOperation | api/src/observability/observability.service.ts:47-106 | after a run of appends (or commands) the count is the number of operations and the total is the sum of the successful durations only |
| Observability.AverageExamples | api/src/observability/observability.service.ts:47-168 | two successful appends of 100 and 150 ms average 125; a failed 200 ms append after a 100 ms one gives 50 |
| Observability.SpanRoundTrip | api/src/observability/observability.service.ts:120-155 | ending a started span returns its name and the time since it started, removes it and leaves the other spans; ending it again reports "unknown" with 0 ms |
| Observability.EndUnknownSpan | api/src/observability/observability.service.ts:138-142 | ending an unknown span returns 0 ms and "unknown" and changes nothing |
| Observability.ObservabilityService.constructor | api/src/observability/observability.service.ts:19-42 | every counter and total starts at zero, with no spans |
| Observability.ObservabilityService.RecordEventStoreAppend | api/src/observability/observability.service.ts:47-53 | the append count goes up by one; the duration is added only on success |
| Observability.ObservabilityService.RecordEventStoreQuery | api/src/observability/observability.service.ts:58-62 | the query count goes up by one and the duration is always added |
| Observability.ObservabilityService.RecordAuditProjectionRebuild | api/src/observability/observability.service.ts:67-71 | the rebuild count goes up by one and the duration is always added |
| Observability.ObservabilityService.RecordCircuitBreakerTransition | api/src/observability/observability.service.ts:76-79 | only the transition count goes up, by one |
| Observability.ObservabilityService.RecordCircuitBreakerFailure | api/src/observability/observability.service.ts:84-86 | only the breaker failure count goes up, by one |
| Observability.ObservabilityService.RecordCircuitBreakerRecovery | api/src/observability/observability.service.ts:91-93 | only the recovery count goes up, by one |
| Observability.ObservabilityService.RecordCqrsCommand | api/src/observability/observability.service.ts:98-106 | the command count goes up by one; the duration is added only on success |
| Observability.ObservabilityService.RecordCqrsQuery | api/src/observability/observability.service.ts:111-115 | the CQRS query count goes up by one and the duration is always added |
| Observability.ObservabilityService.StartSpan | api/src/observability/observability.service.ts:120-128 | a span named by the operation, started now, with the given attributes or `{}`, is stored under the returned id |
| Observability.ObservabilityService.EndSpanAt | api/src/observability/observability.service.ts:133-155 | the result and the span map are `EndSpan` of the old map (see SpanRoundTrip) |
| Observability.ObservabilityService.GetMetrics | api/src/observability/observability.service.ts:160-191 | every count is reported as recorded, with its average as `Average` defines it; the breaker counters are reported unchanged |
| Observability.ObservabilityService.Reset | api/src/observability/observability.service.ts:196-218 | every counter and total is zero again, and the open spans stay |
| FileEventStore.MatchingFacts | api/src/event-store/file-event-store.service.ts:95-110 | an event is among the matches exactly when it is stored and passes every filter that is set; the matches keep append order |
| FileEventStore.QueryFacts | api/src/event-store/file-event-store.service.ts:112-124 | `totalCount` is the match count before paging; without offset and limit every match is returned; otherwise the window of at most `limit` matches from the offset; every returned event matches |
| FileEventStore.AppendThenQuery | api/src/event-store/file-event-store.service.ts:54-110 | appending a matching event adds it as the last match; a non-matching one changes no query |
| FileEventStore.ByAggregateSorted | api/src/event-store/file-event-store.service.ts:133-139 | the events of one aggregate come out in ascending version |
| FileEventStore.ByAggregateMembers | api/src/event-store/file-event-store.service.ts:133-139 | they are exactly the stored events with that aggregate id and type |
| FileEventStore.Stamped | api/src/event-store/file-event-store.service.ts:54-59 | the stored event carries the fresh id and the current time and every given field unchanged |
| FileEventStore.FileEventStoreService.constructor | api/src/event-store/file-event-store.service.ts:31-34 | a new store holds no events |
| FileEventStore.FileEventStoreService.Append | api/src/event-store/file-event-store.service.ts:54-74 | the stamped event is returned and appended after every earlier one |
| FileEventStore.FileEventStoreService.QueryEvents | api/src/event-store/file-event-store.service.ts:76-131 | the result is `Query` of the stored events (see QueryFacts) |
| FileEventStore.FileEventStoreService.GetByAggregateId | api/src/event-store/file-event-store.service.ts:133-139 | the result is `ByAggregate` of the stored events (see ByAggregateSorted) |
| FileEventStore.FileEventStoreService.Clear | api/src/event-store/file-event-store.service.ts:141-151 | the store is empty and every later query counts nothing |
| AuditProjections.ToEntry | api/src/modules/audit/projections.service.ts:36-48 | an entry carries the event's id, its aggregate id as church id and its timestamp; present truthy metadata is copied and missing metadata becomes `{}` |
| AuditProjections.Entries | api/src/modules/audit/projections.service.ts:36 | one entry per event, entry `k` made from event `k` |
| AuditProjections.EntriesAppend | api/src/modules/audit/projections.service.ts:36 | mapping one more event adds its entry at the end |
| AuditProjections.RebuildFacts | api/src/modules/audit/projections.service.ts:25-58 | the rebuild queries the church's `AuditLog` events: one entry per such event, in event order, with its id and the church id; a store error comes back unchanged |
| AuditProjections.SizeGrowsByOne | api/src/modules/audit/projections.service.ts:82-83 | pushing one entry onto a group adds one to the total size |
| AuditProjections.AddEventKeys | api/src/modules/audit/projections.service.ts:78-80 | a church met for the first time adds its key at the end; a known church leaves the keys alone |
| AuditProjections.AddEventSize | api/src/modules/audit/projections.service.ts:77-96 | each event adds exactly one entry over all groups |
| AuditProjections.AddEventEntries | api/src/modules/audit/projections.service.ts:77-96 | one loop step keeps every group holding exactly its church's events |
| AuditProjections.NoEventsOf | api/src/modules/audit/projections.service.ts:78-80 | a church without events has none to group |
| AuditProjections.AddNewGroup | api/src/modules/audit/projections.service.ts:78-95 | opening a group for a new church keeps every group exact |
| AuditProjections.AddToGroup | api/src/modules/audit/projections.service.ts:82-95 | appending to a known church's group keeps every group exact |
| AuditProjections.GroupedFacts | api/src/modules/audit/projections.service.ts:75-96 | one group per distinct church id, in order of first occurrence; each group holds exactly its church's events in event order; the group sizes add up to the event count |
| AuditProjections.GroupByChurch | api/src/modules/audit/projections.service.ts:75-96 | the grouping loop builds `Grouped` of the events |
| AuditProjections.RebuildAllAuditReadModels | api/src/modules/audit/projections.service.ts:66-106 | a store error comes back unchanged; otherwise the `AuditLog` events of every church are grouped by church (see GroupedFacts) |
| AuditProjections.CountMatchesRebuild | api/src/modules/audit/projections.service.ts:111-117 | the count for a church fails exactly when its rebuild fails, and otherwise equals the number of entries the rebuild yields |
| Members.StatusOf | api/src/modules/members/members.service.ts:38 | a missing or empty status reads as 'active', any other is lower-cased; the result is never empty |
| Members.BucketDays | api/src/modules/members/members.service.ts:74-81 | exactly the buckets 7d, 30d, 60d and 90d have a day limit |
| Members.BucketsNest | api/src/modules/members/members.service.ts:83-98 | a wider bucket keeps everyone a narrower one keeps, and no user is both 'never' and in a bucket |
| Members.FilteredFacts | api/src/modules/members/members.service.ts:17-99 | the filters only remove users: the result is a subsequence of the listed users, holding exactly the listed users that pass every stage the query sets |
| Members.NoFiltersKeepsEveryone | api/src/modules/members/members.service.ts:20-72 | a query that sets no filter keeps every user |
| Members.MissingStatusCountsAsActive | api/src/modules/members/members.service.ts:35-41 | a user without a status passes a status filter exactly when the filter lists 'active' |
| Members.SearchIgnoresCase | api/src/modules/members/members.service.ts:20-31 | a needle and its lower-cased form select the same users |
| Members.OrderedFacts | api/src/modules/members/members.service.ts:101-145 | sorting only rearranges the users; with a sort they are ordered by the field's key, reversed by ':desc'; no sort or an unknown field keeps the order |
| Members.SortByGroupsCount | api/src/modules/members/members.service.ts:128-143 | sorting on groupsCount orders by the number of groups, most first with ':desc' |
| Members.SortParts | api/src/modules/members/members.service.ts:104-105 | "field:direction" splits into the field, and the direction is descending exactly when it is 'desc' |
| Members.SortByGroupsCountDesc | api/src/modules/members/members.service.ts:104-131 | 'groupsCount:desc' puts the members with the most groups first |
| Members.SortByName | api/src/modules/members/members.service.ts:112-143 | 'name:asc' orders by lower-cased full name |
| Members.PageOf | api/src/modules/members/members.service.ts:148 | the page is the query's when it is given and non-zero, 1 otherwise |
| Members.LimitOf | api/src/modules/members/members.service.ts:149 | the limit is the query's when it is given and non-zero, 25 otherwise |
| Members.CeilDiv | api/src/modules/members/members.service.ts:151 | `Math.ceil(total / limit)`: the least whole number at or above the quotient, for either sign of the limit |
| Members.OffsetNonNegative | api/src/modules/members/members.service.ts:152 | for page and limit at least 1 the offset is never negative |
| Members.PageWindowFacts | api/src/modules/members/members.service.ts:147-153 | a page holds at most `limit` users: the consecutive run of the ordered, filtered users from `(page-1)*limit`, a full page whenever enough users follow |
| Members.PageMembers | api/src/modules/members/members.service.ts:17-153 | every user on a page is a listed user that passes every filter |
| Members.Badges | api/src/modules/members/members.service.ts:157-169 | 'Admin' exactly for an admin slug, 'Leader' exactly for a leader slug, 'Active Member' exactly for more than five groups; no badge twice |
| Members.RoleNamesAsGiven | api/src/modules/members/members.service.ts:178 | the summary's roles are the role names as given, in order |
| Members.OrNull | api/src/modules/members/members.service.ts:175-179 | a falsy value becomes null: present exactly for a non-empty value, which is kept |
| Members.SummaryOf | api/src/modules/members/members.service.ts:156-185 | the summary copies id and names, nulls empty email, phone and last attendance, reads a missing status as 'active', counts and copies the groups, lists the role names, carries the badges and uses now for a missing creation time |
| Members.Strings | api/src/modules/members/members.service.ts:208-209 | the pieces as JSON strings, position by position |
| Members.BuildActiveFilters | api/src/modules/members/members.service.ts:204-216 | the filters hold exactly the keys the query sets, search and lastAttendance as given, status and role split on ',', the number and flags as given |
| Members.ReportedStatusRoundTrip | api/src/modules/members/members.service.ts:208 | the reported status list holds the query's comma-separated pieces, which join back into the query text |
| Members.StageStep | api/src/modules/members/members.service.ts:17-99 | filtering by one more set stage (or skipping an unset one) passes one more stage of the chain |
| Members.Narrow | api/src/modules/members/members.service.ts:17-99 | stage `n` of the chain turns the users passing `n` stages into those passing `n+1` |
| Members.ApplyFilters | api/src/modules/members/members.service.ts:17-99 | the seven stages in order give `Filtered` (see FilteredFacts) |
| Members.ListMembers | api/src/modules/members/members.service.ts:10-202 | the data are the summaries of the requested page; page and limit as defaulted; `total` is the filtered count; `pages` is its ceiling quotient by the limit; the query time is passed through; the filters describe the query |
| Members.TextFilters | api/src/modules/members/members.service.ts:205-210 | search and lastAttendance are reported when set, status and role split on commas when set, and no other key |
| Members.CutPage | api/src/modules/members/members.service.ts:151-153 | the page is the slice of the sorted users at `(page - 1) * limit` of `limit` users, and the page count is the ceiling of total over limit |
| AuthGuard.NormaliseHeader | api/src/modules/auth/auth.guard.ts:13-21 | a string header is returned as it is; a list gives its first string item, or nothing when it holds none; anything else gives nothing |
| AuthGuard.CoerceBearerToken | api/src/modules/auth/auth.guard.ts:39-45 | nothing exactly for an absent or empty header; otherwise the text after a leading "Bearer ", or the whole header, trimmed |
| AuthGuard.CookieNameValue | api/src/modules/auth/auth.guard.ts:27-33 | for a cookie `name=value` the name is read off before the first '=' and the value is everything after it, trimmed, further '=' included |
| AuthGuard.ExtractCookieToken | api/src/modules/auth/auth.guard.ts:23-37 | an absent or empty Cookie header gives nothing; otherwise the value of the first `session_token` or `demo_token` cookie among the ';'-separated cookies |
| AuthGuard.ScanCookies | api/src/modules/auth/auth.guard.ts:26-36 | the cookie loop returns the first token cookie's value, left to right |
| AuthGuard.TokenPrecedence | api/src/modules/auth/auth.guard.ts:53-57 | the Authorization header wins, then x-session-token, then the parsed `session_token` cookie, then the Cookie header; with none of them there is no token |
| AuthGuard.DemoResult | api/src/modules/auth/auth.guard.ts:63-89 | exactly the three demo tokens have a fixed session, whose token is the demo token and whose user has no status |
| AuthGuard.DemoTokensBypassResolver | api/src/modules/auth/auth.guard.ts:63-118 | a demo token is accepted whatever the auth service, as the user `<token>-user` carrying the token |
| AuthGuard.UnresolvedIsUnauthorized | api/src/modules/auth/auth.guard.ts:90-102 | any other token is Unauthorized when there is no auth service or it resolves nothing |
| AuthGuard.ResolvedStatusGate | api/src/modules/auth/auth.guard.ts:104-118 | a resolved session is accepted exactly when the user's status is absent, empty or 'active', else Forbidden; the request then carries the user's id, email, roles, profile and the session token |
| AuthGuard.Request.constructor | api/src/modules/auth/auth.guard.ts:52 | a request starts with its credentials and no user or session attached |
| AuthGuard.Guard.constructor | api/src/modules/auth/auth.guard.ts:49 | the guard holds the given auth service |
| AuthGuard.Guard.CanActivate | api/src/modules/auth/auth.guard.ts:51-119 | on success the user and session are attached and the answer is true; on an error it is returned and nothing is attached |
| AuthGuard.ReadToken | api/src/modules/auth/auth.guard.ts:53-57 | the token read from the request is `TokenOf` its credentials: the bearer header, then `x-session-token`, then the cookies |
| AuthGuard.ReadCookie | api/src/modules/auth/auth.guard.ts:27-34 | one cookie gives a value exactly when its name is the session or the demo cookie name, and the value is everything after the first `=`, trimmed |
| GivingController.EnsureAdmin | api/src/modules/giving/giving.controller.ts:312-318 | passes exactly when some role is Admin, else Forbidden "Admin role required" |
| GivingController.EnsureLeader | api/src/modules/giving/giving.controller.ts:320-327 | passes exactly when some role is Leader or Admin, else Forbidden "Leader or Admin role required" |
| GivingController.NonEmpty | api/src/modules/giving/giving.controller.ts:206 | an empty member id is dropped: present exactly for a non-empty id, which is kept |
| GivingController.Reply | api/src/modules/giving/giving.controller.ts:105-274 | a `{success: false}` reply becomes Not Found with that handler's message; a successful one is returned |
| GivingController.AdminOnlyEndpoints | api/src/modules/giving/giving.controller.ts:47-300 | hard deletes, the deleted-funds list, the summary and the CSV export reach the service exactly for an Admin, and are Forbidden otherwise |
| GivingController.BulkEndpoints | api/src/modules/giving/giving.controller.ts:52-181 | a bulk endpoint checks the role first, then rejects a non-array or empty `ids` with Bad Request; only a Leader or Admin with at least one id reaches the service, with the ids unchanged |
| GivingController.ContributionsScoping | api/src/modules/giving/giving.controller.ts:190-214 | a caller who is neither Leader nor Admin is scoped to their own id and Forbidden without one; Leaders and Admins get the non-empty member id they asked for |
| GivingController.MemberCannotWidenFilter | api/src/modules/giving/giving.controller.ts:202-206 | for such a caller the requested member id makes no difference |
| GivingController.ForwardsUnchanged | api/src/modules/giving/giving.controller.ts:47-310 | every handler other than the contribution list forwards the request as received, with the caller's id |
| GivingController.OtherGates | api/src/modules/giving/giving.controller.ts:77-261 | the contribution soft delete needs Leader or Admin, refused with "Cannot delete contribution"; listing funds needs no role |
| GivingController.LeaderEndpoints | api/src/modules/giving/giving.controller.ts:84-275 | the other Leader handlers pass exactly for Leaders and Admins |
| GivingController.OneRoleCheck | api/src/modules/giving/giving.controller.ts:47-310 | no handler is both Admin-only and Leader-only |
| DocumentsService.ChurchRoleIds | api/src/modules/documents/documents.service.ts:22-24 | a role id is passed exactly when the user holds it in the current church; no more ids than roles |
| DocumentsService.CallerRoleIds | api/src/modules/documents/documents.service.ts:18-24 | an unknown user is Not Found "User not found"; a known one gets the role ids they hold in the current church |
| DocumentsService.GetDownloadUrl | api/src/modules/documents/documents.service.ts:131-152 | a link is given exactly when the caller may see the document; it expires one hour from now and points at the document's download path with a token |
| DocumentsService.RoleCheckFacts | api/src/modules/documents/documents.service.ts:62-97 | the roles pass exactly when every one exists in the current church; otherwise the first one that does not is named, and every one before it is valid |
| DocumentsService.ValidateRoles | api/src/modules/documents/documents.service.ts:63-68 | the role loop returns `RoleCheck` of the ids |
| DocumentsService.Create | api/src/modules/documents/documents.service.ts:44-84 | `create` makes the call or throws the error `CreateOutcome` gives (see CreateRules) |
| DocumentsService.CreateRules | api/src/modules/documents/documents.service.ts:53-83 | an unknown user is Not Found; a known user's file over 10 MB is refused whatever its roles; a document is created exactly for a known user, a file of at most 10 MB and valid roles, with the caller as uploader and actor, the given roles and the encoded data |
| DocumentsService.Update | api/src/modules/documents/documents.service.ts:86-103 | `update` returns what `UpdateOutcome` gives |
| DocumentsService.UpdateWithoutRoles | api/src/modules/documents/documents.service.ts:89-102 | without `roleIds` no role is checked; the only error is the store finding nothing, as "Document not found" |
| DocumentsService.UpdateRejectsInvalidRole | api/src/modules/documents/documents.service.ts:90-97 | with `roleIds`, an invalid role stops the update with Bad Request |
| DocumentsService.Removal | api/src/modules/documents/documents.service.ts:105-124 | a removal succeeds exactly when the store says so, with its success message, and is Not Found otherwise |
| DocumentsService.RemovalReplies | api/src/modules/documents/documents.service.ts:105-124 | delete replies "Document archived", hard delete "Document permanently deleted", undelete "Document restored"; the failures are "Document not found" and "Document not found or not deleted" |
| DocumentsService.OnlyCurrentChurchRoles | api/src/modules/documents/documents.service.ts:22-36 | a role the user holds only in another church is never passed to the store |
| DocumentsService.UnknownUserRefused | api/src/modules/documents/documents.service.ts:19-32 | an unknown user is refused by `list` and `getDetail` with "User not found" |
| DocumentsService.DeniedDocument | api/src/modules/documents/documents.service.ts:38-39 | a known user whom the store denies the document gets "Document not found or access denied" |
| DocumentEntity.Create | api/src/domain/entities/Document.ts:49-67 | title, file name and file data may not be blank after trimming, checked in that order, each with its own message; a document is made exactly when all three are present, with the fresh id, both timestamps at the creation time, no deletion time and the caller's fields unchanged |
| DocumentEntity.MarkAsDeleted | api/src/domain/entities/Document.ts:77-82 | the copy is deleted, at the given time |
| DocumentEntity.Update | api/src/domain/entities/Document.ts:84-90 | the copy carries the new update time, each given field replaces the old one and an absent one keeps it |
| DocumentEntity.MarkAsDeletedKeepsFields | api/src/domain/entities/Document.ts:73-82 | soft deletion changes nothing but the deletion time |
| DocumentEntity.UpdateKeepsFields | api/src/domain/entities/Document.ts:84-90 | an update keeps the id, church, uploader, file, creation time and deletion state; an empty update moves only the update time |
| DocumentEntity.ReconstructDoesNotValidate | api/src/domain/entities/Document.ts:69-71 | reconstruction keeps a stored document with a blank title that creation would refuse |
| DocumentEntity.CreateThenDelete | api/src/domain/entities/Document.ts:61-82 | a created document is not deleted, and marking it deleted makes it deleted |
| UserEntity.Create | api/src/domain/entities/User.ts:109-117 | a blank first name is refused, then a blank last name, each with its message; a user is made exactly when both are present, with the given fields and not deleted |
| UserEntity.CreateDefaultRoles | api/src/domain/entities/User.ts:122-124 | a new user gets exactly one role, the member role of the church |
| UserEntity.MarkAsDeleted | api/src/domain/entities/User.ts:139-144 | the copy is deleted, at the given time |
| UserEntity.MarkAsDeletedKeepsFields | api/src/domain/entities/User.ts:135-144 | soft deletion keeps every other field |
| UserEntity.FromDoesNotValidate | api/src/domain/entities/User.ts:131-133 | `from` keeps a stored user with a blank first name that `create` refuses |
| UserEntity.WhitespaceNameRefused | api/src/domain/entities/User.ts:110-112 | a first name of white space only counts as blank |
| TenantContext.ExtractTenantId | api/src/tenant/tenant-context.service.ts:35-56 | the tenant is never empty, and a non-empty `x-tenant-id` header always wins |
| TenantContext.SubdomainIsFirstLabel | api/src/tenant/tenant-context.service.ts:44-51 | a host gives a subdomain exactly when it is not `localhost`, holds a dot and its first label is neither empty nor `www`; that subdomain is the text before the first dot |
| TenantContext.HeaderlessTenant | api/src/tenant/tenant-context.service.ts:43-55 | without a header the tenant is the subdomain when there is one and `default-tenant` otherwise |
| TenantContext.DefaultTenantHosts | api/src/tenant/tenant-context.service.ts:45-55 | `localhost`, a dotless host and a `www.` host all give `default-tenant` |
| GivingCalculations.OverallAppend | web/app/giving/giving-calculations.ts:36-38 | each contribution adds its amount to the overall total, a non-numeric amount adding 0 |
| GivingCalculations.Keys | web/app/giving/giving-calculations.ts:53-59 | a tally's keys are its entries' keys, in insertion order |
| GivingCalculations.AddTotal | web/app/giving/giving-calculations.ts:42-45 | one `set` of a running total raises the tally's sum by the amount |
| GivingCalculations.AddGet | web/app/giving/giving-calculations.ts:42-45 | after one `set`, the key reads its old total (0 when absent) plus the amount, and every other key reads as before |
| GivingCalculations.AddKeys | web/app/giving/giving-calculations.ts:42-45 | an existing key keeps its place and a new key goes last |
| GivingCalculations.TallyDistinct | web/app/giving/giving-calculations.ts:32-46 | a tally holds each key once |
| GivingCalculations.TallyHasKey | web/app/giving/giving-calculations.ts:36-46 | a key is in the tally exactly when some contribution has it |
| GivingCalculations.TallyTotal | web/app/giving/giving-calculations.ts:36-46 | the entries of a tally add up to the overall total |
| GivingCalculations.TallyGet | web/app/giving/giving-calculations.ts:36-46 | a key's total is the sum over the contributions with that key, 0 when there are none |
| GivingCalculations.FundLineOf | web/app/giving/giving-calculations.ts:53-57 | a fund line keeps its amount; the `general` key becomes a null fund named General and any other key is its own fund id |
| GivingCalculations.ByFund | web/app/giving/giving-calculations.ts:53-57 | one fund line per tally entry, in the tally's order |
| GivingCalculations.MonthLines | web/app/giving/giving-calculations.ts:59-60 | one month line per tally entry, in the tally's order |
| GivingCalculations.AverageGift | web/app/giving/giving-calculations.ts:50-51 | the average is 0 without contributions and otherwise times the count gives the overall total |
| GivingCalculations.Summarize | web/app/giving/giving-calculations.ts:36-64 | the loop and the result construction give `SummaryOf` of the contributions |
| GivingCalculations.CalculateGivingSummary | web/app/giving/giving-calculations.ts:11-65 | the summary is `SummaryOf` of the contributions that are not archived |
| GivingCalculations.MonthTotals | web/app/giving/giving-calculations.ts:48-49 | this and last month's totals are the sums over the contributions of those months |
| GivingCalculations.FundSumIsTotal | web/app/giving/giving-calculations.ts:53-57 | the fund lines add up to the tally's total |
| GivingCalculations.ByFundFacts | web/app/giving/giving-calculations.ts:44-57 | the fund lines add up to the overall total, name each fund id once, and a null fund id is named General |
| GivingCalculations.FundLineAmount | web/app/giving/giving-calculations.ts:44-57 | a fund line's amount is the sum over the contributions with that fund key |
| GivingCalculations.DistinctGet | web/app/giving/giving-calculations.ts:48-49 | in a tally with distinct keys, an entry's key reads that entry's total |
| GivingCalculations.StrictlyDescending | web/app/giving/giving-calculations.ts:61 | sorted month lines with distinct months are strictly newest first |
| GivingCalculations.PermutedMonthsDistinct | web/app/giving/giving-calculations.ts:59-61 | sorting the month lines keeps the months distinct |
| GivingCalculations.MonthlyFacts | web/app/giving/giving-calculations.ts:59-62 | the trend shows at most six months, each once, strictly newest first, each with the sum over the contributions of that month |
| GivingCalculations.ArchivedIgnored | web/app/giving/giving-calculations.ts:15-16 | an archived contribution adds nothing to any figure |
| GivingCalculations.OnlyActiveCounted | web/app/giving/giving-calculations.ts:16 | only active contributions are counted, and on active ones only the filter changes nothing |
| GivingPage.DeriveGivingSummary | web/app/giving/page.tsx:31-57 | the page's summary is `SummaryOf` of every contribution it is given, archived ones included |
| GivingPage.ArchivedStillCounted | web/app/giving/page.tsx:31-33 | an archived contribution still adds its amount to the page's overall total |
| GivingPage.AgreesWithoutArchived | web/app/giving/page.tsx:31-57 | without archived contributions the page agrees with the shared calculation |
| SoftDelete.Find | api/src/datastore/in-memory-data-store.service.ts:342-351 | the first row with the id in the wanted deletion state, or none when no row has both |
| SoftDelete.Delete | api/src/datastore/in-memory-data-store.service.ts:341-348 | a soft delete succeeds exactly when an active row has the id; it marks the first such row at the given time and nothing else, and a failure leaves the table as it was |
| SoftDelete.Undelete | api/src/datastore/in-memory-data-store.service.ts:350-357 | a restore succeeds exactly when a deleted row has the id; it clears the first such row's mark and nothing else, and a failure leaves the table as it was |
| SoftDelete.HardDelete | api/src/datastore/in-memory-data-store.service.ts:359-366 | a hard delete succeeds exactly when some row has the id, deleted or not; it removes the first such row and only it |
| SoftDelete.MarkKeepsIds | api/src/datastore/in-memory-data-store.service.ts:341-357 | soft delete and restore keep every id in place |
| SoftDelete.SecondDeleteFails | api/src/datastore/in-memory-data-store.service.ts:341-348 | with unique ids, deleting the same id twice fails the second time |
| SoftDelete.UndeleteUndoesDelete | api/src/datastore/in-memory-data-store.service.ts:341-357 | with unique ids, restoring after a successful delete gives the table back exactly |
| SoftDelete.Bulk | api/src/datastore/in-memory-data-store.service.ts:1203-1237 | a bulk operation accounts for every id, counted or reported failed with its reason, and keeps the table's length |
| SoftDelete.BulkStep | api/src/datastore/in-memory-data-store.service.ts:1209-1217 | a bulk run over one more id is the run over the others followed by that id's single step |
| SoftDelete.BulkDeleteFailsOnlyInactive | api/src/datastore/in-memory-data-store.service.ts:1203-1219 | with unique ids and distinct requested ids, the ids stay unique and in place, every reported id had no active row beforehand, and every requested id without an active row is reported |
| SoftDelete.BulkUntouched | api/src/datastore/in-memory-data-store.service.ts:1203-1219 | rows whose id is not requested are left as they were |
| SoftDelete.BulkAsWritten | api/src/datastore/in-memory-data-store.service.ts:368-398 | the household bulk calls change the table as the corrected run does but report every id failed and count none |
| SoftDelete.HouseholdBulkMisreports | api/src/datastore/in-memory-data-store.service.ts:368-382 | one active household deleted in bulk is deleted, yet reported failed with a count of 0 where the corrected run counts 1 |
| StoreRecords.ClearFund | api/src/datastore/in-memory-data-store.service.ts:1185-1190 | every contribution of the removed fund loses its fund, and every other contribution is untouched |
| StoreRecords.ClearFundLeavesNoReference | api/src/datastore/in-memory-data-store.service.ts:1185-1190 | afterwards no contribution refers to the fund, and ids and amounts are kept |
| StoreRecords.ClearFundAppend | api/src/datastore/in-memory-data-store.service.ts:1186-1190 | the orphaning loop handles one contribution at a time |
| StoreRecords.CountHoldersIsAssignmentCount | api/src/datastore/in-memory-data-store.service.ts:1663-1683 | counting holders one by one, as the reassignment loop does, gives the assignment count |
| StoreRecords.UserName | api/src/datastore/in-memory-data-store.service.ts:281-288 | an unknown user is named by their id, and a non-empty id never gives an empty name |
| StoreRecords.ActiveUser | api/src/datastore/in-memory-data-store.service.ts:428-432 | the user found is in the table, has the id and is not deleted; none is found exactly when no such user exists |
| StoreRecords.NewRole | api/src/datastore/in-memory-data-store.service.ts:1586-1617 | a missing or blank name is refused; a trimmed name already used in the church, ignoring case, is refused; otherwise the role gets the trimmed name, id `role-` and the generated part, the church, the given or slugified slug, sorted distinct trimmed permissions, and is deletable and not a system role |
| StoreRecords.NewRoleKeepsNamesUnique | api/src/datastore/in-memory-data-store.service.ts:1592-1598 | creating a role keeps names unique within each church, ignoring case |
| StoreRecords.UpdatedRole | api/src/datastore/in-memory-data-store.service.ts:1619-1652 | a truthy name that trims to nothing is refused, one taken by another role of the church is refused; otherwise the name is trimmed and set, and the slug follows it except on system roles; a given description and permission list replace the old ones; the id, church and flags never change |
| StoreRecords.UpdatedRoleKeepsNamesUnique | api/src/datastore/in-memory-data-store.service.ts:1629-1639 | updating a role keeps names unique within each church |
| StoreRecords.ReassignedRoles | api/src/datastore/in-memory-data-store.service.ts:1678-1681 | a former holder loses the deleted role, gains the replacement once, and keeps every other assignment |
| StoreRecords.ReassignedRolesDistinct | api/src/datastore/in-memory-data-store.service.ts:1678-1681 | reassignment never gives a user the same role twice |
| StoreRecords.SubsequenceDistinct | api/src/datastore/in-memory-data-store.service.ts:1678 | filtering a user's roles keeps them distinct |
| StoreRecords.ReassignAppend | api/src/datastore/in-memory-data-store.service.ts:1676-1683 | the reassignment loop handles one user at a time |
| StoreRecords.DeleteRoleMissing | api/src/datastore/in-memory-data-store.service.ts:1655-1658 | `{ deleted: false, reassigned: 0 }` with nothing changed exactly when no role has the id |
| StoreRecords.DeleteRoleRefusals | api/src/datastore/in-memory-data-store.service.ts:1659-1674 | a role that is not deletable or is the admin role is refused; a role with holders and no replacement is refused; a replacement that resolves to the same role is refused; each error exactly in its case |
| StoreRecords.ReassignMoves | api/src/datastore/in-memory-data-store.service.ts:1676-1683 | the loop keeps every user in place, after it nobody holds the role, every former holder holds the replacement, and others are untouched |
| StoreRecords.DeleteRoleReassigns | api/src/datastore/in-memory-data-store.service.ts:1663-1686 | after a successful deletion nobody holds the role, former holders hold the replacement, and `reassigned` counts the former holders |
| StoreRecords.DeleteRoleRemoves | api/src/datastore/in-memory-data-store.service.ts:1685-1686 | a successful deletion removes exactly that role, and the replacement role still exists |
| StoreRecords.ReassignKeepsRolesDistinct | api/src/datastore/in-memory-data-store.service.ts:1676-1683 | reassignment keeps every user free of duplicate role assignments |
| StoreRecords.MarkRead | api/src/datastore/in-memory-data-store.service.ts:1060-1074 | the answer is a read of that announcement by that user and is recorded; an existing read is returned and nothing is added, otherwise a new read at the current time is appended |
| StoreRecords.MarkReadIdempotent | api/src/datastore/in-memory-data-store.service.ts:1060-1074 | marking a read twice is marking it once |
| StoreRecords.AddMember | api/src/datastore/in-memory-data-store.service.ts:669-693 | an unknown group is refused exactly when no group has the id; a user already in the group is refused, then an unknown user; a new member gets the defaults Member, Active and the current time and is appended to the first group with the id |
| StoreRecords.AddMemberTwiceRefused | api/src/datastore/in-memory-data-store.service.ts:674-677 | adding the same user to the same group a second time is refused |
| StoreRecords.Renumber | api/src/datastore/in-memory-data-store.service.ts:2511-2516 | renumbering keeps each type's id and name and the number of types |
| StoreRecords.RenumberPlaces | api/src/datastore/in-memory-data-store.service.ts:2511-2516 | with distinct ids, the type listed at position i gets order i + 1, and unlisted types keep theirs |
| StoreRecords.Reorder | api/src/datastore/in-memory-data-store.service.ts:2498-2520 | the re-ordered table has as many types, the same ids, and ascending display order |
| StoreRecords.ReorderPlaces | api/src/datastore/in-memory-data-store.service.ts:2498-2520 | with distinct ids, the type with id `ids[i]` has display order i + 1, every unlisted type keeps its record, and every re-ordered type is a type of the table with at most its order changed |
| StoreRecords.SortedByOrder | api/src/datastore/in-memory-data-store.service.ts:2518-2520 | the final sort orders the types by display order and keeps them all |
| StoreRecords.SortKeepsIds | api/src/datastore/in-memory-data-store.service.ts:2518-2520 | sorting keeps the set of ids |
| StoreRecords.JoinedKeepsIds | api/src/datastore/in-memory-data-store.service.ts:2503-2518 | the listed types followed by the others are as many as the types, with the same ids |
| StoreRecords.JoinedHasEveryId | api/src/datastore/in-memory-data-store.service.ts:2503-2518 | every type's id is among the joined types |
| StoreRecords.JoinedHasOnlyIds | api/src/datastore/in-memory-data-store.service.ts:2503-2518 | the joined types hold no id that was not a type's |
| StoreRecords.FilterSplit | api/src/datastore/in-memory-data-store.service.ts:2503-2509 | the listed and the other types are as many as the types |
| RoleRules.SkipRun | api/src/datastore/in-memory-data-store.service.ts:130 | a leading run outside `[a-z0-9]` is dropped and nothing else |
| RoleRules.CollapseRuns | api/src/datastore/in-memory-data-store.service.ts:130 | every run outside `[a-z0-9]` becomes one hyphen, so no two hyphens meet, and it starts with a hyphen exactly when the text starts outside `[a-z0-9]` |
| RoleRules.DropLeadingHyphens | api/src/datastore/in-memory-data-store.service.ts:131 | the leading hyphens are removed and only they |
| RoleRules.DropTrailingHyphens | api/src/datastore/in-memory-data-store.service.ts:131 | the trailing hyphens are removed and only they |
| RoleRules.InfixSlugShaped | api/src/datastore/in-memory-data-store.service.ts:132 | cutting a slug-shaped text keeps it slug-shaped |
| RoleRules.Slugify | api/src/datastore/in-memory-data-store.service.ts:126-133 | a slug holds only `[a-z0-9-]`, never two hyphens in a row, at most 50 characters, and does not start with a hyphen |
| RoleRules.SlugEndsWithHyphenOnlyWhenCut | api/src/datastore/in-memory-data-store.service.ts:131-132 | a slug ends with a hyphen only when the 50-character cut left one there |
| RoleRules.NormalizePermissions | api/src/datastore/in-memory-data-store.service.ts:1599-1649 | the permissions kept are trimmed, non-empty, strictly ascending (so distinct), include every non-blank given permission trimmed, and nothing else |
| RoleRules.NormalizedMembers | api/src/datastore/in-memory-data-store.service.ts:1600 | filtering, de-duplicating and sorting keep exactly the non-empty values, strictly ascending |
| RoleRules.SortedDistinctAscending | api/src/datastore/in-memory-data-store.service.ts:1600 | sorting a duplicate-free list gives a strictly ascending one |
| RoleRules.CountTwo | api/src/datastore/in-memory-data-store.service.ts:1600 | a value at two positions is counted twice |
| RoleRules.DistinctCount | api/src/datastore/in-memory-data-store.service.ts:1600 | a duplicate-free list holds each value at most once |
| RoleRules.DefaultRoleId | api/src/datastore/in-memory-data-store.service.ts:222-228 | the role with the slug, else the first role, else `role-` and the slug |
| RoleRules.ResolveRoleId | api/src/datastore/in-memory-data-store.service.ts:230-248 | an empty identifier gives the default member role; an existing id is itself; whatever is resolved is an existing role when there are roles, and `role-member` when there are none |
| InMemoryDataStore.Store.constructor | api/src/datastore/in-memory-data-store.service.ts:139-172 | a new store holds the church and empty tables |
| InMemoryDataStore.Store.DeleteHousehold | api/src/datastore/in-memory-data-store.service.ts:341-348 | the households and answer of `SoftDelete.Delete` |
| InMemoryDataStore.Store.UndeleteHousehold | api/src/datastore/in-memory-data-store.service.ts:350-357 | the households and answer of `SoftDelete.Undelete` |
| InMemoryDataStore.Store.HardDeleteHousehold | api/src/datastore/in-memory-data-store.service.ts:359-366 | the households and answer of `SoftDelete.HardDelete` |
| InMemoryDataStore.Store.BulkDeleteHouseholds | api/src/datastore/in-memory-data-store.service.ts:368-382 | the bulk delete as written: the households and report of `SoftDelete.BulkAsWritten` with the household reason, so the deletions happen but every id is reported failed |
| InMemoryDataStore.Store.BulkUndeleteHouseholds | api/src/datastore/in-memory-data-store.service.ts:384-398 | the bulk restore as written, through `SoftDelete.BulkAsWritten` with the household restore reason |
| InMemoryDataStore.Store.DeleteFund | api/src/datastore/in-memory-data-store.service.ts:1170-1177 | the funds and answer of `SoftDelete.Delete` |
| InMemoryDataStore.Store.UndeleteFund | api/src/datastore/in-memory-data-store.service.ts:1194-1201 | the funds and answer of `SoftDelete.Undelete` |
| InMemoryDataStore.Store.HardDeleteFund | api/src/datastore/in-memory-data-store.service.ts:1179-1192 | the fund is removed as `SoftDelete.HardDelete` says, and on success every contribution of it is orphaned; on failure the contributions are unchanged |
| InMemoryDataStore.Store.BulkDeleteFunds | api/src/datastore/in-memory-data-store.service.ts:1203-1219 | the funds and report of `SoftDelete.Bulk`, reason "Not found or already deleted" |
| InMemoryDataStore.Store.BulkUndeleteFunds | api/src/datastore/in-memory-data-store.service.ts:1221-1237 | the funds and report of `SoftDelete.Bulk`, reason "Not found or not deleted" |
| InMemoryDataStore.Store.DeleteContribution | api/src/datastore/in-memory-data-store.service.ts:1322-1329 | the contributions and answer of `SoftDelete.Delete` |
| InMemoryDataStore.Store.UndeleteContribution | api/src/datastore/in-memory-data-store.service.ts:1340-1347 | the contributions and answer of `SoftDelete.Undelete` |
| InMemoryDataStore.Store.HardDeleteContribution | api/src/datastore/in-memory-data-store.service.ts:1331-1338 | the contributions and answer of `SoftDelete.HardDelete` |
| InMemoryDataStore.Store.BulkDeleteContributions | api/src/datastore/in-memory-data-store.service.ts:1349-1365 | the contributions and report of `SoftDelete.Bulk`, reason "Not found or already deleted" |
| InMemoryDataStore.Store.BulkUndeleteContributions | api/src/datastore/in-memory-data-store.service.ts:1367-1383 | the contributions and report of `SoftDelete.Bulk`, reason "Not found or not deleted" |
| InMemoryDataStore.Store.DeleteDocument | api/src/datastore/in-memory-data-store.service.ts:1792-1797 | the documents and answer of `SoftDelete.Delete` |
| InMemoryDataStore.Store.UndeleteDocument | api/src/datastore/in-memory-data-store.service.ts:1807-1812 | the documents and answer of `SoftDelete.Undelete` |
| InMemoryDataStore.Store.HardDeleteDocument | api/src/datastore/in-memory-data-store.service.ts:1799-1805 | the document is removed as `SoftDelete.HardDelete` says, and on success every permission row of it goes too |
| InMemoryDataStore.Store.DeleteChild | api/src/datastore/in-memory-data-store.service.ts:2245-2252 | the children and answer of `SoftDelete.Delete` |
| InMemoryDataStore.Store.UndeleteChild | api/src/datastore/in-memory-data-store.service.ts:2254-2261 | the children and answer of `SoftDelete.Undelete` |
| InMemoryDataStore.Store.HardDeleteChild | api/src/datastore/in-memory-data-store.service.ts:2263-2270 | the children and answer of `SoftDelete.HardDelete` |
| InMemoryDataStore.Store.BulkDeleteChildren | api/src/datastore/in-memory-data-store.service.ts:2272-2289 | the children and report of `SoftDelete.Bulk`, reason "Child not found or already deleted" |
| InMemoryDataStore.Store.BulkUndeleteChildren | api/src/datastore/in-memory-data-store.service.ts:2291-2308 | the children and report of `SoftDelete.Bulk`, reason "Child not found or not deleted" |
| InMemoryDataStore.Store.CreateRole | api/src/datastore/in-memory-data-store.service.ts:1586-1617 | a refusal leaves the roles unchanged; a new role is `StoreRecords.NewRole`, appended, and answered with its assignment count |
| InMemoryDataStore.Store.UpdateRole | api/src/datastore/in-memory-data-store.service.ts:1619-1652 | an unknown id answers null and changes nothing; otherwise the first role with the id becomes `StoreRecords.UpdatedRole` or the error is thrown with the roles unchanged |
| InMemoryDataStore.Store.DeleteRole | api/src/datastore/in-memory-data-store.service.ts:1654-1687 | the roles, users and answer of `StoreRecords.DeleteRoleResult`, or its error with nothing changed |
| InMemoryDataStore.Store.MarkAnnouncementRead | api/src/datastore/in-memory-data-store.service.ts:1060-1074 | the reads and answer of `StoreRecords.MarkRead` |
| InMemoryDataStore.Store.AddGroupMember | api/src/datastore/in-memory-data-store.service.ts:669-693 | the groups and member of `StoreRecords.AddMember`, or its error with the groups unchanged |
| InMemoryDataStore.Store.ReorderRequestTypes | api/src/datastore/in-memory-data-store.service.ts:2498-2531 | the request types become `StoreRecords.Reorder` of the old ones, which `StoreRecords.ReorderPlaces` describes, and are returned, and one audit entry of the re-ordering is appended |
| InMemoryDataStore.Store.ReorderAudit | api/src/datastore/in-memory-data-store.service.ts:2523-2528 | the audit entry is in the store's church, by the actor, at the current time, with action `requestType.reordered` on entity `requestType` and no entity id |
| InMemoryDataStore.Store.ListAuditLogs | api/src/datastore/in-memory-data-store.service.ts:1490-1532 | the page is `AuditLogs.ListAuditLogs` of the store's entries, and each item carries its actor as `getUserById` finds them |
| InMemoryDataStore.RunBulk | api/src/datastore/in-memory-data-store.service.ts:1209-1217 | the bulk loop gives `SoftDelete.Bulk` |
| InMemoryDataStore.RunBulkAsWritten | api/src/datastore/in-memory-data-store.service.ts:373-380 | the household bulk loop gives `SoftDelete.BulkAsWritten` |
| InMemoryDataStore.ClearFundReferences | api/src/datastore/in-memory-data-store.service.ts:1186-1190 | the orphaning loop gives `StoreRecords.ClearFund` |
| InMemoryDataStore.ReassignHolders | api/src/datastore/in-memory-data-store.service.ts:1676-1683 | the reassignment loop gives `StoreRecords.Reassign` and counts the holders |
| InMemoryDataStore.Partition | api/src/datastore/in-memory-data-store.service.ts:2503-2509 | the split gives the listed and the other types, each in table order |
| InMemoryDataStore.PartitionStep | api/src/datastore/in-memory-data-store.service.ts:2503-2509 | one more type extends exactly one side of the split |
| InMemoryDataStore.RenumberListed | api/src/datastore/in-memory-data-store.service.ts:2511-2516 | the numbering loop gives `StoreRecords.Renumber` |
| InMemoryDataStore.BulkOne | api/src/datastore/in-memory-data-store.service.ts:1210-1216 | one id of the bulk loop: the table becomes the step's result, and the success count goes up or the failure list gains the id with the reason |
| Csv.DoubleQuotes | api/src/datastore/in-memory-data-store.service.ts:1454 | doubling quotes never shortens a value and leaves a value without quotes as it is |
| Csv.Escape | api/src/datastore/in-memory-data-store.service.ts:1448-1457 | a missing value is the empty field; a value without a double quote, comma or line feed is written as it is; any other value is wrapped in double quotes |
| Csv.UndoubleDoubleQuotes | api/src/datastore/in-memory-data-store.service.ts:1454 | reading back doubled quotes gives the value |
| Csv.EscapeRoundTrip | api/src/datastore/in-memory-data-store.service.ts:1448-1457 | an RFC 4180 reader gets every present value back from its escaped field |
| AuditLogs.PageNumber | api/src/datastore/in-memory-data-store.service.ts:1513 | the page is the requested one when it is positive, otherwise 1 |
| AuditLogs.PageSize | api/src/datastore/in-memory-data-store.service.ts:1514-1515 | the page size is the requested one when positive, otherwise 20, and never above 100 |
| AuditLogs.ListAuditLogs | api/src/datastore/in-memory-data-store.service.ts:1490-1532 | the page number and size are in range; the total counts the matching entries; the page holds at most a page size of matching entries of the store, newest first |
| AuditLogs.PageStart | api/src/datastore/in-memory-data-store.service.ts:1516 | a page starts at (page - 1) times the page size |
| JsString.SliceItems | api/src/datastore/in-memory-data-store.service.ts:1517 | a page is a contiguous window of the sorted entries, full when enough entries follow |
| AuditLogs.MatchingMembers | api/src/datastore/in-memory-data-store.service.ts:1494-1512 | the sorted entries are as many as the matching ones, all of them matching entries of the store, newest first |
| AuditLogs.MatchesIgnoresPaging | api/src/datastore/in-memory-data-store.service.ts:1494-1512 | the filters and the sort do not depend on the page asked for |
| AuditLogs.PageHoldsWindow | api/src/datastore/in-memory-data-store.service.ts:1513-1517 | a page holds exactly the matching entries from its start on, full when enough follow, and not empty when its start is within the entries |
| AuditLogs.EveryMatchOnSomePage | api/src/datastore/in-memory-data-store.service.ts:1510-1517 | with a fixed page size, every matching entry is listed on page k / size + 1 |
| AuditLogs.OnPage | api/src/datastore/in-memory-data-store.service.ts:1516-1517 | a matching entry whose position lies within the window of the requested page and size is listed on that page |
| AuditLogs.PageOf | api/src/datastore/in-memory-data-store.service.ts:1516 | entry k lies within the window of page k / size + 1 |
| AuditLogs.NewAuditLog | api/src/datastore/in-memory-data-store.service.ts:1534-1552 | a new entry belongs to the given church, else the store's, with its id, time and entity id |
| MockDatabase.UserById | api/src/mock/mock-database.service.ts:107-109 | the user found is in the table with the id; none exactly when no user has it |
| MockDatabase.NameOf | api/src/mock/mock-database.service.ts:185-188 | the display name is the trimmed full name, and the id for an unknown user |
| MockDatabase.AuditId | api/src/mock/mock-database.service.ts:387-389 | an entry naming an entity id is `audit-<entity>-<entityId>-<time>`; any other is `audit-<time>-<random>` |
| MockDatabase.EntryOf | api/src/mock/mock-database.service.ts:384-402 | the entry has the given church, else the mock church, the given time, else the current one, and the input's actor, action, entity, entity id, diff and metadata |
| MockDatabase.Upsert | api/src/mock/mock-database.service.ts:181-225 | the user's first record is updated in place with the new status, note, recorder and time, and its old status is reported; without one a new record is appended |
| MockDatabase.UpsertKeepsOneRecordPerUser | api/src/mock/mock-database.service.ts:181-225 | recording keeps one record per user, and the user then has one |
| MockDatabase.UpsertTwiceKeepsLength | api/src/mock/mock-database.service.ts:181-225 | recording the same user a second time adds no record |
| MockDatabase.AttendanceDiff | api/src/mock/mock-database.service.ts:204-207 | the diff is present exactly when an existing status changes |
| MockDatabase.RecordAttendanceResult | api/src/mock/mock-database.service.ts:178-243 | an unknown event gives null; otherwise one `attendance.updated` entry on the event is logged in the mock church and the record has the user and status given |
| MockDatabase.RecordAttendanceChanges | api/src/mock/mock-database.service.ts:178-243 | only the event's attendance changes, to the upsert of the old one, and the diff is present exactly when the user had a record with another status |
| MockDatabase.ReadAudit | api/src/mock/mock-database.service.ts:253-283 | at most one entry is logged: exactly on the first read of an existing announcement, as `announcement.read` by the reader |
| MockDatabase.ReadAuditOnce | api/src/mock/mock-database.service.ts:254-259 | a repeated read logs nothing more |
| MockDatabase.ListContributionsKeeps | api/src/mock/mock-database.service.ts:289-298 | the listing keeps the table's order and holds exactly the contributions that pass every filter that is set |
| MockDatabase.SessionRole | api/src/mock/mock-database.service.ts:432 | a demo login takes the requested role, else the user's first role, else Member |
| MockDatabase.WithRole | api/src/mock/mock-database.service.ts:433-435 | afterwards the user has the role; a user who had it is unchanged, any other gains it once in the church |
| MockDatabase.WithRoleIdempotent | api/src/mock/mock-database.service.ts:433-435 | a second login with the same role adds nothing |
| MockDatabase.SessionLookup | api/src/mock/mock-database.service.ts:447-454 | a falsy or unknown token finds nothing; a found session has the token and comes with its user |
| MockDatabase.LookupNeedsUser | api/src/mock/mock-database.service.ts:451-452 | a session whose user is gone is not found |
| MockDatabase.CreatedSessionFound | api/src/mock/mock-database.service.ts:436-454 | a session just created with a new, non-empty token is found by it, with its user |
| MockDatabase.MockDatabaseService.constructor | api/src/mock/mock-database.service.ts:84 | the service starts from the seeded tables |
| MockDatabase.MockDatabaseService.CreateAuditLog | api/src/mock/mock-database.service.ts:384-402 | the entry of `EntryOf` is appended and returned |
| MockDatabase.MockDatabaseService.RecordAttendance | api/src/mock/mock-database.service.ts:178-243 | an unknown event changes nothing; otherwise the events become those of `RecordAttendanceResult`, its one entry is appended and the record returned |
| MockDatabase.MockDatabaseService.MarkAnnouncementRead | api/src/mock/mock-database.service.ts:253-283 | the reads and answer of `StoreRecords.MarkRead`, and the entries of `ReadAudit` appended |
| MockDatabase.MockDatabaseService.Contributions | api/src/mock/mock-database.service.ts:289-298 | the listing keeps the table's order and holds exactly the contributions passing the filters that are set |
| MockDatabase.MockDatabaseService.ListAuditLogs | api/src/mock/mock-database.service.ts:342-382 | the page is `AuditLogs.ListAuditLogs` of the entries, each item with its actor |
| MockDatabase.MockDatabaseService.CreateSession | api/src/mock/mock-database.service.ts:427-445 | an unknown e-mail address is refused with nothing changed; otherwise the user gets the login role if missing, one session is appended, and both are returned |
| MockDatabase.MockDatabaseService.GetSessionByToken | api/src/mock/mock-database.service.ts:447-454 | a falsy token finds nothing; a found session has the token and comes with its user |
| UrlSearchParams.Navigate | web/lib/hooks/use-drawer.ts:53-63 | a navigation carries the query, and is a replace exactly when the option asks for one |
| UrlSearchParams.Get | web/lib/hooks/use-drawer.ts:39 | a name reads nothing exactly when no pair has it |
| UrlSearchParams.DeleteFront | web/lib/hooks/use-drawer.ts:79 | `delete` handles one pair at a time from the front |
| UrlSearchParams.GetDelete | web/lib/hooks/use-drawer.ts:78-79 | after `delete` the name is gone and every other name reads as before |
| UrlSearchParams.GetSet | web/lib/hooks/use-drawer.ts:67-68 | after `set` the name reads the new value and every other name reads as before |
| UrlSearchParams.SetPosition | web/lib/hooks/use-url-state.ts:84 | `set` keeps the pairs before the name's first pair, puts the value in its place, and appends it when the name is absent |
| UrlSearchParams.SearchParams.constructor | web/lib/hooks/use-drawer.ts:67 | the copy holds the current query |
| UrlSearchParams.SearchParams.SetParam | web/lib/hooks/use-drawer.ts:68 | the copy becomes `Set` of the old pairs |
| UrlSearchParams.SearchParams.DeleteParam | web/lib/hooks/use-drawer.ts:79 | the copy becomes `Delete` of the old pairs |
| UrlState.ValueOf | web/lib/hooks/use-url-state.ts:47-57 | a missing parameter gives the default, so does one the deserialiser rejects; otherwise the deserialised parameter |
| UrlState.SetValue | web/lib/hooks/use-url-state.ts:59-96 | `setValue` navigates as `SetValueOutcome` says (see the lemmas below) |
| UrlState.UpdaterSeesCurrentValue | web/lib/hooks/use-url-state.ts:63-65 | a functional update is applied to the value the hook shows |
| UrlState.DefaultRemovesKey | web/lib/hooks/use-url-state.ts:67-93 | the default or null removes the parameter, leaves every other one as it was, and always navigates |
| UrlState.UnchangedDoesNotNavigate | web/lib/hooks/use-url-state.ts:76-82 | a non-default value causes no navigation exactly when the parameter already holds its text |
| UrlState.ChangedValueIsSet | web/lib/hooks/use-url-state.ts:76-93 | any other value is written into the parameter's first place (or appended), and every other parameter reads as before |
| UrlState.ReplaceOrPush | web/lib/hooks/use-url-state.ts:89-93 | each navigation is one call, `replace` exactly when the option asks for it |
| UrlState.SetThenRead | web/lib/hooks/use-url-state.ts:47-84 | setting a value and reading it back gives what the deserialiser makes of its text |
| UrlState.ResetThenRead | web/lib/hooks/use-url-state.ts:47-74 | setting the default and reading it back gives the default |
| Drawer.Open | web/lib/hooks/use-drawer.ts:65-72 | `open(id)` navigates to the query with `drawer` set to the id |
| Drawer.Close | web/lib/hooks/use-drawer.ts:74-83 | without a drawer nothing happens; otherwise the query without `drawer` |
| Drawer.Toggle | web/lib/hooks/use-drawer.ts:85-94 | the current drawer is closed (nothing happens for an empty id); any other id is opened |
| Drawer.IsOpenIff | web/lib/hooks/use-drawer.ts:41-45 | a drawer is open exactly when the parameter is a non-empty string and no specific id is tracked or it equals that id |
| Drawer.DrawerIdWhenOpen | web/lib/hooks/use-drawer.ts:47-51 | the drawer id is absent exactly when the drawer is closed, and is the parameter otherwise |
| Drawer.OpenShowsDrawer | web/lib/hooks/use-drawer.ts:41-72 | after `open(id)` the drawer is that id, shows as open, and every other parameter reads as before |
| Drawer.CloseHidesDrawer | web/lib/hooks/use-drawer.ts:41-83 | after `close()` no drawer is open and every other parameter reads as before |
| Toast.WithId | web/lib/hooks/use-toast.ts:53 | the toast shown carries the generated id and the caller's message and variant |
| Toast.ToastStore.constructor | web/lib/hooks/use-toast.ts:42-44 | the store starts with no toast and no timer |
| Toast.ToastStore.Add | web/lib/hooks/use-toast.ts:46-75 | the queue becomes `Added` of the old one under that call's limit, the timers `AddedTimers`, and the generated id is returned |
| Toast.ToastStore.Dismiss | web/lib/hooks/use-toast.ts:77-96 | no id clears every toast and timer; an id removes exactly the toasts with it and its timer |
| Toast.ToastStore.Expire | web/lib/hooks/use-toast.ts:67-71 | a timer that runs out dismisses its own toast and clears itself |
| Toast.ToastStore.Notify | web/lib/hooks/use-toast.ts:111-121 | `success`, `error`, `info` and `warning` add the message with their variant and the options' fields |
| Toast.AddedShape | web/lib/hooks/use-toast.ts:53-61 | every toast there stays in order with the new one last; only past the limit is exactly the oldest dropped |
| Toast.AddedWithinLimit | web/lib/hooks/use-toast.ts:48-61 | with a limit of at least one, the new toast is last and the queue stays within the limit |
| Toast.LimitNotSticky | web/lib/hooks/use-toast.ts:48-54 | a queue already longer than the call's limit keeps its length rather than shrinking to the limit |
| Toast.TimerIffPositiveDuration | web/lib/hooks/use-toast.ts:49-72 | a timer for the new toast is registered exactly when the duration is positive, as the default is |
| Toast.ShiftedTimerCleared | web/lib/hooks/use-toast.ts:55-60 | the dropped toast's timer is cleared |
| Toast.AddKeepsTimersTracked | web/lib/hooks/use-toast.ts:46-72 | every timer belongs to a toast on screen, and `add` keeps it so |
| Toast.DismissedExactly | web/lib/hooks/use-toast.ts:92-94 | dismissing an id removes exactly the toasts with it; an unknown id changes nothing |
| Toast.DismissKeepsTimersTracked | web/lib/hooks/use-toast.ts:85-94 | dismissing an id keeps every timer attached to a toast on screen |
| Toast.CustomLimitLastsOneCall | web/lib/hooks/use-toast.ts:48 | a limit given on one call does not carry over: after five toasts, one asking for five, three are shown |
| MemberImport.ScanFields | web/app/onboarding/member-import-step.tsx:30-36 | the field loop keeps exactly `FieldEmails` of the line's fields |
| MemberImport.ParseEmailsFromCsv | web/app/onboarding/member-import-step.tsx:21-40 | the parse returns `ParsedEmails` of the text (see the lemmas below) |
| MemberImport.PlainAt | web/app/onboarding/member-import-step.tsx:33 | each character of a `[^\s@]` run is neither white space nor `@` |
| MemberImport.PatternFacts | web/app/onboarding/member-import-step.tsx:33 | an address the pattern accepts holds exactly one `@`, neither first nor last, and no white space |
| MemberImport.PatternFromParts | web/app/onboarding/member-import-step.tsx:33 | any non-empty local part, host and top-level part free of white space and `@` make an address the pattern accepts |
| MemberImport.FieldEmailsMatch | web/app/onboarding/member-import-step.tsx:31-36 | every address kept from a line matches the pattern |
| MemberImport.CandidatesMatch | web/app/onboarding/member-import-step.tsx:25-37 | every address kept from the text matches the pattern |
| MemberImport.ParsedMatchPattern | web/app/onboarding/member-import-step.tsx:21-40 | every address returned matches the pattern |
| MemberImport.ParsedDistinctInOrder | web/app/onboarding/member-import-step.tsx:39 | no address is returned twice, the addresses are a subsequence of those found, in the order of their first occurrence, and every address found is returned |
| MemberImport.FieldEmailsFromFields | web/app/onboarding/member-import-step.tsx:30-35 | an address kept is one of the line's trimmed fields |
| MemberImport.CandidatesFromLines | web/app/onboarding/member-import-step.tsx:25-37 | nothing is invented: each address is a trimmed field of a non-blank line of the text |
| MemberImport.BlankLinesSkipped | web/app/onboarding/member-import-step.tsx:26-27 | blank lines add no address |
| MemberImport.EmptyTextGivesNothing | web/app/onboarding/member-import-step.tsx:23-27 | the empty text gives no address |
| MemberImport.HandleImport | web/app/onboarding/member-import-step.tsx:56-90 | a file that cannot be read, or an import that throws, reports "Import failed"; no address reports "No valid email addresses" without calling the API; otherwise the parsed addresses are sent and a success counts them; success exactly when the API was called and did not throw |
| MemberImport.ScanLine | web/app/onboarding/member-import-step.tsx:26-36 | a blank line gives nothing; any other line gives `LineEmails` of it |
| MemberImport.ScanLines | web/app/onboarding/member-import-step.tsx:25-37 | the line loop collects `Candidates` of the lines: each line's addresses, in order, duplicates kept |
| FormActions.GetAll | web/app/actions.ts:107-108 | `getAll` gives no more values than the form has pairs |
| FormActions.SelectedIds | web/app/actions.ts:107-110 | the selected ids are the non-empty values under the name |
| FormActions.ToIsoString | web/app/actions.ts:25-32 | a missing or empty input gives nothing, any other the date parser's answer (nothing for an invalid date) |
| FormActions.ParseTagsAbsent | web/app/actions.ts:341-342 | `parseTags` gives nothing exactly for a missing or empty field |
| FormActions.TrimmedPart | web/app/actions.ts:343-345 | a trimmed part is trimmed, free of commas and the trimmed form of one part |
| FormActions.KeptTag | web/app/actions.ts:346 | a kept tag is a non-empty trimmed part |
| FormActions.ParseTagsAreParts | web/app/actions.ts:341-347 | every tag is non-empty, trimmed, free of commas, and the trimmed form of one comma-separated part |
| FormActions.ParseTagsKeepsParts | web/app/actions.ts:341-347 | every part that is not blank is kept, trimmed |
| FormActions.TrimInside | web/app/actions.ts:345 | trimming keeps no character that was not in the text |
| FormActions.UpdateAnnouncementPayload | web/app/actions.ts:60-119 | title, body and audience are sent when non-empty; the publish date when it parses; `expireAt` is left out when absent, cleared when empty, and sent when it parses; group ids follow a custom audience, are emptied for any other audience, and otherwise are sent only when the marker field is present |
| FormActions.UpdateContributionPayload | web/app/actions.ts:155-192 | member and method are sent when non-empty, the amount when non-empty and a number, the date when it parses; fund and note are sent whenever present, even empty; nothing is ever cleared |
| FormActions.EmptiedContributionFields | web/app/actions.ts:165-191 | an emptied fund or note is still sent as empty text, while an emptied amount is left out |
| FormActions.TextField | web/app/actions.ts:371-376 | a text field is sent exactly when non-empty, and is never cleared |
| FormActions.EventGroupId | web/app/actions.ts:369-377 | an empty group clears it, a missing one is left out, and a non-empty one is sent as it is |
| FormActions.UpdateEventPayload | web/app/actions.ts:367-379 | the group follows `EventGroupId`; tags are sent exactly when the field is non-empty, as `parseTags` gives them; title and dates are sent exactly when given (the dates when they parse); only the group can be cleared |
| FormActions.DeleteRoleBody | web/app/actions.ts:296-303 | a replacement role is sent exactly when one is chosen, and an empty choice is left out |
| Preferences.FromJson | web/app/actions/preferences.ts:37-66 | a response the validator accepts reads as one of the presets |
| Preferences.GetUserPreferences | web/app/actions/preferences.ts:84-101 | a valid answer is returned as it is; an invalid answer or a failed fetch gives the defaults |
| Preferences.UpdateUserPreferences | web/app/actions/preferences.ts:136-150 | a failed request throws its error; otherwise the body sent is valid and reads back as the preferences given |
| Preferences.ValidIff | web/app/actions/preferences.ts:37-66 | the validator accepts exactly the objects with a preset theme, a boolean dark-mode flag and a preset font size |
| Preferences.NonObjectsRefused | web/app/actions/preferences.ts:38-40 | null and every value that is not an object are refused |
| Preferences.AlwaysValid | web/app/actions/preferences.ts:17-101 | whatever the API answers, the page gets preferences the validator accepts |
| Preferences.RoundTrip | web/app/actions/preferences.ts:26-66 | preset preferences survive the trip to JSON and back, and their JSON passes the validator |
| Preferences.ValidAnswerKept | web/app/actions/preferences.ts:93-95 | a valid answer is used as it is |
| Theme.GetUserTheme | web/app/actions/theme.ts:69-86 | a valid answer is returned as it is; an invalid answer or a failed fetch gives the defaults |
| Theme.ValidIff | web/app/actions/theme.ts:30-51 | the validator accepts exactly the objects with a preset theme and a boolean dark-mode flag |
| Theme.NonObjectsRefused | web/app/actions/theme.ts:31-33 | null and every value that is not an object are refused |
| Theme.AlwaysValid | web/app/actions/theme.ts:16-86 | whatever the API answers, the page gets a theme the validator accepts |
| Theme.PreferencesAreThemes | web/app/actions/theme.ts:30-51 | every full preferences answer is also a valid theme answer |
| FormActions.AnnouncementTexts | web/app/actions.ts:62-74 | title and body are set exactly when their form values are non-empty, to those values; no other field is set |
| FormActions.AnnouncementExpiry | web/app/actions.ts:90-105 | no `expireAt` field leaves the expiry out, an empty one clears it, a value that parses sets it to the ISO text and one that does not leaves it out |
| FormActions.AnnouncementGroups | web/app/actions.ts:107-118 | a custom audience sends the selected group ids, any other audience an empty list; without an audience the ids are sent only when the marker field is present |

## Left out

**Concurrency and I/O:**

- All `async` methods are modelled as sequential calls. Concurrent requests are not modelled.
- The cache's `setInterval` cleanup is not modelled.
- The toast `setTimeout` timers are not modelled. Only the set of ids with a pending timer is kept, and the timer durations are not modelled.
- The following are not modelled:
  - file reads and writes of the event store, and the audit-log persistence file;
  - the Prisma stores;
  - the web fetch clients;
  - logging and error filters;
  - the Next router, cookies, `revalidatePath` and `redirect`.
- Base64 encoding of documents is not modelled, nor are download-URL tokens, because they are encodings and I/O.

**Time:**

- `DocumentEntity.Create`: `Document.create` reads the clock twice, once for `createdAt` and once for `updatedAt`. The model uses one `now` for both, so `createdAt == updatedAt` holds by construction.
- `InMemoryDataStore.Store.BulkDeleteFunds`: the source reads the clock once per id. The model uses one `now` for the whole call. The same holds for `InMemoryDataStore.Store.BulkDeleteContributions`.
- Dates are opaque integers. ISO formatting, ISO parsing and month keys are parameters, because host date handling is not part of the core.

**Values and encodings:**

- An update field that is explicitly `undefined` is not distinguished from an absent field.
- The `deepFreeze` of the entities is not modelled. Value objects (email, phone) are plain strings.
- URL percent-encoding and `URLSearchParams.toString` are not modelled. A query is an ordered list of decoded key/value pairs.
- `FormActions`: `Number()` is modelled as a parameter returning an optional integer. Form `File` values are not modelled.
- `UrlState`: deserialisation is a partial parameter. JS `===` on object values is reference equality, but the model compares `Json` values structurally.
- `Preferences.FromJson`: extra fields in a valid answer are kept in the `Json` value the page receives, but they are dropped from the typed reading.
- Lower-casing is ASCII only. Case folding beyond ASCII is host behaviour.
- `Sorting.TextLess`: strings compare by Dafny `char`, that is by Unicode scalar value, while JavaScript `<` compares UTF-16 code units. The two orders differ only when a character outside the Basic Multilingual Plane is compared with one in U+E000 to U+FFFF, because the model has no UTF-16 encoding.

**Giving figures:**

- `GivingCalculations.CalculateGivingSummary`: the month key of a contribution is a parameter.
- `GivingCalculations.MonthlyFacts`: states at most six entries in strictly descending key order. It does not state that the six shown are the six newest months.
- `GivingPage.DeriveGivingSummary`: a fund whose own id is `general` shares the General line, as in the source, and no lemma separates the two.

**Toasts and member import:**

- `Toast.ToastStore.Add`: the `maxToasts` field that the options spread copies into the stored toast is not kept. The model does not keep `onClick` handlers either.
- `MemberImport.HandleImport`: the following are left out:
  - the early return when no file is selected;
  - the `isImporting` flag;
  - the `onUpdate` callback, including one that throws after a successful import.

**Stores and services:**

- The in-memory store's group and announcement soft deletes only throw "not yet implemented". They are not modelled.
- The documents `listDeleted` is a bare delegation to the store. It is not modelled.
- The other methods of the mock database are not modelled, because they are not part of the core: `listUsers`, the fixtures and the other list readers.
- `getPlanFeatures`, the thin repositories and adapters, and the controllers other than giving are not modelled. They only delegate, or add the same admin check.
- The React pages and components only render. They are not modelled.

## Findings

| source | as written | input that shows it | evidently intended | confidence | as-written member | corrected member |
|---|---|---|---|---|---|---|
| api/src/datastore/in-memory-data-store.service.ts:368-398 | `bulkDeleteHouseholds` and `bulkUndeleteHouseholds` read `.success` off the promise of the un-awaited single-record call, so every id lands in `failed` and `success` stays 0 | one active household "h1" deleted in bulk: it is deleted, and the report is success 0 with "h1" failed | await each single-record call and count its outcome, as the fund and contribution bulk calls do | not executed | SoftDelete.HouseholdBulkMisreports | SoftDelete.Bulk |

`SoftDelete.BulkAsWritten` models the household bulk calls as written, and
`SoftDelete.HouseholdBulkMisreports` exhibits the input above. The store's
household bulk methods follow the code as written, through
`InMemoryDataStore.RunBulkAsWritten`. The corrected form is `SoftDelete.Bulk`,
which the fund, contribution and children bulk methods use. Its ensures
states `success + |failed| == |ids|`, `SoftDelete.BulkStep` states that each
id is processed like the single-record call, and
`SoftDelete.BulkDeleteFailsOnlyInactive` states that an id is reported failed
exactly when it had no active row.
