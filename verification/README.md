# DA-Proxy in Dafny

DA-Proxy is a reverse proxy in front of Celestia nodes. This project models its stateful parts and proves what they
guarantee: over single calls, over whole runs, and over every interleaving where the program is concurrent.
`dafny verify dfyconfig.toml` checks everything.

| file | part of the program |
|---|---|
| `Latency.dfy`, `LatencyInterleaving.dfy` | the lock-free moving average, as a class and as a machine of loads and swaps |
| `Balancer.dfy`, `BalancerInterleaving.dfy` | endpoint selection, and what it picks while recordings are in flight |
| `Router.dfy`, `Height.dfy` | routing, heights and pruning |
| `Handler.dfy`, `Fallback.dfy` | the request handler, and what its search over endpoint pools guarantees |
| `ResponseCache.dfy`, `CacheRuns.dfy` | the response cache, and its soundness over runs |
| `TokenStore.dfy`, `TokenStaleness.dfy`, `TokenUpdates.dfy` | the token table and its cache: one operation at a time, under concurrency, and overlapping updates |
| `RateLimit.dfy`, `RateInterleaving.dfy`, `RateMinute.dfy` | the sliding-window limiter over Redis, with atomic and with interleaved pipelines |
| `Channels.dfy`, `Subscribers.dfy`, `RingBuffer.dfy` | the in-memory log and its live feed |
| `LogPipeline.dfy`, `LogInsert.dfy`, `LogQuery.dfy`, `LogPaging.dfy`, `LogPagingLive.dfy` | the log writer, its statements, searches, and paging over a table at rest and one that changes |
| `Wrappers.dfy`, `Text.dfy`, `LogEntry.dfy` | shared types, string functions, the log record |

Objects that the program updates in place are classes whose methods are proved against functions of their history (a
ghost field); what the program promises is then proved about those functions. Concurrent parts are state machines
whose steps are the program's atomic actions, and lemmas about them quantify over all runs. Inputs that the program
takes from outside (backend replies, clocks, random draws, database and Redis failures) are parameters, and lemmas
hold for all of them.

## Reading the results

- The average is linearizable and lock-free, with the exact bound n(n-1)/2 on failed swaps. The counter moves first,
  so an endpoint counts as measured and reads 0.0, the best value there is, exactly while its first samples are all in
  flight. A slower endpoint is preferred to a faster one with commits exactly then.
- Selection by latency needs distinct URLs: the earlier copy of a repeated URL is never measured and is probed for ever.
- Archival completeness holds end to end, provided the request has a height that the proxy can read and the routed
  URL, once printed, parses to itself. For a request without one it fails: the condition is exact.
- The routed endpoint is skipped in its own pool by comparing configured text with the printed URL. It is contacted
  again exactly when another spelling of it is in its pool (its own is enough, when it is not printed as it is
  written), or any spelling in the archival pool.
- An archival backend without endpoints borrows a pruned URL; that latency is recorded nowhere.
- When every endpoint gives a pruned error the last reply is labelled with the routed backend, even when an archival
  endpoint gave it.
- The token cache is not monotone: an older snapshot can replace a newer one, exactly when two reloads can be in flight
  at once. Answers are at most TTL + d old, where d bounds a reload that installs, and this bound is attained. Failed
  reloads of mutators and of other lookups do no harm; only for a lookup whose own reload fails is there no bound.
- An update writes back everything it read. A field that it leaves alone is carried past the update of another caller
  that it overlaps, so a disabled token can come back enabled; this happens exactly when the other update had read a
  different setting. Rotations and deletions cannot be undone so.
- `Rotate` keeps everything but hash, prefix and time. An allowed-methods list of one empty string is stored as no
  restriction.
- The limiter bounds distinct milliseconds, not requests: at limits of two or more a burst in one millisecond is
  admitted whole. Rejected requests occupy the window. The pipeline is not a transaction: with k pipelines in flight,
  each done within d milliseconds, up to r - 1 + min(k, d + 1) milliseconds pass in a minute less d, and up to
  r - 1 + min(2k - 1, d + 1) in a whole minute; both bounds are attained. The limit itself holds exactly when pipelines
  cannot overlap in different milliseconds (or it admits nothing, or everything).
- Paging by the last row's id visits nothing twice and misses no row that stays, whatever the table does meanwhile. While
  rows are only appended, ascending pages end with the table as it is last read, descending ones show it as first read.
- The live feed never sends on a closed channel, whatever callers do; calling a cancel function twice panics.
- The log writer hands every accepted entry to the write exactly once, and accepts every entry unless 1000 are waiting.
  The write itself drops silently what fails. A push after the writer has begun to shut down panics.
- The two SQL dialects select the same rows for every search. They store the same rows exactly when the database
  accepts all entries of a batch or none.

## Model

| member | source | states |
|---|---|---|
| `Latency.Ewma.Update` | internal/proxy/latency.go:22-44 | one call of `Update`, with arbitrary commits of other goroutines between each load and its swap: the sample history grows by the rivals' samples and then this one, the value stays the fold of the smoothing step over the history, every failed swap has a rival commit, the count grows by one modulo 2^64 |
| `Latency.Ewma.Value` | internal/proxy/latency.go:46-50 | the value read is the fold of all committed samples in commit order |
| `Latency.FoldStaysInRange` | internal/proxy/latency.go:30-36 | the average never leaves the range of the samples, including resets through the 0.0 sentinel |
| `Latency.Contraction` | internal/proxy/latency.go:26-43 | k samples equal to c > 0 bring a positive value to distance exactly 0.7^k times the old one |
| `Latency.SteadyFromSentinel` | internal/proxy/latency.go:26-43 | from the sentinel a steady latency is adopted at once and kept |
| `LatencyInterleaving.Linearizable` | internal/proxy/latency.go:22-44 | for any number of calls in any interleaving of begin, load and swap (ABA included) the value is the fold over the samples in commit order, every finished call occurs there exactly once, and the count is committed plus in-flight calls modulo 2^64 |
| `LatencyInterleaving.CommitOrderRespectsRealTime` | internal/proxy/latency.go:22-44 | a call that returned before another began precedes it in the commit order |
| `LatencyInterleaving.FailureMeansRivalCommitted` | internal/proxy/latency.go:39-42 | a swap fails only when another call committed since the load |
| `LatencyInterleaving.FailedSwapsBound` | internal/proxy/latency.go:26-43 | n calls make at most n(n-1)/2 failed swaps, and every run of them is finite |
| `LatencyInterleaving.FailedSwapsBoundIsTight` | internal/proxy/latency.go:26-43 | for every n some run makes exactly n(n-1)/2 failed swaps |
| `LatencyInterleaving.ZeroIffNothingCommitted` | internal/proxy/latency.go:22-54 | for every run with positive samples the value reads 0.0 exactly while nothing is committed; counted and yet 0.0 exactly when calls have begun and none has committed |
| `Balancer.Balancer.constructor` | internal/proxy/balancer.go:37-49 | no samples, ticket 0, and an index that maps each URL to its last position |
| `Balancer.Balancer.HasLatencyData` | internal/proxy/balancer.go:63-70 | whether any endpoint has been measured |
| `Balancer.Balancer.ByLatency` | internal/proxy/balancer.go:83-97 | the first unmeasured endpoint, else the first with the least average |
| `Balancer.Balancer.Next` | internal/proxy/balancer.go:54-98 | which endpoint is chosen for every state: none, the only one, the next ticket, a random one, or the latency-based choice; tickets advance only before the first sample |
| `Balancer.Balancer.RecordLatency` | internal/proxy/balancer.go:102-106 | adds the sample to the history of the URL's last position and of no other; unknown URLs change nothing |
| `Balancer.Balancer.Stats` | internal/proxy/balancer.go:109-119 | per endpoint the fold of its history and the number of its samples modulo 2^64 |
| `Balancer.FastestWins` | internal/proxy/balancer.go:83-97 | an endpoint slower in every sample than another measured one is never chosen by latency |
| `Balancer.LatencySelectionNeedsDistinctEndpoints` | internal/proxy/balancer.go:37-49 | selection by latency is reachable if and only if no URL is listed twice |
| `Balancer.DrawRun` | internal/proxy/balancer.go:54-76 | calls of `Next` before any latency is recorded are a run of successive tickets |
| `Balancer.RoundRobinIsFair` | internal/proxy/balancer.go:72-76 | any k successive calls of `Next` before any latency is recorded, with tickets below 2^64, choose each of n endpoints k/n times, rounded down or up |
| `BalancerInterleaving.LoopReads` | internal/proxy/balancer.go:87-95 | over reachable interleavings the loop reads a positive count and the fold of the committed samples, 0.0 exactly when there are none |
| `BalancerInterleaving.SlowerPreferredIffUncommitted` | internal/proxy/balancer.go:87-95 | a slower endpoint is preferred to a faster one with commits if and only if it has no commit itself |
| `BalancerInterleaving.PickedIsUncommittedIff` | internal/proxy/balancer.go:83-97 | an endpoint without a commit is picked if and only if there is one, so a slower endpoint with commits never is |
| `Height.WrittenHeightIsRead` | internal/proxy/height.go:80-169 | a 64-bit height is read back from a number, a string, positional or named parameters, and the query |
| `Height.BodyBeforeQuery` | internal/proxy/handler.go:112-116 | a height in the body takes precedence over the query, which decides for everything else, batches included |
| `Height.ArchivalMeansPruned` | internal/proxy/height.go:35-47 | for heads a chain can have, a height is archival exactly when it lies behind the pruning window |
| `Router.NewRouter` | internal/proxy/router.go:61-88 | one balancer a backend over its configured endpoints, sharing nothing, with nothing recorded |
| `Router.BuildBalancers` | internal/proxy/router.go:79-88 | the six balancers, over separate objects |
| `Router.DecisionsStayInFamily` | internal/proxy/router.go:110-151 | every decision stays in the family of its method, and is archival exactly for heights behind the window |
| `Router.Router.TargetURL` | internal/proxy/router.go:95-108 | one of the backend's endpoints as its balancer chooses, or the pruned backend's when an archival one has none, or nothing |
| `Router.Router.Route` | internal/proxy/router.go:110-143 | backend, URL and method of a decision, and exactly which bodies are refused |
| `Router.Router.RecordLatency` | internal/proxy/router.go:196-200 | the recording enters the log, and every balancer keeps showing the log |
| `Text.SplitJoin` | internal/auth/store.go:156-158 | splitting a joined list gives it back if and only if no element holds the separator and the list is not empty |
| `Text.JoinSplit` | internal/auth/store.go:309 | joining a split column gives it back |
| `Text.ParseOfDecimal` | internal/proxy/height.go:164-168 | printing and parsing a 64-bit integer is the identity |
| `ResponseCache.KeyIsInjective` | internal/cache/cache.go:77-80 | equal keys mean equal methods, heights and body digests, for arbitrary method strings |
| `ResponseCache.SetThenGet` | internal/cache/cache.go:83-109 | what is stored is found for that request until it expires; what is too large leaves the old answer |
| `ResponseCache.SetChangesNoOther` | internal/cache/cache.go:77-109 | storing a response changes no answer for another method, height or digest |
| `Handler.HitHasOrigin` | internal/cache/cache.go:77-93 | an entry under a request's key comes from an exchange for the same method, height and digest |
| `Handler.Handler.TryEndpoint` | internal/proxy/handler.go:248-257 | one exchange with the endpoint, its latency recorded under the configured URL |
| `Handler.Handler.Flush` | internal/proxy/handler.go:261-289 | relays the reply, and stores it under the request's key exactly when cacheable, status 200 and not pruned |
| `Handler.Handler.TryPool` | internal/proxy/handler.go:196-216 | the attempts through a pool in order, up to the first reply that is not pruned |
| `Handler.Handler.Search` | internal/proxy/handler.go:182-243 | attempts are a prefix of the plan that ends at the first reply that is not pruned; the backend to be named |
| `Handler.Handler.ProxyWithRetry` | internal/proxy/handler.go:182-244 | serves by the retry path: attempts, reply, header, caching, recordings |
| `Handler.Handler.ProxyDirect` | internal/proxy/handler.go:169-177 | serves by the direct path: one attempt, whatever it answers |
| `Handler.Handler.Forward` | internal/proxy/handler.go:148-166 | chooses between the two paths |
| `Handler.Handler.FromCache` | internal/proxy/handler.go:118-132 | the unexpired entry for a cacheable request, which some backend once gave to that very request |
| `Handler.Handler.HandleRequest` | internal/proxy/handler.go:62-166 | every outcome: 400, 413, 403, 502, a hit exactly when the cache has an unexpired entry, or a relayed reply; what is tried, recorded and cached; the cache stays sound |
| `Handler.SearchStops` | internal/proxy/handler.go:184-216 | stopping at the first reply that is not pruned leaves only pruned ones before it |
| `Fallback.SearchRefinesFirstAnswer` | internal/proxy/handler.go:182-244 | the loops refine "first reply in plan order that is not pruned, else the last": attempts, reply and named backend |
| `Fallback.PrunedIffAllPruned` | internal/proxy/handler.go:182-244 | the client sees a pruned error if and only if every endpoint of the plan gives one |
| `Fallback.PlanReachesArchival` | internal/proxy/handler.go:148-240 | every archival endpoint that parses is in the plan of a request at a known height |
| `Fallback.ArchivalCompleteness` | internal/proxy/handler.go:112-244 | if some endpoint of the family's archival pool answers without a pruned error, so is the client answered, whichever way the request was routed |
| `Fallback.UndatedRequestsAreNotRetried` | internal/proxy/handler.go:152-165 | without a positive height only the routed endpoint is asked, and the client gets its answer, pruned or not |
| `Fallback.CompleteIffDated` | internal/proxy/handler.go:112-244 | given another archival endpoint, the client is answered for all behaviours of the backends in which that endpoint answers if and only if the height is positive |
| `Fallback.NoEndpointTwiceIff` | internal/proxy/handler.go:189-239 | when the URLs of both pools lead to different endpoints, the plan of a request that may be retried contacts no endpoint twice if and only if the routed URL is printed as it is written |
| `Fallback.NoEndpointTwice` | internal/proxy/handler.go:189-239 | then no endpoint is contacted twice, whatever the backends answer, and attempts do not exceed the two pools |
| `Fallback.RoutedAskedAgainIff` | internal/proxy/handler.go:189-240 | the plan goes back to the routed endpoint if and only if some URL of its pool that is not the printed routed URL, or some URL of the archival pool, leads there; an endpoint is what is contacted, whatever its spelling |
| `Fallback.RequestCountsGrowByAttempts` | internal/proxy/router.go:196-200 | request counts grow by the number of attempts, less one when the routed URL is not in its own pool |
| `CacheRuns.RunKeepsCacheSound` | internal/proxy/handler.go:278-289 | over every run each entry comes from a storable exchange |
| `CacheRuns.HitsAreBackendAnswers` | internal/cache/cache.go:77-109 | over every run what a request finds is a 200, non-pruned answer given to the same method, height and body, and only for positive heights and cacheable methods |
| `CacheRuns.ServedIsRun` | internal/proxy/handler.go:278-289 | what a served request does to the cache is a run of the machine: its exchanges, of which only the last can be kept |
| `CacheRuns.HandleNext` | internal/proxy/handler.go:62-166 | every request takes the handler along a run of the machine |
| `TokenStore.Store.constructor` | internal/auth/store.go:132-172 | the cache shows the table |
| `TokenStore.Store.LoadCache` | internal/auth/store.go:132-172 | the cache becomes the table's view, or stays as it was after a failure |
| `TokenStore.Store.Lookup` | internal/auth/store.go:175-191 | the cache's answer, after a reload when it is stale; with a coherent cache the table's answer |
| `TokenStore.Store.Create` | internal/auth/store.go:194-245 | exactly one new hash, meaning the request with its defaults; a failure changes nothing |
| `TokenStore.Store.Update` | internal/auth/store.go:281-327 | without overlap: exactly the row's own hash changes meaning; the four outcomes |
| `TokenStore.Store.Delete` | internal/auth/store.go:330-341 | exactly the row's hash loses its meaning; not found is an error |
| `TokenStore.Store.Rotate` | internal/auth/store.go:344-376 | the entry moves from the old hash to the new with its settings, exactly when the new hash is free |
| `TokenStore.Store.MigrateConfigTokens` | internal/auth/store.go:380-412 | table, number imported and failure as in the reference `Migrate`, for every pattern of failing statements; an error stops it without a reload |
| `TokenStore.FailedMigrationStopsAt` | internal/auth/store.go:380-412 | a failed import has imported what comes before some token, and stopped there because a statement did not run or the name is new and the hash is not |
| `TokenStore.ViewOfDelete` | internal/auth/store.go:330-341 | deleting a row removes exactly its hash from the map |
| `TokenStore.ViewOfReplace` | internal/auth/store.go:316-319 | replacing a row moves its key and nothing else |
| `TokenStore.RotateMovesOneKey` | internal/auth/store.go:358-366 | new hash means what the old one meant, the old one nothing, all others keep their meaning |
| `TokenStore.MethodsSurviveStorage` | internal/auth/store.go:156-158 | an allowed-methods list survives storage if and only if no method holds a comma and it is not one empty string |
| `TokenStore.AmendKeepsMethods` | internal/auth/store.go:302-309 | an update without a list leaves the stored list alone |
| `TokenStore.AmendedInfo` | internal/auth/store.go:290-309 | what an update changes for lookups, field by field |
| `TokenStore.SecondMigrationImportsNothing` | internal/auth/store.go:380-412 | importing the same configuration again imports nothing, and fails only when a query does |
| `TokenUpdates.UpdateSurvivesIff` | internal/auth/store.go:281-327 | what an update has written survives the later calls that do not set it if and only if every other update that read before and writes after had read those very settings |
| `TokenUpdates.LostUpdate` | internal/auth/store.go:281-327 | any update that leaves a field alone can undo a change of it, such as a token's being disabled |
| `TokenUpdates.OwnWriteSets` | internal/auth/store.go:309-319 | a write sets the fields that were given |
| `TokenUpdates.AloneIsAmended` | internal/auth/store.go:281-327 | an update that nothing overlaps does what `Store.Update` promises |
| `TokenUpdates.RotationAndDeletionSurvive` | internal/auth/store.go:316-363 | no update undoes a rotation or brings a deleted row back, however they overlap |
| `TokenStaleness.BoundedStaleness` | internal/auth/store.go:132-191 | in every interleaving with reloads that install within d, and whatever other reloads fail, a lookup whose own reload does not fail answers as the table did at some instant no earlier than TTL + d before the call and no later than its return |
| `TokenStaleness.RevokedTokenIsRefused` | internal/auth/store.go:330-376 | a deleted or rotated hash is accepted by no call that begins more than TTL + d after the commit and whose own reload does not fail |
| `TokenStaleness.OlderSnapshotWins` | internal/auth/store.go:166-169 | a timely run with two reloads in flight in which an older snapshot replaces a newer one |
| `TokenStaleness.MonotoneIffOneReload` | internal/auth/store.go:133-169 | the installed version never goes down in any run with at most k reloads in flight if and only if k is at most one |
| `TokenStaleness.BoundIsTight` | internal/auth/store.go:132-191 | for every TTL and d a timely run accepts a deleted token exactly TTL + d after the deletion |
| `TokenStaleness.FailedReloadKeepsRevokedToken` | internal/auth/store.go:183-188 | a lookup whose own reload fails, the only one to do so, accepts a deleted token however long ago the deletion was |
| `TokenStaleness.BoundHoldsIffLookupsReload` | internal/auth/store.go:173-191 | with installs within d, every answer of every run is at most TTL + d old if and only if the reloads of lookups may not fail, whether or not those of mutators may |
| `RateLimit.RedisRateLimiter.Allow` | internal/middleware/ratelimit_redis.go:40-62 | the four commands on the token's key only, the answer by the count before the add, and after a failing pipeline: allowed |
| `RateLimit.SeenIsRecent` | internal/middleware/ratelimit_redis.go:46-53 | the count compared with the limit is the number of distinct milliseconds of earlier requests within the last minute; key expiry never matters |
| `RateLimit.SlidingWindowBound` | internal/middleware/ratelimit_redis.go:40-62 | admitted requests fall into at most r distinct milliseconds of any one-minute window |
| `RateLimit.BurstIsAdmitted` | internal/middleware/ratelimit_redis.go:51 | any number of requests in one millisecond is admitted at limits of two or more |
| `RateLimit.RequestsBoundedIffRateAtMostOne` | internal/middleware/ratelimit_redis.go:40-62 | counted in requests the limit is a bound if and only if it is at most one |
| `RateLimit.RetryingTooFastStarves` | internal/middleware/ratelimit_redis.go:49-61 | rejected requests occupy the window: a client that retries too fast is served r times and never again |
| `RateInterleaving.ShortWindowBound` | internal/middleware/ratelimit_redis.go:40-62 | with at most k pipelines in flight, none longer than d, in any interleaving of their commands: at most r - 1 + min(k, d + 1) distinct milliseconds in any window of a minute less d |
| `RateInterleaving.ShortWindowBoundIsTight` | internal/middleware/ratelimit_redis.go:40-62 | some run of finished requests attains that bound |
| `RateInterleaving.LimitHoldsIffNoOverlap` | internal/middleware/ratelimit_redis.go:45-55 | the limit r bounds every minute of every run if and only if r is not positive, or at least 60000, or pipelines never overlap (k at most 1), or take no time (d = 0) |
| `RateInterleaving.OverlappingRequestsPass` | internal/middleware/ratelimit_redis.go:45-55 | the failing run: r - 1 requests alone and c at once, all of them admitted |
| `RateInterleaving.ExpiryIsHarmless` | internal/middleware/ratelimit_redis.go:53 | in every run the expiry of the key removes only what is two minutes old |
| `RateMinute.MinuteBound` | internal/middleware/ratelimit_redis.go:40-62 | in any window of a whole minute at most r - 1 + min(2k - 1, d + 1) distinct milliseconds |
| `RateMinute.MinuteBoundIsTight` | internal/middleware/ratelimit_redis.go:40-62 | some run of finished requests attains that bound |
| `Channels.KeptInOrder` | internal/logging/ringbuffer.go:36-42 | what gets through a bounded buffer is an in-order subsequence of what was sent |
| `Channels.NothingDroppedIff` | internal/logging/store.go:110-116 | nothing is dropped if and only if the buffer is never full at a send |
| `Subscribers.NeverSendsOnClosed` | internal/logging/ringbuffer.go:36-42 | no run of pushes, subscriptions and cancellations sends on a closed channel |
| `Subscribers.PanicsIffCancelledTwice` | internal/logging/ringbuffer.go:86-91 | a close panics if and only if some cancel function was called twice |
| `Subscribers.SubscribersReceiveInOrder` | internal/logging/ringbuffer.go:25-43 | each subscriber gets the entries pushed while registered, in order, except those for which its 100 slots were full |
| `Subscribers.NextSound` | internal/logging/ringbuffer.go:25-93 | every atomic step keeps the feed invariant |
| `RingBuffer.RingBuffer.constructor` | internal/logging/ringbuffer.go:16-21 | an empty buffer without subscribers |
| `RingBuffer.RingBuffer.Store` | internal/logging/ringbuffer.go:29-33 | after any number of wraparounds the last min(pushes, capacity) entries are in their slots |
| `RingBuffer.HoldsOneMore` | internal/logging/ringbuffer.go:29-33 | storing at the head keeps each of the last min(pushes, capacity) entries in its slot |
| `RingBuffer.RingBuffer.Notify` | internal/logging/ringbuffer.go:36-42 | every subscriber's channel, and no other, is offered the entry |
| `RingBuffer.RingBuffer.Push` | internal/logging/ringbuffer.go:25-43 | a push is the machine's push step, on the buffer and all channels |
| `RingBuffer.RingBuffer.Entries` | internal/logging/ringbuffer.go:46-66 | the last min(limit, size) pushes, newest first; limits of zero or less, or above the size, mean all |
| `RingBuffer.RingBuffer.Subscribe` | internal/logging/ringbuffer.go:77-92 | registers a new empty channel |
| `RingBuffer.RingBuffer.Cancel` | internal/logging/ringbuffer.go:86-91 | deletes and then closes one channel |
| `LogPipeline.NothingIsLost` | internal/logging/store.go:110-151 | in every reachable state written, batch and queue together are the pushes without the dropped ones, in order; a drop happens exactly at 1000 waiting entries |
| `LogPipeline.ShutdownWritesEverything` | internal/logging/store.go:141-148 | after shutdown every accepted entry was handed over exactly once, in order |
| `LogPipeline.BatchesAreBounded` | internal/logging/store.go:134-148 | the batch stays under 100; writes have at most 100 entries, the last one at most 1099 |
| `LogPipeline.PanicsIffPushedAfterStop` | internal/logging/store.go:141-143 | a push panics if and only if the writer had begun to shut down |
| `LogPipeline.LogStore.Push` | internal/logging/store.go:110-116 | a push is the machine's push step |
| `LogPipeline.LogStore.Take` | internal/logging/store.go:134-138 | receives one entry, and writes a full batch |
| `LogPipeline.LogStore.Tick` | internal/logging/store.go:124-130 | everything received before a tick is written |
| `LogPipeline.LogStore.Shutdown` | internal/logging/store.go:141-148 | the rest is written as one batch, after which everything accepted is written |
| `LogInsert.WriteBatch` | internal/logging/store_postgres.go:122-148 | the statement describes exactly the batch's rows, every column bound to the matching field; placeholders are 1 to 12n |
| `LogInsert.InsertedRowsAreUnique` | internal/logging/store_postgres.go:131-147 | a statement describes at most one list of rows |
| `LogInsert.PlaceholdersAreConsecutive` | internal/logging/store_postgres.go:136-139 | the placeholders of n rows are $1 to $12n without a gap |
| `LogInsert.PipelineBatchesFit` | internal/logging/store_postgres.go:88-148 | a batch of the pipeline binds at most 13188 parameters |
| `LogInsert.WriteEach` | internal/logging/store.go:153-175 | stores the entries that the database accepts, in order, or nothing when the transaction fails |
| `LogInsert.DialectsStoreTheSameIff` | internal/logging/store_postgres.go:147 | a transaction that goes through and the single statement store the same rows if and only if all entries or none are accepted |
| `LogQuery.BuildQuery` | internal/logging/store.go:227-300 | SQLite's query holds of exactly the matching rows, with the order and clamped limit only for row queries |
| `LogQuery.PgBuildQuery` | internal/logging/store_postgres.go:201-271 | PostgreSQL's query holds of exactly the matching rows, the i-th condition with placeholder $i |
| `LogQuery.ClausesMean` | internal/logging/store.go:231-274 | the collected conditions mean the search |
| `LogPaging.QuerySqlite` | internal/logging/store.go:195-218 | the entries of the matching rows, ordered and limited |
| `LogPaging.QueryPg` | internal/logging/store_postgres.go:168-191 | the same entries |
| `LogPaging.CountSqlite` | internal/logging/store.go:220-225 | the number of matching rows, whatever order and limit |
| `LogPaging.CountPg` | internal/logging/store_postgres.go:193-198 | the same number |
| `LogPaging.NextCursor` | internal/logging/store.go:267-274 | with the k-th row's id as the cursor a search wants exactly the rows after it |
| `LogPaging.PagingIsComplete` | internal/logging/store.go:195-300 | repeating a search with the last row's id visits every matching row exactly once, in order, and ends |
| `LogPaging.PagesAreFull` | internal/logging/store.go:289-296 | no page is empty or longer than the limit, and only the last is shorter |
| `LogPaging.CountIsNumberPaged` | internal/logging/store.go:220-225 | a count equals the number of rows on all pages |
| `LogPaging.WantedExactly` | internal/logging/store.go:227-300 | what a search wants are the table's matching rows, each once, in id order |
| `LogPagingLive.NothingTwice` | internal/logging/store.go:195-300 | whatever is appended or deleted between the queries, paging visits nothing twice or out of order, and only rows that match and were there |
| `LogPagingLive.WhatStaysIsVisited` | internal/logging/store.go:195-300 | every matching row that is there at every query is visited |
| `LogPagingLive.AscendingFollows` | internal/logging/store.go:264-300 | while the writer appends, ascending pages are together what the table holds at the last query |
| `LogPagingLive.DescendingIsSnapshot` | internal/logging/store.go:264-300 | while the writer appends, descending pages are together what the table held at the first query |

## Left out

- Floating point: latencies are reals, so rounding, infinities and the difference between 0 and -0 are not modelled;
  the start value of the selection loop is a constant that no preferred average reaches.
- SHA-256, random tokens, JSON decoding, URL parsing and printing: functions or values passed in. `KeyIsInjective` assumes
  digests without colons, `HitsAreBackendAnswers` that bodies in play have different digests.
- The HTTP client and `httputil.ReverseProxy`: a request's k-th attempt gets an arbitrary reply or none. Headers other
  than the named backend, content encodings, a direct-path body whose reading fails, and streaming are not modelled.
- Paths and query strings beyond the height: the cache key ignores them in the program too, so soundness is about
  method, height and body.
- Text.ToLower: covers ASCII letters only; the phrases looked for are ASCII.
- SQLite, PostgreSQL and Redis: tables in key order, condition lists with an evaluator for each dialect, and maps. SQL
  text is a list of columns, conditions and placeholders. Column types, time zones and NULL errors are not modelled.
- Balancer.Next: the exploration branch takes any draw; nothing probabilistic is stated.
- Latency.Ewma.Update: other goroutines appear as the samples they commit between a load and its swap; the full
  interleaving is in `LatencyInterleaving`.
- Router.BuildBalancers: one loop over the six backends for the six assignments.
- Handler.Handler.Search: the one retry function of the program is split into `TryNext`, `TryURL`, `TryPool` and `Search`; the
  request body is passed along instead of being rewound.
- BalancerInterleaving.PickedIsUncommittedIff: for positive samples; a sample of zero is the sentinel again. Reading the
  count and reading the value of an endpoint are one step.
- Fallback.ArchivalCompleteness: assumes that printing the routed URL and parsing it again gives the same URL.
- TokenStore.Store.Update: reads and writes in one step; `TokenUpdates` takes the two apart, for one row and without the
  cache. Overlapping commits, reloads and lookups are in `TokenStaleness`, where a commit may put any table in place of
  the old one.
- TokenStore.Store.MigrateConfigTokens: an insert fails on a repeated hash or for a reason passed in; a failed import
  leaves its rows in the table and the cache as it was.
- RateLimit.SlidingWindowBound: for calls whose commands do not interleave and do not fail, with callers' clocks that
  do not run backwards. `RateInterleaving` covers interleaved commands, with one clock and one limit for all callers; a
  failing pipeline lets its request through, as `Allow` says, and is not part of the traces.
- RateMinute.MinuteBound: for pipelines of at most a minute, as all results about interleaved pipelines.
- RingBuffer.RingBuffer.Cancel: runs its two halves together; `Subscribers` interleaves them.
- LogPipeline.LogStore.Shutdown: drains in one call, which nothing but panicking pushes could interleave with; `Drain` and
  `Finish` are separate steps of the machine. `Close` waits 100 ms before it closes the database, so a slower last
  write can be lost; what is proved is that every entry is handed to the write.
- LogQuery.BuildQuery: the ten optional conditions go through one helper, and the base statement is a flag for rows or
  count in place of its text.
- LogPaging.PagingIsComplete: for a table that does not change meanwhile and ids that count from 1; `LogPagingLive`
  covers tables that change. The log entries that the stores return carry no id, so the cursor is that of the row.
- Fallback.RoutedAskedAgainIff: `place`, the scheme and host of a printed URL, is a function passed in.
- Forwarding of gRPC, TCP and WebSocket streams, the in-process token bucket, the Loki exporter, the admin interface,
  configuration, metrics, tracing, health probes, retention and backend statistics are not part of this model.
