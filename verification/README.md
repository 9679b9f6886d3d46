# A verified model of node-gateway's routing core

node-gateway balances JSON-RPC requests over the upstream nodes of a blockchain. This project models
the stateful components that decide where a request goes and what comes back, and proves properties
of them over all inputs, all runs and all interleavings.

- **Block-height store** (`ChainStore`, `StoreProtocol`, `HeightFilters`): closures sent over one
  unbuffered channel to one consumer. The store is linearizable, cannot deadlock, and its answers are
  described by the history of reports alone. While heights do not go down, some upstream passes both
  height filters in any pass that no report interrupts; exactly which interruptions can reject
  everybody is characterized.
- **Block-height checker and health-check manager** (`BlockHeightCheck`, `HealthManager`): the
  goroutines that feed the store, as steps.
- **Configuration** (`StringLists`, `ConfigSpec`, `ConfigHeap`, `Topology`): default resolution with
  the pointers the code really shares, proved equal to a resolver that copies.
- **Routing** (`NodeFilters`, `RoundRobin`, `Filtering`, `AlwaysRoute`, `Router`): grouping, filtering,
  graceful degradation, priority choice, round-robin and the final lookup, end to end.
- **Response cache** (`RequestExecutor`, `CacheProtocol`): one exchange with its exact number of
  origin calls, and the two-level cache over arbitrary runs, of which the executor's requests are
  proved to be steps.
- **Error classification** (`ErrorMatching`): wildcard patterns and what merging lists does to verdicts.

Code that changes fields in place is a class whose methods are proved against functions; code made of
concurrent goroutines is a transition system whose steps are the goroutines' own writes, sends and
receives. Where an object's methods take part in such a system, their contracts say which of its
steps they are when they run undisturbed.

Where the code and its comments or names disagree, the model follows the code:

- `ErrorCheck.RecordRequest` is documented to return whether an error was recorded. A failed HTTP
  exchange always yields true (`ErrorMatching.ResultDisagreesIff` says exactly when that is wrong).
- The sum in the "near global maximum" filter wraps, so the verdict is the intended one exactly when it
  does not (`HeightFilters.CloseIsAsIntendedIffNoWrap`).
- Setting defaults twice is not idempotent for a whole configuration, shared sections included
  (`ConfigHeap.Config.SetDefaultsTwice` gives the exact condition, `ConfigHeap.LeftOutChain` a
  configuration that fails it); it is for a single section (`ConfigHeap.RoutingConfig.SetDefaults`).
- A chain's own latency section threshold may stay non-positive
  (`ConfigSpec.SectionThresholdPositiveIff`).
- A WebSocket subscription that ends without an error leaves its upstream without any source of block
  heights, for good (`BlockHeightCheck.HasSourceIff`, `BlockHeightCheck.CleanCloseSilences`).
- Cache keys are not injective (`RequestExecutor.KeysCollideIff` says when, for all requests).
- Writes to the cache are set-if-absent only in Redis; a losing write still replaces the local copy,
  so two hits can disagree although nothing expired (`CacheProtocol.LosingWriteIsServed`,
  `CacheProtocol.TwoMissesRace`). `CacheProtocol.HitsAgreeIff` says exactly when they agree.
- The height filters ask the store again for each upstream, so a report between two questions can
  make a pass reject everybody (`HeightFilters.PassRejectsEveryoneIff` says exactly when,
  `HeightFilters.OvertakerRejectsEveryone` shows the ordinary case).
- A header that a poll has received is dropped if the listener's error handler runs at the wrong moment
  (`BlockHeightCheck.HeaderDroppedIff`).

## Model

| member | source | states |
|---|---|---|
| ChainStore.FoldMaximum | internal/metadata/store.go:39-41 | after any sequence of closures the global maximum and every group's maximum are the largest height ever reported in that scope |
| ChainStore.AnswerMeaning | internal/metadata/store.go:51-67 | an answer is determined by the history: maxima of the reports, the upstream's latest reported height, the error set by whatever last touched the upstream |
| ChainStore.MaximaGrow | internal/metadata/store.go:69-76 | maxima never go down |
| ChainStore.HeightsBelowMaxima | internal/metadata/store.go:69-76 | an upstream's height is at most its group's maximum, which is at most the global one; testing height >= group maximum is testing equality with the maximum |
| ChainStore.ChainMetadataStore.RunHeightUpdate | internal/metadata/store.go:69-76 | the closure of a height report updates the four fields as the sequential store does |
| ChainStore.ChainMetadataStore.RunErrorUpdate | internal/metadata/store.go:78-82 | the closure of an error report sets that upstream's error and nothing else |
| ChainStore.ChainMetadataStore.RunRead | internal/metadata/store.go:53-61 | the closure of a read builds the answer from the current fields |
| ChainStore.ChainMetadataStore.Consume | internal/metadata/store.go:31-37 | the consumer loop: final state is the fold, and each reply describes exactly the closures delivered before it |
| StoreProtocol.StepKeepsInv | internal/metadata/store.go:31-82 | every step of every caller and of the consumer keeps: memory is the fold of the delivered closures plus the writes already done of the running one |
| StoreProtocol.Linearizable | internal/metadata/store.go:31-82 | in every interleaving a reply equals the fold of the closures delivered before it, and that prefix holds every call that had returned before this one was made |
| StoreProtocol.RepliesDescribeDelivery | internal/metadata/store.go:51-67 | in every run each reply describes the history delivered before it |
| StoreProtocol.ReadsSeeReturnedReports | internal/metadata/store.go:51-76 | a read made after a height report returned sees maxima at least that height |
| StoreProtocol.ReadsSeeMaximaGrow | internal/metadata/store.go:51-67 | of two reads, one made after the other returned, the later never sees a smaller maximum |
| StoreProtocol.Progress | internal/metadata/store.go:31-37 | no deadlock: once started, an unfinished call means an enabled step |
| StoreProtocol.StepsDecreaseMeasure | internal/metadata/store.go:31-37 | without new calls every step decreases a non-negative measure |
| StoreProtocol.EveryCallFinishes | internal/metadata/store.go:31-82 | once calls stop arriving the number of further steps is bounded, and a run that cannot continue has finished every call |
| StoreProtocol.UpdatesReturnBeforeTheyRun | internal/metadata/store.go:69-76 | a run in which a report has returned while memory is still empty |
| HeightFilters.CloseIsAsIntendedIffNoWrap | internal/route/node_filter.go:170-193 | the near-maximum verdict is "at most maxBlocksBehind behind" exactly when the uint64 sum does not wrap |
| HeightFilters.SettingMeaning | internal/route/node_filter.go:325-335 | a non-negative setting is how many blocks behind an upstream may be, ten if it is zero |
| HeightFilters.NegativeSettingPassesIff | internal/route/node_filter.go:325-335 | with a negative maxBlocksBehind -a an upstream passes exactly when it has no error, has reported fewer than a blocks and is at most 2^64 - a behind |
| HeightFilters.SomeUpstreamPasses | internal/route/node_filter.go:165-236 | at any single moment of a history in which heights do not go down and nobody has an error at that moment, the holder of the global maximum passes both height filters |
| HeightFilters.PassesIff | internal/route/node_filter.go:165-236 | for any history: an upstream passes both filters at one moment exactly when it has no error, its latest report is not below any of its group (unless alone) and within maxBlocksBehind of any at all |
| HeightFilters.QuietReadsLeaveSomeone | internal/route/node_filter.go:165-236 | with each question put to the store separately: as long as nothing is reported between the first and the last, some upstream passes, whenever in between each is answered |
| HeightFilters.EveryScheduleLeavesSomeoneIff | internal/route/filtering_strategy.go:48-63 | if upstreams may be asked in any order: every timing of the separate questions within a window leaves some upstream exactly when one upstream passes throughout the window |
| HeightFilters.PassRejectsEveryoneIff | internal/route/filtering_strategy.go:53-58 | for any history: a pass in listed order, each upstream asked by the group filter first, can reject everybody exactly when asking each in turn as early as it is refused stays within the window |
| HeightFilters.OvertakingRejectsEveryoneIff | internal/route/filtering_strategy.go:53-58 | where one upstream passes at a time, that is when a report in the window makes an upstream listed earlier the one that passes |
| HeightFilters.OvertakerRejectsEveryone | internal/route/node_filter.go:201-235 | with any number of upstreams level at the maximum: if the first listed lags and then overtakes, a pass around its report rejects everybody |
| HeightFilters.RunHasPassingUpstream | internal/server/object_graph.go:52-57 | in every run of the store with its callers, a filtering pass in the wired order of filters, during which nothing is reported, leaves some upstream, on the answers it actually got |
| HeightFilters.RunLeavesSomeoneUnless | internal/server/object_graph.go:52-57 | in every run, reports or not, a pass in listed order leaves some upstream on its answers unless the history lets everybody be refused in turn within its window |
| HeightFilters.SomeoneAtGroupMaxIff | internal/route/node_filter.go:213-235 | for any history: somebody is at the group's maximum exactly when somebody without an error has a latest report that is not below any the group has made |
| HeightFilters.GoingBackRejectsEveryone | internal/route/node_filter.go:213-218 | an example: one upstream goes back and no upstream of the group passes |
| HeightFilters.SeparateReadsCanRejectEveryone | internal/route/node_filter.go:201-235 | an example with rising heights in which a report between two questions makes both upstreams fail |
| Topology.IsGroupsValid | internal/config/config.go:149-173 | true exactly when group IDs and priorities are pairwise distinct |
| Topology.IsUpstreamsValid | internal/config/config.go:82-95 | true exactly when upstream IDs are pairwise distinct |
| Topology.IsUpstreamValid | internal/config/config.go:38-80 | true exactly for an upstream with URL, type, a WebSocket URL if demanded, and a declared group if groups are declared, written out |
| Topology.IsTopologyValid | internal/config/config.go:583-592 | the part of chain validation that routing relies on |
| NodeFilters.Apply | internal/route/node_filter.go:38-59 | applying a filter tree, with early exit, gives the conjunction of its parts' verdicts |
| NodeFilters.ApplyMethodsAllowed | internal/route/node_filter.go:255-287 | every requested method is not disabled, and explicitly enabled if it needs an archive node and the upstream is a full one |
| NodeFilters.MethodsAllowed | internal/route/node_filter.go:263-284 | a disabled method is refused; a full node serves archive methods only if enabled; everything else is served |
| NodeFilters.ArchiveMethods | internal/route/node_filter.go:238-249 | which methods need an archive node |
| NodeFilters.NestingFlattens | internal/route/node_filter.go:38-59 | a nested AND passes exactly when all its leaves do |
| RoundRobin.IndexInRangeIff | internal/route/routing_strategy.go:56 | the index is in range exactly while the counter is below 2^63 or the length happens to divide it |
| RoundRobin.PriorityRoundRobinStrategy.RouteNextRequest | internal/route/routing_strategy.go:43-63 | picks from the list at the smallest priority number that has upstreams, by the incremented counter; otherwise an error and an unchanged counter |
| RoundRobin.CounterMeaning | internal/route/routing_strategy.go:50-62 | only a call that finds an upstream moves the counter, by one, and it wraps |
| RoundRobin.CallsSelect | internal/route/routing_strategy.go:50-57 | the i-th of consecutive calls picks the upstream at position (counter + 1 + i) modulo the list length |
| RoundRobin.Fair | internal/route/routing_strategy.go:54-56 | any n consecutive calls select each index once; over any number of calls two indices differ by at most one |
| RoundRobin.CallsAreFair | internal/route/routing_strategy.go:43-63 | the same for the upstream IDs returned by calls over one map |
| RoundRobin.ConcurrentCallsInRange | internal/route/routing_strategy.go:54-56 | with increment and read as separate steps: the counter counts increments, each call reads at least its own ticket, the index is in bounds below 2^63 |
| RoundRobin.ReadsOwnTicketIff | internal/route/routing_strategy.go:54-56 | what a call reads exceeds its own ticket by the number of increments between its increment and its read, so it is its own exactly when there is none |
| RoundRobin.ConcurrentCallsCanCollide | internal/route/routing_strategy.go:54-56 | an example of two concurrent calls that read the same value |
| Filtering.FilterUpstreams | internal/route/filtering_strategy.go:36-66 | the surviving upstreams per priority, each filter being told the unfiltered size of the priority |
| Filtering.DroppingFiltersGrows | internal/route/filtering_strategy.go:51-58 | with fewer filters the list at a priority is a supersequence in the same order |
| Filtering.SurvivorsByAnd | internal/route/filtering_strategy.go:42-46 | filtering by one AND filter is filtering by its parts |
| Filtering.NoFiltersRouteAlike | internal/route/filtering_strategy.go:36-66 | routing over the result of filtering by nothing is routing over the original map |
| Filtering.SurvivorsNonEmpty | internal/route/filtering_strategy.go:60-62 | the filtered map is non-empty exactly when some upstream passes every filter |
| Filtering.FilteringRoutingStrategy.RouteNextRequest | internal/route/filtering_strategy.go:16-22 | the backing strategy's decision over the survivors of the filter |
| AlwaysRoute.RemoveFilters | internal/route/always_route_filtering_strategy.go:66-76 | the filters of all other types, in order |
| AlwaysRoute.AfterDropsMeaning | internal/route/always_route_filtering_strategy.go:44-48 | a filter survives k removals exactly when it is not of one of the last k removable types |
| AlwaysRoute.DropsGrow | internal/route/always_route_filtering_strategy.go:44-48 | each removal only grows every priority's list, in order |
| AlwaysRoute.AlwaysRouteFilteringStrategy.RouteNextRequest | internal/route/always_route_filtering_strategy.go:16-63 | routes over the least degradation that leaves an upstream, else over everything; errs only if there is no upstream; needs at most one pass per removable filter plus one |
| AlwaysRoute.LeastDegradation | internal/route/always_route_filtering_strategy.go:25-63 | if k removals leave an upstream and fewer leave none, exactly the upstreams passing the filters left after k removals are offered |
| AlwaysRoute.RefinesFiltering | internal/route/always_route_filtering_strategy.go:24-37 | when plain filtering finds an upstream, always-route decides the same and leaves the same counter |
| AlwaysRoute.RouteBothWays | internal/server/object_graph.go:93-109 | the two strategies run side by side: same choice and counter whenever the plain one succeeds |
| AlwaysRoute.WiredDegradation | internal/server/object_graph.go:87-102 | as wired, latency is given up first, then the error rate, the chain's own filter never |
| Router.GroupUpstreamsByPriority | internal/route/router.go:71-94 | groups upstreams under the priority of their first matching group, 0 without one |
| Router.GroupingPartitions | internal/route/router.go:71-94 | grouping is an order-preserving partition: every upstream lands at its own priority as often as configured and nowhere else |
| Router.PriorityIdentifiesGroup | internal/config/config.go:58-77 | in a valid chain with groups, equal priority means equal group |
| Router.LoneUpstreamIff | internal/route/node_filter.go:213-222 | the number passed to filters is 1 exactly when the upstream is alone in carrying its group ID |
| Router.LookupConfig | internal/route/router.go:116-122 | the last configuration with the ID, the zero value if there is none |
| Router.PickIsOptimal | internal/route/router.go:109-122 | the upstream picked passes all filters, none at a smaller priority number does, and it is the only one with the returned ID |
| Router.NothingPickedIff | internal/route/routing_strategy.go:62 | an error exactly when no configured upstream passes |
| Router.AlwaysPickIsOptimal | internal/route/always_route_filtering_strategy.go:34-62 | always-route's pick is optimal among what the least degradation leaves, at the smallest priority number when none leaves anything, and the only one with its ID |
| Router.SteadyHeightsRoute | internal/server/object_graph.go:52-64 | in every run of the store: if nothing is reported during the wired filters' questions, heights had not gone down, nobody had an error, and peers and methods rule nobody out, routing finds an upstream |
| Router.HeightsRejectAllIff | internal/server/object_graph.go:52-64 | routing behind the wired filter fails exactly when every upstream is ruled out by peers or methods or rejected on its own two answers |
| Router.UngroupedAtZero | internal/route/router.go:75-79 | without groups everybody has priority 0, in configured order |
| Router.WiredVerdicts | internal/server/object_graph.go:52-102 | what the wired filters ask after k removals: peers, methods and heights always, the error rate until the second, latency until the first |
| Router.WiredAlwaysPick | internal/server/object_graph.go:87-102 | always-route as wired picks from the best tier of verdicts that has anybody, at its smallest priority number, and from everybody if no tier has |
| Router.Wire | internal/server/object_graph.go:66-109 | always-route exactly if the resolved options say so, with the wired filters and removals, and a fresh counter |
| Router.BestAreOptimal | internal/route/routing_strategy.go:47-60 | the upstreams chosen among are exactly the optimal ones |
| Router.RequestsAreFair | internal/route/routing_strategy.go:54-56 | while verdicts stay, two optimal upstreams are picked equally often up to one, and each once over as many requests as there are |
| Router.SimpleRouter.Route | internal/route/router.go:105-127 | for every valid chain and either strategy: the strategy's one decision and its counter, the only configuration with the picked ID, optimal, or an error exactly when the strategy has nothing to offer |
| Router.SimpleRouter.RouteRequests | internal/route/router.go:105-127 | consecutive requests make the consecutive decisions whose fairness is proved |
| StringLists.SortAndRemoveDuplicatesMeaning | internal/config/config.go:242-246 | strictly increasing, with exactly the given elements |
| StringLists.OnlyElementsMatter | internal/config/config.go:242-246 | the result does not depend on order or repetition |
| ConfigSpec.ChainOptions | internal/config/config.go:381-452 | every option of a resolved chain comes from the chain, else the global section, else the default (windows of 1 and 5 minutes, rate 0.25, no always-route); a chain is left alone exactly when neither configures anything |
| ConfigSpec.GlobalOptions | internal/config/config.go:381-452 | the same for the global section, whose error lists keep their elements |
| ConfigSpec.ChainThresholds | internal/config/config.go:312-342 | a chain's latency map is positive, covers exactly its own and the global methods, the last entry of a name decides, with the documented precedence |
| ConfigSpec.GlobalThresholds | internal/config/config.go:312-342 | the same for the global map |
| ConfigSpec.SectionThresholdPositiveIff | internal/config/config.go:283-302 | when the section's own threshold ends up positive |
| ConfigSpec.ResolveGlobalLatencyIsIdempotent | internal/config/config.go:312-342 | initializing a resolved global latency section again changes nothing |
| ConfigSpec.TidyGlobalResolvesAlike | internal/config/config.go:211-225 | a chain resolves the same against tidied global lists |
| ConfigSpec.SelfMergeTidies | internal/config/config.go:211-225 | merging an error section with itself only sorts and de-duplicates its lists |
| ConfigSpec.SecondTimeChangesNothingIff | internal/config/config.go:602-634 | on values, list tidying included: a second time changes nothing exactly when the first has left no chain behind |
| ConfigHeap.LatencyConfig.GetLatencyThreshold | internal/config/config.go:283-302 | the section's threshold, else the global one's, else the default, filled in where it was missing, in the global section too |
| ConfigHeap.LatencyConfig.Initialize | internal/config/config.go:312-342 | alone, against another section, or against itself, where it ends as it began |
| ConfigHeap.LatencyConfig.Merge | internal/config/config.go:271-281 | adds the missing entries, also when merged with itself |
| ConfigHeap.ErrorsConfig.Merge | internal/config/config.go:211-225 | the lists merged, sorted and without duplicates, also when merged with itself |
| ConfigHeap.ErrorsConfig.Initialize | internal/config/config.go:227-240 | a missing rate comes from the global section, else the default |
| ConfigHeap.RoutingConfig.SetDefaultsAlone | internal/config/config.go:381-452 | the defaults without a global section |
| ConfigHeap.RoutingConfig.SetDefaults | internal/config/config.go:381-452 | the value the copying resolver gives, with shared pointers where the chain had none; the global section initialized on demand and changed at most by tidying; nothing if the section, shared or not, is initialized |
| ConfigHeap.Config.SetDefaults | internal/config/config.go:627-634 | from a parsed configuration or one already sharing sections: every chain ends up as the copying resolver says, whatever the other chains and their order, the global section changes at most by tidied error lists, and the method can be called again |
| ConfigHeap.Config.SetDefaultsTwice | internal/config/config.go:602-634 | on the shared sections: the second call changes no value exactly when the global section is configured, or every chain still to be resolved configures something, or none does |
| ConfigHeap.LeftOutIsResolvedLater | internal/config/config.go:602-634 | the failing values: one chain with an option, one without, no global ones |
| ConfigHeap.LeftOutChain | internal/config/config.go:602-634 | on any sections with those values the first call leaves the second chain alone and the second call resolves it |
| ErrorMatching.HundredsMatch | internal/checks/error.go:91-110 | 5xx and 5XX match the codes of three characters that begin with 5 |
| ErrorMatching.ContainsIff | internal/checks/error.go:112-129 | a substring may stand anywhere |
| ErrorMatching.IsMatch | internal/checks/error.go:91-110 | same length, and every position equal or a wildcard |
| ErrorMatching.IsMatchForPatterns | internal/checks/error.go:73-89 | a non-empty code that matches some pattern, any pattern list being satisfied when empty |
| ErrorMatching.IsErrorMatches | internal/checks/error.go:112-129 | a non-empty message that contains some substring, an empty list being satisfied by any |
| ErrorMatching.IsError | internal/checks/error.go:63-71 | an error by HTTP code, JSON-RPC code or message |
| ErrorMatching.MergedVerdict | internal/config/config.go:211-225 | merged lists match what either matches when both are non-empty, what the non-empty one matches otherwise |
| ErrorMatching.MergingIsEitherIff | internal/checks/error.go:78-80 | merging is "match either" exactly when no empty list is merged into one that rejects the text, for codes and for messages |
| ErrorMatching.MergedSectionVerdict | internal/checks/error.go:63-71 | the verdict of a merged section, list by list, whichever lists are configured |
| ErrorMatching.ResolvedChainVerdict | internal/config/config.go:433-446 | the verdict of a chain as configured, missing sections included |
| ErrorMatching.TidyKeepsVerdicts | internal/config/config.go:242-246 | sorting, de-duplicating and self-merging never change a verdict |
| ErrorMatching.ErrorCheck.RecordRequest | internal/checks/error.go:177-243 | a failed exchange is one record, of its HTTP code and text; otherwise each sub-response is one, of its JSON-RPC code and message; and the result returned |
| ErrorMatching.ResultDisagreesIff | internal/checks/error.go:177-200 | the result differs from "an error was recorded" exactly for a failed exchange that matches no pattern |
| RequestExecutor.CreateRequestKey | internal/cache/rpc_cache.go:207-218 | chain, method and bracketed comma-separated parameters, joined by colons |
| RequestExecutor.KeysCollideIff | internal/cache/rpc_cache.go:207-218 | for all requests: two share a key exactly when chain:method agree and the parameters cut at commas do, or one head runs into the other's parameters |
| RequestExecutor.PlainKeysCollideIff | internal/cache/rpc_cache.go:207-218 | for chain and method names without colons: same chain, same method, same comma-separated pieces |
| RequestExecutor.JoinsCollideIff | internal/cache/rpc_cache.go:210-215 | joined parameter lists are equal exactly when their pieces are |
| RequestExecutor.ChainsDoNotCollide | internal/cache/rpc_cache.go:217 | chains with colon-free names share one Redis without touching each other's keys |
| RequestExecutor.CommasCollide | internal/cache/rpc_cache.go:207-218 | wherever a parameter holds a comma, the request with it cut in two is another one with the same key |
| RequestExecutor.StorableIff | internal/cache/rpc_cache.go:285-306 | exactly which replies may be kept |
| RequestExecutor.Executor.CachedIff | internal/config/config.go:541-547 | which requests go through the cache: single ones whose method has a positive lifetime of its own or in general |
| RequestExecutor.OriginFunc.Call | internal/route/request_executor.go:136-162 | one origin call, the captured variables and the error class reported to the cache |
| RequestExecutor.RPCCache.Get | internal/cache/rpc_cache.go:120-157 | a local copy or the entry in Redis, which then becomes the local copy; a failing Redis does not matter to a local copy |
| RequestExecutor.RPCCache.Set | internal/cache/rpc_cache.go:159-167 | the local copy is replaced, Redis keeps what it has |
| RequestExecutor.RPCCache.HandleRequestParallel | internal/cache/rpc_cache.go:262-309 | a hit calls nobody; a miss calls the origin once and hands exactly a storable result to the cache |
| RequestExecutor.Executor.RetrieveOrCacheRequest | internal/route/request_executor.go:130-204 | a hit is answered under the requester's id and version; a miss passes a single reply through |
| RequestExecutor.Executor.RouteToConfig | internal/route/request_executor.go:58-120 | nothing for a request that cannot be built; no origin call on a hit; otherwise one, or two exactly when the first reply was read but is not a single response; body, status and error of the last reply by what it was; what is stored; a notification that hits panics |
| CacheProtocol.StepKeepsInv | internal/cache/rpc_cache.go:264-309 | every step keeps: all values in either level, on the way between them, pending and served come from a storable reply for the same key |
| CacheProtocol.ServedValuesAreGenuine | internal/cache/rpc_cache.go:264-309 | over any run, other chains writing to the shared Redis included, whatever is served carries its requester's id and version and the non-null result of an earlier error-free single reply for the same key |
| CacheProtocol.HitsAgreeIff | internal/cache/rpc_cache.go:120-167 | until a write of another value lands, all hits on a key are served v exactly when v is all that both levels, and what is under way between them, hold for it |
| CacheProtocol.LosingWriteIsServed | internal/cache/rpc_cache.go:159-167 | with a local copy and a spawned write for the same key, the next two hits get one value and then the other, without any expiry |
| CacheProtocol.TwoMissesRace | internal/cache/rpc_cache.go:276-306 | two requests that miss together reach such a state |
| CacheProtocol.RedisKeepsFirst | internal/cache/rpc_cache.go:159-167 | in Redis the first write wins until the entry expires there |
| CacheProtocol.AtMostTwoCalls | internal/route/request_executor.go:94-119 | in any run a request calls the origin at most twice, and not at all while it has not missed |
| CacheProtocol.RouteInSteps | internal/route/request_executor.go:94-204 | from any state of the cache, the executor's handling of a cached request is a run of the protocol's steps: same cache, same answer, as many origin calls |
| CacheProtocol.SetInSteps | internal/cache/rpc_cache.go:159-167 | so is a spawned write |
| BlockHeightCheck.WantsWSIff | internal/checks/blockheight.go:64-77 | with a WebSocket URL everybody listens who does not refuse; so does every valid upstream that demands it |
| BlockHeightCheck.Checker.Initialize | internal/checks/blockheight.go:54-89 | starting a checker is the system's first steps run undisturbed; who listens, and what failures leave and report |
| BlockHeightCheck.Checker.OnNewHead | internal/checks/blockheight.go:162-170 | the new-head handler is the listener's five write steps run undisturbed; the head's height is kept and reported, errors cleared |
| BlockHeightCheck.Checker.OnError | internal/checks/blockheight.go:172-178 | the error handler is the listener's three write steps run undisturbed, after which it has ended; the failure is kept and reported |
| BlockHeightCheck.Checker.RunCheck | internal/checks/blockheight.go:91-131 | a check is the poller's steps run undisturbed: it polls only without a live WebSocket, gets a missing client first, keeps and reports the polled height, and keeps a failed poll to itself |
| BlockHeightCheck.StepsAreRun | internal/checks/blockheight.go:54-131 | the steps that the object's methods are from the start form one of the interleavings below |
| BlockHeightCheck.StepKeepsInv | internal/checks/blockheight.go:161-230 | the WebSocket error is set exactly when the listener has stopped listening, a clean close aside |
| BlockHeightCheck.SwitchesAtMostOnce | internal/checks/blockheight.go:91-101 | in every interleaving, after a poll wrote a height the listener never writes one again |
| BlockHeightCheck.MissingHeaderIsNeverUsed | internal/checks/blockheight.go:112-121 | a poll re-reads its error field before using the header; whatever the listener writes in between, a missing header is never used |
| BlockHeightCheck.HeaderDroppedIff | internal/checks/blockheight.go:112-121 | a received header is dropped exactly when the listener's error handler writes its error in between |
| BlockHeightCheck.HasSourceIff | internal/checks/blockheight.go:213-227 | the listener is alive, or finishing its error handler, or the next check polls, exactly unless the subscription ended without an error |
| BlockHeightCheck.CleanCloseSilences | internal/checks/blockheight.go:219-224 | after a subscription ended without an error no height is ever written again |
| BlockHeightCheck.FailedPollsAreSilent | internal/checks/blockheight.go:114-119 | failing polls report nothing to the store |
| BlockHeightCheck.ReportsOwnGroup | internal/checks/blockheight.go:147-159 | every report names the upstream and its own group |
| BlockHeightCheck.ReportsWereReceived | internal/checks/blockheight.go:121-178 | in every run each reported height was brought by a head or a polled header, each reported error by a failure, and errors are cleared only after a head |
| BlockHeightCheck.PolledHeightIsReported | internal/checks/blockheight.go:112-121 | in every run the header of a poll is stored and reported as it came |
| BlockHeightCheck.HeadIsReported | internal/checks/blockheight.go:162-170 | so is a head by the listener's first two writes |
| HealthManager.HealthCheckManager.InitializeChecks | internal/checks/manager.go:139-232 | a complete status under every configured ID and nothing else, as the goroutines leave it when they take turns |
| HealthManager.HealthCheckManager.RunChecksOnce | internal/checks/manager.go:242-267 | each block-height and peer check called once more, no look-up failing, and the manager initialized |
| HealthManager.HealthCheckManager.StartHealthChecks | internal/checks/manager.go:102-109 | after the first round and any number of ticks every check has been called once a round |
| HealthManager.StepKeepsInv | internal/checks/manager.go:139-267 | every step of the building and running goroutines keeps the fork/join invariant |
| HealthManager.InitializedMeansReady | internal/checks/manager.go:139-271 | whoever sees the manager initialized finds exactly the configured upstreams, each under its own ID and group with all four checks, run at least once |
| HealthManager.CallsCountRounds | internal/checks/manager.go:234-267 | after r rounds each block-height and peer check was called r times, plus at most one for a round in progress |
| HealthManager.LaunchIsSafe | internal/checks/manager.go:242-264 | rounds never overlap, and a launched goroutine always finds its status |
| HealthManager.WritesAreExclusive | internal/checks/manager.go:218-227 | statuses are written by one goroutine at a time, and never once rounds run |
| HealthManager.InterleavingIsInvisible | internal/checks/manager.go:139-267 | whenever the manager waits for the ticker, every interleaving has led to the one state the object reaches with its goroutines taking turns |
| HealthManager.Progress | internal/checks/manager.go:139-267 | no deadlock: in every reachable state some goroutine can go on, whoever holds the mutex |
| HealthManager.ScheduleIsExact | internal/checks/manager.go:139-267 | every interleaving takes the same number of steps to the end of the first round, and the same for each later one |
| HealthManager.AlwaysInitializes | internal/checks/manager.go:234-271 | no run is ever stuck, and none goes on for more than that number of steps without being initialized |

## Left out

- The HTTP server, request building, JSON and YAML decoding, metrics and logging: I/O and plumbing.
- The circuit breakers' inside (rates, windows, delays) and the peer check's polling: library code that is not part of this model; their verdicts are a snapshot per request.
- Durations and metrics of the caches: entries of either level may vanish and writes may be lost at any step. The caching library is modelled as the code configures it (shared local copy, set-if-absent in Redis); its eviction order is not part of this model.
- CacheProtocol.ServedValuesAreGenuine: one gateway process and one Redis; other chains' writes are steps under keys of their own, but writes of another process for the same chain, and a reader that lags behind the writer, are not modelled.
- CacheProtocol.RouteInSteps: requests that do not use the cache are no steps of the protocol; `RequestExecutor.Executor.RouteToConfig` covers them.
- `HandleRequest` with request coalescing: not called by the executor; the branch of the executor that handles another goroutine's error is unreachable without it.
- Method TTL look-ups beyond "positive or not": easy members.
- Topology.IsTopologyValid: the checks on cache TTLs, error rates and chain names are left out, as routing does not rely on them.
- HealthManager.StepKeepsInv: constructors of the checks and their `RunCheck` are single steps here; what a block-height check does inside is `BlockHeightCheck`. Checks are told apart by their upstream, and starting the manager twice is not modelled.
- StoreProtocol.Progress: the consumer is started once; starting it twice, which the gateway never does, is not modelled.
- ConfigHeap.Config.SetDefaults: a YAML key that sets the initialized flag directly, before anything is resolved, is not modelled. Pointers to booleans and durations are options, since nothing writes through them, and backing arrays of slices are not shared.
- ConfigHeap.RoutingConfig.SetDefaults: the code is one method with an optional global section; here the two cases are two methods, and the latency and error sections, which share nothing, are finished one after the other instead of in turns.
- Error rates are reals, not floating-point numbers.
- Response codes and patterns are compared character by character; the code does it byte by byte, which is the same for decimal codes.
- Request parameters are given as the strings the key renders them to; Go's rendering of arbitrary values is not part of this model.
- Router.SimpleRouter.Route: up to the lookup; sending the request is `RequestExecutor`, and the metrics and records after it are left out.
- RoundRobin.ConcurrentCallsInRange: the unsynchronized read of the counter is taken to be an atomic word read, and the counter below its wrap-around.
- Each filter has one verdict per upstream during a request: the height filters may have asked the store at different moments, but when always-route filters again after a removal, they are taken to give the same answers.
- Library sorting and `strings.Contains` are modelled by simple algorithms with the documented result.
