# Traffic Monitor's health protocol and statistics, verified

A Dafny model of the concurrent core of Apache Traffic Control's Traffic Monitor, and of the batching loop of
Traffic Stats, with proofs of what they are for. `dafny verify dfyconfig.toml` checks all of it.

Traffic Monitor polls caches and other monitors. From the results it derives which caches and delivery services
are available, keeps histories and statistics, and merges its view with that of its peers. The model has one module
per component. Stores that are updated in place are classes (one method is one step under the lock), and the loops are
methods proved against functions on values. Go's map iteration order is an arbitrary pick, numbers are exact,
and time is an input. Where goroutines interleave, the component is a state machine whose steps are the atomic actions,
and theorems are about every run. Every lemma switches Dafny's automatic induction off: inductive proofs are those
written down.

| module | part of the system |
|---|---|
| `Combiner`, `PeerRuns`, `DisabledLocations`, `Peers`, `CRStates`, `Events`, `Sorting`, `Wakeup` | the state combiner, the stores it reads and writes, and its signals |
| `Thresholds`, `Verdicts`, `Availability`, `Repeats`, `Returns`, `Comebacks`, `CacheSet` | availability of caches over batches of results, under configurations that change |
| `Gate`, `Startup`, `Handoff` | when serving may start, and how it is told of configurations |
| `Fetcher`, `Pipeline`, `Poller` | the way of a poll from poller to manager and back, and reconciling pollers with a configuration |
| `StatHistory`, `StatSummary`, `Rates` | histories of stats, their summaries, rates |
| `Astats`, `StatNames`, `DsStats`, `Moved`, `Aggregation`, `Rounds`, `Counters`, `Flags`, `CreateStats`, `LastStats`, `PerSecond`, `Sampling`, `Passes`, `Totals` | delivery service statistics and their sums |
| `Ring`, `CRConfigStore` | the CRConfig history and the CRConfig that is stored |
| `TrafficStats`, `Delivery`, `Gathering` | chunks and requeueing of points, and the batch objects that they travel in |

## Where the code is not what one would expect

Each of these is proved, with the exact condition under which the expected property does hold.

- A cache that a threshold took down can come back without the stat of that threshold being seen, as any verdict that takes
  it down replaces the stat, and that of an error names none. In all whole runs over batches of some caches, it comes back only
  after a result with the stat iff no cache is listed twice in all batches together (`Returns.AllReturnWithStatIff`): one failed
  poll and a good one are enough. In a given run it is held down iff no verdict replaces the stat (`Returns.HeldDownIff`). A
  single batch that brings it back has the stat, for all batches and runs, iff no cache is in a batch twice
  (`Repeats.BatchesKeepIff`, `Repeats.RunsKeepIff`); batches with repeats do come up when a poller is restarted
  (`Pipeline.RestartRepeatsCache`).
- `CalcAvailability` returns at a blocked result. Local states written before it stay, statuses do not:
  `Availability.AgreesUnlessCutShort` says exactly when the two then differ.
- The startup gate waits for exactly the polled caches iff it waits for none in vain: one without polling URL, or with a
  status that is ONLINE or OFFLINE in another spelling, as the text is compared here and parsed elsewhere
  (`Startup.WaitsForPolledCachesIff`, `Startup.SpellingMatters`). Such a cache keeps the gate closed for good
  (`Startup.GateStaysClosed`). The gate's timeout of idle caches does nothing unless some other cache leaves in the
  same call (`Gate.IdleNeverTimesOut`, `Gate.KeptSightTimesOut`).
- The configuration goroutine waits until the stat manager takes up its message, and the stat manager for a result before
  it looks for one. The message can always still be taken up iff it is the first one or some stat poller stays
  (`Handoff.TakenUpIff`); otherwise both may wait forever (`Handoff.StuckForever`).
- A snapshot of states is called a deep copy (`lib/go-tc/crstates.go:52`), but shares the slices of disabled locations. A
  combining pass on it leaves the local states as they were iff all slices that it sorts were sorted before
  (`DisabledLocations.CombineSnapshot`).
- The CRConfig history stores the same request twice in a row in some run iff its limit does not divide 2^64
  (`Ring.RepeatsIff`). The default limit of 20000 (`traffic_monitor/config/config.go:97`) does not. The comment at
  `traffic_monitor/towrap/towrap.go:101` promises otherwise.
- Adding to that history dereferences nil in some run over a set of entries iff comparing some two of them does
  (`Ring.PanicsIff`), as two failed requests of one address do (`Ring.FailingTwicePanics`).
- Whatever Traffic Ops answers, the stored CRConfig never goes back in time iff no two fetches of one CDN overlap between
  their check and their end; already the first two break it if they do (`CRConfigStore.InOrderIffNoneOverlap`). Different
  goroutines fetch. Answers that are only on the wire at the same time do no harm.
- `CreateStats` lets a delivery service that Traffic Ops does not know take over the maps of the first server that
  reports it. Its inputs stay as they were iff no such service is reported by two counted servers
  (`Aggregation.InputsAreKeptIff`). Aggregated again and again, in all orders, all totals and breakdowns are right iff no such
  service has two counted reporters of which one counts anything (`Rounds.AllRightIff`; under that condition also with
  flags and rates, and precomputed stats that change: `Passes.RunPasses`).
- A server that moves to another cachegroup or type after its stats were precomputed is in the total but in no entry. What a
  breakdown lacks is just what such servers count, and it adds up iff they count nothing (`Moved.MovedAreMissing`,
  `Moved.AddsUpIff`).
- A composite value that is polled onto an empty history freezes it, and nothing else does (`StatHistory.FrozenIff`). All
  values polled are recorded iff all but the last one are primitive, and that one is too or came onto an empty history
  (`StatHistory.AllRecordedIff`): with limits of at least 2 that means none is composite, or there is just one
  (`AllRecordedIffPrimitive`). With a limit of 1 every other change empties the history (`EmptyIffForgotten`), and a
  composite value can then freeze it later on (`AllRecordedAtLimitOne`).
- An event log panics at its first event iff its maximum is 0 or at least 2^63 (`Events.ThreadsafeEvents.Add`).
- Delivery services that are gone are never removed from the combined states (`DisabledLocations.CombineDeliveryServices`).
- A negative maximal size makes Traffic Stats panic at the first point it sends; under all other configurations its loop ends
  (`TrafficStats.EndsOrPanics`).
- The batches of Traffic Stats are objects, and the daily summary sends one object twice. Received twice without a publication
  in between, the object is added to itself: every point of the day is doubled (`Delivery.DailySummaryDoubles`). All runs
  of a program conserve all points iff no object is sent twice, unless no point has its key (`Delivery.ConservedIffSafe`); those of
  the program itself do, and keep all destinations, iff no daily summary has answers to both of its queries, or there
  are no points in any of its policy (`Delivery.OwnDestinationsAreKeptIff`).

Latent only: Traffic Stats joins database and retention policy into one key with nothing between them. Producers that send each
object once keep all destinations iff no two destinations have the same key (`Delivery.KeptIffKeysDiffer`). Those of its three
databases never do, under any policies (`TrafficStats.OwnKeysDiffer`). And with a maximal size of zero the loop would never end
(`TrafficStats.ZeroNeverEnds`), but zero stands for the default.

## Model

| member | source | states |
|---|---|---|
| `Combiner.StateCombiner.Decide` | traffic_monitor/manager/statecombiner.go:68-110 | For any observation of the peers: a cache is available iff it is locally or was found so on some peer while some last result was good; the override says that only a peer has it; and exactly a change of the override is reported |
| `Combiner.StateCombiner.Look` | traffic_monitor/manager/statecombiner.go:81-96 | While nothing moves, the observation finds a cache iff some peer that is up, online and in time reports it: not asking the peers when none had a good last result never changes that; `PeerRuns.LookAfter` tells the same from what was heard of the peers |
| `Combiner.StateCombiner.PeersWith` | traffic_monitor/manager/statecombiner.go:88-96 | The list of peers is empty iff no available peer reports the cache |
| `PeerRuns.LookAfter` | traffic_monitor/manager/statecombiner.go:81-96 | After any results, configurations and timeouts of peers, a look finds a cache iff the last result of some peer was good and has the cache available, the peer is in the last configuration and was heard of before that, and its last result is younger than the last timeout |
| `PeerRuns.PassAfter` | traffic_monitor/manager/statecombiner.go:68-118 | A pass after them makes a cache available iff it is so locally or some peer has it in that sense, with an override iff only a peer does |
| `PeerRuns.FoundIff` | traffic_monitor/peer/crstates.go:184-189 | What the stores say of the availability of peers is just that |
| `PeerRuns.StoreAll` | traffic_monitor/peer/crstates.go:147-154 | Over every run of messages the stores remember the last result of each peer, the last configuration and the last timeout |
| `Combiner.StateCombiner.CombineCacheState` | traffic_monitor/manager/statecombiner.go:68-118 | Combining one cache, while peers move and others log events at any point in between, sets its combined state, changes only its own override, and logs exactly one event of its own iff the override flips, after those of the others |
| `Combiner.StateCombiner.PruneCombinedCaches` | traffic_monitor/manager/statecombiner.go:152-159 | Exactly the caches that are gone locally are removed, in any order |
| `Combiner.StateCombiner.CombineCrStates` | traffic_monitor/manager/statecombiner.go:161-171 | After a pass over a snapshot, whatever moves meanwhile, the combined caches are exactly the local ones, available iff locally or when looked up on a peer, each with its override; the log grew by one override event for exactly the flipped ones; and every local delivery service is combined |
| `Combiner.StateCombiner.CombineCaches` | traffic_monitor/manager/statecombiner.go:162-164 | The loop over the caches, in any order, with a view of the peers of its own for each, and events of others between and within the turns |
| `Combiner.OverridesAlternate` | traffic_monitor/manager/statecombiner.go:68-117 | If each override event changes its override, then the events of every cache alternate, starting with set, and the last one tells the override |
| `Combiner.Run` | traffic_monitor/manager/statecombiner.go:55-61 | In every run of passes, within which peers and other writers of the log move freely, and of peer results, configurations and other events between them, the override events of each cache alternate from set, and their parity is the current override |
| `Combiner.FlipStep` | traffic_monitor/manager/statecombiner.go:113-117 | One more turn, with events of others before and within it, keeps the log in step with the overrides of all caches |
| `Combiner.TurnAgrees` | traffic_monitor/manager/statecombiner.go:68-117 | A turn keeps the agreement of log and override map: its own event comes exactly with a flip |
| `DisabledLocations.GetDisabledLocations` | traffic_monitor/health/cache.go:269-280 | A location is listed, once, iff it holds a server of the delivery service and none of those is available |
| `DisabledLocations.ServerAvailability` | traffic_monitor/health/cache.go:282-288 | Exactly the servers of the delivery service have a state; a missing one counts as unavailable |
| `DisabledLocations.CachegroupAvailability` | traffic_monitor/health/cache.go:290-303 | A cachegroup is available iff some server in it is, whatever the order of the servers |
| `DisabledLocations.Intersection` | traffic_monitor/manager/statecombiner.go:182-193 | The result is sorted, with each element of the first slice that is in the second as often as in the first; both slices are only permuted |
| `DisabledLocations.Common` | traffic_monitor/manager/statecombiner.go:186-192 | Bisection finds exactly the common elements of two sorted slices |
| `DisabledLocations.CombinePeer` | traffic_monitor/manager/statecombiner.go:142-145 | One peer makes the service available if it says so and keeps only the locations that it lists too |
| `DisabledLocations.CombineDSState` | traffic_monitor/manager/statecombiner.go:120-149 | The combined locations are the local ones which every peer that lists the service has too, and availability is the disjunction; of the shared slices exactly those of the peers that list it, and the local one if there are any, are sorted, and keep their elements |
| `DisabledLocations.CombinedIff` | traffic_monitor/manager/statecombiner.go:130-149 | Told from the maps of the peers: a combined service is available iff it is so locally or at some peer that has it, and a location stays on the list iff the lists of all peers that have the service have it too |
| `DisabledLocations.CombineDeliveryServices` | traffic_monitor/manager/statecombiner.go:166-168 | The same for all local services at once, each with the peers as they are then, although they may share slices that each combination sorts; services that are gone stay as they were; and no other slice is touched |
| `DisabledLocations.CombineSnapshot` | lib/go-tc/crstates.go:52-61 | What sharing means: a pass over a snapshot keeps the maps of the store; and its slices read as before iff all of them that the pass sorts were sorted |
| `DisabledLocations.KeptIffSorted` | traffic_monitor/manager/statecombiner.go:180-184 | Sorting in place shows in the store iff a touched slice was not sorted |
| `DisabledLocations.PeerOrderDoesNotMatter` | traffic_monitor/manager/statecombiner.go:136-146 | Two sorted lists that meet the specification are the same list, so the order of the peers cannot be told |
| `Sorting.Sort` | traffic_monitor/manager/statecombiner.go:173-184 | The slice is sorted in place and permuted |
| `Sorting.Search` | traffic_monitor/manager/statecombiner.go:187 | Bisection returns the first index whose element is not less |
| `Sorting.SortedIsUnique` | traffic_monitor/manager/statecombiner.go:173-184 | There is one sorted order of a collection of names |
| `Sorting.LessIff` | traffic_monitor/manager/statecombiner.go:177 | One name is less than another iff they are the same up to a place at which the first ends or has the smaller character |
| `Peers.PeersThreadsafe.SetPeers` | traffic_monitor/peer/crstates.go:147-154 | Exactly the peers which ever sent a result are marked, online iff configured |
| `Peers.PeersThreadsafe.Set` | traffic_monitor/peer/crstates.go:224-230 | A result is stored, and a peer heard of for the first time stays unavailable until the next configuration |
| `Peers.PeersThreadsafe.HasAvailablePeers` | traffic_monitor/peer/crstates.go:206-221 | True iff the last result of some peer was good |
| `CRStates.Threadsafe.SetCache` | traffic_monitor/peer/crstates.go:81-87 | A result changes a cache that is there, and never brings one back |
| `CRStates.Threadsafe.DeleteCache` | traffic_monitor/peer/crstates.go:97-101 | Exactly the one cache is removed |
| `Events.ThreadsafeEvents.Add` | traffic_monitor/health/event.go:62-89 | With any maximum: an event is added iff the maximum is at least 1 and below 2^63, else it panics; the log stays the newest events, newest first, consecutively numbered, within its limit and at least one less of it when cut |
| `Events.IndicesAreConsecutive` | traffic_monitor/health/event.go:75-89 | Neighbours in the log differ by one in their index, and the first one is the latest |
| `Wakeup.NoLostWakeup` | traffic_monitor/manager/statecombiner.go:40-63 | In every run from the start, what was updated before a signal is seen by a pass, or a signal is still pending; and no pass runs without a signal of its own |
| `Wakeup.SignalIsSeen` | traffic_monitor/manager/peer.go:36-41 | Anywhere in a run from the start, after an update followed by a signal whatever follows ends with the update seen or a pass to come |
| `Wakeup.InternalRunsAreBounded` | traffic_monitor/manager/statecombiner.go:45-54 | Without new signals the combiner comes to rest |
| `Wakeup.ComesToRest` | traffic_monitor/manager/statecombiner.go:55-61 | From any state of a run boundedly many internal steps lead to rest, with every announced update seen |
| `Wakeup.RestMeansSeen` | traffic_monitor/manager/statecombiner.go:55-61 | When it rests, everything announced has been seen, and no sender is blocked |
| `Thresholds.EvalCache` | traffic_monitor/health/cache.go:98-170 | The verdict does not depend on the order of the thresholds, and a stat it names does violate its threshold; one is named whenever any is violated; `Verdicts.VerdictIs` says what it is |
| `Verdicts.VerdictIs` | traffic_monitor/health/cache.go:98-170 | Available iff the server and its profile are known and it is ONLINE, or REPORTED with a result that is no error, not "notAvailable", available, and has every stat of the profile with a number in the relation that its comparator names; a stat is named only if its number is not |
| `Verdicts.StatIsNamed` | traffic_monitor/health/cache.go:132-170 | For a REPORTED cache without an error a stat is named iff some number is not in its relation |
| `Verdicts.ViolatesIff` | traffic_monitor/health/cache.go:232-248 | A threshold is violated iff its stat has a number which is not ==, >, <, >= or <= the limit, as its comparator says; an unknown comparator is never violated |
| `Verdicts.NumberIs` | traffic_monitor/cache/cache.go:130-206 | Which number each computed stat is of the vitals and system of a result, quotients cut towards zero; any other stat has the newest value of its history, if that is a number |
| `Verdicts.ComputedAre` | traffic_monitor/cache/cache.go:86-95 | A result has just its own stats and the computed ones, by name |
| `Verdicts.LoadIsLimited` | traffic_monitor/health/cache.go:147-170 | With the threshold "loadavg" below a limit alone, a good result is available iff its load is below it, and else taken down by "loadavg" |
| `Availability.CalcAvailability` | traffic_monitor/health/cache.go:174-207 | A batch applies all results or those before the first blocked one; statuses are committed all or none, local states and events follow the applied ones; services are recomputed only after a whole batch, and keep their availability |
| `Availability.ApplyResults` | traffic_monitor/health/cache.go:176-204 | The loop over the results, with the exact statuses, local states and events after the applied ones |
| `Availability.ReportAndSet` | traffic_monitor/health/cache.go:198-203 | An event iff the local state changes or is missing; a missing state is not created |
| `Availability.CalculateDeliveryServiceState` | traffic_monitor/health/cache.go:255-267 | Every known service gets exactly its disabled locations and keeps its availability, every other keeps its state |
| `Availability.Hysteresis` | traffic_monitor/health/cache.go:184-189 | A cache that a stat took down comes back in a batch only if its first result has the stat, or that result was down and a later one up |
| `Availability.HysteresisWithoutRepeats` | traffic_monitor/health/cache.go:184-189 | With one result per cache, it comes back only on a result that has the stat |
| `Availability.RepeatsEscape` | traffic_monitor/health/cache.go:184-196 | With a down and an up result in a batch it comes back regardless of the stat, unless the first names a stat of its own that the second lacks |
| `Availability.RecoversOnlyWithStat` | traffic_monitor/health/cache.go:174-207 | In every run of batches without repeats, a committed status goes from down by a stat to up only in a full batch with a result that has it |
| `Repeats.BatchesKeepIff` | traffic_monitor/health/cache.go:174-207 | For every list of caches: all batches with just these results, from all statuses, keep a cache that a stat took down from coming back without it iff no cache is listed twice |
| `Repeats.RunsKeepIff` | traffic_monitor/health/cache.go:174-207 | All runs over batches of such shapes do, batch by batch, iff no shape lists a cache twice: each single batch that brings a cache back has the stat |
| `Returns.AllReturnWithStatIff` | traffic_monitor/health/cache.go:184-196 | Over whole runs: for all runs over batches of such shapes, a cache that is down by a stat at one time and up at any later one had a result with the stat in between, iff no cache is listed twice in all shapes together |
| `Returns.HeldDownIff` | traffic_monitor/health/cache.go:184-196 | In a run without such a result, a cache is down by the stat all the time iff no committed verdict takes it down without naming the stat |
| `Returns.HeldDown` | traffic_monitor/health/cache.go:184-189 | Whatever the batches, no result without the stat brings it back while no verdict replaces the stat |
| `Returns.RepeatLaterFails` | traffic_monitor/health/cache.go:190-196 | An error in one batch and a good result in any later one bring a cache back without the stat |
| `Comebacks.ComesBackIff` | traffic_monitor/health/cache.go:184-196 | The other direction, for all statuses and batches without repeats: a cache that is down by a stat and has a good result comes back iff no good result of the batch lacks the stat that its cache is down by; its own then has the stat, or it is a computed one; and if it does not come back nothing is committed |
| `Comebacks.WholeIff` | traffic_monitor/health/cache.go:184-189 | A batch without repeats is applied as a whole iff no good result lacks the stat that its cache is down by: neither returned with it nor computed |
| `Comebacks.ReturnsOnFirst` | traffic_monitor/health/cache.go:174-207 | Over a run: a cache that was only held down by a stat returns with its first good result that has it, iff no other result of that batch is blocked, and not before |
| `Comebacks.StatusIsOfResult` | traffic_monitor/health/cache.go:190-196 | After a whole batch without repeats each cache has the availability and the stat of its own verdict |
| `Availability.ResultsAgree` | traffic_monitor/health/cache.go:190-203 | Applying results keeps working statuses and local states in agreement |
| `Availability.AgreesUnlessCutShort` | traffic_monitor/health/cache.go:187 | Committed statuses and local states agree after a batch iff it was not cut short or the last verdict of no cache before the blocked result changed its availability |
| `Availability.LastVerdictCounts` | traffic_monitor/health/cache.go:190-203 | After a batch the status of each cache is available iff its last verdict said so, or as before if it has none |
| `Availability.FullBatchesAgree` | traffic_monitor/health/cache.go:174-207 | They agree in every run of full batches |
| `Availability.BatchesKeepTheCaches` | traffic_monitor/health/cache.go:203 | No run of batches adds or removes a local cache |
| `Availability.ResultsKeepTheCaches` | traffic_monitor/health/cache.go:203 | No result adds or removes a local cache |
| `CacheSet.Reconcile` | traffic_monitor/manager/monitorconfig.go:234-310 | A configuration leaves exactly its caches, ONLINE ones up, new ones down, OFFLINE ones as they were or missing, and polls exactly those with a URL |
| `CacheSet.SeedCaches` | traffic_monitor/manager/monitorconfig.go:234-276 | The loop over the servers, in any order |
| `CacheSet.StatusIff` | lib/go-tc/enum.go:170-190 | Which texts are which status: the five names in letters of any case, with the two letters outside ASCII whose lower case is inside |
| `CacheSet.VisitSeeds` | traffic_monitor/manager/monitorconfig.go:239-250 | The interleaved steps with nothing in between do what the loop does |
| `CacheSet.CachesMatchConfig` | traffic_monitor/manager/monitorconfig.go:234-310 | In every interleaving, between passes the local caches are a subset of the configured ones with every one that is not OFFLINE; and seeding never overwrites a polled state |
| `CacheSet.LastWordCounts` | traffic_monitor/peer/crstates.go:81-97 | In every interleaving of configurations, results and passes the local state of a cache is the last word on it, of a result, an ONLINE visit or seeding: nothing else changes it, and nothing is lost |
| `CacheSet.PublishedIsLastWord` | traffic_monitor/manager/statecombiner.go:161-171 | A pass publishes a cache of its snapshot as available iff that was the last word before the snapshot, or the cache was found on a peer |
| `CacheSet.DeletedStaysAway` | traffic_monitor/peer/crstates.go:80-101 | No result in flight re-creates a deleted cache |
| `CacheSet.CombinedMatchConfig` | traffic_monitor/manager/statecombiner.go:152-171 | A combine pass whose snapshot is taken between configurations leaves combined caches that match the configuration |
| `CacheSet.DeletedFromCombined` | traffic_monitor/manager/statecombiner.go:152-159 | The next combine after a deletion removes the cache from the combined states |
| `CacheSet.OfflineKeepsItsState` | traffic_monitor/manager/monitorconfig.go:244-246 | A cache that goes OFFLINE keeps its old state over all later passes, as long as no result of it comes in |
| `Gate.UnpolledCaches.SetNewCaches` | traffic_monitor/threadsafe/polledcaches.go:77-101 | Unpolled becomes the still configured unpolled ones and the new ones; all becomes the new configuration; only dropped unpolled ones lose their first sight |
| `Gate.UnpolledCaches.SetPolled` | traffic_monitor/threadsafe/polledcaches.go:132-186 | In any order, exactly the caches found down, with a bandwidth or timed out leave; and first sights are kept only if one leaves |
| `Gate.UnpolledCaches.PollCache` | traffic_monitor/threadsafe/polledcaches.go:139-174 | What one unpolled cache becomes, including the first sight that comes back after a removal |
| `Gate.LeavesIff` | traffic_monitor/threadsafe/polledcaches.go:139-174 | A cache waits no longer iff some result is not available, an error or "notAvailable", or it has a bandwidth, or more than ten seconds have passed since it was first seen |
| `Gate.ServesIff` | traffic_monitor/threadsafe/polledcaches.go:104-108 | Serving may start iff there was a configuration and no cache waits |
| `Gate.KnowsTheLastConfig` | traffic_monitor/threadsafe/polledcaches.go:77-107 | In every run all caches are those of the last configuration, and unpolled ones are among them |
| `Gate.ReturnsOnlyIfDropped` | traffic_monitor/threadsafe/polledcaches.go:92-97 | A cache that left is unpolled again only after a configuration without it |
| `Gate.LeavesOnlyForAReason` | traffic_monitor/threadsafe/polledcaches.go:132-174 | A cache leaves only when found down, with a bandwidth, timed out, or no longer configured |
| `Gate.IdleNeverTimesOut` | traffic_monitor/threadsafe/polledcaches.go:176-178 | While all unpolled caches are idle and freshly polled, none ever leaves, for any number of calls |
| `Gate.KeptSightTimesOut` | traffic_monitor/threadsafe/polledcaches.go:163-181 | Whether a cache times out is decided by its first sight iff another cache left in that call, else by its last poll |
| `Startup.GetNewCaches` | traffic_monitor/manager/stat.go:43-54 | Exactly the local, configured caches whose status is not the very text ONLINE or OFFLINE |
| `Startup.WaitsForPolledCachesIff` | traffic_monitor/manager/stat.go:43-54 | After a configuration, serving waits for exactly the polled caches iff none is waited for that has no polling URL or a status that parses to ONLINE or OFFLINE but is spelled otherwise |
| `Startup.SpellingMatters` | traffic_monitor/manager/stat.go:48 | A cache with status "Online" is waited for although it is never polled |
| `Startup.PolledAreWaitedFor` | lib/go-tc/enum.go:170-190 | The texts ONLINE and OFFLINE do parse to these statuses, so that no polled cache is left out |
| `Startup.GateStaysClosed` | traffic_monitor/threadsafe/polledcaches.go:139-186 | A configured cache that never has a result stays unpolled forever |
| `Handoff.TakenUpIff` | traffic_monitor/manager/monitorconfig.go:316 | In every reachable state in which a configuration waits: in all its continuations it can still be taken up iff it is the first one or a stat poller stays |
| `Handoff.CanBeTaken` | traffic_monitor/manager/stat.go:92-120 | Then some continuation takes it up, through poll, fetch, result and the inner loop |
| `Handoff.CanBeStuck` | traffic_monitor/manager/stat.go:95-120 | Otherwise some continuation leads to a state without pollers, in which the manager waits for a result |
| `Handoff.StuckForever` | traffic_monitor/manager/stat.go:97 | In that state nothing can happen any more |
| `Handoff.StepKeepsInv` | traffic_monitor/manager/stat.go:92-120 | Every step of configuration, pollers and stat manager keeps the invariant of the pipeline |
| `Handoff.SameStay` | traffic_monitor/poller/poller.go:191-225 | Between configurations no step makes a poller stay or go that did not before |
| `Fetcher.HttpFetcher.Fetch` | traffic_monitor/fetcher/fetcher.go:49-83 | Every fetch sends exactly one result, available iff the response was good, else an error |
| `Fetcher.HttpFetcher.Handle` | traffic_monitor/cache/cache.go:275-331 | Every call sends exactly one result, on each of its paths |
| `Pipeline.EachPollInOneStage` | traffic_monitor/poller/poller.go:238-262 | In every interleaving each issued poll is in exactly one of fetching, sending, batch and finished, and finished at most once |
| `Pipeline.OneOutstandingEach` | traffic_monitor/poller/poller.go:250-256 | A poller has at most one poll outstanding, and waits iff it has one |
| `Pipeline.FinishNeverBlocks` | traffic_monitor/manager/health.go:155-160 | Whoever is told that a poll is finished is waiting for exactly that poll |
| `Pipeline.BatchesKeepOrder` | traffic_monitor/manager/health.go:108-131 | The batches put together are what was received, and pollers are told in that order |
| `Pipeline.StepKeepsInv` | traffic_monitor/manager/health.go:108-160 | Every step of poller, fetcher and manager keeps polls in one stage, waited for and in order |
| `Pipeline.NeverStuck` | traffic_monitor/manager/stat.go:95-120 | While a poll is outstanding some internal step can be taken |
| `Pipeline.Drain` | traffic_monitor/manager/stat.go:95-158 | From every reachable state, boundedly many internal steps get every poll finished |
| `Pipeline.InternalStepsRunOut` | traffic_monitor/manager/health.go:108-131 | Every internal step lowers the remaining work |
| `Pipeline.RepeatsAreOfTwoPollers` | traffic_monitor/poller/poller.go:238-262 | Two pending results are of different pollers |
| `Pipeline.RestartRepeatsCache` | traffic_monitor/poller/poller.go:191-196 | Restarting a waiting poller can put two results of one cache in a batch |
| `Poller.DiffConfigs` | traffic_monitor/poller/poller.go:265-312 | The pollers to stop and to start are exactly those that differ, each once, with the new settings |
| `Poller.HttpPoller.Configure` | traffic_monitor/poller/poller.go:191-225 | After a message there is exactly one live poller per configured id, and none else, with its own URL, host, format and timeout (that of the template if it has none), and the interval and keep-alive of the configuration; unchanged ones are not restarted, and only stopped ones are killed |
| `Poller.HttpPoller.Poll` | traffic_monitor/poller/poller.go:187-226 | The same after every message of every run |
| `Poller.Reconciled` | traffic_monitor/poller/poller.go:191-225 | Killing and starting by the difference re-establishes the one live poller per id |
| `Poller.LatestIsNotLost` | traffic_monitor/poller/poller.go:117-128 | In every interleaving with its reader, configurations are read in order, none twice, and the last one written is never lost |
| `StatHistory.ResultStatHistory.Add` | traffic_monitor/cache/data.go:154-176 | Each stat of a result is added to its own history, in any order; exactly the incomparable ones are rejected |
| `StatHistory.ResultStatHistory.AddOne` | traffic_monitor/cache/data.go:156-175 | An equal value extends the latest entry in place, another one goes in front, an incomparable one is rejected |
| `StatHistory.ResultStatHistory.Copy` | traffic_monitor/cache/data.go:103-123 | The copy has the same histories and shares none of them |
| `StatHistory.NextHistories` | traffic_monitor/manager/stat.go:160-199 | Adding a batch to a copy never changes the published histories |
| `StatHistory.AnyOrderAdds` | traffic_monitor/cache/data.go:156 | The order of the stats of a result does not matter |
| `StatHistory.ExpansionIsNewestValues` | traffic_monitor/cache/data.go:154-176 | Expanding the history by its spans gives a newest-first prefix of the recorded values, under any limits |
| `StatHistory.PrimitivesAreRecorded` | traffic_monitor/cache/data.go:133-152 | Every polled value is recorded while all are primitive |
| `StatHistory.ComparedIff` | traffic_monitor/cache/data.go:133-152 | Values are the same iff both are floats, texts or flags and equal; they cannot be compared iff either is something else; and without history every value is new |
| `StatHistory.RunIsCanonical` | traffic_monitor/cache/data.go:154-176 | Spans are at least 1 and neighbours differ |
| `StatHistory.CanonicalIsUnique` | traffic_monitor/cache/data.go:154-176 | There is one such encoding of a sequence of values |
| `StatHistory.EncodeRoundTrip` | traffic_monitor/cache/data.go:154-176 | Unpruned, the history expands to exactly the polled values |
| `StatHistory.KeepsTheNewestRuns` | traffic_monitor/cache/data.go:125-130 | With a constant limit of at least 2 the history is the newest runs, at most the limit and at least one less of them |
| `StatHistory.LengthWithinLimit` | traffic_monitor/cache/data.go:125-130 | Under any limits of at least 1, and whatever is polled, the history is never longer than the largest of them |
| `StatHistory.LimitOneKeepsOneRun` | traffic_monitor/cache/data.go:125-130 | With a limit of 1 it is the newest run, whose first poll may be missing, or nothing right after a change |
| `StatHistory.LimitOneForgetsAChange` | traffic_monitor/cache/data.go:125-130 | With a limit of 1 a changed value empties the history |
| `StatHistory.CompositeFreezes` | traffic_monitor/cache/data.go:133-152 | A composite value that is polled onto an empty history stays the history forever, and everything later is rejected |
| `StatHistory.FrozenIff` | traffic_monitor/cache/data.go:133-152 | Under any limits a history is frozen iff some composite value was polled onto an empty one |
| `StatHistory.AllRecordedIff` | traffic_monitor/cache/data.go:133-176 | Under any limits every polled value is recorded iff none is composite, but for a last one onto an empty history |
| `StatHistory.AllRecordedIffPrimitive` | traffic_monitor/cache/data.go:133-176 | With limits of at least 2: iff all values are primitive or there is just one |
| `StatHistory.AllRecordedAtLimitOne` | traffic_monitor/cache/data.go:125-176 | With a limit of 1: iff all are primitive, but for a last one after a forgotten change |
| `StatHistory.EmptyIffForgotten` | traffic_monitor/cache/data.go:125-130 | With a limit of 1 the history is empty exactly after a change of a value that was there, so after every other change in a row |
| `StatSummary.Summarize` | traffic_monitor/datareq/statsummary.go:81-112 | The count is the number of points, the average their exact mean, low and high their extremes; none iff an end is not numeric |
| `StatSummary.AddPoints` | traffic_monitor/datareq/statsummary.go:100-104 | Repeating the incremental step keeps the exact mean |
| `StatSummary.MeanStep` | traffic_monitor/datareq/statsummary.go:102-103 | One incremental step keeps the exact mean |
| `StatSummary.DataPointsAreNewestPolls` | traffic_monitor/datareq/statsummary.go:94-104 | The points summed up are the newest values polled, and no others |
| `StatSummary.SummarizePolled` | traffic_monitor/datareq/statsummary.go:81-112 | From polls to summary: the average is the mean of the newest values polled, low and high are their extremes, start and end the oldest and newest of them |
| `StatSummary.BoundsAreExtremes` | traffic_monitor/datareq/statsummary.go:91-111 | Comparing one value for each entry of the history gives the extremes of all its points |
| `StatSummary.PointsAreTheValues` | traffic_monitor/datareq/statsummary.go:94-104 | The points are exactly the values of the entries, in their order |
| `Rates.AddLastStat` | traffic_monitor/ds/stat.go:157-181 | No sample makes a rate negative; an error iff the sample is a fall or late, and not a duplicate |
| `Rates.RatesStayNonNegative` | traffic_monitor/ds/stat.go:157-181 | In every run of samples no rate is negative |
| `Rates.EveryChangeIsAccountedFor` | traffic_monitor/ds/stat.go:157-181 | Rates times elapsed times, baselines and falls make up every change of the counter |
| `Rates.SteadyTakesOnlyRates` | traffic_monitor/ds/stat.go:157-181 | A steady counter has no baselines and no falls |
| `Rates.RatesTelescope` | traffic_monitor/ds/stat.go:174-176 | For a steady counter that starts nonzero they telescope to last minus first |
| `Rates.RateIsThatOfLastRise` | traffic_monitor/ds/stat.go:157-181 | After every run the rate is the rise over the elapsed seconds at the last sample that was later, not lower and not from zero, else the initial one: duplicates, late samples, rollovers and baselines never change it |
| `Rates.SampleStep` | traffic_monitor/ds/stat.go:157-181 | What one sample makes of the rate, and of the sample that the next is compared with |
| `LastStats.AddLastStats` | traffic_monitor/ds/stat.go:183-191 | No rate of a cache becomes negative; and it is an error iff any of the five counters fell or came late |
| `LastStats.EachCounterRunsAlone` | traffic_monitor/ds/stat.go:183-191 | Over every run of polls each counter has exactly the rate of its own samples |
| `LastStats.CounterHasLastRise` | traffic_monitor/ds/stat.go:183-191 | So each rate of a cache is that of the last rise of its own counter |
| `LastStats.UpdateCaches` | traffic_monitor/ds/stat.go:240-250 | Exactly the reporting caches with a precomputed result get a sample; a bandwidth iff it reports and its sample is no error, namely its rate of bytes in kilobits; and no rate becomes negative |
| `LastStats.UpdateStep` | traffic_monitor/ds/stat.go:240-250 | One turn gives its cache its sample and bandwidth, and leaves every other cache alone |
| `LastStats.AddLastDSStatTotals` | traffic_monitor/ds/stat.go:204-230 | Total and breakdowns are the sums over exactly the reporting caches of each name, in any order, and have no time |
| `LastStats.SumIsNonNegative` | traffic_monitor/dsdata/stat.go:415-438 | Sums of rates are never negative |
| `Astats.JoinSplit` | traffic_monitor/cache/stats_type_astats.go:102-162 | A stat name is its parts joined |
| `Astats.TargetOfStatName` | traffic_monitor/cache/stats_type_astats.go:102-162 | A stat name put together from the parts of a server name and a stat is taken apart into just those, whatever dots the domain has |
| `StatNames.IsOfIff` | traffic_monitor/cache/stats_type_astats.go:102-162 | A raw stat stands for a stat of a delivery service iff its name is put together in that way from a server name that matches the service, or from one without domain |
| `StatNames.PrecomputedNumbers` | traffic_monitor/cache/stats_type_astats.go:184-272 | A service gets a stat iff some raw stat of it has a known name and the type that goes with it; then each of its eleven numbers is the sum over the raw stats of that number's own name, floats cut towards zero where it is whole; the flag is set iff some raw flag is; and there is no bandwidth |
| `StatNames.TruncateCuts` | traffic_monitor/cache/stats_type_astats.go:191 | Floats are cut to the next whole number towards zero |
| `Astats.AddCacheStatIsSum` | traffic_monitor/cache/stats_type_astats.go:184-272 | Adding a value adds its contribution to the counters and touches nothing else |
| `Astats.ProcessStat` | traffic_monitor/cache/stats_type_astats.go:102-180 | One raw stat adds its contribution to its delivery service, and an error nothing |
| `Astats.Precompute` | traffic_monitor/cache/stats_type_astats.go:66-76 | In any order, each total is the sum of the contributions of exactly the matching raw stats, and each breakdown that total |
| `Astats.PrecomputedIsBalanced` | traffic_monitor/cache/stats_type_astats.go:164-179 | What precomputing makes meets the hypothesis of conservation |
| `DsStats.SumIsAdditive` | traffic_monitor/dsdata/stat.go:205-222 | The sum of stats is commutative, associative and has the empty stats as neutral element |
| `DsStats.AggregationConserves` | traffic_monitor/ds/stat.go:358-389 | After any visits in any order the total is the sum over the servers and over cachegroups, types and caches, and each entry the sum over exactly its servers |
| `DsStats.SameIsConserved` | traffic_monitor/ds/stat.go:358-389 | Empty entries do not matter to conservation |
| `DsStats.AggregatedServices` | traffic_monitor/ds/stat.go:376-380 | The services of the result are those created and those visited |
| `CreateStats.Memory.CreateStats` | traffic_monitor/ds/stat.go:341-389 | With shared maps, flags set in advance and any order: if inputs are balanced in counters, the counters of each service are the sums over the servers that report it and over each breakdown; the services are exactly the named and reported ones; maps that were there stay as they were unless an unnamed service is reported twice, and for fresh inputs exactly then; they keep their counters unless such a service counts anything; and a total has the flag iff a named service has an available cache, or a precomputed stat of it has the flag |
| `CreateStats.Aggregated` | traffic_monitor/ds/stat.go:341-389 | The same about any state that is ready for the aggregation, and any order |
| `CreateStats.StartsReady` | traffic_monitor/ds/stat.go:344-353 | Empty stats with flags at most, on new maps, are ready for it |
| `CreateStats.Memory.AddAvailableData` | traffic_monitor/ds/stat.go:46-88 | The flags of total, cachegroup and type of a service are set iff they were or an available cache with just that cachegroup or type serves it; nothing else is changed, and no other maps are touched |
| `Flags.FlagsEndRight` | traffic_monitor/ds/stat.go:46-88 | Flags that are set in advance stay through the aggregation, and those of precomputed stats come with them |
| `Flags.TotalFlag` | traffic_monitor/dsdata/stat.go:205-222 | In any order the flag of a total is the disjunction of all that were added |
| `CreateStats.Memory.AddServers` | traffic_monitor/ds/stat.go:358-389 | The loops add exactly the included stats, each once, in some order |
| `Counters.AggregatedCounters` | traffic_monitor/ds/stat.go:358-389 | Whatever flags and rates the maps hold, the counters are the sums over exactly the reporting servers |
| `Counters.RawAddStats` | traffic_monitor/dsdata/stat.go:205-222 | Aggregating commutes with leaving flags and rates out |
| `Counters.FlagsAndRatesKeepCounters` | traffic_monitor/ds/stat.go:193-202 | Totals that are right in counters stay right when flags and rates are written into the maps |
| `Passes.AddPerSecStats` | traffic_monitor/ds/stat.go:232-260 | Every service gets the rates that its own counters make: in its total and each cachegroup and type kilobits of 125 bytes, the tps of each status class in its own place, and their sum; each cache its bandwidth; entries without a rate, and everything but rates, stay; also in maps that were taken over only rates change |
| `PerSecond.AddRates` | traffic_monitor/ds/stat.go:193-202 | Exactly the names with a rate get it, each number in its place, also those without an entry |
| `PerSecond.WriteStep` | traffic_monitor/ds/stat.go:254-260 | Services share no maps, so that writing the rates of one changes none of another |
| `Sampling.Sample` | traffic_monitor/ds/stat.go:240-252 | The rates of a service are those of the samples of its caches in this pass, summed over the caches that report it, in total and by name |
| `Sampling.LastIsRun` | traffic_monitor/ds/stat.go:232-252 | Over every run of passes, what was last seen of each cache and service is the run over the counters that were published of it |
| `Sampling.BandwidthIsRateOfRun` | traffic_monitor/ds/stat.go:240-250 | From end to end: the bandwidth that a pass publishes of a cache is the rate of the run over the bytes that were published of it so far, so that of their last rise, unless its last sample is an error |
| `Passes.RunPasses` | traffic_monitor/manager/stat.go:204-211 | In every run of passes whose unnamed services are each reported once, or count nothing, all services published are right in counters, flag and rates, with the rates following from all passes so far: no pass spoils the inputs of a later one |
| `Passes.PassIsRight` | traffic_monitor/ds/stat.go:341-395 | One pass, with the rates written after it, is right in counters and flags, and keeps the counters of all that was there |
| `Passes.PublishedTotal` | traffic_monitor/ds/stat.go:204-260 | Every published total has the rates that the caches reporting the service then have, in kilobits of 125 bytes and by status class, summed up |
| `Passes.PublishedGroup` | traffic_monitor/ds/stat.go:212-216 | So has every cachegroup for its own reporting caches, if those have any count or rate |
| `Passes.PublishedKind` | traffic_monitor/ds/stat.go:218-222 | And every type |
| `Passes.SampleTimes` | traffic_monitor/ds/stat.go:240-247 | Exactly the published caches with a precomputed result get a sample in a pass, with the counters published and its time |
| `Aggregation.TotalsAreCorrect` | traffic_monitor/ds/stat.go:358-389 | In the state with shared maps, every service is the sum over exactly the servers that report it, in total and by cachegroup, type and cache |
| `Aggregation.InputsAreKeptIff` | traffic_monitor/ds/stat.go:376-388 | The precomputed stats are as they were iff no service that Traffic Ops does not know is reported by two counted servers, for all fresh inputs and any order |
| `CreateStats.Memory.CreateEmpty` | traffic_monitor/ds/stat.go:344-350 | Every named service starts empty, with maps of its own |
| `CreateStats.Memory.AddServer` | traffic_monitor/ds/stat.go:370-388 | One server adds exactly its stats, in any order |
| `Aggregation.AddStatsRefines` | traffic_monitor/ds/stat.go:376-388 | The loop over shared maps refines the sums on values |
| `Aggregation.SharesAnyOrder` | traffic_monitor/ds/stat.go:358-371 | What is summed up does not depend on the order |
| `Aggregation.UnsharedLeavesInputs` | traffic_monitor/ds/stat.go:377-386 | Unless such services are shared so, no maps are written but those of services created in advance |
| `Aggregation.SecondPassDoubleCounts` | traffic_monitor/ds/stat.go:377-380 | For an unnamed service, any two servers and stats of theirs: a second pass in the same order counts the second one twice in the breakdown but not in the total |
| `Rounds.AllRightIff` | traffic_monitor/ds/stat.go:358-389 | For all fresh stats of any servers: all totals and breakdowns of all rounds over them, in all orders, are right iff no unnamed service is reported by two counted servers of which one counts anything |
| `Rounds.RoundsAreRight` | traffic_monitor/ds/stat.go:376-388 | Then every round is right, for all balanced stats |
| `Rounds.SecondRoundIsWrong` | traffic_monitor/ds/stat.go:377-380 | Otherwise the second of two rounds that start with the other server is wrong |
| `Rounds.OthersStaySame` | traffic_monitor/ds/stat.go:377-386 | Maps that were not made for the result get empty entries at most |
| `Moved.MovedAreMissing` | traffic_monitor/ds/stat.go:382-386 | In any order, a breakdown of a service made in advance and the totals of the servers that have moved since make up its total |
| `Moved.AddsUpIff` | traffic_monitor/ds/stat.go:382-386 | It adds up to the total iff no server that counts anything has moved |
| `Ring.CRConfigHistory.Add` | traffic_monitor/towrap/towrap.go:102-118 | An entry is stored, dropped as a duplicate, or panics, exactly as the log of stored entries says |
| `Ring.CRConfigHistory.Get` | traffic_monitor/towrap/towrap.go:120-130 | The last stored entries, as many as there are or fit, oldest first |
| `Ring.PreviousSlot` | traffic_monitor/towrap/towrap.go:107 | Which logged entry the wrapped index points to |
| `Ring.NoneRepeats` | traffic_monitor/towrap/towrap.go:106-111 | With a limit that divides 2^64 no run stores the same request twice in a row |
| `Ring.RepeatsIff` | traffic_monitor/towrap/towrap.go:107 | No run does so iff the limit divides 2^64 |
| `Ring.DropsIffRepeated` | traffic_monitor/towrap/towrap.go:106-111 | With such a limit, adding an entry drops it iff it has the address, date and CDN of the last one |
| `Ring.CompareIff` | traffic_monitor/towrap/towrap.go:108 | Entries are the same iff address, date and CDN are, and are there; nil is dereferenced iff addresses are the same and a date is missing, or dates are too and a CDN is |
| `Ring.PanicsIff` | traffic_monitor/towrap/towrap.go:108 | For every set of entries: some run over it panics iff comparing some two of them dereferences nil |
| `Ring.NeverPanics` | traffic_monitor/towrap/towrap.go:108 | Entries with complete statistics never panic |
| `Ring.FailingTwicePanics` | traffic_monitor/towrap/towrap.go:108 | An entry without a date makes the next one of its address panic, but at the full turns of a limit that does not divide 2^64 |
| `CRConfigStore.Session.CRConfigRaw` | traffic_monitor/towrap/towrap.go:218-248 | A fetch is stored iff it is accepted, and always goes into the history with its outcome |
| `CRConfigStore.StoredIff` | traffic_monitor/towrap/towrap.go:195-248 | An answer replaces what is stored iff it parses, and that is nothing, or undated, or of the same named CDN and not newer; the history has the statistics of just the answers that parse, with an error iff it did not or was rejected; and a missing name panics iff something dated is stored |
| `CRConfigStore.NeverGoesBack` | traffic_monitor/towrap/towrap.go:195-215 | Once a dated CRConfig is stored for a CDN, all later ones are dated, not older, and of the same name |
| `CRConfigStore.AcceptedIffNotBefore` | traffic_monitor/towrap/towrap.go:205-214 | Against a dated CRConfig one is accepted iff it is dated, not older, and of the same name |
| `CRConfigStore.NeverGoesBackBetween` | traffic_monitor/towrap/towrap.go:195-248 | The same between any two states of a run |
| `CRConfigStore.KeepsTheLastAccepted` | traffic_monitor/towrap/towrap.go:218-248 | The store holds the last accepted fetch of each CDN; rejected ones leave it as it was |
| `CRConfigStore.LastAcceptedIsLast` | traffic_monitor/towrap/towrap.go:218-248 | That fetch was accepted, and none after it |
| `CRConfigStore.RaceGoesBack` | traffic_monitor/towrap/towrap.go:242-247 | Two overlapping fetches over a dated CRConfig take the date back iff the second one stored is the older one |
| `CRConfigStore.InOrderIffNoneOverlap` | traffic_monitor/towrap/towrap.go:218-248 | For every schedule of checks and stores of any goroutines: what is stored is in order for all answers iff no check of a CDN falls between the check and the end of another fetch of it, the first two included |
| `CRConfigStore.StaysValid` | traffic_monitor/towrap/towrap.go:240-246 | Without overlap every checked fetch is still acceptable when it is stored |
| `TrafficStats.SendMetrics` | traffic_stats/traffic_stats.go:785-823 | The chunks, in new objects, are written or requeued by the outcome of their writes; without a connection the object itself is requeued; and a negative maximal size panics iff there is a point to send |
| `TrafficStats.EndsOrPanics` | traffic_stats/traffic_stats.go:234-236 | Under every configuration, with its default for zero, the loop panics iff the size is negative and there is a point, and ends otherwise |
| `TrafficStats.ConfiguredChunks` | traffic_stats/traffic_stats.go:234-236 | A configured size is used as it is; without one, chunks have at most 10000 points |
| `TrafficStats.ZeroNeverEnds` | traffic_stats/traffic_stats.go:795-811 | Were it zero, the loop would go on forever |
| `TrafficStats.ChunksAreThePoints` | traffic_stats/traffic_stats.go:795-811 | The chunks put together are the batch; each has at most the maximal size, and all but the last have just that |
| `TrafficStats.SendingConserves` | traffic_stats/traffic_stats.go:785-823 | With retry, written and requeued points are together those of the batch |
| `TrafficStats.Aggregator.Receive` | traffic_stats/traffic_stats.go:174-186 | The points that an object has when it is received are added to the object of its key, in place and also if it is the very same one; or it is stored |
| `TrafficStats.Aggregator.Publish` | traffic_stats/traffic_stats.go:157-161 | Every object of the map is handed over once, in any order, and none is kept |
| `Delivery.PointsAreConserved` | traffic_stats/traffic_stats.go:157-187 | In every interleaving of a program that sends no object with points twice, the points produced are, as a multiset, those in the map, with senders, on the channel and written, each object counted as often as it is referred to |
| `Delivery.ConservedIffSafe` | traffic_stats/traffic_stats.go:174-186 | All runs of a program do so iff no object is sent twice, unless no script with its key has a point |
| `Delivery.StepRefines` | traffic_stats/traffic_stats.go:157-187 | In a safe program every step on objects is a step on values: nobody else has an object that points are added to |
| `Delivery.UnsafeDoubles` | traffic_stats/traffic_stats.go:177-183 | A second send of an object doubles its points, or those that another one has added to it |
| `Delivery.DailySummaryDoubles` | traffic_stats/traffic_stats.go:279-286 | A daily summary with answers to both queries ends with every point twice in the map |
| `Delivery.OwnDestinationsAreKeptIff` | traffic_stats/traffic_stats.go:279-400 | Each point of the program keeps its destination in all runs iff no daily summary is sent twice, or those of its policy have no points |
| `Gathering.StepConserves` | traffic_stats/traffic_stats.go:157-187 | On values, every step of producer, main loop and sender keeps the number of each point |
| `Delivery.DestinationsAreKept` | traffic_stats/traffic_stats.go:176-185 | The same for points with their destination, if keys differ |
| `Delivery.SameKeyMisplaces` | traffic_stats/traffic_stats.go:176 | Were two destinations to have the same key, some run would put a point of one to the other, although each object is sent once; the destinations of the program do not |
| `Delivery.KeptIffKeysDiffer` | traffic_stats/traffic_stats.go:176 | For any destinations, all programs that send each object once keep them iff the keys of those in use differ |
| `TrafficStats.OwnKeysDiffer` | traffic_stats/traffic_stats.go:281 | Keys of destinations in the three databases of the program differ, whatever the retention policies |
| `Delivery.OwnDestinationsAreKept` | traffic_stats/traffic_stats.go:157-187 | In every interleaving and under every configuration each point of the program keeps its destination, if no daily summary is sent twice |

## Left out

- HTTP, gzip, JSON, logging, signals of the operating system, `traffic_ops`, `traffic_portal` and the user interfaces: plumbing around the core.
- Text of events, errors and "why" messages, and error strings in the sums: no decision depends on them.
- Floating-point rounding, overflow of `int64` counters, and wrap-around of 64-bit spans, event indices and poll ids: numbers are exact.
- `Combiner.Run`: with `peerOptimistic` set, as the only caller does; and for a log that events fit, as otherwise the first event ends the program.
- `Sorting.Sort`: `sort.Sort` is library code, here an insertion sort; only its result matters.
- `Thresholds.EvalCache`: server statuses and comparators are parsed already, and `GetVitals` (`traffic_monitor/health/cache.go:38-95`) is an input.
- `Availability.CalcAvailability`: one batch at a time, as its own comment demands for each manager; interleaving the health and stat batches on the shared stores is not modelled, and neither is the race between writers of delivery services.
- `Pipeline.EachPollInOneStage`: flushing by ticker and an empty channel are one nondeterministic step; the peer manager is the case of batches of one.
- `Handoff.TakenUpIff`: sending the configuration to the other pollers, which take it at once, and the fairness of `select`: what may happen is proved, not what must.
- `Poller.HttpPoller.Configure`: the `Handler` of a poll configuration, which is never set, and the transport without keep-alives; killing takes effect at once on the set of live pollers, and the delay until the goroutine ends is in `Pipeline`.
- `Fetcher.HttpFetcher.Fetch`: a URL that does not parse, at which the code dereferences a nil request.
- `CacheSet.Reconcile`: profiles and URL templates (a server has its URL), and configurations whose intervals are missing, which the code skips.
- `Gate.UnpolledCaches.SetPolled`: one time for a whole call.
- `StatHistory.ResultStatHistory.Add`: caches and stats are one flat key; values are the types JSON decoding makes. Not-a-number is not a value.
- `StatSummary.Summarize`: filters by cache and stat, and times of the summary.
- `CreateStats.Memory.CreateStats`: `CommonStats`, and the events and availability of delivery services that are derived from thresholds (`traffic_monitor/ds/stat.go:77-145`, `:262-295`): they are no part of the shared maps.
- `Passes.RunPasses`: the maps of all precomputed stats are in memory from the start, and the caches that report a service, which `CommonStats` holds, are an input.
- `LastStats.UpdateCaches`: rates of the caches themselves (`traffic_monitor/ds/stat.go:298-327`), which go through the same function.
- `ResultInfoHistory`, `Kbpses.AddMax`, `pruneHistory` and durations: the same pruning or a maximum, true but easy.
- `Ring.CRConfigHistory.Add`: the remote address of a failed request, which may itself be nil.
- `CRConfigStore.Session.CRConfigRaw`: the session pointer; fetch, check and store are one step, and `InOrderIffNoneOverlap` says what happens when they are not.
- `TrafficStats.SendMetrics`: `NewBatchPoints` errors, which a batch that exists cannot cause, and choosing a server in `influxConnect`. Precision goes with the first batch of a key.
- `Delivery.PointsAreConserved`: while running; on shutdown nothing is requeued. A producer adds all points of a send at once, right before it, and adding a point is one step: that two goroutines may append to one object at the same time is not modelled.
