# Models of the worker and the load balancer

This project models the stateful core of OpenLambda's worker (`worker/`) and of its load balancer
(`load_balancer/`) and proves what these components keep over every run.

- **The handler pool.** `HandlerPool` describes the pool as a state machine: `Get`, `RunStart`,
  `RunFinish`, `TryRemoveHandler`, the evictor's check and the rest of its round, and the delayed `nuke`.
  Each section that runs under locks is one step, and a run is any sequence of steps with any usage
  readings and any failures.
  `HandlerPoolProofs` proves the invariant of every run and that nothing in use is reclaimed;
  `HandlerPoolRuns` tells from the run alone which handler is kept, retired, evicted and handed out;
  `HandlerPoolExact` proves when the LRU agrees with the pool and what the evictor removes,
  `HandlerPoolCrashes` when the evictor crashes;
  `HandlerManagerSets` holds the classes, whose methods are proved to take these steps.
- **Admission of sandbox creations.** `Admission` models the guard loop of `RunStart`, the creation
  queue, the one-slot wake channels and the polling scheduler.
- **The import cache.** `SubsetMatcher` is the matcher, `ImportCache` the state machine of the cache,
  `ImportCacheProofs` its invariant and results, `CacheManagers` the class with its loops,
  `CacheDecisions` tells when a request adds a server and which, and what a check of the usage decides;
  `CacheEvictions` says what can be evicted, `CacheDuplicates` what import lists with duplicates do.
  `CacheLocks` is the lock protocol, one lock operation at a time, and `LockedCache` proves that every
  interleaving of it makes a run of `ImportCache`. `LockedRuns` says which waits for a lock come to an end
  and `LockedEvictions` which servers can still be unlisted, in the states of all interleavings;
  `FreshEntries` holds what they need about entries that were never hit.
- **The load balancer.** `LoadBalancer` holds load formulas, default limits, least load and the LARD
  choice; `LardChoices` tells when a path leaves its target and for whom; `RoundRobin` fairness and retries;
  `ProxyRuns` the runs of requests through the gate, the choice, the replies and the broadcast;
  `ProxyDecisions` whom the gate lets in, where a request is sent next and how round robin spreads all
  requests of a run; `Proxies` the class.
- **Two index structures.** `MetaRegistry` and `History`.

Handlers and fork servers are named by their creation order. A component that changes state in place is
a class whose methods are each proved equal to a step function, and the results are about all runs of
those step functions.

## What the proofs found

These properties hold only under a condition. For each, the exact condition is proved, and a failing run is
given where the condition does not already name one.

- The LRU's size and membership stay exact over a run if and only if no step takes an idle handler that is
  outside the LRU and records a usage, and no removal finds its handler back in the LRU
  (`ExactIffNeverSpoils`). Both take a `Get` in the gap between an over-limit finish and its removal.
- The evictor unlinks a handler that is not listed, which dereferences nil, in its loop if and only if the
  size stays over the limit until it gets to a retired handler in the queue (`LoopCrashesIff`). Some
  continuation of a run that adds no such handler leads there if and only if a removal of the run found its
  handler idle and back in the LRU (`EvictorCrashesIff`, `GetInTheWindowCrashesTheEvictor`).
- The sandbox of a request in service runs if and only if no start of its handler left a fresh sandbox
  stopped (`ActiveSandboxRunsIff`, `FailedStartIsHandedOut`).
- `numSbCreating` keeps counting creations that left by an error return. A handler is never admitted again
  if and only if it is never checked again, because it has a sandbox or no request can enter for it, or
  these alone fill the limit, with its own when it is creating (`StarvedIff`, `SomeRunStarves`).
- The matcher and the whole cache serve an import list rightly in every state if and only if the list has
  no duplicate (`SoundForEveryCacheIffDistinct`, `AlwaysServedRightIffDistinct`). What others ask for does
  not matter: the tree, its counts and its transparency are proved for runs with any lists.
- `newCacheEntry` adds up a size and does not store it, and the evictor's scan skips entries of size zero.
  When all entries are given one size, nothing is ever evicted if and only if it is zero
  (`NeverEvictedIffNoSize`, `NothingIsEverEvicted`).
- When a new entry does not come up, `Provision` returns with the entry's lock held, and the entry is never
  unlisted (`AbandonedStays`). The manager's lock is held for good if and only if its holder waits for the
  lock of such an entry, or has a request that this entry serves (`ManagerHeldForGoodIff`,
  `SecondRequestBlocksTheManager`).
- A failed creation counts as a child for good (`FailedCreationPinsServer`). Under the locks, a server can be
  unlisted if and only if the manager's lock is not held for good, no listed server from it downwards lacks
  a size or has seen a creation fail, and, when some entry was left with a size, the server is the victim
  already or can be chosen before any that was left (`UnlistedIff`).
- The round-robin loop compares with an index that is not reduced modulo the number of servers; it ends if
  and only if some server is left to try or the last choice was not the last server (`ProbeEndsIff`). With
  distinct names it ends in every run (`RoundRobinFindsServer`).
- LARD keeps servers within their limit under the two formulas that include connections as a maximum, and
  exceeds it by at most one under the others, under each of which some run does (`LardRespectsLimits`,
  `OtherFormulasOverfill`).
- PEEK is described as a lookup without modification (worker/server/hist.go:11), and the code inserts the
  name when it is not there; the model follows the code. The empty name, which a request path with an empty
  component produces (worker/server/server.go:280-295), stands for an unused cell. PEEK is right about every
  name in every state of a run if and only if no access to the empty name is an OPEN that finds a cell, or a
  PEEK or CLOSE that overwrites a closed entry in front of an open one (`PeekAlwaysTellsIff`,
  `CloseOfEmptyNameHidesOpen`, `EmptyNameMisleadsPeek`). The recorded names stay distinct and in a prefix
  under a like condition (`ValidIffNeverTears`).

## Model

| member | source | states |
|---|---|---|
| HandlerPoolProofs.InvRun | worker/handler/handler.go:206-260 | over every run of every configuration: lists and element maps agree and hold each handler once, queue and LRU map agree, runners split into waiting, running and failed requests, and a handler is listed exactly when it is not retired and below its limit |
| HandlerPoolProofs.InvRunFinish | worker/handler/handler.go:483-519 | from every state of a run, a finish keeps the invariant and never meets the double-insert panic of the LRU |
| HandlerPoolProofs.InvTryRemove | worker/handler/handler.go:331-350 | a removal keeps the invariant, whether or not another runner came in first |
| HandlerPoolProofs.InvEvict | worker/handler/handlerLru.go:114-142 | a round of the evictor keeps the invariant |
| HandlerPoolProofs.ActiveHandlersAreSafe | worker/handler/handler.go:466-478 | in every interleaving, a handler with a request between RunStart and RunFinish is not retired, nuked, queued for nuke or in the LRU, its sandbox is not paused, and it runs exactly when its first start did not fail |
| HandlerPoolProofs.OnlyIdleHandlersAreReclaimed | worker/handler/handlerLru.go:104-144 | in every interleaving, whichever step retires or nukes a handler found it without any runner, and a retired handler never gets one again |
| HandlerPoolProofs.GetReturnsLiveHandler | worker/handler/handler.go:227-260 | Get returns a handler of the lambda that is not retired, within its runner limit and out of the LRU |
| HandlerPoolProofs.MaxHandlersIsLongest | worker/handler/handler.go:316-329 | over every run, maxHandlers is the greatest length that the list of the lambda ever had |
| HandlerPoolProofs.ActiveSandboxRunsIff | worker/handler/handler.go:395-405 | over every run, the sandbox of a request in service runs if and only if no RunStart of its handler found no sandbox and left a stopped one |
| HandlerPoolProofs.FailedStartIsHandedOut | worker/handler/handler.go:391-405 | a run in which a request is served from a stopped sandbox |
| HandlerPoolRuns.LastFinishKeepsIff | worker/handler/handler.go:489-513 | a last finish keeps its handler if and only if the usage it reads is within the soft limit: then it is listed and at the front of the LRU with the usage read there; otherwise it is pending removal outside the LRU; the sandbox is paused in both cases unless pausing fails |
| HandlerPoolRuns.BusyFinish | worker/handler/handler.go:489-516 | a finish that leaves other runners gives up one runner, and the LRU, the removals and all other handlers stay |
| HandlerPoolRuns.RetiredOnlyFor | worker/handler/handler.go:500-510 | over every run, a handler is retired only if the run evicted it or a last finish of it read a usage above the limit, and pending removal only after such a finish |
| HandlerPoolRuns.RunnersAreRequests | worker/handler/handler.go:227-255 | over every run, a handler's runners are the requests that Get handed it less those that finished; those in service have started and not finished, and failed starts are lost |
| HandlerPoolRuns.StartResumes | worker/handler/handler.go:391-477 | a start makes a sandbox only when there is none, resumes it exactly when it is paused and that succeeds, and leaves others alone |
| HandlerPoolRuns.LatestIsHandedOut | worker/handler/handler.go:229-243 | over every run, Get makes a handler only when none of the lambda is listed, and otherwise hands out the one that was listed last |
| HandlerPoolRuns.ListedWhen | worker/handler/handler.go:316-329 | a handler is listed if and only if it is not retired and below its runner limit, except one that a limit of one left idle outside the LRU |
| HandlerPoolRuns.QueueIsByLastFinish | worker/handler/handlerLru.go:69-85 | over every run, the queue of the LRU is in the order of the last finishes, the latest in front |
| HandlerPoolRuns.LongestIdleIsEvicted | worker/handler/handlerLru.go:124-128 | the evictor's victim finished before every other handler in the LRU |
| HandlerPoolRuns.RetiredAreNuked | worker/handler/handler.go:505-508 | over every run, whoever is retired is nuked, with its sandbox stopped, or about to be, and nobody else is |
| HandlerPoolRuns.EvictorStartsIff | worker/handler/handlerLru.go:107-110 | while the LRU is exact, the evictor goes ahead if and only if the idle handlers together use more than the soft limit |
| HandlerPoolExact.ExactStep | worker/handler/handlerLru.go:87-100 | a step from an exact state keeps the LRU exact if and only if it does not spoil it, and never crashes |
| HandlerPoolExact.ExactIffNeverSpoils | worker/handler/handler.go:500-510 | over whole runs with the over-limit finish in two steps, the LRU is exact throughout if and only if no step spoils it |
| HandlerPoolExact.AtomicRunsAgree | worker/handler/handler.go:483-519 | with finish and removal as one step, in every reachable state: in the LRU iff idle and not retired, listed iff not retired and below the limit, lists and maps agree, size is the summed usage, no crash |
| HandlerPoolExact.EvictRoundsRemoveShortestRun | worker/handler/handlerLru.go:104-144 | repeated rounds end within a limit that is not negative, and with an empty queue under a negative one, having retired exactly the shortest sufficient run of least recently idle handlers and nothing else |
| HandlerPoolCrashes.RoundCrashesIff | worker/handler/handlerLru.go:124-137 | a round of the evictor crashes if and only if the handler at the back of the queue is retired |
| HandlerPoolCrashes.DoomedStep | worker/handler/handler.go:500-510 | a step brings a retired handler into the LRU if and only if it removes a handler that is idle and back there, and no step takes one out |
| HandlerPoolCrashes.LoopCrashesIff | worker/handler/handlerLru.go:104-144 | with nothing added meanwhile, the evictor's loop, check included, crashes if and only if the queue holds a retired handler with nobody retired behind it such that without those behind it the size is still over the limit |
| HandlerPoolCrashes.EvictorCrashesIff | worker/handler/handlerLru.go:133-137 | over whole runs, check included: some continuation without another removal of a queued handler crashes the evictor if and only if some removal of the run found its handler idle and back in the LRU |
| HandlerPoolCrashes.GetInTheWindowCrashesTheEvictor | worker/handler/handler.go:500-513 | a run through the gap after an over-limit finish, in which the usage is read twice, within the limit for the check and above it for the LRU; the evictor sees the size over the limit and dereferences nil |
| HandlerManagerSets.HandlerLRU.Add | worker/handler/handlerLru.go:69-85 | the new queue, map and size are those of the step function |
| HandlerManagerSets.HandlerLRU.Remove | worker/handler/handlerLru.go:88-100 | unlinks the entry if there is one and subtracts the usage in any case |
| HandlerManagerSets.HandlerManagerSet.Get | worker/handler/handler.go:206-260 | takes the Get step and returns the handler that the step hands out |
| HandlerManagerSets.HandlerManagerSet.StartSandbox | worker/handler/handler.go:391-475 | a successful start leaves a sandbox that runs exactly when it was not found stopped |
| HandlerManagerSets.HandlerManagerSet.RunStart | worker/handler/handler.go:355-478 | takes the RunStart step; a failed start stays counted as a runner |
| HandlerManagerSets.HandlerManagerSet.RunFinish | worker/handler/handler.go:483-519 | takes the RunFinish step, in its three branches |
| HandlerManagerSets.HandlerManagerSet.TryRemoveHandler | worker/handler/handler.go:331-350 | removes exactly when nobody runs, and takes the TryRemove step |
| HandlerManagerSets.HandlerManagerSet.EvictOne | worker/handler/handlerLru.go:114-142 | takes the rest of a round after its check, the empty queue and the nil dereference included |
| HandlerManagerSets.HandlerManagerSet.Evictor | worker/handler/handlerLru.go:104-144 | from any state of a run the loop ends in the state that the rounds give; from an exact one without a crash, at the shortest sufficient eviction and within a limit that is not negative |
| Admission.InvRun | worker/handler/handler.go:363-389 | the invariant of the admission protocol over every run |
| Admission.OneTokenPerWaiter | worker/handler/handler.go:366-374 | in every interleaving a handler is once in the queue or has one token exactly while it waits, never both |
| Admission.SchedulerNeverBlocks | worker/handler/handler.go:189-203 | the scheduler's send under the lock never blocks: the channel of the head of the queue exists and is empty |
| Admission.CreatingCount | worker/handler/handler.go:375-427 | numSbCreating is the creations in progress plus those that left by an error return |
| Admission.CheckAdmitsIff | worker/handler/handler.go:366-376 | in every reachable state, a check admits its creation if and only if there is no limit or the memory in use and the average usage of the creations in progress, the leaked ones and this one fit it; otherwise its handler is about to queue |
| Admission.HandlerMoves | worker/handler/handler.go:363-427 | in every reachable state: a handler is admitted only by a check of its own, which it makes on entering and again with each token; it waits behind those in the queue, or, when the queue has no slots, once the scheduler has room and takes it over; a creation gives up its place unless it leaks |
| Admission.PollWakesIff | worker/handler/handler.go:192-199 | in every reachable state, a poll wakes exactly the head of the queue, if and only if there is one and, under a limit, one more creation fits it; otherwise it changes nothing |
| Admission.LeakedAreFailures | worker/handler/handler.go:381-421 | over every run, one creation is leaked for each error return and for nothing else |
| Admission.QueueIsFair | worker/handler/handler.go:371-372 | over every run, the queue is in the order in which its handlers joined it |
| Admission.ReadyIff | worker/handler/handler.go:363-391 | over every run, a handler has a sandbox if and only if some creation of it succeeded or failed after making one |
| Admission.RunnersAreGets | worker/handler/handler.go:250-255 | over every run, a handler's runners are the requests handed to it, never more than the limit |
| Admission.StarvedIff | worker/handler/handler.go:363-389 | in every reachable state and for every handler: every later check queues it, whatever the run and the memory reading, if and only if it has a sandbox, or no request can enter for it, or the leaked creations fill the limit, with its own failure when it is creating; otherwise some continuation admits it |
| Admission.SomeRunStarves | worker/handler/handler.go:381-389 | under every positive limit and average usage and any limit on runners, a run after which a handler that no request has used is starved by the failures of others |
| SubsetMatcher.Match | worker/import-cache/subsetMatcher.go:10-34 | the nested loops compute the best server, the remaining list and the hit flag |
| SubsetMatcher.BestUpToIsBest | worker/import-cache/subsetMatcher.go:25-30 | the choice is the earliest server of greatest count among those that pass the test, for any list |
| SubsetMatcher.PassesIffSubset | worker/import-cache/subsetMatcher.go:26 | for duplicate-free lists the counting test is the subset test |
| SubsetMatcher.RemainderSound | worker/import-cache/subsetMatcher.go:16-23 | the remainder holds exactly the modules that the server lacks |
| SubsetMatcher.MatchOnDistinct | worker/import-cache/subsetMatcher.go:10-34 | for duplicate-free lists: earliest non-root server of greatest import count among the subsets, a hit iff one exists, the remainder in order |
| SubsetMatcher.BestIsNew | worker/import-cache/subsetMatcher.go:25-30 | for any list with something left to import, duplicates or not: the new entry has more imports than the chosen server and others than every server |
| SubsetMatcher.BestCovers | worker/import-cache/subsetMatcher.go:10-34 | the chosen server's imports and the list sent to it split the request |
| SubsetMatcher.SoundForEveryCacheIffDistinct | worker/import-cache/subsetMatcher.go:26 | the choice is right on every cache if and only if the list has no duplicate |
| ImportCache.ImportModules | lambda/server.py:93-101 | the import loop of a forked process leaves the parent's modules plus the importable ones of the list |
| ImportCacheProofs.InvRun | worker/import-cache/cacheManager.go:72-186 | the invariant of the cache over every run of provisions, evictions and kills, with any import lists and any sizes |
| ImportCacheProofs.CacheIsTransparent | worker/import-cache/cacheManager.go:79-121 | in every run, with any lists of others: each process whose own list has no duplicate holds exactly what importing it from scratch gives, and each server has loaded what it records |
| ImportCacheProofs.FlightsUseListedServers | worker/import-cache/cacheManager.go:101-115 | a request on its way holds the lock of a listed, living server alone, whose imports and the list sent make up the request when that has no duplicate |
| ImportCacheProofs.ChildrenAccounting | worker/import-cache/forkServer.go:38-52 | Children is listed children plus pending kills plus failed creations; at zero no listed or pending server is a child |
| ImportCacheProofs.ListIsATree | worker/import-cache/evictor.go:90-111 | the root stays first, the list is closed under parents, imports strictly contain the parent's, no two listed servers have the same imports |
| ImportCacheProofs.HitAccounting | worker/import-cache/forkServer.go:28-36 | the root's hits are all hits, and no server has fewer hits than its listed children together |
| ImportCacheProofs.HitEffect | worker/import-cache/forkServer.go:28-36 | a hit adds one to the server and its ancestors and changes nothing else |
| ImportCacheProofs.ScanFindsVictim | worker/import-cache/evictor.go:95-102 | the scan finds the first evictable server of least ratio, never the root |
| CacheDecisions.BeginDecides | worker/import-cache/cacheManager.go:79-115 | over every run, a request adds a server if and only if its creation succeeds, something remains to be imported and the last usage that the run read was within the limit; the server goes to the end of the list, below the chosen one and with its modules and those of the request; a failed creation changes only counts, and otherwise the request is on its way with what the chosen server lacks |
| CacheDecisions.BeginChooses | worker/import-cache/cacheManager.go:82-85 | for a list without duplicates, the chosen server is the earliest of those with the most imports that the list includes, and nothing remains if and only if some server has just its modules |
| CacheDecisions.FullIsLastReading | worker/import-cache/evictor.go:62-73 | over every run, the full flag is what the last check of the usage read, and not set before the first |
| CacheDecisions.CheckDecides | worker/import-cache/evictor.go:62-102 | a check chooses a victim if and only if the usage is over the limit and some server other than the root has no children and was given a size; it is the first with the fewest hits for its size, by cross multiplication |
| CacheDecisions.ForkDecides | worker/import-cache/cacheManager.go:117-127 | a fork request takes its request off the way, and leaves a process of it behind if and only if it succeeds |
| CacheDecisions.HitsAreForks | worker/import-cache/forkServer.go:28-36 | over every run, the root was hit once for each fork request, and there is one process for each that succeeded |
| CacheDecisions.EntriesArePlaced | worker/import-cache/evictor.go:104-111 | over every run, each entry ever made is listed, waits to be killed, or is dead |
| CacheEvictions.VictimFoundIff | worker/import-cache/evictor.go:90-102 | a check over the limit finds a victim if and only if some listed server other than the root has no children and was given a size; it is the first of least ratio |
| CacheEvictions.NothingIsEverEvicted | worker/import-cache/cacheManager.go:141-156 | with the size that the code gives, no run evicts anything |
| CacheEvictions.NeverEvictedIffNoSize | worker/import-cache/cacheManager.go:141-156 | with one size for all entries, no run evicts anything if and only if the size is zero |
| CacheEvictions.FailedCreationPinsServer | worker/import-cache/cacheManager.go:158-179 | for entries of any size, a run in which a creation below an entry fails, after which no continuation unlists the entry |
| CacheDuplicates.AlwaysServedRightIffDistinct | worker/import-cache/cacheManager.go:79-121 | a request is served rightly in the states of all runs, with any lists of others, if and only if it has no duplicate |
| CacheManagers.CacheManager.BeginProvision | worker/import-cache/cacheManager.go:79-115 | takes the Begin step, reports the hit and fails exactly when a needed entry cannot be made |
| CacheManagers.CacheManager.NewCacheEntry | worker/import-cache/cacheManager.go:137-186 | the new entry's imports and modules, and the base's count, also on failure |
| CacheManagers.CacheManager.Hit | worker/import-cache/forkServer.go:28-36 | the walk ends because ancestors' imports shrink, and adds the hits of the step |
| CacheManagers.CacheManager.FinishProvision | worker/import-cache/cacheManager.go:117-127 | takes the Fork step; for a duplicate-free request the process holds what importing from scratch gives |
| CacheManagers.CacheManager.FindVictim | worker/import-cache/evictor.go:90-102 | the loop returns the first evictable server of least ratio, or none |
| CacheManagers.CacheManager.CheckUsage | worker/import-cache/evictor.go:62-73 | sets the full flag and chooses a victim when over the limit |
| CacheManagers.CacheManager.FinishEvict | worker/import-cache/evictor.go:104-111 | takes the victim off the list and leaves it to be killed |
| CacheManagers.CacheManager.KillServer | worker/import-cache/forkServer.go:38-52 | marks the server dead and takes it off its parent's count |
| CacheLocks.InvRun | worker/import-cache/cacheManager.go:79-127 | the invariant of the lock protocol over every interleaving |
| CacheLocks.ForkRequestsExclude | worker/import-cache/cacheManager.go:88-127 | at most one fork request is in progress on each server, by the holder of its lock |
| CacheLocks.EvictedServersAreNotForked | worker/import-cache/evictor.go:104-111 | no fork request is in progress on an evicted server or about to be sent to one |
| CacheLocks.LockOrder | worker/import-cache/cacheManager.go:79-127 | a server's lock is taken only with the manager's and no other server's in hand, the manager's with none; nobody releases another's lock |
| CacheLocks.SomeThreadCanMove | worker/import-cache/cacheManager.go:79-127 | there is no deadlock while no thread has left with a server's lock |
| LockedCache.InterleavingsAreCacheRuns | worker/import-cache/cacheManager.go:79-127 | for every interleaving of lock operations: the cache makes a run of its model and each of its steps is enabled there, a server is in use exactly while a thread that holds or is about to take its lock is on its way with it, and an eviction is going on exactly while the holder of the manager's lock is at it |
| LockedCache.TransparentInEveryInterleaving | worker/import-cache/cacheManager.go:79-127 | in every interleaving of lock operations, each process of a duplicate-free request holds what importing it from scratch gives |
| LockedRuns.AbandonedStays | worker/import-cache/cacheManager.go:101-107 | in every interleaving, an entry whose creator has left with its lock is never unlisted and its lock never given back |
| LockedRuns.ManagerHeldForGoodIff | worker/import-cache/cacheManager.go:79-107 | in the state of every interleaving, the manager's lock is held for good if and only if its holder waits for, or has a request that the matcher gives to, an entry whose creator has left; otherwise some continuation releases it |
| LockedRuns.SecondRequestBlocksTheManager | worker/import-cache/cacheManager.go:105-107 | an interleaving of two requests for the same modules that gets there, for entries of any size |
| FreshEntries.NeverHitIsLocked | worker/import-cache/cacheManager.go:99-118 | in every run, an entry that was never hit is still locked by a request, has no child and saw no creation fail, and the list is in the order of creation |
| LockedEvictions.UnlistedIff | worker/import-cache/evictor.go:90-111 | in the state of every interleaving, some continuation unlists a server other than the root if and only if the manager's lock is not held for good, no listed server from it downwards lacks a size or has seen a creation fail, and no entry was left with a size, or the server is the victim already, or it was never hit, comes before those that were left, and its creator is on its way with nobody at the manager's lock waiting for it |
| LoadBalancer.LeastLoadIsLeast | load_balancer/proxy.go:136-160 | a server is found iff some server within its limit has load below one, and it is the first of least load from the start of the scan on |
| LoadBalancer.LardPickIsBelowLimit | load_balancer/proxy.go:102-134 | whoever LARD picks is within its limit, strictly so under the formulas that include connections as a maximum, and not among those tried for a known path |
| LardChoices.KnownPathMovesIff | load_balancer/proxy.go:107-121 | a known path leaves its target if and only if the target has the high load while some server has less than the low one, or has twice the high load, or is at its limit; it goes to the first of least load, which becomes its target, and keeps its target otherwise; tried servers are refused; and exactly when nil is dereferenced |
| LardChoices.NewPath | load_balancer/proxy.go:122-132 | a new path goes to the first server of least load from the moving start, which becomes its target |
| LardChoices.StepBecomes | load_balancer/proxy.go:125-133 | a choice adds one connection to the chosen server, makes it the target of the path and changes nothing else, but for the start of the next scan when it scanned from there |
| LoadBalancer.ConnectionsFormula | load_balancer/server.go:22-28 | the load by connections is zero at none, one at the limit or the largest integer, and grows evenly |
| LoadBalancer.AverageFormula | load_balancer/server.go:30-34 | the average of equal usages is their value, and shifting usage from one to the other leaves it alone |
| LoadBalancer.AverageOfThreeFormula | load_balancer/server.go:30-37 | the same with the share of connections as a third |
| LoadBalancer.DominantFormula | load_balancer/server.go:38-45 | the dominant load is one of the usages, and with connections the share of these, and none is above it |
| LoadBalancer.FullLoad | load_balancer/server.go:22-28 | the load by connections is below one exactly below the limit |
| LoadBalancer.ProbeFindsUntried | load_balancer/proxy.go:77-98 | the probe finds a server whenever one was not tried |
| LoadBalancer.ProbeIsNext | load_balancer/proxy.go:77-98 | the probe takes the next server after the last choice, around the list, that was not tried |
| RoundRobin.TimesExact | load_balancer/proxy.go:73-100 | the exact number of times each server is chosen in any number of choices |
| RoundRobin.RoundRobinIsFair | load_balancer/proxy.go:73-100 | each server is chosen the quotient, rounded down or up |
| RoundRobin.ProbeEndsIff | load_balancer/proxy.go:78-91 | the probe loop ends if and only if some server was not tried or the last choice was not the last server |
| RoundRobin.AttemptsAreDifferent | load_balancer/proxy.go:238-272 | one request is sent to different servers, exactly as many as refuse plus one, at most three and at most all |
| RoundRobin.AttemptsAreInTurn | load_balancer/proxy.go:238-272 | the servers that one request is sent to are those after the last choice, in turn |
| ProxyRuns.ConnectionsAreCounted | load_balancer/proxy.go:262-293 | in every interleaving each server counts its attempts, the sum is the attempts in progress, at most the proxy's connections, at most its limit |
| ProxyDecisions.GateAdmitsIff | load_balancer/proxy.go:279-284 | a request is let in, on arrival and after each wakeup, if and only if there is no limit or fewer connections than that; otherwise it sleeps |
| ProxyDecisions.UnlimitedNeverSleeps | load_balancer/proxy.go:280-282 | without a limit, nobody sleeps in any run |
| ProxyDecisions.LeavingWakesAll | load_balancer/proxy.go:288-292 | a request that leaves gives back one connection, and its broadcast wakes every sleeper and nobody else |
| ProxyDecisions.RoundRobinSends | load_balancer/proxy.go:238-257 | a request with attempts left is sent to the next server that has not refused it, which gains the connection and is where the next choice starts; when all have refused it, it is over unless the last choice was the last server |
| ProxyDecisions.LardSends | load_balancer/proxy.go:238-257 | a request with attempts left is sent where LARD chooses, and is over when that finds nobody |
| ProxyDecisions.ReplyDecides | load_balancer/proxy.go:262-275 | a reply takes one connection off its server; after a refusal the request has one more server tried, after any other reply it is over; the reported usages replace those of one server |
| ProxyDecisions.ChoicesAreInTurn | load_balancer/proxy.go:73-100 | over every run in which nothing is refused, and in any interleaving, the choices take the servers in turn |
| ProxyDecisions.RunsAreFair | load_balancer/proxy.go:73-100 | so each server is chosen the number of choices over the number of servers, rounded down or up |
| ProxyRuns.NoLostWakeup | load_balancer/proxy.go:277-293 | if a request sleeps while there is no limit or fewer connections than that, a finished one still has its broadcast to make |
| ProxyRuns.LardRespectsLimits | load_balancer/proxy.go:107-132 | over every run LARD keeps a limited server within its limit under two formulas, within one more under all |
| ProxyRuns.OtherFormulasOverfill | load_balancer/proxy.go:150-152 | under each other formula, a run that puts a server above its limit |
| ProxyRuns.RoundRobinRetriesElsewhere | load_balancer/proxy.go:268-271 | over every run, a request is never sent again to a server that refused it |
| ProxyRuns.RoundRobinFindsServer | load_balancer/proxy.go:73-100 | over every run with distinct names, whenever a request with attempts left chooses, the probe finds a server and its loop ends |
| ProxyRuns.SomeServerHasRoom | load_balancer/config.go:112-126 | while an admitted request has no attempt in progress, some server is below its limit |
| ProxyRuns.FirstAttemptFindsServer | load_balancer/proxy.go:102-160 | with default limits and the connections formula, the first LARD attempt of every admitted request gets a server |
| Proxies.Proxy.SetDefaultValues | load_balancer/config.go:92-126 | a server limit of zero becomes none, thresholds of zero 0.4 and 0.2, and a proxy limit of zero the sum of the servers' limits, or none when there is no server or one without limit; other values stay |
| Proxies.Proxy.SumLimits | load_balancer/config.go:116-124 | the loop gives the sum of the limits, or no limit when some server has none |
| Proxies.Proxy.GetLeastLoad | load_balancer/proxy.go:136-160 | the scan's result, found exactly when there is a candidate, and the moved index |
| Proxies.Proxy.LardChooseServer | load_balancer/proxy.go:102-134 | the choice and the new state are those of LARD, nil dereferences included |
| Proxies.Proxy.RoundRobinChooseServer | load_balancer/proxy.go:73-100 | under the exact condition for its end, the loop returns the probe's server and counts the connection |
| Proxies.Proxy.AttemptServers | load_balancer/proxy.go:238-275 | the servers that one request is sent to; all connections are given back |
| MetaRegistry.DepsAreFirstPush | load_balancer/metaregistry.go:61-108 | after any pushes, a handler's dependencies are those of its first push |
| MetaRegistry.UsersMirrorDeps | load_balancer/metaregistry.go:102-105 | a handler occurs among a package's users as often as the package among its dependencies |
| MetaRegistry.GraphOfPushes | load_balancer/metaregistry.go:61-108 | both directions of the graph after any pushes, in terms of the first push of each handler |
| MetaRegistry.UsersAreInOrder | load_balancer/metaregistry.go:159-173 | the users of a package are told in the order in which they were pushed, and each of them named it |
| MetaRegistry.PushKeepsParts | load_balancer/metaregistry.go:73-105 | a push keeps ids and names inverse to each other, in both tables, and both directions of edges |
| MetaRegistry.Registry.Push | load_balancer/metaregistry.go:61-108 | a known handler is refused and nothing changes; otherwise the log grows by the entry and the tables stay in order |
| MetaRegistry.Registry.RegisterPackages | load_balancer/metaregistry.go:87-97 | the first loop gives an id to each package without one |
| MetaRegistry.Registry.Link | load_balancer/metaregistry.go:102-105 | the second loop adds the edges in both directions |
| MetaRegistry.Registry.PeekHandlerDeps | load_balancer/metaregistry.go:142-157 | returns the dependencies of the handler in the log of accepted pushes |
| MetaRegistry.Registry.PeekDepsUsedBy | load_balancer/metaregistry.go:159-173 | returns the users of the package in the log, with multiplicity |
| History.LambdaHistoryHandler.HandlerAccess | worker/server/hist.go:62-126 | the loops on the two arrays take the step of the table |
| History.LambdaHistoryHandler.FindClosed | worker/server/hist.go:86-99 | the probe finds the first closed cell from the random one, and gives up exactly when all are open |
| History.AccessDecides | worker/server/hist.go:62-126 | an access fails, changing nothing, exactly when all cells are open and hold other names; otherwise it takes the first cell that holds the name or is unused, or else the closed cell nearest to the random one, which then holds the name; OPEN opens it, CLOSE closes it, PEEK tells, and other cells stay |
| History.AccessKeepsValidIff | worker/server/hist.go:62-126 | from a table in order, any access keeps the names distinct and in a prefix if and only if it is not one to the empty name that is an OPEN finding a cell, or a PEEK or CLOSE overwriting a closed entry other than the last |
| History.ValidIffNeverTears | worker/server/hist.go:62-126 | over whole runs, names stay distinct and in a prefix in every state if and only if no access is of that kind |
| History.AccessKeepsFindableIff | worker/server/hist.go:69-102 | any access keeps every open entry findable by its name if and only if it does not open a cell without a name or put an unused cell in front of an open entry |
| History.OpenEntriesStay | worker/server/hist.go:91-102 | an open entry is never overwritten, by an access to any name |
| History.AccessRefinesSet | worker/server/hist.go:105-125 | the table behaves as a set of open names bounded by its size, in state and result, for any name as long as the access does not mislead |
| History.PeekTellsOpen | worker/server/hist.go:117-123 | after any accesses that do not mislead, and any random numbers, PEEK returns 1 exactly when an OPEN returned 1 with no CLOSE since |
| History.PeekAlwaysTellsIff | worker/server/hist.go:62-126 | over whole runs, PEEK is right about every name in every state if and only if no access misleads |
| History.NamedNeverMisleads | worker/server/hist.go:69-82 | a run whose accesses all name a handler never tears and never misleads |
| History.EmptyNameMisleadsPeek | worker/server/hist.go:77-82 | after an OPEN of the empty name, PEEK claims a name open that never was |
| History.CloseOfEmptyNameHidesOpen | worker/server/hist.go:86-102 | a run that never opens the empty name and closes it once, after which PEEK denies a name that is open |

## Left out

- Objects and aliasing: handlers and fork servers are entries of a table, not pointers; a list with its element map is a sequence with a key set.
- Interleaving inside a section that runs under locks, other than in `CacheLocks` and `LockedCache`; counters that the code updates without a common lock (`Hits`, and `Children` in `Kill`) are taken as updated atomically, and so is choosing a server together with counting its connection.
- The signal that wakes the evictor: it goes on whenever it finds the size over the limit, and each addition over the limit signals.
- ImportCacheProofs.CacheIsTransparent: says nothing of a process whose own import list has a duplicate, because `AlwaysServedRightIffDistinct` shows the property false for it; which modules can be imported is fixed for a run.
- History.PeekTellsOpen: asks for a run without a misleading access, because `PeekAlwaysTellsIff` shows the property false otherwise; and for a positive size, because with size zero the code divides by zero.
- ProxyRuns.FirstAttemptFindsServer: fewer than 2^63 - 1 requests in a run, since a server without limit has load below one only that long.
- Proxies.Proxy.RoundRobinChooseServer: asks for the exact condition under which its loop ends.
- Floating point: loads, sizes and ratios are real numbers, sizes are not negative, division by zero in the evictor is written out. Integers do not wrap around.
- LARD retries: the path of a retry is arbitrary, since the request is rewritten between attempts; usage that a reply reports goes to an arbitrary server. A configuration with an unknown load formula is not modelled.
- Sandboxes are stopped, running or paused; Docker, SOCK, cgroups, mounts, namespaces, pipes and the fork request itself are not part of this model, nor are HTTP, JSON and file reading.
- Memory and usage readings, random numbers, failures and refusals are inputs; registry pulls succeed. In the import cache a new entry that does not come up is a request that never forks.
- `Cleanup`, `Dump`, `EvictorByIdleTime`, `evictLastHandler`, `NewHmHandlerLRU` and `chooseServer` are not modelled: the first two end or print, the others are never started or called.
- `cache_loop` beyond its import loop: process management is left out.
- worker/pip-manager, worker/sandbox, the administration and benchmark tools would only add input and output or easy members.
