# Verified core of the iris framework and its nginx services

The repository runs in-memory services inside nginx on top of the iris concurrency framework. This
project models the parts of it whose correctness is hardest to see and proves what they promise.

Protocols between threads are state machines: one action is one access to shared memory, and the main
theorems speak about every state of every run, that is, of every interleaving of any number of threads.
Code that works on objects and buffers is a class or a method with loops, proved against functions whose
own properties are lemmas. States carry histories for the proofs; the files named `*Runs.dfy` and
`SpscCalls.dfy` show that these are exactly the actions of the run and restate the promises as what
calls achieve.

| file | what it models |
|---|---|
| `Dispatcher*.dfy` | the task graph: allocate, order with junction splitting, defer, dispatch, execute |
| `WarpExclusion*.dfy`, `WarpBarrier*.dfy` | a warp's exclusive and parallel routines; versioned barriers |
| `Pool*.dfy` | the worker pool's lock-free task chains, at pointer level |
| `Codec*.dfy` | the binary codec for Lua values with back references |
| `KdTree*.dfy` | the in-place kd-tree of boxes: attach, detach, both queries, optimize, rebuild; whole histories |
| `Slab*.dfy`, `RootAllocator.dfy` | the reference-counted slab allocator, its recycle limit, and the page allocator below it |
| `SpscCounters.dfy`, `SpscRing.dfy`, `SpscCalls.dfy`, `SpscList.dfy`, `SpscListRuns.dfy` | the single-producer ring with stale shadow counters; the list of chained rings, each node stepping as a ring does |
| `SpscFailures.dfy`, `SpscListFailures.dfy` | the runs in which ring and list fail, and exactly when there are none |
| `Quota*.dfy`, `Pipe*.dfy` | the quota with its queue of waiters; its lost wakeup; the coroutine pipe |
| `Sha256*.dfy`, `Hmac.dfy`, `Base64Url.dfy` | FIPS 180-4, RFC 2104 and section 5 of RFC 4648 as the services compute them |
| `Lru.dfy`, `Sieve.dfy` | the LRU cache with time to live; the segmented prime sieve |

Atomic operations are sequentially consistent steps; a compare-and-exchange loop is one step at the
moment it succeeds or gives up, except where its parts matter (`Pool`). Clocks, addresses returned by
the system and the choices of callers are arguments of the actions.

## Where the code does not do what it promises

- **Ring and list, counter wrap.** `diff_counter` of a capacity that is not a power of two misreads a
  shadow that lags by one across the wrap when twice the capacity is at most three times the power of two
  below it (3, 5, 6, 9 to 12, ...): `empty()` then answers false on an empty ring, and the pop that
  follows reads a slot that was never filled. `SpscFailures.UnsafeCapacityBreaks` gives the run of the
  ring for every such capacity, `SpscListFailures.UnsafeCapacityBreaks` the run of the list.
- **Ring and list, stale producer shadow.** The comment at `maybe_full()` says that a negative answer is
  always exact. A bulk push does not refresh the producer's shadow, so it can lag by any amount; from a
  lag on (`Horizon`, at least 2^32) `diff_counter` no longer sees it, and a single push writes over an
  unread element. `SpscFailures.StaleShadowBreaks` and `SpscListFailures.StaleShadowBreaks` give the run
  for every capacity; `SpscCounters.LagSeenIffTrusted` says which lags `maybe_full()` recognises.
  `SpscFailures.SoundExactlyWhen` and `SpscListFailures.SoundExactlyWhen` put both conditions together:
  no slot is ever misused if and only if the capacity is safe and single pushes are made at lags below
  the horizon.
- **Quota with several quantities.** A failed attempt that gives back what it took can make the first
  waiter's request fit with nobody left to look. `QuotaWakeup.LostWakeup` is such a run for every number
  of quantities from two on, and `QuotaWakeup.NeverLostIffOne` concludes that wakeups are safe exactly
  with at most one. Callers of a larger quota are safe if each request names at most one quantity
  (`QuotaWakeup.SingleRequestsAreSeen`).
- **Dispatcher, early dispatch of a deferred handle.** `DispatcherProgress.EarlyDispatchClashes` lets two
  threads into one routine. `DispatcherProgress.ClashExactlyWhenEarly` says for every run that it happens
  if and only if the last lock of a routine was released between the start of its body and the check
  after it; a dispatch that leaves a lock is harmless at any time.
- **Slab, recycle limit.** The comment on the template says that a limit of 0 means no limit; the code
  compares `recycle_count < r`. `SlabRecycle.RecyclesIffPositive` shows that blocks are recycled at all if
  and only if the limit is above 0.

## Model

| member | source | states |
|---|---|---|
| Dispatcher.FirstFree | src/iris/iris_dispatcher.h:1013-1020 | the chosen successor slot is the first empty one |
| DispatcherGraph.OrderLinks | src/iris/iris_dispatcher.h:1004-1032 | `order_internal` changes the graph below one holder only: the routine itself, or a junction that nothing but it leads to |
| DispatcherGraph.OrderIsExact | src/iris/iris_dispatcher.h:967-970 | after `order(from, to)` a client routine precedes another if and only if it did before or the new pair makes it so, whether a slot was free, a junction was descended or a new one added |
| DispatcherGraph.OrderKeepsAcyclic | src/iris/iris_dispatcher.h:1023-1032 | splitting through junctions closes no cycle if the requested pair does not |
| DispatcherProofs.StepKeeps | src/iris/iris_dispatcher.h:955-1101 | the invariant behind the theorems below survives every step of allocate, order, defer, dispatch and execute |
| DispatcherProofs.OrderRespected | src/iris/iris_dispatcher.h:1066-1101 | in every run a body starts only after every routine ordered before it completed, deferrals included; a routine completes only after it started, so chains are kept; nothing starts or completes twice |
| DispatcherProofs.CountsConserved | src/iris/iris_dispatcher.h:955-997 | every lock_count is the handles held plus the slots pointing at the routine; pending_count is the live routines plus those just freed; no routine is entered by two threads |
| DispatcherProofs.AssertionsHold | src/iris/iris_dispatcher.h:1004-1011 | the assertions of the source hold wherever it evaluates them |
| DispatcherProgress.NeverStuck | src/iris/iris_dispatcher.h:980-997 | with all handles dispatched and routines pending, some internal step is enabled |
| DispatcherProgress.WorkDrops | src/iris/iris_dispatcher.h:1066-1101 | every internal step lowers a bound, so they end |
| DispatcherProgress.DrainedRanEverything | src/iris/iris_dispatcher.h:1080-1100 | when pending_count is zero, every client routine has started and completed exactly once |
| DispatcherProgress.EarlyDispatchClashes | src/iris/iris_dispatcher.h:1066-1090 | a deferred handle dispatched before `execute` re-reads lock_count lets a second thread into the routine: a concrete run |
| DispatcherProgress.ClashExactlyWhenEarly | src/iris/iris_dispatcher.h:980-997 | in every run that orders only before the target starts, two threads have entered a routine if and only if an earlier dispatch released its last lock between the start of the body and that check |
| DispatcherRuns.OrderedRunInOrder | src/iris/iris_dispatcher.h:967-970 | in every disciplined run: if `order(a, b)` was called before the body of b began, a was closed in between |
| DispatcherRuns.OrderedIsActions | src/iris/iris_dispatcher.h:967-970 | the ordered pairs of a state are exactly those that were asked for before |
| DispatcherRuns.UsersAreAllocated | src/iris/iris_dispatcher.h:955-965 | client routines are exactly those that `allocate` gave out |
| DispatcherRuns.StartsAreActions | src/iris/iris_dispatcher.h:1066-1090 | the log says that a body started if and only if it began |
| DispatcherRuns.CompletionsAreActions | src/iris/iris_dispatcher.h:1080-1100 | the log says that a client routine completed if and only if it was closed |
| DispatcherRuns.RunsOnce | src/iris/iris_dispatcher.h:1066-1101 | a body begins at most once, a client routine closes at most once |
| DispatcherRuns.ClosesAfterBegin | src/iris/iris_dispatcher.h:1066-1101 | a client routine closes only after its body began |
| DispatcherRuns.BeginsAndClosesReleased | src/iris/iris_dispatcher.h:972-997 | a body begins, and a client routine closes, only when every handle of `allocate` and `defer` has been dispatched |
| DispatcherRuns.DrainedRanAll | src/iris/iris_dispatcher.h:1080-1100 | when pending_count is zero, every routine that `allocate` gave out has begun and closed |
| WarpExclusion.StepKeepsExclusion | src/iris/iris_dispatcher.h:749-796 | no step commits the owner to exclusive routines while a parallel routine runs or may start |
| WarpExclusion.WarpExcludes | src/iris/iris_dispatcher.h:357-413 | in every state of every run at most one thread runs exclusive routines, and none while a parallel routine runs |
| WarpExclusion.WarpAssertions | src/iris/iris_dispatcher.h:596-639 | a yielding thread owns the warp, suspend_count is the number of parallel calls, and resume never underflows |
| WarpExclusionRuns.LeavesByResume | src/iris/iris_dispatcher.h:365-390 | a parallel routine leaves the suspended state only by the resume of the thread that ran it |
| WarpExclusionRuns.SuspendIsActions | src/iris/iris_dispatcher.h:376-397 | suspend_count is the parallel calls made and not yet resumed |
| WarpExclusionRuns.NoRoutineStranded | src/iris/iris_dispatcher.h:611-639 | a routine between its call and its resume is with one thread, on the list or in the worker's queue |
| WarpExclusionRuns.SweepEmptiesList | src/iris/iris_dispatcher.h:772-796 | a thread that sees a listed routine at the end of `execute` returns only after it emptied the list or met another owner |
| WarpExclusionRuns.PickedTaskRuns | src/iris/iris_dispatcher.h:702-746 | a picked task runs to its end with no parallel routine and no other exclusive one beside it |
| WarpExclusionRuns.PostedRoutineRuns | src/iris/iris_dispatcher.h:611-639 | a posted routine that a worker takes is run and resumed by that worker |
| WarpExclusionRuns.RoutinesMoveForward | src/iris/iris_dispatcher.h:799-812 | a routine only moves forward: call, list, sweep, worker's queue, execution |
| WarpExclusionRuns.GoesOnUnlessSuspended | src/iris/iris_dispatcher.h:717-746 | after a look at suspend_count a thread goes on to the next task if it is zero, and yields if not |
| WarpBarrier.PopRespectsBarriers | src/iris/iris_dispatcher.h:702-746 | when a task behind a barrier is popped, every routine pushed before the barrier was requested has run |
| WarpBarrier.StepKeepsInv | src/iris/iris_dispatcher.h:649-655 | the version bookkeeping survives every step of producers and executor, early exits on suspension included |
| WarpBarrier.BarrierRespected | src/iris/iris_dispatcher.h:826-843 | the same for every pop of every run |
| WarpBarrier.VersionSteps | src/iris/iris_dispatcher.h:726-746 | current_version moves by one and only past barriers that have run |
| WarpBarrierRuns.BarrierSeparates | src/iris/iris_dispatcher.h:649-655 | by actions alone: what was pushed anywhere before a barrier was requested is popped before what its worker pushed behind it |
| WarpBarrierRuns.CountsAreActions | src/iris/iris_dispatcher.h:826-843 | requests, items and pops of a buffer are those of the actions |
| WarpBarrierRuns.AdvancesWhenDue | src/iris/iris_dispatcher.h:736-745 | current_version moves at the end of a round, by one, if and only if some buffer has executed the next barrier |
| WarpBarrierRuns.SomethingToDo | src/iris/iris_dispatcher.h:717-746 | no barrier blocks for ever: while tasks are left and all requested barriers are posted, some buffer can run or the version is due |
| WarpBarrierRuns.StopsWhenQuiet | src/iris/iris_dispatcher.h:717-746 | at the end of a round the executor stops if and only if the round has run nothing |
| WarpBarrierRuns.VersionsCatchUp | src/iris/iris_dispatcher.h:736-742 | at the end of a round no buffer's version lags behind the round's version |
| Pool.StepKeeps | src/iris/iris_dispatcher.h:1428-1485 | every pointer access of `queue_task`, `poll_one_internal` and `poll` keeps all chains finite, acyclic and disjoint and every live task in one place |
| Pool.RunConserves | src/iris/iris_dispatcher.h:1682-1732 | in every run every job queued is pending in exactly one task, in a head chain or one thread's hands, or was executed exactly once; task addresses may be reused |
| Pool.NeverTwice | src/iris/iris_dispatcher.h:1526-1543 | no job is executed twice, and none that was not queued |
| Pool.NothingLost | src/iris/iris_dispatcher.h:1526-1543 | when no call is in progress and all heads are empty, every job was executed |
| Pool.TouchesOnlyItsOwn | src/iris/iris_dispatcher.h:1690-1716 | an activity dereferences only live tasks that no other activity and no head holds |
| PoolRuns.CountsAreActions | src/iris/iris_dispatcher.h:1428-1485 | jobs are numbered by the calls of `queue_task`, and every execution logs one |
| PoolRuns.AllQueuedRan | src/iris/iris_dispatcher.h:1526-1543 | with no call in progress and all heads empty, there were as many executions as calls of `queue_task`, and every job queued ran |
| PoolRuns.PollRunsItsTask | src/iris/iris_dispatcher.h:1682-1732 | a poll that finds a task at its head ends by executing that task |
| PoolRuns.DrainRunsAll | src/iris/iris_dispatcher.h:1526-1543 | a poll of a whole head runs every task of the chain it takes |
| PoolRuns.RunAtOnceRuns | src/iris/iris_dispatcher.h:1428-1485 | a pool that is not started runs a queued task in the call that queues it |
| Codec.EncodeVal | src/iris/iris_lua.h:1919-1986 | encoding extends the stream and the offset table and forgets nothing |
| CodecRoundTrip.ValueDecodes | src/iris/iris_lua.h:2098-2157 | from linked encoder and decoder states, decoding what was encoded gives the image of the value and links the states again |
| CodecRoundTrip.BackRefDecodes | src/iris/iris_lua.h:2192-2204 | a back reference decodes to the very value decoded at that offset |
| CodecRoundTrip.RebuiltIsSame | src/iris/iris_lua.h:2139-2153 | writing the decoded pairs in order gives exactly the pairs of the original table |
| CodecRoundTrip.RoundTrip | src/iris/iris_lua.h:1897-1986 | for every graph of nil, booleans, numbers, strings and tables, with sharing and cycles, decoding succeeds, consumes exactly the bytes written and yields an isomorphic graph; the two recursion tables end up mutually inverse |
| CodecStreams.Encoder.EncodeRecursion | src/iris/iris_lua.h:1898-1916 | a value met before is written as a reference to its offset, a new one gets the current offset |
| CodecStreams.Encoder.EncodeInternal | src/iris/iris_lua.h:1919-1986 | the stream and table after the call are those of the encoding function |
| CodecStreams.Encoder.EncodeTable | src/iris/iris_lua.h:1968-1986 | the loop over the pairs, likewise |
| CodecStreams.Decoder.ReadInt | src/iris/iris_lua.h:2078-2086 | reads eight bytes or fails at the end of the data |
| CodecStreams.Decoder.DecodeInternal | src/iris/iris_lua.h:2098-2204 | result, position, tables and offset marks are those of the decoding function |
| CodecStreams.Decoder.DecodeTable | src/iris/iris_lua.h:2139-2153 | the loop that fills a table up to the nil key, likewise |
| CodecStreams.EncodeThenDecode | src/iris/iris_lua.h:2058-2075 | the two classes composed: an isomorphic graph and no bytes left |
| CodecFormat.Layout | src/iris/iris_lua.h:1919-1986 | the bytes of every scalar, of a new string, and the frame of a table |
| CodecFormat.Repeated | src/iris/iris_lua.h:1898-1916 | a value met again is nine bytes with the offset at which it began |
| CodecFormat.LeAt | src/iris/iris_lua.h:1919-1940 | words are written least significant byte first |
| CodecFormat.CutShortFails | src/iris/iris_lua.h:2058-2097 | an encoding cut short anywhere does not decode; one followed by other data decodes as without it |
| CodecFormat.DecodedHasNoNil | src/iris/iris_lua.h:2139-2153 | whatever the bytes, no decoded table maps a key to nil |
| CodecFormat.DecodedIsClosed | src/iris/iris_lua.h:2098-2204 | whatever the bytes, everything decoded refers to tables that exist |
| KdTree.Node.Merge | src/iris/iris_tree.h:461-474 | insertion in place adds exactly the node at the leaf that the comparisons lead to, keeps links, distinctness and the weak kd order |
| KdTree.Node.Attach | src/iris/iris_tree.h:151-155 | the same from the root |
| KdTree.Node.FindMinimal | src/iris/iris_tree.h:419-437 | the node found is in the subtree and least on the dimension, although one side may be skipped |
| KdTree.Node.FindMaximal | src/iris/iris_tree.h:440-458 | the same for the greatest |
| KdTree.Node.LightDetach | src/iris/iris_tree.h:387-416 | succeeds exactly with at most one child; the child takes the node's place, the node is left unlinked, and nothing else changes |
| KdTree.Node.HandOver | src/iris/iris_tree.h:179-198 | the writes that put the replacer into the node's place |
| KdTree.Node.Detach | src/iris/iris_tree.h:157-199 | for any selector: terminates, removes exactly the node, leaves it unlinked, keeps parent and child links consistent and left <= key <= right on every node's dimension; returns the new root exactly when the root was removed |
| KdTree.Promoted | src/iris/iris_tree.h:171-198 | the cascade keeps the order: the extreme node of one side may stand at the root of what is left |
| KdTree.Pruned | src/iris/iris_tree.h:60-67 | a side that the overlap test skips holds no overlapping box |
| KdTree.Node.Query | src/iris/iris_tree.h:201-226 | in either skew no node is visited twice; if the queryer never stops it, every overlapping box is visited; otherwise exactly the last visited node stopped it |
| KdTreeRebuild.Build | src/iris/iris_tree.h:374-384 | inserts exactly the given nodes, in kd order |
| KdTreeRebuild.Collect | src/iris/iris_tree.h:301-321 | the breadth-first walk lists every node once and unlinks all of them |
| KdTreeRebuild.SortByCode | src/iris/iris_tree.h:330-330 | a permutation in the order of the codes |
| KdTreeRebuild.Optimize | src/iris/iris_tree.h:301-338 | the rebuilt tree has the same node set, consistent links and kd order, and is the one that inserting the nodes in the order of their codes gives, the middle first |
| KdTreeRebuild.Rebuild | src/iris/iris_tree.h:340-371 | the same for loose nodes, none included |
| KdTree.NextIndexCycles | src/iris/iris_tree.h:117-119 | the dimensions are taken in turn |
| KdTreeCull.PopUndoesPush | src/iris/iris_tree.h:69-87 | restoring the saved bound undoes the narrowing, whether or not it narrowed |
| KdTreeCull.NarrowedKeeps | src/iris/iris_tree.h:69-81 | a box on the narrowed side that lay inside the target lies inside the narrowed target |
| KdTreeCull.CulledOnce | src/iris/iris_tree.h:233-262 | whatever the culler, no node is offered twice and only nodes it accepts |
| KdTreeCull.CulledExactly | src/iris/iris_tree.h:233-262 | if a culler that accepts a box accepts every box around it, a stored box inside the target is offered if and only if the culler accepts it |
| KdTreeCull.Cull | src/iris/iris_tree.h:233-262 | the loop, in either skew, offers those nodes in order up to the first refusal of the queryer, and leaves the target as it was when it runs to the end |
| KdTreeHistory.Replay | src/iris/iris_tree.h:151-262 | after any history of attach, detach, optimize and rebuild every query visits all stored overlapping boxes, every culling query all accepted boxes inside its target, only stored nodes and none twice |
| Slab.StepKeeps | src/iris/iris_common.h:893-976 | cache places, bit ownership and reference counts survive every step of `allocate_safe` and `deallocate_safe` |
| Slab.CountIsExact | src/iris/iris_common.h:994-1040 | in every run a block's ref_count is its objects plus the threads that hold it plus one if it is listed |
| Slab.SlotsAreExclusive | src/iris/iris_common.h:939-957 | no two live objects share a slot, and each lies inside a block in use |
| Slab.ReleasedOnlyWhenUnused | src/iris/iris_common.h:994-1003 | a block goes back only when nothing refers to it, is not listed, and no other thread is at work on it |
| Slab.NoUseAfterRelease | src/iris/iris_common.h:1019-1040 | no call in progress meets a block that was given back; the asserted counts and managed flags hold |
| Slab.NoLeak | src/iris/iris_common.h:994-1003 | a block without references is just being given back |
| SlabRecycle.RecycleCountIsExact | src/iris/iris_common.h:1019-1040 | in every run recycle_count is the length of the recycled list plus the counted blocks in the hands of threads, so it is never negative |
| SlabRecycle.LimitZeroUnlisted | src/iris/iris_common.h:1019-1040 | with a limit of 0 no block is ever in the cache or on its way there |
| SlabRecycle.PositiveLimitLists | src/iris/iris_common.h:1019-1040 | with any other limit some run lists a block |
| SlabRecycle.RecyclesIffPositive | src/iris/iris_common.h:1019-1040 | some run recycles if and only if the limit is above 0 |
| SlabRuns.ObjectsAreCounted | src/iris/iris_common.h:893-976 | every allocation has made its object or is still looking; the objects alive are those made and not freed |
| SlabRuns.EveryCallYields | src/iris/iris_common.h:893-976 | with no call in progress there are as many objects as allocations without a deallocation |
| SlabRuns.ObjectsStay | src/iris/iris_common.h:963-976 | an object keeps its slot until it is handed to `deallocate_safe` |
| SlabRuns.SearchFinds | src/iris/iris_common.h:939-957 | the search of a bitmap word stops at its lowest clear bit and goes on exactly if there is none |
| SlabRuns.NewBlockServes | src/iris/iris_common.h:930-957 | an allocation that gets a new block takes its first slot |
| RootAllocator.Root.TryAllocate | src/iris/iris_common.h:685-704 | takes a cell that was free, or every cell of every page is in use |
| RootAllocator.Root.Search | src/iris/iris_common.h:690-703 | the word-by-word scan finds a free cell if there is one |
| RootAllocator.Root.AddPage | src/iris/iris_common.h:706-718 | a fresh page with its first cell taken |
| RootAllocator.Root.Deallocate | src/iris/iris_common.h:721-760 | frees exactly the cell, and the page exactly when it was its last |
| RootAllocator.CellsApart | src/iris/iris_common.h:685-760 | two allocated cells never overlap |
| SpscCounters.Moduli | src/iris/iris_common.h:1361-1363 | counter_limit is a multiple of the capacity and leaves room below 2^64 and above 2^63 |
| SpscCounters.StepExact | src/iris/iris_common.h:2100-2107 | `step_counter` follows the totals across the wrap |
| SpscCounters.FullExact | src/iris/iris_common.h:1722-1724 | `full()` is exact while the fill is between zero and the capacity |
| SpscCounters.DiffAhead | src/iris/iris_common.h:2109-2116 | `diff_counter` is exact up to a horizon |
| SpscCounters.DiffBehind | src/iris/iris_common.h:1733-1735 | a shadow lagging by one is never taken for ahead, for safe capacities or before a wrap |
| SpscCounters.DiffMisread | src/iris/iris_common.h:2109-2116 | for every other capacity the wrap makes it look far ahead |
| SpscCounters.LagSeenIffTrusted | src/iris/iris_common.h:1729-1731 | a producer's shadow lagging by the capacity or more is recognised from every counter position if and only if the lag, modulo the counters' modulus, lies in the trusted range |
| SpscCounters.DiffAtHorizon | src/iris/iris_common.h:2109-2116 | at the horizon itself a full ring's shadow looks fresh or ahead |
| SpscRing.StepKeeps | src/iris/iris_common.h:1403-1425 | counters, lagging shadows and slots stay consistent under every step of either side |
| SpscRing.RingIsFifo | src/iris/iris_common.h:1454-1484 | in every run with a safe capacity, or before a wrap, whose single pushes stay below the horizon, the output is the beginning of the input in order and at most the capacity lies between, for single and bulk operations |
| SpscRing.SlotsAreRespected | src/iris/iris_common.h:1642-1692 | in the same runs no unread slot is overwritten and every slot read holds the next element |
| SpscRing.AnswersAreExact | src/iris/iris_common.h:1722-1763 | in the same runs a push gives up exactly when the ring is full, and `empty()` tells the truth |
| SpscCalls.PushPublishes | src/iris/iris_common.h:1403-1484 | a push that is over has published the beginning of what it was given, as much as there was room for at one moment of the call |
| SpscCalls.PopTakes | src/iris/iris_common.h:1642-1692 | a pop takes one element, a bulk pop as many as asked for and there at one moment of the call |
| SpscFailures.UnsafeCapacityBreaks | src/iris/iris_common.h:1733-1763 | for every capacity that is not safe, and wherever the counters start, some run pops from an empty ring |
| SpscFailures.StaleShadowBreaks | src/iris/iris_common.h:1403-1425 | for every capacity some run of bulk pushes and pops and one single push overwrites an unread element |
| SpscFailures.SoundIffBelowHorizon | src/iris/iris_common.h:1729-1731 | runs with a safe capacity, or before a wrap, respect all slots if and only if the lag allowed to single pushes is within the horizon |
| SpscFailures.SoundExactlyWhen | src/iris/iris_common.h:1726-1735 | all runs respect all slots if and only if the capacity is safe and that lag is within the horizon |
| SpscList.StepKeeps | src/iris/iris_common.h:2202-2255 | every step of the list, of the ring at either head and of a node not yet linked keeps the invariant |
| SpscList.ListIsFifo | src/iris/iris_common.h:2202-2255 | in every run of the list over rings with stale shadows, with a safe capacity or before a wrap and single pushes below the horizon, nothing is lost, doubled or reordered, and a pop after a false `empty()` finds an element |
| SpscList.SlotsAreRespected | src/iris/iris_common.h:2202-2255 | in the same runs no node's unread slot is overwritten and no vacant slot read |
| SpscList.EmptyIsHonest | src/iris/iris_common.h:2440-2461 | in the same runs, when `empty()` answers true the queue was empty when it compared pop_head's counters; when it has answered false there is an element |
| SpscList.DeletesOnlyDrained | src/iris/iris_common.h:2382-2397 | a node is deleted only empty, left by the producer, with a non-empty successor |
| SpscList.NeverBlocked | src/iris/iris_common.h:2202-2255 | neither side ever finds a ring in the middle of another call of its own side |
| SpscListRuns.NothingDropped | src/iris/iris_common.h:2208-2248 | in every run what was published and what the push in progress carries is the concatenation of everything given to `push` |
| SpscListRuns.EveryPopTakes | src/iris/iris_common.h:2382-2397 | every `pop()` takes exactly one element |
| SpscListRuns.ListIsOneQueue | src/iris/iris_common.h:2202-2255 | between calls as many elements as pops were made have left the list, in the order in which they were given to `push` |
| SpscListRuns.EveryAskAnswered | src/iris/iris_common.h:2440-2461 | every call of `empty()` ends with an answer |
| SpscListFailures.UnsafeCapacityBreaks | src/iris/iris_common.h:2440-2461 | for every capacity that is not safe some run of the list pops a vacant slot although nothing is in the list |
| SpscListFailures.StaleShadowBreaks | src/iris/iris_common.h:2202-2213 | for every capacity some run of the list overwrites an unread element of its node |
| SpscListFailures.SoundExactlyWhen | src/iris/iris_common.h:2202-2255 | all runs of the list respect all slots if and only if the capacity is safe and single pushes stay below the horizon |
| Quota.StepConserves | src/iris/iris_common.h:3017-3054 | no step of acquire, rollback or release changes the sum in any dimension |
| Quota.QuotaConserved | src/iris/iris_common.h:3017-3054 | in every run remaining plus partly acquired plus held is the initial quota in each dimension, and none is negative |
| Quota.FirstWaiterIsSeen | src/iris/iris_coroutine.h:1289-1337 | with at most one quantity, or while no rollback gave anything back, a first waiter whose request fits implies a release still in progress |
| Quota.ServedInOrder | src/iris/iris_coroutine.h:1289-1337 | waiters are served once each, first come first served |
| QuotaWakeup.SingleRequestsAreSeen | src/iris/iris_coroutine.h:1289-1337 | over any number of quantities no wakeup is lost if every request names at most one of them |
| QuotaWakeup.LostWakeup | src/iris/iris_coroutine.h:1289-1337 | for every number of quantities from two on a run ends with nobody active, nothing held and a waiter whose request fits |
| QuotaWakeup.NeverLostIffOne | src/iris/iris_coroutine.h:1289-1337 | no run over n quantities loses a wakeup if and only if n is at most one |
| QuotaRuns.RequestsAreKept | src/iris/iris_coroutine.h:1289-1337 | what was asked for is in progress, listed or held, or was returned: no request is lost or made twice |
| QuotaRuns.AtRest | src/iris/iris_coroutine.h:1289-1337 | with no call in progress every request is held, returned or waiting |
| Pipe.NeverBoth | src/iris/iris_coroutine.h:800-897 | in every state prepared_count or waiting_count is zero |
| Pipe.NeverStarved | src/iris/iris_coroutine.h:833-871 | a claimed handle is there when popped, and a resumed consumer finds an element |
| Pipe.HandedOutOnce | src/iris/iris_coroutine.h:833-871 | every element goes to one consumer, every consumer gets one, in order |
| Pipe.NobodyForgotten | src/iris/iris_coroutine.h:800-871 | with no call in progress, nobody waits or every remaining element belongs to a consumer on its way |
| PipeRuns.AwaitsAreKept | src/iris/iris_coroutine.h:800-897 | every `co_await` so far is in exactly one place: in a call, suspended in the list, dispatched, or served |
| PipeRuns.AwaitsAddUp | src/iris/iris_coroutine.h:800-871 | with no call in progress the awaits are the suspended, the dispatched and the served |
| PipeRuns.AwaitsAreActions | src/iris/iris_coroutine.h:800-832 | the awaits of a state are those of the actions |
| PipeRuns.PushedIsEmplaced | src/iris/iris_coroutine.h:833-871 | what was given to `emplace` is pushed or about to be |
| PipeRuns.NoConsumerSleeps | src/iris/iris_coroutine.h:800-871 | with no call in progress every await is served or on its way, or every element left belongs to a consumer on its way |
| PipeRuns.CallsEnd | src/iris/iris_coroutine.h:800-871 | no call takes more than six steps, and while calls are in progress one can go on |
| Sha256.Transform | src/ngx_lua_cpp.cpp:1373-1401 | the in-place schedule and rounds compute the compression of section 6.2.2 |
| Sha256.Context.constructor | src/ngx_lua_cpp.cpp:1403-1410 | the initial context has absorbed the empty message |
| Sha256.Context.Update | src/ngx_lua_cpp.cpp:1412-1425 | the context afterwards has absorbed the old message followed by the data |
| Sha256.MakePadding | src/ngx_lua_cpp.cpp:1427-1440 | the bytes laid out are the padding of section 5.1.1, also when a second block is needed |
| Sha256.Context.FinalHex | src/ngx_lua_cpp.cpp:1427-1462 | the text is the hexadecimal hash of the whole padded message |
| Sha256.BigEndianAt | src/ngx_lua_cpp.cpp:1437-1439 | the shifted length bytes are the big-endian length |
| Sha256.HashHex | src/ngx_lua_cpp.cpp:1464-1469 | one update: the hash of the data |
| Sha256.HashParts | src/ngx_lua_cpp.cpp:1412-1469 | for every split into updates the result is the hash of the concatenation |
| Sha256Functions.SigmasAre | src/ngx_lua_cpp.cpp:1369-1394 | the four sigmas are sums of rotations and shifts (section 4.1.2) |
| Sha256Functions.ChBits | src/ngx_lua_cpp.cpp:1386-1387 | Ch is y where x has ones and z where it has zeros |
| Sha256Functions.MajBits | src/ngx_lua_cpp.cpp:1390-1391 | Maj is x where x and y agree, z where they do not |
| Sha256Constants.RoundConstantsAre | src/ngx_lua_cpp.cpp:1358-1367 | round constant i is the first 32 bits of the fraction of the cube root of the prime with i primes below it (section 4.2.2) |
| Sha256Constants.InitialIs | src/ngx_lua_cpp.cpp:1403-1410 | the initial value is the fractions of the square roots of the first eight primes (section 5.3.3) |
| Sha256Example.HashOfAbc | src/ngx_lua_cpp.cpp:1373-1469 | the hash of "abc" is the value of the standard's example |
| Sha256Example.DigitValues | src/ngx_lua_cpp.cpp:1449-1461 | the digits of the text |
| Hmac.RawOfHex | src/ngx_lua_cpp.cpp:1476-1483 | the hex text of a hash value converts back to its big-endian bytes |
| Hmac.KeyPad | src/ngx_lua_cpp.cpp:1486-1492 | the pads are the zero-padded key xored with the pad byte |
| Hmac.HmacRaw | src/ngx_lua_cpp.cpp:1471-1526 | H(K xor opad, H(K xor ipad, text)) for keys of every length |
| Hmac.HmacHex | src/ngx_lua_cpp.cpp:1528-1538 | its hexadecimal text, which converts back to it |
| Base64Url.LetterValue | src/ngx_lua_cpp.cpp:1540-1573 | the decoder's ranges invert the encoder's table |
| Base64Url.Alphabet | src/ngx_lua_cpp.cpp:1540-1541 | the letters are those of table 2 of RFC 4648 |
| Base64Url.SextetsAre | src/ngx_lua_cpp.cpp:1542-1555 | the four sextets are the bits of the three bytes in order |
| Base64Url.Encode | src/ngx_lua_cpp.cpp:1542-1555 | the loop computes the group-wise encoding |
| Base64Url.Decode | src/ngx_lua_cpp.cpp:1557-1581 | the loop computes the accumulator's reading of the text |
| Base64Url.RoundTrip | src/ngx_lua_cpp.cpp:1542-1581 | decoding an encoding succeeds and returns the bytes, whatever the 32-bit accumulator held |
| Base64Url.EncodeThenDecode | src/ngx_lua_cpp.cpp:1542-1581 | the two methods composed |
| Base64Url.AcceptsReadable | src/ngx_lua_cpp.cpp:1557-1581 | a text is accepted exactly when all characters before the first padding character are in the alphabet |
| Lru.Cache.constructor | src/ngx_lua_cpp.cpp:1697-1704 | an empty cache |
| Lru.Cache.Set | src/ngx_lua_cpp.cpp:1706-1728 | list, entries and iterators describe the same keys, once each and within capacity; the new cache is that of the specification, evictions counted |
| Lru.Cache.Get | src/ngx_lua_cpp.cpp:1730-1748 | the same for a hit, a miss and an expired entry, with the answer and the counters |
| Lru.CacheTellsHistory | src/ngx_lua_cpp.cpp:1692-1748 | for every timely history what is stored is what was last set, the keys in front of it were used since, and what should still be there is |
| Lru.GetIsFaithful | src/ngx_lua_cpp.cpp:1706-1748 | if fewer than max_entries other keys were set or hit since, a get hits exactly while the time to live given with the last set is unlimited or not over; a hit is the value last set, with the time that remains |
| Lru.Replay | src/ngx_lua_cpp.cpp:1692-1748 | a cache driven through any history ends as the specification says and gives its answers |
| Sieve.BaseSieve | src/ngx_lua_cpp.cpp:2005-2013 | base[k] is 1 exactly when k is prime |
| Sieve.Primes | src/ngx_lua_cpp.cpp:2014-2017 | all primes up to the root |
| Sieve.CompositeIsHit | src/ngx_lua_cpp.cpp:2008-2012 | every composite number is a multiple, from its square on, of a prime |
| Sieve.Mark | src/ngx_lua_cpp.cpp:2028-2032 | after the marking loops an entry is 1 exactly when its number is prime |
| Sieve.CountChunk | src/ngx_lua_cpp.cpp:2019-2033 | for every limit and chunk the count is the number of primes in the chunk's interval |

## Left out

- Weak memory orders, fences, non-temporal stores, exceptions and the lifetime of awaitables.
- nginx hooks, sockets, file I/O, threads, logging, the web UI and scripts, Mandelbrot rendering, job eviction, the event bus.
- The dispatcher's theorems assume client routines with a body, orders that close no cycle and whose target has not started, and that the last lock of a routine is not released while its body runs (`DispatcherProgress.ClashExactlyWhenEarly` shows that this is needed); the nested execution of a junction inside dispatch is a separate step; lock counts are unbounded; `allocate(warp)` with an empty body is only used for junctions.
- Warp: nested execution on the same thread, forced poll, and the queueing flag with the flushes it guards (that a flush is pending whenever work is left); barriers are posted from worker threads and versions are unbounded.
- Pool: priorities, parking and waking; a call made by a running task is a separate activity; executing a task and freeing its memory are one step.
- Codec: functions, userdata, threads and custom encoder callbacks; an unknown tag is a failure; streams are below 2^63 bytes; floating-point keys that Lua would normalise.
- KdTree: coordinates are real numbers (no NaN); cullers and queryers are functions without side effects; `set_key`; and the Morton code of a box, which is an arbitrary function of the node here.
- Slab: the recycled list is a sequence (its pointer discipline is that of the pool's chains), so `p->next == nullptr` is not stated; the unsafe paths and destructors.
- RootAllocator.Root.AddPage: the address of a new page is an argument that does not overlap existing pages.
- SpscRing.RingIsFifo: signed overflow is two's complement; capacities are below 2^32; `pop(size_t)`, `push_stream`, `copy`, `move`, `pack_size` and index access are left out.
- SpscList.ListIsFifo: the bulk pop of the list, `push_stream` and the listener callbacks are left out; reading push_head and calling `empty()` on its node is one step.
- Quota: `merge`, `move` and partial release of a resource.
- Pipe: the mode without a mutex.
- Sha256.Context.FinalHex: lengths are counted modulo 2^64 bits as in the code.
- Lru.Cache.Set: the capacity is at least one (the code's is 1024).
- Sieve.CountChunk: the root is the exact integer square root plus one; the sum over chunks is not claimed to count primes up to the limit.
