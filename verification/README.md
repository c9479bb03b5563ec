# Verified models of the simulator's scheduler, cache bookkeeping and hub

The simulator runs every cache, switch and memory controller as a task. Tasks wait on event counts
or pause on a global clock, and one scheduler decides who runs next (`src/cgm/tasking.c`). The caches
share one bookkeeping engine for replacement, outstanding misses, coalescing and eviction
(`src/cgm/cache.c`), and the GPU reaches memory through a round-robin hub (`src/cgm/hub-iommu.c`).
This project models these three components and proves what they promise, mostly over whole runs.

| file | content |
|---|---|
| `Tasking.dfy`, `TaskingRuns.dfy` | the scheduler as a state machine, its invariant, and theorems over all runs |
| `TaskingMeaning.dfy` | the steps in terms of list positions, who runs next, and in which order |
| `Scheduler.dfy` | the scheduler as the code has it: intrusive linked lists and an insertion hint, proved to take the steps of the state machine |
| `LruOrder.dfy`, `WayList.dfy` | recency of use over all runs; the doubly linked way list, proved against it |
| `Bits.dfy`, `Address.dfy` | words as numbers; splitting and rebuilding addresses |
| `BlockState.dfy`, `Eviction.dfy` | block states; the L3 directory and the eviction of a block |
| `Sequences.dfy`, `Ort.dfy` | counting over sequences; the table of outstanding requests as a finite set, and the coalescer's decisions |
| `Cache.dfy` | table, coalescer and message scheduler as the code has them: an array of rows, queues of mutable requests |
| `MissEngine.dfy` | table, coalescer, retry queue and requests below a first-level cache, over all runs |
| `CacheRuns.dfy` | the same with the blocks and ways of the sets: victims come from the replacement policy, hits find valid blocks |
| `FirstLevel.dfy` | the handlers' work on the mutable requests and queues, proved to take the steps of the miss engine |
| `HubMap.dfy`, `Hub.dfy` | which GPU cache an address belongs to; the round-robin search and the routing on mutable messages |
| `HubRuns.dfy`, `HubSteps.dfy` | the hub among the tasks that feed and drain it, over all runs; the control loop, proved to take the steps of these runs |
| `TranslationTable.dfy` | the hub's slot table as a partial map |

Classes carry the fields that the code updates; their methods are proved equal to specification
functions, and the theorems are about those functions. Lemmas named for the meaning of a step say what
each of them does without these functions, in terms of positions, sizes, sets and bits. Where the code asserts something about its
callers, the method requires it, and where the callers are modelled too, they are proved to meet it
(`CacheRuns.RunOk`, `HubRuns.SearchEnds`, `Tasking.StepOk`).

## What is not as one would expect

Each of these is proved: the exact condition under which the code does what one would expect, and an
input, state or run for which it does not.

- A pause for a negative time moves the clock back; the clock is monotone exactly in runs without one
  (`TaskingRuns.ClockIsMonotone`, `ClockGoesBack`). The code comment calls a pause a wait on the clock;
  it can also just move the clock.
- The comment at the hit path of the handlers says that the block becomes the most recently used one, but
  the code moves the tail of the way list instead (`src/cgm/cpu_mesi_protocol.c:37-42`, and alike in every
  other handler of the CPU and GPU caches); `cgm_cache_access_block`, which would move the block itself, is
  called nowhere. Over every run the list is in the order of recency if and only if every hit met the way at
  the tail (`LruOrder.OrderIsRecency`), and then victims are least recently used
  (`LruOrder.VictimIsLeastRecent`); one hit elsewhere is enough to make the block just used the next victim
  (`LruOrder.HitRotationFails`). What holds in every run is that the list is in the order of the moves to
  its head (`LruOrder.OrderIsMoves`, `VictimIsLeastMoved`).
- The eviction asserts that the number of sharers is at most the number of cores, although the hub is a
  sharer too. With the number that the directory reports, the assertion holds exactly unless all cores
  and the hub hold the block (`L3Eviction.SharersAssertion`, `SharersAssertionFails`).
- A store that was merged with a load of the same block, and is let go when the block arrives shared,
  is an upgrade miss. If its set is full in the table it is parked behind the requests of the set, and
  if it was the last request of the set under way, nothing ever lets the parked requests go again. A
  step keeps every parked request wakeable exactly if it is not such a one (`MissEngine.LiveKept`); the
  requests of a set that was stranded so stay parked over every further run (`MissEngine.StuckForever`);
  and a run of six steps from the empty cache strands two requests (`MissEngine.StrandingRun`, and with the
  blocks `CacheRuns.StrandingRun`). Without new requests and upgrades the engine drains
  (`MissEngine.EngineDrains`).
- The status that the table reports to the scheduler is the index of its first empty row, not an
  occupancy count; the two agree only on whether the table is full (`Ort.StatusMeansFull`,
  `Ort.StatusIsNoCount`).
- Probing rejects the all-ones tag; without set and offset bits it rejects the upper half of the
  addresses as well (`CacheAddress.ProbeDomain`).
- The hub checks the room for a returning packet before it translates the address, and enqueues after.
  Every run keeps its queues within the limit and one packet if and only if translation keeps the GPU cache
  of every address (`HubRuns.BoundNeedsMap`); otherwise runs pile up any number of packets in one queue
  (`HubRuns.Overrun`). Every translation by pages is harmless exactly if (caches - 1) * block size is below
  the page size (`HubMap.MapKeptExactly`, `HubRuns.PagesKeepBoundExactly`).
- The slot table cannot hold the address that is all ones (`TranslationTables.MarkIsLost`).

## Model

| member | source | states |
|---|---|---|
| Tasking.StepOk | src/cgm/tasking.c:38-163 | every await, pause, advance and creation keeps the lists sorted, the time list at or after the clock, every waiter's threshold above its count, every task in one place, the hint on the time list; the clock goes back only on a negative pause |
| Tasking.InsertAt | src/cgm/tasking.c:53-96 | the walk's insertion puts the new task behind all equal and earlier counts and before all later ones, and moves nobody else |
| Tasking.WokenExactly | src/cgm/tasking.c:259-287 | an advance takes exactly the waiters whose threshold equals the new count, which lead their list |
| Tasking.AdvanceOk | src/cgm/tasking.c:259-287 | an advance keeps the invariant |
| Tasking.CreateOk | src/cgm/tasking.c:400-434 | a creation keeps the invariant and adds exactly the new task |
| Tasking.PauseOk | src/cgm/tasking.c:38-50 | a pause keeps the invariant on both paths |
| TaskingRuns.RunKeepsInv | src/cgm/tasking.c:53-287 | the invariant holds in every state of every run, so that the scheduler's assertion on the clock never fails |
| TaskingRuns.ClockIsMonotone | src/cgm/tasking.c:117-121 | over a run the clock never goes back if and only if no task pauses for a negative time |
| TaskingRuns.ClockGoesBack | src/cgm/tasking.c:38-44 | a pause of -1 at time 5 that sets the clock to 4 |
| TaskingRuns.OnePlace | src/cgm/tasking.c:53-163 | in every state of every run a task has at most one list position, and none while it runs |
| TaskingRuns.TasksConserved | src/cgm/tasking.c:130-163 | until a task finishes, the tasks are those there were and those created since |
| TaskingRuns.RunsWhenDue | src/cgm/tasking.c:104-121 | a task on the time list next runs at exactly its count |
| TaskingRuns.PauseIsExact | src/cgm/tasking.c:38-50 | a task that pauses for n at t next runs at t + n, whatever others do |
| TaskingRuns.AwaitClockIsExact | src/cgm/tasking.c:224-250 | a task that awaits the clock at v next runs at v |
| TaskingRuns.StepKeepsWaiter | src/cgm/tasking.c:259-287 | a step leaves a waiter below its threshold waiting, or is the advance that reaches it and makes the waiter due now |
| TaskingRuns.WaiterRunsWhenReached | src/cgm/tasking.c:259-287 | no wakeup is early: when a waiter next runs, an advance has brought its event count to its threshold, and the clock still shows that time |
| TaskingRuns.WaiterNotForgotten | src/cgm/tasking.c:259-287 | no wakeup is lost: a waiter that has not run is on its list while the count is below its threshold; otherwise some advance brought the count to the threshold, the waiter is due at the time of that advance, and the clock has not passed it |
| TaskingRuns.CountsGrow | src/cgm/tasking.c:259-263 | event counts other than the clock never go down |
| TaskingRuns.AwaitReturnsInTime | src/cgm/tasking.c:223-250 | after an await its caller next runs only with the count at the threshold or beyond |
| TaskingMeaning.SleepMeaning | src/cgm/tasking.c:53-163 | an await that sleeps puts the caller on the list behind every count that is not later and before every later one; the head of the time list then runs, at its count, and nobody runs exactly if that list is empty |
| TaskingMeaning.AwaitReached | src/cgm/tasking.c:224-250 | an await whose count is reached leaves the clock, the current task and all lists as they were |
| TaskingMeaning.PauseMeaning | src/cgm/tasking.c:38-50 | a pause moves the clock alone exactly if nobody is due before its end, and otherwise sleeps on the time list and runs its head |
| TaskingMeaning.FinishMeaning | src/cgm/tasking.c:381-389 | when a task ends the head of the time list runs, if there is one |
| TaskingMeaning.AdvanceMeaning | src/cgm/tasking.c:259-287 | the waiters for the new count, who are the first on the list, move in their order to the front of the time list, due now; the count is one higher, and nothing else changes |
| TaskingMeaning.CreateMeaning | src/cgm/tasking.c:400-434 | the time list is the old one with the new task in front, due at the present time |
| TaskingMeaning.NewEventMeaning | src/cgm/tasking.c:289-329 | a new event count has its initial count and no waiters, and nothing else changes |
| TaskingMeaning.EndsWithoutWork | src/cgm/tasking.c:103-121 | over every run: nobody runs only at the end, with an empty time list |
| TaskingMeaning.RunsInOrder | src/cgm/tasking.c:53-121 | over every run: tasks run in the order of the time list, those with equal counts too |
| TaskingMeaning.CreatedRunsNow | src/cgm/tasking.c:400-434 | over every run: a created task next runs at the time of its creation |
| Schedulers.Scheduler.FindNextTask | src/cgm/tasking.c:53-124 | on the linked lists: the current task is inserted as by the plain sorted insertion, the head of the time list runs next, at its time |
| Schedulers.Scheduler.Walk | src/cgm/tasking.c:57-88 | from the head or from the hint, the walk finds the position between the last count that is not later and the first later one |
| Schedulers.HintedInsertion | src/cgm/tasking.c:67-98 | linking in at the position that the hinted walk finds is the stable sorted insertion from the head |
| Schedulers.Scheduler.ContextSelect | src/cgm/tasking.c:130-163 | the next task is chosen after parking the current one, or without |
| Schedulers.Scheduler.SwitchContext | src/cgm/tasking.c:197-221 | a switch parks the current task and runs the next |
| Schedulers.Scheduler.Await | src/cgm/tasking.c:224-250 | takes the await step of the state machine |
| Schedulers.Scheduler.EPause | src/cgm/tasking.c:38-50 | takes the pause step of the state machine, with and without a switch |
| Schedulers.Scheduler.Advance | src/cgm/tasking.c:259-287 | takes the advance step: the enabled waiters move, stamped with the time, in their order to the front of the time list |
| Schedulers.Scheduler.CreateTask | src/cgm/tasking.c:400-434 | a new task is due now, in front of the time list |
| Schedulers.Scheduler.NewEventcount | src/cgm/tasking.c:289-329 | a new event count has no waiters |
| Schedulers.Scheduler.FinishTask | src/cgm/tasking.c:381-389 | the finished task leaves no trace, the next one is taken |
| Schedulers.Scheduler.constructor | src/cgm/tasking.c:27-36 | the scheduler starts with the initial task and an empty time list |
| WayLists.CacheSet.UpdateWaylist | src/cgm/cache.c:2459-2509 | from any well-formed list, moving a block gives the well-formed list with that block at the requested end and the rest in order |
| WayLists.MovedMeaning | src/cgm/cache.c:2459-2509 | the list after a move is the block before or behind the list without it |
| WayLists.CacheSet.AccessBlock | src/cgm/cache.c:2444-2457 | an access makes the way the most recently used one |
| WayLists.CacheSet.HitBlock | src/cgm/cpu_mesi_protocol.c:37-42 | the handlers' treatment of a hit takes the hit step of the abstract set |
| WayLists.CacheSet.HoldBlock | src/cgm/cache.c:6727-6742 | keeping the way of a block that waits for an upgrade makes it transient and changes nothing else |
| WayLists.CacheSet.GetVictim | src/cgm/cache.c:2344-2415 | takes the victim step of the abstract set and returns its way, or -1 |
| WayLists.CacheSet.FindVictim | src/cgm/cache.c:2374-2401 | the walk from the tail finds the last block in the list that is neither transient nor pending, and none exactly if all are one or the other |
| WayLists.CacheSet.SetBlock | src/cgm/cache.c:1656-1668 | filling a block sets its tag and state, ends its transient state, and leaves the other blocks alone |
| WayLists.CacheSet.constructor | src/cgm/configure.c:2623-2639 | a new set lists its ways in index order, linked in both directions |
| LruOrder.OrderIsRecency | src/cgm/cpu_mesi_protocol.c:37-42 | over every run of hits, victim requests and fills, the list is in the order of recency in all its states if and only if every hit met the way at the tail of the list |
| LruOrder.OrderIsMoves | src/cgm/cache.c:2459-2509 | in every run the list is in the order in which ways were last moved to its head |
| LruOrder.VictimIsLeastMoved | src/cgm/cache.c:2374-2415 | in every run the victim is the eligible way that was moved to the head least recently; there is none exactly when no way is eligible |
| LruOrder.VictimIsLeastRecent | src/cgm/cache.c:2374-2415 | in a run whose hits all met the tail, the victim is the least recently used way that is neither transient nor pending |
| LruOrder.VictimEffect | src/cgm/cache.c:2382-2411 | only the chosen way's transient fields change, and it becomes the most recently used way |
| LruOrder.OrderAfter | src/cgm/cache.c:2444-2509 | which way an operation puts first: on a hit the last one, on an access the one accessed; the others keep their order |
| LruOrder.VictimMeaning | src/cgm/cache.c:2374-2411 | the victim is the last way of the order that is neither transient nor pending; it comes first, and without one nothing changes |
| LruOrder.MarksAfter | src/cgm/cache.c:2374-2411 | the transient, tag and pending marks of every way after every operation |
| LruOrder.HitRotationMeaning | src/cgm/cpu_mesi_protocol.c:37-42 | a hit makes its block the most recently used one exactly if it was the least recently used one |
| LruOrder.HitRotationFails | src/cgm/cpu_mesi_protocol.c:37-42 | a run of one hit after which the way that was just hit, and not the one never used, is the victim |
| CacheAddress.ProbeDomain | src/cgm/cache.c:1526-1533 | for which addresses the probe's assertion holds |
| CacheAddress.ProbeIs | src/cgm/cache.c:1520-1535 | the address is tag * 2^(block and set bits) + set * block size + offset, with set and offset in range |
| CacheAddress.BuildIs | src/cgm/cache.c:1537-1566 | the rebuilt address is tag * 2^(block and set bits) + set * block size, without truncation |
| CacheAddress.ProbeThenBuild | src/cgm/cache.c:1520-1566 | rebuilding from the probed set and tag and adding the offset gives the address back |
| CacheAddress.BuildThenProbe | src/cgm/cache.c:1520-1566 | probing a rebuilt address gives its set, its tag and offset 0 |
| CacheAddress.SameBlock | src/cgm/cache.c:1520-1535 | two addresses share tag and set if and only if they share the block address |
| CacheAddress.BlockAddress | src/cgm/cache.c:1537-1566 | the rebuilt address is the masked block address |
| L3Eviction.L3Cache.BuildShareMask | src/cgm/configure.c:2439-2448 | the share mask has one bit for each core and one for the hub |
| L3Eviction.L3Cache.GetNumShares | src/cgm/cache.c:6487-6539 | the sharers are the presence bits that are set, of all caches for the CPU, of the first ones for the GPU |
| L3Eviction.L3Cache.EvictBlock | src/cgm/cache.c:1984-2144 | one flush to the L2 cache of each core whose presence bit is set and one to the hub if its bit is, and no other, numbered in a row, each with the block's address, which probes to its set and tag, its state, the victim way and the id of the next write-back; one write-back for the same address if the block is Modified or Exclusive, waiting for a flush if and only if there are sharers; the eviction completes, and the block is invalid, if and only if the number of sharers is the number of flushes |
| L3Eviction.L3Cache.SendFlushes | src/cgm/cache.c:2039-2124 | the shift loop enqueues the flushes of the presence bits in order, one for each, and counts them |
| L3Eviction.L3Cache.BufferVictim | src/cgm/cache.c:2018-2034 | the write-back that an eviction leaves |
| L3Eviction.L3Cache.SetDir | src/cgm/cache.c:6203-6251 | exactly the ids 0 to 31 are accepted, and add exactly their bit |
| L3Eviction.L3Cache.ClearDir | src/cgm/cache.c:6189-6194 | clears the entry of one block |
| L3Eviction.L3Cache.MakeRoom | src/cgm/cpu_mesi_protocol.c:5352-5358 | an eviction with the number of sharers that the directory reports always completes |
| L3Eviction.SharersAreBits | src/cgm/cache.c:6507-6523 | counting by shifting counts the presence bits below the mask |
| L3Eviction.FlushesDistinct | src/cgm/cache.c:2051-2124 | the flushes go to different caches, each with its bit set, in the order of the bits |
| L3Eviction.FlushesPerSharer | src/cgm/cache.c:2051-2124 | the flushes go to L2 cache i exactly if i is below the cores and bit i is set, and to the hub exactly if bit cores is set, each once |
| L3Eviction.L3Cache.FlushesAre | src/cgm/cache.c:2043-2124 | all flushes of an eviction carry the address of the block, its state, the victim way and the write-back id; the address probes to the block's set and tag |
| L3Eviction.CountIsCardinality | src/cgm/cache.c:6507-6523 | the number of presence bits is the cardinality of the set of sharers |
| L3Eviction.FlushForSharer | src/cgm/cache.c:2051-2124 | every set presence bit has its flush |
| L3Eviction.SharersAreFlushed | src/cgm/cache.c:2039-2124 | the caches that were entered in the directory, in any order and however often, are flushed, each once, and no other |
| L3Eviction.SharersAssertion | src/cgm/cache.c:1997-1997 | the assertion on the number of sharers holds exactly unless every core and the hub hold the block |
| L3Eviction.SharersAssertionFails | src/cgm/cache.c:1997-1997 | an entry that trips it |
| Ort.SearchFindsMembers | src/cgm/cache.c:1318-1332 | the search succeeds exactly on members |
| Ort.StatusMeansFull | src/cgm/cache.c:903-917 | the status equals the table size exactly when all rows are filled, and is otherwise a lower bound of the filled rows |
| Ort.StatusIsNoCount | src/cgm/cache.c:903-917 | a table whose status is not its occupancy |
| Ort.SizesAreCardinalities | src/cgm/cache.c:1262-1283 | the reported sizes are the cardinalities of the set and of its part in one cache set |
| Ort.SetRowProper | src/cgm/cache.c:1221-1241 | setting a row adds the pair; the rows stay distinct exactly if it was no member |
| Ort.ClearRowProper | src/cgm/cache.c:1352-1364 | clearing a row takes the pair away and keeps the rows distinct |
| Ort.CheckKeepsSet | src/cgm/cache.c:5789-5864 | checking a miss adds at most its pair, and keeps the rows distinct exactly if a conflict retry comes with its own row cleared |
| Ort.CheckMeaning | src/cgm/cache.c:5789-5864 | a miss is sent if it retries after a conflict or its block is new and its set has room; it is merged, without a row, if its block is outstanding, and waits for room otherwise; sent and waiting requests enter the first empty row |
| Ort.ChooseMeaning | src/cgm/cache.c:6007-6118 | the first parked request of the block, by position, is let go; without one the first conflict of the set; none exactly if there is neither |
| Ort.ReleasedMeaning | src/cgm/cache.c:6018-6081 | a released request is a retry; one released after a conflict is no longer marked as coalesced, so that its miss is sent |
| Ort.ReleaseDrains | src/cgm/cache.c:6007-6118 | each release takes exactly one waiting request out of the coalescer, until none waits |
| Caches.Cache.GetOrtStatus | src/cgm/cache.c:903-917 | the first empty row |
| Caches.Cache.OrtSetRow | src/cgm/cache.c:1221-1241 | fills the first empty row |
| Caches.Cache.OrtSearch | src/cgm/cache.c:1318-1332 | the first row of the pair, or the number of rows |
| Caches.Cache.OrtGetRowSetsSize | src/cgm/cache.c:1244-1286 | the row of the pair, the rows of its set, and the filled rows |
| Caches.Cache.OrtClear | src/cgm/cache.c:1334-1367 | empties the row of the block that the address probes to |
| Caches.Cache.CheckOrt | src/cgm/cache.c:5789-5864 | the request is sent, parked for a conflict or merged, and moved to the coalescer in the last two cases; the assertion on the size holds |
| Caches.Cache.CoalescedRetry | src/cgm/cache.c:6007-6118 | at most one parked request moves to the retry queue: the first for the block, else the first conflict of the set, whose row is cleared; its access becomes the retry of what it was; nothing else changes |
| Caches.Cache.GetOldestPacket | src/cgm/cache.c:6772-6793 | the earliest start of a conflict request of the set, so that the assertion on the start cycle holds |
| Sequences.RemoveFirstMeaning | src/lib/util/list.c:275-286 | removing an element takes it out once, at its first place, and leaves the others in order |
| Caches.RetryOnce | src/cgm/cache.c:6795-6863 | retry states are retries and are refused as input |
| Caches.Cache.RetryTypes | src/cgm/cache.c:6795-6863 | which access type is retried as which: fetch, load and store as themselves, a non-coherent store as a store in the GPU's caches, and all others are refused |
| Caches.Cache.SearchWbNotPendingFlush | src/cgm/cache.c:1033-1053 | the first write-back that waits for no flush |
| Caches.Cache.GetMessage | src/cgm/cache.c:351-785 | what is taken, in terms of the lengths of the queues, the free rows and the limits of the kind of cache; a packet is the head of its queue, which is remembered, or the first write-back that waits for no flush; none on a stall |
| Caches.AdmissionMeansRoom | src/cgm/cache.c:484-607 | a new request is taken exactly if a row is free, the coalescer, the retry and the lower queue are below their limits, write-backs and pending requests below the limit of the kind of cache, and no retry, reply or coherence message waits |
| Caches.ScheduleExactly | src/cgm/cache.c:484-785 | for each choice, stall and abort included, the condition on the sizes under which it is made, both ways |
| Caches.Cache.ChoiceExactly | src/cgm/cache.c:484-785 | the same on the queues and the table of a cache |
| Caches.FullMeansNoAdmission | src/cgm/cache.c:484-492 | with a full table no new request is taken |
| Caches.ScheduleIsFirstOffer | src/cgm/cache.c:548-785 | the scheduler takes the most urgent source that offers a packet, in an order that depends on the kind of cache and on whether some buffer is full; it stalls, or aborts the simulation, exactly without an offer |
| MissEngine.RunOk | src/cgm/cpu_mesi_protocol.c:494-996 | in no run of the miss engine from empty does a miss find the table full, a row to clear missing, or every way kept for another request |
| MissEngine.StepOk | src/cgm/cpu_mesi_protocol.c:494-996 | every step keeps the rows distinct and equal to the requests below and the conflicts parked, the retried request without a row but with one free, and at most assoc requests of a set under way, on different ways |
| MissEngine.AssertionsOk | src/cgm/cache.c:5809-5864 | the invariant implies what the engine's steps assert |
| MissEngine.ChosenOk | src/cgm/cache.c:6018-6081 | a request let go as merged is never a conflict, and a conflict that is let go has exactly one row |
| MissEngine.SentHasRoom | src/cgm/cache.c:5812-5826 | a request is sent only with fewer than assoc others of its set below |
| MissEngine.Conserved | src/cgm/cpu_mesi_protocol.c:494-996 | no step loses or duplicates a request: a miss adds its own, a hit of a retry returns its own |
| MissEngine.MissMeaning | src/cgm/cache.c:5789-5864 | a miss is sent below, or parked behind the others for its block or for room, by the set of outstanding blocks; its block is outstanding afterwards |
| MissEngine.HitMeaning | src/cgm/cache.c:6007-6118 | a retry that hits leaves; the first request parked for its block, or else for room in its set, leaves the coalescer and is retried, and one that waited for room gives its row back |
| MissEngine.ArriveMeaning | src/cgm/cpu_mesi_protocol.c:1594-1608 | the request whose block arrives is retried, and its block is no longer outstanding |
| MissEngine.ParkedLast | src/cgm/cache.c:5812-5864 | a request that is parked comes last |
| MissEngine.RetriedInOrder | src/cgm/cache.c:6007-6118 | over every run: requests that wait for one block, or for room in one set, are retried in the order in which they were parked |
| MissEngine.LiveKept | src/cgm/cpu_mesi_protocol.c:910-942 | a step keeps every parked conflict wakeable exactly if it does not park the last request of the set under way |
| MissEngine.DrainsAreBounded | src/cgm/cpu_mesi_protocol.c:494-996 | in every run the arrivals, hits of retries and conflict retries are bounded by the work there was and four for each new miss and three for each upgrade |
| MissEngine.EngineDrains | src/cgm/cpu_mesi_protocol.c:494-996 | left to such steps, in any order, an engine whose parked conflicts are wakeable comes to an end within its work, and then exactly with every request returned |
| MissEngine.LiveDrainsToEmpty | src/cgm/cache.c:6007-6118 | none of these steps is possible exactly if no request is parked, retried or below |
| MissEngine.StrandsMakesStuck | src/cgm/cpu_mesi_protocol.c:910-942 | such a step leaves the set without a request under way and without room |
| MissEngine.StuckStep | src/cgm/cache.c:5812-5842 | then every step leaves it so, and its parked requests parked |
| MissEngine.StuckForever | src/cgm/cpu_mesi_protocol.c:494-996 | and so does every run |
| MissEngine.StrandingRun | src/cgm/cpu_mesi_protocol.c:910-942 | a run from the empty cache that strands two requests |
| CacheRuns.RunOk | src/cgm/cpu_mesi_protocol.c:20-996 | with the blocks and ways of the sets: in no run from the empty cache does an assertion fail on the size of the table, a row to clear, the victim, a request marked as coalesced, a refused request, or the transient way and tag of an arriving block |
| CacheRuns.StepOk | src/cgm/cpu_mesi_protocol.c:20-996 | every step keeps the transient ways equal to the ways of the requests below, with their tags, valid blocks under the tags of their ways, and the block of a merged request that is retried valid |
| CacheRuns.SentWay | src/cgm/cache.c:2344-2415 | for a request that is sent the replacement policy finds a way that is kept for no other request, and so is the way of a block to upgrade |
| CacheRuns.Reserved | src/cgm/cache.c:2382-2411 | sending a request makes its way transient for its tag; the victim's block is no longer valid, and no other block changes |
| CacheRuns.ArrivedBlock | src/cgm/cpu_mesi_protocol.c:1594-1608 | an arriving block is valid in the way kept for it, under its tag, the way is transient no more, every other block and way stays, and its request is retried |
| CacheRuns.MissIsNotCoalesced | src/cgm/cache.c:5798-5803 | a retry that misses for want of its block is not marked as coalesced |
| CacheRuns.NoWayMeansParked | src/cgm/cpu_mesi_protocol.c:544-559 | a request that finds its block in the write-back buffer and every way of the set kept is parked, so that the abort after it is not reached |
| CacheRuns.StepIsEngineStep | src/cgm/cpu_mesi_protocol.c:20-996 | every step is one of the miss engine or leaves the engine as it is |
| CacheRuns.StuckForever | src/cgm/cpu_mesi_protocol.c:20-996 | a stuck set stays stuck over every run of the cache with its blocks |
| CacheRuns.StrandingRun | src/cgm/cpu_mesi_protocol.c:910-942 | the run that strands two requests, with its blocks and victims |
| FirstLevel.ScheduleMeansEnabled | src/cgm/cache.c:541-785 | what the scheduler takes is what the steps of the runs allow: a new request only without a retry and with a free row, a reply only without a retry, a retry whenever there is one |
| FirstLevel.RequestEnters | src/cgm/cache.c:5473-5498 | a request that enters the cache, probed and of a kind that can be retried, is ready for the handlers |
| FirstLevel.HandleMiss | src/cgm/cpu_mesi_protocol.c:601-639 | a miss on the mutable queues is the miss step: the request is parked, or goes from its queue to the one towards the next level |
| FirstLevel.FreshMissStep | src/cgm/cpu_mesi_protocol.c:601-639 | a new request that misses takes its step of the runs, with all assertions met |
| FirstLevel.RetryMissStep | src/cgm/cpu_mesi_protocol.c:907-961 | so does a retried request that misses, and a retried store that meets a shared block as a new miss |
| FirstLevel.RetryHitStep | src/cgm/cpu_mesi_protocol.c:686-704 | so does a retried request that hits: one parked request is let go, and it leaves its queue |
| FirstLevel.WriteBlockStep | src/cgm/cpu_mesi_protocol.c:1594-1608 | so does an arriving block: the row is emptied, and the request moves to the retry queue |
| HubIommu.Hub.GetFromQueue | src/cgm/hub-iommu.c:112-163 | the search ends within n + 1 probes at the first queue in cyclic order that holds a packet, returns its head, and goes on from just past it |
| HubIommu.Hub.Rotate | src/cgm/hub-iommu.c:134-154 | the next queue in the cycle of the top queues and the bottom queue |
| HubIommu.PickedInTime | src/cgm/hub-iommu.c:124-156 | a queue that keeps a packet is picked after at most as many calls as it is away |
| HubIommu.Fairness | src/cgm/hub-iommu.c:124-156 | among any n + 1 calls, a queue that keeps a packet is picked, routed or not |
| HubIommu.Hub.HasRoom | src/cgm/hub-iommu.c:289-402 | whether the queue for the packet, by its address as it is, is within the limit |
| HubIommu.Hub.Route | src/cgm/hub-iommu.c:298-428 | the packet leaves the last queue and is appended to exactly one outgoing queue, by its translated address |
| HubMap.MapInRange | src/cgm/cache.c:1443-1456 | the map names one of the GPU caches |
| HubMap.MapBit | src/cgm/cache.c:1443-1456 | the map's bits are address bits above the block offset |
| HubMap.MapKeptExactly | src/cgm/cache.c:1443-1456 | every translation that keeps the page offset keeps the GPU cache exactly if (caches - 1) * block size is below the page size |
| HubMap.MapLost | src/cgm/cache.c:1443-1456 | otherwise an address that shares its page offset with address 0 but not its cache |
| HubRuns.QueuesStayBounded | src/cgm/hub-iommu.c:279-442 | in every run with arrivals and departures at any time, no outgoing queue exceeds the limit by more than one, if translation keeps the GPU cache |
| HubRuns.BoundNeedsMap | src/cgm/hub-iommu.c:396-428 | every run keeps every outgoing queue within the limit and one packet if and only if translation keeps the GPU cache of every address |
| HubRuns.Overrun | src/cgm/hub-iommu.c:396-428 | with an address whose GPU cache translation changes, runs from the empty hub pile up any number of packets in one outgoing queue |
| HubRuns.PagesKeepBoundExactly | src/cgm/hub-iommu.c:396-428 | all runs with all translations by pages keep the bound if and only if (caches - 1) * block size is below the page size |
| HubRuns.OffsetKeepsMap | src/mem-image/mmu.c:834-880 | translation by pages keeps the GPU cache |
| HubRuns.SearchEnds | src/cgm/hub-iommu.c:487-523 | whenever the hub wakes, some queue holds a packet, and the one that is chosen is determined |
| HubRuns.WaitIsBounded | src/cgm/hub-iommu.c:112-163 | in any stretch of a run in which a queue holds a packet and is not chosen, the hub chooses at most n times |
| HubRuns.ChooseMeaning | src/cgm/hub-iommu.c:279-442 | the hub chooses the first queue with a packet, going round, goes on past it, and will move the packet exactly if its outgoing queue is within the limit |
| HubRuns.MoveMeaning | src/cgm/hub-iommu.c:298-428 | the head of the chosen queue goes, translated, to the end of the bottom queue if it came from above and of the queue of its GPU cache if it came from below |
| HubRuns.HubCanStep | src/cgm/hub-iommu.c:487-523 | while a packet waits, the hub can take a step |
| HubRuns.MovedInTime | src/cgm/hub-iommu.c:487-523 | over every run: while the outgoing queue of the head of a queue is within the limit, the hub takes at most 2 * n + 2 steps of its own before it moves that packet |
| HubRuns.Conserved | src/cgm/hub-iommu.c:279-442 | packets enter on arrival and leave on departure only |
| HubRuns.ChosenIsMoved | src/cgm/hub-iommu.c:298-428 | the packet that was chosen is still the head of its queue after the pause |
| HubRuns.UniqueKept | src/cgm/hub-iommu.c:279-442 | packet ids stay unique in the hub if packets arrive with new ones |
| HubSteps.ChooseStep | src/cgm/hub-iommu.c:487-523 | the search and the check for room on the mutable queues take the choice step of the runs |
| HubSteps.MoveStep | src/cgm/hub-iommu.c:298-428 | translation and routing of the mutable message take the move step of the runs |
| HubSteps.HeadIsSole | src/cgm/hub-iommu.c:386-426 | a message that is routed is in no other place of the hub |
| TranslationTables.Table.GetSize | src/cgm/hub-iommu.c:528-543 | the number of live slots |
| TranslationTables.Table.InsertAddress | src/cgm/hub-iommu.c:545-569 | stores the address in the first free slot |
| TranslationTables.Table.GetAddress | src/cgm/hub-iommu.c:571-583 | takes the address out of a live slot |
| TranslationTables.SizeIsCardinality | src/cgm/hub-iommu.c:528-543 | the size is the number of entries of the partial map |
| TranslationTables.OpMeaning | src/cgm/hub-iommu.c:545-583 | on the map, an insertion adds a fresh slot and a get takes its slot away, and other slots are untouched |
| TranslationTables.SizeCounts | src/cgm/hub-iommu.c:528-583 | over every run the size is insertions less gets, not counting the mark |
| TranslationTables.StaysUntilGot | src/cgm/hub-iommu.c:545-583 | an address stays in its slot, and the slot is given to nobody else, until it is got |
| TranslationTables.RoundTrip | src/cgm/hub-iommu.c:545-583 | a get returns exactly the address that was inserted, over any interleaving |
| TranslationTables.MarkIsLost | src/cgm/hub-iommu.c:556-581 | an inserted address can be got back exactly if it is not all ones |

## Left out

- Stack switching (`src/cgm/contexts.c`): a switch is a change of the current task.
- `await_wait`, `remove_last_task`, `delete_event_count` and an advance of the clock itself, which bypass the scheduler's lists; `future_advance`.
- Time and counts are unbounded integers, as in the signed variant of the time type without its overflow; the unsigned variant (`TIME_64`) has no negative pauses. Address words have the simulator's width as a parameter.
- Exiting the simulation when no task is left: the model then has no current task.
- The protocol handlers beyond the flow of a miss through a first-level cache, and with them full coherence. A hit under a pending upgrade is a miss step that is merged; invalidations and downgrades from below, and blocks that come back from the write-back buffer, are steps of `CacheRuns` at any time that the scheduler leaves to them.
- CacheRuns.RunOk: rests on the blocks of a first-level cache being changed by its own handlers only, one message at a time, with retries first; it covers the assertions named in its row, not those on block states and packet sizes.
- FirstLevel.HandleMiss: the ways and blocks of the sets are not part of the mutable state that is represented there; the way of a request is a ghost argument, as in the miss engine.
- The bit of a row that tells a reply to retry: it changes neither tag nor set; a reply that finds it leaves the request below.
- Caches.Cache.CoalescedRetry: requires that parked requests are of a kind that can be retried, where the code aborts.
- L3Eviction.L3Cache.EvictBlock: the states that the code asserts are required; 64-bit truncation of the directory word is not modelled, since an entry has at most 32 sharers.
- HubIommu.Hub.GetFromQueue: for one to eight top queues; with more, or with none, the code's queue numbers collide or abort.
- HubRuns.QueuesStayBounded: the MMU's answers are functions of the address that do not change over a run.
- Routing headers, coherence and connection types of the hub; the translation itself.
- `iommu_put_translation_table`, whose final assertion cannot hold, and `src/cgm/mshr.c`.
- FIFO, random and first-available replacement, which victim selection refuses.
- Configuration, statistics, printing and debugging output.
