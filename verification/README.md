# Proofs about zsim

zsim simulates multicore chips: caches that keep each other coherent, memory controllers, and threads that advance in
phases. This project models the parts of it that are protocols or rest on an invariant, and proves what they promise.
Every module stands for one component.

* `ZArray.dfy`: the zcache array. Insertion walks breadth first through the places that lines could move to, and then
  rotates lines along the chosen chain. The hash is an arbitrary function and the replacement policy picks any candidate.
* `Mesi.dfy`, `MesiTree.dfy`, `MesiSafety.dfy`, `MesiTheorems.dfy`, `MesiSpans.dfy`, `MesiProgress.dfy`,
  `MesiOutcomes.dfy`, `MesiCtrl.dfy`: the MESI protocol on an arbitrary tree of caches. `Mesi` holds the transitions of
  the two controllers, `MesiTree` a step machine in which requests travel up with the child's lock released and
  invalidations overtake them, `MesiSafety` its invariant, `MesiTheorems` what the invariant means, `MesiSpans` what
  holds from the first to the last step of a recall or an invalidation, `MesiProgress` that all requests are completed,
  `MesiOutcomes` in which states they end, and `MesiCtrl` the controllers as objects, whose calls are those spans.
* `LockOrder.dfy`: the locks of the hierarchy over all lines, with evictions and recalls inside accesses.
* `Futex.dfy`, `RwMutex.dfy`: the futex lock and the read-write mutex, one atomic memory access or system call per step.
* `Barrier.dfy`: the phase barrier.
* `DdrCycles.dfy`, `DdrQueue.dfy`, `DdrWindow.dfy`, `DdrTiming.dfy`, `DdrState.dfy`, `DdrMemory.dfy`, `DdrProgress.dfy`,
  `DdrOrder.dfy`: the DDR controller: two clocks, FR-FCFS bank lists, the activation window, the timing constraints
  (those of section 4 of JEDEC JESD79-3 that the simulator knows), the accounts of requests and events, the controller
  object that ties them together, and its runs: that every request is served, and in which order.
* `InList.dfy`, `IdealLru.dfy`: the intrusive list and the fully associative LRU array.
* `DataBus.dfy`: how the detailed memory model reserves the data bus.
* `L1Cache.dfy`, `FilterCache.dfy`: the filter in front of a first-level cache, compared with the same cache without it.
* `Care.dfy`: the CARE policy under a set-associative array.
* `Arith.dfy`, `Sequences.dfy`, `Wrappers.dfy`: small helpers.

Cycle counts, timestamps and addresses are unbounded naturals. Costs of misses are reals. Futex calls behave as the
kernel documents them: FUTEX_WAIT compares and sleeps in one step, FUTEX_WAKE wakes one sleeper, and sleepers may also
wake up by themselves. What other components decide (hash functions, victims, random numbers, the order of requests,
when locks are granted, what a parent grants) is a parameter of a function, an argument of a method, or a choice of the
step machine.

## Where code and comments differ

* locks.h says of `futex_haswaiters` that there are no false positives. `Futex.FalsePositiveWhen` says exactly when there
  is one: nobody is on the way to the lock, and its holder got it by exchanging the word, or a timed attempt has given up
  since the holder got it. `Futex.FalsePositive` and `Futex.FalsePositiveAfterTimeOut` are runs of the two kinds. Without
  timed attempts the promise holds for a holder that got the lock by comparing and swapping (`Futex.NoFalsePositive`).
* `ActWindow::addActivation` re-reads the place of the oldest entry after overwriting it when an activation is earlier
  than the second oldest. The window is then out of order (`DdrWindow.StaysSorted` says exactly when), but the limit of
  four activations in tFAW cycles is kept all the same (`DdrWindow.FawHolds`): every activation replaces the entry it was
  measured against, so the activations fall into four chains with tFAW between the members of each.
* In `DDRMemory::tick` the call of `findMinCmdCycle` for a request from the overflow queue has no effect on the cycle
  that results; the lines cap it at the cycle of the bus. The model follows the code.
* A power-down penalty is added after the slot on the data bus has been chosen. The transfers of all runs are kept apart
  if and only if there is no penalty (`DataBus.OnlyWithoutPenalty`); for every penalty and at any time two requests that
  wake idle ranks can collide (`DataBus.Collide`).
* `Barrier::join` does not record the place of a new thread, and the constructor leaves all places as the memory was. If
  a new thread leaves before its first turn, it may later be taken to be elsewhere. When it then joins again, either the
  assertion on its place fails (`PhaseBarrier.EarlyLeaver` is a run), or it stays at a place that the list may have
  passed. Then it can wait at the end of a phase without having had its turn (`PhaseBarrier.PhaseOverMeans`), and its
  join can end a phase, which a comment excludes: exactly if nobody runs and its recorded place is beyond the list
  (`PhaseBarrier.Barrier.Join`; `PhaseBarrier.JoinEndsPhase` is a run). None of this happens as long as every thread that
  leaves while it waits is at its recorded place (`PhaseBarrier.LeaveWaitingOrder`), and a thread that has run once stays
  at its recorded place until it goes off line.
* With deferred writes the read and the write list of a bank share the count of row hits. A streak of hits can then be
  longer than the limit (`DdrQueue.StreakLimit` says when; `DdrOrder.StreaksEnd` proves the limit for the controller
  otherwise).
* `CAREReplPolicy::update` is commented as being called on a hit. `SetAssocArray::postinsert` calls it too, so the
  insertion of a line takes the only count of its stay, and no hit ever changes the policy (`Care.SetAssocArray.Lookup`).
* `CAREReplPolicy::DTRM` speaks of more than 5% and less than 0.5% of the misses. In single precision exactly 5% of a
  period is more, and exactly 0.5% is less (`Care.MoreThanFivePercent`, `Care.LessThanHalfPercent`).
* Address 0 marks empty entries throughout; a cleared filter takes it for a hit (`FilterCache.ClearedFilterAgrees`).

## Model

| member | source | states |
|---|---|---|
| `ZCache.ParentFirstVisit` | zsim/src/cache_arrays.cpp:142-194 | if the walk meets a line for the first time at an entry, it also met the parent line for the first time at the parent entry: a repeated line was expanded earlier and put the same children at lower indices |
| `ZCache.ChainIsSwapPath` | zsim/src/cache_arrays.cpp:174-194 | because the first entry that holds the victim is taken, the positions on its chain are pairwise distinct, each line moves to a hash position of its own, and the last position becomes free for the new address |
| `ZCache.ChainLength` | zsim/src/cache_arrays.cpp:87-194 | a chain from entry x has at most x/ways + 1 positions, so swapArray of size cands/ways + 2 does not overflow |
| `ZCache.MovesCount` | zsim/src/cache_arrays.cpp:142-161 | expanding a line adds exactly ways - 1 entries, since exactly one of its hash positions is its own |
| `ZCache.WalkExpand` | zsim/src/cache_arrays.cpp:142-161 | one expansion turns a walk into a walk with one more expanded entry, and the number of entries is fixed by the number of expansions |
| `ZCache.FillHole` | zsim/src/cache_arrays.cpp:202-213 | moving the next line of the path into the hole keeps lookupArray a permutation but for the hole and the victim, and every line at a hash position |
| `ZCache.CloseHole` | zsim/src/cache_arrays.cpp:202-217 | giving the last hole to the victim id restores the invariant for the new address: permutation, placement, unique addresses |
| `ZCache.ResidentUpdate` | zsim/src/cache_arrays.cpp:202-217 | the map from addresses to ids loses the victim, gains the new address, and is otherwise unchanged |
| `ZCache.ZArray.constructor` | zsim/src/cache_arrays.cpp:70-88 | an empty array: lookupArray is the identity, no address is resident |
| `ZCache.ZArray.Lookup` | zsim/src/cache_arrays.cpp:98-116 | answers exactly the id that the abstract map holds for the address, and -1 (None) exactly when there is none, although it only looks at the hash positions |
| `ZCache.ZArray.Preinsert` | zsim/src/cache_arrays.cpp:118-200 | for any policy that picks a candidate, the recorded moves form a swap path for the victim; all writes stay inside the two buffers |
| `ZCache.ZArray.WalkArray` | zsim/src/cache_arrays.cpp:127-171 | the breadth-first walk ends, never runs out of entries to expand, and stays inside cands + ways |
| `ZCache.ZArray.FillSwapArray` | zsim/src/cache_arrays.cpp:184-198 | swapArray holds the chain of the chosen entry |
| `ZCache.ZArray.Postinsert` | zsim/src/cache_arrays.cpp:202-217 | the contents afterwards are those before, without the victim and with the new address under its id; all other ids are unchanged |
| `Mesi.AnyOrder` | zsim/src/coherence_ctrls.cpp:213-247 | whatever the order in which the children answer, the assertions on sent and exclusive hold and the directory entry ends the same |
| `Mesi.TopAccessInParts` | zsim/src/coherence_ctrls.cpp:261-332 | an access that recalls copies is its three parts one after the other (the requester leaves the directory, the recalled children answer in any order, the grant), and all assertions between them hold |
| `Mesi.LoadGives` | zsim/src/coherence_ctrls.cpp:281-304 | a load gives the child E exactly if no child shares the line, the cache has exclusive permission and the request allows E, and S otherwise; it recalls the line only from a child that has it exclusively, and adds the child to the sharers |
| `Mesi.StoreGives` | zsim/src/coherence_ctrls.cpp:305-326 | a store gives M, recalls the line from all other children, and leaves the child as the only sharer |
| `Mesi.PutGives` | zsim/src/coherence_ctrls.cpp:266-280 | a PUT takes exactly its child out of the sharers, recalls nothing, and a PUTX comes only from the exclusive sharer |
| `MesiSafety.StepSafe` | zsim/src/coherence_ctrls.h:306-403 | in a safe tree no enabled step violates an assertion or panics, and every step keeps the invariant; requests and invalidations interleave freely |
| `MesiSafety.RunSafe` | zsim/src/coherence_ctrls.h:247-274 | from the empty tree no run of any length, on any tree, reaches a panic of the race check, of the final-state checks, or of the directory |
| `MesiTheorems.DirectoryExact` | zsim/src/coherence_ctrls.h:180-198 | when nothing is being recalled for an entry, sharers are exactly the children with a copy, numSharers is their number, and isExclusive holds exactly when a child is in E or M |
| `MesiTheorems.PermissionsGrow` | zsim/src/coherence_ctrls.cpp:87-151 | no cache has more permission than any cache between it and memory |
| `MesiTheorems.SingleWriter` | zsim/src/coherence_ctrls.cpp:261-332 | a cache in E or M excludes every copy outside its own line of descent |
| `MesiTheorems.CoherentRun` | zsim/src/coherence_ctrls.h:306-403 | in every reachable state, a core cache in E or M is the only core cache with a copy, and all caches above it cover its permission |
| `MesiTheorems.DirtHandedUp` | zsim/src/coherence_ctrls.cpp:56-85 | dirty data below a cache stays below it until the cache hands it up, by a PUTX or by an answer to an invalidation, or from the last-level cache to memory; also when an INVX turns a PUTX into a PUTS |
| `MesiTheorems.AnswerRaisesFlag` | zsim/src/coherence_ctrls.cpp:162-186 | if any cache below is dirty when a cache answers, the sender of the invalidation gets the writeback flag |
| `MesiSpans.InvalidationLosesNothing` | zsim/src/coherence_ctrls.h:382-403 | if any cache below is dirty when an invalidation begins, the sender gets the writeback flag at its end, whatever other steps come between |
| `MesiSpans.StaysBelow` | zsim/src/coherence_ctrls.h:382-403 | while a cache is being invalidated, no step but its own answer takes dirty data out of its subtree |
| `MesiSpans.HeldStays` | zsim/src/coherence_ctrls.h:306-403 | a cache that is being invalidated or waits for its children is changed only by their answers and by its own last step |
| `MesiSpans.SendsAreOneCall` | zsim/src/coherence_ctrls.cpp:213-247 | from the step that begins to send invalidations to the step that ends it, whatever other steps come between, the directory entry changes as by one call of sendInvalidates |
| `MesiSpans.ServedByRecall` | zsim/src/coherence_ctrls.cpp:261-332 | the step that begins a recall and the step that ends it, with any steps between them, leave the entry and the child's state that one call of the top controller computes, and recall the same children |
| `MesiSpans.ServedAtOnce` | zsim/src/coherence_ctrls.cpp:261-332 | a request that needs no recall is served by one step with the result of one call of the top controller |
| `MesiTheorems.InvalidationLeavesClean` | zsim/src/coherence_ctrls.cpp:334-342 | an answered INV or INVX leaves no M in the subtree, and an answered INV no copy |
| `MesiTheorems.AnswerCarriesDirt` | zsim/src/coherence_ctrls.cpp:334-342 | when a cache answers an invalidation, all dirty data below has reached it |
| `MesiTheorems.QuietDirt` | zsim/src/coherence_ctrls.cpp:64-85 | when nothing is under way, a value that memory lacks is in a cache that holds it in M, in any tree, also one of a single cache |
| `MesiTheorems.NoDeadlock` | zsim/src/coherence_ctrls.h:306-403 | for one line, as long as any request, eviction or invalidation is under way, some step that serves it can be taken |
| `MesiProgress.StepLowers` | zsim/src/coherence_ctrls.h:306-403 | every step that serves what has been asked for lowers a measure of the work left, in every safe state of every tree |
| `MesiProgress.AllIsCompleted` | zsim/src/coherence_ctrls.h:306-403 | whatever is under way in a reachable state is completed in any order of service: a run without new requests has a bounded number of steps, can go on as long as anything is under way, and after that number nothing is |
| `MesiOutcomes.RequestEnds` | zsim/src/coherence_ctrls.cpp:87-151 | whenever a request is over, in any interleaving, a load has left S or E, a store M, and an eviction I |
| `MesiOutcomes.EvictionEnds` | zsim/src/coherence_ctrls.cpp:56-85 | an eviction ends with an invalid line, whether the parent had to be told or not |
| `MesiOutcomes.LoadAtOnce` | zsim/src/coherence_ctrls.cpp:281-304 | in the tree, a load served without a recall leaves the child in E exactly if the parent is in E or M, no child of it has a copy, and E is wanted; otherwise in S |
| `MesiOutcomes.LoadAfterRecall` | zsim/src/coherence_ctrls.cpp:281-304 | a load that has to recall the line first leaves the child in S, whatever steps come between |
| `MesiOutcomes.FirstLoad` | zsim/src/coherence_ctrls.cpp:281-304 | from a quiet tree in which no cache has the line, a load of a core ends in E in whatever order it is served, unless E is not wanted, and a store of the core then changes nothing but its own state and sends no request |
| `MesiOutcomes.QuietDirtExact` | zsim/src/coherence_ctrls.cpp:162-186 | when nothing is under way memory lacks a value if and only if some cache holds the line in M, so no writeback flag goes up without dirty data |
| `MesiCtrl.MESIBottomCC.ProcessHit` | zsim/src/coherence_ctrls.cpp:87-151 | the part of an access that needs no parent |
| `MesiCtrl.MESIBottomCC.ProcessInval` | zsim/src/coherence_ctrls.cpp:162-186 | INV leaves the line in I and INVX in S; the writeback flag goes up exactly if the line was in M, and is never taken down |
| `MesiCtrl.MESIBottomCC.ProcessEviction` | zsim/src/coherence_ctrls.cpp:56-81 | dirty data from below makes the line M, and a valid line leaves with PUTX exactly if it is M; up to the call of the parent |
| `MesiCtrl.MESIBottomCC.ProcessWritebackOnAccess` | zsim/src/coherence_ctrls.cpp:153-160 | dirty data from below makes the own copy dirty |
| `MesiCtrl.MESITopCC.SendInvalidates` | zsim/src/coherence_ctrls.cpp:213-247 | the loop over the children tells exactly those that must be told, and the flag is up exactly if one of them had dirty data |
| `MesiCtrl.MESITopCC.ProcessAccess` | zsim/src/coherence_ctrls.cpp:261-332 | a GETS leaves the child in E exactly when no child shared the entry before, the cache has exclusive permission and the request is not noExcl, and in S otherwise; a GETX leaves it in M and the only sharer; a PUT leaves it in I and out of the sharers; the flag is up exactly if a recalled child had dirty data; and entry and state are those that `MesiSpans` finds in the tree between the first and last step of a request |
| `LockOrder.UpSafe` | zsim/src/coherence_ctrls.h:306-390 | an access takes only locks that rank above all locks the thread holds, at any depth and with any evictions, misses and recalls inside it, and leaves all locks as it found them |
| `LockOrder.DownSafe` | zsim/src/coherence_ctrls.h:393-403 | an invalidation, through the whole subtree, takes only locks that rank above all those held, and gives them all back |
| `LockOrder.CoreSafe` | zsim/src/filter_cache.h:128-162 | a whole load or store, with the lock of the filter, takes only locks that rank above all those held, and starts and ends without locks |
| `LockOrder.UpWorks` | zsim/src/coherence_ctrls.h:306-390 | every access to a parent and every invalidation inside an access is made under the cache's own locks, tcc and bcc, and without the child's; the child's lock is taken again before the own ones are given up |
| `LockOrder.DownWorks` | zsim/src/coherence_ctrls.h:393-403 | a cache invalidates its children while it holds its bcc lock, and next to a core it holds bcc and the filter's lock together |
| `LockOrder.FindStep` | zsim/src/coherence_ctrls.h:306-390 | following who waits for whom, the rank of the lock waited for rises, so the chain ends at a thread that can go on |
| `LockOrder.NoDeadlock` | zsim/src/coherence_ctrls.h:306-403 | any number of cores, any hierarchy, any accesses, any interleaving: as long as one thread is not done, one can go on; no two threads hold the same lock, and whoever is done holds none |
| `Futex.MutualExclusion` | zsim/src/locks.h:153-213 | at most one thread holds the lock, counting an unlocker that has not yet stored 0 |
| `Futex.StepExclusion` | zsim/src/locks.h:153-213 | every atomic step keeps exclusion, and changes the holder only from nobody to the thread that steps, or back |
| `Futex.RunInv` | zsim/src/locks.h:153-213 | in every run, if a thread sleeps, the word is 2 or some thread still owes a wake-up |
| `Futex.SleepersAreWoken` | zsim/src/locks.h:153-213 | it cannot be that a thread sleeps and all others are outside or asleep |
| `Futex.FalsePositiveWhen` | zsim/src/locks.h:215-221 | in every run a holder is told of waiters although nobody is on the way to the lock if and only if nobody is and it got the lock by an exchange, or a timed attempt has given up since |
| `Futex.NoFalsePositive` | zsim/src/locks.h:215-221 | without timed attempts, a holder that got the lock by comparing and swapping is told of waiters only if there is one; with nobody behind it a holder is told of waiters exactly if it got the lock by an exchange |
| `Futex.RunTells` | zsim/src/locks.h:153-221 | in every run, an exchange by the holder or an attempt that gave up keeps the word at 2 as long as the lock is held, and a word of 2 has one of these reasons or somebody is on the way |
| `Futex.FalsePositive` | zsim/src/locks.h:215-221 | a run after which the word is 2 and nobody is on the way to the lock, without timed attempts |
| `Futex.FalsePositiveAfterTimeOut` | zsim/src/locks.h:189-206 | a run after which the word is 2 and nobody is on the way to the lock, although the holder has never blocked: a timed attempt has given up |
| `Futex.NoFalseNegative` | zsim/src/locks.h:215-221 | a sleeper whom nobody is about to wake is always detected |
| `RwMutex.StepInv` | zsim/src/mutex.h:111-176 | every step keeps the invariant on readers, rb and wq, and the assertion oldReaders == 1 holds |
| `RwMutex.WriterExcludesAll` | zsim/src/mutex.h:111-127 | in every run, a writer excludes all readers, all other writers and all downgraders |
| `RwMutex.DowngradeIsAtomic` | zsim/src/mutex.h:139-176 | from the start of a downgrade to the end of the read section no thread becomes a writer, also while wq is not held |
| `RwMutex.NoDeadlock` | zsim/src/mutex.h:111-176 | if nobody is inside but some thread is on its way, some thread can go on |
| `RwMutex.OperationsEnd` | zsim/src/mutex.h:111-176 | in every run, a thread that has begun to lock, unlock, upgrade or downgrade is on its way or has ended where the operation leads: rdLock and downgrade in reading, wrLock and upgrade in writing, the unlocks outside; at most four steps of its own complete it |
| `PhaseBarrier.Barrier.constructor` | zsim/src/barrier.h:103-118 | an empty barrier in which all threads are OFFLINE, with places as the memory was |
| `PhaseBarrier.Barrier.Join` | zsim/src/barrier.h:123-162 | keeps the invariant (run list = threads that are not OFFLINE, once each; counters count; at most parallelThreads run; if any thread waits, one runs); the assertion on the place fails exactly if the thread has left, is not at its recorded place and that has been passed, so never as long as order has been kept; a joiner that is new or at its recorded place is last, at its place, or next; a phase ends if and only if the thread has left, nobody runs, and its recorded place is beyond the list |
| `PhaseBarrier.Barrier.Leave` | zsim/src/barrier.h:165-177 | keeps the invariant; leaving while waiting changes nothing else, and keeps order exactly if the thread is at its recorded place; leaving while running keeps order, wakes others and may end the phase |
| `PhaseBarrier.Barrier.Sync` | zsim/src/barrier.h:180-199 | keeps the invariant; the thread waits, others are woken, and the phase ends exactly when it is over |
| `PhaseBarrier.Barrier.TryWakeNext` | zsim/src/barrier.h:275-279 | a phase ends exactly when nobody runs, nobody is due and somebody waits; states change only from waiting to running and, every 32nd phase, from left to off line |
| `PhaseBarrier.Barrier.CheckRunList` | zsim/src/barrier.h:254-273 | gives turns in list order up to the limit; the panic "wakeup race" is unreachable |
| `PhaseBarrier.Barrier.CheckEndPhase` | zsim/src/barrier.h:202-252 | ends a phase exactly under its condition; the assertions runListSize > 0 and runListSize - newSize == leftThreads hold |
| `PhaseBarrier.Barrier.Cleanup` | zsim/src/barrier.h:216-239 | afterwards nobody on the list has left, and whoever had left is OFFLINE |
| `PhaseBarrier.Barrier.Shuffle` | zsim/src/barrier.h:241-251 | any shuffle keeps the list a permutation with correct places |
| `PhaseBarrier.PhaseOverMeans` | zsim/src/barrier.h:202-210 | when a phase is over every listed thread has left, or waits and has had its turn in this phase, unless order has been broken and it has strayed |
| `PhaseBarrier.CheckRunDue` | zsim/src/barrier.h:254-273 | if somebody is due, somebody runs after turns have been given; if nobody is due, only the place in the list changes |
| `PhaseBarrier.WokeNextHolds` | zsim/src/barrier.h:275-279 | after turns, end of phase and turns again: the limit is kept, as many run as may, and if any thread waits, one runs |
| `PhaseBarrier.AllLeft` | zsim/src/barrier.h:202-207 | when nobody runs, leftThreads equals the length of the list exactly when nobody waits |
| `PhaseBarrier.LeaveWaitingOrder` | zsim/src/barrier.h:123-177 | when a waiting thread leaves, everybody who has left is at the recorded place if and only if that was so before and the thread is at its own |
| `PhaseBarrier.EarlyLeaver` | zsim/src/barrier.h:123-138 | a run of the operations in which the assertion on the place fails: three joins, an early leave and another join |
| `PhaseBarrier.JoinEndsPhase` | zsim/src/barrier.h:123-162 | a run of the operations in which a join ends a phase: three joins, three leaves and another join of a thread whose place was never recorded |
| `DdrCycles.MatchingComesBack` | zsim/src/ddr_mem.h:248-258 | sysToMemCycle(matchingMemToSysCycle(m)) == m for all m >= 1 under the frequency check of the constructor |
| `DdrCycles.EventFallsOn` | zsim/src/ddr_mem.cpp:457-459 | the same after the maximum with the current system cycle |
| `DdrCycles.DoneNotBefore` | zsim/src/ddr_mem.cpp:606-607 | a response is never due before the current system cycle |
| `DdrCycles.MemCycleIs` | zsim/src/ddr_mem.h:248-250 | a system cycle falls into memory cycle m exactly if it lies between (m - 1) * sysFreq / memFreq and m * sysFreq / memFreq |
| `DdrCycles.DoneSoon` | zsim/src/ddr_mem.h:251-251 | what ends in memory cycle m is answered in a system cycle that falls into the next memory cycle, or at the very beginning of the one after, exactly if (m + 1) * sysFreq is a multiple of memFreq |
| `DdrQueue.BoundedBypass` | zsim/src/ddr_mem.cpp:384-419 | a waiting request is served after at most a number of services of its list that is fixed beforehand, whatever arrives |
| `DdrProgress.EveryRequestServed` | zsim/src/ddr_mem.cpp:296-461 | in every run of the controller, with requests that enter at once or from outside, events and refreshes, a request that waits in a bank list is served once that list has been served more often than its wait, which the requests ahead of it fix beforehand |
| `DdrProgress.NewRequestServed` | zsim/src/ddr_mem.cpp:296-461 | in every run of the controller a request that enters a list of n requests is served once that list has been served n + n * rowHitLimit + 1 times |
| `DdrProgress.ServiceSeen` | zsim/src/ddr_mem.cpp:491-632 | a service of the controller takes the first request of one bank list and leaves all other lists alone |
| `DdrQueue.ArrivalKeepsWait` | zsim/src/ddr_mem.cpp:384-419 | no arrival raises that number for any waiting request |
| `DdrQueue.ServiceCutsWait` | zsim/src/ddr_mem.cpp:627-629 | every service lowers it |
| `DdrQueue.ServedWithin` | zsim/src/ddr_mem.cpp:384-419 | with n requests waiting at its arrival, a request is served within n + n * rowHitLimit + 1 services |
| `DdrQueue.FirstComeFirstServed` | zsim/src/ddr_mem.cpp:384-419 | with rowHitLimit 0 the order of service is the order of arrival |
| `DdrQueue.OneListStreaks` | zsim/src/ddr_mem.cpp:384-419 | in every run of a bank with one list, of any rowHitLimit + 1 requests served one after the other at least one had not joined a streak of row hits |
| `DdrQueue.StreakLimit` | zsim/src/ddr_mem.cpp:367-419 | that holds in every run of a bank if and only if writes are not deferred or rowHitLimit is 0 |
| `DdrQueue.InsertOk` | zsim/src/ddr_mem.cpp:384-419 | an arrival keeps the order of a list: the next request for the same row stands directly behind with the next number, unless the limit is reached and it starts again from 0; nothing else carries a number |
| `DdrQueue.InsertJoins` | zsim/src/ddr_mem.cpp:384-419 | the place of a new request in quantifiers: directly behind the last one for its row with one more, if that one carries less than the limit; otherwise last with 0, unless it continues the open row of an empty list |
| `DdrOrder.RowHitsTogether` | zsim/src/ddr_mem.cpp:384-632 | in every run of the controller, of two requests for one row that stand one behind the other in a bank list the second is served directly after the first, whatever arrives |
| `DdrOrder.HitOvertakes` | zsim/src/ddr_mem.cpp:384-632 | in every run, a request that enters while the last one waiting for its row carries less than the limit is served directly after that one, before all other rows that have been waiting |
| `DdrOrder.QueueChosen` | zsim/src/ddr_mem.cpp:510-511 | a request is served from the read queue if and only if reads are queued, the write queue is filled to no more than three quarters, and to no more than one quarter if the last command was a write |
| `DdrOrder.WritesDrain` | zsim/src/ddr_mem.cpp:510-511 | in every run, once writes fill more than three quarters of their queue no read is served until some turn finds no more than one quarter of it filled |
| `DdrOrder.ReadsGoFirst` | zsim/src/ddr_mem.cpp:510-511 | in every run with deferred writes, once the last command was a read no write is served until some turn finds no read queued or more than three quarters of the write queue filled |
| `DdrOrder.NothingMissed` | zsim/src/ddr_mem.cpp:506-632 | before the cycle for which a turn asks, no try serves any of the requests that are left |
| `DdrOrder.ReadyThen` | zsim/src/ddr_mem.cpp:516-543 | if nothing was ready although the bus was free, a try in the cycle asked for serves a request |
| `DdrOrder.BankRuns` | zsim/src/ddr_mem.cpp:296-656 | in every run of the controller from its beginning, each bank with its lists and registers goes through a run of the bank with two lists |
| `DdrOrder.StreaksEnd` | zsim/src/ddr_mem.cpp:384-419 | in every run of the controller without deferred writes, or with rowHitLimit 0, of any rowHitLimit + 1 requests that a bank serves one after the other at least one has not joined a streak |
| `DdrOrder.RegistersTell` | zsim/src/ddr_mem.cpp:584-599 | in every run of the controller, the open row and the count of row hits of a bank are those of the request it has served last |
| `DdrOrder.RowStaysOpen` | zsim/src/ddr_mem.cpp:586-599 | after a service the row of the request stays open, except that the closed-page policy closes it unless the next request of the list is for the same row and carries the next number |
| `DdrOrder.ClosedUnlessHit` | zsim/src/ddr_mem.cpp:586-599 | with the closed-page policy, in every run of the controller a row is open only for a request that waits first in a list of its bank and continues the streak |
| `DdrWindow.FawHolds` | zsim/src/ddr_mem.h:43-79 | in every run, in order or not, at most four activations of a rank fall into any tFAW cycles, although the shifting loop may scramble the window |
| `DdrWindow.StaysSorted` | zsim/src/ddr_mem.h:59-74 | the window stays in order exactly when the new activation is no earlier than the second oldest |
| `DdrWindow.ActWindow.AddActivation` | zsim/src/ddr_mem.h:59-74 | the circular buffer holds what the specification says after all activations so far, also when the loop re-reads the place it has overwritten |
| `DdrTiming.TimingHolds` | zsim/src/ddr_mem.cpp:470-656 | in every run of requests and refreshes: data bursts are disjoint and in order; activations of a bank are tRAS + tRP apart; column commands come tRCD after the activation of their own row; reads come tWTR after a write burst; tRTP and tWR are kept before the next precharge; no command falls into a refresh; tFAW holds for every rank |
| `DdrTiming.AccessKeeps` | zsim/src/ddr_mem.cpp:549-599 | issuing a ready request keeps all constraints against all earlier commands |
| `DdrTiming.RefreshKeeps` | zsim/src/ddr_mem.cpp:634-656 | a refresh starts after all earlier commands have let go of their rows, and keeps all constraints |
| `DdrTiming.CommandAtOnce` | zsim/src/ddr_mem.cpp:549-583 | a request that is chosen is issued in the very cycle, unless the bus turns round from writing to reading |
| `DdrTiming.EarliestCommands` | zsim/src/ddr_mem.cpp:549-583 | precharge, activation and column command of an access come at the least cycles that arrival, tRP, tRRD, tFAW, tRCD, the bus and the turn from writing to reading allow |
| `DdrTiming.EarliestReady` | zsim/src/ddr_mem.cpp:470-489 | a request counts as ready exactly from the first cycle on at which its bank and rank allow the column command |
| `DdrTiming.RegistersAfter` | zsim/src/ddr_mem.cpp:580-599 | after an access the bank can be precharged at the least cycle that tRAS, tWR or tRTP and the old bound allow; row, count of hits, last commands and the bus are those of the access, and all other banks are unchanged |
| `DdrTiming.EarliestRefresh` | zsim/src/ddr_mem.cpp:634-656 | a refresh starts at the least cycle at which it is due and every bank has come to rest; all rows are closed and can be activated exactly when it is done |
| `DdrMemory.DDRMemory.Enqueue` | zsim/src/ddr_mem.cpp:296-343 | the request waits outside exactly if a queue is full; otherwise it stands in its bank's list directly behind the last one for its row with one more, if that one carries less than rowHitLimit, and else last with 0, unless it continues the open row of an empty list; writes are answered at once; the next event is the sooner of the recorded one and the first cycle that bus and bank allow the new head of a list |
| `DdrMemory.DDRMemory.Place` | zsim/src/ddr_mem.cpp:384-419 | the new request stands directly behind the last one for its row with one more, if that one carries less than rowHitLimit; otherwise it is last and carries 0, unless it continues the open row of an empty list |
| `DdrMemory.DDRMemory.FindReady` | zsim/src/ddr_mem.cpp:516-543 | the first ready request in order of arrival, or the least cycle at which one will be ready |
| `DdrMemory.DDRMemory.TrySchedule` | zsim/src/ddr_mem.cpp:491-632 | serves exactly the first ready request of the chosen queue, if there is one: a read if and only if reads are queued and the writes fill no more than three quarters of their queue, nor more than one quarter while they are being served; all assertions hold; the cycle of the next try is the least at which a head is ready, or when the bus is free, or never, exactly when nothing is queued |
| `DdrMemory.DDRMemory.IssueCommands` | zsim/src/ddr_mem.cpp:549-599 | the registers of bank, rank and bus are those of the specification, and all timing constraints are kept |
| `DdrMemory.DDRMemory.Refresh` | zsim/src/ddr_mem.cpp:634-656 | the registers after a refresh are those of the specification, and all timing constraints are kept |
| `DdrMemory.DDRMemory.Tick` | zsim/src/ddr_mem.cpp:426-461 | fires on the recorded cycle; tries to serve once, then lets one request in if there is room; the next event translates back to the cycle that results; the returned cycle is 0 exactly when nothing is queued |
| `DdrMemory.DDRMemory.LetIn` | zsim/src/ddr_mem.cpp:432-450 | the first request from outside enters its bank's list directly behind the last one for its row with one more, if that one carries less than rowHitLimit, and else last; it brings the next event forward to when the bus is free if it heads the list |
| `DdrMemory.DDRMemory.Reschedule` | zsim/src/ddr_mem.cpp:325-340 | the old live event is annulled at its cycle and another one, idle or new, is queued, with all others unchanged; it fires in the wanted memory cycle, and the free list holds exactly the idle events |
| `DdrMemory.DDRMemory.Simulate` | zsim/src/ddr_mem.cpp:114-132 | an event keeps the invariant of the controller: one live event exactly while requests are queued, requests outside only while others are queued, every request answered once |
| `DdrState.EnlistNew` | zsim/src/ddr_mem.cpp:296-343 | a new request enters once, is numbered once, and is answered or owed an answer |
| `DdrState.ServeOk` | zsim/src/ddr_mem.cpp:601-629 | a served request leaves its queue and list, and is answered if and only if it was not before |
| `DdrState.HeadExists` | zsim/src/ddr_mem.cpp:516-534 | if anything is queued, some request heads its bank list, so the search for the next cycle is never empty |
| `DdrState.NeverZero` | zsim/src/ddr_mem.cpp:114-132 | the cycle of an event is never 0, which would read as "no event" |
| `InList.List.PushFront` | zsim/src/intrusive_list.h:88-101 | puts a free node first; all links, owners, ends and the count agree with the sequence of nodes |
| `InList.List.PushBack` | zsim/src/intrusive_list.h:103-115 | puts a free node last; all links, owners, ends and the count agree with the sequence of nodes |
| `InList.List.PopFront` | zsim/src/intrusive_list.h:117-124 | takes the first node, which is free afterwards; all links, owners, ends and the count agree with the sequence of nodes |
| `InList.List.PopBack` | zsim/src/intrusive_list.h:126-133 | takes the last node; all links, owners, ends and the count agree with the sequence of nodes |
| `InList.List.Remove` | zsim/src/intrusive_list.h:136-143 | takes out any node in one step and leaves all others linked as before; all links, owners, ends and the count agree with the sequence of nodes |
| `InList.List.InsertAfter` | zsim/src/intrusive_list.h:145-151 | puts a free node behind any other; all links, owners, ends and the count agree with the sequence of nodes |
| `IdealLru.IdealLRUArray.Lookup` | zsim/src/ideal_arrays.h:81-91 | finds exactly the addresses held; a hit becomes the most recent, nothing else moves |
| `IdealLru.IdealLRUArray.Preinsert` | zsim/src/ideal_arrays.h:93-97 | the victim is the least recently used line |
| `IdealLru.IdealLRUArray.Postinsert` | zsim/src/ideal_arrays.h:99-111 | the new address is the most recent and replaces that of the line; map, array and list agree |
| `IdealLru.IdealLRUArray.Access` | zsim/src/ideal_arrays.h:81-111 | after any trace of accesses the array holds the most recently used distinct addresses in order of use, as many as it has lines |
| `IdealLru.RecencyIs` | zsim/src/ideal_arrays.h:81-111 | that order is the order of the last use in the trace, and holds every used address once |
| `IdealLru.Inclusion` | zsim/src/ideal_arrays.h:35-38 | on the same trace a larger array holds all that a smaller one holds |
| `DataBus.Bus.CalcInterIssueCycle` | zsim/src/detailed_mem.cpp:254-271 | the earliest cycle from the requested one on at which the transfer keeps apart, with tRTRS, from every transfer of the log |
| `DataBus.Bus.UpdateDataBusCycle` | zsim/src/detailed_mem.cpp:197-205 | the log is the sorted one with the new transfer in its place and, if it was full, without the first, over which the next is stretched; it still covers every transfer so far |
| `DataBus.Bus.Reserve` | zsim/src/detailed_mem.cpp:412-437 | the transfer is the first that fits the log from the requested cycle on, tCWD after it for writes and tCAS for reads, delayed by the penalty; without a penalty it keeps apart from all transfers of the run, also from those dropped from the log; the log keeps as many transfers as it can |
| `DataBus.Forgotten` | zsim/src/detailed_mem.cpp:201-204 | stretching the next transfer back to cycle 0 covers the one that is dropped |
| `DataBus.RunStands` | zsim/src/detailed_mem.cpp:197-271 | in every run the log stands for all transfers so far; without penalties they all keep apart from each other |
| `DataBus.KeepsLatest` | zsim/src/detailed_mem.cpp:197-205 | in every run the log holds as many transfers as there were, up to its size; those it has dropped are no later than its first, and all but its first are transfers as they were |
| `DataBus.OnlyWithoutPenalty` | zsim/src/detailed_mem.cpp:412-437 | with penalties up to a limit, the transfers of every run keep apart from each other if and only if the limit is 0 |
| `DataBus.Collide` | zsim/src/detailed_mem.cpp:412-452 | for every penalty and at any time, two requests to a new bus that both wake an idle rank can get slots that run into each other |
| `FilterCache.FilterCache.Load` | zsim/src/filter_cache.h:102-112 | the same requests to the parent, and the same addresses, states and order of use, as the cache without the filter; a line without permission is asked for with GETS, and the victim it needs leaves with PUTX if modified and PUTS if clean; a valid line keeps its state, any other is E or S as the parent grants; the next load of the line is a hit |
| `FilterCache.FilterCache.Store` | zsim/src/filter_cache.h:114-126 | the same requests and the same cache as without the filter; a line that is not in E or M is asked for with GETX, after a victim has left with PUTX if modified and PUTS if clean; the line is in M afterwards, and the next load or store of it is a hit |
| `FilterCache.FilterCache.Replace` | zsim/src/filter_cache.h:128-149 | a miss in the filter does what the cache without the filter does, with invalidations at every point where the locks are free; what it asks for, with what its victim leaves and how it leaves the line are as for the whole load or store |
| `FilterCache.FilterCache.Invalidate` | zsim/src/filter_cache.h:151-162 | an invalidation does to the cache what it does without the filter, and the filter forgets exactly that line |
| `FilterCache.FilterCache.ContextSwitch` | zsim/src/filter_cache.h:164-168 | clears the filter and changes nothing else |
| `FilterCache.FilterCache.HitKeeps` | zsim/src/filter_cache.h:102-126 | a hit stands for an access that sends no request and changes nothing but the time of the most recent use |
| `L1Cache.VictimIsFirstLeast` | zsim/src/repl_policies.h:121-142 | the LRU victim is the first line of least score, where an invalid line scores least |
| `FilterCache.FilterCache.RankCands` | zsim/src/repl_policies.h:121-142 | the scan finds the first invalid line, or else the first of the least recently used |
| `FilterCache.ClearedFilterAgrees` | zsim/src/filter_cache.h:102-112 | over an empty cache a cleared filter is right about what it calls a hit exactly for addresses other than 0 |
| `L1Cache.SameAccess` | zsim/src/cache.cpp:61-126 | two caches that differ only in times of use, not in their order, choose the same victims, send the same requests and stay alike |
| `L1Cache.SameVictim` | zsim/src/repl_policies.h:121-142 | their LRU victims are the same |
| `L1Cache.AccessMeans` | zsim/src/cache.cpp:61-126 | an access asks its parent for GETS or GETX exactly when the line lacks the permission; if the line is not there, the first invalid line or else the least recently used leaves, with PUTX if modified, PUTS if clean, and nothing if invalid; a store leaves the line in M, a load a valid line in its state and any other as the parent grants |
| `L1Cache.OneTold` | zsim/src/coherence_ctrls.cpp:162-186 | an invalidation leaves its line in I, a downgrade in S, and all other lines as they were |
| `L1Cache.StaysUntilTold` | zsim/src/coherence_ctrls.cpp:56-85 | in every run of loads, stores and invalidations a valid line stays in its state until it is invalidated, downgraded or, if not modified, written, or a request is sent that writes it back: PUTX if it is modified, PUTS if clean |
| `L1Cache.StoredUntilTold` | zsim/src/coherence_ctrls.cpp:56-151 | in every run after a store the line stays in M until an invalidation or downgrade of it comes or it leaves with PUTX |
| `Care.CAREReplPolicy.GetBestCandidate` | zsim/src/care_repl.h:215-237 | the first candidate such that no other has a higher epv, or the same and a lower rc, or the same of both and a lower pd |
| `Care.CAREReplPolicy.Replaced` | zsim/src/care_repl.h:240-275 | the table's reuse count of the evicted address goes down by one if it is not 0, the cost of the new address moves by one towards the line's, and the line takes over both; all other entries and lines are unchanged; epv fits the predictions |
| `Care.CAREReplPolicy.Update` | zsim/src/care_repl.h:155-166 | the first use since a replacement raises the reuse count by exactly one in line and table, but not above 7, and recomputes epv; later uses change nothing, nor does anything else |
| `Care.CAREReplPolicy.DTRM` | zsim/src/care_repl.h:132-152 | the thresholds go up if at least 800 of the 16000 misses of a period were costly, and down if at most 80 were; PMC_high stays 7 times PMC_low, and PMC_low at least 10 |
| `Care.MoreThanFivePercent` | zsim/src/care_repl.h:138-140 | the quotient in single precision exceeds 0.05 in double precision exactly from 800 of 16000 on, since 800/16000 is rounded up |
| `Care.LessThanHalfPercent` | zsim/src/care_repl.h:143-144 | the quotient falls below 0.005 exactly up to 80 of 16000, since 80/16000 is rounded down |
| `Care.CAREReplPolicy.ShtPMCUpdate` | zsim/src/care_repl.h:188-201 | the predicted cost moves by one, within 0 and 7 |
| `Care.CAREReplPolicy.QuantizePMC` | zsim/src/care_repl.h:168-185 | the cost class of a miss by the two thresholds |
| `Care.CAREReplPolicy.FindID` | zsim/src/care_repl.h:122-130 | the first line that mirrors the address |
| `Care.SetAssocArray.Lookup` | zsim/src/cache_arrays.cpp:39-49 | finds in one set what a search of all lines finds, so it agrees with FindID of the policy on every nonzero address; a hit changes neither the policy's lines nor its table |
| `Care.SetAssocArray.Preinsert` | zsim/src/cache_arrays.cpp:51-59 | the victim is in the set of the address: an empty line if there is one, else a line that is cheap to fetch again, else a costly one, else one with reuse count 7; of the same kind the one with less reuse and then less cost, and of equals the first |
| `Care.SetAssocArray.Postinsert` | zsim/src/cache_arrays.cpp:61-65 | addresses stay in their sets and unique, and the mirror of the policy equals the tags; the line starts with one more than the table predicted, up to 7, after the evicted line has been counted down, and the table learns the same; a resident line has a reuse count of at least 1, so only an empty one is of low reuse |

## Left out

- ZArray: statistics and the time of the walk; the policy is any choice among the candidates.
- MESI tree: `nonInclusiveHack` and its writebacks, FWD, prefetches and PUTX_KEEPEXCL, which give up inclusion or add side requests; latencies and timing records.
- MESI tree: one line at a time. Other lines interact with it only by holding locks, which removes interleavings; locks over all lines are the subject of `LockOrder`.
- MESI tree: the choice among several parent banks; for one address there is one parent.
- MesiCtrl.MESIBottomCC.ProcessEviction: the parent's answer and its races, which are steps of `MesiTree`.
- LockOrder: the lock that a memory may have inside, and what is done between locks.
- Futex: spinning and backoff without effect on the word; fairness.
- RwMutex: its two inner futex locks are plain locks here, which `Futex.StepExclusion` justifies.
- PhaseBarrier: the callback at the end of a phase, which does not call the barrier; the futex waits of `join` and `sync` after the scheduler lock is released; the random numbers, for which any numbers stand.
- DdrMemory: the mapping of addresses to rank, bank and row, which are arguments; latency statistics; the fixed delays of the controller; response cycles, of which only the assertion is kept.
- DdrMemory: banks are numbered through all ranks; the windows of the ranks are sequences given by the function that `DdrWindow.ActWindow` implements; queues and lists are sequences, whose links are the subject of `InList`.
- DdrTiming: tRRD between banks of one rank, which the code does not enforce; commands on the command bus.
- IdealLru: the address of a line stands in an array beside its list element, not in it. The partitioned variant is not modelled.
- DataBus: ranks, banks and the power model; `std::sort` of a list that was sorted before one element was added is the insertion of that element.
- FilterCache: timing (`availCycle`), the process mask and several processes; addresses are those of one process. The 32-bit truncation of LRU scores.
- FilterCache: an invalidation that arrives between the release of the filter's lock and the taking of the cache's lock is taken to come before the access, which changes nothing because the filter has missed.
- Care: `hashAddr` is any function into the table; `CareInfoDump`.
- Timing caches, event scheduling across components, the other replacement policies, partitioning, configuration, statistics and instrumentation.
