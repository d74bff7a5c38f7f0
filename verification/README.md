# woomem: a verified model

woomem is a concurrent mark-sweep garbage collector on a three-level allocator: a chunk of
32 KiB pages, pages cut into units of one size group, and per-thread page caches fed from a
global pool. This project models its hard core in Dafny and proves what that core has to
guarantee, for every input, every interleaving of any number of threads, and every reachable
state. `dafny verify dfyconfig.toml` checks all of it.

| module | models | main results |
|---|---|---|
| `PageMap` | the reference view of a chunk: which block each page belongs to | first fit, undo, order independence |
| `FreeList`, `Chunk` | the page allocator: count array, intrusive sorted free list, split, two-sided merge, backward scan | refinement of the page map, canonical form, exact first fit, exact `validate` |
| `MpscQueue` | the gray queue: per-slot tickets, any number of producers, one consumer | soundness exactly from two slots up, refinement of a first-in first-out queue |
| `Tricolour` | the heap during collection rounds: unit lives, ages, round byte, words | tri-colour invariant, exactness of a round, harmless wrap-around |
| `Barrier` | the phase barrier between main thread and workers | lockstep, no deadlock |
| `HeapPages` | the page list and the workers' sweep lists as pages move between them | no page lost or listed twice, the list taken for a sweep holds every unit |
| `Collector` | main thread, workers and external threads on top of the three | every gray unit in exactly one place, drain handshake, whole-cycle correctness |
| `CollectorScenarios` | two runs of `Collector`, step by step | a sweep with nothing to start from, garbage kept by a stale word |
| `PageList`, `SweepShares` | cutting the page list over the workers, in place | exact split, partition of the units, exact rounds |
| `SweepPage`, `SweepRound` | sweeping one page, a worker's list, the whole phase; accounting | every page swept once, exact counters, exact page list afterwards |
| `UnitLists` | the units of one page: private list and shared freed stack | conservation, nothing handed out twice |
| `PageOwnership` | thread caches, global pool, sweeper and `m_run_out` | one owner, no page lost, safe return to the chunk |
| `SizeClasses`, `AddressResolution` | size tables, address to unit, reallocation | exact tiling, exact resolution, bytes kept |
| `RwLock` | the read-write spin lock around the chunk | exclusion for any number of threads |

Code that changes arrays and fields in place is modelled that way: `Chunk` is a class over arrays,
`PageList.Split`, `SweepPage.SweepNormal`, `SweepRound.SweepList`, `UnitLists.InitPage` and
`AddressResolution.Reallocate` are methods over arrays. Lock-free and multi-threaded code is modelled as a step
machine, sequentially consistent, any number of threads: a step is one atomic access or one critical
section, except that reading a word of a unit and marking what it names is one step, and so is
everything the sweep does to one unit (`Collector`, steps `Read` and `Visit`). A run is any sequence
of states connected by enabled steps, and the theorems named below quantify over runs.

## What the proofs brought up

- **Queue of capacity one.** The static assertion admits one slot, but then a published slot
  cannot be told from a free one and a second enqueue overwrites the first item unread.
  `MpscQueue.CapacityOneLosesItems` gives the run, `MpscQueue.SoundExactlyFromTwoSlots` the exact
  bound. The collector uses 8192 slots.
- **Overflow of `size_t`.** Rounding up to pages is right exactly when the addition does not wrap
  (`Chunk.RequiredPagesExact`); a huge allocation has room for the request exactly when
  `size + 32 + 32767 < 2^64` (`SizeClasses.HugeFitsExactly`). Beyond that, one page is asked for if
  already adding the 32 bytes wraps past zero, and none otherwise
  (`SizeClasses.OverflowAsksTooLittle`). Asking for none breaks the chunk unless it is full: the
  first free page is handed out and stamped as allocated while it stays on the free list
  (`Chunk.Chunk.AllocatePages`).
- **Chunks of 2^31 pages and more.** Below that size the constructor establishes the invariant. From
  there on the count of the one free block is the number of pages modulo 2^32: it carries the
  allocated flag or is too small.
- **Stale words.** A cell is not cleared when it is handed out, and a unit is scanned up to the size
  of its group, so a unit completed during a round may carry a word nobody stored. If it names an
  old unit that is garbage, the round keeps that unit (`CollectorScenarios.StaleWordKeepsGarbage`).
  Marking marks no old unit in vain if and only if no such word names garbage
  (`Collector.MarkedInVain`); `Collector.WholeCycle` counts those words as sources of reachability,
  and says that they add nothing in that case. Nothing reachable is ever lost through them.
- **Empty page list.** When no page is on the global list the workers' sweep lists are not reset
  (src/woomem_gc.cpp:299), so they walk the pages of an earlier round again. Over any sequence of
  rounds, a round hands out the right lists if and only if it has a page or no earlier round had
  one (`PageList.RoundIsRight`). In the collector an empty list means that the heap holds no unit
  (`Collector.EmptyListMeansNoUnits`). It comes up when a round gives the last page back
  (`CollectorScenarios.LastPageGoes`). The code then sweeps pages that are free in the chunk:
  nothing on them changes, but every normal page among them ends up on the page list again, so the
  sweep is harmless if and only if all of them are huge (`SweepRound.LeftoverSweepIsHarmless`).
  From there on a page can be on the list and free, or listed twice once it is allocated again, and
  the guarantees below end; the main thread of the model stops at that point.
- **Late store of `m_run_out`.** The owner finds both lists of a page empty and stores the flag
  later. In between a sweeper may free a unit, so the page can be given up with a free unit on it
  (`UnitLists.PageGivenUpWithFreeUnit`): exactly when a push completes in between
  (`UnitLists.GivenUpTooEarly`). The unit is not lost; it waits on the freed stack.
- **Empty run-out pages.** A page nobody owns goes back to the chunk only if this very sweep
  released a unit on it: `SweepPage.SweepNormal` states the condition in both directions. A
  page whose units were all released earlier stays (`SweepPage.EmptyRunOutPageIsKept`), for good:
  it is never allocated from and never given back (`PageOwnership.EmptyRunOutPageIsLost`). It comes
  up when a page runs out between the sweeper's look at `m_run_out` and the release of its last unit
  (`PageOwnership.PageGetsLost`).
- **The round counter is one byte.** Comparing its low byte is as good as comparing true round
  numbers, over any number of rounds (`Collector.RoundByteSuffices`).
- **The read-write lock needs no bound on readers.** The reader that would reach the write bit is
  admitted, later ones wait, and no writer enters beside them (`RwLock.Exclusion`).

## Assumptions taken from the code and its comments

- The callback at the beginning of a round returns with all other threads synchronised, so that
  completing a unit is one step relative to the round counter, and with root marking finished.
- The callback that stops marking returns with no external thread inside a mark call.
- While marking runs, a mutator that overwrites a word of a unit that was there when the round
  began has had the overwritten word marked first. From the callback that stops marking until the
  sweep no mutator can mark, so such a word may then be overwritten only if what it names is marked
  already. During a round mutators store only words they may hold (`Tricolour.Held`); of words nobody
  stored nothing is assumed. The write barrier itself is the embedder's. A graph nobody writes to is
  the special case without such steps.
- A word stands for the unit that address resolution finds for it, or for data.

## Model

| member | source | states |
|---|---|---|
| `Chunk.RequiredPagesExact` | src/woomem_chunk.cpp:229-231 | rounding up to pages covers the size with less than a page to spare if and only if the addition does not wrap; past that it yields 0 pages |
| `Chunk.ListFindsFirstFit` | src/woomem_chunk.cpp:168-178 | the first listed block that is large enough starts at the lowest index with that many free pages, and reaching the end of the list means there is no such index; this needs full merging |
| `Chunk.ScanStopsAtHead` | src/woomem_chunk.cpp:280-286 | scanning back over zero counts from an allocated page ends at its block's head, whatever stale counts free blocks hold |
| `Chunk.Chunk.constructor` | src/woomem_chunk.cpp:34-73 | below 2^31 pages the fresh chunk satisfies the invariant with all pages free; for any size the first count is the number of pages modulo 2^32; nothing is set up for size 0 or a failed reservation, which is what an overflowing size leads to |
| `Chunk.Chunk.FreeListRemove` | src/woomem_chunk.cpp:103-118 | unlinking keeps a strictly increasing doubly linked list of exactly the remaining maximal runs |
| `Chunk.Chunk.FreeListInsert` | src/woomem_chunk.cpp:120-166 | inserting a block merges it with both neighbours so that the list again holds exactly the maximal free runs; only counts of free pages change and none gains the flag |
| `Chunk.Chunk.FreeListFindBlock` | src/woomem_chunk.cpp:168-178 | the first listed block with room, with every earlier one too small |
| `Chunk.Chunk.AllocatePages` | src/woomem_chunk.cpp:180-215 | answers the lowest run of that many free pages, or null exactly when there is none; the page map gains exactly that block and the whole invariant is kept; a request for no page hands out the first free page while it stays listed, and so breaks the invariant |
| `Chunk.Chunk.AllocatePage` | src/woomem_chunk.cpp:217-223 | null exactly when no page is free; otherwise the lowest free page becomes a block |
| `Chunk.Chunk.AllocateHugePage` | src/woomem_chunk.cpp:225-240 | short of overflow the block has room for the size and no page more than that takes, and the answer is null exactly when no such run is free; on overflow no page is asked for and a nonempty answer breaks the invariant |
| `Chunk.Chunk.FreePage` | src/woomem_chunk.cpp:242-264 | exactly the block with that head becomes free, anything else is left alone, and the whole invariant is kept |
| `Chunk.Chunk.Validate` | src/woomem_chunk.cpp:266-298 | for every address: the head of the allocated block that contains it, and null if and only if there is none |
| `Chunk.Chunk.Perform` | src/woomem_chunk.cpp:180-298 | every request is answered, and changes the chunk, as the page map alone says |
| `Chunk.Chunk.PerformAll` | src/woomem_chunk.cpp:180-298 | so is every sequence of requests made of the arrays |
| `Chunk.RequestsMean` | src/woomem_chunk.cpp:180-298 | on the page map: an allocation answers i if and only if i is the lowest index with that many free pages, and makes them one block; a free empties the block with that head; a lookup answers the head of the block around a page, and nothing exactly for a free page; no other block is touched |
| `Chunk.CanonicalForm` | src/woomem_chunk.cpp:120-166 | two chunks with the same allocated blocks have the same free list, head, links and counts at listed heads; stale counts and history leave no other trace |
| `Chunk.HistoryIsUnobservable` | src/woomem_chunk.cpp:180-298 | on the page map, two histories that end with the same allocated blocks answer every later sequence of requests alike |
| `Chunk.AnswerAlike` | src/woomem_chunk.cpp:180-298 | on the arrays, two chunks with the same allocated blocks, whatever their histories, give the same answers to every sequence of requests and end with the same map, free list and head |
| `Chunk.FreeUndoesAllocate` | src/woomem_chunk.cpp:180-264 | giving back the block just handed out restores the page map |
| `Chunk.ReplayKeepsWellFormed` | src/woomem_chunk.cpp:180-264 | after any sequence of requests the blocks are contiguous and disjoint |
| `Chunk.FreesInAnyOrder` | src/woomem_chunk.cpp:242-264 | sequences of frees that name the same blocks, in any order and any number of times, leave the same map |
| `PageMap.BlocksDetermineMap` | src/woomem_chunk.cpp:266-298 | the set of allocated blocks determines the answer for every page |
| `FreeList.UnlinkKeepsLinked` | src/woomem_chunk.cpp:103-118 | the stores of a removal leave a correctly linked list without that head |
| `FreeList.LinkKeepsLinked` | src/woomem_chunk.cpp:153-165 | the stores of an insertion leave a correctly linked, still increasing list with the new head |
| `FreeList.TouchingRunAbove` | src/woomem_chunk.cpp:120-152 | a free page right above a block starts the next listed run, so looking at that one neighbour is enough |
| `FreeList.TouchingRunBelow` | src/woomem_chunk.cpp:120-152 | a free page right below a block ends the previous listed run |
| `FreeList.RunsDetermineList` | src/woomem_chunk.cpp:120-166 | the free pages determine the list and the counts at its heads |
| `MpscQueue.StepOk` | src/woomem_mpsc_queue.hpp:39-102 | every step of every producer and of the consumer keeps the ticket invariant |
| `MpscQueue.QueueIsSound` | src/woomem_mpsc_queue.hpp:39-102 | in every run the drained items are a prefix of the items in ticket order, and every claimed item not yet drained is published in its slot or in its producer's hand: none lost, duplicated or overwritten |
| `MpscQueue.RefusedExactlyWhenFull` | src/woomem_mpsc_queue.hpp:39-56 | in every run an enqueue is refused if and only if the ticket it has loaded is a full capacity ahead of the consumer, at a moment when all slots are taken, and goes on to the exchange otherwise |
| `MpscQueue.NeverStuck` | src/woomem_mpsc_queue.hpp:39-102 | a producer inside a call and a consumer inside a dequeue always have a next access, and the exchange can be won if and only if nobody took the ticket |
| `MpscQueue.LoadsCurrent` | src/woomem_mpsc_queue.hpp:41-50 | a call, and a lost exchange, look at the position as it is then |
| `MpscQueue.EnqueueEnds` | src/woomem_mpsc_queue.hpp:45-54 | a call ends with its item published under its ticket, or refused without having touched the queue |
| `MpscQueue.ItemIsGiven` | src/woomem_mpsc_queue.hpp:39-56 | in every run the item a producer has in hand is the one it was called with |
| `MpscQueue.TicketIsGiven` | src/woomem_mpsc_queue.hpp:39-102 | in every run every ticket, and so every drained item, carries an item some producer was called with |
| `MpscQueue.EmptyAnswer` | src/woomem_mpsc_queue.hpp:72-109 | the consumer is told "empty" exactly when the next ticket is unclaimed or not yet published |
| `MpscQueue.StepRefinesFifo` | src/woomem_mpsc_queue.hpp:39-102 | a won compare-exchange appends to, and freeing a slot removes from the front of, a plain bounded queue; no other step changes it |
| `MpscQueue.CapacityOneLosesItems` | src/woomem_mpsc_queue.hpp:28-56 | with one slot there is a run that overwrites an item unread |
| `MpscQueue.SoundExactlyFromTwoSlots` | src/woomem_mpsc_queue.hpp:28-102 | all runs are sound if and only if there are at least two slots |
| `MpscQueue.Apart` | src/woomem_mpsc_queue.hpp:39-56 | tickets less than a lap apart use different slots |
| `MpscQueue.IxIsRemainder` | src/woomem_mpsc_queue.hpp:42-44 | the slot of a ticket is its remainder by the capacity, which is what masking computes for a power of two |
| `Tricolour.StepOk` | src/woomem_gc.cpp:363-446 | every atomic step of marking, sweeping, allocating and mutating, and every return of an empty page, keeps the heap invariant: ages, lives, colours, snapshot, reachability and the log of released units |
| `Tricolour.LifeMachine` | src/woomem_gc.cpp:363-446 | the seven changes of a unit's life, each made by its own step and by no other; a release is the sweep's visit to garbage, and is recorded |
| `Tricolour.LiveUnitKept` | src/woomem_gc.cpp:435-443 | while a unit lives it keeps its attribute, its round byte and its words but for what is written, and gets one round older with every sweep, never below age 0 |
| `Tricolour.CompletionIsRecorded` | src/woomem.cpp:92-101 | a completed unit has the attribute and the payload it was given, age 15 and the round byte |
| `Tricolour.ComesAlive` | src/woomem.cpp:92-101 | a unit comes alive only by being completed, with the attribute given then, and no living unit leaves the heap |
| `Tricolour.UnsweptStays` | src/woomem_gc.cpp:416-418 | a living unit without NEED_SWEEP stays alive |
| `Tricolour.PagesComeAndGo` | src/woomem_page_unit_alloc.cpp:30-47 | the units of a new page are released, and a page given back takes out exactly its own |
| `Tricolour.MutatorsMay` | src/woomem.cpp:63-101 | between rounds allocation, completion and stores are unrestricted; during a round what is held may be stored over what is marked |
| `Tricolour.HistoryIsKept` | src/woomem_gc.cpp:155-175 | what counts as marked from outside, as found in new units and as new is exactly what the steps of the round made so |
| `Tricolour.WrapIsHarmless` | src/woomem_gc.cpp:416-418 | a unit met by the sweep at age 15 was completed in this round or the one before, and comparing the round byte agrees with comparing true round numbers |
| `Tricolour.DropsExactly` | src/woomem_gc.cpp:407-446 | the sweep drops a unit if and only if it was complete and sweepable when the round began and is unreachable, from roots, from units marked during the round and from words found in units completed during it |
| `Tricolour.MarksExactly` | src/woomem_gc.cpp:584-592 | at the end of marking no old unit is marked in vain if and only if no word found in a unit completed during the round names garbage |
| `Tricolour.GarbageIsReleased` | src/woomem_gc.cpp:407-446 | in that case the round releases every old sweepable unit that roots and marks do not reach |
| `Tricolour.PathIsBlack` | src/woomem_gc.cpp:547-599 | with no gray unit left and all roots handled, every unit on a path from a root is fully marked |
| `Tricolour.BlackSeesNoWhite` | src/woomem_gc.cpp:574-598 | no word read from a fully marked unit, and no word it held when the round began, names an unmarked unit, unless that was completed in this round |
| `Tricolour.MutationKeeps` | src/woomem.cpp:92-101 | allocating, completing and writing neither mark nor unmark anything and leave the round alone |
| `Tricolour.HeldIsNeverDropped` | src/woomem_gc.cpp:407-446 | no unit a mutator may hold is dropped |
| `Tricolour.ReachableIsHeld` | src/woomem_gc.cpp:270-331 | at any moment of a round, what is reachable from the roots through words that were stored, as the heap is now, is held |
| `Tricolour.ReachableIsNeverDropped` | src/woomem_gc.cpp:407-446 | no unit reachable from the roots through the current heap is dropped |
| `Tricolour.RoundIsExact` | src/woomem_gc.cpp:294-331 | once all pages are swept, released are exactly the old sweepable units that neither roots, nor marks, nor words found in new units reach, each once, and nothing is left marked |
| `Barrier.StartedOnTime` | src/woomem_gc.cpp:105-128 | matching on the phase name never lets a worker repeat a phase or join an old one |
| `Barrier.StepOk` | src/woomem_gc.cpp:89-142 | every critical section keeps the barrier invariant |
| `Barrier.PhasesInLockstep` | src/woomem_gc.cpp:600-638 | in every run, whoever works is in the phase launched last, each worker has run every launched phase exactly once when the main thread goes on, and the finish counter is the number of workers done |
| `Barrier.AlwaysEnabled` | src/woomem_gc.cpp:89-142 | the barrier is never stuck |
| `Barrier.ThreePhasesPerCycle` | src/woomem_gc.cpp:285-344 | in every run a cycle is a parallel mark, a final mark and a sweep, in this order, and ends idle |
| `Collector.StepOk` | src/woomem_gc.cpp:155-638 | every step of the main thread, a worker or an external thread keeps the whole invariant |
| `Collector.StepRefines` | src/woomem_gc.cpp:155-638 | every step of the collector does to the heap exactly one step of the heap model, named by its kind and arguments, or nothing |
| `Collector.GivenRootsSurvive` | src/woomem_gc.cpp:277-282 | in every run a round works with the roots it was given: no unit that a path of words led to from them when the round began is among what it releases |
| `Collector.CompletedAt` | src/woomem.cpp:92-101 | in every run a living unit was completed with the attribute it has, and has lived with it ever since |
| `Collector.UnsweptLives` | src/woomem_gc.cpp:416-418 | in every run a unit completed without NEED_SWEEP is alive in every later state |
| `Collector.MarkMakesGray` | src/woomem_gc.cpp:155-175 | a mark call on an unmarked unit is accepted while marking is open and makes it gray; a root mark on any other unit only crosses it off |
| `Collector.MarkCallEnds` | src/woomem_gc.cpp:363-406 | a mark call returns with its unit published, or on the worker's local list |
| `Collector.DrainTakesPublished` | src/woomem_gc.cpp:534-546 | draining takes the oldest unit of the queue if and only if there is one, it is published and the buffer has room; the queue never exceeds its capacity |
| `Collector.MarkCallNeverDeadlocks` | src/woomem_gc.cpp:377-403 | in every run a thread inside a mark call, the holder of the lock it waits for, or the worker draining its full queue can go on |
| `Collector.MarkerNeverStuck` | src/woomem_gc.cpp:547-599 | a worker in a mark phase has a next step unless it waits for its lock |
| `Collector.SweeperNeverStuck` | src/woomem_gc.cpp:624-635 | a worker in the sweep has a next step |
| `Collector.MainGoesOn` | src/woomem_gc.cpp:270-346 | the main thread goes on as soon as what it waits for is there |
| `Collector.GrayExactlyOnce` | src/woomem_gc.cpp:155-175 | in every run a unit is self-marked if and only if it is in a local list, a queue, a scan or a hand, and it is in exactly one such place, once |
| `Collector.DrainHandshake` | src/woomem_gc.cpp:377-403 | in every run, no external thread is about to store into a local list while its worker uses it without the lock |
| `Collector.LeavesLocalToBeScanned` | src/woomem_gc.cpp:561-575 | a unit leaves a local list only to be scanned |
| `Collector.PushedIsScanned` | src/woomem_gc.cpp:547-572 | in every run a unit on a local list has been scanned by the time its worker next leaves the mark loop |
| `Collector.ScannedIsGray` | src/woomem_gc.cpp:574-578 | the unit popped for scanning is self-marked: that assertion never fails |
| `Collector.NothingGrayBeforeSweep` | src/woomem_gc.cpp:285-292 | after the final mark phase no gray unit is left in any list, queue or hand, and every root is handled |
| `Collector.PagesAreConserved` | src/woomem_gc.cpp:447-533 | in every run each page of the heap is on the page list or on one worker's list, once; the pages hold all units |
| `Collector.SweepGetsEveryUnit` | src/woomem_gc.cpp:294-331 | in every run the list taken for the sweep holds every page, and its segments give every unit of the heap to exactly one worker |
| `Collector.HandedExactly` | src/woomem_gc.cpp:299-319 | in every run, leftover sweep lists exist if and only if an earlier round had a page |
| `Collector.EmptyListMeansNoUnits` | src/woomem_gc.cpp:296-299 | in every run, an empty page list between phases means that the heap holds no unit |
| `Collector.NothingLeftToSweep` | src/woomem_gc.cpp:331-346 | when the main thread closes the round every unit of the heap has been swept |
| `Collector.ReachableSurvives` | src/woomem_gc.cpp:407-446 | in every run, no unit reachable from the roots of the round is released |
| `Collector.EveryRoundBegan` | src/woomem_gc.cpp:270-282 | the roots, old units, sweepable units and words a round works from are those of the heap at the step that began it |
| `Collector.RoundByteSuffices` | src/woomem_gc.cpp:416-418 | in every run, a unit met by the sweep at age 15 was completed in this round or the one before, and the round byte tells which |
| `Collector.BlackNamesNoWhite` | src/woomem_gc.cpp:574-598 | in every run, no word read from a fully marked unit and still in place, and no word it held when the round began, names an unmarked unit not completed in this round |
| `Collector.MarkedInVain` | src/woomem_gc.cpp:584-592 | in every run, once marking is over, no old unit is marked in vain if and only if no word found in a unit completed during the round names garbage |
| `Collector.WholeCycle` | src/woomem_gc.cpp:270-346 | in every run, what a round releases is exactly the units complete and sweepable at its beginning to which no path led from roots, from units marked during the round, or from words found in units completed during it; the last kind adds nothing unless such a word names garbage; every unit released was completed with NEED_SWEEP; each is released once; nothing stays marked |
| `CollectorScenarios.StaleWordKeepsGarbage` | src/woomem_gc.cpp:584-592 | a run in which a sweepable unit that is garbage and that no mutator marks ends up fully marked |
| `CollectorScenarios.LastPageGoes` | src/woomem_gc.cpp:296-299 | a run in which a round gives the last page back, so that the next sweep finds no page and leftover lists |
| `PageList.Split` | src/woomem_gc.cpp:294-330 | a nonempty page list is cut in place so that each worker's list is its segment; an empty one changes neither links nor lists |
| `PageList.Walk` | src/woomem_gc.cpp:321-327 | walking n links stops at the n-th page and the page after it |
| `PageList.Length` | src/woomem_gc.cpp:301-303 | counting the pages counts each once |
| `PageList.SharesAddUp` | src/woomem_gc.cpp:305-311 | the shares of all workers add up to the number of pages |
| `PageList.SegmentsTileTheList` | src/woomem_gc.cpp:294-330 | the segments put end to end are the page list, and sizes differ by at most one |
| `PageList.AccountingIsExact` | src/woomem_gc.cpp:333-340 | sums over the segments add up to the sum over the list; `SweepRound.TotalAlive` uses it with the live sizes |
| `PageList.RoundIsRight` | src/woomem_gc.cpp:296-319 | over any sequence of rounds, a round gives the workers the right lists if and only if it has a page or no round before it had one |
| `SweepShares.SegmentsPartitionTheUnits` | src/woomem_gc.cpp:294-331 | the units on the workers' segments are a partition of the units on the page list |
| `HeapPages.ListHoldsEveryPage` | src/woomem_gc.cpp:296-297 | with no sweep under way, the page list holds every page of the heap exactly once |
| `HeapPages.DealIsPartition` | src/woomem_gc.cpp:294-331 | cutting that list gives every unit of the heap to exactly one worker |
| `HeapPages.KeepOk` | src/woomem_global_context.cpp:81-91 | pushing a swept page back keeps every page listed exactly once |
| `HeapPages.GiveBackOk` | src/woomem_gc.cpp:527-529 | a page given back takes exactly its own units out of the heap |
| `SweepPage.CheckAndFree` | src/woomem_gc.cpp:407-446 | a unit is dropped if and only if it is unmarked, sweepable and not of this round at age 15; a survivor becomes unmarked and one round older and keeps attribute and round byte; a unit not completed is left alone |
| `SweepPage.SweepNormal` | src/woomem_gc.cpp:447-514 | every unit is swept, the counter grows by exactly what the page keeps in use, and the page's fate is characterised in both directions |
| `SweepPage.SweepHuge` | src/woomem_gc.cpp:515-533 | a huge page goes back exactly when its unit is released, and otherwise counts in full |
| `SweepPage.NoSurvivors` | src/woomem_gc.cpp:466-491 | no survivor counted means every unit is released, and conversely |
| `SweepPage.LiveSizeMeans` | src/woomem_gc.cpp:483-508 | what a page counts is a stride for each unit not released, plus 32 bytes if there is one |
| `SweepPage.FullPageCountsInFull` | src/woomem_gc.cpp:483-508 | a page with every unit in use counts exactly one page size |
| `SweepPage.EmptyRunOutPageIsKept` | src/woomem_gc.cpp:476-478 | a page already empty loses no unit in the pass, so it does not qualify for the chunk |
| `SweepPage.OwnerDoesNotInterfere` | src/woomem_gc.cpp:471-487 | whatever the owner allocates or completes before the pass gets to a unit, the pass drops the same units and loses no survivor |
| `SweepRound.SweepList` | src/woomem_gc.cpp:626-633 | the worker's loop sweeps every page of its list once and touches no other, its counter is the sum of what the pages keep in use, and exactly the pages that stay are back on the page list, although the loop overwrites the links it walks |
| `SweepRound.TotalAlive` | src/woomem_gc.cpp:333-340 | the sum of the workers' counters is what the pages of the whole list keep in use |
| `SweepRound.SweepPhase` | src/woomem_gc.cpp:294-340 | split, sweep and total together: every page on the list is swept exactly once, the total is the live size of the whole list, and the list afterwards is exactly the pages not given back |
| `SweepRound.LeftoversAreListedAgain` | src/woomem_gc.cpp:628-633 | sweeping pages that were all given back before counts nothing and pushes exactly the normal ones among them back onto the page list |
| `SweepRound.LeftoverSweepIsHarmless` | src/woomem_gc.cpp:628-633 | such a sweep changes no unit, and leaves the page list alone if and only if all those pages are huge |
| `UnitLists.InitPage` | src/woomem_page_unit_alloc.cpp:10-52 | every unit links to the offset of the next, the last to null |
| `UnitLists.OffsetsFit` | src/woomem_page_unit_alloc.cpp:30-47 | every unit offset fits the 16-bit field and is not the null offset |
| `UnitLists.StepOk` | src/woomem_page_unit_alloc.hpp:159-223 | every step of the owner and of any number of sweepers keeps both lists intact |
| `UnitLists.UnitsAreConserved` | src/woomem_page_unit_alloc.hpp:159-223 | in every run each unit is in exactly one of owner list, taken stack, freed stack, in flight or handed out; both lists are acyclic; a unit handed out holds its own offset |
| `UnitLists.NeverHandedOutTwice` | src/woomem_page_unit_alloc.hpp:159-186 | the unit picked next is not handed out, not in flight and not on the freed stack |
| `UnitLists.NeverStuck` | src/woomem_page_unit_alloc.hpp:168-202 | the owner hands out a private unit if it has one, takes the freed stack if not, and gives up exactly when both are empty; no sweeper is stuck |
| `UnitLists.PickTakesFirst` | src/woomem_page_unit_alloc.hpp:170-184 | a pick hands out the first private unit and leaves everything else |
| `UnitLists.FreedComeBack` | src/woomem_page_unit_alloc.hpp:187-199 | all freed units become private at one go, and the next pick succeeds |
| `UnitLists.FirstTryWins` | src/woomem_page_unit_alloc.hpp:214-222 | with nobody in between a freed unit is pushed at the first try |
| `UnitLists.PushGoesInFront` | src/woomem_page_unit_alloc.hpp:214-222 | a push that wins puts the unit in front of the stack |
| `UnitLists.EmptyMeansNothingFree` | src/woomem_page_unit_alloc.hpp:187-192 | when the exchange finds the freed stack empty, every unit is handed out or on its way back |
| `UnitLists.GivenUpKeepsFreedUnits` | src/woomem_page_unit_alloc.hpp:192-197 | when `m_run_out` is stored, every unit is handed out, on its way back, or on the freed stack, and none is free if and only if that stack is empty |
| `UnitLists.GivenUpTooEarly` | src/woomem_page_unit_alloc.hpp:187-197 | a page is given up with nothing free if and only if no push completed between the exchange and the store |
| `UnitLists.PageGivenUpWithFreeUnit` | src/woomem_page_unit_alloc.hpp:187-197 | a run in which the page is given up while a unit is on its freed stack |
| `PageOwnership.StepOk` | src/woomem_thread_page_collection.hpp:57-77 | every step of caches, pool and sweepers keeps the ownership invariant |
| `PageOwnership.OneOwner` | src/woomem_global_page_collection.hpp:30-142 | in every run a page is in at most one cache or pool, once, of its own group, and in one of them or in the sweeper's hand if and only if `m_run_out` is clear; a cache slot that has stored `m_run_out` and not yet replaced its pointer does not count |
| `PageOwnership.ListHoldsEveryPage` | src/woomem_gc.cpp:296-297 | in every run, with no page being swept, every normal page is on the page list or on a worker's list waiting to be swept |
| `PageOwnership.GivenBackOnlyWhenFree` | src/woomem_gc.cpp:447-532 | in every run a page given back to the chunk is owned by nobody and all its units are released |
| `PageOwnership.VisitOutcome` | src/woomem_gc.cpp:471-487 | a dropped unit leaves free space, a kept one is a survivor, a released one changes nothing |
| `PageOwnership.PassOutcome` | src/woomem_gc.cpp:489-513 | a page nobody owned goes to the chunk if and only if a unit was freed and none survived, and to the pool's way if some survived; a page somebody owns is flagged if and only if nothing survived |
| `PageOwnership.ReturnReachesPool` | src/woomem_gc.cpp:495-532 | a page on its way reaches the pool of its group and then the page list; a sweeper is never stuck |
| `PageOwnership.PoolAnswer` | src/woomem_global_page_collection.hpp:30-61 | a thread gets the page of the last entry unless that is cleared or flagged; a flagged page leaves the pool as run out |
| `PageOwnership.FlaggedLeaves` | src/woomem_global_page_collection.hpp:112-142 | exactly the flagged pages of a pool are taken out, as run out, and their entries cleared |
| `PageOwnership.RunOutOutcome` | src/woomem_thread_page_collection.hpp:57-77 | an owner allocates exactly the units not in use, gives a page up as run out, and goes on to another page or none |
| `PageOwnership.BeginningsAreClean` | src/woomem_gc.cpp:466-469 | a pass starts with the flag as read and nothing seen; a new page starts empty and owned |
| `PageOwnership.EmptyRunOutPageIsLost` | src/woomem_gc.cpp:476-491 | in every run, a page that has run out and is empty, with no sweep in progress about to hand it back, stays so: it is never in a cache or pool, never allocated from and never given back |
| `PageOwnership.PageGetsLost` | src/woomem_gc.cpp:468-491 | a run that leads to such a page |
| `RwLock.StepOk` | src/woomem_rwlock.hpp:16-64 | every atomic access keeps the state word equal to the reader count or the write bit |
| `RwLock.Exclusion` | src/woomem_rwlock.hpp:16-64 | in every run, for any number of threads: a writer is alone, data does not change under a reader, and the state word is the reader count plus the write bit |
| `RwLock.Admission` | src/woomem_rwlock.hpp:16-59 | in every run a thread with an up-to-date view gets the read lock if and only if nobody writes and there is room for a reader, and the write lock if and only if nobody is inside |
| `RwLock.EnterAndLeave` | src/woomem_rwlock.hpp:16-64 | undisturbed, a thread enters beside any number of readers, or alone to write, and leaving restores the lock |
| `RwLock.LostLooksAgain` | src/woomem_rwlock.hpp:21-58 | after a lost exchange the thread looks at the state word again |
| `SizeClasses.GroupIsTightest` | src/woomem_page_unit_alloc.hpp:140-158 | the group found is the smallest whose units fit the request |
| `SizeClasses.GroupOfItsOwnSize` | src/woomem_gc.cpp:498-500 | looking up a page's own unit size finds its group again, so the sweeper returns it to the right pool |
| `SizeClasses.GroupsTileThePage` | src/woomem_page_unit_alloc.hpp:38-85 | every group fills the unit storage of a page with no byte left over |
| `SizeClasses.HugeFitsExactly` | src/woomem_chunk.cpp:225-240 | a huge unit has room for the request if and only if the additions do not overflow |
| `SizeClasses.OverflowAsksTooLittle` | src/woomem.cpp:73-74 | an overflowing request asks for no page, or for one when already adding the heads wraps past zero, never for enough |
| `SizeClasses.RequestFits` | src/woomem_page_unit_alloc.hpp:106-136 | every successful allocation of a non-overflowing size makes at least that many bytes available |
| `AddressResolution.ContainerIsUnique` | src/woomem.cpp:147-184 | at most one unit contains an address |
| `AddressResolution.AnswerHasUnit` | src/woomem.cpp:156-172 | the unit behind a positive answer exists and contains the address: the index never runs past the last unit |
| `AddressResolution.ResolutionIsExact` | src/woomem.cpp:147-184 | the answer is p if and only if some unit contains the address, is unmarked, self-marked or fully marked, and has its payload at p, 8 bytes past its head; blocks just allocated may have any head |
| `AddressResolution.WindowIsInvisible` | src/woomem.cpp:149-151 | while a block is handed out but not yet set up, whatever its head holds, every address resolves as before |
| `AddressResolution.EveryAddressResolves` | src/woomem.cpp:147-184 | in every run of allocations, head stores, flag clearings, frees and changes of unit lives, resolution is exact for every address |
| `AddressResolution.ChangesMean` | src/woomem_global_context.cpp:71-80 | a block that is set up holds units, a block taken back holds none |
| `AddressResolution.PayloadsApart` | src/woomem_page_unit_alloc.hpp:106-136 | the payloads of different units share no byte |
| `AddressResolution.Reallocate` | src/woomem.cpp:119-145 | the pointer is kept when the size fits; otherwise the new unit is large enough, every old payload byte is in it, the copy stays inside it, and no other byte changes; a refused request changes nothing |

## Left out

- Reserving, committing and decommitting memory: calls into the operating system; the commit array is kept, the failure of a commit is not modelled.
- Weak memory orderings: steps are sequentially consistent.
- Tickets and positions of the queue wrapping at 2^64: natural numbers.
- Thread creation, condition-variable wake-ups, the trigger ratio and its timing: a wait is a step that is not enabled until its condition holds. Worker shutdown is left out with them.
- User mark and free callbacks: what a mark callback visits is part of the unit's words, what a free callback sees is the log of released units.
- Global initialisation, shutdown, thread registration, and cached pages left behind in a thread context after a manual shutdown.
- The lock-free push onto the global page list: the same compare-exchange loop as the freed stack of a page, which is modelled.
- The 8-byte alignment test of `woomem_validate_addr_head`, and the counter of newly allocated bytes: easy.
- The flag `m_page_just_allocated` set by a page allocation: only its effect on address resolution is modelled.
- Return of every empty page to the chunk: the code does not give it; see the notes on empty run-out pages.
- Chunk.Chunk.AllocateHugePage: requires a nonzero size, as the source asserts.
- Chunk.Chunk.constructor: reserving no bytes at all, as after an overflow, is taken to fail.
- Chunk.Chunk.FreePage: the source asserts that the page is a block head; the model also covers any other page index, where nothing happens.
- AddressResolution.Reallocate: which unit the allocation hands out is a parameter, any other unit that serves the request, and the size is one that does not overflow; stamping the new unit is `Tricolour.Completed`.
- UnitLists.StepOk: units are numbered instead of addressed by byte offset; `UnitLists.InitPage` and `UnitLists.OffsetsFit` cover the offsets.
- PageOwnership.StepOk: which unit is picked and whether a unit is dropped are free choices there; the two are settled in `UnitLists` and `Tricolour`.
- SweepPage.SweepNormal: the heads are those the pass meets; on an owned page the owner may allocate meanwhile, which changes what the pass counts, but not what it drops (`SweepPage.OwnerDoesNotInterfere`).
- SweepRound.SweepList: other threads' pushes onto the page list in between are not interleaved.
- SweepRound.SweepPhase: the workers are taken one after the other; their lists share no page. It starts from a page list with a page on it or from lists that are all null.
- Collector.StepOk: the queue of a worker is the first-in first-out queue that `MpscQueue.StepRefinesFifo` justifies; whether a swept page with no unit in use stays is a free choice, settled in `SweepPage`.
- PageOwnership.ListHoldsEveryPage: the list there also stands for the lists of workers that have not reached the page; `HeapPages` keeps the two apart.
- Collector.WholeCycle: leaves out the sweep of a heap without any page after an earlier round had one, and every round after it: the code then walks leftover lists and may list a free page, after which the guarantees no longer hold.
