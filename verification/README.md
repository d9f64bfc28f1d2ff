# Verified model of the simulated operating system

A Dafny model of the simulator's three stateful parts, with proofs:

* **Scheduling** (`Mlq`, `Queue`, `Sched`, `Os*`): 140 bounded queues with slot budgets, the scan that
  picks the next process, and the CPU and loader loops as interleaved threads. `ProcessQueue.Queue` and
  `Sched.Scheduler` are the arrays changed in place; `Os` is the transition system of any number of
  CPUs, one loader and the timer, in which every locked region and every access to a shared variable is
  its own step. Both use the same selection rule, `Mlq.Select`. `OsShutdown`, `OsTermination`, `OsTrace`,
  `OsLoading`, `OsBudget` and `OsFairness` prove what every schedule achieves; `OsOverrun`, `OsOverrunRun` and
  `OsOverflow` prove what goes wrong when a budget is read too late or a queue is full.
* **The timer barrier** (`Timer`): any number of devices, one timer thread.
* **Demand paging** (`Bits`, `Areas`, `Paging*`, `MemPhy`, `MmStruct`, `Kernel`, `Syscall`, `Boot`,
  `Session`): page table words, devices with free lists, FIFO replacement, eviction to four swap devices, and
  the area's growth. `PhysicalMemory.MemPhy`, `AddressSpace.MmStruct` and `Kernel.Caller` change arrays, words
  and linked nodes in place; each of their methods is proved equal to a function on values in `Paging`.
  `PagingBound`, `PagingChoice`, `PagingOwnership`, `PagingRuns`, `PagingConservation`, `PagingGeometry`, `PagingFlat`,
  `PagingFifo`, `PagingLists`, `PagingHoles`, `PagingCover`, `PagingFault`, `PagingFaultRun` and `PagingStray`
  prove what those functions achieve over whole runs. A run is any sequence of extensions, reads and writes of
  any processes, at any address below 4 MB, that follows no index out of range and extends no area over a page
  mapped before; `PagingCover` proves that these extensions, and no other operations, break the account of
  frames. `Boot.Start` builds the devices and any number of processes on the heap, `Syscall.RunAll` performs
  any run in place, and `Session.WriteThenRead` is a client of both.

## What the code does where its documentation or intent differs

* `pte_set_swap` leaves PRESENT set, so a swapped page never faults again: an access takes the low 13
  bits of its swap location for a frame number. `PagingFlat.WritesLandIffResident` says exactly when a
  write takes effect, `SwappedWriteStrays` what it hits otherwise, and `PagingStray.StrayWriteIsReachable`
  gives a run that leads there for every RAM of two frames or more.
* Accesses ignore the end of the area. Below it a page is absent only after its process's extension ran out
  of frames, and then a fault finds no page to evict or no swap frame and follows an index that was never
  set; so every fault that does not lies beyond the end (`PagingHoles.FaultsLieBeyondTheEnd`).
* The second copy of a fault goes to the active swap device, at the number of the RAM frame that changes
  hands, and writes over what is there. `PagingFault.FaultKeepsIffHarmless` says exactly when the pages
  mapped before keep their bytes, and `PagingFaultRun.ReadLosesAWrite` gives a run from start-up in which a
  read overwrites a byte written to another page.
* An extension takes no notice of pages that faults have mapped beyond the end. Mapping one again loses the
  frame it had (`PagingCover.FramesKeptIff`) and lists the page twice unless it was off the list or just
  evicted (`PagingCover.OwnershipKeptIff`); `PagingFaultRun.CoverIsReachable` gives a run.
* An extension that finds a page to evict but no room for it leaves that page resident and off the replacement
  list for good; `PagingLists.ListsHoldResidentPages` counts such pages over whole runs.
* The area's number is 1 and callers pass 0, so an area is always tested for overlap with its own
  growth, and the test narrows products to 32 bits. `Areas.OverlapTestIsExact` says exactly when its
  answer is right, `Areas.ExtensionAccepted` and `PagingGeometry.ExtensionSucceeds` say exactly which
  extensions pass; `DoublingIsReached` gives a run to a 64 KB area that is refused 64 KB more
  (`DoublingRefused`) although nothing overlaps.
* A refused extension changes nothing, but one that runs out of frames still moves the area's end
  (`PagingRuns.ExtendEffect`) and keeps the frames it had obtained. `PagingConservation.LostForGood` proves
  that they never come back, `FramesAreAccountedFor` counts them over whole runs, and `AllOfRamIsLost` loses
  all of RAM with one request.
* `get_proc` and `get_slot` are two separate regions, and a charge can come between them. Every quantum
  is positive exactly if every `get_slot` reads a positive budget
  (`OsBudget.QuantaPositiveIffReadsPositive`). A process whose quantum is not positive keeps its CPU until it
  has ended (`OsOverrun.RunsToCompletion`), and `OsOverrunRun.NoBoundUnpaired` gives, for every bound, a
  schedule from start-up that overdraws a budget by more.
* A full ready queue loses the process (`OsConservation.InsertLosesIffFull`), and some configurations lose
  one on every schedule (`OsOverflow.CrowdedConfigurationsLoseWork`). Every other process still runs to its
  end; with at most ten processes of each priority all do.
* `put_freefp` accepts a frame that is already free (`PhysicalMemory.MemPhy.PutFreeFp`).
* `__sys_memmap` ignores the result of `inc_vma_limit`, so results are stated at `inc_vma_limit` itself.

## Assumptions

Page tables, replacement lists, lists of free and of used frames and the number of the active swap device
start zeroed; for the free list this matters on a device of size zero, which is not formatted and whose
list no code sets. The link of the first node of a free list starts zeroed too; it is never set on a device of
exactly one frame. RAM has at most 8192 frames and a swap device at most 2^21; addresses stay below 4 MB.
Accesses follow no index that is out of range (`Paging.CanAccess`): a fault finds the replacement list and
the active swap device non-empty. One atomic step is one locked region or one access to a shared variable.
Processes do not kill each other. The time slot is at least 1 wherever budgets, quanta or waiting times are
bounded (`OsBudget`, `OsFairness`).

## Model

| member | source | states |
|---|---|---|
| `Mlq.Select` | src/sched.c:89-143 | the outcome obeys the simple rule: nothing and no change if all queues are empty; else the head of the first queue with entries and budget; else a refill and the head of the first non-empty queue |
| `Mlq.FirstEligible` | src/sched.c:100-122 | the least priority from a given one on that may be served |
| `Mlq.SimpleRuleIsUnique` | src/sched.c:89-143 | the rule determines the process, the queues and the budgets left behind |
| `Mlq.SelectOnlyRemoves` | src/sched.c:104-108 | the process comes from the queue served, and no process enters any queue |
| `Mlq.EnqueueOnce` | src/queue.c:26-42 | a process enters at the tail, at most once, and only while fewer than ten are queued; a queue without repetition stays so |
| `ProcessQueue.Queue.EnqueueProc` | src/queue.c:12-43 | appends at the tail if the process is not null, not one of those queued and fewer than ten are; else changes nothing; a queue without repetition stays so |
| `ProcessQueue.Queue.Dequeue` | src/queue.c:45-67 | returns the head and keeps the order of the rest; null from an empty queue |
| `ProcessQueue.Queue.Empty` | src/queue.c:5-10 | true exactly for no entries |
| `Sched.ScanFinds` | src/sched.c:102-109 | the first queue the scan can serve, before or after the wrap, is the one the rule picks |
| `Sched.ScanGivesUp` | src/sched.c:125-131 | counting 140 empty queues in one pass means that all are empty and nothing was refilled |
| `Sched.ScanMovesOn` | src/sched.c:112-139 | moving on, with a refill at the wrap, keeps what the scan knows; a second wrap cannot happen |
| `Sched.Scheduler.constructor` | src/sched.c:30-45 | all queues empty, all budgets full, and everything the scheduler works on newly made |
| `Sched.Scheduler.ResetSlot` | src/sched.c:77-83 | every budget becomes 140 less its priority, queues unchanged |
| `Sched.Scheduler.UpdateSlot` | src/sched.c:70-76 | one budget drops by the time used, all else unchanged |
| `Sched.Scheduler.GetSlot` | src/sched.c:84-87 | the budget of one priority |
| `Sched.Scheduler.PutMlqProc` | src/sched.c:145-157 | the process joins the queue of its own priority only |
| `Sched.Scheduler.Probe` | src/sched.c:102-131 | found, all empty, or go on: each answer with what it implies for the final outcome |
| `Sched.Scheduler.GetMlqProc` | src/sched.c:89-143 | the loop ends within 280 rounds and its result and new state are those of the simple rule |
| `Sched.PutThenGet` | src/sched.c:89-157 | a process put into a new scheduler is the one it serves, and the scheduler is then as new |
| `Timer.NextInv` | src/timer.c:20-72 | every step of the timer or a device keeps the barrier's invariant |
| `Timer.LockStep` | src/timer.c:26-93 | two unfinished devices are never more than one completed slot apart, nor any more than one ahead of the clock |
| `Timer.ClockWaitsForAll` | src/timer.c:33-54 | the clock moves only when every unfinished device has ended the current slot and waits |
| `Timer.ReleaseIsNeverLate` | src/timer.c:60-68 | a release clears only the flag of the slot just closed |
| `Timer.DetachedStays` | src/timer.c:85-93 | a device that has detached keeps its flags, and only its own step detaches it |
| `Timer.DevicesActFreely` | src/timer.c:60-83 | a device at work may end its slot or detach whatever the timer does, and once released it may go on at once |
| `Timer.StoppedTimerGathersNoMore` | src/timer.c:26-72 | a timer told to stop while it releases does not gather again, on any schedule |
| `Timer.BarrierNeverStuck` | src/timer.c:26-93 | until every device has detached, the timer or a device can step |
| `OsInvariant.ProjectsToBarrier` | src/os.c:61-156 | every event of the simulator keeps the barrier's invariant |
| `OsInvariant.ThreadsActFreely` | src/os.c:61-206 | no schedule of threads at work is excluded: each may act next, whatever the others and the timer do |
| `OsInvariant.CpuFrame` | src/os.c:61-156 | a CPU's step changes no other CPU, device, loader or the clock |
| `OsInvariant.CpuMovesPc` | src/cpu.c:60-69 | only the process being run advances, by one, never past its end |
| `OsInvariant.NextInv` | src/os.c:48-206 | every event keeps the link between program counters, barrier phases and `done` |
| `OsConservation.InsertLosesIffFull` | src/queue.c:26-42 | an insertion loses the process exactly when the queue holds ten |
| `OsConservation.RoomToInsert` | src/queue.c:26-42 | with at most ten processes of each priority no insertion of a process absent from its queue is turned away |
| `OsConservation.InsertPlaces` | src/sched.c:178-189 | an insertion puts the process into its own queue once and into no other, or, if the queue is full, drops it and changes no queue |
| `OsConservation.GetPlaces` | src/os.c:65-82 | get_proc moves one process from its queue into the CPU's hands |
| `OsConservation.NextPlaces` | src/os.c:61-206 | every event keeps each process in the one place its history says, processes turned away included |
| `OsSlots.SpentStays` | src/timer.c:76-93 | a CPU that has run its process stays out of action until the clock moves, whoever else acts |
| `OsSlots.WorkHoldsClock` | src/timer.c:33-54 | while a CPU works the clock stands still |
| `OsSlots.PlaceMoves` | src/os.c:65-118 | the only ways in which one CPU step can move a process |
| `OsSlots.NextSlots` | src/os.c:61-156 | every event keeps one instruction per slot and no process charged after being freed |
| `OsShutdown.ClockFindsAllLive` | src/timer.c:33-54 | when the clock moves before shutdown, a CPU that will look at the queues again remains |
| `OsShutdown.NextServed` | src/os.c:65-133 | once everything is loaded and the clock has moved, a non-empty queue has a CPU that will look at it |
| `OsShutdown.NoLostWork` | src/os.c:65-206 | in every reachable state where the loader and all CPUs have stopped, every queue is empty and every process has run to its end or was turned away by a full queue; none was if no priority has more than ten |
| `OsShutdown.ExactlyOnePlace` | src/os.c:84-153 | a loaded process is in exactly one of one queue (once), one CPU's hands, the finished ones, and those turned away |
| `OsShutdown.NotFreedBeforeCharged` | src/os.c:103-112 | a process put back is not freed, nor about to be, before the CPU that put it back has read its priority |
| `OsShutdown.OneInstructionPerSlot` | src/os.c:147-153 | two instructions of one process, on any CPUs, run at different times |
| `OsTermination.ClockLowers` | src/timer.c:33-54 | no slot closes without work done in it or a start time still awaited |
| `OsTermination.NextLowersBudget` | src/os.c:48-206 | every event lowers a bound on the events left |
| `OsTermination.EveryRunEnds` | src/os.c:48-206 | every schedule, fair or not, is shorter than a bound known at start-up |
| `OsTermination.NeverStuck` | src/os.c:48-206 | until every thread has stopped, some thread can act |
| `OsTermination.EveryRunFinishesTheWork` | src/os.c:48-206 | a schedule that cannot go on has stopped every thread and finished every process that no full queue turned away |
| `OsTrace.NoSlotIsWasted` | src/os.c:65-151 | over every run: a CPU that ends a slot has, since it last woke, run an instruction or found every ready queue empty at one of its steps; one that stops has found that, and the loader is done |
| `OsTrace.NoSlotPassesIdle` | src/os.c:65-151 | whenever the clock moves, the same holds of every CPU that has not stopped |
| `OsTrace.ReadyProcessesRun` | src/os.c:84-151 | so no slot passes without an instruction on a CPU at each of whose steps some process was ready |
| `OsLoading.LoadsOnTime` | src/os.c:174-204 | over every run: processes are loaded in order, the first at its start time, each other at the later of its start time and one slot after the one before; the loader is done one slot after the last |
| `OsLoading.NotBeforeStart` | src/os.c:183-186 | over every run no process is loaded before its start time |
| `OsOverflow.SomeMustGo` | src/queue.c:26-42 | when more processes are loaded than one queue and the CPUs hold, and none has finished, one was turned away |
| `OsOverflow.NextCrowd` | src/os.c:48-206 | every event keeps the count: loading outpaces the work, and a process turned away stays out |
| `OsOverflow.CrowdedConfigurationsLoseWork` | src/queue.c:26-42 | with more long processes of one priority than a queue and the CPUs hold, every complete schedule loses one |
| `OsBudget.GetBudget` | src/sched.c:102-139 | a CPU that takes a process finds budget in its queue; budgets change only by a refill |
| `OsBudget.ChargeBudget` | src/os.c:84-111 | any other action changes a budget only by charging what was used |
| `OsBudget.BusyHolds` | src/os.c:84-145 | what a CPU holds of a queue is kept, handed over with the charge, or granted from the budget |
| `OsBudget.NextReady` | src/os.c:79-112 | without a charge in between, a CPU that has taken a process finds the budget still positive when it reads it |
| `OsBudget.PairingSuffices` | src/os.c:79-112 | on schedules without a charge between get_proc and get_slot every get_slot reads a positive budget |
| `OsBudget.RunGrants` | src/os.c:112-149 | along any schedule the quanta are positive exactly if the budgets read were |
| `OsBudget.QuantaPositiveIffReadsPositive` | src/os.c:112-149 | from start-up, on any schedule, every quantum handed out is positive exactly if every get_slot read a positive budget |
| `OsBudget.DebtIsBounded` | src/os.c:79-151 | if every get_slot reads a positive budget, on N CPUs a budget less the quanta out is at least -(N-1) time slots, and a budget never exceeds its weight |
| `OsBudget.OneCpuNeverOverdraws` | src/os.c:79-151 | on one CPU no budget is ever negative, on any schedule |
| `OsOverrun.BadGrantOverruns` | src/os.c:136-149 | a quantum that is not positive is past zero after its first instruction |
| `OsOverrun.OverrunStep` | src/os.c:84-156 | whoever acts, a process whose quantum is past zero keeps its CPU until it has ended |
| `OsOverrun.RunsToCompletion` | src/os.c:84-156 | over any schedule it keeps the CPU while it has instructions left, and its time used grows with each |
| `OsOverrun.OverrunIsCharged` | src/os.c:84-94 | when it leaves, its queue is charged with everything it used since |
| `OsOverrun.RunOn` | src/os.c:48-206 | every reachable schedule can be continued until no thread can act |
| `OsOverrunRun.NoBoundUnpaired` | src/os.c:79-149 | for every bound, a schedule of two CPUs and two processes from start-up that overdraws a budget by more; from a bound of 1 on, a get_slot of that schedule read no positive budget, after a charge came between it and its get_proc |
| `OsFairness.TakeShortensWait` | src/sched.c:102-139 | each dispatch of another process, on any CPU, shortens a waiting process's measure |
| `OsFairness.WaitCountsDispatches` | src/sched.c:70-143 | along any schedule whose get_slots read positive budgets, the measure drops by at least the dispatches of others |
| `OsFairness.BoundedWaiting` | src/sched.c:70-143 | on N CPUs, while every get_slot reads a positive budget, a process at index k of its queue is taken within L*(2k+N+2)+N dispatches, where L is 9870 plus 140 times N-1 time slots, whatever arrives meanwhile |
| `OsFairness.BoundedWaitingOnOneCpu` | src/sched.c:70-143 | on one CPU, on any schedule, within (k+1)*2*9870 dispatches |
| `OsFairness.NextBalance` | src/os.c:84-149 | every event keeps what a queue has used and has left, less what is unpaid, within N-1 time slots of its weight |
| `OsFairness.WeightedCycle` | src/sched.c:70-139 | on N CPUs, while every get_slot reads a positive budget, a queue uses between refills at most its weight plus N-1 time slots, and at least its weight less as much if it is non-empty at the closing refill |
| `OsFairness.WeightedCycleOnOneCpu` | src/sched.c:70-139 | on one CPU, on any schedule, at most its weight, and exactly that if it is non-empty at the closing refill |
| `Bits.GenMaskBits` | include/bitops.h:27-28 | a mask has exactly the bits of its range |
| `Bits.SetValGetVal` | include/mm.h:10-11 | a field that fits reads back as written, no other bit changes |
| `Bits.NBitsIsLog` | include/bitops.h:30-35 | the position of the highest set bit of every non-zero word |
| `Bits.PteMasks` | include/mm.h:40-53 | the masks used are those of the stated bit ranges |
| `Bits.SetFpnDecodes` | src/mm.c:72-80 | after pte_set_fpn the word says resident, in that frame, whatever it said before |
| `Bits.SetSwapDecodes` | src/mm.c:56-65 | after pte_set_swap the word says swapped, of that type and offset |
| `Bits.LastCallWins` | src/mm.c:56-80 | after any sequence of settings the word says what the last one said |
| `Bits.FpnOfEntry` | src/libmem.c:351 | the frame number extracted is a function of what the entry says, swapped pages included |
| `Bits.AddressMasks` | include/mm.h:62-80 | the address masks are those of the stated bit ranges |
| `Bits.AddressSplits` | include/mm.h:85-87 | below 4 MB page number and offset are quotient and remainder by 256, and give the address back |
| `Bits.PhyAddrJoins` | include/mm.h:95 | a physical address splits back into its frame and offset |
| `Bits.AddressOf` | include/mm.h:85-87 | as numbers, the macros' page and offset are the quotient and remainder by 256 of every address below 4 MB |
| `Bits.PhyAddrOf` | include/mm.h:95 | as a number, the macro's physical address is frame times 256 plus offset, for every frame of RAM |
| `Areas.AlignUpIsLeast` | include/mm.h:17 | alignment gives the least multiple of 256 that covers the request |
| `Areas.ValidateOverlap` | src/mm-vm.c:92-119 | the list loop returns -1 exactly when some area of another number that is not empty fails a sign test, and else 0 |
| `Areas.SignTestsDecideOverlap` | src/mm-vm.c:103-112 | while the products fit an int, the two sign tests decide intersection |
| `Areas.AreaVerdict` | src/mm-vm.c:101-112 | for one area and any range: what the narrowed products must be for a meeting area to be seen and one apart to be told apart |
| `Areas.OverlapTestIsExact` | src/mm-vm.c:92-119 | for lists of any length and products of any size, exactly when the verdict is right: a range met by another non-empty area needs some product of such an area with a low word below 2^31, a range met by none needs every magnitude between 1 and 2^31 in its low word; so always while the products fit an int |
| `Areas.NarrowedProductsMislead` | src/mm-vm.c:103-112 | two disjoint ranges for which the narrowed products report an overlap |
| `Areas.ExtensionAccepted` | src/mm-vm.c:127-141 | growing an area at its end passes exactly when the low 32 bits of (size times increment) are between 1 and 2^31 |
| `Areas.VmArea.GetFreeRegion` | src/libmem.c:651-696 | first fit, sizes measured modulo 2^64: the first node large enough is carved; on failure no node fits and the list is unchanged |
| `Areas.CarveIs` | src/libmem.c:669-687 | only the node found changes: it starts that many bytes later, modulo 2^64, or is gone if it would start beyond its end |
| `Areas.MeasureIsSize` | src/libmem.c:660-663 | in a list of disjoint non-empty nodes the size measured modulo 2^64 is the size |
| `Areas.CarveIsExact` | src/libmem.c:669-690 | exactly the requested bytes leave the list; the rest stays disjoint from them and from each other |
| `Areas.CarveNothing` | src/libmem.c:669-687 | a request for nothing leaves the list as it was |
| `Paging.FirstFree` | src/mm.c:177-184 | the first device with a free frame |
| `Paging.SwapTarget` | src/mm.c:164-185 | the active device while it has room, else the first device with room, none only if none has |
| `Paging.AllocLinks` | src/mm.c:132-161 | although frames from RAM share nodes with the used list, the frames obtained head the list handed on, newest first |
| `Paging.AllocInRam` | src/mm.c:132-196 | every frame obtained is a frame of RAM |
| `Paging.AllocKeepsSize` | src/mm.c:127-199 | an allocation maps no new page, unmaps none and leaves the limits alone |
| `PagingBound.ExactSuccessBound` | src/mm.c:127-199 | the error code is determined by free frames, evictable pages and free swap frames |
| `PagingBound.SuccessCondition` | src/mm.c:127-199 | success exactly if the request is at most F + V and the shortage after F at most W |
| `PagingChoice.FreeGoesFirst` | src/mm.c:135-149 | a free frame of RAM is taken first, and only the two frame lists change |
| `PagingChoice.EvictedGoesTo` | src/mm.c:150-194 | the page that gives up its frame is the oldest; it goes, bytes included, to the first free frame of the active device if that has one, else of a device before which every other is full |
| `PagingChoice.NothingToTake` | src/mm.c:150-192 | without a page to evict nothing changes; without room for it the page leaves the list all the same |
| `PagingChoice.AllocFrames` | src/mm.c:132-196 | a successful allocation obtains the free frames in order and then those of the oldest pages in order, and lists them newest first |
| `PagingChoice.AllocPlaces` | src/mm.c:150-194 | the pages evicted, oldest first, go to the places of the active device in order and then to those of the others in order; no other page moves |
| `PagingChoice.MapRamChooses` | src/mm.c:106-117 | the first page mapped gets the frame obtained last, and so on |
| `PagingOwnership.EvictKeeps` | src/mm.c:145-194 | an evicted page keeps its bytes in a swap slot nobody used; every other page keeps place and bytes |
| `PagingOwnership.AllocOneOwned` | src/mm.c:132-196 | one round keeps ownership, contents and the frames held so far |
| `PagingOwnership.AllocOwned` | src/mm.c:127-199 | an allocation, successful or not, keeps ownership and all contents; on success its first frames are the ones it holds, pairwise distinct |
| `PagingOwnership.MapOwned` | src/mm.c:106-117 | mapping held frames to pages not on the list keeps ownership |
| `PagingOwnership.MapKeeps` | src/mm.c:106-117 | mapping changes exactly the entries of the range, and keeps all contents if none was mapped before |
| `PagingOwnership.MapRamOwned` | src/mm.c:210-243 | on success and on both failures every mapped page of every process keeps its bytes, and exactly the range is mapped or nothing |
| `PagingRuns.ExtendEffect` | src/mm-vm.c:127-161 | what an extension does to limits, page tables and contents, whether refused, failed or successful |
| `PagingRuns.FaultOwned` | src/libmem.c:268-344 | a fault moves one frame from the oldest page to the new one and keeps ownership |
| `PagingRuns.DoEffect` | src/libmem.c:262-443 | any operation maps exactly its own pages, unmaps none, and moves the end of an area exactly if the range is taken |
| `PagingRuns.DoSound` | src/libmem.c:262-443 | every extension, read and write, at any address below 4 MB, keeps ownership and the limits |
| `PagingRuns.RunSound` | src/libmem.c:262-443 | every run of extensions, reads and writes keeps ownership and the limits |
| `PagingRuns.RunPrefix` | src/libmem.c:262-443 | a run is its first operations followed by the rest, each of them allowed where it starts |
| `PagingRuns.InBoundsIff` | src/libmem.c:262-344 | exactly which operations follow no index out of range: extensions below 4 MB with either number, accesses below 4 MB to resident pages, to swapped pages whose alias is in RAM, and to others when a fault finds all it needs |
| `PagingRuns.FrameOwnership` | src/mm.c:127-199 | over every run of every set of processes, faults included: lists duplicate-free and resident, resident frames distinct and not free, swap slots distinct and not free |
| `PagingCover.OwnershipKeptIff` | src/mm.c:106-117 | an operation in bounds keeps ownership exactly if it is not a successful extension over a page still listed after its evictions |
| `PagingCover.FramesKeptIff` | src/mm.c:106-117 | an operation in bounds keeps ownership and the account of frames exactly if it is not a successful extension over a mapped page |
| `PagingHoles.ExtendShrinks` | src/mm-vm.c:127-161 | an extension that fails for want of frames leaves RAM used up and nothing to evict or nowhere to put it, and no extension ends that |
| `PagingHoles.DoHoles` | src/libmem.c:262-348 | every operation keeps: a process with an unmapped page below its end is in that state |
| `PagingHoles.FaultsLieBeyondTheEnd` | src/libmem.c:262-348 | in every reachable state an access to an absent page below the end finds an empty replacement list or no free swap frame, so a fault that follows only set indices lies beyond the end |
| `PagingConservation.AllocLedger` | src/mm.c:127-199 | the frames an allocation obtains, and no others, become neither free nor any page's; their number is min(request, F + min(V, W)) |
| `PagingConservation.MapRamLedger` | src/mm.c:210-243 | success leaves no frame with nobody that was not so before; a failure loses exactly those obtained |
| `PagingConservation.RunLedger` | src/mm.c:127-243 | along any run the list of lost frames only grows, by the sum of what the failed extensions had obtained |
| `PagingConservation.FramesAreAccountedFor` | src/mm.c:127-243 | after any run each frame of RAM is free, some page's or lost, never two of these; each swap frame is free or some page's; the number lost is the sum of what the failures had obtained |
| `PagingConservation.LostForGood` | src/mm.c:228-236 | a lost frame is neither free nor any page's after any further run |
| `PagingConservation.AllOfRamIsLost` | src/mm.c:228-236 | from start-up one request of a page more than RAM has leaves every frame neither free nor any page's |
| `PagingConservation.FramesAreConserved` | src/mm.c:127-243 | in runs that lose nothing, a frame of RAM is free exactly when no page is stored in it |
| `PagingGeometry.ExtensionSucceeds` | src/mm-vm.c:127-161 | exactly when inc_vma_limit returns 0, for either number of the area; a caller that gives the area's own number is never refused for overlap |
| `PagingGeometry.DoublingRefused` | src/mm-vm.c:103-112 | an area of 64 KB cannot grow by 64 KB |
| `PagingGeometry.DoublingIsReached` | src/mm-vm.c:103-112 | from start-up one extension of any process leads to the area that is then refused |
| `PagingGeometry.AreaIsFilled` | src/mm-vm.c:127-161 | while no extension fails, sbrk equals vm_end, both are the sum of the aligned requests, and mapped are exactly the pages below and those that faults beyond have mapped |
| `PagingFlat.WriteEffect` | src/libmem.c:408-443 | which byte of which process a write changes, for resident and swapped pages alike |
| `PagingFlat.ResidentWrite` | src/libmem.c:408-443 | a write to a resident page changes that byte of that process and nothing else |
| `PagingFlat.WritesLandIffResident` | src/libmem.c:262-348 | a mapped page shows every byte written to it exactly if it is resident |
| `PagingFlat.ReadsItselfIff` | src/libmem.c:262-398 | a read of a mapped page returns its own byte exactly if the page is resident or the aliased frame holds an equal byte there |
| `PagingFlat.SwappedWriteStrays` | src/libmem.c:262-348 | a write to a swapped page changes the page resident in the aliased frame instead |
| `PagingFlat.RunAgrees` | src/libmem.c:362-443 | over any run of extensions and resident accesses the paged bytes equal those of one flat memory per process |
| `PagingFlat.ReadReturnsLastWrite` | src/libmem.c:362-398 | a read of a resident page returns the byte last written there |
| `PagingStray.AllocFree` | src/mm.c:132-144 | while RAM has enough free frames they are handed on newest first and no page is evicted |
| `PagingStray.FirstExtension` | src/mm-vm.c:127-161 | a process's first extension maps its pages to the first free frames in reverse order and lists them in order |
| `PagingStray.StrayWriteIsReachable` | src/mm.c:56-65 | for every RAM of two frames or more, a run of two extensions after which a byte written to page 0 shows on another page of the process |
| `PagingFault.FaultBytes` | src/libmem.c:300-330 | which frame of which device each copy of a fault changes, and to what; nothing else of the devices changes but one free list |
| `PagingFault.FaultingAccess` | src/libmem.c:262-443 | an access that faults finds the bytes of the page whose frame it took over, and a write changes one of them |
| `PagingFault.FaultKeepsIffHarmless` | src/libmem.c:280-330 | a fault keeps the bytes of every page mapped before exactly if the swap frame it overwrites is unused or already holds the bytes written |
| `PagingFaultRun.ReadLosesAWrite` | src/libmem.c:262-348 | a run from start-up after which a read of one page overwrites the byte written to another; that fault is not harmless |
| `PagingFaultRun.CoverIsReachable` | src/mm-vm.c:127-161 | a run from start-up after which an extension covers a page mapped by a fault and breaks ownership and the account |
| `PagingFifo.VictimsAreOldest` | src/libmem.c:611-643 | an allocation takes pages off the list oldest first and keeps the order of the rest |
| `PagingFifo.MapEnlists` | src/mm.c:314-323 | mapping adds the pages as the newest, in order |
| `PagingFifo.FirstInFirstOut` | src/libmem.c:611-643 | over every run pages leave the replacement list in exactly the order in which they were mapped |
| `PagingLists.AllocUnlisted` | src/mm.c:145-191 | an allocation takes one resident page off the list for good exactly if it runs out of memory |
| `PagingLists.RunUnlisted` | src/mm.c:145-191 | along any run resident pages off the list stay so, and each failure of that kind adds one |
| `PagingLists.ListsHoldResidentPages` | src/mm.c:145-191 | from start-up the list holds exactly the resident pages if and only if no extension ran out of memory; else it lacks one for each |
| `PhysicalMemory.MemPhy.constructor` | src/mm-memphy.c:203-217 | zero bytes, and every frame free in order |
| `PhysicalMemory.MemPhy.Format` | src/mm-memphy.c:115-141 | the free list is 0 to n-1; a device without a whole frame is refused and its list left alone |
| `PhysicalMemory.MemPhy.GetFreeFp` | src/mm-memphy.c:143-159 | takes the head of the free list, or fails and changes nothing |
| `PhysicalMemory.MemPhy.PutFreeFp` | src/mm-memphy.c:187-198 | the free list stays in order exactly if it was so and the frame is one of the device's and not already free |
| `PhysicalMemory.MemPhy.PutThenGet` | src/mm-memphy.c:143-198 | a frame put back is the next handed out, and the device is then as it was |
| `PhysicalMemory.MemPhy.Read` | src/mm-memphy.c:58-69 | the byte at an address, which is that offset of that frame |
| `PhysicalMemory.MemPhy.Write` | src/mm-memphy.c:98-109 | changes that byte of that frame only |
| `PhysicalMemory.CutReplace` | src/mm-memphy.c:98-109 | changing the bytes of one frame changes no other frame |
| `PhysicalMemory.SwapCpPage` | src/mm.c:249-265 | the byte loop copies one frame and changes no other |
| `AddressSpace.MmStruct.constructor` | src/mm.c:272-293 | an empty page table, list and area, and one free region from 0 to 0 |
| `AddressSpace.MmStruct.EnlistPgnNode` | src/mm.c:314-323 | a new head node, the rest of the linked list unchanged |
| `AddressSpace.MmStruct.FindVictimPage` | src/libmem.c:611-643 | unlinks the last node and no other; fails only on an empty list |
| `AddressSpace.MmStruct.SetFpn` | src/mm.c:72-80 | one word now says resident, all other words unchanged |
| `AddressSpace.MmStruct.SetSwap` | src/mm.c:56-65 | one word now says swapped, all other words unchanged |
| `Kernel.Caller.SwapOut` | src/mm.c:163-191 | stores the frame on the active device if that has room, else on one before which every other is full; fails only if none has room |
| `Kernel.Caller.AllocFrame` | src/mm.c:132-196 | one round of the loop is one round of the allocation on values; the code is 0, -1 without a page to evict, -3000 without room for it |
| `Kernel.Caller.AllocPagesRange` | src/mm.c:127-199 | the loop ends, state and frames are those of the allocation on values, and the code is 0, -1 or -3000 exactly by the request and the numbers of free frames, evictable pages and free swap frames |
| `Kernel.Caller.VmapPageRange` | src/mm.c:85-122 | the loop maps pages in order while frames last, enlists each, and gains no list nodes but new ones |
| `Kernel.Caller.VmMapRam` | src/mm.c:210-243 | state and result are those of the mapping on values |
| `Kernel.Caller.IncVmaLimit` | src/mm-vm.c:127-161 | state and result are those of the extension on values |
| `Kernel.Caller.ExchangeFrames` | src/libmem.c:280-330 | the victim leaves the list and the two copies of a fault are made as the code makes them |
| `Kernel.Caller.FaultIn` | src/libmem.c:268-344 | state after a fault, words and list included |
| `Kernel.Caller.PgGetPage` | src/libmem.c:262-349 | the frame an access goes to, after a fault if the page is not present |
| `Kernel.Caller.Locate` | src/libmem.c:362-376 | the physical address that the address macros compute for an access is the byte at that offset of the frame the entry names |
| `Kernel.Caller.PgGetVal` | src/libmem.c:362-398 | the byte read is that of the frame the entry names |
| `Kernel.Caller.PgSetVal` | src/libmem.c:408-443 | the write changes that byte of RAM and nothing else |
| `Syscall.Serve` | src/sys_mem.c:20-46 | an in-place operation is the step of the run on values |
| `Syscall.Execute` | src/sys_mem.c:20-46 | after one operation the caller's memory holds its view of the next state of the run, ownership is intact, a read returns the byte of the run, and only new nodes were gained |
| `Syscall.Step` | src/sys_mem.c:20-46 | one operation by any of several processes: every other process keeps its own memory, the list nodes stay apart, and the whole heap holds the next state |
| `Syscall.RunAll` | src/sys_mem.c:20-46 | any run of operations of any processes, in place: the heap ends up holding the state the run leads to, with ownership, every read returns what the run says, and what the processes work on grows only by new objects, so runs can follow one another |
| `Boot.InitDevices` | src/os.c:318-345 | distinct devices, each with its frames free in order |
| `Boot.NewProcess` | src/mm.c:272-293 | a process with empty memory of its own on the shared devices |
| `Boot.Start` | src/os.c:318-345 | after start-up newly made memory holds the state from which every run begins |
| `Session.WriteThenRead` | src/libmem.c:362-443 | from start-up with any number of processes, a byte written in one run is read in the next |

## Left out

- `cpu_routine`, `ld_routine` and the timer thread are transition systems, not in-place loops, because other threads act between their steps; the model does not capture their local variables as mutable storage.
- Pthread internals, memory-order effects and the failure of `malloc`.
- Loading of programs, `read_config`, `main`, and everything printed; start times and sizes are parameters.
- `src/mem.c` and `src/paging.c`, which are stubs, and the scheduler branch compiled out without MLQ.
- `running_list` and `sys_killall`: the list does not affect dispatch, and no process is killed.
- Sequential devices and their cursor: every device is created random-access.
- System call dispatch: call 17 is a direct call of its operation.
- Contents after a fault: the second copy runs in the wrong direction, so the page faulted in has no earlier bytes restored. Ownership, list order and the account of frames are proved for runs with faults, of which `PagingFaultRun` gives some; equality with flat memory for runs without.
- Runs after an extension over a mapped page: they end there, since the page's former frame is lost and its list may name it twice, so that a later eviction would take a swap location for a frame; `PagingCover` says exactly what the extension itself breaks.
- `__alloc` and `__free` over the whole heap: their half-open ends and the inclusive ends of carving make disjointness false as written; `libread` and `libwrite` only wrap the operations modelled.
- `free_pcb_memph` and `init_pte`, which are never called.
- Kernel.Caller.AllocPagesRange: lists of frames are sequences; a node's link is set once, before the node can be shared. `stale` stands for the link that the code leaves unset on the first evicted frame.
- Overflow of counters elsewhere, among them the clock and the slot budgets.
