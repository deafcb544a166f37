# Theme park mini OS: a verified model

`Scheduler_And_Rides/` is a discrete-time mini operating system. Guests are processes with a CPU burst, a
memory need, a priority and an optional ride request; rides are shared resources with a capacity, a
cycle length and a FIFO queue; memory is 1024 cells handed out first-fit and contiguously; one CPU is
given to READY guests under FCFS, priority or round robin. Each tick admits arrivals, advances the
rides, accounts waiting, dispatches the CPU, does one CPU step, and dispatches again.

This project models that tick engine, the allocator, the rides and the scheduler, and proves what holds
of every run of them.

## How it is built

* **Objects.** `Guest`, `MemoryManager`, `Ride`, `Scheduler` and `Simulation` are classes whose methods
  update fields in place with the loops of the original. Each method is proved equal to a function on
  values: `View() == F(old(View()))`. A guest is identified by its reference, and the changing fields of all
  guests form a `Table`. Some inline passages of the original are small methods of their own
  (`AdmitGuest`, `SettleGuest`, `BurnCpu`, `BoardRide` and the like), so that each proof has one change to follow.
* **Functions** (`MemoryModel`, `RideModel`, `SchedulerModel`, `SimModel`) say what each operation does to
  values, branch by branch, without assumptions about the numbers: negative bursts, needs of 0 or less or
  above 1024, capacities and durations of 0 or less and repeated ride ids all have the meaning the
  code gives them.
* **Invariant** (`Invariant`, `Preservation`): the state/location bijection, memory ownership, the ride
  invariant and the counters, kept by every phase. During the ride phase it carries the list of guests *in
  flight*: off the ride, not yet READY or TERMINATED.
* **Results** about all runs: `Completion`, `Timing`, `Visits`, `Admission`, `Ordering`, `Conservation`,
  `Turnaround`, `Theorems`; `Demo` applies them to the scenario the program ships with.

Every theorem about runs assumes only that the guest objects are distinct, that the quantum is at least 1
(`setRoundRobinQuantum` enforces it) and that the run is fresh. `After(c, n)` is the state after `n` ticks;
`Theorems.RunIsAfter` says that what `run` leaves behind is one of these.

## Which guests are served

The completion theorems have an exact condition, `Finishable`, a check on the guest and its ride before the
run: the guest needs at most 1024 cells; if the ride it asks for exists, that ride has capacity at least 1
and a duration of at least 0; if it asks for no existing ride, its burst is at least 0. `Deadline` is the
latest arrival (or 0) plus, for every guest, its burst + 1, and 1 + the ride's duration if the ride exists
(a negative burst counts 0, a duration of 0 counts 1); guests that need more than 1024 cells do not count.

With at least that many ticks `run` serves everybody **if and only if** every guest is finishable. Guests
that need more than 1024 cells are blocked at admission and stay NEW for ever; the others are all served
all the same **if and only if** each of them is finishable. With any number of ticks a guest that is not
finishable is never served.

Two consequences of the code that its prose does not mention: a guest with a negative burst does leave if
it has a ride to visit (the ride phase terminates it, Simulation.cpp:148), and blocks the CPU for good if it has
none; a cycle of duration 0 lasts one tick.

One disagreement between code and comment: Simulation.cpp:346-347 says that multi-seat rides need a full
load before a cycle starts, while Ride.cpp:45-50 (and the comment there) starts a cycle with one rider.
The model follows the code.

## Model

| member | source | states |
|---|---|---|
| MemoryManagers.MemoryManager.constructor | Scheduler_And_Rides/src/MemoryManager.cpp:3-5 | a new memory is one free block over all cells, nothing used, no last start |
| MemoryManagers.MemoryManager.Allocate | Scheduler_And_Rides/src/MemoryManager.cpp:7-35 | the search and split loop over the block vector computes the allocation function on which the cell-level theorem below is proved |
| MemoryManagers.MemoryManager.Release | Scheduler_And_Rides/src/MemoryManager.cpp:37-53 | the scan frees the allocated block at that start, coalesces, and leaves the memory alone when there is none or the amount is not positive |
| MemoryManagers.MemoryManager.MergeAdjacentFreeBlocks | Scheduler_And_Rides/src/MemoryManager.cpp:55-64 | the in-place pass leaves the fully coalesced list, one block per run of free blocks |
| MemoryModel.AllocateRefinesCells | Scheduler_And_Rides/src/MemoryManager.cpp:7-35 | first fit over single cells: for a positive amount a call succeeds if and only if that many consecutive free cells exist, takes the lowest such place, makes exactly those cells non-free, and otherwise changes nothing but the last-start register; a request for nothing succeeds at start 0 and takes nothing; blocks keep tiling the memory, coalesced |
| MemoryModel.FreeIffUncovered | Scheduler_And_Rides/src/MemoryManager.cpp:7-64 | the two views of a block list agree: a cell is free exactly when no live interval covers it |
| MemoryModel.RoomNeverGrows | Scheduler_And_Rides/src/MemoryManager.cpp:15-32 | an allocation never creates or enlarges a hole: whatever fits afterwards did fit before |
| MemoryModel.ReleaseRefinesCells | Scheduler_And_Rides/src/MemoryManager.cpp:37-53 | releasing a live interval frees exactly its cells and removes exactly that interval, whatever amount is named, and keeps the used count right if and only if the amount is the interval's size; releasing anything else is a no-op; the list stays tiled and coalesced |
| MemoryModel.MergeEffect | Scheduler_And_Rides/src/MemoryManager.cpp:55-64 | one pass leaves no two adjacent free blocks, and changes neither a cell's freedom nor a live interval |
| MemoryModel.Canonical | Scheduler_And_Rides/src/MemoryManager.cpp:37-64 | two valid block lists over the same range with the same live intervals are equal |
| MemoryModel.AllocateThenRelease | Scheduler_And_Rides/src/MemoryManager.cpp:7-53 | releasing what was just allocated restores the block list and the used count exactly |
| MemoryModel.ReleaseOrderIrrelevant | Scheduler_And_Rides/src/MemoryManager.cpp:37-64 | releasing the same set of intervals in any two orders gives the same memory |
| MemoryModel.NothingLive | Scheduler_And_Rides/src/MemoryManager.cpp:55-64 | with nothing allocated the memory is one free block again |
| Schedulers.Scheduler.PickNext | Scheduler_And_Rides/include/Scheduler.h:25-52 | under priority the guest returned has the lowest priority number, then the earliest arrival, then the smallest pid, and is the first such; under FCFS and round robin it is the front one; the others keep their order; no guest comes back exactly for an empty queue |
| SchedulerModel.BestIsMostUrgent | Scheduler_And_Rides/include/Scheduler.h:36-47 | the scan stops at the guest with the lowest priority number, then the earliest arrival, then the smallest pid, strictly so against everybody in front of it |
| SchedulerModel.PickMostUrgent | Scheduler_And_Rides/include/Scheduler.h:36-50 | the pick by priority on the guests' fields: nobody in the queue has a lower priority number, nor the same and an earlier arrival, nor both the same and a smaller pid; strictly so for everybody in front of it; the rest keeps its order |
| SchedulerModel.PickTakesOne | Scheduler_And_Rides/include/Scheduler.h:25-51 | no guest comes back only for an empty queue; otherwise one occurrence is removed (the front one under FCFS and round robin) and the others keep their order |
| SchedulerModel.DrainOrder | Scheduler_And_Rides/include/Scheduler.h:25-52 | emptying a queue by repeated picks yields, under priority, the only stable sort of it by (priority, arrival, pid), and under FCFS and round robin the queue itself; stated as an if-and-only-if |
| SchedulerModel.StableSortUnique | Scheduler_And_Rides/include/Scheduler.h:36-50 | two sorted queues with the same guests per key in the same order are equal |
| Guests.Guest.constructor | Scheduler_And_Rides/src/Guest.cpp:6-13 | a new guest is NEW, off rides, without memory, with its whole burst left and no waiting charged |
| Rides.Ride.constructor | Scheduler_And_Rides/src/Ride.cpp:7-8 | a new ride is idle and empty |
| Rides.Ride.TryBoard | Scheduler_And_Rides/src/Ride.cpp:12-37 | boarding from the CPU changes ride and guest as the function behind BoardEffect says, and no other guest |
| Rides.Ride.StartCycleIfLoadingComplete | Scheduler_And_Rides/src/Ride.cpp:40-51 | a cycle starts exactly when the ride is idle and has a rider |
| Rides.Ride.FinishCycle | Scheduler_And_Rides/src/Ride.cpp:54-64 | the loop hands back all riders in order, clears exactly their riding flags and leaves the ride idle and empty |
| Rides.Ride.LoadFromQueue | Scheduler_And_Rides/include/Ride.h:74-85 | the admission loop against its function, whose closed form is LoadEffect |
| Rides.Ride.Tick | Scheduler_And_Rides/include/Ride.h:58-89 | one tick of the ride object, with both result lists and the operating flag, against its function, whose closed form is TickEffect |
| RideModel.LoadEffect | Scheduler_And_Rides/include/Ride.h:74-85 | the admission loop seats exactly min(free seats, queue length) guests, the front of the queue in queue order, and changes only their state and flag |
| RideModel.TickEffect | Scheduler_And_Rides/include/Ride.h:58-89 | a tick without loops: at the end of a cycle all riders leave and the first `capacity` of the queue are seated for a full cycle, otherwise only the timer moves; the ride counts as operating exactly when it was busy before |
| RideModel.TickOutcome | Scheduler_And_Rides/include/Ride.h:58-89 | the same on the fields: when the timer runs out all riders leave in seat order and the first min(capacity, queue length) of the queue are seated in queue order for a full duration; otherwise nobody leaves or boards and the timer falls by one |
| RideModel.BoardEffect | Scheduler_And_Rides/src/Ride.cpp:12-37 | a guest is seated from the CPU if and only if the ride is idle and can seat anyone, and then nobody is waiting for it; otherwise it joins the end of the queue |
| Simulations.Simulation.constructor | Scheduler_And_Rides/src/Simulation.cpp:16-19 | a simulation starts with an empty memory of 1024 cells, empty READY queue, idle CPU, zero counters and quantum 2; of new guests and new rides it starts in the initial state and satisfies the invariant |
| Simulations.Simulation.SetRoundRobinQuantum | Scheduler_And_Rides/src/Simulation.cpp:21-23 | the quantum becomes max(1, argument) and nothing else changes |
| Simulations.Simulation.AverageWait | Scheduler_And_Rides/src/Simulation.cpp:37-42 | the mean over completed guests: times their number it is the wait sum; 0 if there are none |
| Simulations.Simulation.AverageRideUtilization | Scheduler_And_Rides/src/Simulation.cpp:45-51 | the used fraction of ride ticks, 0 without rides or ticks; times rides and ticks it is the busy counter; in [0, 1] whenever the busy counter is at most rides times ticks, which `Run` ensures |
| Simulations.Simulation.CollectArrivals | Scheduler_And_Rides/src/Simulation.cpp:56-62 | the batch loop collects exactly the NEW guests whose arrival time is not in the future |
| Simulations.Simulation.AdmitNewArrivals | Scheduler_And_Rides/src/Simulation.cpp:55-104 | the admission pass of the object against the function of AdmissionMaximal and AdmissionInOrder |
| Simulations.Simulation.AdmitGuest | Scheduler_And_Rides/src/Simulation.cpp:70-98 | one guest of the batch gets memory and becomes READY at the end of the queue, or stays NEW with nothing changed but the last-start register |
| Simulations.Simulation.UpdateWaitMetrics | Scheduler_And_Rides/src/Simulation.cpp:107-114 | exactly the READY and WAITING guests are charged one tick |
| Simulations.Simulation.ProcessRidePhase | Scheduler_And_Rides/src/Simulation.cpp:118-172 | the loop over rides, with guests in flight, against the function of RidePhaseInv |
| Simulations.Simulation.TurnRide | Scheduler_And_Rides/src/Simulation.cpp:123-161 | one ride's tick and the settling of everybody who left it |
| Simulations.Simulation.SettleGuest | Scheduler_And_Rides/src/Simulation.cpp:138-160 | a guest off its ride becomes READY with work left, TERMINATED without |
| Simulations.Simulation.TryDispatchCpu | Scheduler_And_Rides/src/Simulation.cpp:176-201 | the dispatch of the object, including its riding guard, against the function of DispatchInv |
| Simulations.Simulation.CpuTick | Scheduler_And_Rides/src/Simulation.cpp:205-278 | the CPU step of the object with all its branches against the function of CpuTickInv and CpuTurn |
| Simulations.Simulation.FindRide | Scheduler_And_Rides/src/Simulation.cpp:217-223 | the first ride with this id, or none if no ride has it |
| Simulations.Simulation.BurnCpu | Scheduler_And_Rides/src/Simulation.cpp:249-277 | one unit of burst, round-robin preemption at the quantum, termination when work and visit are done |
| Simulations.Simulation.Leave | Scheduler_And_Rides/src/Simulation.cpp:270-273 | termination: the guest is counted, its waiting added to the sum, its memory given back |
| Simulations.Simulation.ReleaseMemoryFor | Scheduler_And_Rides/src/Simulation.cpp:280-292 | memory goes back once, and only if it is held |
| Simulations.Simulation.AllGuestsFinished | Scheduler_And_Rides/src/Simulation.cpp:295-302 | true if and only if every guest is TERMINATED |
| Simulations.Simulation.Step | Scheduler_And_Rides/src/Simulation.cpp:314-326 | a tick of the object is the tick of the model, keeps the invariant, and leaves the CPU idle only with an empty READY queue |
| Simulations.Simulation.Run | Scheduler_And_Rides/src/Simulation.cpp:305-339 | the driver loop; a fresh simulation given its deadline ends with every guest TERMINATED if and only if every guest is finishable, and with exactly the guests that fit into memory TERMINATED and the others NEW if and only if all that fit are finishable; whenever all are TERMINATED `completed` is the number of guests and memory is one free block; after every run the busy counter is at most rides times ticks |
| Preservation.InitialInv | Scheduler_And_Rides/include/Simulation.h:39-55 | a fresh park satisfies the whole invariant |
| Preservation.AdmitInv | Scheduler_And_Rides/src/Simulation.cpp:55-104 | admission keeps the invariant and changes only NEW guests, the end of the READY queue and the memory |
| Preservation.SettleInv | Scheduler_And_Rides/src/Simulation.cpp:133-161 | settling one guest in flight keeps the invariant with one guest fewer in flight; its visit always counts as completed, so the branch that would send it back for a second visit is never taken |
| Preservation.RideTurnInv | Scheduler_And_Rides/src/Simulation.cpp:123-171 | one ride's turn keeps the invariant, touches only the guests leaving and boarding that ride, and counts the ride busy at most once |
| Preservation.RidePhaseInv | Scheduler_And_Rides/src/Simulation.cpp:118-172 | the whole ride phase keeps the invariant, ends with nobody in flight, leaves CPU holder and TERMINATED guests alone, and moves every ride to its closed-form next state |
| Preservation.WaitMetricsInv | Scheduler_And_Rides/src/Simulation.cpp:107-114 | wait accounting keeps the invariant |
| Preservation.DispatchInv | Scheduler_And_Rides/src/Simulation.cpp:176-201 | dispatch keeps the invariant, leaves the CPU idle only when nobody is READY, and otherwise runs the guest picked |
| Preservation.BoardInv | Scheduler_And_Rides/src/Simulation.cpp:225-246 | a boarding attempt keeps the invariant, whether the guest is seated or queued |
| Preservation.CpuTickInv | Scheduler_And_Rides/src/Simulation.cpp:205-278 | every branch of the CPU step keeps the invariant |
| Preservation.CpuTickForm | Scheduler_And_Rides/src/Simulation.cpp:205-278 | the CPU step in closed form at every reachable state: only the holder changes, it joins its ride or works one unit, and READY queue, CPU and rides follow from the state it gets; the riding guard plays no part |
| Preservation.TickInv | Scheduler_And_Rides/src/Simulation.cpp:313-332 | a tick keeps the invariant, and afterwards an idle CPU means an empty READY queue |
| Preservation.AfterInv | Scheduler_And_Rides/src/Simulation.cpp:305-339 | every tick boundary of every run satisfies the invariant, with work conservation |
| Preservation.RideAskedFor | Scheduler_And_Rides/src/Simulation.cpp:217-225 | a guest has a ride to visit if and only if it names an id of 0 or more that some ride has, and it is the first ride with that id |
| Theorems.StateIsLocation | Scheduler_And_Rides/src/Simulation.cpp:118-278 | at every tick boundary a READY guest is in the READY queue exactly once, the RUNNING guest is the one on the CPU, a WAITING or RIDING guest is exactly once in the queue or on the ride it asked for, all others nowhere; `riding` holds exactly for RIDING guests |
| Theorems.RidingGuardsDead | Scheduler_And_Rides/src/Simulation.cpp:186-215 | the guards against riding guests at both dispatches and at the CPU step are never taken in any tick of any run |
| Theorems.QueueGuardDead | Scheduler_And_Rides/include/Ride.h:74-80 | the guard against TERMINATED guests in a ride queue is never taken: in every state in which a ride ticks, after admission and after the turns of earlier rides, whoever is in its queue is WAITING, also after its riders have alighted |
| Theorems.RidesWellFormed | Scheduler_And_Rides/include/Ride.h:58-89 | at every tick boundary an idle ride is empty and has no queue if it can seat anyone, a busy one carries 1 to `capacity` guests with its timer in 1 to `duration` |
| Theorems.MemoryOwnership | Scheduler_And_Rides/src/Simulation.cpp:70-103 | at every tick boundary a guest holds memory if and only if it is READY, RUNNING, WAITING or RIDING; live intervals and holders with a positive need are in bijection, with the guest's own start and size inside 1024 cells; no two overlap; `used` is the sum of the needs; the start is -1 without memory and 0 for a need of 0 or less |
| Theorems.LeavingFreesOwn | Scheduler_And_Rides/src/Simulation.cpp:280-292 | a leaving guest gives back exactly its own interval, one with no positive need gives back nothing, and everybody else keeps theirs; at the CPU step and also in the ride phase with guests in flight |
| Theorems.Tally | Scheduler_And_Rides/src/Simulation.cpp:148-152 | `completed` is the number of TERMINATED guests and the wait sum is the waiting of exactly those; when all have left it equals the queue lengths summed over the run |
| Theorems.MeanWaitIsQueueLength | Scheduler_And_Rides/src/Simulation.cpp:37-42 | when all have left, average wait times number of guests is the total queue length observed over the run |
| Theorems.UtilizationIsFraction | Scheduler_And_Rides/src/Simulation.cpp:45-51 | ride utilisation lies in [0, 1] after every number of ticks, for any rides |
| Theorems.RunIsAfter | Scheduler_And_Rides/src/Simulation.cpp:313-332 | a fresh run stops at the first tick that leaves everybody finished, or at the limit, in the state after that many ticks |
| Theorems.EventuallyFinished | Scheduler_And_Rides/src/Simulation.cpp:305-339 | some number of ticks serves everybody if and only if every guest is finishable |
| Theorems.NoIdleCpu | Scheduler_And_Rides/src/Simulation.cpp:321-326 | a tick that ends with somebody READY ends with a RUNNING guest on the CPU, and an idle CPU means that no guest is READY or RUNNING |
| Theorems.MostUrgentRuns | Scheduler_And_Rides/src/Simulation.cpp:176-193 | under the priority policy an idle CPU goes to a READY guest with the lowest priority number, then the earliest arrival, then the smallest pid |
| Theorems.SliceCounter | Scheduler_And_Rides/src/Simulation.cpp:254-258 | the slice counter is 0 without round robin and for everybody inside but off the CPU, and below the quantum on the CPU |
| Completion.BoundedCompletion | Scheduler_And_Rides/src/Simulation.cpp:305-339 | under every policy a fresh run of at least `Deadline` ticks serves everybody if and only if every guest is finishable |
| Completion.BoundedService | Scheduler_And_Rides/src/Simulation.cpp:70-98 | under every policy a fresh run of at least `Deadline` ticks ends with every guest that needs at most 1024 cells TERMINATED and every other guest still NEW, if and only if each guest that needs at most 1024 has an existing ride with capacity at least 1 and duration at least 0, or no existing ride and a burst of at least 0 |
| Completion.DeadlineOnFields | Scheduler_And_Rides/src/Simulation.cpp:305-339 | the deadline in terms of arrivals, bursts, needs and ride durations |
| Completion.TickProgress | Scheduler_And_Rides/src/Simulation.cpp:313-326 | once every guest that fits has arrived, every tick with such a guest unfinished lowers the potential (CPU units, boarding attempts, ride cycles, running timers, departures left), also beside guests that never fit |
| Completion.TickPotential | Scheduler_And_Rides/src/Simulation.cpp:313-326 | no tick raises the potential, and a running ride or a finishable guest on the CPU lowers it |
| Completion.AdmitsSomebody | Scheduler_And_Rides/src/Simulation.cpp:70-98 | when nobody holds memory and somebody who fits into 1024 cells has arrived, somebody is admitted, whatever oversized guests stand in front of it in the batch; rests on coalescing |
| Completion.CpuGetsGuest | Scheduler_And_Rides/src/Simulation.cpp:315-321 | after the last arrival, an unfinished tick with no ride running puts a finishable guest on the CPU |
| Completion.TickKeepsTerminated | Scheduler_And_Rides/src/Simulation.cpp:269-277 | TERMINATED is absorbing: no field of such a guest ever changes again |
| Completion.TerminatedFinishable | Scheduler_And_Rides/src/Simulation.cpp:267-277 | whoever terminated met the condition `Finishable` |
| Completion.FinishedState | Scheduler_And_Rides/src/Simulation.cpp:328-331 | when every guest is NEW or TERMINATED, memory is one free block and CPU, READY queue and rides are empty; when all have left, `completed` is the number of guests |
| Completion.QuietMemory | Scheduler_And_Rides/src/Simulation.cpp:280-292 | whenever every guest is NEW or TERMINATED, memory is the single free block [0, 1024) |
| Timing.TickRide | Scheduler_And_Rides/include/Ride.h:58-89 | a ride over a whole tick of the engine in closed form, including a guest that comes from the CPU |
| Timing.BoardingTime | Scheduler_And_Rides/include/Ride.h:58-89 | exact boarding time: the guest at index k of the queue of a busy ride with r ticks left is WAITING for exactly r + k / capacity * duration ticks, RIDING for exactly duration ticks, and has completed its visit ever after, whoever joins behind it |
| Timing.RidingTime | Scheduler_And_Rides/include/Ride.h:65-72 | a rider stays on for exactly the ticks left on the timer and then its visit is completed for good |
| Timing.CpuTurn | Scheduler_And_Rides/src/Simulation.cpp:205-326 | for a holder whose work ends: over a tick its slice shrinks by one, and the CPU step frees the CPU exactly when one tick of the slice was left; then, under FCFS and round robin with somebody READY, the head of the READY queue takes over with a full slice |
| Timing.HoldTime | Scheduler_And_Rides/src/Simulation.cpp:249-265 | the holder keeps the CPU for its whole slice, working in every tick of it unless it goes to a ride, and if its work ends at all the last CPU step of the slice, no earlier one, takes it off the CPU |
| Timing.DispatchTime | Scheduler_And_Rides/src/Simulation.cpp:176-278 | exact dispatch time under FCFS and round robin, behind guests whose work ends: the guest at index k stays READY for exactly the rest of the holder's slice plus the turns of those ahead, then holds the CPU for its own turn, whose last CPU step and no earlier one takes it off |
| Timing.DispatchedEventually | Scheduler_And_Rides/src/Simulation.cpp:176-278 | under FCFS and round robin a READY guest gets the CPU at some tick if and only if neither the holder nor anybody ahead of it has a negative burst and no ride to visit |
| Timing.HoldsForGood | Scheduler_And_Rides/src/Simulation.cpp:249-277 | a guest with a negative burst and no ride to visit, once on the CPU, is there at every later tick |
| Timing.RoundRobinWait | Scheduler_And_Rides/src/Simulation.cpp:176-278 | under round robin, unless the holder or somebody ahead has a negative burst and no ride to visit, the guest at index k of the READY queue is READY in every tick until, after at most (k + 1) * quantum ticks, it is on the CPU |
| Timing.RunsToCompletion | Scheduler_And_Rides/src/Simulation.cpp:249-277 | under FCFS and priority a guest that burns CPU keeps it on consecutive ticks until it terminates with its work done |
| Timing.AfterSteps | Scheduler_And_Rides/src/Simulation.cpp:313-332 | runs compose, so the exact times hold from every tick of every run |
| Admission.AdmissionMaximal | Scheduler_And_Rides/src/Simulation.cpp:55-104 | after the admission pass no arrived guest is NEW while its amount of consecutive free cells exists anywhere; exactly the admitted guests were appended, in order of arrival time and then pid |
| Admission.AdmissionInOrder | Scheduler_And_Rides/src/Simulation.cpp:63-98 | who gets the memory: the arrived guests are served in order of arrival time and then pid, and each stays NEW exactly when no run of its size is free once those before it have been served; otherwise it gets the lowest such run |
| Admission.NobodyPassedOver | Scheduler_And_Rides/src/Simulation.cpp:63-98 | of two guests waiting for admission, if the later one gets in, so does the earlier one when it needs no more memory |
| Admission.ArrivalOrderUnique | Scheduler_And_Rides/src/Simulation.cpp:63-68 | with distinct pids there is only one arrival order of a batch, so any correct sort gives the same one |
| Ordering.ReadyOrder | Scheduler_And_Rides/src/Simulation.cpp:314-319 | when waiting is accounted, the READY queue is the old queue, then the guests admitted, by arrival time and then pid, out of the memory as the last tick left it, then the unfinished riders of the rides whose timer runs out, ride by ride in seat order |
| Ordering.ReadyRest | Scheduler_And_Rides/src/Simulation.cpp:321-326 | the rest of a tick takes guests from the READY queue only by the policy's pick and appends only a guest preempted by round robin |
| Conservation.QueuedCount | Scheduler_And_Rides/src/Simulation.cpp:107-114 | the guests that accrue waiting are exactly the places taken in the READY queue and the ride queues |
| Conservation.WaitConservation | Scheduler_And_Rides/src/Simulation.cpp:107-114 | all waiting charged to guests is the sum, over executed ticks, of all queue lengths at the accounting point |
| Conservation.CpuConservation | Scheduler_And_Rides/src/Simulation.cpp:249-277 | burst consumed by all guests is the number of working ticks, so at most the ticks executed; a TERMINATED guest with a burst of 0 or more has consumed exactly its burst |
| Conservation.RideTimeConservation | Scheduler_And_Rides/src/Simulation.cpp:123-131 | for durations of 0 or more the busy counter is, over all rides, cycles started times cycle length minus the timers, and lies between 0 and rides times ticks |
| Visits.SeatedOnce | Scheduler_And_Rides/src/Simulation.cpp:225-252 | over every run a guest with an existing ride is handed a seat exactly once before it terminates and one without never is; seats are counted as the rides and the boarding call hand them out; until its visit completes its burst is untouched |
| Visits.SeatStep | Scheduler_And_Rides/src/Simulation.cpp:123-247 | within one tick a guest is handed a seat, by all rides and the CPU step together, once if its visit begins in that tick and not at all otherwise |
| Visits.RequestOrder | Scheduler_And_Rides/include/Ride.h:74-86 | first come, first seated: of two guests of one ride, the one that has asked for it when the other has not is never seated later, after any number of ticks, for every capacity and duration |
| Visits.SeatedInRequestOrder | Scheduler_And_Rides/include/Ride.h:74-86 | the same for a fresh run, between any two of its ticks |
| Visits.NoOvertaking | Scheduler_And_Rides/include/Ride.h:74-85 | of two guests in one ride queue the one behind is never seated first, at any later tick |
| Turnaround.TurnaroundTime | Scheduler_And_Rides/src/Simulation.cpp:94-114 | `first_ready_tick` is exactly the number of ticks spent outside and not before the arrival time, `total_wait_ticks` exactly the ticks spent READY or WAITING, and with the ticks running, riding and gone they add up to the length of the run |
| Demo.DemoDeadline | Scheduler_And_Rides/src/ScenarioData.cpp:6-17 | the shipped scenario is finishable and its deadline is tick 51 |
| Demo.DemoFinishes | Scheduler_And_Rides/src/main.cpp:42-50 | 120 ticks serve all five guests under every policy and every quantum |
| Demo.MakeDemoRides | Scheduler_And_Rides/src/Simulation.cpp:342-350 | three new idle rides with the shipped capacities and durations |
| Demo.MakeBaseScenarioGuests | Scheduler_And_Rides/src/ScenarioData.cpp:6-17 | five new guests with the shipped data |
| Demo.RunCase | Scheduler_And_Rides/src/main.cpp:42-50 | building the scenario and running it for 120 ticks ends with five completed guests and one free block of memory, for any policy and any quantum argument |

## Left out

- Logging, step mode, delays, `statusString`, `stateString`, ride names and `memory_block_logged`: output with no effect on the state.
- Command-line parsing in `main.cpp`.
- `disembarked_all` and `admitted_all` in the ride phase: lists that are only written; the queues, states and counters they would describe are modelled.
- The older copy under `Theme-Park-Mini-Operating-System-Main/`, the counter in `Source/MemoryManager.cpp` and `osproject/`: superseded or easier than what is modelled.
- 32-bit overflow: integers are mathematical. Null guest pointers and `unique_ptr` ownership: guests are non-null references.
- `wait_sum_` is an integer here (a `double` in the code) and the averages are real numbers, without rounding.
- The library sort of the arrival batch is an insertion sort on values; Admission.ArrivalOrderUnique shows that with distinct pids every correct sort agrees with it. With repeated pids the code's order among equal guests is unspecified and the model keeps one of the allowed orders.
- Schedulers.Scheduler.PickNext: takes the queue as a value and returns the shortened one, where the code shortens the caller's deque in place.
- Rides.Ride.Tick: its frame names all guests of the park, not only the ride's own; the equation on the snapshot of all guests says that no other guest changes.
- Simulations.Simulation.Run: the completion clause is about a fresh simulation; a second `run` on the same object is covered by the equation with the model's run and by the kept invariant only.
- Simulations.Simulation.SetRoundRobinQuantum: the invariant is stated to hold after it for a fresh simulation, which is how the program uses it; changing the quantum or the policy in the middle of a run is not covered.
- Timing.DispatchTime: not stated for the priority policy, where a guest's dispatch depends on who arrives later; behind a guest with a negative burst and no ride it cannot hold, and Timing.DispatchedEventually says so exactly.
- Completion.BoundedService: who is served beside an unfinishable guest that does fit into memory (a ride without seats, a cycle that never ends, a negative burst without a ride) depends on the whole schedule and is not characterised.
- Conservation.RideTimeConservation: the equation is for durations of 0 or more, because a ride with a negative duration never ends its first cycle; Theorems.UtilizationIsFraction has no such condition.
