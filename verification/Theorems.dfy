/** What the invariant and the other results mean for a run of a fresh park, spelled out guest by
    guest, and the way from `After` (a number of ticks) to `Run` (the driver's loop). */
module Theorems {
  import opened Guests
  import opened MemoryModel
  import opened RideModel
  import opened SchedulerModel
  import opened Sequences
  import opened SimModel
  import opened Invariant
  import opened Preservation
  import opened Completion
  import opened Timing
  import opened Conservation

  // ---------------------------------------------------------------- state and location

  /** State determines location and location determines state: a READY guest is in the READY queue exactly
      once, the RUNNING guest is the one on the CPU, a WAITING or RIDING guest is exactly once in the
      queue or among the riders of the ride it asked for; nobody is anywhere else, so NEW and
      TERMINATED guests are nowhere. */
  lemma StateIsLocation(c: Config, n: nat, g: Guest)
    requires NoDup(c.order) && c.quantum >= 1 && g in c.order
    ensures g in After(c, n).table
    ensures var s := After(c, n); var d := s.table[g]; var k := RideOf(c, g);
      && Times(s.ready, g) == (if d.state == READY then 1 else 0)
      && (s.cpu == g <==> d.state == RUNNING)
      && (forall i | 0 <= i < |c.rides| ::
            && Times(s.rides[i].waiting, g) == (if d.state == WAITING && k == i then 1 else 0)
            && Times(s.rides[i].riders, g) == (if d.state == RIDING && k == i then 1 else 0))
      && (d.state == WAITING || d.state == RIDING ==> k >= 0 && c.rides[k].id == g.requestedRideId)
      && (d.riding <==> d.state == RIDING)
  {
    hide After, Inv, RideOf, Times;
    AfterInv(c, n);
    LocatedOnce(c, After(c, n), g);
    RideAskedFor(c, g);
  }

  lemma LocatedOnce(c: Config, s: State, g: Guest)
    requires Inv(c, s, []) && g in c.order && |s.rides| == |c.rides|
    ensures g in s.table
    ensures var d := s.table[g]; var k := RideOf(c, g);
      && Times(s.ready, g) == (if d.state == READY then 1 else 0)
      && (s.cpu == g <==> d.state == RUNNING)
      && (forall i | 0 <= i < |c.rides| ::
            && Times(s.rides[i].waiting, g) == (if d.state == WAITING && k == i then 1 else 0)
            && Times(s.rides[i].riders, g) == (if d.state == RIDING && k == i then 1 else 0))
      && (d.state == WAITING || d.state == RIDING ==> k >= 0)
      && (d.riding <==> d.state == RIDING)
  {
    hide Books, Tallied, Times, RideOf, RidesOk;
    var d := s.table[g];
    assert GuestOk(c, g, d) && Located(c, s.rides, s.ready, s.cpu, [], g, d);
    NoDupTimes(s.ready, g);
    forall i | 0 <= i < |c.rides|
      ensures Times(s.rides[i].waiting, g) == if g in s.rides[i].waiting then 1 else 0
      ensures Times(s.rides[i].riders, g) == if g in s.rides[i].riders then 1 else 0
    {
      NoDupTimes(s.rides[i].waiting, g);
      NoDupTimes(s.rides[i].riders, g);
    }
  }

  /** The state in which ride `i` ticks in tick `t`. */
  function RideTicksIn(c: Config, s: State, t: int, i: nat): (r: State)
    requires i < |c.rides| == |s.rides|
    ensures |r.rides| == |c.rides|
  {
    AdmitKeepsRides(s.(ticksExecuted := t + 1), SortByArrival(Arrived(c.order, s.table, t)), t);
    PhaseAt(c, Admit(c, s.(ticksExecuted := t + 1), t), i)
  }

  /** The code's guards against riding guests are never taken: at both dispatches the guest picked is not
      riding, and at the CPU step the holder is not riding. */
  lemma RidingGuardsDead(c: Config, n: nat)
    requires NoDup(c.order) && c.quantum >= 1
    ensures var s := After(c, n);
      var w := WaitMetrics(c, UpToWaits(c, s, n)); var b := BeforeCpu(c, s, n); var a := AfterCpu(c, s, n);
      && (w.cpu == null && w.ready != [] ==> !At(w.table, Pick(c.policy, w.ready).guest).riding)
      && (b.cpu != null ==> !At(b.table, b.cpu).riding)
      && (a.cpu == null && a.ready != [] ==> !At(a.table, Pick(c.policy, a.ready).guest).riding)
  {
    hide *;
    var s := After(c, n);
    AfterInv(c, n);
    TickUnfolds(c, s, n);
    UpToWaitsInv(c, s, n);
    WaitMetricsInv(c, UpToWaits(c, s, n));
    var w := WaitMetrics(c, UpToWaits(c, s, n));
    DispatchInv(c, w);
    CpuTickInv(c, BeforeCpu(c, s, n));
    PickedNotRiding(c, w);
    PickedNotRiding(c, AfterCpu(c, s, n));
    HolderNotRiding(c, BeforeCpu(c, s, n));
  }

  /** Nor is the guard against TERMINATED guests in a ride's queue, in any state in which a ride ticks:
      whoever is in the queue is WAITING then, also after the riders have alighted. */
  lemma QueueGuardDead(c: Config, n: nat, i: nat, g: Guest)
    requires NoDup(c.order) && c.quantum >= 1 && i < |c.rides|
    ensures var p := RideTicksIn(c, After(c, n), n, i);
      g in p.rides[i].waiting ==>
        && At(p.table, g).state == WAITING
        && At(Alight(p.table, p.rides[i].riders), g).state == WAITING
  {
    hide Inv, After, Admit, PhaseAt, Alight, RideOf;
    var s0 := After(c, n).(ticksExecuted := n + 1);
    AfterInv(c, n);
    UpToWaitsUnfolds(c, After(c, n), n);
    AdmitInv(c, s0, n);
    PhaseAtInv(c, Admit(c, s0, n), i);
    var p := PhaseAt(c, Admit(c, s0, n), i);
    WaitingRide(c, p, i, g);
    AlightState(p.table, p.rides[i].riders, g);
  }

  lemma AlightState(m: Table, gs: seq<Guest>, g: Guest)
    ensures g in m ==> g in Alight(m, gs) && Alight(m, gs)[g].state == m[g].state
  {
  }

  lemma PickedNotRiding(c: Config, s: State)
    requires Inv(c, s, [])
    ensures s.ready != [] ==>
      Pick(c.policy, s.ready).guest != null && !At(s.table, Pick(c.policy, s.ready).guest).riding
  {
    hide Inv, Pick;
    if s.ready != [] {
      PickTakesOne(c.policy, s.ready);
      ReadyMember(c, s, Pick(c.policy, s.ready).guest);
    }
  }

  lemma HolderNotRiding(c: Config, s: State)
    requires Inv(c, s, [])
    ensures s.cpu != null ==> !At(s.table, s.cpu).riding
  {
    hide Inv;
    if s.cpu != null {
      CpuMember(c, s);
    }
  }

  /** The rides at every tick boundary: an idle ride is empty and, if it can seat anyone, nobody waits for it;
      a busy one carries between 1 and `capacity` guests and its timer is within its cycle. */
  lemma RidesWellFormed(c: Config, n: nat, i: nat)
    requires NoDup(c.order) && c.quantum >= 1 && i < |c.rides|
    ensures var r := After(c, n).rides[i]; var spec := c.rides[i];
      && (!r.busy ==> r.riders == [] && r.timer == 0 && (spec.capacity >= 1 ==> r.waiting == []))
      && (r.busy ==> 1 <= |r.riders| <= spec.capacity && (spec.duration >= 1 ==> 1 <= r.timer <= spec.duration))
  {
    hide After, Inv;
    AfterInv(c, n);
    RidesOkAll(c, After(c, n));
  }

  /** The slice counter: 0 without round robin and for everybody off the CPU who is still inside, and below the
      quantum on the CPU. */
  lemma SliceCounter(c: Config, n: nat, g: Guest)
    requires NoDup(c.order) && c.quantum >= 1 && g in c.order
    ensures g in After(c, n).table
    ensures var d := After(c, n).table[g];
      && (c.policy != RoundRobin ==> d.sliceUsed == 0)
      && (d.state == RUNNING && c.policy == RoundRobin ==> 0 <= d.sliceUsed < c.quantum)
      && (d.state != RUNNING && d.state != TERMINATED ==> d.sliceUsed == 0)
  {
    hide After, Inv;
    AfterInv(c, n);
    SliceOk(c, After(c, n), g);
  }

  lemma SliceOk(c: Config, s: State, g: Guest)
    requires Inv(c, s, []) && g in c.order
    ensures g in s.table && GuestOk(c, g, s.table[g])
  {
    hide Queues, Books, Tallied;
  }

  // ---------------------------------------------------------------- memory

  /** Who holds memory, and which. A guest holds memory from admission to termination; the live intervals
      are exactly those of the holders that asked for a positive amount, each with its own start and
      with the size asked for; they do not overlap; and `used` is the sum of those amounts. */
  lemma MemoryOwnership(c: Config, n: nat)
    requires NoDup(c.order) && c.quantum >= 1
    ensures var s := After(c, n); var live := Live(s.memory.blocks);
      && s.table.Keys == (set g | g in c.order)
      && ValidMemory(s.memory) && s.memory.total == 1024
      && (forall g | g in c.order ::
            s.table[g].memoryAllocated <==> s.table[g].state in {READY, RUNNING, WAITING, RIDING})
      && (forall g | g in c.order && Holds(g, s.table[g]) ::
            && s.table[g].memoryStart in live && live[s.table[g].memoryStart] == g.memoryRequirement
            && 0 <= s.table[g].memoryStart && s.table[g].memoryStart + g.memoryRequirement <= 1024)
      && (forall g | g in c.order ::
            && (!s.table[g].memoryAllocated ==> s.table[g].memoryStart == -1)
            && (s.table[g].memoryAllocated && g.memoryRequirement <= 0 ==> s.table[g].memoryStart == 0))
      && (forall g, h | g in c.order && h in c.order && g != h && Holds(g, s.table[g]) && Holds(h, s.table[h]) ::
            || s.table[g].memoryStart + g.memoryRequirement <= s.table[h].memoryStart
            || s.table[h].memoryStart + h.memoryRequirement <= s.table[g].memoryStart)
      && (forall x | x in live :: exists g | g in c.order :: Owns(s.table, g, x))
      && s.memory.used == Sum(c.order, Footprint(s.table))
  {
    hide After, Inv, GuestOk, Holds, Footprint, Owns, ValidMemory;
    AfterInv(c, n);
    var s := After(c, n);
    InvParts(c, s, []);
    hide Locals, Queues, Tallied, RidesOk;
    forall g | g in c.order
      ensures s.table[g].memoryAllocated <==> s.table[g].state in {READY, RUNNING, WAITING, RIDING}
      ensures !s.table[g].memoryAllocated ==> s.table[g].memoryStart == -1
      ensures s.table[g].memoryAllocated && g.memoryRequirement <= 0 ==> s.table[g].memoryStart == 0
    {
      HoldsFromAdmissionToEnd(c, s, g);
    }
    LiveBoundsAll(s.memory);
    forall g, h | g in c.order && h in c.order && g != h && Holds(g, s.table[g]) && Holds(h, s.table[h])
      ensures s.table[g].memoryStart + g.memoryRequirement <= s.table[h].memoryStart
           || s.table[h].memoryStart + h.memoryRequirement <= s.table[g].memoryStart
    {
      LiveDisjoint(s.memory.blocks, 0, s.memory.total, s.table[g].memoryStart, s.table[h].memoryStart);
    }
  }

  lemma HoldsFromAdmissionToEnd(c: Config, s: State, g: Guest)
    requires Inv(c, s, []) && g in c.order
    ensures g in s.table
    ensures s.table[g].memoryAllocated <==> s.table[g].state in {READY, RUNNING, WAITING, RIDING}
    ensures !s.table[g].memoryAllocated ==> s.table[g].memoryStart == -1
    ensures s.table[g].memoryAllocated && g.memoryRequirement <= 0 ==> s.table[g].memoryStart == 0
  {
    hide Queues, Books, Tallied;
    assert GuestOk(c, g, s.table[g]);
  }

  lemma LiveBoundsAll(m: Memory)
    requires ValidMemory(m)
    ensures Tiles(m.blocks, 0, m.total)
    ensures forall x | x in Live(m.blocks) :: 0 <= x && 0 < Live(m.blocks)[x] && x + Live(m.blocks)[x] <= m.total
  {
    LiveBounds(m.blocks, 0, m.total);
  }

  lemma {:induction false} LiveDisjoint(bs: seq<Block>, lo: int, hi: int, x: int, y: int)
    requires Tiles(bs, lo, hi) && x in Live(bs) && y in Live(bs) && x != y
    ensures x + Live(bs)[x] <= y || y + Live(bs)[y] <= x
  {
    var next := lo + bs[0].size;
    LiveBounds(bs[1..], next, hi);
    if x in Live(bs[1..]) && y in Live(bs[1..]) {
      LiveDisjoint(bs[1..], next, hi, x, y);
    }
  }

  /** A guest that leaves gives back its own interval and nobody else's; one that asked for nothing
      (and was told start 0) gives back nothing. It holds at the CPU step, and in the ride phase with
      guests in flight. */
  lemma LeavingFreesOwn(c: Config, s: State, fl: seq<Guest>, g: Guest)
    requires Inv(c, s, fl) && g in s.table && s.table[g].memoryAllocated
    ensures var r := Release(s.memory, s.table[g].memoryStart, g.memoryRequirement);
      && (g.memoryRequirement <= 0 ==> r == s.memory)
      && (g.memoryRequirement > 0 ==> Live(r.blocks) == Live(s.memory.blocks) - {s.table[g].memoryStart})
      && (forall h | h in s.table && h != g && Holds(h, s.table[h]) ::
            && s.table[h].memoryStart in Live(r.blocks)
            && Live(r.blocks)[s.table[h].memoryStart] == h.memoryRequirement)
  {
    hide Locals, Queues, Tallied, RidesOk, Release, ValidMemory;
    ReleaseRefinesCellsIf(s.memory, s.table[g].memoryStart, g.memoryRequirement);
  }

  // ---------------------------------------------------------------- counters

  /** `completed` is the number of TERMINATED guests and `waitSum` the waiting of exactly those; when
      everybody has left, `waitSum` is all the queue length ever observed. */
  lemma Tally(c: Config, n: nat)
    requires NoDup(c.order) && c.quantum >= 1
    ensures After(c, n).completed == Sum(c.order, Done(After(c, n).table))
    ensures After(c, n).waitSum == Sum(c.order, DoneWait(After(c, n).table))
    ensures AllFinished(c, After(c, n)) ==>
      After(c, n).completed == |c.order| && After(c, n).waitSum == QueuedTicks(c, n)
  {
    hide After, Inv, QueuedTicks, Locals, Queues, Books, Shape, RidesOk;
    AfterInv(c, n);
    InvParts(c, After(c, n), []);
    if AllFinished(c, After(c, n)) {
      FinishedState(c, After(c, n));
      WaitConservation(c, n);
      SumSame(c.order, DoneWait(After(c, n).table), WaitOf(After(c, n).table));
    }
  }

  /** Once everybody has left, the mean wait is the queue length observed over the run, per guest. */
  lemma MeanWaitIsQueueLength(c: Config, n: nat)
    requires NoDup(c.order) && c.quantum >= 1
    ensures AllFinished(c, After(c, n)) ==> MeanWait(After(c, n)) * |c.order| as real == QueuedTicks(c, n) as real
  {
    hide After, QueuedTicks, AllFinished, MeanWait;
    Tally(c, n);
    if |c.order| == 0 {
      NobodyWaits(c, n);
    }
  }

  lemma NobodyWaits(c: Config, n: nat)
    requires NoDup(c.order) && c.quantum >= 1 && c.order == []
    ensures QueuedTicks(c, n) == 0
  {
    WaitConservation(c, n);
  }

  /** Utilisation lies in [0, 1]: a ride counts at most once a tick. */
  lemma UtilizationIsFraction(c: Config, n: nat)
    requires NoDup(c.order) && c.quantum >= 1
    ensures 0.0 <= Utilization(|c.rides|, After(c, n)) <= 1.0
  {
    hide After;
    BusyBounds(c, n);
  }

  // ---------------------------------------------------------------- runs

  /** The driver stops after `n` ticks: at the first tick that leaves everybody finished, or at the limit. */
  ghost predicate StopsAfter(c: Config, maxTicks: int, n: nat) {
    && n <= AtLeast(0, maxTicks)
    && (forall k: nat | 1 <= k < n :: !AllFinished(c, After(c, k)))
    && (n < maxTicks ==> n >= 1 && AllFinished(c, After(c, n)))
  }

  lemma {:induction false} RunFromAfter(c: Config, t: nat, maxTicks: int) returns (n: nat)
    requires t <= AtLeast(0, maxTicks) && forall k: nat | 1 <= k <= t :: !AllFinished(c, After(c, k))
    ensures StopsAfter(c, maxTicks, n) && RunFrom(c, After(c, t), t, maxTicks) == After(c, n)
    decreases maxTicks - t
  {
    hide Tick, AllFinished;
    if t >= maxTicks {
      n := t;
    } else if AllFinished(c, After(c, t + 1)) {
      n := t + 1;
    } else {
      n := RunFromAfter(c, t + 1, maxTicks);
    }
  }

  /** Every fresh run is a tick boundary: all that is proved of `After` is proved of what `run` leaves behind. */
  lemma RunIsAfter(c: Config, maxTicks: int)
    ensures exists n: nat :: StopsAfter(c, maxTicks, n) && Run(c, Initial(c), maxTicks) == After(c, n)
  {
    hide StopsAfter, RunFrom;
    RunUnfolds(c, maxTicks);
    var n := RunFromAfter(c, 0, maxTicks);
  }

  /** Liveness without a bound: at some tick everybody has left, if and only if everybody is finishable. */
  lemma EventuallyFinished(c: Config)
    requires NoDup(c.order) && c.quantum >= 1
    ensures (exists n: nat :: AllFinished(c, After(c, n))) <==> AllFinishable(c)
  {
    hide After, AllFinished, Inv, Finishable, Deadline, Run;
    if AllFinishable(c) {
      BoundedCompletion(c, Deadline(c));
      RunIsAfter(c, Deadline(c));
    }
    if n: nat :| AllFinished(c, After(c, n)) {
      AfterInv(c, n);
      if !AllFinishable(c) {
        var g :| g in c.order && !Finishable(c, g);
        OneNeverFinishes(c, After(c, n), g);
      }
    }
  }

  /** Under the priority policy an idle CPU goes to the most urgent READY guest: lowest priority number, then
      earliest arrival, then smallest pid. */
  lemma MostUrgentRuns(c: Config, s: State)
    requires Inv(c, s, []) && c.policy == Priority && s.cpu == null && s.ready != []
    ensures var r := Dispatch(c, s);
      && r.cpu != null && r.cpu in s.ready
      && forall g | g in s.ready ::
           || r.cpu.priority < g.priority
           || (r.cpu.priority == g.priority && r.cpu.arrivalTime < g.arrivalTime)
           || (r.cpu.priority == g.priority && r.cpu.arrivalTime == g.arrivalTime && r.cpu.pid <= g.pid)
  {
    hide Inv, Dispatch, Pick;
    DispatchInv(c, s);
    PickMostUrgent(s.ready);
  }

  /** Work conservation over a tick: when a tick ends with somebody READY, the CPU is in use. */
  lemma NoIdleCpu(c: Config, s: State, t: int)
    requires Inv(c, s, [])
    ensures |s.rides| == |c.rides|
    ensures var r := Tick(c, s, t);
      && (r.ready != [] ==> r.cpu != null && r.cpu in r.table && r.table[r.cpu].state == RUNNING)
      && (r.cpu == null ==> forall g | g in r.table :: r.table[g].state != READY && r.table[g].state != RUNNING)
  {
    hide Inv, Tick;
    RidesOkAll(c, s);
    TickInv(c, s, t);
    var r := Tick(c, s, t);
    if r.cpu != null {
      CpuMember(c, r);
    } else {
      IdleMeansNobody(c, r);
    }
  }

  lemma IdleMeansNobody(c: Config, s: State)
    requires Inv(c, s, [])
    ensures s.cpu == null && s.ready == [] ==>
      forall g | g in s.table :: s.table[g].state != READY && s.table[g].state != RUNNING
  {
    hide Books, Tallied, Locals, RidesOk;
    if s.cpu == null && s.ready == [] {
      forall g | g in s.table ensures s.table[g].state != READY && s.table[g].state != RUNNING {
        assert Located(c, s.rides, s.ready, s.cpu, [], g, s.table[g]);
      }
    }
  }
}
