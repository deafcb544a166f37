/** What is conserved over every run: waiting, ride time, and CPU work. Each total that the
    engine keeps, or could keep, is equated with a sum over the ticks executed. */
module Conservation {
  import opened Guests
  import opened RideModel
  import opened SchedulerModel
  import opened Sequences
  import opened SimModel
  import opened Invariant
  import opened Preservation
  import opened Completion
  import opened Timing

  // ---------------------------------------------------------------- waiting

  ghost function WaitOf(m: Table): Guest -> int {
    (g: Guest) => At(m, g).totalWait
  }

  ghost function WaitsNow(m: Table): Guest -> int {
    (g: Guest) => if Waits(At(m, g)) then 1 else 0
  }

  /** Lengths of the queues of the first `n` rides. */
  function RideQueues(rides: seq<RideData>, n: nat): int
    requires n <= |rides|
  {
    if n == 0 then 0 else RideQueues(rides, n - 1) + |rides[n - 1].waiting|
  }

  /** Number of places taken in the READY queue and in all ride queues. */
  function Queued(s: State): int {
    |s.ready| + RideQueues(s.rides, |s.rides|)
  }

  ghost function IsReady(m: Table): Guest -> int {
    (g: Guest) => if At(m, g).state == READY then 1 else 0
  }

  /** WAITING for one of the first `n` rides. */
  ghost function WaitsBelow(c: Config, m: Table, n: int): Guest -> int {
    (g: Guest) => if At(m, g).state == WAITING && RideOf(c, g) < n then 1 else 0
  }

  ghost function WaitsAt(c: Config, m: Table, n: int): Guest -> int {
    (g: Guest) => if At(m, g).state == WAITING && RideOf(c, g) == n then 1 else 0
  }

  lemma {:induction false} WaitingCount(c: Config, s: State, n: nat)
    requires Inv(c, s, []) && n <= |c.rides| == |s.rides|
    ensures Sum(c.order, WaitsBelow(c, s.table, n)) == RideQueues(s.rides, n)
  {
    hide Inv, RideOf, Shape;
    if n == 0 {
      NobodyBelowZero(c, s);
      SumZero(c.order, WaitsBelow(c, s.table, 0));
    } else {
      WaitingCount(c, s, n - 1);
      WaitingAtCount(c, s, n - 1);
      SumPlus(c.order, WaitsBelow(c, s.table, n - 1), WaitsAt(c, s.table, n - 1), WaitsBelow(c, s.table, n));
    }
  }

  lemma NobodyBelowZero(c: Config, s: State)
    requires Inv(c, s, [])
    ensures forall g | g in c.order :: WaitsBelow(c, s.table, 0)(g) == 0
  {
    hide Queues, Books, Tallied;
    forall g | g in c.order ensures WaitsBelow(c, s.table, 0)(g) == 0 {
      assert GuestOk(c, g, s.table[g]);
    }
  }

  lemma WaitingAtCount(c: Config, s: State, n: nat)
    requires Inv(c, s, []) && n < |c.rides| == |s.rides|
    ensures Sum(c.order, WaitsAt(c, s.table, n)) == |s.rides[n].waiting|
  {
    hide Books, Tallied, Locals, RidesOk;
    forall g | g in c.order ensures WaitsAt(c, s.table, n)(g) == if g in s.rides[n].waiting then 1 else 0 {
      assert Located(c, s.rides, s.ready, s.cpu, [], g, s.table[g]);
    }
    SumCounts(c.order, WaitsAt(c, s.table, n), s.rides[n].waiting);
  }

  lemma ReadyCount(c: Config, s: State)
    requires Inv(c, s, [])
    ensures Sum(c.order, IsReady(s.table)) == |s.ready|
  {
    hide Books, Tallied, Locals, RidesOk;
    forall g | g in c.order ensures IsReady(s.table)(g) == if g in s.ready then 1 else 0 {
      assert Located(c, s.rides, s.ready, s.cpu, [], g, s.table[g]);
    }
    SumCounts(c.order, IsReady(s.table), s.ready);
  }

  /** The guests in a waiting state are exactly the places taken in the queues. */
  lemma QueuedCount(c: Config, s: State)
    requires Inv(c, s, [])
    ensures Sum(c.order, WaitsNow(s.table)) == Queued(s)
  {
    hide Inv;
    RidesOkAll(c, s);
    ReadyCount(c, s);
    WaitingCount(c, s, |c.rides|);
    SumPlus(c.order, IsReady(s.table), WaitsBelow(c, s.table, |c.rides|), WaitsNow(s.table));
  }

  lemma WaitMetricsTotal(c: Config, s: State)
    requires Inv(c, s, [])
    ensures Sum(c.order, WaitOf(WaitMetrics(c, s).table)) == Sum(c.order, WaitOf(s.table)) + Queued(s)
  {
    hide Inv;
    InvParts(c, s, []);
    AtIn(c, s);
    hide Queues, Books, Tallied, Locals;
    QueuedCount(c, s);
    SumPlus(c.order, WaitOf(s.table), WaitsNow(s.table), WaitOf(WaitMetrics(c, s).table));
  }

  lemma LateWaits(c: Config, s: State, s': State)
    requires Shape(c, s) && Shape(c, s')
    requires forall g | g in s.table :: g in s'.table && s'.table[g].totalWait == s.table[g].totalWait
    ensures Sum(c.order, WaitOf(s'.table)) == Sum(c.order, WaitOf(s.table))
  {
    AtIn(c, s);
    AtIn(c, s');
    SumSame(c.order, WaitOf(s.table), WaitOf(s'.table));
  }

  /** Dispatch and the CPU step account no waiting; they only touch the work of the guest on the CPU. */
  lemma DispatchCounters(c: Config, s: State)
    requires Inv(c, s, [])
    ensures var r := Dispatch(c, s);
      && Inv(c, r, []) && r.table.Keys == s.table.Keys
      && r.rideBusyTicks == s.rideBusyTicks && r.ticksExecuted == s.ticksExecuted
      && (forall g | g in s.table ::
            r.table[g].totalWait == s.table[g].totalWait && r.table[g].remaining == s.table[g].remaining)
  {
    hide Inv, Dispatch, Pick;
    DispatchInv(c, s);
  }

  /** A CPU step that works: somebody is on the CPU, has work left and no ride to go to. */
  predicate Works(c: Config, b: State) {
    b.cpu != null && !(Pending(b.cpu, At(b.table, b.cpu)) && RideOf(c, b.cpu) >= 0) && At(b.table, b.cpu).remaining > 0
  }

  lemma CpuTickCounters(c: Config, s: State)
    requires Inv(c, s, [])
    ensures var r := CpuTick(c, s);
      && r.table.Keys == s.table.Keys
      && r.rideBusyTicks == s.rideBusyTicks && r.ticksExecuted == s.ticksExecuted
      && (forall g | g in s.table ::
            && r.table[g].totalWait == s.table[g].totalWait
            && r.table[g].remaining == s.table[g].remaining - if Works(c, s) && g == s.cpu then 1 else 0)
  {
    hide Inv, CpuTick;
    CpuTickForm(c, s);
    if s.cpu != null {
      CpuMember(c, s);
    }
  }

  /** Waiting and work over the part of the tick after the wait accounting. */
  lemma LateCounters(c: Config, s: State, t: int)
    requires Inv(c, s, [])
    ensures |s.rides| == |c.rides|
    ensures var s2 := WaitMetrics(c, UpToWaits(c, s, t)); var b := BeforeCpu(c, s, t); var r := Tick(c, s, t);
      && Inv(c, UpToWaits(c, s, t), []) && Inv(c, s2, []) && Inv(c, b, []) && Inv(c, r, [])
      && r.rideBusyTicks == s2.rideBusyTicks && r.ticksExecuted == s2.ticksExecuted
      && r.table.Keys == s2.table.Keys && b.table.Keys == s2.table.Keys
      && (forall g | g in s2.table ::
            && r.table[g].totalWait == s2.table[g].totalWait
            && r.table[g].remaining == s2.table[g].remaining - if Works(c, b) && g == b.cpu then 1 else 0)
  {
    hide *;
    TickUnfolds(c, s, t);
    TickInv(c, s, t);
    var s1 := UpToWaits(c, s, t);
    UpToWaitsInv(c, s, t);
    WaitMetricsInv(c, s1);
    DispatchCounters(c, WaitMetrics(c, s1));
    CpuTickInv(c, BeforeCpu(c, s, t));
    CpuTickCounters(c, BeforeCpu(c, s, t));
    DispatchCounters(c, AfterCpu(c, s, t));
  }

  lemma InvShape(c: Config, s: State)
    requires Inv(c, s, [])
    ensures Shape(c, s)
  {
  }

  lemma MovesCounters(s: State, s': State)
    requires Moves(s, s')
    ensures s'.table.Keys == s.table.Keys && s'.ticksExecuted == s.ticksExecuted
    ensures forall g | g in s.table ::
      s'.table[g].totalWait == s.table[g].totalWait && s'.table[g].remaining == s.table[g].remaining
  {
  }

  lemma TickWaits(c: Config, s: State, t: int)
    requires Inv(c, s, [])
    ensures |s.rides| == |c.rides|
    ensures Sum(c.order, WaitOf(Tick(c, s, t).table)) == Sum(c.order, WaitOf(s.table)) + Queued(UpToWaits(c, s, t))
  {
    hide *;
    LateCounters(c, s, t);
    var s0, s1 := s.(ticksExecuted := t + 1), UpToWaits(c, s, t);
    UpToWaitsInv(c, s, t);
    MovesCounters(s0, s1);
    InvShape(c, s);
    InvShape(c, s1);
    InvShape(c, WaitMetrics(c, s1));
    InvShape(c, Tick(c, s, t));
    LateWaits(c, s, s1);
    WaitMetricsTotal(c, s1);
    LateWaits(c, WaitMetrics(c, s1), Tick(c, s, t));
  }

  /** Queue lengths at the accounting point, summed over the first `n` ticks of the run. */
  function QueuedTicks(c: Config, n: nat): int {
    if n == 0 then 0 else QueuedTicks(c, n - 1) + Queued(UpToWaits(c, After(c, n - 1), n - 1))
  }

  /** Wait conservation: all waiting ever charged to guests is all queue length ever observed. */
  lemma {:induction false} WaitConservation(c: Config, n: nat)
    requires NoDup(c.order) && c.quantum >= 1
    ensures Sum(c.order, WaitOf(After(c, n).table)) == QueuedTicks(c, n)
  {
    hide *;
    AfterUnfolds(c, n);
    QueuedTicksUnfolds(c, n);
    if n == 0 {
      InitialWaits(c);
    } else {
      WaitConservation(c, n - 1);
      AfterInv(c, n - 1);
      TickWaits(c, After(c, n - 1), n - 1);
    }
  }

  lemma QueuedTicksUnfolds(c: Config, n: nat)
    ensures QueuedTicks(c, n) ==
      if n == 0 then 0 else QueuedTicks(c, n - 1) + Queued(UpToWaits(c, After(c, n - 1), n - 1))
  {
  }

  lemma InitialWaits(c: Config)
    ensures Sum(c.order, WaitOf(Initial(c).table)) == 0
  {
    SumZero(c.order, WaitOf(Initial(c).table));
  }

  lemma {:induction false} SumZero(q: seq<Guest>, f: Guest -> int)
    requires forall g | g in q :: f(g) == 0
    ensures Sum(q, f) == 0
  {
    if q != [] {
      SumZero(q[1..], f);
    }
  }

  // ---------------------------------------------------------------- CPU work

  ghost function Consumed(m: Table): Guest -> int {
    (g: Guest) => g.burstTime - At(m, g).remaining
  }

  lemma TickWork(c: Config, s: State, t: int)
    requires Inv(c, s, [])
    ensures |s.rides| == |c.rides|
    ensures Sum(c.order, Consumed(Tick(c, s, t).table)) ==
            Sum(c.order, Consumed(s.table)) + if Works(c, BeforeCpu(c, s, t)) then 1 else 0
  {
    hide Inv, Tick, BeforeCpu, UpToWaits, WaitMetrics, Moves, RideOf, Books, Tallied, Queues, Locals;
    LateCounters(c, s, t);
    var s1, r, b := UpToWaits(c, s, t), Tick(c, s, t), BeforeCpu(c, s, t);
    UpToWaitsInv(c, s, t);
    MovesCounters(s.(ticksExecuted := t + 1), s1);
    InvShape(c, s);
    InvShape(c, r);
    AtIn(c, s);
    AtIn(c, r);
    WaitMetricsWork(c, s1);
    if Works(c, b) {
      CpuMember(c, b);
      var h: Guest := b.cpu;
      SumUpdate(c.order, Consumed(s.table), Consumed(r.table), h);
    } else {
      SumSame(c.order, Consumed(s.table), Consumed(r.table));
    }
  }

  lemma WaitMetricsWork(c: Config, s: State)
    ensures WaitMetrics(c, s).table.Keys == s.table.Keys
    ensures forall g | g in s.table :: WaitMetrics(c, s).table[g].remaining == s.table[g].remaining
    ensures WaitMetrics(c, s).rideBusyTicks == s.rideBusyTicks && WaitMetrics(c, s).ticksExecuted == s.ticksExecuted
  {
  }

  /** Number of the first `n` ticks in which a unit of work was done. */
  function WorkTicks(c: Config, n: nat): (k: nat)
    ensures k <= n
  {
    if n == 0 then 0 else WorkTicks(c, n - 1) + if Works(c, BeforeCpu(c, After(c, n - 1), n - 1)) then 1 else 0
  }

  /** CPU conservation: the work done for all guests is the number of working ticks, so it never exceeds
      the ticks executed; whoever terminated with a burst of at least 0 has consumed exactly its burst. */
  lemma {:induction false} CpuConservation(c: Config, n: nat)
    requires NoDup(c.order) && c.quantum >= 1
    ensures Sum(c.order, Consumed(After(c, n).table)) == WorkTicks(c, n) <= n
    ensures forall g | g in c.order && At(After(c, n).table, g).state == TERMINATED && g.burstTime >= 0 ::
      Consumed(After(c, n).table)(g) == g.burstTime
  {
    hide Tick, Inv, BeforeCpu, RideOf;
    AfterInv(c, n);
    if n == 0 {
      InitialWork(c);
    } else {
      CpuConservation(c, n - 1);
      AfterInv(c, n - 1);
      TickWork(c, After(c, n - 1), n - 1);
    }
    forall g | g in c.order && At(After(c, n).table, g).state == TERMINATED && g.burstTime >= 0
      ensures Consumed(After(c, n).table)(g) == g.burstTime
    {
      InvShape(c, After(c, n));
      DoneMeansNoWork(c, After(c, n), g);
    }
  }

  lemma InitialWork(c: Config)
    ensures Sum(c.order, Consumed(Initial(c).table)) == 0
  {
    SumZero(c.order, Consumed(Initial(c).table));
  }

  // ---------------------------------------------------------------- ride time

  /** Sum of `f(j)` for `lo <= j < hi`. */
  function RangeSum(f: int -> int, lo: int, hi: int): int
    requires lo <= hi
    decreases hi - lo
  {
    if lo == hi then 0 else f(lo) + RangeSum(f, lo + 1, hi)
  }

  lemma {:induction false} RangeSumPlus(f: int -> int, g: int -> int, h: int -> int, lo: int, hi: int)
    requires lo <= hi && forall j | lo <= j < hi :: h(j) == f(j) + g(j)
    ensures RangeSum(h, lo, hi) == RangeSum(f, lo, hi) + RangeSum(g, lo, hi)
    decreases hi - lo
  {
    if lo < hi {
      RangeSumPlus(f, g, h, lo + 1, hi);
    }
  }

  lemma {:induction false} RangeSumBounds(f: int -> int, lo: int, hi: int)
    requires lo <= hi && forall j | lo <= j < hi :: 0 <= f(j) <= 1
    ensures 0 <= RangeSum(f, lo, hi) <= hi - lo
    decreases hi - lo
  {
    if lo < hi {
      RangeSumBounds(f, lo + 1, hi);
    }
  }

  ghost function BusyAt(rides: seq<RideData>): int -> int {
    (j: int) => if 0 <= j < |rides| && rides[j].busy then 1 else 0
  }

  lemma {:induction false} RangeSumSame(f: int -> int, g: int -> int, lo: int, hi: int)
    requires lo <= hi && forall j | lo <= j < hi :: f(j) == g(j)
    ensures RangeSum(f, lo, hi) == RangeSum(g, lo, hi)
    decreases hi - lo
  {
    if lo < hi {
      RangeSumSame(f, g, lo + 1, hi);
    }
  }

  /** The ride phase counts every ride that was running, once. */
  lemma {:induction false} RidePhaseBusy(c: Config, s: State, i: nat)
    requires Inv(c, s, []) && i <= |c.rides|
    ensures |s.rides| == |c.rides|
    ensures RidePhase(c, s, i).rideBusyTicks == s.rideBusyTicks + RangeSum(BusyAt(s.rides), i, |c.rides|)
    decreases |c.rides| - i
  {
    hide Inv, RidePhase, RideTurn, Next, Moves, Leavers, Boarders, RideOk;
    RidePhaseUnfolds(c, s, i);
    if i < |c.rides| {
      RideTurnInv(c, s, i);
      var s1 := RideTurn(c, s, i);
      RidePhaseBusy(c, s1, i + 1);
      RangeSumSame(BusyAt(s.rides), BusyAt(s1.rides), i + 1, |c.rides|);
    }
  }

  lemma TickBusy(c: Config, s: State, t: int)
    requires Inv(c, s, [])
    ensures |s.rides| == |c.rides|
    ensures Tick(c, s, t).rideBusyTicks == s.rideBusyTicks + RangeSum(BusyAt(s.rides), 0, |c.rides|)
    ensures Tick(c, s, t).ticksExecuted == t + 1
  {
    hide Inv, Tick, Admit, RidePhase, WaitMetrics, UpToWaits, BeforeCpu, Moves, Admits;
    var s0 := s.(ticksExecuted := t + 1);
    UpToWaitsUnfolds(c, s, t);
    AdmitInv(c, s0, t);
    AdmitsRides(s0, Admit(c, s0, t));
    RidePhaseBusy(c, Admit(c, s0, t), 0);
    UpToWaitsInv(c, s, t);
    MovesCounters(s0, UpToWaits(c, s, t));
    WaitMetricsWork(c, UpToWaits(c, s, t));
    LateCounters(c, s, t);
  }

  /** Cycles that ride `j` starts in the tick: one when its cycle ends with somebody waiting, one when
      the guest on the CPU boards it idle. */
  function StartsIn(c: Config, s: State, t: int, j: nat): int
    requires |s.rides| == |c.rides| && j < |c.rides|
  {
    (if RideModel.Ends(s.rides[j]) && s.rides[j].waiting != [] then 1 else 0)
    + (if GoesTo(c, BeforeCpu(c, s, t), j)
          && (!s.rides[j].busy || (RideModel.Ends(s.rides[j]) && s.rides[j].waiting == []))
          && c.rides[j].capacity >= 1 then 1 else 0)
  }

  /** The timer of one ride over one tick: minus the running tick, plus a cycle length per start. */
  lemma RideTimeStep(c: Config, s: State, t: int, j: nat)
    requires Inv(c, s, []) && j < |c.rides| && c.rides[j].duration >= 0
    ensures |s.rides| == |c.rides|
    ensures TimeLeft(Tick(c, s, t).rides[j]) ==
      TimeLeft(s.rides[j]) - BusyAt(s.rides)(j) + StartsIn(c, s, t, j) * AtLeast(1, c.rides[j].duration)
  {
    hide Inv, Tick, BeforeCpu, RideOf;
    TickRide(c, s, t, j);
  }

  function CyclesStarted(c: Config, n: nat, j: nat): int
    requires j < |c.rides|
  {
    if n == 0 then 0 else CyclesStarted(c, n - 1, j) + StartsIn(c, After(c, n - 1), n - 1, j)
  }

  /** Ride time spent by ride `j` in the first `n` ticks: its cycles in full, less what is left of the last one. */
  ghost function TimeSpent(c: Config, n: nat): int -> int {
    (j: int) => if 0 <= j < |c.rides| then
        CyclesStarted(c, n, j) * AtLeast(1, c.rides[j].duration) - TimeLeft(After(c, n).rides[j])
      else 0
  }

  /** A ride counts at most once a tick. */
  lemma BusyStep(c: Config, s: State, t: nat)
    requires Inv(c, s, []) && 0 <= s.rideBusyTicks <= |c.rides| * t
    ensures |s.rides| == |c.rides|
    ensures var r := Tick(c, s, t);
      0 <= r.rideBusyTicks <= |c.rides| * r.ticksExecuted && r.ticksExecuted == t + 1
  {
    hide Tick, Inv;
    TickBusy(c, s, t);
    RangeSumBounds(BusyAt(s.rides), 0, |c.rides|);
    Distribute(t, |c.rides|);
  }

  lemma {:induction false} BusyBounds(c: Config, n: nat)
    requires NoDup(c.order) && c.quantum >= 1
    ensures 0 <= After(c, n).rideBusyTicks <= |c.rides| * n && After(c, n).ticksExecuted == n
  {
    hide *;
    AfterUnfolds(c, n);
    if n == 0 {
      InitialCounters(c);
    } else {
      BusyBounds(c, n - 1);
      AfterInv(c, n - 1);
      BusyStep(c, After(c, n - 1), n - 1);
    }
  }

  lemma InitialCounters(c: Config)
    ensures Initial(c).rideBusyTicks == 0 && Initial(c).ticksExecuted == 0
  {
  }

  lemma {:induction false} RunFromBusy(c: Config, s: State, t: nat, maxTicks: int)
    requires Inv(c, s, []) && |s.rides| == |c.rides|
    requires 0 <= s.rideBusyTicks <= |c.rides| * t && s.ticksExecuted == t
    ensures var r := RunFrom(c, s, t, maxTicks);
      0 <= r.ticksExecuted && 0 <= r.rideBusyTicks <= |c.rides| * r.ticksExecuted
    decreases maxTicks - t
  {
    hide Tick, Inv, AllFinished;
    if t < maxTicks {
      TickInv(c, s, t);
      BusyStep(c, s, t);
      if !AllFinished(c, Tick(c, s, t)) {
        RunFromBusy(c, Tick(c, s, t), t + 1, maxTicks);
      }
    }
  }

  /** Ride-time conservation: the busy counter is the ride time spent, over all rides. */
  lemma {:induction false} RideTimeConservation(c: Config, n: nat)
    requires NoDup(c.order) && c.quantum >= 1
    requires forall j | 0 <= j < |c.rides| :: c.rides[j].duration >= 0
    ensures After(c, n).rideBusyTicks == RangeSum(TimeSpent(c, n), 0, |c.rides|)
    ensures 0 <= After(c, n).rideBusyTicks <= |c.rides| * n
    ensures After(c, n).ticksExecuted == n
  {
    hide *;
    BusyBounds(c, n);
    AfterUnfolds(c, n);
    if n == 0 {
      InitialCounters(c);
      IdleTime(c);
    } else {
      RideTimeConservation(c, n - 1);
      AfterInv(c, n - 1);
      TickBusy(c, After(c, n - 1), n - 1);
      TimeSpentStep(c, n);
    }
  }

  /** Over one tick the ride time spent grows by the rides that were running. */
  lemma TimeSpentStep(c: Config, n: nat)
    requires n > 0 && Inv(c, After(c, n - 1), [])
    requires forall j | 0 <= j < |c.rides| :: c.rides[j].duration >= 0
    ensures RangeSum(TimeSpent(c, n), 0, |c.rides|) ==
      RangeSum(TimeSpent(c, n - 1), 0, |c.rides|) + RangeSum(BusyAt(After(c, n - 1).rides), 0, |c.rides|)
  {
    hide After, Inv, TimeSpent, BusyAt, RangeSum;
    forall j | 0 <= j < |c.rides|
      ensures TimeSpent(c, n)(j) == TimeSpent(c, n - 1)(j) + BusyAt(After(c, n - 1).rides)(j)
    {
      TimeSpentOf(c, n, j);
    }
    RangeSumPlus(TimeSpent(c, n - 1), BusyAt(After(c, n - 1).rides), TimeSpent(c, n), 0, |c.rides|);
  }

  lemma TimeSpentOf(c: Config, n: nat, j: nat)
    requires n > 0 && Inv(c, After(c, n - 1), []) && j < |c.rides| && c.rides[j].duration >= 0
    ensures TimeSpent(c, n)(j) == TimeSpent(c, n - 1)(j) + BusyAt(After(c, n - 1).rides)(j)
  {
    hide Tick, Inv, StartsIn, TimeLeft, BusyAt;
    var s := After(c, n - 1);
    RideTimeStep(c, s, n - 1, j);
    StartProduct(CyclesStarted(c, n - 1, j), StartsIn(c, s, n - 1, j), AtLeast(1, c.rides[j].duration));
  }

  lemma StartProduct(a: int, b: int, d: int)
    ensures (a + b) * d == a * d + b * d
  {
  }

  lemma {:induction false} IdleTime(c: Config)
    ensures RangeSum(TimeSpent(c, 0), 0, |c.rides|) == 0
  {
    forall j | 0 <= j < |c.rides| ensures TimeSpent(c, 0)(j) == 0 {
      assert After(c, 0).rides[j] == IDLE;
    }
    RangeSumSame(TimeSpent(c, 0), BusyAt([]), 0, |c.rides|);
    NoBusy(0, |c.rides|);
  }

  lemma {:induction false} NoBusy(lo: int, hi: int)
    requires lo <= hi
    ensures RangeSum(BusyAt([]), lo, hi) == 0
    decreases hi - lo
  {
    if lo < hi {
      NoBusy(lo + 1, hi);
    }
  }
}
