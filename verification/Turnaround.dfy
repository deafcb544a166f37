/** Where every tick of a guest's life goes. At the point of a tick where waiting is accounted a guest is
    still outside, waiting, being served, or gone; the fields `firstReady` and `totalWait` count
    the first two exactly. */
module Turnaround {
  import opened Guests
  import opened RideModel
  import opened SchedulerModel
  import opened Sequences
  import opened SimModel
  import opened Invariant
  import opened Preservation
  import opened Timing
  import opened Conservation

  datatype Use = Outside | InQueue | Served | Gone

  function UseOf(d: GuestData): Use {
    match d.state
    case NEW => Outside
    case READY => InQueue
    case WAITING => InQueue
    case RUNNING => Served
    case RIDING => Served
    case TERMINATED => Gone
  }

  /** How many of the first `n` ticks the guest spent in this way. */
  function TicksOf(c: Config, n: nat, g: Guest, u: Use): nat {
    if n == 0 then 0
    else TicksOf(c, n - 1, g, u) + if UseOf(At(UpToWaits(c, After(c, n - 1), n - 1).table, g)) == u then 1 else 0
  }

  // ---------------------------------------------------------------- the stamp of admission

  /** The stamp of admission is kept, and nobody becomes NEW again or stops being NEW. */
  predicate SameStamp(d: GuestData, e: GuestData) {
    e.firstReady == d.firstReady && (e.state == NEW <==> d.state == NEW)
  }

  lemma AdmitOneStamp(c: Config, s: State, g: Guest, tick: int)
    requires Inv(c, s, []) && g in s.table && s.table[g].state == NEW
    ensures var r := AdmitOne(s, g, tick);
      g in r.table && (r.table[g].state != NEW ==> r.table[g].firstReady == tick)
  {
    hide Queues, Books, Tallied, RidesOk;
    assert GuestOk(c, g, s.table[g]);
  }

  lemma {:induction false} AdmitAllStamp(c: Config, s: State, batch: seq<Guest>, tick: int, g: Guest)
    requires Inv(c, s, []) && NoDup(batch) && g in s.table
    requires forall h | h in batch :: h in s.table && s.table[h].state == NEW
    ensures var r := AdmitAll(s, batch, tick);
      && g in r.table
      && (r.table[g] == s.table[g]
          || (g in batch && s.table[g].state == NEW && r.table[g].state == READY && r.table[g].firstReady == tick))
    decreases |batch|
  {
    hide Inv, AdmitOne;
    if batch != [] {
      var h, rest := batch[0], batch[1..];
      assert h in batch && batch == [h] + rest && h !in rest;
      AdmitOneInv(c, s, h, tick);
      AdmitOneStamp(c, s, h, tick);
      AdmitAllStamp(c, AdmitOne(s, h, tick), rest, tick, g);
    }
  }

  /** Up to the wait accounting, a guest keeps its stamp or is admitted now. */
  lemma UpToWaitsStamp(c: Config, s: State, t: int, g: Guest)
    requires Inv(c, s, []) && g in s.table
    ensures |s.rides| == |c.rides|
    ensures var r := UpToWaits(c, s, t);
      && g in r.table
      && (SameStamp(s.table[g], r.table[g])
          || (g.arrivalTime <= t && s.table[g].state == NEW && r.table[g].state != NEW && r.table[g].firstReady == t))
  {
    hide Inv, Admit, RidePhase, UpToWaits, RideOf, Boarders, Leavers, Settled, Moves;
    var s0 := s.(ticksExecuted := t + 1);
    var a := Admit(c, s0, t);
    UpToWaitsUnfolds(c, s, t);
    AdmitStamp(c, s0, t, g);
    AdmitInv(c, s0, t);
    AdmitsRides(s0, a);
    RidePhaseGuest(c, a, 0, g);
    RidesKeepStamp(c, a, g);
  }

  lemma AdmitStamp(c: Config, s: State, t: int, g: Guest)
    requires Inv(c, s, []) && g in s.table
    ensures var r := Admit(c, s, t);
      && g in r.table
      && (r.table[g] == s.table[g]
          || (g.arrivalTime <= t && s.table[g].state == NEW && r.table[g].state == READY && r.table[g].firstReady == t))
  {
    hide Inv, AdmitAll, Arrived, SortByArrival;
    InvParts(c, s, []);
    BatchMembers(c, s.table, t);
    AdmitAllStamp(c, s, SortByArrival(Arrived(c.order, s.table, t)), t, g);
  }

  lemma RidesKeepStamp(c: Config, s: State, g: Guest)
    requires Inv(c, s, []) && g in s.table
    ensures |s.rides| == |c.rides| && forall k | 0 <= k < |c.rides| :: RideOk(c.rides[k], s.rides[k])
    ensures SameStamp(s.table[g], AfterRides(c, s, 0, g))
  {
    hide Inv, RideOf, Boarders, Leavers;
    RidesOkAll(c, s);
    if RideOf(c, g) >= 0 {
      TurnMembers(c, s, RideOf(c, g));
    }
  }

  /** The rest of a tick keeps every stamp. */
  lemma RestStamp(c: Config, s: State, t: int, g: Guest)
    requires Inv(c, s, []) && g in s.table
    ensures |s.rides| == |c.rides|
    ensures g in UpToWaits(c, s, t).table && g in Tick(c, s, t).table
    ensures SameStamp(UpToWaits(c, s, t).table[g], Tick(c, s, t).table[g])
  {
    hide *;
    TickUnfolds(c, s, t);
    UpToWaitsStamp(c, s, t, g);
    var s1 := UpToWaits(c, s, t);
    UpToWaitsInv(c, s, t);
    WaitMetricsInv(c, s1);
    WaitMetricsStamp(c, s1, g);
    DispatchInv(c, WaitMetrics(c, s1));
    DispatchStamp(c, WaitMetrics(c, s1), g);
    CpuTickInv(c, BeforeCpu(c, s, t));
    CpuTickStamp(c, BeforeCpu(c, s, t), g);
    DispatchStamp(c, AfterCpu(c, s, t), g);
    SameStampMeans();
  }

  lemma SameStampMeans()
    ensures forall d, e :: SameStamp(d, e) <==> e.firstReady == d.firstReady && (e.state == NEW <==> d.state == NEW)
  {
  }

  lemma WaitMetricsStamp(c: Config, s: State, g: Guest)
    ensures g in s.table ==> g in WaitMetrics(c, s).table && SameStamp(s.table[g], WaitMetrics(c, s).table[g])
  {
  }

  lemma DispatchStamp(c: Config, s: State, g: Guest)
    requires Inv(c, s, [])
    ensures g in s.table ==> g in Dispatch(c, s).table && SameStamp(s.table[g], Dispatch(c, s).table[g])
  {
    hide Inv, Dispatch, Pick;
    DispatchInv(c, s);
  }

  lemma CpuTickStamp(c: Config, s: State, g: Guest)
    requires Inv(c, s, [])
    ensures g in s.table ==> g in CpuTick(c, s).table && SameStamp(s.table[g], CpuTick(c, s).table[g])
  {
    hide Inv, CpuTick;
    CpuTickForm(c, s);
  }

  // ---------------------------------------------------------------- whole runs

  /** The wait counter over one tick, for one guest. */
  lemma TickWait(c: Config, s: State, t: int, g: Guest)
    requires Inv(c, s, []) && g in s.table && g in c.order
    ensures |s.rides| == |c.rides| && g in UpToWaits(c, s, t).table && g in Tick(c, s, t).table
    ensures Tick(c, s, t).table[g].totalWait ==
            s.table[g].totalWait + if UseOf(UpToWaits(c, s, t).table[g]) == InQueue then 1 else 0
  {
    hide Inv, Tick, UpToWaits, BeforeCpu, Moves, Works;
    LateCounters(c, s, t);
    UpToWaitsInv(c, s, t);
    MovesCounters(s.(ticksExecuted := t + 1), UpToWaits(c, s, t));
  }

  lemma OneUseATick(c: Config, n: nat, g: Guest)
    ensures TicksOf(c, n, g, Outside) + TicksOf(c, n, g, InQueue)
            + TicksOf(c, n, g, Served) + TicksOf(c, n, g, Gone) == n
  {
    hide UpToWaits, After;
  }

  lemma NewIsBlank(c: Config, s: State, g: Guest)
    requires Inv(c, s, []) && g in c.order
    ensures g in s.table && (s.table[g].state == NEW ==> s.table[g] == Blank(g))
  {
    hide Queues, Books, Tallied;
    assert GuestOk(c, g, s.table[g]);
  }

  /** Every tick of a run is accounted for. A guest is outside until its stamp `firstReady` (and has none
      while it is outside), waits in a queue for exactly `totalWait` ticks, and is running, riding or
      gone in all others; so its turnaround is its waiting plus its service. */
  lemma {:induction false} TurnaroundTime(c: Config, n: nat, g: Guest)
    requires NoDup(c.order) && c.quantum >= 1 && g in c.order
    ensures g in After(c, n).table
    ensures var d := After(c, n).table[g];
      && TicksOf(c, n, g, Outside) == (if d.state == NEW then n else d.firstReady)
      && (d.state == NEW <==> d.firstReady == -1)
      && (d.state != NEW ==> 0 <= d.firstReady < n && g.arrivalTime <= d.firstReady)
      && TicksOf(c, n, g, InQueue) == d.totalWait
      && (d.state != NEW ==> n == d.firstReady + d.totalWait + TicksOf(c, n, g, Served) + TicksOf(c, n, g, Gone))
  {
    hide Tick, Inv, UpToWaits;
    AfterInv(c, n);
    NewIsBlank(c, After(c, n), g);
    OneUseATick(c, n, g);
    if n > 0 {
      var s := After(c, n - 1);
      TurnaroundTime(c, n - 1, g);
      AfterInv(c, n - 1);
      UpToWaitsStamp(c, s, n - 1, g);
      RestStamp(c, s, n - 1, g);
      TickWait(c, s, n - 1, g);
    } else {
      assert After(c, 0).table[g] == Blank(g);
    }
  }
}
