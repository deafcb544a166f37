/** The order of the READY queue: what each phase of a tick appends to it, and in which order. */
module Ordering {
  import opened Guests
  import opened RideModel
  import opened SchedulerModel
  import opened SimModel
  import opened Invariant
  import opened Preservation
  import opened Admission

  /** Those of the guests `q` that still have work to do. */
  function Unfinished(m: Table, q: seq<Guest>): seq<Guest> {
    if q == [] then []
    else (if At(m, q[0]).remaining > 0 then [q[0]] else []) + Unfinished(m, q[1..])
  }

  /** The guests that return from rides `i`, `i + 1`, ... in this tick: ride by ride, in the order of the seats of
      each ride whose timer runs out. */
  function Returners(m: Table, rides: seq<RideData>, i: nat): seq<Guest>
    requires i <= |rides|
    decreases |rides| - i
  {
    if i == |rides| then []
    else
      (if rides[i].busy && 0 <= rides[i].timer <= 1 then Unfinished(m, rides[i].riders) else [])
      + Returners(m, rides, i + 1)
  }

  lemma {:induction false} UnfinishedSame(m: Table, m': Table, q: seq<Guest>)
    requires forall g | g in q :: At(m', g).remaining == At(m, g).remaining
    ensures Unfinished(m', q) == Unfinished(m, q)
  {
    if q != [] {
      UnfinishedSame(m, m', q[1..]);
    }
  }

  lemma ReturnersFrom(m: Table, rides: seq<RideData>, i: nat)
    requires i <= |rides|
    ensures Returners(m, rides, i) ==
      if i == |rides| then [] else Unfinished(m, Leavers(rides[i])) + Returners(m, rides, i + 1)
  {
  }

  lemma {:induction false} ReturnersSame(m: Table, m': Table, rides: seq<RideData>, rides': seq<RideData>, i: nat)
    requires i <= |rides| == |rides'| && forall j | i <= j < |rides| :: rides'[j] == rides[j]
    requires forall g :: At(m', g).remaining == At(m, g).remaining
    ensures Returners(m', rides', i) == Returners(m, rides, i)
    decreases |rides| - i
  {
    if i < |rides| {
      UnfinishedSame(m, m', rides[i].riders);
      ReturnersSame(m, m', rides, rides', i + 1);
    }
  }

  lemma MovesRemaining(s: State, s': State)
    requires Moves(s, s')
    ensures forall g :: At(s'.table, g).remaining == At(s.table, g).remaining
  {
  }

  lemma SettleReady(c: Config, s: State, fl: seq<Guest>, i: nat)
    requires Inv(c, s, fl) && fl != [] && FromRide(c, fl, i)
    ensures Settle(s, c.rides[i].id, fl[0]).ready ==
            s.ready + if At(s.table, fl[0]).remaining > 0 then [fl[0]] else []
  {
    hide Queues, Settle;
    FlightMember(c, s, fl);
    RideIndexHit(c.rides, fl[0].requestedRideId);
    SettleForm(c, s, fl[0], c.rides[i].id);
  }

  lemma {:induction false} SettleAllReady(c: Config, s: State, fl: seq<Guest>, i: nat)
    requires Inv(c, s, fl) && i < |c.rides| && FromRide(c, fl, i)
    ensures SettleAll(s, c.rides[i].id, fl).ready == s.ready + Unfinished(s.table, fl)
    decreases |fl|
  {
    hide Inv, Settle, Settled, FromRide, Moves;
    SettleAllUnfolds(s, c.rides[i].id, fl);
    if fl != [] {
      var s1 := Settle(s, c.rides[i].id, fl[0]);
      FromRideTail(c, fl, i);
      SettleInv(c, s, fl, i);
      SettleReady(c, s, fl, i);
      MovesRemaining(s, s1);
      UnfinishedSame(s.table, s1.table, fl[1..]);
      SettleAllReady(c, s1, fl[1..], i);
    }
  }

  lemma RideTurnReady(c: Config, s: State, i: nat)
    requires Inv(c, s, []) && i < |c.rides|
    ensures |s.rides| == |c.rides|
    ensures RideTurn(c, s, i).ready == s.ready + Unfinished(s.table, Leavers(s.rides[i]))
  {
    hide Inv, Moves, RideTurn, SettleAll, Turned, Boarders, Next, Seat, Alight, Unfinished, FromRide, Settled;
    WaitingMembers(c, s, i);
    var s1 := Turned(c, s, i);
    TurnIsSettling(c, s, i);
    TurnedInv(c, s, i);
    TurnedParts(c, s, i);
    SettleAllReady(c, s1, Leavers(s.rides[i]), i);
    MovesRemaining(s, s1);
    UnfinishedSame(s.table, s1.table, Leavers(s.rides[i]));
  }

  lemma {:induction false} RidePhaseReady(c: Config, s: State, i: nat)
    requires Inv(c, s, []) && i <= |c.rides|
    ensures |s.rides| == |c.rides|
    ensures RidePhase(c, s, i).ready == s.ready + Returners(s.table, s.rides, i)
    decreases |c.rides| - i
  {
    hide Inv, RidePhase, RideTurn, Next, Moves, Leavers, Boarders, Unfinished, Returners;
    RidePhaseUnfolds(c, s, i);
    ReturnersFrom(s.table, s.rides, i);
    if i < |c.rides| {
      var s1 := RideTurn(c, s, i);
      RideTurnInv(c, s, i);
      RideTurnReady(c, s, i);
      MovesRemaining(s, s1);
      ReturnersSame(s.table, s1.table, s.rides, s1.rides, i + 1);
      RidePhaseReady(c, s1, i + 1);
    }
  }

  /** The READY queue when waiting is accounted: the old queue, then the guests admitted in this tick in
      arrival order, given the memory as the last tick left it, then the guests that return from
      the rides, ride by ride in seat order. */
  lemma ReadyOrder(c: Config, s: State, t: int)
    requires Inv(c, s, [])
    ensures |s.rides| == |c.rides|
    ensures var a := Admit(c, s.(ticksExecuted := t + 1), t);
      && s.ready <= a.ready
      && UpToWaits(c, s, t).ready == s.ready + Appended(s, a) + Returners(s.table, s.rides, 0)
      && (forall i, j | 0 <= i < j < |Appended(s, a)| ::
            || Appended(s, a)[i].arrivalTime < Appended(s, a)[j].arrivalTime
            || (Appended(s, a)[i].arrivalTime == Appended(s, a)[j].arrivalTime
                && Appended(s, a)[i].pid <= Appended(s, a)[j].pid))
  {
    hide Inv, Admit, RidePhase, UpToWaits, Moves, Returners;
    var s0 := s.(ticksExecuted := t + 1);
    var a := Admit(c, s0, t);
    UpToWaitsUnfolds(c, s, t);
    AdmitInv(c, s0, t);
    AdmissionMaximal(c, s0, t);
    AdmitsRides(s0, a);
    RidePhaseReady(c, a, 0);
    MovesRemaining(s0, a);
    ReturnersSame(s0.table, a.table, s.rides, a.rides, 0);
  }

  /** The rest of the tick takes guests only by dispatch, and appends only a preempted guest. */
  lemma ReadyRest(c: Config, s: State, t: int)
    requires Inv(c, s, [])
    ensures |s.rides| == |c.rides|
    ensures var w := UpToWaits(c, s, t); var b := BeforeCpu(c, s, t);
      var a := AfterCpu(c, s, t); var r := Tick(c, s, t);
      && b.ready == (if w.cpu == null then Pick(c.policy, w.ready).rest else w.ready)
      && (a.ready == b.ready
          || (c.policy == RoundRobin && b.cpu != null && a.ready == b.ready + [b.cpu] && a.cpu == null))
      && r.ready == (if a.cpu == null then Pick(c.policy, a.ready).rest else a.ready)
  {
    hide *;
    TickUnfolds(c, s, t);
    UpToWaitsInv(c, s, t);
    var w := UpToWaits(c, s, t);
    WaitMetricsInv(c, w);
    WaitMetricsReady(c, w);
    DispatchInv(c, WaitMetrics(c, w));
    DispatchReady(c, WaitMetrics(c, w));
    CpuTickReady(c, BeforeCpu(c, s, t));
    DispatchReady(c, AfterCpu(c, s, t));
  }

  lemma WaitMetricsReady(c: Config, s: State)
    ensures WaitMetrics(c, s).ready == s.ready && WaitMetrics(c, s).cpu == s.cpu
  {
  }

  lemma DispatchReady(c: Config, s: State)
    ensures s.cpu != null ==> Dispatch(c, s).ready == s.ready
    ensures Inv(c, s, []) && s.cpu == null ==> Dispatch(c, s).ready == Pick(c.policy, s.ready).rest
  {
    hide Inv;
    PickTakesOne(c.policy, s.ready);
    if Inv(c, s, []) {
      DispatchInv(c, s);
    }
  }

  lemma CpuTickReady(c: Config, s: State)
    requires Inv(c, s, [])
    ensures var r := CpuTick(c, s);
      && Inv(c, r, [])
      && (r.ready == s.ready
          || (c.policy == RoundRobin && s.cpu != null && r.ready == s.ready + [s.cpu] && r.cpu == null))
  {
    hide Inv, CpuTick;
    CpuTickForm(c, s);
  }
}
