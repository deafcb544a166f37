/** Visits: every guest with an existing ride is seated exactly once, and the guests of one ride are seated
    in the order in which they asked for it. */
module Visits {
  import opened Guests
  import opened RideModel
  import opened SchedulerModel
  import opened Sequences
  import opened SimModel
  import opened Invariant
  import opened Preservation
  import opened Completion
  import opened Timing
  import opened Conservation

  /** A guest's visit has begun: it is on its ride, or has been. */
  predicate Visited(d: GuestData) {
    d.state == RIDING || d.visitCompleted
  }

  /** Over one tick a visit can begin, but not without the guest being on its ride at the end of the
      tick, and a visit that has begun is not undone. */
  lemma VisitStep(c: Config, s: State, t: int, g: Guest)
    requires Inv(c, s, []) && g in s.table && RideOf(c, g) >= 0
    ensures |s.rides| == |c.rides| && g in Tick(c, s, t).table
    ensures var d, e := s.table[g], Tick(c, s, t).table[g];
      && (Visited(d) ==> Visited(e))
      && (!Visited(d) ==> !e.visitCompleted)
      && (d.visitCompleted ==> e.visitCompleted && e.state != RIDING)
  {
    hide Inv, Tick, UpToWaits, RideOf, Moves;
    TickInv(c, s, t);
    LateVisit(c, s, t, g);
    if s.table[g].visitCompleted {
      TickKeepsVisit(c, s, t, g);
    }
    NotRidingTwice(c, Tick(c, s, t), g);
    if s.table[g].state == RIDING {
      UpToWaitsGuest(c, s, t, g);
      RestOfTickGuest(c, s, t, g);
    } else if !s.table[g].visitCompleted {
      NoVisitWithoutRiding(c, s, t, g);
    }
  }

  lemma NotRidingTwice(c: Config, s: State, g: Guest)
    requires Inv(c, s, []) && g in s.table
    ensures s.table[g].visitCompleted ==> s.table[g].state != RIDING
    ensures RideOf(c, g) < 0 ==> s.table[g].state != RIDING
  {
    hide Queues, Books, Tallied;
    assert GuestOk(c, g, s.table[g]);
  }

  lemma NoVisitWithoutRiding(c: Config, s: State, t: int, g: Guest)
    requires Inv(c, s, []) && g in s.table && RideOf(c, g) >= 0
    requires s.table[g].state != RIDING && !s.table[g].visitCompleted
    ensures |s.rides| == |c.rides| && g in Tick(c, s, t).table && !Tick(c, s, t).table[g].visitCompleted
  {
    hide *;
    TickUnfolds(c, s, t);
    var s1 := UpToWaits(c, s, t);
    UpToWaitsInv(c, s, t);
    UpToWaitsUnvisited(c, s, t, g);
    WaitMetricsInv(c, s1);
    WaitMetricsVisit(c, s1, g);
    SameVisitMeans();
    DispatchInv(c, WaitMetrics(c, s1));
    DispatchVisit(c, WaitMetrics(c, s1), g);
    CpuTickInv(c, BeforeCpu(c, s, t));
    CpuTickUnvisited(c, BeforeCpu(c, s, t), g);
    CpuTickVisit(c, BeforeCpu(c, s, t), g);
    DispatchVisit(c, AfterCpu(c, s, t), g);
  }

  lemma UpToWaitsUnvisited(c: Config, s: State, t: int, g: Guest)
    requires Inv(c, s, []) && g in s.table && s.table[g].state != RIDING && !s.table[g].visitCompleted
    ensures |s.rides| == |c.rides| && g in UpToWaits(c, s, t).table && !UpToWaits(c, s, t).table[g].visitCompleted
  {
    hide Inv, Admit, RidePhase, UpToWaits, RideOf, Boarders, Settled, Moves;
    var s0 := s.(ticksExecuted := t + 1);
    UpToWaitsUnfolds(c, s, t);
    AdmitInv(c, s0, t);
    var s1 := Admit(c, s0, t);
    AdmitsRides(s0, s1);
    RidePhaseGuest(c, s1, 0, g);
    if RideOf(c, g) >= 0 {
      LeaverRides(c, s1, RideOf(c, g), g);
    }
  }

  lemma CpuTickUnvisited(c: Config, s: State, g: Guest)
    requires Inv(c, s, []) && RideOf(c, g) >= 0
    ensures g in s.table && !s.table[g].visitCompleted ==>
      g in CpuTick(c, s).table && !CpuTick(c, s).table[g].visitCompleted
  {
    hide Inv, CpuTick;
    CpuTickForm(c, s);
  }

  /** How often the rides with index below `n` hand the guest a seat in the ride phase that starts in `s`. */
  function SeatedByRides(c: Config, s: State, n: nat, g: Guest): nat
    requires n <= |s.rides| == |c.rides|
  {
    if n == 0 then 0
    else
      var p := PhaseAt(c, s, n - 1);
      SeatedByRides(c, s, n - 1, g) + Times(RideTick(c.rides[n - 1], p.rides[n - 1], p.table).admitted, g)
  }

  /** The CPU step that starts in `b` seats the guest. */
  predicate SeatedFromCpu(c: Config, b: State, g: Guest)
    requires |b.rides| == |c.rides|
  {
    b.cpu == g && ToRide(c, g, At(b.table, g)) && !At(b.table, g).riding
    && TryBoard(c.rides[RideOf(c, g)], b.rides[RideOf(c, g)], b.table, g).boarded
  }

  /** How often the guest is handed a seat in one tick. */
  function SeatsTaken(c: Config, s: State, t: int, g: Guest): nat
    requires |s.rides| == |c.rides|
  {
    var s0 := s.(ticksExecuted := t + 1);
    AdmitKeepsRides(s0, SortByArrival(Arrived(c.order, s.table, t)), t);
    SeatedByRides(c, Admit(c, s0, t), |c.rides|, g) + if SeatedFromCpu(c, BeforeCpu(c, s, t), g) then 1 else 0
  }

  /** The guest is among those who board its ride in the ride phase. */
  predicate BoardsInPhase(c: Config, rides: seq<RideData>, g: Guest)
    requires |rides| == |c.rides| && forall k | 0 <= k < |c.rides| :: RideOk(c.rides[k], rides[k])
  {
    RideOf(c, g) >= 0 && g in Boarders(c.rides[RideOf(c, g)], rides[RideOf(c, g)])
  }

  lemma BoardersOnce(c: Config, s: State, i: nat, g: Guest)
    requires Inv(c, s, []) && i < |c.rides|
    ensures |s.rides| == |c.rides| && RideOk(c.rides[i], s.rides[i])
    ensures var admitted := RideTick(c.rides[i], s.rides[i], s.table).admitted;
      && admitted == Boarders(c.rides[i], s.rides[i])
      && Times(admitted, g) == (if g in admitted then 1 else 0)
      && (g in admitted ==> RideOf(c, g) == i)
  {
    hide Inv, RideOf, RideTick;
    WaitingMembers(c, s, i);
    TickEffect(c.rides[i], s.rides[i], s.table);
    WaitingRide(c, s, i, g);
    QueueDistinct(c, s, i);
    NoDupSplit(s.rides[i].waiting, SeatsFilled(c.rides[i], s.rides[i]));
    NoDupTimes(Boarders(c.rides[i], s.rides[i]), g);
  }

  lemma QueueDistinct(c: Config, s: State, i: nat)
    requires Inv(c, s, []) && i < |c.rides|
    ensures |s.rides| == |c.rides| && NoDup(s.rides[i].waiting)
  {
  }

  lemma {:induction false} SeatedByRidesOnce(c: Config, s: State, n: nat, g: Guest)
    requires Inv(c, s, []) && n <= |c.rides|
    ensures |s.rides| == |c.rides| && forall k | 0 <= k < |c.rides| :: RideOk(c.rides[k], s.rides[k])
    ensures SeatedByRides(c, s, n, g) == if BoardsInPhase(c, s.rides, g) && RideOf(c, g) < n then 1 else 0
  {
    hide Inv, RideOf, RideTick, PhaseAt, Times, Boarders;
    RidesOkAll(c, s);
    if n > 0 {
      SeatedByRidesOnce(c, s, n - 1, g);
      PhaseAtInv(c, s, n - 1);
      BoardersOnce(c, PhaseAt(c, s, n - 1), n - 1, g);
    }
  }

  /** Up to the wait accounting a guest gets on a ride only by boarding in the ride phase. */
  lemma PhaseSeat(c: Config, s: State, t: int, g: Guest)
    requires Inv(c, s, []) && g in s.table
    ensures |s.rides| == |c.rides| && forall k | 0 <= k < |c.rides| :: RideOk(c.rides[k], s.rides[k])
    ensures var r := UpToWaits(c, s, t); var d := s.table[g];
      && g in r.table
      && (BoardsInPhase(c, s.rides, g) ==> d.state == WAITING && !d.visitCompleted && r.table[g].state == RIDING)
      && (!BoardsInPhase(c, s.rides, g) && r.table[g].state == RIDING ==> d.state == RIDING)
      && (d.state == RIDING ==> r.table[g].state == RIDING || r.table[g].visitCompleted)
      && (d.visitCompleted ==> r.table[g].visitCompleted)
      && (d.state == WAITING && !BoardsInPhase(c, s.rides, g) ==> r.table[g] == d)
  {
    hide Inv, Admit, RidePhase, UpToWaits, RideOf, Boarders, Moves;
    var s0 := s.(ticksExecuted := t + 1);
    var a := Admit(c, s0, t);
    RidesOkAll(c, s);
    UpToWaitsUnfolds(c, s, t);
    UpToWaitsInv(c, s, t);
    MovesVisit(s0, UpToWaits(c, s, t), g);
    AdmitInv(c, s0, t);
    AdmitsRides(s0, a);
    RidePhaseGuest(c, a, 0, g);
    if RideOf(c, g) >= 0 {
      SeatedElsewhere(c, a, RideOf(c, g), g);
      LeaverRides(c, a, RideOf(c, g), g);
      BoarderState(c, a, RideOf(c, g), g);
    }
  }

  lemma BoarderState(c: Config, s: State, i: nat, g: Guest)
    requires Inv(c, s, []) && i < |c.rides|
    ensures |s.rides| == |c.rides| && RideOk(c.rides[i], s.rides[i])
    ensures g in Boarders(c.rides[i], s.rides[i]) ==>
      g in s.table && s.table[g].state == WAITING && !s.table[g].visitCompleted
  {
    hide Inv, RideOf;
    WaitingMembers(c, s, i);
    WaitingRide(c, s, i, g);
    if g in Boarders(c.rides[i], s.rides[i]) {
      assert g in s.rides[i].waiting;
    }
  }

  /** Wait accounting and the first dispatch put nobody on a ride and take nobody off. */
  lemma BeforeCpuSeat(c: Config, s: State, t: int, g: Guest)
    requires Inv(c, s, []) && g in s.table
    ensures |s.rides| == |c.rides|
    ensures var r := UpToWaits(c, s, t); var b := BeforeCpu(c, s, t);
      && g in r.table && g in b.table && Inv(c, b, [])
      && b.table[g].visitCompleted == r.table[g].visitCompleted
      && (r.table[g].state != READY ==> b.table[g].state == r.table[g].state)
      && (r.table[g].state == READY ==> b.table[g].state == READY || b.table[g].state == RUNNING)
  {
    hide *;
    TickUnfolds(c, s, t);
    LateVisit(c, s, t, g);
    var s1 := UpToWaits(c, s, t);
    UpToWaitsInv(c, s, t);
    WaitMetricsInv(c, s1);
    WaitMetricsVisit(c, s1, g);
    SameVisitMeans();
    DispatchInv(c, WaitMetrics(c, s1));
    DispatchVisit(c, WaitMetrics(c, s1), g);
    DispatchStates(c, WaitMetrics(c, s1), g);
  }

  lemma DispatchStates(c: Config, s: State, g: Guest)
    requires Inv(c, s, [])
    ensures g in s.table && s.table[g].state == READY ==>
      g in Dispatch(c, s).table && (Dispatch(c, s).table[g].state == READY || Dispatch(c, s).table[g].state == RUNNING)
  {
    hide Inv, Dispatch, Pick;
    DispatchInv(c, s);
  }

  /** The CPU step and the second dispatch put a guest on a ride only by seating it from the CPU. */
  lemma CpuSeat(c: Config, s: State, t: int, g: Guest)
    requires Inv(c, s, []) && g in s.table
    ensures |s.rides| == |c.rides|
    ensures var b := BeforeCpu(c, s, t); var r := Tick(c, s, t);
      && g in b.table && g in r.table
      && (r.table[g].state == RIDING <==> b.table[g].state == RIDING || SeatedFromCpu(c, b, g))
      && (SeatedFromCpu(c, b, g) ==> b.table[g].state == RUNNING && !b.table[g].visitCompleted)
  {
    hide *;
    TickUnfolds(c, s, t);
    BeforeCpuSeat(c, s, t, g);
    CpuStepSeat(c, BeforeCpu(c, s, t), g);
    DispatchStates(c, AfterCpu(c, s, t), g);
    DispatchVisit(c, AfterCpu(c, s, t), g);
  }

  lemma CpuStepSeat(c: Config, s: State, g: Guest)
    requires Inv(c, s, []) && g in s.table
    ensures |s.rides| == |c.rides|
    ensures var r := CpuTick(c, s);
      && Inv(c, r, []) && g in r.table
      && (r.table[g].state == RIDING <==> s.table[g].state == RIDING || SeatedFromCpu(c, s, g))
      && (SeatedFromCpu(c, s, g) ==> s.table[g].state == RUNNING && !s.table[g].visitCompleted)
  {
    hide Inv, CpuTick, Burnt, TryBoard, RideOf;
    CpuTickForm(c, s);
    RidesOkAll(c, s);
    if s.cpu == g {
      if RideOf(c, g) >= 0 {
        BoardEffect(c.rides[RideOf(c, g)], s.rides[RideOf(c, g)], s.table, g);
      }
      BurntState(c, AtWork(c, g, s.table[g]));
    }
  }

  /** A guest is handed a seat in a tick exactly when its visit begins in that tick, and then once. */
  lemma SeatStep(c: Config, s: State, t: int, g: Guest)
    requires Inv(c, s, []) && g in s.table
    ensures |s.rides| == |c.rides| && g in Tick(c, s, t).table
    ensures SeatsTaken(c, s, t, g) ==
      if RideOf(c, g) >= 0 && !Visited(s.table[g]) && Visited(Tick(c, s, t).table[g]) then 1 else 0
  {
    hide Inv, Tick, UpToWaits, BeforeCpu, Admit, RideOf, SeatedByRides, SeatedFromCpu, BoardsInPhase, Moves;
    var s0 := s.(ticksExecuted := t + 1);
    UpToWaitsUnfolds(c, s, t);
    AdmitInv(c, s0, t);
    AdmitsRides(s0, Admit(c, s0, t));
    SeatedByRidesOnce(c, Admit(c, s0, t), |c.rides|, g);
    PhaseSeat(c, s, t, g);
    BeforeCpuSeat(c, s, t, g);
    CpuSeat(c, s, t, g);
    if RideOf(c, g) >= 0 {
      VisitStep(c, s, t, g);
    } else {
      NoRideNoSeat(c, s.rides, BeforeCpu(c, s, t), g);
    }
  }

  lemma NoRideNoSeat(c: Config, rides: seq<RideData>, b: State, g: Guest)
    requires |rides| == |b.rides| == |c.rides| && forall k | 0 <= k < |c.rides| :: RideOk(c.rides[k], rides[k])
    requires RideOf(c, g) < 0
    ensures !BoardsInPhase(c, rides, g) && !SeatedFromCpu(c, b, g)
  {
  }

  /** How often the guest was handed a seat in the first `n` ticks. */
  function Seatings(c: Config, n: nat, g: Guest): nat {
    if n == 0 then 0 else Seatings(c, n - 1, g) + SeatsTaken(c, After(c, n - 1), n - 1, g)
  }

  /** Exactly once: a guest has been handed a seat once if its visit has begun and never otherwise; so whoever
      terminated was seated exactly once if its ride exists, and never if not. */
  lemma {:induction false} SeatedOnce(c: Config, n: nat, g: Guest)
    requires NoDup(c.order) && c.quantum >= 1 && g in c.order
    ensures g in After(c, n).table
    ensures var d := After(c, n).table[g];
      && Seatings(c, n, g) == (if RideOf(c, g) >= 0 && Visited(d) then 1 else 0)
      && (d.state == TERMINATED ==> Seatings(c, n, g) == if RideOf(c, g) >= 0 then 1 else 0)
      && (RideOf(c, g) >= 0 && !d.visitCompleted ==> d.remaining == g.burstTime)
  {
    hide Tick, Inv, RideOf, SeatsTaken;
    AfterInv(c, n);
    InvShape(c, After(c, n));
    VisitData(c, After(c, n), g);
    if n == 0 {
      assert After(c, 0).table[g] == Blank(g);
    } else {
      SeatedOnce(c, n - 1, g);
      AfterInv(c, n - 1);
      SeatStep(c, After(c, n - 1), n - 1, g);
      if RideOf(c, g) >= 0 {
        VisitStep(c, After(c, n - 1), n - 1, g);
      }
    }
  }

  lemma VisitData(c: Config, s: State, g: Guest)
    requires Inv(c, s, []) && g in s.table
    ensures RideOf(c, g) >= 0 && !s.table[g].visitCompleted ==> s.table[g].remaining == g.burstTime
    ensures RideOf(c, g) >= 0 && s.table[g].state == TERMINATED ==> s.table[g].visitCompleted
  {
    hide Queues, Books, Tallied;
    assert GuestOk(c, g, s.table[g]);
  }

  // ---------------------------------------------------------------- first come, first seated

  /** The guest has asked for its ride: it waits for it, is on it, or has been. */
  predicate Requested(d: GuestData) {
    d.state == WAITING || Visited(d)
  }

  ghost predicate Behind(q: seq<Guest>, g: Guest, h: Guest) {
    exists a, b | 0 <= a < b < |q| :: q[a] == g && q[b] == h
  }

  /** Guest `g` is served by its ride before `h`: it is seated, or it waits and `h` is not seated and not in front. */
  ghost predicate Precedes(c: Config, s: State, g: Guest, h: Guest)
    requires |s.rides| == |c.rides|
  {
    || Visited(At(s.table, g))
    || (&& At(s.table, g).state == WAITING && !Visited(At(s.table, h)) && RideOf(c, g) >= 0
        && (At(s.table, h).state == WAITING ==> Behind(s.rides[RideOf(c, g)].waiting, g, h)))
  }

  lemma BehindPrefix(q: seq<Guest>, m: nat, g: Guest, h: Guest)
    requires NoDup(q) && m <= |q| && Behind(q, g, h)
    ensures h in q[..m] ==> g in q[..m]
    ensures g in q[m..] ==> Behind(q[m..], g, h)
  {
    var a, b :| 0 <= a < b < |q| && q[a] == g && q[b] == h;
    if a < m {
      assert q[..m][a] == g;
    } else {
      assert q[m..][a - m] == g && q[m..][b - m] == h;
    }
  }

  lemma BehindLast(q: seq<Guest>, g: Guest, h: Guest)
    requires g in q
    ensures Behind(q + [h], g, h)
    ensures forall x :: Behind(q, g, x) ==> Behind(q + [h], g, x)
  {
    var a :| 0 <= a < |q| && q[a] == g;
    assert (q + [h])[a] == g && (q + [h])[|q|] == h;
    forall x | Behind(q, g, x) ensures Behind(q + [h], g, x) {
      var i, j :| 0 <= i < j < |q| && q[i] == g && q[j] == x;
      assert (q + [h])[i] == g && (q + [h])[j] == x;
    }
  }

  lemma NextQueue(spec: RideSpec, r: RideData)
    requires RideOk(spec, r)
    ensures Next(spec, r).waiting == r.waiting[SeatsFilled(spec, r)..]
  {
  }

  lemma InItsQueue(c: Config, s: State, g: Guest)
    requires Inv(c, s, []) && g in s.table
    ensures |s.rides| == |c.rides|
    ensures s.table[g].state == WAITING ==>
      && RideOf(c, g) >= 0 && g in s.rides[RideOf(c, g)].waiting && !Visited(s.table[g])
      && (s.rides[RideOf(c, g)].busy || c.rides[RideOf(c, g)].capacity < 1)
  {
    hide Books, Tallied;
    assert GuestOk(c, g, s.table[g]) && Located(c, s.rides, s.ready, s.cpu, [], g, s.table[g]);
  }

  /** Nobody is seated from the CPU while somebody waits for the ride. */
  lemma WaitingBlocksSeat(c: Config, s: State, g: Guest, h: Guest)
    requires Inv(c, s, []) && g in s.table && s.table[g].state == WAITING && RideOf(c, g) == RideOf(c, h)
    ensures |s.rides| == |c.rides| && !SeatedFromCpu(c, s, h)
  {
    hide Inv, RideOf;
    InItsQueue(c, s, g);
    RidesOkAll(c, s);
    if s.cpu == h {
      CpuMember(c, s);
      BoardEffect(c.rides[RideOf(c, h)], s.rides[RideOf(c, h)], s.table, h);
    }
  }

  /** If `h` boards in the ride phase, so does whoever precedes it in the queue. */
  lemma BoardsInOrder(c: Config, s: State, g: Guest, h: Guest)
    requires Inv(c, s, []) && g in s.table && RideOf(c, g) == RideOf(c, h) >= 0
    ensures |s.rides| == |c.rides| && forall k | 0 <= k < |c.rides| :: RideOk(c.rides[k], s.rides[k])
    ensures Behind(s.rides[RideOf(c, g)].waiting, g, h) && BoardsInPhase(c, s.rides, h) ==> BoardsInPhase(c, s.rides, g)
  {
    hide Inv, RideOf, Behind, RideOk;
    RidesOkAll(c, s);
    var k := RideOf(c, g);
    QueueDistinct(c, s, k);
    if Behind(s.rides[k].waiting, g, h) {
      BehindPrefix(s.rides[k].waiting, SeatsFilled(c.rides[k], s.rides[k]), g, h);
    }
  }

  /** The queue of the ride of `g` one tick later, while `g` keeps waiting. */
  lemma QueueKeepsOrder(c: Config, s: State, t: int, g: Guest, h: Guest)
    requires Inv(c, s, []) && g in s.table && h in s.table && RideOf(c, g) == RideOf(c, h) && g != h
    requires Precedes(c, s, g, h)
    ensures |s.rides| == |c.rides|
    ensures var b := BeforeCpu(c, s, t); var r := Tick(c, s, t);
      && g in r.table && h in r.table && g in b.table
      && (b.table[g].state == WAITING && r.table[g].state == WAITING && r.table[h].state == WAITING
          && s.table[g].state == WAITING ==>
            RideOf(c, g) >= 0 && Behind(r.rides[RideOf(c, g)].waiting, g, h))
  {
    hide Inv, RideOf, Behind, RideOk, Tick, BeforeCpu, SeatsFilled, Next, Visited;
    InItsQueue(c, s, g);
    var b, r := BeforeCpu(c, s, t), Tick(c, s, t);
    BeforeCpuSeat(c, s, t, g);
    BeforeCpuSeat(c, s, t, h);
    CpuSeat(c, s, t, g);
    CpuSeat(c, s, t, h);
    if b.table[g].state == r.table[g].state == r.table[h].state == s.table[g].state == WAITING {
      TickInv(c, s, t);
      InItsQueue(c, r, g);
      InItsQueue(c, r, h);
      var k := RideOf(c, g);
      var q := s.rides[k].waiting;
      TickRide(c, s, t, k);
      NextQueue(c.rides[k], s.rides[k]);
      QueueDistinct(c, s, k);
      var left := q[SeatsFilled(c.rides[k], s.rides[k])..];
      NotOnCpu(c, b, g);
      WaitingRide(c, s, k, h);
      assert g in left;
      if h in left {
        assert h in q;
        BehindPrefix(q, SeatsFilled(c.rides[k], s.rides[k]), g, h);
      }
      if GoesTo(c, b, k) {
        BehindLast(left, g, b.cpu);
      }
    }
  }

  lemma NotOnCpu(c: Config, s: State, g: Guest)
    requires Inv(c, s, []) && g in s.table && s.table[g].state == WAITING
    ensures s.cpu != g
  {
    hide Inv;
    if s.cpu == g {
      CpuMember(c, s);
    }
  }

  lemma PrecedesStep(c: Config, s: State, t: int, g: Guest, h: Guest)
    requires Inv(c, s, []) && g in s.table && h in s.table && g != h && RideOf(c, g) == RideOf(c, h) >= 0
    requires Precedes(c, s, g, h)
    ensures |s.rides| == |c.rides| && Precedes(c, Tick(c, s, t), g, h)
  {
    hide Inv, RideOf, Behind, RideOk, Tick, BeforeCpu, UpToWaits, BoardsInPhase, SeatedFromCpu;
    VisitStep(c, s, t, g);
    VisitStep(c, s, t, h);
    PhaseSeat(c, s, t, g);
    PhaseSeat(c, s, t, h);
    BeforeCpuSeat(c, s, t, g);
    BeforeCpuSeat(c, s, t, h);
    CpuSeat(c, s, t, g);
    CpuSeat(c, s, t, h);
    BoardsInOrder(c, s, g, h);
    if !Visited(s.table[g]) && !BoardsInPhase(c, s.rides, g) {
      RestOfTickGuest(c, s, t, g);
      WaitingBlocksSeat(c, BeforeCpu(c, s, t), g, h);
      QueueKeepsOrder(c, s, t, g, h);
    }
  }

  lemma {:induction false} PrecedesAlways(c: Config, s: State, t: int, g: Guest, h: Guest, n: nat)
    requires Inv(c, s, []) && g in s.table && h in s.table && g != h && RideOf(c, g) == RideOf(c, h) >= 0
    requires |s.rides| == |c.rides| && Precedes(c, s, g, h)
    ensures Precedes(c, Steps(c, s, t, n), g, h)
    decreases n
  {
    hide Inv, Tick, Precedes, RideOf;
    if n > 0 {
      TickInv(c, s, t);
      PrecedesStep(c, s, t, g, h);
      LateVisit(c, s, t, g);
      LateVisit(c, s, t, h);
      PrecedesAlways(c, Tick(c, s, t), t + 1, g, h, n - 1);
    }
  }

  /** First come, first seated, over whole runs: of two guests of one ride, the one that has asked for it when
      the other has not is never seated later. Nothing is assumed of capacity or duration. */
  lemma RequestOrder(c: Config, s: State, t: int, g: Guest, h: Guest, n: nat)
    requires Inv(c, s, []) && g in s.table && h in s.table && RideOf(c, g) == RideOf(c, h) >= 0
    requires |s.rides| == |c.rides| && Requested(s.table[g]) && !Requested(s.table[h])
    ensures var e := Steps(c, s, t, n);
      g in e.table && h in e.table && (Visited(e.table[h]) ==> Visited(e.table[g]))
  {
    hide Inv, Steps, RideOf;
    StepsKeys(c, s, t, n);
    PrecedesAlways(c, s, t, g, h, n);
  }

  /** No overtaking: of two guests in one queue the one behind is never seated first. */
  lemma NoOvertaking(c: Config, s: State, t: int, i: nat, a: nat, b: nat, n: nat)
    requires Inv(c, s, []) && i < |c.rides| == |s.rides| && a < b < |s.rides[i].waiting|
    ensures var q := s.rides[i].waiting; var e := Steps(c, s, t, n);
      q[a] in e.table && q[b] in e.table && (Visited(e.table[q[b]]) ==> Visited(e.table[q[a]]))
  {
    hide Inv, Steps, RideOf;
    var q := s.rides[i].waiting;
    assert q[a] in q && q[b] in q;
    WaitingRide(c, s, i, q[a]);
    WaitingRide(c, s, i, q[b]);
    QueueDistinct(c, s, i);
    StepsKeys(c, s, t, n);
    assert Behind(q, q[a], q[b]);
    PrecedesAlways(c, s, t, q[a], q[b], n);
  }

  /** The same for a fresh run, between any two of its ticks. */
  lemma SeatedInRequestOrder(c: Config, m: nat, n: nat, g: Guest, h: Guest)
    requires NoDup(c.order) && c.quantum >= 1 && m <= n && g in c.order && h in c.order
    requires RideOf(c, g) == RideOf(c, h) >= 0
    ensures g in After(c, m).table && h in After(c, m).table && g in After(c, n).table && h in After(c, n).table
    ensures Requested(After(c, m).table[g]) && !Requested(After(c, m).table[h]) && Visited(After(c, n).table[h]) ==>
      Visited(After(c, n).table[g])
  {
    hide Inv, After, Steps, RideOf;
    AfterInv(c, m);
    AfterInv(c, n);
    InvShape(c, After(c, m));
    InvShape(c, After(c, n));
    AfterSteps(c, m, n - m);
    if Requested(After(c, m).table[g]) && !Requested(After(c, m).table[h]) {
      RequestOrder(c, After(c, m), m, g, h, n - m);
    }
  }
}
