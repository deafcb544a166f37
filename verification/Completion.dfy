/** Liveness: which sets of guests are all served, and by which tick.

    `Potential` bounds the work left: CPU units, boarding attempts, pending ride cycles and running
    timers. It never rises, and once everybody has arrived every unfinished tick lowers it. */
module Completion {
  import opened Guests
  import opened MemoryModel
  import opened RideModel
  import opened SchedulerModel
  import opened Sequences
  import opened SimModel
  import opened Invariant
  import opened Preservation

  /** What a guest needs to be able to finish: memory that exists, and either a ride that can
      carry it and whose cycles end, or a CPU burst that can be worked off. */
  predicate Finishable(c: Config, g: Guest) {
    && g.memoryRequirement <= MEMORY_SIZE
    && if RideOf(c, g) >= 0 then c.rides[RideOf(c, g)].capacity >= 1 && c.rides[RideOf(c, g)].duration >= 0
       else g.burstTime >= 0
  }

  ghost predicate AllFinishable(c: Config) {
    forall g | g in c.order :: Finishable(c, g)
  }

  /** A guest that needs no more memory than there is; any other stays NEW for ever. */
  predicate Admissible(g: Guest) {
    g.memoryRequirement <= MEMORY_SIZE
  }

  /** Everybody who can come in at all can finish. */
  ghost predicate Servable(c: Config) {
    forall g | g in c.order && Admissible(g) :: Finishable(c, g)
  }

  /** Everybody who can come in at all has left. */
  ghost predicate AllServed(c: Config, s: State) {
    forall g | g in c.order && Admissible(g) :: At(s.table, g).state == TERMINATED
  }

  /** Everybody who can come in at all has left, and the others are still outside. */
  ghost predicate ServedExactly(c: Config, s: State) {
    forall g | g in c.order :: At(s.table, g).state == if Admissible(g) then TERMINATED else NEW
  }

  // ---------------------------------------------------------------- the potential

  function AtLeast(low: int, n: int): int {
    if n < low then low else n
  }

  /** Ticks one cycle of the guest's ride takes. */
  function Span(c: Config, g: Guest): int {
    if RideOf(c, g) >= 0 then AtLeast(1, c.rides[RideOf(c, g)].duration) else 0
  }

  function WorkLeft(c: Config, g: Guest, d: GuestData): int {
    if d.state == TERMINATED || !Admissible(g) then 0
    else AtLeast(0, d.remaining) + 1 + VisitLeft(c, g, d)
  }

  /** The part of the work that the visit still takes: an attempt to board, and a cycle. */
  function VisitLeft(c: Config, g: Guest, d: GuestData): int {
    if RideOf(c, g) < 0 || d.visitCompleted || d.state == RIDING then 0
    else if d.state == WAITING then Span(c, g)
    else 1 + Span(c, g)
  }

  ghost function Work(c: Config, m: Table): Guest -> int {
    (g: Guest) => WorkLeft(c, g, At(m, g))
  }

  function TimeLeft(r: RideData): int {
    if r.busy then AtLeast(1, r.timer) else 0
  }

  function Timers(rides: seq<RideData>): int {
    if rides == [] then 0 else TimeLeft(rides[0]) + Timers(rides[1..])
  }

  ghost function Potential(c: Config, s: State): int {
    Sum(c.order, Work(c, s.table)) + Timers(s.rides)
  }

  lemma {:induction false} TimersUpdate(rides: seq<RideData>, k: nat, r: RideData)
    requires k < |rides|
    ensures Timers(rides[k := r]) == Timers(rides) - TimeLeft(rides[k]) + TimeLeft(r)
  {
    if k == 0 {
      assert rides[0 := r][1..] == rides[1..];
    } else {
      assert rides[k := r][1..] == rides[1..][k - 1 := r];
      TimersUpdate(rides[1..], k - 1, r);
    }
  }

  lemma {:induction false} TimersBounds(rides: seq<RideData>)
    ensures 0 <= Timers(rides)
    ensures (forall j | 0 <= j < |rides| :: rides[j] == IDLE) ==> Timers(rides) == 0
  {
    if rides != [] {
      TimersBounds(rides[1..]);
    }
  }

  /** Lower summands everywhere, lower by `k` at `y`. */
  lemma SumDrop(s: seq<Guest>, f: Guest -> int, g: Guest -> int, y: Guest, k: int)
    requires NoDup(s) && y in s && g(y) + k <= f(y)
    requires forall x | x in s :: g(x) <= f(x)
    ensures Sum(s, g) + k <= Sum(s, f)
  {
    var h := (x: Guest) => if x == y then g(y) + k else g(x);
    SumUpdate(s, h, g, y);
    SumOrder(s, h, f);
  }

  // ---------------------------------------------------------------- admission and the ride phase

  lemma AdmitPotential(c: Config, s: State, tick: int)
    requires Inv(c, s, [])
    ensures Potential(c, Admit(c, s, tick)) == Potential(c, s)
  {
    hide Inv, Admit, Locals, Queues, Books, Tallied, RidesOk, WorkLeft, Moves;
    var r := Admit(c, s, tick);
    AdmitInv(c, s, tick);
    InvParts(c, s, []);
    AtIn(c, s);
    forall g | g in c.order ensures Work(c, r.table)(g) == Work(c, s.table)(g) {
      AdmittedWork(c, g, s.table[g], r.table[g]);
    }
    SumSame(c.order, Work(c, s.table), Work(c, r.table));
  }

  /** Admission changes nobody's work. */
  lemma AdmittedWork(c: Config, g: Guest, d: GuestData, e: GuestData)
    requires e == d || (d.state == NEW && e.state == READY && e.remaining == d.remaining
                        && e.visitCompleted == d.visitCompleted)
    ensures WorkLeft(c, g, e) == WorkLeft(c, g, d)
  {
  }

  /** Nobody's work rises while ride `i` turns; the first guest it seats sheds the length of the cycle. */
  lemma RideTurnWork(c: Config, s: State, i: nat)
    requires Inv(c, s, []) && i < |c.rides|
    ensures var r := RideTurn(c, s, i);
      && (forall g | g in c.order :: Work(c, r.table)(g) <= Work(c, s.table)(g))
      && (forall g | g in c.order && g in Boarders(c.rides[i], s.rides[i]) ::
            Work(c, r.table)(g) + AtLeast(1, c.rides[i].duration) <= Work(c, s.table)(g))
  {
    hide Inv, RideTurn, Next, Queues, Books, Tallied, Moves;
    WaitingMembers(c, s, i);
    RideTurnInv(c, s, i);
    InvParts(c, s, []);
    InvParts(c, RideTurn(c, s, i), []);
    var r := RideTurn(c, s, i);
    MovesKeys(s, r);
    hide Shape, Locals, RidesOk, Leavers, Boarders, GuestOk, RideOk, WorkLeft, Settled;
    forall g | g in c.order
      ensures Work(c, r.table)(g) <= Work(c, s.table)(g)
      ensures g in Boarders(c.rides[i], s.rides[i]) ==>
        Work(c, r.table)(g) + AtLeast(1, c.rides[i].duration) <= Work(c, s.table)(g)
    {
      BoarderWaits(c, s, i, g);
      WorkKept(c, g, s.table[g], r.table[g]);
    }
  }

  /** One guest's work when it leaves, boards, or is not concerned. */
  lemma WorkKept(c: Config, g: Guest, d: GuestData, e: GuestData)
    requires GuestOk(c, g, d)
    ensures e == d ==> WorkLeft(c, g, e) == WorkLeft(c, g, d)
    ensures d.state == RIDING && e == Settled(d.(riding := false)) ==> WorkLeft(c, g, e) <= WorkLeft(c, g, d)
    ensures d.state == WAITING && e == d.(riding := true, state := RIDING) ==>
      WorkLeft(c, g, e) == WorkLeft(c, g, d) - Span(c, g)
  {
  }

  lemma BoarderWaits(c: Config, s: State, i: nat, g: Guest)
    requires Inv(c, s, []) && i < |c.rides| && g in c.order
    ensures |s.rides| == |c.rides| && RideOk(c.rides[i], s.rides[i])
    ensures g in s.table && GuestOk(c, g, s.table[g])
    ensures g in Boarders(c.rides[i], s.rides[i]) ==> RideOf(c, g) == i
    ensures Span(c, g) >= 0
  {
    hide Queues, Books, Tallied;
    WaitingRide(c, s, i, g);
    WaitingMembers(c, s, i);
    if g in Boarders(c.rides[i], s.rides[i]) {
      assert g in s.rides[i].waiting;
    }
  }

  lemma MovesKeys(s: State, s': State)
    requires Moves(s, s')
    ensures s'.table.Keys == s.table.Keys
  {
  }

  lemma WaitingRide(c: Config, s: State, i: nat, g: Guest)
    requires Inv(c, s, []) && i < |c.rides|
    ensures |s.rides| == |c.rides|
    ensures g in s.rides[i].waiting ==>
      && g in s.table && s.table[g].state == WAITING && RideOf(c, g) == i
      && !s.table[g].visitCompleted && !s.table[g].riding
  {
  }

  lemma RideTurnPotential(c: Config, s: State, i: nat)
    requires Inv(c, s, []) && i < |c.rides|
    ensures |s.rides| == |c.rides|
    ensures Potential(c, RideTurn(c, s, i)) <= Potential(c, s)
    ensures s.rides[i].busy && c.rides[i].duration >= 0 ==> Potential(c, RideTurn(c, s, i)) < Potential(c, s)
  {
    hide Inv, RideTurn, Work;
    WaitingMembers(c, s, i);
    var spec, ride := c.rides[i], s.rides[i];
    var r := RideTurn(c, s, i);
    RideTurnInv(c, s, i);
    RideTurnWork(c, s, i);
    InvParts(c, s, []);
    TimersUpdate(s.rides, i, Next(spec, ride));
    if Boarders(spec, ride) == [] {
      SumOrder(c.order, Work(c, r.table), Work(c, s.table));
    } else {
      var y := Boarders(spec, ride)[0];
      assert y in Boarders(spec, ride);
      SumDrop(c.order, Work(c, s.table), Work(c, r.table), y, AtLeast(1, spec.duration));
    }
  }

  lemma {:induction false} RidePhasePotential(c: Config, s: State, i: nat)
    requires Inv(c, s, []) && i <= |c.rides|
    ensures |s.rides| == |c.rides|
    ensures Potential(c, RidePhase(c, s, i)) <= Potential(c, s)
    ensures (exists j | i <= j < |c.rides| :: s.rides[j].busy && c.rides[j].duration >= 0) ==>
      Potential(c, RidePhase(c, s, i)) < Potential(c, s)
    decreases |c.rides| - i
  {
    hide *;
    RidePhaseUnfolds(c, s, i);
    if i < |c.rides| {
      RideTurnInv(c, s, i);
      RideTurnPotential(c, s, i);
      RidePhasePotential(c, RideTurn(c, s, i), i + 1);
      assert forall j | i < j < |c.rides| :: RideTurn(c, s, i).rides[j] == s.rides[j];
    }
  }

  lemma UpToWaitsPotential(c: Config, s: State, tick: int)
    requires Inv(c, s, [])
    ensures |s.rides| == |c.rides|
    ensures Potential(c, UpToWaits(c, s, tick)) <= Potential(c, s)
    ensures (exists j | 0 <= j < |c.rides| :: s.rides[j].busy && c.rides[j].duration >= 0) ==>
      Potential(c, UpToWaits(c, s, tick)) < Potential(c, s)
  {
    hide Inv, Admit, RidePhase, UpToWaits, Sum, Work, Timers;
    var s0 := s.(ticksExecuted := tick + 1);
    UpToWaitsUnfolds(c, s, tick);
    AdmitInv(c, s0, tick);
    AdmitPotential(c, s0, tick);
    RidePhasePotential(c, Admit(c, s0, tick), 0);
  }

  // ---------------------------------------------------------------- waiting, dispatch, CPU

  lemma WaitMetricsPotential(c: Config, s: State)
    ensures Potential(c, WaitMetrics(c, s)) == Potential(c, s)
  {
    SumSame(c.order, Work(c, s.table), Work(c, WaitMetrics(c, s).table));
  }

  lemma DispatchPotential(c: Config, s: State)
    requires Inv(c, s, [])
    ensures Potential(c, Dispatch(c, s)) == Potential(c, s)
  {
    hide Inv, Dispatch, Pick;
    var r := Dispatch(c, s);
    InvParts(c, s, []);
    DispatchInv(c, s);
    AtIn(c, s);
    SumSame(c.order, Work(c, s.table), Work(c, r.table));
  }

  /** The work of the guest on the CPU over the CPU step, and what its ride's timer gains. */
  lemma StepWork(c: Config, s: State, g: Guest)
    requires Inv(c, s, []) && s.cpu == g && g in s.table
    ensures |s.rides| == |c.rides|
    ensures var d := s.table[g]; var k := RideOf(c, g); var e := Stepped(c, s, g);
      if ToRide(c, g, d) then
        WorkLeft(c, g, e) + TimeLeft(Joined(c.rides[k], s.rides[k], g)) == WorkLeft(c, g, d) + TimeLeft(s.rides[k]) - 1
      else
        WorkLeft(c, g, e) <= WorkLeft(c, g, d) && (Finishable(c, g) ==> WorkLeft(c, g, e) < WorkLeft(c, g, d))
  {
    hide Inv;
    RidesMember(c, s);
    CpuMember(c, s);
  }

  lemma CpuTickPotential(c: Config, s: State)
    requires Inv(c, s, [])
    ensures Potential(c, CpuTick(c, s)) <= Potential(c, s)
    ensures s.cpu != null && Finishable(c, s.cpu) ==> Potential(c, CpuTick(c, s)) < Potential(c, s)
  {
    hide Inv, CpuTick, Locals, Queues, Books, Tallied, RidesOk, Sum, Timers, WorkLeft, Stepped;
    CpuTickForm(c, s);
    if s.cpu != null {
      var g: Guest := s.cpu;
      InvParts(c, s, []);
      CpuMember(c, s);
      var r, k := CpuTick(c, s), RideOf(c, g);
      StepWork(c, s, g);
      if ToRide(c, g, s.table[g]) {
        TimersUpdate(s.rides, k, Joined(c.rides[k], s.rides[k], g));
      }
      SumUpdate(c.order, Work(c, s.table), Work(c, r.table), g);
    }
  }

  // ---------------------------------------------------------------- a whole tick

  lemma TickPotential(c: Config, s: State, tick: int)
    requires Inv(c, s, [])
    ensures |s.rides| == |c.rides|
    ensures Potential(c, Tick(c, s, tick)) <= Potential(c, s)
    ensures (exists j | 0 <= j < |c.rides| :: s.rides[j].busy && c.rides[j].duration >= 0)
            || (BeforeCpu(c, s, tick).cpu != null && Finishable(c, BeforeCpu(c, s, tick).cpu)) ==>
      Potential(c, Tick(c, s, tick)) < Potential(c, s)
  {
    hide *;
    TickUnfolds(c, s, tick);
    var s1 := UpToWaits(c, s, tick);
    UpToWaitsInv(c, s, tick);
    UpToWaitsPotential(c, s, tick);
    WaitMetricsInv(c, s1);
    WaitMetricsPotential(c, s1);
    DispatchInv(c, WaitMetrics(c, s1));
    DispatchPotential(c, WaitMetrics(c, s1));
    CpuTickInv(c, BeforeCpu(c, s, tick));
    CpuTickPotential(c, BeforeCpu(c, s, tick));
    DispatchPotential(c, AfterCpu(c, s, tick));
  }

  /** With no ride running, nobody on the CPU and nobody READY, all memory is free. */
  lemma QuietMemory(c: Config, s: State)
    requires Inv(c, s, [])
    requires forall g | g in s.table :: s.table[g].state == NEW || s.table[g].state == TERMINATED
    ensures s.memory.blocks == [Block(0, 1024, true)] && s.memory.used == 0
  {
    hide Queues, Tallied, RidesOk;
    assert forall g | g in s.table :: !Holds(g, s.table[g]) by {
      assert forall g | g in s.table :: GuestOk(c, g, s.table[g]);
    }
    forall x ensures x !in Live(s.memory.blocks) {
      assert x in Live(s.memory.blocks) ==> exists g | g in s.table :: Owns(s.table, g, x);
    }
    assert Live(s.memory.blocks) == map[];
    NothingLive(s.memory);
  }

  /** With the whole memory free, a batch with somebody admissible makes somebody READY. */
  lemma {:induction false} BatchAdmitsSomebody(c: Config, s: State, batch: seq<Guest>, tick: int)
    requires Inv(c, s, []) && NoDup(batch) && s.memory.blocks == [Block(0, MEMORY_SIZE, true)]
    requires forall g | g in batch :: g in s.table && s.table[g].state == NEW
    requires exists g :: g in batch && Admissible(g)
    ensures AdmitAll(s, batch, tick).ready != []
    decreases |batch|
  {
    hide Inv, AdmitOne;
    var g, rest := batch[0], batch[1..];
    assert g in batch && batch == [g] + rest && g !in rest;
    var s1 := AdmitOne(s, g, tick);
    AdmitOneInv(c, s, g, tick);
    AdmitOneFree(c, s, g, tick);
    if Admissible(g) {
      AdmitAllInv(c, s1, rest, tick);
    } else {
      BatchAdmitsSomebody(c, s1, rest, tick);
    }
  }

  lemma AdmitOneFree(c: Config, s: State, g: Guest, tick: int)
    requires Inv(c, s, []) && g in s.table && s.table[g].state == NEW
    requires s.memory.blocks == [Block(0, MEMORY_SIZE, true)]
    ensures var r := AdmitOne(s, g, tick);
      if Admissible(g) then r.ready == s.ready + [g] else r.memory.blocks == s.memory.blocks
  {
    hide Queues, Books, Tallied, RidesOk;
    assert GuestOk(c, g, s.table[g]);
    assert HasRoom(s.memory.blocks, g.memoryRequirement) <==> Admissible(g);
  }

  /** In that situation somebody who has arrived and is admissible gets its memory. */
  lemma AdmitsSomebody(c: Config, s: State, tick: int)
    requires Inv(c, s, [])
    requires forall g | g in s.table :: s.table[g].state == NEW || s.table[g].state == TERMINATED
    requires exists g :: g in c.order && Admissible(g) && HasArrived(s.table, g, tick)
    ensures Admit(c, s, tick).ready != []
  {
    hide Inv, Arrived, SortByArrival, AdmitAll;
    InvParts(c, s, []);
    hide Queues, Books, Tallied, RidesOk, Locals;
    AtIn(c, s);
    BatchMembers(c, s.table, tick);
    QuietMemory(c, s);
    BatchAdmitsSomebody(c, s, SortByArrival(Arrived(c.order, s.table, tick)), tick);
  }

  /** If no ride is running, every unfinished guest is NEW, READY or RUNNING. */
  lemma QuietRides(c: Config, s: State, g: Guest)
    requires Inv(c, s, []) && Servable(c) && g in s.table
    ensures |s.rides| == |c.rides|
    ensures (forall j | 0 <= j < |c.rides| :: !s.rides[j].busy) ==>
      s.table[g].state != WAITING && s.table[g].state != RIDING
  {
    hide Books, Tallied;
    assert Located(c, s.rides, s.ready, s.cpu, [], g, s.table[g]);
    assert GuestOk(c, g, s.table[g]);
    assert s.table[g].state != NEW ==> Finishable(c, g);
  }

  lemma BusyRideEnds(c: Config, s: State, j: nat)
    requires Inv(c, s, []) && Servable(c) && j < |c.rides|
    ensures |s.rides| == |c.rides|
    ensures s.rides[j].busy ==> c.rides[j].duration >= 0
  {
    hide Books, Tallied;
    if s.rides[j].busy {
      var g := s.rides[j].riders[0];
      assert g in s.rides[j].riders && g in s.table && g in c.order && RideOf(c, g) == j;
      assert GuestOk(c, g, s.table[g]);
    }
  }

  /** Once everybody admissible has arrived, a tick with no running ride puts somebody on the CPU. */
  lemma CpuGetsGuest(c: Config, s: State, tick: int)
    requires Inv(c, s, []) && Servable(c) && !AllServed(c, s)
    requires forall g | g in c.order && Admissible(g) :: g.arrivalTime <= tick
    ensures |s.rides| == |c.rides|
    ensures (forall j | 0 <= j < |c.rides| :: !s.rides[j].busy) ==>
      var b := BeforeCpu(c, s, tick); b.cpu != null && Finishable(c, b.cpu)
  {
    hide Inv, BeforeCpu, UpToWaits, Tick, Dispatch, Admit, RidePhase, Books, Tallied, Locals, Servable, Pick,
         Finishable, Moves, Admits;
    UpToWaitsUnfolds(c, s, tick);
    if forall j | 0 <= j < |c.rides| :: !s.rides[j].busy {
      TickUnfolds(c, s, tick);
      var s0 := s.(ticksExecuted := tick + 1);
      var s1 := UpToWaits(c, s, tick);
      AdmitInv(c, s0, tick);
      InvParts(c, s, []);
      if s.cpu == null && s.ready == [] {
        forall g | g in s.table ensures s.table[g].state == NEW || s.table[g].state == TERMINATED {
          QuietRides(c, s, g);
          assert Located(c, s.rides, s.ready, s.cpu, [], g, s.table[g]);
        }
        var g :| g in c.order && Admissible(g) && At(s.table, g).state != TERMINATED;
        assert HasArrived(s.table, g, tick);
        AdmitsSomebody(c, s0, tick);
      }
      AdmitInv(c, s0, tick);
      RidePhaseInv(c, Admit(c, s0, tick), 0);
      MovesFrame(s0, Admit(c, s0, tick));
      MovesFrame(Admit(c, s0, tick), s1);
      UpToWaitsInv(c, s, tick);
      WaitMetricsInv(c, s1);
      DispatchInv(c, WaitMetrics(c, s1));
      CpuFinishable(c, BeforeCpu(c, s, tick));
    }
  }

  lemma MovesFrame(s: State, s': State)
    requires Moves(s, s')
    ensures s'.cpu == s.cpu && s.ready <= s'.ready
  {
  }

  lemma CpuFinishable(c: Config, s: State)
    requires Inv(c, s, []) && Servable(c)
    ensures s.cpu != null ==> Finishable(c, s.cpu)
  {
    hide Inv;
    if s.cpu != null {
      CpuMember(c, s);
    }
  }

  /** The heart of liveness: an unfinished tick after the last arrival lowers the potential. */
  lemma TickProgress(c: Config, s: State, tick: int)
    requires Inv(c, s, []) && Servable(c) && !AllServed(c, s)
    requires forall g | g in c.order && Admissible(g) :: g.arrivalTime <= tick
    ensures |s.rides| == |c.rides|
    ensures Potential(c, Tick(c, s, tick)) < Potential(c, s)
  {
    hide *;
    CpuGetsGuest(c, s, tick);
    TickPotential(c, s, tick);
    forall j | 0 <= j < |c.rides| ensures s.rides[j].busy ==> c.rides[j].duration >= 0 {
      BusyRideEnds(c, s, j);
    }
  }

  // ---------------------------------------------------------------- a whole run

  /** Latest arrival of an admissible guest, or 0. */
  function LatestArrival(order: seq<Guest>): int {
    if order == [] then 0
    else if Admissible(order[0]) then AtLeast(order[0].arrivalTime, LatestArrival(order[1..]))
    else LatestArrival(order[1..])
  }

  lemma {:induction false} LatestArrivalBounds(order: seq<Guest>)
    ensures 0 <= LatestArrival(order)
    ensures forall g | g in order && Admissible(g) :: g.arrivalTime <= LatestArrival(order)
  {
    if order != [] {
      LatestArrivalBounds(order[1..]);
    }
  }

  /** The ticks one guest can cost the park: its burst, one tick to leave, a boarding attempt and a cycle;
      nothing if it never comes in. */
  function Demand(c: Config, g: Guest): int {
    if !Admissible(g) then 0
    else AtLeast(0, g.burstTime) + 1 + if RideOf(c, g) >= 0 then 1 + AtLeast(1, c.rides[RideOf(c, g)].duration) else 0
  }

  /** A tick count by which everybody who comes in is served: the latest arrival plus everybody's demand. */
  ghost function Deadline(c: Config): int {
    LatestArrival(c.order) + Sum(c.order, (g: Guest) => Demand(c, g))
  }

  /** The deadline on the fields of guests and rides: the latest arrival of a guest that fits, or 0, plus for every
      guest that fits its burst, one tick, and for an existing ride one tick and a cycle. */
  lemma DeadlineOnFields(c: Config)
    ensures var latest := LatestArrival(c.order);
      && 0 <= latest && (forall g | g in c.order && g.memoryRequirement <= 1024 :: g.arrivalTime <= latest)
      && (latest > 0 ==> exists g :: g in c.order && g.memoryRequirement <= 1024 && g.arrivalTime == latest)
      && Deadline(c) == latest + Sum(c.order, (g: Guest) =>
           if g.memoryRequirement > 1024 then 0
           else
             (if g.burstTime < 0 then 0 else g.burstTime) + 1
             + (if RideOf(c, g) < 0 then 0
                else if c.rides[RideOf(c, g)].duration < 1 then 2
                else 1 + c.rides[RideOf(c, g)].duration))
  {
    LatestArrivalBounds(c.order);
    LatestArrivalReached(c.order);
    SumSame(c.order, (g: Guest) => Demand(c, g), (g: Guest) =>
      if g.memoryRequirement > 1024 then 0
      else
        (if g.burstTime < 0 then 0 else g.burstTime) + 1
        + (if RideOf(c, g) < 0 then 0
           else if c.rides[RideOf(c, g)].duration < 1 then 2
           else 1 + c.rides[RideOf(c, g)].duration));
  }

  lemma {:induction false} LatestArrivalReached(order: seq<Guest>)
    ensures LatestArrival(order) > 0 ==>
      exists g :: g in order && Admissible(g) && g.arrivalTime == LatestArrival(order)
  {
    if order != [] {
      LatestArrivalReached(order[1..]);
      assert order[0] in order;
    }
  }

  lemma InitialPotential(c: Config)
    requires NoDup(c.order) && c.quantum >= 1
    ensures LatestArrival(c.order) + Potential(c, Initial(c)) == Deadline(c)
  {
    var s := Initial(c);
    TimersBounds(s.rides);
    SumSame(c.order, Work(c, s.table), (g: Guest) => Demand(c, g));
  }

  lemma ServedIfNoPotential(c: Config, s: State)
    requires Inv(c, s, [])
    ensures 0 <= Potential(c, s)
    ensures Potential(c, s) == 0 ==> AllServed(c, s)
  {
    hide Inv, Queues, Books, Tallied;
    TimersBounds(s.rides);
    SumBound(c.order, Work(c, s.table), 0);
    forall g | g in c.order && Admissible(g) ensures Potential(c, s) == 0 ==> At(s.table, g).state == TERMINATED {
      SumMember(c.order, Work(c, s.table), g);
    }
  }

  /** TERMINATED is absorbing: nothing a later tick does brings a guest back. */
  lemma TickKeepsTerminated(c: Config, s: State, tick: int, g: Guest)
    requires Inv(c, s, []) && g in s.table && s.table[g].state == TERMINATED
    ensures |s.rides| == |c.rides|
    ensures g in Tick(c, s, tick).table && Tick(c, s, tick).table[g] == s.table[g]
  {
    hide *;
    TickUnfolds(c, s, tick);
    var s1 := UpToWaits(c, s, tick);
    UpToWaitsInv(c, s, tick);
    MovesTerminated(s.(ticksExecuted := tick + 1), s1, g);
    WaitMetricsInv(c, s1);
    WaitMetricsTerminated(c, s1, g);
    DispatchInv(c, WaitMetrics(c, s1));
    DispatchTerminated(c, WaitMetrics(c, s1), g);
    CpuTickInv(c, BeforeCpu(c, s, tick));
    CpuTickTerminated(c, BeforeCpu(c, s, tick), g);
    DispatchTerminated(c, AfterCpu(c, s, tick), g);
  }

  lemma MovesTerminated(s: State, s': State, g: Guest)
    requires Moves(s, s')
    ensures g in s.table && s.table[g].state == TERMINATED ==> g in s'.table && s'.table[g] == s.table[g]
  {
  }

  lemma WaitMetricsTerminated(c: Config, s: State, g: Guest)
    ensures g in s.table && s.table[g].state == TERMINATED ==>
      g in WaitMetrics(c, s).table && WaitMetrics(c, s).table[g] == s.table[g]
  {
  }

  lemma DispatchTerminated(c: Config, s: State, g: Guest)
    requires Inv(c, s, [])
    ensures g in s.table && s.table[g].state == TERMINATED ==>
      g in Dispatch(c, s).table && Dispatch(c, s).table[g] == s.table[g]
  {
    hide Inv, Dispatch, Pick;
    DispatchInv(c, s);
  }

  lemma CpuTickTerminated(c: Config, s: State, g: Guest)
    requires Inv(c, s, [])
    ensures g in s.table && s.table[g].state == TERMINATED ==>
      g in CpuTick(c, s).table && CpuTick(c, s).table[g] == s.table[g]
  {
    hide Inv, CpuTick, Burnt, AtWork;
    CpuTickForm(c, s);
  }

  lemma ServedStays(c: Config, s: State, tick: int)
    requires Inv(c, s, []) && AllServed(c, s)
    ensures |s.rides| == |c.rides|
    ensures AllServed(c, Tick(c, s, tick))
  {
    hide Tick, Queues, Books, Tallied, Locals;
    AtIn(c, s);
    forall g | g in c.order && Admissible(g) ensures At(Tick(c, s, tick).table, g).state == TERMINATED {
      TickKeepsTerminated(c, s, tick, g);
    }
  }

  lemma {:induction false} RunFromInv(c: Config, s: State, t: int, maxTicks: int)
    requires Inv(c, s, []) && |s.rides| == |c.rides|
    ensures Inv(c, RunFrom(c, s, t, maxTicks), [])
    decreases maxTicks - t
  {
    hide Inv, Tick, AllFinished;
    if t < maxTicks {
      TickInv(c, s, t);
      if !AllFinished(c, Tick(c, s, t)) {
        RunFromInv(c, Tick(c, s, t), t + 1, maxTicks);
      }
    }
  }

  lemma {:induction false} RunFromKeepsServed(c: Config, s: State, t: int, maxTicks: int)
    requires Inv(c, s, []) && |s.rides| == |c.rides| && AllServed(c, s)
    ensures AllServed(c, RunFrom(c, s, t, maxTicks))
    decreases maxTicks - t
  {
    hide Inv, Tick, AllFinished, AllServed;
    if t < maxTicks {
      TickInv(c, s, t);
      ServedStays(c, s, t);
      if !AllFinished(c, Tick(c, s, t)) {
        RunFromKeepsServed(c, Tick(c, s, t), t + 1, maxTicks);
      }
    }
  }

  lemma {:induction false} RunFromServes(c: Config, s: State, t: int, maxTicks: int)
    requires Inv(c, s, []) && Servable(c) && |s.rides| == |c.rides|
    requires maxTicks >= AtLeast(t, LatestArrival(c.order)) + Potential(c, s)
    ensures AllServed(c, RunFrom(c, s, t, maxTicks))
    decreases maxTicks - t
  {
    hide Inv, Tick, AllFinished, AllServed, Servable, Potential, LatestArrival;
    ServedIfNoPotential(c, s);
    if AllServed(c, s) {
      RunFromKeepsServed(c, s, t, maxTicks);
    } else if t < maxTicks {
      TickInv(c, s, t);
      TickPotential(c, s, t);
      LatestArrivalBounds(c.order);
      if t >= LatestArrival(c.order) {
        TickProgress(c, s, t);
      }
      if AllFinished(c, Tick(c, s, t)) {
        FinishedIsServed(c, Tick(c, s, t));
      } else {
        RunFromServes(c, Tick(c, s, t), t + 1, maxTicks);
      }
    }
  }

  lemma FinishedIsServed(c: Config, s: State)
    requires AllFinished(c, s)
    ensures AllServed(c, s)
  {
  }

  /** Whoever has terminated was finishable. */
  lemma TerminatedFinishable(c: Config, s: State, g: Guest)
    requires Inv(c, s, []) && g in c.order && At(s.table, g).state == TERMINATED
    ensures Finishable(c, g)
  {
    hide Queues, Books, Tallied;
    assert GuestOk(c, g, s.table[g]);
  }

  lemma RunUnfolds(c: Config, maxTicks: int)
    ensures |Initial(c).rides| == |c.rides|
    ensures Run(c, Initial(c), maxTicks) == RunFrom(c, Initial(c), 0, maxTicks)
  {
    hide RunFrom;
  }

  /** Bounded service, under every policy: a fresh run that is given at least `Deadline(c)` ticks ends with
      every admissible guest TERMINATED and every other guest NEW, if and only if everybody admissible is finishable. */
  lemma BoundedService(c: Config, maxTicks: int)
    requires NoDup(c.order) && c.quantum >= 1
    requires maxTicks >= Deadline(c)
    ensures ServedExactly(c, Run(c, Initial(c), maxTicks)) <==> Servable(c)
    ensures var r := Run(c, Initial(c), maxTicks);
      (forall g | g in c.order :: At(r.table, g).state == if g.memoryRequirement <= 1024 then TERMINATED else NEW)
      <==>
      (forall g | g in c.order && g.memoryRequirement <= 1024 ::
         if RideOf(c, g) >= 0 then c.rides[RideOf(c, g)].capacity >= 1 && c.rides[RideOf(c, g)].duration >= 0
         else g.burstTime >= 0)
  {
    hide Inv, RunFrom, AllFinished, Initial, Run, Deadline, Potential, LatestArrival;
    var s := Initial(c);
    InitialInv(c);
    InitialPotential(c);
    RunUnfolds(c, maxTicks);
    RunFromInv(c, s, 0, maxTicks);
    LatestArrivalBounds(c.order);
    if Servable(c) {
      RunFromServes(c, s, 0, maxTicks);
      forall g | g in c.order && !Admissible(g) ensures At(Run(c, s, maxTicks).table, g).state == NEW {
        InadmissibleStaysNew(c, Run(c, s, maxTicks), g);
      }
    } else {
      var g :| g in c.order && Admissible(g) && !Finishable(c, g);
      OneNeverFinishes(c, Run(c, s, maxTicks), g);
    }
  }

  /** Bounded completion: with that many ticks everybody leaves if and only if everybody is finishable. */
  lemma BoundedCompletion(c: Config, maxTicks: int)
    requires NoDup(c.order) && c.quantum >= 1
    requires maxTicks >= Deadline(c)
    ensures AllFinished(c, Run(c, Initial(c), maxTicks)) <==> AllFinishable(c)
  {
    hide Inv, RunFrom, Initial, Run, Deadline;
    InitialInv(c);
    RunUnfolds(c, maxTicks);
    var s := Run(c, Initial(c), maxTicks);
    BoundedService(c, maxTicks);
    RunFromInv(c, Initial(c), 0, maxTicks);
    if g :| g in c.order && !Finishable(c, g) {
      OneNeverFinishes(c, s, g);
    }
  }

  lemma InadmissibleStaysNew(c: Config, s: State, g: Guest)
    requires Inv(c, s, []) && g in c.order && !Admissible(g)
    ensures At(s.table, g).state == NEW
  {
    hide Queues, Books, Tallied;
    assert GuestOk(c, g, s.table[g]);
  }

  lemma OneNeverFinishes(c: Config, s: State, g: Guest)
    requires Inv(c, s, []) && g in c.order && !Finishable(c, g)
    ensures At(s.table, g).state != TERMINATED && !AllFinished(c, s)
  {
    hide Inv, Finishable;
    if At(s.table, g).state == TERMINATED {
      TerminatedFinishable(c, s, g);
    }
  }

  /** When nobody is inside, memory is one free block again, CPU, READY queue and rides are empty, and
      everybody who left is counted. */
  lemma FinishedState(c: Config, s: State)
    requires Inv(c, s, [])
    requires forall g | g in c.order :: At(s.table, g).state == TERMINATED || At(s.table, g).state == NEW
    ensures s.completed == Sum(c.order, Done(s.table))
    ensures AllFinished(c, s) ==> s.completed == |c.order|
    ensures s.memory.blocks == [Block(0, 1024, true)] && s.memory.used == 0
    ensures s.ready == [] && s.cpu == null
    ensures forall i | 0 <= i < |s.rides| :: s.rides[i].riders == [] && s.rides[i].waiting == []
  {
    hide Inv, Queues, Books, RidesOk;
    InvParts(c, s, []);
    AtIn(c, s);
    if AllFinished(c, s) {
      SumCounts(c.order, Done(s.table), c.order);
    }
    QuietMemory(c, s);
    FinishedQueues(c, s);
  }

  lemma FinishedQueues(c: Config, s: State)
    requires Inv(c, s, [])
    requires forall g | g in s.table :: s.table[g].state == TERMINATED || s.table[g].state == NEW
    ensures s.ready == [] && s.cpu == null
    ensures forall i | 0 <= i < |s.rides| :: s.rides[i].riders == [] && s.rides[i].waiting == []
  {
    hide *;
    InvParts(c, s, []);
    ShapeRides(c, s);
    if s.cpu != null {
      CpuMember(c, s);
      assert false;
    }
    forall g | g in s.ready ensures g in s.table && s.table[g].state == READY {
      ReadyMember(c, s, g);
    }
    Nobody(s.table, s.ready);
    forall i | 0 <= i < |s.rides| ensures s.rides[i].riders == [] && s.rides[i].waiting == [] {
      WaitingMembers(c, s, i);
      Nobody(s.table, s.rides[i].riders);
      Nobody(s.table, s.rides[i].waiting);
    }
  }

  lemma ShapeRides(c: Config, s: State)
    requires Shape(c, s)
    ensures |s.rides| == |c.rides|
  {
  }

  lemma Nobody(m: Table, q: seq<Guest>)
    requires forall g | g in m :: m[g].state == TERMINATED || m[g].state == NEW
    requires forall g | g in q :: g in m && m[g].state != TERMINATED && m[g].state != NEW
    ensures q == []
  {
    if q != [] {
      HeadIsMember(q);
      assert false;
    }
  }
}
