/** The tick engine as functions on values: every phase of a tick, a tick, and a run.

    A `Config` is what a run never changes; a `State` is everything it does change. A guest is
    identified by its reference, and the changing fields of all guests are in `State.table`. */
module SimModel {
  import opened Guests
  import opened MemoryModel
  import opened RideModel
  import opened SchedulerModel

  const MEMORY_SIZE := 1024

  datatype Config = Config(order: seq<Guest>, rides: seq<RideSpec>, policy: Policy, quantum: int)

  datatype State = State(
    table: Table,
    rides: seq<RideData>,
    ready: seq<Guest>,
    cpu: Guest?,
    memory: Memory,
    completed: int,
    waitSum: int,
    rideBusyTicks: int,
    ticksExecuted: int)

  function Initial(c: Config): State {
    State(map g | g in c.order :: Blank(g), seq(|c.rides|, _ => IDLE), [], null, InitialMemory(MEMORY_SIZE), 0, 0, 0, 0)
  }

  /** Index of the first ride with this id, or -1. */
  function RideIndex(rides: seq<RideSpec>, id: int): (k: int)
    ensures -1 <= k < |rides|
  {
    if rides == [] then -1
    else if rides[0].id == id then 0
    else
      var k := RideIndex(rides[1..], id);
      if k < 0 then -1 else k + 1
  }

  // ---------------------------------------------------------------- admission

  predicate ArrivesBefore(a: Guest, b: Guest) {
    if a.arrivalTime != b.arrivalTime then a.arrivalTime < b.arrivalTime else a.pid < b.pid
  }

  function Insert(g: Guest, q: seq<Guest>): seq<Guest> {
    if q == [] || !ArrivesBefore(q[0], g) then [g] + q else [q[0]] + Insert(g, q[1..])
  }

  /** The library sort of the arrival batch. */
  function SortByArrival(q: seq<Guest>): seq<Guest> {
    if q == [] then [] else Insert(q[0], SortByArrival(q[1..]))
  }

  predicate HasArrived(m: Table, g: Guest, tick: int) {
    At(m, g).state == NEW && tick >= g.arrivalTime
  }

  function Arrived(order: seq<Guest>, m: Table, tick: int): seq<Guest> {
    if order == [] then []
    else (if HasArrived(m, order[0], tick) then [order[0]] else []) + Arrived(order[1..], m, tick)
  }

  function MakeReady(s: State, g: Guest, d: GuestData, tick: int): State {
    s.(table := s.table[g := d.(state := READY, firstReady := if d.firstReady < 0 then tick else d.firstReady)],
       ready := s.ready + [g])
  }

  /** One guest of the batch: gets its memory and becomes READY, or stays NEW. */
  function AdmitOne(s: State, g: Guest, tick: int): State {
    var d := At(s.table, g);
    if d.memoryAllocated then MakeReady(s, g, d, tick)
    else
      var a := Allocate(s.memory, g.memoryRequirement);
      if !a.success then s.(memory := a.memory)
      else MakeReady(s.(memory := a.memory), g, d.(memoryAllocated := true, memoryStart := a.memory.last), tick)
  }

  function AdmitAll(s: State, batch: seq<Guest>, tick: int): State
    decreases |batch|
  {
    if batch == [] then s else AdmitAll(AdmitOne(s, batch[0], tick), batch[1..], tick)
  }

  function Admit(c: Config, s: State, tick: int): State {
    AdmitAll(s, SortByArrival(Arrived(c.order, s.table, tick)), tick)
  }

  // ---------------------------------------------------------------- termination

  function ReleaseMemoryFor(s: State, g: Guest): State {
    var d := At(s.table, g);
    if !d.memoryAllocated then s
    else s.(memory := Release(s.memory, d.memoryStart, g.memoryRequirement),
            table := s.table[g := d.(memoryAllocated := false, memoryStart := -1)])
  }

  function Terminate(s: State, g: Guest): State {
    var d := At(s.table, g);
    ReleaseMemoryFor(s.(table := s.table[g := d.(state := TERMINATED)],
                        waitSum := s.waitSum + d.totalWait,
                        completed := s.completed + 1), g)
  }

  // ---------------------------------------------------------------- ride phase

  /** A guest that left the ride with this id becomes READY or TERMINATED. */
  function Settle(s: State, rideId: int, g: Guest): State {
    var d0 := At(s.table, g);
    var d := if g.requestedRideId == rideId then d0.(visitCompleted := true) else d0;
    if d.remaining > 0 then
      s.(table := s.table[g := d.(state := READY)], ready := s.ready + [g])
    else if d.visitCompleted || g.requestedRideId < 0 then
      Terminate(s.(table := s.table[g := d]), g)
    else
      s.(table := s.table[g := d.(state := READY)], ready := s.ready + [g])
  }

  function SettleAll(s: State, rideId: int, out: seq<Guest>): (r: State)
    ensures r.rides == s.rides
    decreases |out|
  {
    if out == [] then s else SettleAll(Settle(s, rideId, out[0]), rideId, out[1..])
  }

  /** Ticks ride `i` and settles the guests that left it. */
  function RideTurn(c: Config, s: State, i: nat): (r: State)
    requires i < |s.rides| == |c.rides|
    ensures |r.rides| == |s.rides|
  {
    var step := RideTick(c.rides[i], s.rides[i], s.table);
    SettleAll(s.(rides := s.rides[i := step.ride], table := step.table,
                 rideBusyTicks := s.rideBusyTicks + if step.operating then 1 else 0),
              c.rides[i].id, step.out)
  }

  /** The ride phase from ride `i` on. */
  function RidePhase(c: Config, s: State, i: nat): (r: State)
    requires i <= |s.rides| == |c.rides|
    ensures |r.rides| == |s.rides|
    decreases |c.rides| - i
  {
    if i == |c.rides| then s else RidePhase(c, RideTurn(c, s, i), i + 1)
  }

  // ---------------------------------------------------------------- waiting, dispatch, CPU

  predicate Waits(d: GuestData) {
    d.state == READY || d.state == WAITING
  }

  function CountWaits(m: Table, gs: seq<Guest>): Table {
    map g | g in m :: if g in gs && Waits(m[g]) then m[g].(totalWait := m[g].totalWait + 1) else m[g]
  }

  function WaitMetrics(c: Config, s: State): State {
    s.(table := CountWaits(s.table, c.order))
  }

  function Dispatch(c: Config, s: State): State {
    if s.cpu != null then s
    else
      var p := Pick(c.policy, s.ready);
      if p.guest == null then s
      else
        var d := At(s.table, p.guest);
        if d.riding then s.(ready := p.rest + [p.guest])
        else s.(table := s.table[p.guest := d.(state := RUNNING, sliceUsed := 0)], ready := p.rest, cpu := p.guest)
  }

  /** The guest on the CPU leaves the park if all its work and its visit are done. */
  function Conclude(s: State, g: Guest): State {
    var d := At(s.table, g);
    if d.remaining == 0 && (d.visitCompleted || g.requestedRideId < 0) then Terminate(s, g).(cpu := null) else s
  }

  /** One unit of work, counted against the slice under round robin. */
  function Worked(c: Config, d: GuestData): GuestData {
    if d.remaining <= 0 then d
    else if c.policy == RoundRobin then d.(remaining := d.remaining - 1, sliceUsed := d.sliceUsed + 1)
    else d.(remaining := d.remaining - 1)
  }

  /** One unit of CPU work for `g`, with round-robin preemption. */
  function Burn(c: Config, s: State, g: Guest): State {
    var d := At(s.table, g);
    var w := Worked(c, d);
    if c.policy == RoundRobin && d.remaining > 0 && w.sliceUsed >= c.quantum && w.remaining > 0 then
      s.(table := s.table[g := w.(state := READY, sliceUsed := 0)], ready := s.ready + [g], cpu := null)
    else Conclude(s.(table := s.table[g := w]), g)
  }

  function CpuTick(c: Config, s: State): (r: State)
    requires |s.rides| == |c.rides|
    ensures |r.rides| == |s.rides|
  {
    if s.cpu == null then s
    else
      var g := s.cpu;
      var d := At(s.table, g);
      if d.riding then s.(cpu := null)
      else
        var k := RideIndex(c.rides, g.requestedRideId);
        if !Pending(g, d) then Burn(c, s, g)
        else if k < 0 then Burn(c, s.(table := s.table[g := d.(visitCompleted := true)]), g)
        else
          var b := TryBoard(c.rides[k], s.rides[k], s.table, g);
          s.(table := b.table, rides := s.rides[k := b.ride], cpu := null)
  }

  // ---------------------------------------------------------------- a tick, and a run

  /** The tick up to the point where waiting is accounted. */
  function UpToWaits(c: Config, s: State, tick: int): (r: State)
    requires |s.rides| == |c.rides|
    ensures |r.rides| == |s.rides|
  {
    var s1 := Admit(c, s.(ticksExecuted := tick + 1), tick);
    AdmitKeepsRides(s.(ticksExecuted := tick + 1), SortByArrival(Arrived(c.order, s.table, tick)), tick);
    RidePhase(c, s1, 0)
  }

  function Tick(c: Config, s: State, tick: int): (r: State)
    requires |s.rides| == |c.rides|
    ensures |r.rides| == |s.rides|
  {
    Dispatch(c, CpuTick(c, Dispatch(c, WaitMetrics(c, UpToWaits(c, s, tick)))))
  }

  predicate AllFinished(c: Config, s: State) {
    forall g | g in c.order :: At(s.table, g).state == TERMINATED
  }

  /** The driver's loop from tick `t` on. */
  function RunFrom(c: Config, s: State, t: int, maxTicks: int): State
    requires |s.rides| == |c.rides|
    decreases maxTicks - t
  {
    if t >= maxTicks then s
    else
      var next := Tick(c, s, t);
      if AllFinished(c, next) then next else RunFrom(c, next, t + 1, maxTicks)
  }

  function Run(c: Config, s: State, maxTicks: int): State
    requires |s.rides| == |c.rides|
  {
    RunFrom(c, s.(ticksExecuted := 0, rideBusyTicks := 0), 0, maxTicks)
  }

  /** Mean waiting of the guests that have left. */
  function MeanWait(s: State): (mean: real)
    ensures s.completed == 0 ==> mean == 0.0
    ensures s.completed != 0 ==> mean * s.completed as real == s.waitSum as real
  {
    if s.completed == 0 then 0.0 else s.waitSum as real / s.completed as real
  }

  /** The fraction of ride ticks in use. */
  function Utilization(rideCount: nat, s: State): (fraction: real)
    ensures rideCount == 0 || s.ticksExecuted == 0 ==> fraction == 0.0
    ensures rideCount * s.ticksExecuted != 0 ==>
      fraction * (rideCount * s.ticksExecuted) as real == s.rideBusyTicks as real
    ensures 0 <= s.rideBusyTicks <= rideCount * s.ticksExecuted ==> 0.0 <= fraction <= 1.0
  {
    if rideCount == 0 || s.ticksExecuted == 0 then 0.0
    else s.rideBusyTicks as real / (rideCount * s.ticksExecuted) as real
  }

  /** The state of a fresh simulation after its first `n` ticks. */
  function After(c: Config, n: nat): (r: State)
    ensures |r.rides| == |c.rides|
  {
    if n == 0 then Initial(c) else Tick(c, After(c, n - 1), n - 1)
  }

  lemma {:induction false} AdmitKeepsRides(s: State, batch: seq<Guest>, tick: int)
    ensures AdmitAll(s, batch, tick).rides == s.rides
    decreases |batch|
  {
    if batch != [] {
      AdmitKeepsRides(AdmitOne(s, batch[0], tick), batch[1..], tick);
    }
  }
}
