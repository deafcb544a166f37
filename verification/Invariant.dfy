/** The invariant of the whole system and its parts.

    `fl` lists the guests in flight: they have left a ride in the current ride phase and have not
    been settled yet. Between phases it is empty. */
module Invariant {
  import opened Guests
  import opened MemoryModel
  import opened RideModel
  import opened SchedulerModel
  import opened Sequences
  import opened SimModel

  /** Index of the ride this guest wants to visit, or -1 when it wants none or no such ride exists. */
  function RideOf(c: Config, g: Guest): (k: int)
    ensures -1 <= k < |c.rides|
  {
    if g.requestedRideId < 0 then -1 else RideIndex(c.rides, g.requestedRideId)
  }

  ghost predicate Shape(c: Config, s: State) {
    NoDup(c.order) && s.table.Keys == (set g | g in c.order) && |s.rides| == |c.rides| && c.quantum >= 1
  }

  // ---------------------------------------------------------------- one guest

  predicate GuestOk(c: Config, g: Guest, d: GuestData) {
    && (d.riding ==> d.state == RIDING)
    // CPU work: only ever goes down, and not before the visit
    && (if g.burstTime < 0 then d.remaining == g.burstTime else 0 <= d.remaining <= g.burstTime)
    && (Pending(g, d) ==> d.remaining == g.burstTime)
    && (d.visitCompleted ==> g.requestedRideId >= 0)
    && (d.state == WAITING || d.state == RIDING ==> RideOf(c, g) >= 0 && !d.visitCompleted)
    && (d.visitCompleted && RideOf(c, g) >= 0 ==>
          && c.rides[RideOf(c, g)].capacity >= 1 && c.rides[RideOf(c, g)].duration >= 0
          && (d.state == READY || d.state == RUNNING ==> d.remaining > 0))
    // memory is held from admission to termination
    && (d.memoryAllocated <==> d.state != NEW && d.state != TERMINATED)
    && (if !d.memoryAllocated then d.memoryStart == -1 else g.memoryRequirement <= 0 ==> d.memoryStart == 0)
    && (d.state != NEW ==> g.memoryRequirement <= MEMORY_SIZE)
    && (d.state == NEW ==> d == Blank(g))
    && (d.state == TERMINATED ==> !Pending(g, d) && if RideOf(c, g) >= 0 then d.remaining <= 0 else d.remaining == 0)
    // the slice counts under round robin only, and only for the guest on the CPU
    && (d.state == RUNNING && c.policy == RoundRobin ==> 0 <= d.sliceUsed < c.quantum)
    && (c.policy != RoundRobin || (d.state != RUNNING && d.state != TERMINATED) || Pending(g, d) ==> d.sliceUsed == 0)
  }

  ghost predicate Locals(c: Config, m: Table) {
    forall g | g in m :: GuestOk(c, g, m[g])
  }

  // ---------------------------------------------------------------- state and location

  /** A guest in a queueing state is in the queue of that state. */
  ghost predicate Located(c: Config, rides: seq<RideData>, ready: seq<Guest>, cpu: Guest?, fl: seq<Guest>,
                          g: Guest, d: GuestData)
    requires |rides| == |c.rides|
  {
    match d.state
    case READY => g in ready
    case RUNNING => cpu == g
    case WAITING => RideOf(c, g) >= 0 && g in rides[RideOf(c, g)].waiting
    case RIDING => RideOf(c, g) >= 0 && if d.riding then g in rides[RideOf(c, g)].riders else g in fl
    case _ => true
  }

  ghost predicate Queues(c: Config, m: Table, rides: seq<RideData>, ready: seq<Guest>, cpu: Guest?, fl: seq<Guest>) {
    && |rides| == |c.rides|
    // nobody is queued twice in one queue
    && NoDup(ready) && NoDup(fl)
    && (forall i | 0 <= i < |rides| :: NoDup(rides[i].riders) && NoDup(rides[i].waiting))
    // whoever is in a queue is in the state of that queue
    && (forall g | g in ready :: g in m && m[g].state == READY)
    && (cpu != null ==> cpu in m && m[cpu].state == RUNNING)
    && (forall g | g in fl :: g in m && m[g].state == RIDING && !m[g].riding)
    && (forall i, g | 0 <= i < |rides| && g in rides[i].waiting :: g in m && m[g].state == WAITING && RideOf(c, g) == i)
    && (forall i, g | 0 <= i < |rides| && g in rides[i].riders ::
          g in m && m[g].state == RIDING && m[g].riding && RideOf(c, g) == i)
    // and the other way round
    && (forall g | g in m :: Located(c, rides, ready, cpu, fl, g, m[g]))
  }

  ghost predicate RidesOk(c: Config, rides: seq<RideData>) {
    |rides| == |c.rides| && forall i | 0 <= i < |rides| :: RideOk(c.rides[i], rides[i])
  }

  // ---------------------------------------------------------------- memory

  predicate Holds(g: Guest, d: GuestData) {
    d.memoryAllocated && g.memoryRequirement > 0
  }

  ghost function Footprint(m: Table): Guest -> int {
    (g: Guest) => if Holds(g, At(m, g)) then g.memoryRequirement else 0
  }

  ghost predicate Owns(m: Table, g: Guest, start: int) {
    g in m && Holds(g, m[g]) && m[g].memoryStart == start
  }

  /** Live intervals and the guests holding memory are in bijection, with equal start and size. */
  ghost predicate Books(order: seq<Guest>, m: Table, memory: Memory) {
    && ValidMemory(memory) && memory.total == MEMORY_SIZE
    && memory.used == Sum(order, Footprint(m))
    && (forall g | g in m && Holds(g, m[g]) ::
          m[g].memoryStart in Live(memory.blocks) && Live(memory.blocks)[m[g].memoryStart] == g.memoryRequirement)
    && (forall g, h | g in m && h in m && Holds(g, m[g]) && Holds(h, m[h]) && g != h ::
          m[g].memoryStart != m[h].memoryStart)
    && (forall x | x in Live(memory.blocks) :: exists g | g in m :: Owns(m, g, x))
  }

  // ---------------------------------------------------------------- counters

  ghost function Done(m: Table): Guest -> int {
    (g: Guest) => if At(m, g).state == TERMINATED then 1 else 0
  }

  ghost function DoneWait(m: Table): Guest -> int {
    (g: Guest) => if At(m, g).state == TERMINATED then At(m, g).totalWait else 0
  }

  ghost predicate Tallied(order: seq<Guest>, m: Table, completed: int, waitSum: int) {
    completed == Sum(order, Done(m)) && waitSum == Sum(order, DoneWait(m))
  }

  // ---------------------------------------------------------------- all together

  ghost predicate Inv(c: Config, s: State, fl: seq<Guest>) {
    && Shape(c, s)
    && Locals(c, s.table)
    && Queues(c, s.table, s.rides, s.ready, s.cpu, fl)
    && RidesOk(c, s.rides)
    && Books(c.order, s.table, s.memory)
    && Tallied(c.order, s.table, s.completed, s.waitSum)
  }

  // ---------------------------------------------------------------- how each part survives one change

  /** One guest acquires memory at `memory.last`. */
  lemma BooksAcquire(order: seq<Guest>, m: Table, memory: Memory, g: Guest, d: GuestData, after: Memory)
    requires Books(order, m, memory) && NoDup(order) && g in order && g in m && !m[g].memoryAllocated
    requires Allocate(memory, g.memoryRequirement) == Attempt(after, true)
    requires d.memoryAllocated && d.memoryStart == after.last
    ensures Books(order, m[g := d], after)
    ensures g.memoryRequirement <= MEMORY_SIZE
  {
    var m' := m[g := d];
    SumUpdate(order, Footprint(m), Footprint(m'), g);
    if g.memoryRequirement > 0 {
      AllocateRefinesCells(memory, g.memoryRequirement);
      forall x | x in Live(after.blocks) ensures exists h | h in m' :: Owns(m', h, x) {
        if x == after.last {
          assert Owns(m', g, x);
        } else {
          var h :| h in m && Owns(m, h, x);
          assert Owns(m', h, x);
        }
      }
    } else {
      forall x | x in Live(after.blocks) ensures exists h | h in m' :: Owns(m', h, x) {
        var h :| h in m && Owns(m, h, x);
        assert Owns(m', h, x);
      }
    }
  }

  /** One guest gives its memory back. */
  lemma BooksRelease(order: seq<Guest>, m: Table, memory: Memory, g: Guest, d: GuestData)
    requires Books(order, m, memory) && NoDup(order) && g in order && g in m && m[g].memoryAllocated
    requires !d.memoryAllocated
    ensures Books(order, m[g := d], Release(memory, m[g].memoryStart, g.memoryRequirement))
  {
    var m' := m[g := d];
    var after := Release(memory, m[g].memoryStart, g.memoryRequirement);
    SumUpdate(order, Footprint(m), Footprint(m'), g);
    ReleaseRefinesCellsIf(memory, m[g].memoryStart, g.memoryRequirement);
    forall x | x in Live(after.blocks) ensures exists h | h in m' :: Owns(m', h, x) {
      var h :| h in m && Owns(m, h, x);
      assert Owns(m', h, x);
    }
  }

  lemma ReleaseRefinesCellsIf(m: Memory, start: int, amount: int)
    requires ValidMemory(m)
    requires amount > 0 ==> start in Live(m.blocks) && amount == Live(m.blocks)[start]
    ensures var r := Release(m, start, amount);
      && ValidMemory(r) && r.total == m.total
      && (amount > 0 ==> r.used == m.used - amount && Live(r.blocks) == Live(m.blocks) - {start})
      && (amount <= 0 ==> r == m)
  {
    if amount > 0 {
      ReleaseRefinesCells(m, start, amount);
    }
  }

  /** Changes that touch nobody's memory. */
  lemma BooksSame(order: seq<Guest>, m: Table, m': Table, memory: Memory, after: Memory)
    requires Books(order, m, memory)
    requires m'.Keys == m.Keys && after.(last := memory.last) == memory
    requires forall g | g in m :: m'[g].memoryAllocated == m[g].memoryAllocated && m'[g].memoryStart == m[g].memoryStart
    ensures Books(order, m', after)
  {
    SumSame(order, Footprint(m), Footprint(m'));
    forall x | x in Live(after.blocks) ensures exists h | h in m' :: Owns(m', h, x) {
      var h :| h in m && Owns(m, h, x);
      assert Owns(m', h, x);
    }
  }

  lemma TalliedSame(order: seq<Guest>, m: Table, m': Table, completed: int, waitSum: int)
    requires Tallied(order, m, completed, waitSum)
    requires forall g | g in order ::
      At(m, g).state == TERMINATED || At(m', g).state == TERMINATED ==>
        At(m', g).state == At(m, g).state && At(m', g).totalWait == At(m, g).totalWait
    ensures Tallied(order, m', completed, waitSum)
  {
    SumSame(order, Done(m), Done(m'));
    SumSame(order, DoneWait(m), DoneWait(m'));
  }

  lemma TalliedTerminate(order: seq<Guest>, m: Table, g: Guest, d: GuestData, completed: int, waitSum: int)
    requires Tallied(order, m, completed, waitSum) && NoDup(order) && g in order
    requires At(m, g).state != TERMINATED && d.state == TERMINATED && d.totalWait == At(m, g).totalWait
    ensures Tallied(order, m[g := d], completed + 1, waitSum + d.totalWait)
  {
    SumUpdate(order, Done(m), Done(m[g := d]), g);
    SumUpdate(order, DoneWait(m), DoneWait(m[g := d]), g);
  }

  /** Changes that move nobody. */
  lemma QueuesSame(c: Config, m: Table, m': Table, rides: seq<RideData>, ready: seq<Guest>, cpu: Guest?, fl: seq<Guest>)
    requires Queues(c, m, rides, ready, cpu, fl)
    requires m'.Keys == m.Keys
    requires forall g | g in m :: m'[g].state == m[g].state && m'[g].riding == m[g].riding
    ensures Queues(c, m', rides, ready, cpu, fl)
  {
  }

  /** NEW to READY. */
  lemma QueuesAdmit(c: Config, m: Table, rides: seq<RideData>, ready: seq<Guest>, cpu: Guest?, g: Guest, d: GuestData)
    requires Queues(c, m, rides, ready, cpu, []) && g in m && m[g].state == NEW && !m[g].riding
    requires d.state == READY && !d.riding
    ensures Queues(c, m[g := d], rides, ready + [g], cpu, [])
  {
  }

  /** In flight to READY, or out of the park. */
  lemma QueuesSettle(c: Config, m: Table, rides: seq<RideData>, ready: seq<Guest>, cpu: Guest?, fl: seq<Guest>,
                     d: GuestData)
    requires Queues(c, m, rides, ready, cpu, fl) && fl != []
    requires !d.riding && (d.state == READY || d.state == TERMINATED)
    ensures Queues(c, m[fl[0] := d], rides, if d.state == READY then ready + [fl[0]] else ready, cpu, fl[1..])
  {
    assert Without(fl, 0) == fl[1..];
    WithoutMember(fl, 0);
    assert fl[0] in fl;
  }

  /** READY to RUNNING. */
  lemma QueuesDispatch(c: Config, m: Table, rides: seq<RideData>, ready: seq<Guest>, i: nat, d: GuestData)
    requires Queues(c, m, rides, ready, null, []) && i < |ready|
    requires d.state == RUNNING && !d.riding
    ensures Queues(c, m[ready[i] := d], rides, Without(ready, i), ready[i], [])
  {
    WithoutMember(ready, i);
    assert ready[i] in ready;
  }

  /** Off the CPU: preempted or terminated. */
  lemma QueuesLeaveCpu(c: Config, m: Table, rides: seq<RideData>, ready: seq<Guest>, g: Guest, d: GuestData)
    requires Queues(c, m, rides, ready, g, [])
    requires !d.riding && (d.state == READY || d.state == TERMINATED)
    ensures Queues(c, m[g := d], rides, if d.state == READY then ready + [g] else ready, null, [])
  {
  }

  /** Off the CPU into the queue of ride `k`. */
  lemma QueuesBlock(c: Config, m: Table, rides: seq<RideData>, ready: seq<Guest>, g: Guest, d: GuestData, k: nat,
                    r: RideData)
    requires Queues(c, m, rides, ready, g, []) && RideOf(c, g) == k
    requires !d.riding && d.state == WAITING && r == rides[k].(waiting := rides[k].waiting + [g])
    ensures Queues(c, m[g := d], rides[k := r], ready, null, [])
  {
  }

  /** Off the CPU onto the empty ride `k`. */
  lemma QueuesBoard(c: Config, m: Table, rides: seq<RideData>, ready: seq<Guest>, g: Guest, d: GuestData, k: nat,
                    r: RideData)
    requires Queues(c, m, rides, ready, g, []) && RideOf(c, g) == k
    requires d.riding && d.state == RIDING
    requires rides[k].riders == [] && r.riders == [g] && r.waiting == rides[k].waiting
    ensures Queues(c, m[g := d], rides[k := r], ready, null, [])
  {
  }

  /** Ride `i` ends its cycle: its riders are in flight and the head of its queue is seated. */
  lemma QueuesRide(c: Config, m: Table, rides: seq<RideData>, ready: seq<Guest>, cpu: Guest?, i: nat)
    requires Queues(c, m, rides, ready, cpu, []) && RidesOk(c, rides) && i < |rides|
    ensures var r := rides[i];
      Queues(c, Seat(Alight(m, Leavers(r)), Boarders(c.rides[i], r)), rides[i := Next(c.rides[i], r)], ready, cpu,
             Leavers(r))
  {
    var r := rides[i];
    if Ends(r) {
      QueuesCycle(c, m, rides, ready, cpu, i, SeatsFilled(c.rides[i], r), Next(c.rides[i], r));
      if r.waiting == [] {
        assert r.waiting[..0] == [];
      }
    } else {
      assert Boarders(c.rides[i], r) == [];
      assert Seat(Alight(m, []), []) == m;
      QueuesSameQueues(c, m, rides, rides[i := Next(c.rides[i], r)], ready, cpu, []);
    }
  }

  /** The riders of ride `i` alight and the first `k` of its queue take their place. */
  lemma QueuesCycle(c: Config, m: Table, rides: seq<RideData>, ready: seq<Guest>, cpu: Guest?, i: nat, k: nat,
                    after: RideData)
    requires Queues(c, m, rides, ready, cpu, []) && i < |rides| && k <= |rides[i].waiting|
    requires after.riders == rides[i].waiting[..k] && after.waiting == rides[i].waiting[k..]
    ensures Queues(c, Seat(Alight(m, rides[i].riders), after.riders), rides[i := after], ready, cpu, rides[i].riders)
  {
    var between := rides[i].(riders := []);
    QueuesAlight(c, m, rides, ready, cpu, i, between);
    QueuesSeat(c, Alight(m, rides[i].riders), rides[i := between], ready, cpu, rides[i].riders, i, k, after);
    assert [] + rides[i].waiting[..k] == rides[i].waiting[..k];
    assert rides[i := between][i := after] == rides[i := after];
  }

  lemma QueuesAlight(c: Config, m: Table, rides: seq<RideData>, ready: seq<Guest>, cpu: Guest?, i: nat, after: RideData)
    requires Queues(c, m, rides, ready, cpu, []) && i < |rides|
    requires after.riders == [] && after.waiting == rides[i].waiting
    ensures Queues(c, Alight(m, rides[i].riders), rides[i := after], ready, cpu, rides[i].riders)
  {
  }

  lemma {:induction false} QueuesSeat(c: Config, m: Table, rides: seq<RideData>, ready: seq<Guest>, cpu: Guest?,
                                      fl: seq<Guest>, i: nat, k: nat, after: RideData)
    requires Queues(c, m, rides, ready, cpu, fl) && i < |rides| && k <= |rides[i].waiting|
    requires after.riders == rides[i].riders + rides[i].waiting[..k] && after.waiting == rides[i].waiting[k..]
    ensures Queues(c, Seat(m, rides[i].waiting[..k]), rides[i := after], ready, cpu, fl)
    decreases k
  {
    var r := rides[i];
    if k == 0 {
      assert Seat(m, r.waiting[..0]) == m;
      QueuesSameQueues(c, m, rides, rides[i := after], ready, cpu, fl);
    } else {
      var g := r.waiting[0];
      var between := r.(riders := r.riders + [g], waiting := r.waiting[1..]);
      var m1 := m[g := m[g].(riding := true, state := RIDING)];
      QueuesSeatOne(c, m, rides, ready, cpu, fl, i, between);
      TakeShift(r.waiting, k);
      SeatFirst(m, g, between.waiting[..k - 1]);
      QueuesSeat(c, m1, rides[i := between], ready, cpu, fl, i, k - 1, after);
      assert rides[i := between][i := after] == rides[i := after];
    }
  }

  lemma QueuesSameQueues(c: Config, m: Table, rides: seq<RideData>, rides': seq<RideData>, ready: seq<Guest>,
                         cpu: Guest?, fl: seq<Guest>)
    requires Queues(c, m, rides, ready, cpu, fl) && |rides'| == |rides|
    requires forall j | 0 <= j < |rides| :: rides'[j].riders == rides[j].riders && rides'[j].waiting == rides[j].waiting
    ensures Queues(c, m, rides', ready, cpu, fl)
  {
  }

  lemma QueuesSeatOne(c: Config, m: Table, rides: seq<RideData>, ready: seq<Guest>, cpu: Guest?, fl: seq<Guest>, i: nat,
                      after: RideData)
    requires Queues(c, m, rides, ready, cpu, fl) && i < |rides| && rides[i].waiting != []
    requires after.riders == rides[i].riders + [rides[i].waiting[0]] && after.waiting == rides[i].waiting[1..]
    ensures rides[i].waiting[0] in m
    ensures var g := rides[i].waiting[0];
      Queues(c, m[g := m[g].(riding := true, state := RIDING)], rides[i := after], ready, cpu, fl)
  {
    var w := rides[i].waiting;
    assert w[0] in w && Without(w, 0) == w[1..];
    WithoutMember(w, 0);
  }
}
