/** Every phase of a tick keeps the invariant; so it holds after every tick of every run. */
module Preservation {
  import opened Guests
  import opened MemoryModel
  import opened RideModel
  import opened SchedulerModel
  import opened Sequences
  import opened SimModel
  import opened Invariant

  lemma InitialInv(c: Config)
    requires NoDup(c.order) && c.quantum >= 1
    ensures Inv(c, Initial(c), [])
  {
    hide Books, Tallied;
    InitialBooks(c);
  }

  lemma InitialBooks(c: Config)
    requires NoDup(c.order)
    ensures Books(c.order, Initial(c).table, Initial(c).memory)
    ensures Tallied(c.order, Initial(c).table, Initial(c).completed, Initial(c).waitSum)
  {
    hide ValidMemory;
    var s := Initial(c);
    InitialMemoryValid(MEMORY_SIZE);
    SumCounts(c.order, Done(s.table), []);
    SumSame(c.order, DoneWait(s.table), Done(s.table));
    SumSame(c.order, Footprint(s.table), Done(s.table));
  }

  /** What admission and the ride phase never do: touch the CPU, take anybody out of the READY queue,
      change READY, RUNNING or TERMINATED guests, or account CPU work or waiting. */
  ghost predicate Moves(s: State, s': State) {
    && s'.cpu == s.cpu && s'.ticksExecuted == s.ticksExecuted
    && s.ready <= s'.ready
    && s'.table.Keys == s.table.Keys
    && forall g | g in s.table ::
         && s'.table[g].remaining == s.table[g].remaining
         && s'.table[g].totalWait == s.table[g].totalWait
         && (s.table[g].state == READY || s.table[g].state == RUNNING || s.table[g].state == TERMINATED ==>
               s'.table[g] == s.table[g])
         && (s.table[g].visitCompleted ==> s'.table[g].visitCompleted)
  }

  lemma MovesThen(s: State, s1: State, s2: State)
    requires Moves(s, s1) && Moves(s1, s2)
    ensures Moves(s, s2)
  {
  }

  lemma Assemble(c: Config, s: State, fl: seq<Guest>)
    requires Shape(c, s) && Locals(c, s.table) && Queues(c, s.table, s.rides, s.ready, s.cpu, fl) && RidesOk(c, s.rides)
    requires Books(c.order, s.table, s.memory) && Tallied(c.order, s.table, s.completed, s.waitSum)
    ensures Inv(c, s, fl)
  {
  }

  // What the invariant says about the members of each queue.

  lemma CpuMember(c: Config, s: State)
    requires Inv(c, s, []) && s.cpu != null
    ensures s.cpu in s.table && s.cpu in c.order && s.table[s.cpu].state == RUNNING && !s.table[s.cpu].riding
    ensures s.table[s.cpu].memoryAllocated
    ensures GuestOk(c, s.cpu, s.table[s.cpu])
  {
  }

  lemma ReadyMember(c: Config, s: State, g: Guest)
    requires Inv(c, s, []) && g in s.ready
    ensures g in s.table && s.table[g].state == READY && GuestOk(c, g, s.table[g])
  {
  }

  lemma WaitingMembers(c: Config, s: State, i: nat)
    requires Inv(c, s, []) && i < |c.rides|
    ensures |s.rides| == |c.rides|
    ensures forall g | g in s.rides[i].waiting :: g in s.table && s.table[g].state == WAITING
    ensures forall g | g in s.rides[i].riders ::
      g in s.table && RideOf(c, g) == i && s.table[g].state == RIDING && s.table[g].riding
    ensures RideOk(c.rides[i], s.rides[i])
  {
  }

  lemma FlightMember(c: Config, s: State, fl: seq<Guest>)
    requires Inv(c, s, fl) && fl != []
    ensures NoDup(fl) && fl == [fl[0]] + fl[1..] && fl[0] in fl && fl[0] !in fl[1..]
    ensures forall g | g in fl[1..] :: g in fl
    ensures forall g | g in fl :: g in s.table
    ensures s.table[fl[0]].state == RIDING && !s.table[fl[0]].riding && s.table[fl[0]].memoryAllocated
    ensures GuestOk(c, fl[0], s.table[fl[0]])
  {
  }

  lemma InvParts(c: Config, s: State, fl: seq<Guest>)
    requires Inv(c, s, fl)
    ensures Shape(c, s) && Locals(c, s.table) && Queues(c, s.table, s.rides, s.ready, s.cpu, fl) && RidesOk(c, s.rides)
    ensures Books(c.order, s.table, s.memory) && Tallied(c.order, s.table, s.completed, s.waitSum)
  {
  }

  lemma AtIn(c: Config, s: State)
    requires Shape(c, s)
    ensures forall g | g in c.order :: g in s.table && At(s.table, g) == s.table[g]
  {
  }

  lemma LocalsUpdate(c: Config, m: Table, g: Guest, d: GuestData)
    requires Locals(c, m) && GuestOk(c, g, d)
    ensures Locals(c, m[g := d])
  {
  }

  lemma RidesUpdate(c: Config, rides: seq<RideData>, k: nat, r: RideData)
    requires RidesOk(c, rides) && k < |rides| && RideOk(c.rides[k], r)
    ensures RidesOk(c, rides[k := r])
  {
  }

  // ---------------------------------------------------------------- admission

  lemma {:induction false} ArrivedMembers(order: seq<Guest>, m: Table, tick: int)
    ensures NoDup(order) ==> NoDup(Arrived(order, m, tick))
    ensures forall g | g in Arrived(order, m, tick) :: g in order && HasArrived(m, g, tick)
    ensures forall g | g in order && HasArrived(m, g, tick) :: g in Arrived(order, m, tick)
  {
    if order != [] {
      ArrivedMembers(order[1..], m, tick);
      assert order == [order[0]] + order[1..];
    }
  }

  lemma {:induction false} InsertMembers(g: Guest, q: seq<Guest>)
    requires NoDup(q) && g !in q
    ensures NoDup(Insert(g, q))
    ensures forall h | h in Insert(g, q) :: h == g || h in q
    ensures forall h | h in [g] + q :: h in Insert(g, q)
  {
    if q != [] && ArrivesBefore(q[0], g) {
      InsertMembers(g, q[1..]);
      assert q == [q[0]] + q[1..] && q[0] in q && q[0] !in q[1..];
    }
  }

  lemma {:induction false} SortMembers(q: seq<Guest>)
    requires NoDup(q)
    ensures NoDup(SortByArrival(q))
    ensures forall h | h in SortByArrival(q) :: h in q
    ensures forall h | h in q :: h in SortByArrival(q)
  {
    if q != [] {
      SortMembers(q[1..]);
      assert q == [q[0]] + q[1..];
      InsertMembers(q[0], SortByArrival(q[1..]));
    }
  }

  /** The batch of a tick lists exactly the guests that have arrived and are still NEW, once each. */
  lemma BatchMembers(c: Config, m: Table, tick: int)
    requires NoDup(c.order)
    ensures var batch := SortByArrival(Arrived(c.order, m, tick));
      && NoDup(batch)
      && (forall g | g in batch :: g in c.order && HasArrived(m, g, tick))
      && (forall g | g in c.order && HasArrived(m, g, tick) :: g in batch)
  {
    ArrivedMembers(c.order, m, tick);
    SortMembers(Arrived(c.order, m, tick));
  }

  /** Admission changes nothing but NEW guests, and those only by admitting them. */
  ghost predicate Admits(s: State, s': State) {
    && s' == s.(table := s'.table, ready := s'.ready, memory := s'.memory)
    && s.ready <= s'.ready
    && s'.table.Keys == s.table.Keys
    && forall g | g in s.table ::
         s'.table[g] == s.table[g] ||
         (s.table[g].state == NEW && s'.table[g].state == READY
          && s'.table[g] == s.table[g].(state := READY, memoryAllocated := true, memoryStart := s'.table[g].memoryStart,
                                        firstReady := s'.table[g].firstReady))
  }

  lemma AdmitOneInv(c: Config, s: State, g: Guest, tick: int)
    requires Inv(c, s, []) && g in s.table && s.table[g].state == NEW
    ensures var r := AdmitOne(s, g, tick);
      Inv(c, r, []) && Admits(s, r) && (forall h | h in s.table && h != g :: r.table[h] == s.table[h])
  {
    hide Queues, Books, Tallied;
    var r := AdmitOne(s, g, tick);
    var a := Allocate(s.memory, g.memoryRequirement);
    if a.success {
      BooksAcquire(c.order, s.table, s.memory, g, r.table[g], a.memory);
      TalliedSame(c.order, s.table, r.table, s.completed, s.waitSum);
      QueuesAdmit(c, s.table, s.rides, s.ready, s.cpu, g, r.table[g]);
    } else {
      BooksSame(c.order, s.table, s.table, s.memory, a.memory);
    }
  }

  lemma {:induction false} AdmitAllInv(c: Config, s: State, batch: seq<Guest>, tick: int)
    requires Inv(c, s, []) && NoDup(batch)
    requires forall g | g in batch :: g in s.table && s.table[g].state == NEW
    ensures var r := AdmitAll(s, batch, tick); Inv(c, r, []) && Admits(s, r)
    decreases |batch|
  {
    hide Inv, AdmitOne;
    if batch != [] {
      AdmitOneInv(c, s, batch[0], tick);
      assert batch == [batch[0]] + batch[1..];
      AdmitAllInv(c, AdmitOne(s, batch[0], tick), batch[1..], tick);
    }
  }

  lemma AdmitInv(c: Config, s: State, tick: int)
    requires Inv(c, s, [])
    ensures var r := Admit(c, s, tick); Inv(c, r, []) && Admits(s, r) && Moves(s, r)
  {
    BatchMembers(c, s.table, tick);
    AdmitAllInv(c, s, SortByArrival(Arrived(c.order, s.table, tick)), tick);
  }

  // ---------------------------------------------------------------- ride phase

  /** The guests in flight have just completed a cycle of ride `i`. */
  ghost predicate FromRide(c: Config, fl: seq<Guest>, i: nat) {
    && i < |c.rides|
    && (fl != [] ==> c.rides[i].capacity >= 1 && c.rides[i].duration >= 0)
    && forall g | g in fl :: RideOf(c, g) == i
  }

  lemma {:induction false} RideIndexHit(rides: seq<RideSpec>, id: int)
    ensures var k := RideIndex(rides, id);
      && (k >= 0 ==> rides[k].id == id && forall j | 0 <= j < k :: rides[j].id != id)
      && (k < 0 ==> forall j | 0 <= j < |rides| :: rides[j].id != id)
  {
    if rides != [] {
      RideIndexHit(rides[1..], id);
      var k := RideIndex(rides, id);
      forall j | 0 <= j < if k < 0 then |rides| else k ensures rides[j].id != id {
        if j > 0 { assert rides[1..][j - 1] == rides[j]; }
      }
    }
  }

  /** Which ride a guest asks for: the first one with the id it names, if it names one that exists. */
  lemma RideAskedFor(c: Config, g: Guest)
    ensures RideOf(c, g) >= 0 <==>
      g.requestedRideId >= 0 && exists k :: 0 <= k < |c.rides| && c.rides[k].id == g.requestedRideId
    ensures RideOf(c, g) >= 0 ==>
      && c.rides[RideOf(c, g)].id == g.requestedRideId
      && forall j | 0 <= j < RideOf(c, g) :: c.rides[j].id != g.requestedRideId
  {
    RideIndexHit(c.rides, g.requestedRideId);
  }

  /** A guest terminates: the changed guest, its memory and the counters together. */
  lemma TerminateParts(c: Config, s: State, g: Guest)
    requires Shape(c, s) && Books(c.order, s.table, s.memory) && Tallied(c.order, s.table, s.completed, s.waitSum)
    requires g in s.table && s.table[g].memoryAllocated && s.table[g].state != TERMINATED
    ensures var r := Terminate(s, g);
      && r == s.(table := s.table[g := s.table[g].(state := TERMINATED, memoryAllocated := false, memoryStart := -1)],
                 memory := r.memory, waitSum := r.waitSum, completed := r.completed)
      && Books(c.order, r.table, r.memory)
      && Tallied(c.order, r.table, r.completed, r.waitSum)
  {
    var d := s.table[g];
    var r := Terminate(s, g);
    var d' := d.(state := TERMINATED, memoryAllocated := false, memoryStart := -1);
    assert s.table[g := d.(state := TERMINATED)][g := d'] == s.table[g := d'];
    BooksRelease(c.order, s.table, s.memory, g, d');
    TalliedTerminate(c.order, s.table, g, d', s.completed, s.waitSum);
  }

  /** What settling makes of the data of a guest that visited its ride. */
  function Settled(d: GuestData): GuestData {
    if d.remaining > 0 then d.(visitCompleted := true, state := READY)
    else d.(visitCompleted := true, state := TERMINATED, memoryAllocated := false, memoryStart := -1)
  }

  lemma SettleForm(c: Config, s: State, g: Guest, rideId: int)
    requires Shape(c, s) && Books(c.order, s.table, s.memory) && Tallied(c.order, s.table, s.completed, s.waitSum)
    requires g in s.table && s.table[g].memoryAllocated && s.table[g].state == RIDING && g.requestedRideId == rideId
    ensures var r := Settle(s, rideId, g); var d := Settled(s.table[g]);
      && r == s.(table := s.table[g := d], ready := if d.state == READY then s.ready + [g] else s.ready,
                 memory := r.memory, waitSum := r.waitSum, completed := r.completed)
      && Books(c.order, r.table, r.memory)
      && Tallied(c.order, r.table, r.completed, r.waitSum)
  {
    hide Books, Tallied;
    var r := Settle(s, rideId, g);
    var m1 := s.table[g := s.table[g].(visitCompleted := true)];
    BooksSame(c.order, s.table, m1, s.memory, s.memory);
    TalliedSame(c.order, s.table, m1, s.completed, s.waitSum);
    if s.table[g].remaining > 0 {
      BooksSame(c.order, s.table, r.table, s.memory, s.memory);
      TalliedSame(c.order, s.table, r.table, s.completed, s.waitSum);
    } else {
      TerminateParts(c, s.(table := m1), g);
      assert m1[g := Settled(s.table[g])] == s.table[g := Settled(s.table[g])];
    }
  }

  /** Settling one guest: it is READY or gone; no guest that leaves a ride is sent back for a second visit. */
  lemma SettleInv(c: Config, s: State, fl: seq<Guest>, i: nat)
    requires Inv(c, s, fl) && fl != [] && FromRide(c, fl, i)
    ensures var r := Settle(s, c.rides[i].id, fl[0]);
      && fl[0] in s.table
      && Inv(c, r, fl[1..]) && Moves(s, r)
      && r.rides == s.rides && r.rideBusyTicks == s.rideBusyTicks
      && r.table == s.table[fl[0] := Settled(s.table[fl[0]])]
  {
    hide Queues, Books, Tallied, Locals, Settle;
    var g := fl[0];
    FlightMember(c, s, fl);
    RideIndexHit(c.rides, g.requestedRideId);
    LocalsUpdate(c, s.table, g, Settled(s.table[g]));
    SettleForm(c, s, g, c.rides[i].id);
    QueuesSettle(c, s.table, s.rides, s.ready, s.cpu, fl, Settled(s.table[g]));
  }

  lemma SettleAllUnfolds(s: State, rideId: int, out: seq<Guest>)
    ensures SettleAll(s, rideId, out) == if out == [] then s else SettleAll(Settle(s, rideId, out[0]), rideId, out[1..])
    ensures Moves(s, s)
  {
  }

  lemma FromRideTail(c: Config, fl: seq<Guest>, i: nat)
    requires FromRide(c, fl, i) && fl != []
    ensures FromRide(c, fl[1..], i)
  {
  }

  lemma {:induction false} SettleAllInv(c: Config, s: State, fl: seq<Guest>, i: nat)
    requires Inv(c, s, fl) && i < |c.rides| && FromRide(c, fl, i)
    ensures var r := SettleAll(s, c.rides[i].id, fl);
      && Inv(c, r, []) && Moves(s, r) && r.rideBusyTicks == s.rideBusyTicks
      && (forall h | h in s.table && h !in fl :: r.table[h] == s.table[h])
      && (forall h | h in fl :: h in s.table && r.table[h] == Settled(s.table[h]))
    decreases |fl|
  {
    hide *;
    SettleAllUnfolds(s, c.rides[i].id, fl);
    if fl != [] {
      var s1 := Settle(s, c.rides[i].id, fl[0]);
      var r := SettleAll(s, c.rides[i].id, fl);
      FlightMember(c, s, fl);
      FromRideTail(c, fl, i);
      SettleInv(c, s, fl, i);
      SettleAllInv(c, s1, fl[1..], i);
      MovesThen(s, s1, r);
      forall h | h in fl ensures h in s.table && r.table[h] == Settled(s.table[h]) {
        assert h == fl[0] || h in fl[1..];
      }
    }
  }

  /** One ride's turn in the ride phase. */
  lemma RideTurnInv(c: Config, s: State, i: nat)
    requires Inv(c, s, []) && i < |c.rides|
    ensures var r := RideTurn(c, s, i); var spec := c.rides[i]; var ride := s.rides[i];
      && Inv(c, r, []) && Moves(s, r)
      && r.rides == s.rides[i := Next(spec, ride)]
      && r.rideBusyTicks == s.rideBusyTicks + (if ride.busy then 1 else 0)
      && (forall g | g in s.table && g !in Leavers(ride) && g !in Boarders(spec, ride) :: r.table[g] == s.table[g])
      && (forall g | g in Boarders(spec, ride) :: g in s.table && s.table[g].state == WAITING
            && r.table[g] == s.table[g].(riding := true, state := RIDING))
      && (forall g | g in Leavers(ride) :: g in s.table && s.table[g].state == RIDING && s.table[g].riding
            && r.table[g] == Settled(s.table[g].(riding := false)))
  {
    hide *;
    WaitingMembers(c, s, i);
    var out := Leavers(s.rides[i]);
    var s1 := Turned(c, s, i);
    TurnIsSettling(c, s, i);
    TurnedInv(c, s, i);
    TurnTable(c, s, i);
    TurnedParts(c, s, i);
    SettleAllInv(c, s1, out, i);
    MovesThen(s, s1, RideTurn(c, s, i));
  }

  /** Ride `i` has ticked and its leavers are in flight. */
  ghost function Turned(c: Config, s: State, i: nat): State
    requires i < |c.rides| == |s.rides| && RideOk(c.rides[i], s.rides[i])
  {
    var spec, ride := c.rides[i], s.rides[i];
    s.(rides := s.rides[i := Next(spec, ride)],
       table := Seat(Alight(s.table, Leavers(ride)), Boarders(spec, ride)),
       rideBusyTicks := s.rideBusyTicks + if ride.busy then 1 else 0)
  }

  lemma TurnedParts(c: Config, s: State, i: nat)
    requires i < |c.rides| == |s.rides| && RideOk(c.rides[i], s.rides[i])
    ensures var s1 := Turned(c, s, i); var spec := c.rides[i]; var ride := s.rides[i];
      && s1.rides == s.rides[i := Next(spec, ride)] && s1.ready == s.ready && s1.cpu == s.cpu && s1.memory == s.memory
      && s1.table == Seat(Alight(s.table, Leavers(ride)), Boarders(spec, ride))
      && s1.completed == s.completed && s1.waitSum == s.waitSum && s1.ticksExecuted == s.ticksExecuted
      && s1.rideBusyTicks == s.rideBusyTicks + if ride.busy then 1 else 0
  {
  }

  lemma TurnIsSettling(c: Config, s: State, i: nat)
    requires Inv(c, s, []) && i < |c.rides|
    ensures RideTurn(c, s, i) == SettleAll(Turned(c, s, i), c.rides[i].id, Leavers(s.rides[i]))
    ensures FromRide(c, Leavers(s.rides[i]), i)
  {
    hide Inv;
    WaitingMembers(c, s, i);
    TickEffect(c.rides[i], s.rides[i], s.table);
  }

  lemma TurnedInv(c: Config, s: State, i: nat)
    requires Inv(c, s, []) && i < |c.rides|
    ensures Inv(c, Turned(c, s, i), Leavers(s.rides[i])) && Moves(s, Turned(c, s, i))
  {
    hide *;
    WaitingMembers(c, s, i);
    var s1 := Turned(c, s, i);
    InvParts(c, s, []);
    TurnedParts(c, s, i);
    TurnTable(c, s, i);
    TurnedFrame(c, s, i);
    NextOk(c.rides[i], s.rides[i]);
    RidesUpdate(c, s.rides, i, Next(c.rides[i], s.rides[i]));
    QueuesRide(c, s.table, s.rides, s.ready, s.cpu, i);
    BooksSame(c.order, s.table, s1.table, s.memory, s.memory);
    TalliedSame(c.order, s.table, s1.table, s.completed, s.waitSum);
    Assemble(c, s1, Leavers(s.rides[i]));
  }

  lemma TurnedFrame(c: Config, s: State, i: nat)
    requires Inv(c, s, []) && i < |c.rides|
    ensures |s.rides| == |c.rides| && RideOk(c.rides[i], s.rides[i])
    ensures var s1 := Turned(c, s, i);
      && Shape(c, s1) && Moves(s, s1)
      && (forall g | g in s.table ::
            g in s1.table && s1.table[g].memoryAllocated == s.table[g].memoryAllocated
            && s1.table[g].memoryStart == s.table[g].memoryStart)
      && (forall g | g in c.order ::
            At(s.table, g).state == TERMINATED || At(s1.table, g).state == TERMINATED ==>
              At(s1.table, g).state == At(s.table, g).state && At(s1.table, g).totalWait == At(s.table, g).totalWait)
  {
    hide Books, Tallied, Inv, Queues, Locals, Seat, Alight, Boarders, Leavers, Next, GuestOk, RideOk, RideOf, NoDup;
    InvParts(c, s, []);
    WaitingMembers(c, s, i);
    TurnTable(c, s, i);
    AtIn(c, s);
  }

  /** The table between the ride's own tick and the settling of its leavers. */
  lemma TurnTable(c: Config, s: State, i: nat)
    requires Inv(c, s, []) && i < |c.rides|
    ensures var spec := c.rides[i]; var ride := s.rides[i];
      var m := Seat(Alight(s.table, Leavers(ride)), Boarders(spec, ride));
      && Locals(c, m) && m.Keys == s.table.Keys
      && (forall g | g in s.table && g !in Leavers(ride) && g !in Boarders(spec, ride) :: m[g] == s.table[g])
      && (forall g | g in Boarders(spec, ride) :: g in s.table && g !in Leavers(ride) && s.table[g].state == WAITING
            && m[g] == s.table[g].(riding := true, state := RIDING))
      && (forall g | g in Leavers(ride) :: g in s.table && g !in Boarders(spec, ride) && RideOf(c, g) == i
            && s.table[g].state == RIDING && s.table[g].riding && m[g] == s.table[g].(riding := false))
  {
    hide Inv, Queues, GuestOk, RideOk, Seat, Alight, Boarders, Leavers;
    InvParts(c, s, []);
    TurnMembers(c, s, i);
    var spec, ride := c.rides[i], s.rides[i];
    SeatAlight(s.table, Leavers(ride), Boarders(spec, ride));
    forall g | g in s.table
      ensures GuestOk(c, g, Seat(Alight(s.table, Leavers(ride)), Boarders(spec, ride))[g])
    {
      MoveKeepsGuest(c, g, s.table[g]);
    }
  }

  lemma SeatAlight(m: Table, off: seq<Guest>, on: seq<Guest>)
    requires forall g | g in on :: g !in off
    ensures var e := Seat(Alight(m, off), on);
      && e.Keys == m.Keys
      && (forall g | g in m && g in on :: e[g] == m[g].(riding := true, state := RIDING))
      && (forall g | g in m && g in off :: e[g] == m[g].(riding := false))
      && (forall g | g in m && g !in on && g !in off :: e[g] == m[g])
  {
  }

  lemma MoveKeepsGuest(c: Config, g: Guest, d: GuestData)
    requires GuestOk(c, g, d)
    ensures d.state == WAITING ==> GuestOk(c, g, d.(riding := true, state := RIDING))
    ensures d.state == RIDING ==> GuestOk(c, g, d.(riding := false))
  {
  }

  lemma TurnMembers(c: Config, s: State, i: nat)
    requires Inv(c, s, []) && i < |c.rides|
    ensures |s.rides| == |c.rides| && RideOk(c.rides[i], s.rides[i])
    ensures forall g | g in Leavers(s.rides[i]) ::
      g in s.table && RideOf(c, g) == i && s.table[g].state == RIDING && s.table[g].riding
    ensures forall g | g in Boarders(c.rides[i], s.rides[i]) :: g in s.table && s.table[g].state == WAITING
    ensures forall g | g in Leavers(s.rides[i]) :: g !in Boarders(c.rides[i], s.rides[i])
  {
    hide Inv;
    WaitingMembers(c, s, i);
    assert forall g | g in Boarders(c.rides[i], s.rides[i]) :: g in s.rides[i].waiting;
  }

  lemma {:induction false} RidePhaseInv(c: Config, s: State, i: nat)
    requires Inv(c, s, []) && i <= |c.rides|
    ensures var r := RidePhase(c, s, i);
      && Inv(c, r, []) && Moves(s, r)
      && (forall j | 0 <= j < |c.rides| :: r.rides[j] == if j < i then s.rides[j] else Next(c.rides[j], s.rides[j]))
    decreases |c.rides| - i
  {
    hide *;
    RidePhaseUnfolds(c, s, i);
    if i < |c.rides| {
      var s1 := RideTurn(c, s, i);
      RideTurnInv(c, s, i);
      RidePhaseInv(c, s1, i + 1);
      MovesThen(s, s1, RidePhase(c, s, i));
    }
  }

  lemma RidePhaseUnfolds(c: Config, s: State, i: nat)
    requires Inv(c, s, []) && i <= |c.rides|
    ensures RidePhase(c, s, i) == if i == |c.rides| then s else RidePhase(c, RideTurn(c, s, i), i + 1)
    ensures Moves(s, s) && |s.rides| == |c.rides|
    ensures forall k | 0 <= k < |c.rides| :: RideOk(c.rides[k], s.rides[k])
  {
  }

  /** The state in which ride `i` ticks: the rides before it have had their turns. */
  function PhaseAt(c: Config, s: State, i: nat): (r: State)
    requires i <= |s.rides| == |c.rides|
    ensures |r.rides| == |c.rides|
  {
    if i == 0 then s else RideTurn(c, PhaseAt(c, s, i - 1), i - 1)
  }

  lemma {:induction false} PhaseAtInv(c: Config, s: State, i: nat)
    requires Inv(c, s, []) && i <= |c.rides|
    ensures |s.rides| == |c.rides|
    ensures var p := PhaseAt(c, s, i);
      && Inv(c, p, []) && RidePhase(c, p, i) == RidePhase(c, s, 0)
      && (forall j | i <= j < |c.rides| :: p.rides[j] == s.rides[j])
  {
    hide Inv, RideTurn, RidePhase, Moves, Leavers, Boarders, Next, Settled;
    RidesMember(c, s);
    if i > 0 {
      PhaseAtInv(c, s, i - 1);
      RideTurnInv(c, PhaseAt(c, s, i - 1), i - 1);
      RidePhaseUnfolds(c, PhaseAt(c, s, i - 1), i - 1);
    }
  }

  // ---------------------------------------------------------------- the rest of a tick

  lemma WaitMetricsInv(c: Config, s: State)
    requires Inv(c, s, [])
    ensures Inv(c, WaitMetrics(c, s), [])
  {
    var r := WaitMetrics(c, s);
    hide Queues, Books, Tallied;
    BooksSame(c.order, s.table, r.table, s.memory, s.memory);
    TalliedSame(c.order, s.table, r.table, s.completed, s.waitSum);
    QueuesSame(c, s.table, r.table, s.rides, s.ready, s.cpu, []);
  }

  /** Dispatch leaves the CPU idle only when nobody is READY; the guard against riding guests never fires. */
  lemma DispatchInv(c: Config, s: State)
    requires Inv(c, s, [])
    ensures var r := Dispatch(c, s);
      && Inv(c, r, [])
      && (r.cpu == null ==> r == s && s.ready == [])
      && (s.cpu != null || s.ready == [] ==> r == s)
      && (s.cpu == null && s.ready != [] ==>
            && Pick(c.policy, s.ready) == Picked(r.cpu, r.ready)
            && r.cpu in s.table && s.table[r.cpu].state == READY
            && r == s.(table := s.table[r.cpu := s.table[r.cpu].(state := RUNNING, sliceUsed := 0)],
                       ready := r.ready, cpu := r.cpu))
  {
    hide Queues, Books, Tallied, Locals;
    if s.cpu == null && s.ready != [] {
      var r := Dispatch(c, s);
      PickTakesOne(c.policy, s.ready);
      var i: nat :| i < |s.ready| && s.ready[i] == Pick(c.policy, s.ready).guest
                    && Pick(c.policy, s.ready).rest == Without(s.ready, i);
      var g := s.ready[i];
      ReadyMember(c, s, g);
      LocalsUpdate(c, s.table, g, r.table[g]);
      BooksSame(c.order, s.table, r.table, s.memory, s.memory);
      TalliedSame(c.order, s.table, r.table, s.completed, s.waitSum);
      QueuesDispatch(c, s.table, s.rides, s.ready, i, r.table[g]);
    }
  }

  /** What one CPU step makes of the data of a guest with no visit pending. */
  function Burnt(c: Config, d: GuestData): GuestData {
    var w := Worked(c, d);
    if c.policy == RoundRobin && d.remaining > 0 && w.sliceUsed >= c.quantum && w.remaining > 0 then
      w.(state := READY, sliceUsed := 0)
    else if w.remaining == 0 then w.(state := TERMINATED, memoryAllocated := false, memoryStart := -1)
    else w
  }

  lemma BurnForm(c: Config, s: State, g: Guest)
    requires Shape(c, s) && Books(c.order, s.table, s.memory) && Tallied(c.order, s.table, s.completed, s.waitSum)
    requires s.cpu == g && g in s.table && s.table[g].memoryAllocated && s.table[g].state == RUNNING
    requires !Pending(g, s.table[g])
    ensures var r := Burn(c, s, g); var d := Burnt(c, s.table[g]);
      && r == s.(table := s.table[g := d], ready := if d.state == READY then s.ready + [g] else s.ready,
                 cpu := if d.state == RUNNING then g else null,
                 memory := r.memory, waitSum := r.waitSum, completed := r.completed)
      && Books(c.order, r.table, r.memory)
      && Tallied(c.order, r.table, r.completed, r.waitSum)
  {
    hide Books, Tallied, Burn, Terminate, Burnt;
    var d := s.table[g];
    var m1 := s.table[g := d.(remaining := 0, sliceUsed := Burnt(c, d).sliceUsed)];
    var m2 := s.table[g := Burnt(c, d)];
    BurnUnfolds(c, s, g);
    if Burnt(c, d).state == TERMINATED {
      BooksSame(c.order, s.table, m1, s.memory, s.memory);
      TalliedSame(c.order, s.table, m1, s.completed, s.waitSum);
      TerminateParts(c, s.(table := m1), g);
      assert m1[g := Burnt(c, d)] == m2;
    } else {
      BooksSame(c.order, s.table, m2, s.memory, s.memory);
      TalliedSame(c.order, s.table, m2, s.completed, s.waitSum);
    }
  }

  lemma BurnUnfolds(c: Config, s: State, g: Guest)
    requires g in s.table && s.table[g].state == RUNNING && s.cpu == g
    requires !Pending(g, s.table[g])
    ensures var d := s.table[g]; var e := Burnt(c, d);
      if e.state == TERMINATED then
        && e == d.(remaining := 0, sliceUsed := e.sliceUsed, state := TERMINATED,
                   memoryAllocated := false, memoryStart := -1)
        && Burn(c, s, g) ==
             Terminate(s.(table := s.table[g := d.(remaining := 0, sliceUsed := e.sliceUsed)]), g).(cpu := null)
      else
        && (e.state == READY || e.state == RUNNING)
        && e.totalWait == d.totalWait && e.memoryAllocated == d.memoryAllocated && e.memoryStart == d.memoryStart
        && Burn(c, s, g) == s.(table := s.table[g := e], ready := if e.state == READY then s.ready + [g] else s.ready,
                               cpu := if e.state == RUNNING then g else null)
  {
  }

  /** One unit of work of the guest on the CPU. */
  lemma BurnInv(c: Config, s: State, g: Guest)
    requires Inv(c, s, []) && s.cpu == g && !Pending(g, s.table[g])
    ensures var r := Burn(c, s, g);
      && Inv(c, r, [])
      && r == s.(table := s.table[g := Burnt(c, s.table[g])],
                 ready := if Burnt(c, s.table[g]).state == READY then s.ready + [g] else s.ready,
                 cpu := if Burnt(c, s.table[g]).state == RUNNING then g else null,
                 memory := r.memory, waitSum := r.waitSum, completed := r.completed)
  {
    hide Queues, Books, Tallied, Locals, Burn;
    CpuMember(c, s);
    var d := Burnt(c, s.table[g]);
    LocalsUpdate(c, s.table, g, d);
    BurnForm(c, s, g);
    if d.state == RUNNING {
      QueuesSame(c, s.table, s.table[g := d], s.rides, s.ready, s.cpu, []);
    } else {
      QueuesLeaveCpu(c, s.table, s.rides, s.ready, g, d);
    }
  }

  /** The guest on the CPU tries to board its ride. */
  lemma BoardInv(c: Config, s: State, g: Guest)
    requires Inv(c, s, []) && s.cpu == g && Pending(g, s.table[g]) && RideOf(c, g) >= 0
    ensures Inv(c, CpuTick(c, s), [])
  {
    hide Locals, Queues, Books, Tallied;
    var k := RideOf(c, g);
    var r := CpuTick(c, s);
    CpuMember(c, s);
    BoardEffect(c.rides[k], s.rides[k], s.table, g);
    RidesUpdate(c, s.rides, k, r.rides[k]);
    LocalsUpdate(c, s.table, g, r.table[g]);
    BooksSame(c.order, s.table, r.table, s.memory, s.memory);
    TalliedSame(c.order, s.table, r.table, s.completed, s.waitSum);
    if r.table[g].riding {
      QueuesBoard(c, s.table, s.rides, s.ready, g, r.table[g], k, r.rides[k]);
    } else {
      QueuesBlock(c, s.table, s.rides, s.ready, g, r.table[g], k, r.rides[k]);
    }
  }

  /** A visit to a ride that does not exist is taken as done. */
  lemma NoSuchRideInv(c: Config, s: State, g: Guest)
    requires Inv(c, s, []) && s.cpu == g && g.requestedRideId >= 0 && RideOf(c, g) < 0
    ensures Inv(c, s.(table := s.table[g := s.table[g].(visitCompleted := true)]), [])
  {
    hide Queues, Books, Tallied, Locals;
    CpuMember(c, s);
    var d := s.table[g].(visitCompleted := true);
    LocalsUpdate(c, s.table, g, d);
    BooksSame(c.order, s.table, s.table[g := d], s.memory, s.memory);
    TalliedSame(c.order, s.table, s.table[g := d], s.completed, s.waitSum);
    QueuesSame(c, s.table, s.table[g := d], s.rides, s.ready, s.cpu, []);
  }

  /** The data of the guest on the CPU when it works, a visit to a ride that does not exist being done. */
  function AtWork(c: Config, g: Guest, d: GuestData): GuestData {
    if Pending(g, d) && RideOf(c, g) < 0 then d.(visitCompleted := true) else d
  }

  /** A ride that a guest from the CPU joins: at once if it is idle, else at the end of the queue. */
  function Joined(spec: RideSpec, r: RideData, g: Guest): RideData {
    if !r.busy && spec.capacity >= 1 then RideData(true, spec.duration, [g], []) else r.(waiting := r.waiting + [g])
  }

  /** The guest on the CPU goes to its ride. */
  predicate ToRide(c: Config, g: Guest, d: GuestData) {
    Pending(g, d) && RideOf(c, g) >= 0
  }

  /** The data of the guest on the CPU after the CPU step. */
  function Stepped(c: Config, s: State, g: Guest): GuestData
    requires |s.rides| == |c.rides|
  {
    var d := At(s.table, g);
    if !ToRide(c, g, d) then Burnt(c, AtWork(c, g, d))
    else if !s.rides[RideOf(c, g)].busy && c.rides[RideOf(c, g)].capacity >= 1 then d.(riding := true, state := RIDING)
    else d.(state := WAITING)
  }

  /** The CPU step in closed form: nothing without a guest on the CPU; otherwise that guest is the only one
      changed, it joins its ride or works, and the queues follow from the state it gets. */
  lemma CpuTickForm(c: Config, s: State)
    requires Inv(c, s, [])
    ensures |s.rides| == |c.rides|
    ensures s.cpu == null ==> CpuTick(c, s) == s
    ensures s.cpu != null ==>
      var g: Guest := s.cpu; var k := RideOf(c, g); var d := s.table[g];
      var e := Stepped(c, s, g); var r := CpuTick(c, s);
      && At(s.table, g) == d && d.state == RUNNING && !d.riding
      && r == s.(table := s.table[g := e],
                 ready := if e.state == READY then s.ready + [g] else s.ready,
                 cpu := if e.state == RUNNING then g else null,
                 rides := if ToRide(c, g, d) then s.rides[k := Joined(c.rides[k], s.rides[k], g)] else s.rides,
                 memory := r.memory, waitSum := r.waitSum, completed := r.completed)
    ensures Inv(c, CpuTick(c, s), [])
  {
    hide Inv, CpuTick, Burn, Burnt;
    RidesMember(c, s);
    if s.cpu == null {
      CpuTickIdle(c, s);
    } else {
      var g: Guest := s.cpu;
      CpuMember(c, s);
      if ToRide(c, g, s.table[g]) {
        BoardForm(c, s, g);
        BoardInv(c, s, g);
      } else {
        CpuTickWorks(c, s, g);
      }
    }
  }

  lemma RidesMember(c: Config, s: State)
    requires Inv(c, s, [])
    ensures |s.rides| == |c.rides|
  {
  }

  lemma CpuTickIdle(c: Config, s: State)
    requires |s.rides| == |c.rides| && s.cpu == null
    ensures CpuTick(c, s) == s
  {
  }

  /** The guest on the CPU has no ride to go to. */
  lemma CpuTickWorks(c: Config, s: State, g: Guest)
    requires Inv(c, s, []) && s.cpu == g && g in s.table && !ToRide(c, g, s.table[g])
    ensures |s.rides| == |c.rides|
    ensures var e := Burnt(c, AtWork(c, g, s.table[g])); var r := CpuTick(c, s);
      && Inv(c, r, [])
      && r == s.(table := s.table[g := e],
                 ready := if e.state == READY then s.ready + [g] else s.ready,
                 cpu := if e.state == RUNNING then g else null,
                 memory := r.memory, waitSum := r.waitSum, completed := r.completed)
      && (e.state == READY || e.state == RUNNING || e.state == TERMINATED)
  {
    hide Inv, Burn, Burnt;
    CpuMember(c, s);
    RidesMember(c, s);
    var w := s.(table := s.table[g := AtWork(c, g, s.table[g])]);
    if Pending(g, s.table[g]) {
      NoSuchRideInv(c, s, g);
      assert w.table[g := Burnt(c, w.table[g])] == s.table[g := Burnt(c, w.table[g])];
    } else {
      assert w == s;
    }
    BurnInv(c, w, g);
    BurntState(c, w.table[g]);
    assert CpuTick(c, s) == Burn(c, w, g);
  }

  lemma BurntState(c: Config, d: GuestData)
    ensures var e := Burnt(c, d); e.state == d.state || e.state == READY || e.state == TERMINATED
  {
  }

  /** What boarding, or failing to, does to the state. */
  lemma BoardForm(c: Config, s: State, g: Guest)
    requires Inv(c, s, []) && s.cpu == g && g in s.table && ToRide(c, g, s.table[g])
    ensures |s.rides| == |c.rides|
    ensures var k := RideOf(c, g);
      CpuTick(c, s) == s.(table := s.table[g := Stepped(c, s, g)], cpu := null,
                          rides := s.rides[k := Joined(c.rides[k], s.rides[k], g)])
    ensures Stepped(c, s, g).state == RIDING || Stepped(c, s, g).state == WAITING
  {
    hide Inv;
    CpuMember(c, s);
    WaitingMembers(c, s, RideOf(c, g));
    BoardEffect(c.rides[RideOf(c, g)], s.rides[RideOf(c, g)], s.table, g);
  }

  lemma CpuTickInv(c: Config, s: State)
    requires Inv(c, s, [])
    ensures Inv(c, CpuTick(c, s), [])
  {
    hide *;
    CpuTickForm(c, s);
  }

  lemma UpToWaitsInv(c: Config, s: State, tick: int)
    requires Inv(c, s, [])
    ensures var r := UpToWaits(c, s, tick);
      && Inv(c, r, []) && Moves(s.(ticksExecuted := tick + 1), r)
      && (forall j | 0 <= j < |c.rides| :: r.rides[j] == Next(c.rides[j], s.rides[j]))
  {
    hide *;
    var s0 := s.(ticksExecuted := tick + 1);
    var s1 := Admit(c, s0, tick);
    UpToWaitsUnfolds(c, s, tick);
    AdmitInv(c, s0, tick);
    AdmitsRides(s0, s1);
    RidePhaseInv(c, s1, 0);
    MovesThen(s0, s1, RidePhase(c, s1, 0));
  }

  lemma UpToWaitsUnfolds(c: Config, s: State, tick: int)
    requires Inv(c, s, [])
    ensures var s0 := s.(ticksExecuted := tick + 1);
      && Inv(c, s0, []) && |Admit(c, s0, tick).rides| == |c.rides|
      && UpToWaits(c, s, tick) == RidePhase(c, Admit(c, s0, tick), 0)
    ensures forall k | 0 <= k < |c.rides| :: RideOk(c.rides[k], s.rides[k])
  {
    AdmitKeepsRides(s.(ticksExecuted := tick + 1), SortByArrival(Arrived(c.order, s.table, tick)), tick);
  }

  lemma AdmitsRides(s: State, s': State)
    requires Admits(s, s')
    ensures s'.rides == s.rides && s'.rideBusyTicks == s.rideBusyTicks
  {
  }

  /** A tick keeps the invariant, and afterwards an idle CPU means that nobody is READY. */
  lemma TickInv(c: Config, s: State, tick: int)
    requires Inv(c, s, [])
    ensures var r := Tick(c, s, tick);
      Inv(c, r, []) && (r.cpu == null ==> r.ready == [])
  {
    hide *;
    TickUnfolds(c, s, tick);
    var s1 := UpToWaits(c, s, tick);
    UpToWaitsInv(c, s, tick);
    WaitMetricsInv(c, s1);
    DispatchInv(c, WaitMetrics(c, s1));
    CpuTickInv(c, BeforeCpu(c, s, tick));
    DispatchInv(c, AfterCpu(c, s, tick));
  }

  /** The state in which the CPU step of a tick starts, and the one it leaves behind. */
  function BeforeCpu(c: Config, s: State, tick: int): (r: State)
    requires |s.rides| == |c.rides|
    ensures |r.rides| == |c.rides|
  {
    Dispatch(c, WaitMetrics(c, UpToWaits(c, s, tick)))
  }

  function AfterCpu(c: Config, s: State, tick: int): State
    requires |s.rides| == |c.rides|
  {
    CpuTick(c, BeforeCpu(c, s, tick))
  }

  lemma TickUnfolds(c: Config, s: State, tick: int)
    requires Inv(c, s, [])
    ensures |s.rides| == |c.rides|
    ensures BeforeCpu(c, s, tick) == Dispatch(c, WaitMetrics(c, UpToWaits(c, s, tick)))
    ensures AfterCpu(c, s, tick) == CpuTick(c, BeforeCpu(c, s, tick))
    ensures Tick(c, s, tick) == Dispatch(c, AfterCpu(c, s, tick))
  {
  }

  /** Every reachable tick boundary of every configuration satisfies the invariant. */
  lemma {:induction false} AfterInv(c: Config, n: nat)
    requires NoDup(c.order) && c.quantum >= 1
    ensures Inv(c, After(c, n), [])
    ensures After(c, n).cpu == null ==> After(c, n).ready == []
  {
    hide *;
    AfterUnfolds(c, n);
    if n == 0 {
      InitialInv(c);
    } else {
      AfterInv(c, n - 1);
      TickInv(c, After(c, n - 1), n - 1);
    }
  }

  lemma AfterUnfolds(c: Config, n: nat)
    ensures After(c, n) == if n == 0 then Initial(c) else Tick(c, After(c, n - 1), n - 1)
    ensures Initial(c).cpu == null && Initial(c).ready == []
  {
  }
}
