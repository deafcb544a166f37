/** Admission is maximal and orderly: when it returns, no guest that could have been admitted is left
    out, and the new READY guests stand in arrival order. */
module Admission {
  import opened Guests
  import opened MemoryModel
  import opened Sequences
  import opened SimModel
  import opened Invariant
  import opened Preservation

  /** In order of (arrival, pid). */
  ghost predicate InArrivalOrder(q: seq<Guest>) {
    forall i, j | 0 <= i < j < |q| ::
      || q[i].arrivalTime < q[j].arrivalTime
      || (q[i].arrivalTime == q[j].arrivalTime && q[i].pid <= q[j].pid)
  }

  lemma ConsInOrder(g: Guest, q: seq<Guest>)
    requires InArrivalOrder(q)
    requires forall h | h in q :: g.arrivalTime < h.arrivalTime || (g.arrivalTime == h.arrivalTime && g.pid <= h.pid)
    ensures InArrivalOrder([g] + q)
  {
    var r := [g] + q;
    forall i, j | 0 <= i < j < |r|
      ensures r[i].arrivalTime < r[j].arrivalTime || (r[i].arrivalTime == r[j].arrivalTime && r[i].pid <= r[j].pid)
    {
      assert r[j] == q[j - 1] && q[j - 1] in q;
      if i > 0 {
        assert r[i] == q[i - 1];
      }
    }
  }

  lemma TailInOrder(q: seq<Guest>)
    requires InArrivalOrder(q) && q != []
    ensures InArrivalOrder(q[1..])
    ensures forall h | h in q[1..] ::
      q[0].arrivalTime < h.arrivalTime || (q[0].arrivalTime == h.arrivalTime && q[0].pid <= h.pid)
  {
    assert forall j | 0 <= j < |q| - 1 :: q[1..][j] == q[j + 1];
  }

  lemma {:induction false} InsertSorted(g: Guest, q: seq<Guest>)
    requires InArrivalOrder(q)
    ensures InArrivalOrder(Insert(g, q))
    ensures forall h | h in Insert(g, q) :: h == g || h in q
  {
    hide InArrivalOrder;
    if q == [] {
      NobodyInOrder();
      ConsInOrder(g, q);
    } else {
      TailInOrder(q);
      assert q == [q[0]] + q[1..];
      if ArrivesBefore(q[0], g) {
        InsertSorted(g, q[1..]);
        ConsInOrder(q[0], Insert(g, q[1..]));
      } else {
        ConsInOrder(g, q);
      }
    }
  }

  lemma NobodyInOrder()
    ensures InArrivalOrder([])
  {
  }

  lemma {:induction false} SortSorts(q: seq<Guest>)
    ensures InArrivalOrder(SortByArrival(q))
  {
    if q != [] {
      SortSorts(q[1..]);
      hide InArrivalOrder;
      InsertSorted(q[0], SortByArrival(q[1..]));
    }
  }

  /** With distinct pids there is one arrival order, so any correct sort gives the same batch. */
  lemma {:induction false} ArrivalOrderUnique(a: seq<Guest>, b: seq<Guest>)
    requires InArrivalOrder(a) && InArrivalOrder(b) && NoDup(a) && NoDup(b)
    requires forall g | g in a :: g in b
    requires forall g | g in b :: g in a
    requires forall g, h | g in a && h in a && g.pid == h.pid :: g == h
    ensures a == b
    decreases |a|
  {
    if a == [] {
      if b != [] {
        HeadIsMember(b);
        assert false;
      }
    } else {
      HeadIsMember(a);
      HeadIsMember(b);
      FirstInOrder(a, b[0]);
      FirstInOrder(b, a[0]);
      assert a[0] == b[0];
      hide InArrivalOrder, NoDup;
      WithoutHead(a);
      WithoutHead(b);
      ArrivalOrderUnique(a[1..], b[1..]);
    }
  }

  lemma FirstInOrder(q: seq<Guest>, g: Guest)
    requires InArrivalOrder(q) && g in q
    ensures q[0].arrivalTime < g.arrivalTime || (q[0].arrivalTime == g.arrivalTime && q[0].pid <= g.pid)
  {
    var i :| 0 <= i < |q| && q[i] == g;
  }

  lemma WithoutHead(q: seq<Guest>)
    requires q != [] && NoDup(q) && InArrivalOrder(q)
    ensures q == [q[0]] + q[1..] && NoDup(q[1..]) && InArrivalOrder(q[1..])
    ensures forall g | g in q[1..] :: g in q && g != q[0]
    ensures forall g | g in q :: g == q[0] || g in q[1..]
  {
    TailInOrder(q);
    hide InArrivalOrder;
    assert forall i | 0 <= i < |q| - 1 :: q[1..][i] == q[i + 1];
  }

  /** The guests an admission pass appended to the READY queue. */
  ghost function Appended(s: State, r: State): seq<Guest>
    requires s.ready <= r.ready
  {
    r.ready[|s.ready|..]
  }

  lemma AdmitOneRoom(s: State, g: Guest, tick: int, need: int)
    requires need > 0
    ensures HasRoom(AdmitOne(s, g, tick).memory.blocks, need) ==> HasRoom(s.memory.blocks, need)
  {
    if g.memoryRequirement > 0 && HasRoom(s.memory.blocks, g.memoryRequirement)
       && HasRoom(AdmitOne(s, g, tick).memory.blocks, need) && !At(s.table, g).memoryAllocated {
      RoomNeverGrows(s.memory.blocks, g.memoryRequirement, need);
    }
  }

  /** Later admissions of a pass never make room. */
  lemma {:induction false} AdmitAllRoom(s: State, batch: seq<Guest>, tick: int, need: int)
    requires need > 0
    ensures HasRoom(AdmitAll(s, batch, tick).memory.blocks, need) ==> HasRoom(s.memory.blocks, need)
    decreases |batch|
  {
    if batch != [] {
      AdmitOneRoom(s, batch[0], tick, need);
      AdmitAllRoom(AdmitOne(s, batch[0], tick), batch[1..], tick, need);
    }
  }

  lemma AdmitOneOutcome(c: Config, s: State, g: Guest, tick: int)
    requires Inv(c, s, []) && g in s.table && s.table[g].state == NEW
    ensures var r := AdmitOne(s, g, tick);
      && g in r.table
      && if r.table[g].state == NEW then
           r.ready == s.ready && g.memoryRequirement > 0 && !HasRoom(s.memory.blocks, g.memoryRequirement)
         else r.ready == s.ready + [g]
  {
    hide Queues, Books, Tallied, RidesOk;
    assert GuestOk(c, g, s.table[g]);
  }

  lemma {:induction false} AdmitAllOutcome(c: Config, s: State, batch: seq<Guest>, tick: int)
    requires Inv(c, s, []) && NoDup(batch) && InArrivalOrder(batch)
    requires forall g | g in batch :: g in s.table && s.table[g].state == NEW
    ensures var r := AdmitAll(s, batch, tick);
      && s.ready <= r.ready && r.table.Keys == s.table.Keys
      && (forall h | h in s.table && h !in batch :: r.table[h] == s.table[h])
      && (forall g | g in batch && r.table[g].state == NEW ::
            g.memoryRequirement > 0 && !HasRoom(r.memory.blocks, g.memoryRequirement))
      && InArrivalOrder(Appended(s, r)) && (forall g | g in Appended(s, r) :: g in batch)
    decreases |batch|
  {
    hide Inv, AdmitOne, HasRoom, InArrivalOrder;
    if batch == [] {
      NobodyInOrder();
    } else {
      TailInOrder(batch);
      var g, rest := batch[0], batch[1..];
      var s1 := AdmitOne(s, g, tick);
      var r := AdmitAll(s, batch, tick);
      assert g in batch && batch == [g] + rest && g !in rest;
      AdmitOneInv(c, s, g, tick);
      AdmitOneOutcome(c, s, g, tick);
      AdmitAllOutcome(c, s1, rest, tick);
      if s1.table[g].state == NEW {
        AdmitAllRoom(s1, rest, tick, g.memoryRequirement);
        AdmitOneRoom(s, g, tick, g.memoryRequirement);
        assert Appended(s, r) == Appended(s1, r);
      } else {
        assert Appended(s, r) == [g] + Appended(s1, r);
        Heads(g, rest, Appended(s1, r));
      }
    }
  }

  lemma Heads(g: Guest, rest: seq<Guest>, tail: seq<Guest>)
    requires InArrivalOrder([g] + rest) && InArrivalOrder(tail) && forall h | h in tail :: h in rest
    ensures InArrivalOrder([g] + tail)
  {
    TailInOrder([g] + rest);
    hide InArrivalOrder;
    assert ([g] + rest)[1..] == rest;
    ConsInOrder(g, tail);
  }

  /** Admission maximality. After the admission pass of a tick, every guest that has arrived and is
      still NEW needs more than any free block holds, the new READY guests stand behind the old
      ones in (arrival, pid) order, and they are exactly the arrived guests that got their memory. */
  lemma AdmissionMaximal(c: Config, s: State, tick: int)
    requires Inv(c, s, [])
    ensures var r := Admit(c, s, tick);
      && (forall g | g in c.order && At(r.table, g).state == NEW && g.arrivalTime <= tick ::
            g.memoryRequirement > 0
            && forall x :: !FreeRun(r.memory.blocks, x, g.memoryRequirement))
      && s.ready <= r.ready
      && (forall g | g in Appended(s, r) ::
            && g in c.order && At(s.table, g).state == NEW && g.arrivalTime <= tick
            && At(r.table, g).state == READY)
      && (forall g | g in c.order && At(s.table, g).state == NEW && At(r.table, g).state != NEW :: g in Appended(s, r))
    ensures var a := Appended(s, Admit(c, s, tick)); forall i, j | 0 <= i < j < |a| ::
      || a[i].arrivalTime < a[j].arrivalTime
      || (a[i].arrivalTime == a[j].arrivalTime && a[i].pid <= a[j].pid)
  {
    hide Inv, Arrived, SortByArrival, HasRoom, FreeRun, Locals, Queues, Books, Tallied, RidesOk;
    var r := Admit(c, s, tick);
    var batch := SortByArrival(Arrived(c.order, s.table, tick));
    InvParts(c, s, []);
    BatchMembers(c, s.table, tick);
    SortSorts(Arrived(c.order, s.table, tick));
    AtIn(c, s);
    AdmitInv(c, s, tick);
    AdmitAllOutcome(c, s, batch, tick);
    forall g | g in c.order && HasArrived(r.table, g, tick)
      ensures g.memoryRequirement > 0 && forall x :: !FreeRun(r.memory.blocks, x, g.memoryRequirement)
    {
      NoRoomNoRun(c, r, g.memoryRequirement);
    }
    ReadySets(c, s, r);
  }

  // ---------------------------------------------------------------- who gets the memory

  /** The memory once these guests have been served, each if it fits when its turn comes. */
  function MemoryAfter(m: Memory, served: seq<Guest>): Memory
    decreases |served|
  {
    if served == [] then m else MemoryAfter(Allocate(m, served[0].memoryRequirement).memory, served[1..])
  }

  lemma {:induction false} MemoryAfterSplit(m: Memory, q: seq<Guest>, a: nat, b: nat)
    requires a <= b <= |q|
    ensures MemoryAfter(m, q[..b]) == MemoryAfter(MemoryAfter(m, q[..a]), q[a..b])
    decreases a
  {
    if a == 0 {
      assert q[..0] == [] && q[0..b] == q[..b];
    } else {
      assert q[..b][0] == q[0] == q[..a][0] && q[..b][1..] == q[1..][..b - 1] && q[..a][1..] == q[1..][..a - 1];
      assert q[a..b] == q[1..][a - 1..b - 1];
      MemoryAfterSplit(Allocate(m, q[0].memoryRequirement).memory, q[1..], a - 1, b - 1);
    }
  }

  /** Serving guests keeps the memory valid and frees no cell. */
  lemma {:induction false} MemoryAfterShrinks(m: Memory, q: seq<Guest>)
    requires ValidMemory(m)
    ensures ValidMemory(MemoryAfter(m, q)) && MemoryAfter(m, q).total == m.total
    ensures forall x | CellFree(MemoryAfter(m, q).blocks, x) :: CellFree(m.blocks, x)
    decreases |q|
  {
    hide Allocate, CellFree, ValidMemory;
    if q != [] {
      AllocateShrinks(m, q[0].memoryRequirement);
      MemoryAfterShrinks(Allocate(m, q[0].memoryRequirement).memory, q[1..]);
    }
  }

  lemma AllocateShrinks(m: Memory, amount: int)
    requires ValidMemory(m)
    ensures var a := Allocate(m, amount).memory;
      ValidMemory(a) && a.total == m.total && forall x | CellFree(a.blocks, x) :: CellFree(m.blocks, x)
  {
    hide Allocate, CellFree, ValidMemory;
    AllocateRefinesCells(m, amount);
  }

  /** The outcome for one guest whose turn comes with memory `m`: it stays NEW exactly when no free run is
      long enough; otherwise it gets the lowest such run, or start 0 when it needs nothing. */
  ghost predicate ServedFrom(m: Memory, g: Guest, d: GuestData) {
    && (d.state == NEW || d.state == READY)
    && (d.state == NEW <==> forall x :: !FreeRun(m.blocks, x, g.memoryRequirement))
    && (d.state == READY && g.memoryRequirement > 0 ==>
          && FreeRun(m.blocks, d.memoryStart, g.memoryRequirement)
          && forall x | FreeRun(m.blocks, x, g.memoryRequirement) :: d.memoryStart <= x)
    && (d.state == READY && g.memoryRequirement <= 0 ==> d.memoryStart == 0)
  }

  lemma AdmitOneServes(c: Config, s: State, g: Guest, tick: int)
    requires Inv(c, s, []) && g in s.table && s.table[g].state == NEW
    ensures var r := AdmitOne(s, g, tick);
      && g in r.table && ServedFrom(s.memory, g, r.table[g])
      && r.memory == Allocate(s.memory, g.memoryRequirement).memory
  {
    hide Queues, Tallied, RidesOk, FreeRun, Allocate, ValidMemory;
    assert GuestOk(c, g, s.table[g]);
    AllocateRefinesCells(s.memory, g.memoryRequirement);
  }

  lemma MemoryAfterStart(m: Memory, q: seq<Guest>, i: nat)
    requires i <= |q|
    ensures i == 0 ==> MemoryAfter(m, q[..i]) == m
    ensures i > 0 ==>
      MemoryAfter(m, q[..i]) == MemoryAfter(Allocate(m, q[0].memoryRequirement).memory, q[1..][..i - 1])
  {
    if i > 0 {
      assert q[..i][1..] == q[1..][..i - 1] && q[..i][0] == q[0];
    }
  }

  lemma {:induction false} AdmitAllServes(c: Config, s: State, batch: seq<Guest>, tick: int)
    requires Inv(c, s, []) && NoDup(batch)
    requires forall g | g in batch :: g in s.table && s.table[g].state == NEW
    ensures var r := AdmitAll(s, batch, tick);
      && r.memory == MemoryAfter(s.memory, batch)
      && (forall h | h in s.table && h !in batch :: h in r.table && r.table[h] == s.table[h])
      && (forall i | 0 <= i < |batch| ::
            batch[i] in r.table && ServedFrom(MemoryAfter(s.memory, batch[..i]), batch[i], r.table[batch[i]]))
    decreases |batch|
  {
    hide Inv, AdmitOne, ServedFrom, Allocate;
    if batch != [] {
      var g, rest := batch[0], batch[1..];
      var s1 := AdmitOne(s, g, tick);
      var r := AdmitAll(s, batch, tick);
      assert g in batch && batch == [g] + rest && g !in rest;
      AdmitOneInv(c, s, g, tick);
      AdmitOneServes(c, s, g, tick);
      AdmitAllServes(c, s1, rest, tick);
      forall i | 0 <= i < |batch|
        ensures batch[i] in r.table && ServedFrom(MemoryAfter(s.memory, batch[..i]), batch[i], r.table[batch[i]])
      {
        MemoryAfterStart(s.memory, batch, i);
        if i > 0 {
          assert batch[i] == rest[i - 1];
        }
      }
    }
  }

  /** The guests of `batch` are those that have arrived and are NEW, in (arrival, pid) order; each is served
      from the memory that those before it leave, and `r` is the outcome. */
  ghost predicate ServedInOrder(c: Config, s: State, tick: int, batch: seq<Guest>, r: State) {
    && NoDup(batch)
    && (forall g | g in batch :: g in c.order && At(s.table, g).state == NEW && g.arrivalTime <= tick)
    && (forall g | g in c.order && At(s.table, g).state == NEW && g.arrivalTime <= tick :: g in batch)
    && (forall i, j | 0 <= i < j < |batch| ::
          || batch[i].arrivalTime < batch[j].arrivalTime
          || (batch[i].arrivalTime == batch[j].arrivalTime && batch[i].pid <= batch[j].pid))
    && r.memory == MemoryAfter(s.memory, batch)
    && (forall i | 0 <= i < |batch| ::
          ServedFrom(MemoryAfter(s.memory, batch[..i]), batch[i], At(r.table, batch[i])))
  }

  /** Who gets the memory: the admission pass serves the arrived guests in (arrival, pid) order, and a guest
      stays NEW exactly when no run of its size is free once those before it have been served. */
  lemma AdmissionInOrder(c: Config, s: State, tick: int)
    requires Inv(c, s, [])
    ensures exists batch :: ServedInOrder(c, s, tick, batch, Admit(c, s, tick))
  {
    hide Inv, Arrived, SortByArrival, ServedFrom, AdmitAll, MemoryAfter, Locals, Queues, Books, Tallied, RidesOk;
    var batch := SortByArrival(Arrived(c.order, s.table, tick));
    var r := Admit(c, s, tick);
    InvParts(c, s, []);
    AtIn(c, s);
    BatchMembers(c, s.table, tick);
    SortSorts(Arrived(c.order, s.table, tick));
    AdmitAllServes(c, s, batch, tick);
    assert ServedInOrder(c, s, tick, batch, r);
  }

  /** Nobody is passed over: of two guests that have arrived and are NEW, if the one that comes later in
      (arrival, pid) order gets in, so does the earlier one when it needs no more memory. */
  lemma NobodyPassedOver(c: Config, s: State, tick: int, g: Guest, h: Guest)
    requires Inv(c, s, []) && g in c.order && h in c.order
    requires At(s.table, g).state == NEW && g.arrivalTime <= tick
    requires At(s.table, h).state == NEW && h.arrivalTime <= tick
    requires g.arrivalTime < h.arrivalTime || (g.arrivalTime == h.arrivalTime && g.pid < h.pid)
    requires g.memoryRequirement <= h.memoryRequirement
    ensures var r := Admit(c, s, tick); At(r.table, h).state == READY ==> At(r.table, g).state == READY
  {
    hide Inv, Admit, MemoryAfter, FreeRun;
    var r := Admit(c, s, tick);
    AdmissionInOrder(c, s, tick);
    var batch :| ServedInOrder(c, s, tick, batch, r);
    assert g in batch && h in batch;
    var a :| 0 <= a < |batch| && batch[a] == g;
    var b :| 0 <= b < |batch| && batch[b] == h;
    var m := MemoryAfter(s.memory, batch[..a]);
    MemoryValid(c, s);
    MemoryAfterShrinks(s.memory, batch[..a]);
    MemoryAfterSplit(s.memory, batch, a, b);
    MemoryAfterShrinks(m, batch[a..b]);
    if x :| FreeRun(MemoryAfter(s.memory, batch[..b]).blocks, x, h.memoryRequirement) {
      ShorterRun(MemoryAfter(s.memory, batch[..b]).blocks, m.blocks, x, h.memoryRequirement, g.memoryRequirement);
    }
  }

  lemma MemoryValid(c: Config, s: State)
    requires Inv(c, s, [])
    ensures ValidMemory(s.memory)
  {
  }

  lemma ShorterRun(bs: seq<Block>, wider: seq<Block>, x: int, amount: int, less: int)
    requires FreeRun(bs, x, amount) && less <= amount && forall c | CellFree(bs, c) :: CellFree(wider, c)
    ensures FreeRun(wider, x, less)
  {
  }

  lemma NoRoomNoRun(c: Config, s: State, need: int)
    requires Inv(c, s, [])
    ensures need > 0 && !HasRoom(s.memory.blocks, need) ==> forall x :: !FreeRun(s.memory.blocks, x, need)
  {
    hide Queues, Tallied, Locals, FreeRun;
    if need > 0 && !HasRoom(s.memory.blocks, need) {
      forall x ensures !FreeRun(s.memory.blocks, x, need) {
        if FreeRun(s.memory.blocks, x, need) {
          RunGivesRoom(s.memory.blocks, need, 0, MEMORY_SIZE, x);
        }
      }
    }
  }

  /** The appended guests are those that were NEW and are READY. */
  lemma ReadySets(c: Config, s: State, r: State)
    requires Inv(c, s, []) && Inv(c, r, []) && Admits(s, r)
    ensures forall g | g in Appended(s, r) :: g in s.table && s.table[g].state == NEW && r.table[g].state == READY
    ensures forall g | g in s.table && s.table[g].state == NEW && r.table[g].state == READY :: g in Appended(s, r)
  {
    hide Books, Tallied, Locals;
    NoDupSplit(r.ready, |s.ready|);
    assert r.ready[..|s.ready|] == s.ready;
    forall g | g in Appended(s, r) ensures g in s.table && s.table[g].state == NEW && r.table[g].state == READY {
      assert g in r.ready && g !in s.ready;
      if s.table[g].state == READY {
        assert Located(c, s.rides, s.ready, s.cpu, [], g, s.table[g]);
      }
    }
    forall g | g in s.table && s.table[g].state == NEW && r.table[g].state == READY ensures g in Appended(s, r) {
      assert Located(c, r.rides, r.ready, r.cpu, [], g, r.table[g]);
      assert g !in s.ready;
    }
  }
}
