/** The simulation object: guests, rides, the READY queue and the CPU, advanced tick by tick.
    Every method is proved against the function of the same name in `SimModel`. */
module Simulations {
  import opened Guests
  import opened MemoryModel
  import opened RideModel
  import opened SchedulerModel
  import opened Sequences
  import opened SimModel
  import opened Invariant
  import opened Preservation
  import opened Completion
  import opened MemoryManagers
  import opened Rides
  import opened Schedulers
  import opened Conservation

  function Specs(rides: seq<Ride>): seq<RideSpec> {
    seq(|rides|, i requires 0 <= i < |rides| => rides[i].Spec())
  }

  function Views(rides: seq<Ride>): seq<RideData>
    reads rides
  {
    seq(|rides|, i requires 0 <= i < |rides| reads rides => rides[i].View())
  }

  class Simulation {
    const rides: seq<Ride>
    const guests: seq<Guest>
    const scheduler: Scheduler
    const memory: MemoryManager

    var readyQueue: seq<Guest>
    var cpuGuest: Guest?
    var rrQuantumTicks: int
    var completed: int
    var waitSum: int
    var rideBusyTicks: int
    var ticksExecuted: int

    function All(): set<Guest> {
      set g | g in guests
    }

    function Settings(): Config
      reads this, scheduler
    {
      Config(guests, Specs(rides), scheduler.policy, rrQuantumTicks)
    }

    function View(): State
      reads this, memory, guests, rides
    {
      State(Snapshot(All()), Views(rides), readyQueue, cpuGuest, memory.View(), completed, waitSum,
            rideBusyTicks, ticksExecuted)
    }

    ghost predicate Valid()
      reads this, scheduler, memory, guests, rides
    {
      NoDup(rides) && Inv(Settings(), View(), [])
    }

    constructor (rides: seq<Ride>, guests: seq<Guest>, policy: Policy)
      requires NoDup(rides) && NoDup(guests)
      ensures this.rides == rides && this.guests == guests && fresh(scheduler) && fresh(memory)
      ensures Settings() == Config(guests, Specs(rides), policy, 2)
      ensures memory.View() == Memory(1024, 0, -1, [Block(0, 1024, true)])
      ensures readyQueue == [] && cpuGuest == null && completed == 0 && waitSum == 0
      ensures rideBusyTicks == 0 && ticksExecuted == 0
      ensures (forall g | g in guests :: g.Data() == Blank(g)) && (forall r | r in rides :: r.View() == IDLE) ==>
        View() == Initial(Settings()) && Valid()
    {
      this.rides, this.guests := rides, guests;
      readyQueue, cpuGuest, rrQuantumTicks := [], null, 2;
      completed, waitSum, rideBusyTicks, ticksExecuted := 0, 0, 0, 0;
      scheduler := new Scheduler(policy);
      memory := new MemoryManager(MEMORY_SIZE);
      new;
      if (forall g | g in guests :: g.Data() == Blank(g)) && (forall r | r in rides :: r.View() == IDLE) {
        assert View() == Initial(Settings());
        InitialInv(Settings());
      }
    }

    method SetRoundRobinQuantum(quantumTicks: int)
      modifies this`rrQuantumTicks
      ensures Settings() == old(Settings()).(quantum := AtLeast(1, quantumTicks)) && View() == old(View())
      ensures rrQuantumTicks == if quantumTicks < 1 then 1 else quantumTicks
      ensures NoDup(rides) && NoDup(guests) && View() == Initial(Settings()) ==> Valid()
    {
      hide Inv, Initial, Snapshot, Views, Specs;
      rrQuantumTicks := if quantumTicks < 1 then 1 else quantumTicks;
      if NoDup(guests) {
        InitialInv(Settings());
      }
    }

    method ReleaseMemoryFor(g: Guest)
      requires g in guests
      modifies memory, g`memoryAllocated, g`memoryStart
      ensures View() == SimModel.ReleaseMemoryFor(old(View()), g)
      ensures !g.memoryAllocated
      ensures g.memoryStart == if old(g.memoryAllocated) then -1 else old(g.memoryStart)
    {
      if !g.memoryAllocated {
        return;
      }
      memory.Release(g.memoryStart, g.memoryRequirement);
      g.memoryAllocated := false;
      g.memoryStart := -1;
    }

    /** The guests that have arrived and are still NEW, in the order of the guest list. */
    method CollectArrivals(tick: int) returns (batch: seq<Guest>)
      ensures batch == Arrived(guests, Snapshot(All()), tick)
      ensures forall g | g in batch :: g in guests && g.state == NEW && g.arrivalTime <= tick
      ensures forall g | g in guests && g.state == NEW && g.arrivalTime <= tick :: g in batch
    {
      hide Snapshot, HasArrived, At, Arrived;
      batch := [];
      var i := 0;
      while i < |guests|
        invariant 0 <= i <= |guests|
        invariant batch + Arrived(guests[i..], Snapshot(All()), tick) == Arrived(guests, Snapshot(All()), tick)
      {
        var g := guests[i];
        ArrivedNow(g, tick);
        ArrivedStep(guests, Snapshot(All()), tick, i, batch);
        if g.state == NEW && tick >= g.arrivalTime {
          batch := batch + [g];
        }
        i := i + 1;
      }
      ArrivedNobody(guests[i..], Snapshot(All()), tick);
      ArrivedMembers(guests, Snapshot(All()), tick);
      forall g | g in guests ensures HasArrived(Snapshot(All()), g, tick) <==> g.state == NEW && tick >= g.arrivalTime {
        ArrivedNow(g, tick);
      }
    }

    lemma ArrivedNow(g: Guest, tick: int)
      requires g in guests
      ensures HasArrived(Snapshot(All()), g, tick) <==> g.state == NEW && tick >= g.arrivalTime
    {
    }

    /** NEW guests whose time has come get memory and become READY, in arrival order. */
    method AdmitNewArrivals(tick: int)
      requires NoDup(guests)
      modifies this`readyQueue, memory, guests
      ensures View() == Admit(old(Settings()), old(View()), tick) && Settings() == old(Settings())
    {
      hide Snapshot, Views, Specs, AdmitOne, Arrived, SortByArrival, HasArrived;
      var batch := CollectArrivals(tick);
      BatchMembers(Settings(), Snapshot(All()), tick);
      batch := SortByArrival(batch);
      var i := 0;
      assert batch[0..] == batch;
      while i < |batch|
        invariant 0 <= i <= |batch| && Settings() == old(Settings())
        invariant forall g | g in batch :: g in guests
        invariant AdmitAll(View(), batch[i..], tick) == AdmitAll(old(View()), batch, tick)
      {
        AdmitStep(View(), batch, i, tick);
        assert batch[i] in batch;
        AdmitGuest(batch[i], tick);
        i := i + 1;
      }
    }

    /** One guest of the batch. */
    method AdmitGuest(g: Guest, tick: int)
      requires g in guests
      modifies this`readyQueue, memory, g
      ensures View() == AdmitOne(old(View()), g, tick) && Settings() == old(Settings())
      ensures old(g.memoryAllocated) ==> memory.View() == old(memory.View()) && g.state == READY
    {
      hide Snapshot, Views, Specs, Allocate;
      InGuests(g);
      if !g.memoryAllocated {
        var success := memory.Allocate(g.memoryRequirement);
        if !success {
          return;
        }
        TakeMemory(g);
        InGuests(g);
      }
      BecomeReady(g, tick);
    }

    method TakeMemory(g: Guest)
      requires g in guests
      modifies g`memoryAllocated, g`memoryStart
      ensures g.Data() == old(g.Data()).(memoryAllocated := true, memoryStart := memory.lastAllocationStart)
      ensures View() == old(View()).(table := old(View()).table[g := g.Data()])
    {
      g.memoryAllocated := true;
      g.memoryStart := memory.lastAllocationStart;
    }

    method BecomeReady(g: Guest, tick: int)
      requires g in guests
      modifies this`readyQueue, g`state, g`firstReadyTick
      ensures View() == MakeReady(old(View()), g, old(g.Data()), tick) && Settings() == old(Settings())
      ensures g.state == READY
    {
      hide Snapshot, Views, Specs;
      StampReady(g, tick);
      readyQueue := readyQueue + [g];
    }

    method StampReady(g: Guest, tick: int)
      requires g in guests
      modifies g`state, g`firstReadyTick
      ensures g.state == READY
      ensures var d := old(g.Data());
        View() == old(View()).(table := old(View()).table[
          g := d.(state := READY, firstReady := if d.firstReady < 0 then tick else d.firstReady)])
    {
      g.state := READY;
      if g.firstReadyTick < 0 {
        g.firstReadyTick := tick;
      }
    }

    /** READY and WAITING guests accrue one tick of waiting. */
    method UpdateWaitMetrics()
      requires NoDup(guests)
      modifies guests
      ensures View() == WaitMetrics(old(Settings()), old(View())) && Settings() == old(Settings())
    {
      hide CountWaits, Waits, Snapshot, Views, Specs;
      var i := 0;
      ghost var m := Snapshot(All());
      SnapshotKeys(All());
      CountWaitsStart(m);
      assert guests[..0] == [];
      while i < |guests|
        invariant 0 <= i <= |guests|
        invariant Snapshot(All()) == CountWaits(m, guests[..i])
      {
        var g := guests[i];
        assert g !in guests[..i] && guests[..i + 1] == guests[..i] + [g];
        InGuests(g);
        CountWaitsStep(m, guests[..i], g);
        AccrueWait(g);
        i := i + 1;
      }
      assert guests[..i] == guests;
    }

    method AccrueWait(g: Guest)
      requires g in guests
      modifies g`totalWaitTicks
      ensures Snapshot(All()) ==
        if Waits(old(g.Data())) then old(Snapshot(All()))[g := old(g.Data()).(totalWait := old(g.totalWaitTicks) + 1)]
        else old(Snapshot(All()))
    {
      if g.state == READY || g.state == WAITING {
        g.totalWaitTicks := g.totalWaitTicks + 1;
      }
    }

    /** If the CPU is idle, the scheduler picks the next guest. */
    method TryDispatchCpu()
      requires forall g | g in readyQueue :: g in guests
      modifies this`readyQueue, this`cpuGuest, guests
      ensures View() == Dispatch(old(Settings()), old(View())) && Settings() == old(Settings())
    {
      hide Dispatch, Pick, Snapshot, Views, Specs, At;
      DispatchForm(Settings(), View());
      if cpuGuest != null {
        return;
      }
      PickMember(scheduler.policy, readyQueue);
      var next, rest := scheduler.PickNext(readyQueue);
      readyQueue := rest;
      if next == null {
        return;
      }
      InGuests(next);
      if next.riding {
        readyQueue := readyQueue + [next];
        return;
      }
      MarkRunning(next);
      cpuGuest := next;
    }

    method MarkRunning(g: Guest)
      requires g in guests
      modifies g`state, g`rrCpuUsedThisSlice
      ensures View() == old(View()).(table := old(View()).table[g := old(g.Data()).(state := RUNNING, sliceUsed := 0)])
    {
      g.state := RUNNING;
      g.rrCpuUsedThisSlice := 0;
    }

    /** One tick of work for the guest on the CPU. */
    method CpuTick()
      requires NoDup(rides) && (cpuGuest != null ==> cpuGuest in guests)
      modifies this, memory, guests, rides
      ensures View() == SimModel.CpuTick(old(Settings()), old(View())) && Settings() == old(Settings())
      ensures old(cpuGuest) == null ==> View() == old(View())
      ensures old(cpuGuest) != null && old(cpuGuest.riding) ==> View() == old(View()).(cpu := null)
    {
      hide Burn, TryBoard, Snapshot, Views, Specs;
      if cpuGuest == null {
        return;
      }
      var g: Guest := cpuGuest;
      InSnapshot(g);
      if g.riding {
        cpuGuest := null;
        return;
      }
      var k := FindRide(g.requestedRideId);
      if g.requestedRideId >= 0 && !g.visitCompleted {
        if k < 0 {
          MarkVisited(g);
        } else {
          BoardRide(g, k);
          cpuGuest := null;
          return;
        }
      }
      BurnCpu(g);
    }

    lemma InSnapshot(g: Guest)
      requires g in guests
      ensures g in Snapshot(All()) && At(Snapshot(All()), g) == g.Data()
      ensures |Specs(rides)| == |Views(rides)| == |rides|
      ensures forall k | 0 <= k < |rides| :: Specs(rides)[k] == rides[k].Spec() && Views(rides)[k] == rides[k].View()
    {
    }

    method MarkVisited(g: Guest)
      requires g in guests
      modifies g`visitCompleted
      ensures g.visitCompleted
      ensures View() == old(View()).(table := old(View()).table[g := old(g.Data()).(visitCompleted := true)])
    {
      g.visitCompleted := true;
    }

    /** The first ride with this id, by index; -1 stands for the null pointer. */
    method FindRide(id: int) returns (k: int)
      ensures k == RideIndex(Specs(rides), id)
      ensures -1 <= k < |rides| && (k >= 0 ==> rides[k].id == id)
      ensures forall j | 0 <= j < if k >= 0 then k else |rides| :: rides[j].id != id
    {
      var i := 0;
      while i < |rides|
        invariant 0 <= i <= |rides| && forall j | 0 <= j < i :: rides[j].id != id
      {
        if rides[i].id == id {
          FirstRide(Specs(rides), id, i);
          return i;
        }
        i := i + 1;
      }
      FirstRide(Specs(rides), id, |rides|);
      return -1;
    }

    method BoardRide(g: Guest, k: nat)
      requires NoDup(rides) && g in guests && k < |rides|
      modifies rides, g`riding, g`state
      ensures var b := TryBoard(rides[k].Spec(), old(rides[k].View()), old(View()).table, g);
        View() == old(View()).(table := b.table, rides := old(View()).rides[k := b.ride])
    {
      ghost var before := Views(rides);
      var boarded := rides[k].TryBoard(g, All());
      assert Views(rides) == before[k := rides[k].View()];
    }

    /** Consumes one unit of burst; round robin may preempt, and a guest with nothing left terminates. */
    method BurnCpu(g: Guest)
      requires g in guests && cpuGuest == g
      modifies this, memory, g
      ensures View() == Burn(old(Settings()), old(View()), g) && Settings() == old(Settings())
    {
      hide Terminate, Worked, Snapshot, Views, Specs;
      InGuests(g);
      var cpuBefore := g.remainingTime;
      Work(g);
      InGuests(g);
      WorkedState(Settings(), old(g.Data()));
      if scheduler.policy == RoundRobin && cpuBefore > 0 {
        if g.rrCpuUsedThisSlice >= rrQuantumTicks && g.remainingTime > 0 {
          Preempt(g);
          return;
        }
      }
      if g.remainingTime == 0 && (g.visitCompleted || g.requestedRideId < 0) {
        Leave(g);
        cpuGuest := null;
      }
    }

    lemma InGuests(g: Guest)
      requires g in guests
      ensures g in Snapshot(All()) && At(Snapshot(All()), g) == g.Data()
    {
    }

    method Work(g: Guest)
      requires g in guests
      modifies g`remainingTime, g`rrCpuUsedThisSlice
      ensures View() == old(View()).(table := old(View()).table[g := Worked(Settings(), old(g.Data()))])
      ensures g.Data() == Worked(Settings(), old(g.Data())) && Settings() == old(Settings())
    {
      var cpuBefore := g.remainingTime;
      if g.remainingTime > 0 {
        g.remainingTime := g.remainingTime - 1;
      }
      if scheduler.policy == RoundRobin && cpuBefore > 0 {
        g.rrCpuUsedThisSlice := g.rrCpuUsedThisSlice + 1;
      }
    }

    method Preempt(g: Guest)
      requires g in guests
      modifies this`readyQueue, this`cpuGuest, g`state, g`rrCpuUsedThisSlice
      ensures Settings() == old(Settings())
      ensures View() == old(View()).(
        table := old(View()).table[g := old(g.Data()).(state := READY, sliceUsed := 0)],
        ready := old(readyQueue) + [g], cpu := null)
    {
      g.state := READY;
      g.rrCpuUsedThisSlice := 0;
      readyQueue := readyQueue + [g];
      cpuGuest := null;
    }

    /** Ticks every ride; guests that left one go back to READY or leave the park. */
    method ProcessRidePhase()
      requires Valid()
      modifies this, memory, guests, rides
      ensures View() == RidePhase(old(Settings()), old(View()), 0) && Settings() == old(Settings())
    {
      hide *;
      ghost var c := Settings();
      StartOfPhase();
      var i := 0;
      while i < |rides|
        invariant 0 <= i <= |rides| == |c.rides| == |View().rides| && Settings() == c == old(Settings())
        invariant NoDup(rides) && Inv(c, View(), [])
        invariant RidePhase(c, View(), i) == RidePhase(c, old(View()), 0)
      {
        ghost var s := View();
        RideTurnInv(c, s, i);
        RidePhaseUnfolds(c, s, i);
        TurnRide(i);
        i := i + 1;
      }
      RidePhaseUnfolds(c, View(), i);
    }

    lemma StartOfPhase()
      requires Valid()
      ensures NoDup(rides) && Inv(Settings(), View(), []) && |rides| == |Settings().rides| == |View().rides|
    {
    }

    /** Everybody in a ride's queue or on it is one of the park's guests. */
    lemma RideMembers(i: nat)
      requires Inv(Settings(), View(), []) && i < |rides|
      ensures |Specs(rides)| == |Views(rides)| == |rides| == |Settings().rides| == |View().rides|
      ensures Settings().rides[i] == rides[i].Spec() && View().rides[i] == rides[i].View()
      ensures forall g | g in rides[i].currentRiders :: g in guests
      ensures forall g | g in rides[i].waitingQueue :: g in guests
    {
      hide Inv;
      WaitingMembers(Settings(), View(), i);
      assert View().rides[i].waiting == rides[i].waitingQueue && View().rides[i].riders == rides[i].currentRiders;
    }

    /** One ride's turn. */
    method TurnRide(i: nat)
      requires NoDup(rides) && Inv(Settings(), View(), []) && i < |rides| == |Settings().rides| == |View().rides|
      modifies this, memory, guests, rides
      ensures View() == RideTurn(old(Settings()), old(View()), i) && Settings() == old(Settings())
    {
      hide Inv, RideTick, Snapshot, SettleAll, Settle;
      RideMembers(i);
      ghost var s, spec := View(), rides[i].Spec();
      var disembarked := TickRide(i);
      ghost var s1 := View();
      var j := 0;
      assert disembarked[0..] == disembarked;
      while j < |disembarked|
        invariant 0 <= j <= |disembarked| && Settings() == old(Settings())
        invariant SettleAll(View(), spec.id, disembarked[j..]) == SettleAll(s1, spec.id, disembarked)
      {
        SettleStep(View(), spec.id, disembarked, j);
        assert disembarked[j] in disembarked;
        SettleGuest(disembarked[j], rides[i].id);
        j := j + 1;
      }
      SettleAllUnfolds(View(), spec.id, disembarked[j..]);
    }

    method TickRide(i: nat) returns (disembarked: seq<Guest>)
      requires NoDup(rides) && i < |rides|
      requires forall g | g in rides[i].currentRiders :: g in guests
      requires forall g | g in rides[i].waitingQueue :: g in guests
      modifies this`rideBusyTicks, guests, rides
      ensures forall g | g in disembarked :: g in guests
      ensures Settings() == old(Settings())
      ensures var step := RideTick(rides[i].Spec(), old(rides[i].View()), old(View()).table);
        && disembarked == step.out
        && View() == old(View()).(rides := old(View()).rides[i := step.ride], table := step.table,
                                  rideBusyTicks := old(rideBusyTicks) + if step.operating then 1 else 0)
    {
      hide Load, Seat, Alight;
      ghost var before := Views(rides);
      assert rides[i] in rides;
      var admitted, operating;
      disembarked, admitted, operating := rides[i].Tick(All());
      assert Views(rides) == before[i := rides[i].View()];
      if operating {
        rideBusyTicks := rideBusyTicks + 1;
      }
    }

    /** A guest that just left the ride with this id. */
    method SettleGuest(g: Guest, rideId: int)
      requires g in guests
      modifies this`readyQueue, this`waitSum, this`completed, memory, g
      ensures View() == Settle(old(View()), rideId, g) && Settings() == old(Settings())
      ensures g.visitCompleted <==> old(g.visitCompleted) || g.requestedRideId == rideId
      ensures g.state ==
        if g.remainingTime <= 0 && (g.visitCompleted || g.requestedRideId < 0) then TERMINATED else READY
      ensures readyQueue == if g.state == READY then old(readyQueue) + [g] else old(readyQueue)
    {
      hide Terminate, Snapshot, Views, Specs;
      InGuests(g);
      assert View().table[g := g.Data()] == View().table;
      if g.requestedRideId == rideId {
        MarkVisited(g);
      }
      InGuests(g);
      if g.remainingTime > 0 {
        PushReady(g);
      } else if g.visitCompleted || g.requestedRideId < 0 {
        Leave(g);
      } else {
        PushReady(g);
      }
    }

    method PushReady(g: Guest)
      requires g in guests
      modifies this`readyQueue, g`state
      ensures View() == old(View()).(table := old(View()).table[g := old(g.Data()).(state := READY)],
                                     ready := old(readyQueue) + [g])
      ensures g.state == READY && readyQueue == old(readyQueue) + [g]
    {
      g.state := READY;
      readyQueue := readyQueue + [g];
    }

    method AllGuestsFinished() returns (finished: bool)
      ensures finished <==> AllFinished(Settings(), View())
      ensures finished <==> forall g | g in guests :: g.state == TERMINATED
    {
      var i := 0;
      while i < |guests|
        invariant 0 <= i <= |guests| && forall j | 0 <= j < i :: guests[j].state == TERMINATED
      {
        if guests[i].state != TERMINATED {
          assert guests[i] in guests && At(View().table, guests[i]).state != TERMINATED;
          return false;
        }
        i := i + 1;
      }
      return true;
    }

    method AverageWait() returns (mean: real)
      ensures mean == MeanWait(View())
      ensures completed != 0 ==> mean * completed as real == waitSum as real
      ensures completed == 0 ==> mean == 0.0
    {
      if completed == 0 {
        return 0.0;
      }
      return waitSum as real / completed as real;
    }

    method AverageRideUtilization() returns (fraction: real)
      ensures fraction == Utilization(|rides|, View())
      ensures |rides| == 0 || ticksExecuted == 0 ==> fraction == 0.0
      ensures |rides| * ticksExecuted != 0 ==> fraction * (|rides| * ticksExecuted) as real == rideBusyTicks as real
      ensures 0 <= rideBusyTicks <= |rides| * ticksExecuted ==> 0.0 <= fraction <= 1.0
    {
      var n := |rides|;
      if n == 0 || ticksExecuted == 0 {
        return 0.0;
      }
      return rideBusyTicks as real / (n * ticksExecuted) as real;
    }

    /** One tick, in the fixed order of phases. */
    method Step(tick: int)
      requires Valid()
      modifies this, memory, guests, rides
      ensures Valid() && Settings() == old(Settings())
      ensures View() == Tick(old(Settings()), old(View()), tick)
      ensures cpuGuest == null ==> readyQueue == []
    {
      hide *;
      StartOfPhase();
      ghost var c, s := Settings(), View();
      ghost var s0 := s.(ticksExecuted := tick + 1);
      UpToWaitsUnfolds(c, s, tick);
      TickUnfolds(c, s, tick);
      TickInv(c, s, tick);
      UpToWaitsInv(c, s, tick);
      WaitMetricsInv(c, UpToWaits(c, s, tick));
      DispatchInv(c, WaitMetrics(c, UpToWaits(c, s, tick)));
      CpuTickInv(c, BeforeCpu(c, s, tick));
      AdmitInv(c, s0, tick);

      StartTick(tick);
      GuestsDistinct();
      AdmitNewArrivals(tick);
      ValidIs();
      ProcessRidePhase();
      UpdateWaitMetrics();
      ReadyMembers();
      TryDispatchCpu();
      CpuGuestMember();
      CpuTick();
      ReadyMembers();
      ViewIs();
      BusyStays(c, View());
      if cpuGuest == null {
        TryDispatchCpu();
      }
      ValidIs();
      ViewIs();
    }

    method StartTick(tick: int)
      modifies this`ticksExecuted
      ensures View() == old(View()).(ticksExecuted := tick + 1) && Settings() == old(Settings())
    {
      ticksExecuted := tick + 1;
    }

    method ResetCounters()
      modifies this`ticksExecuted, this`rideBusyTicks
      ensures View() == old(View()).(ticksExecuted := 0, rideBusyTicks := 0) && Settings() == old(Settings())
    {
      ticksExecuted := 0;
      rideBusyTicks := 0;
    }

    lemma GuestsDistinct()
      requires Inv(Settings(), View(), [])
      ensures NoDup(guests)
    {
    }

    lemma ValidIs()
      ensures Valid() <==> NoDup(rides) && Inv(Settings(), View(), [])
    {
    }

    lemma ViewIs()
      ensures View() == State(Snapshot(All()), Views(rides), readyQueue, cpuGuest, memory.View(), completed, waitSum,
                              rideBusyTicks, ticksExecuted)
    {
    }

    lemma ReadyMembers()
      requires Inv(Settings(), View(), [])
      ensures forall g | g in readyQueue :: g in guests
    {
      hide Inv;
      forall g | g in readyQueue ensures g in guests {
        ReadyMember(Settings(), View(), g);
      }
    }

    lemma CpuGuestMember()
      requires Inv(Settings(), View(), [])
      ensures cpuGuest != null ==> cpuGuest in guests
    {
      hide Inv;
      if cpuGuest != null {
        CpuMember(Settings(), View());
      }
    }

    /** The driver: ticks until `maxTicks` or until everybody has left. A fresh simulation that is given
        its deadline serves everybody, unless somebody can never be served. */
    method Run(maxTicks: int)
      requires Valid()
      modifies this, memory, guests, rides
      ensures Valid() && Settings() == old(Settings())
      ensures View() == SimModel.Run(old(Settings()), old(View()), maxTicks)
      ensures old(View()) == Initial(old(Settings())) && maxTicks >= Deadline(old(Settings())) ==>
        && ((forall g | g in guests :: g.state == TERMINATED) <==> AllFinishable(Settings()))
        && ((forall g | g in guests :: g.state == if g.memoryRequirement <= 1024 then TERMINATED else NEW)
            <==> Servable(Settings()))
      ensures (forall g | g in guests :: g.state == TERMINATED) ==>
        completed == |guests| && memory.blocks == [Block(0, 1024, true)]
      ensures 0 <= rideBusyTicks <= |rides| * ticksExecuted
    {
      hide *;
      ghost var c, s := Settings(), View();
      StartOfPhase();
      ResetCounters();
      ghost var start := View();
      RunStart(c, s, start, maxTicks);
      var t := 0;
      while t < maxTicks
        invariant Settings() == c && NoDup(rides) && Inv(c, View(), []) && |View().rides| == |c.rides|
        invariant RunFrom(c, View(), t, maxTicks) == RunFrom(c, start, 0, maxTicks)
        decreases maxTicks - t
      {
        RunFromStep(c, View(), t, maxTicks);
        ValidIs();
        Step(t);
        var finished := AllGuestsFinished();
        if finished {
          break;
        }
        StartOfPhase();
        t := t + 1;
      }
      RunFromEnd(c, View(), t, maxTicks);
      ValidIs();
      EndOfRun(c, s, maxTicks);
      RunFromBusy(c, start, 0, maxTicks);
      RunCounters(c, s, start, maxTicks);
    }

    lemma RunCounters(c: Config, s: State, start: State, maxTicks: int)
      requires |s.rides| == |start.rides| == |c.rides| && c == Settings()
      requires View() == SimModel.Run(c, s, maxTicks) == RunFrom(c, start, 0, maxTicks)
      ensures |c.rides| == |rides|
      ensures View().rideBusyTicks == rideBusyTicks && View().ticksExecuted == ticksExecuted
    {
      hide RunFrom, SimModel.Run;
    }

    lemma EndOfRun(c: Config, s: State, maxTicks: int)
      requires NoDup(rides) && Inv(Settings(), View(), [])
      ensures c == Settings() && s == Initial(c) && View() == SimModel.Run(c, s, maxTicks)
              && maxTicks >= Deadline(c) ==>
        && ((forall g | g in guests :: g.state == TERMINATED) <==> AllFinishable(c))
        && ((forall g | g in guests :: g.state == if g.memoryRequirement <= 1024 then TERMINATED else NEW)
            <==> Servable(c))
      ensures (forall g | g in guests :: g.state == TERMINATED) ==>
        completed == |guests| && memory.blocks == [Block(0, 1024, true)]
    {
      hide Inv, SimModel.Run, Deadline, AllFinishable, Initial, Servable;
      assert (forall g | g in guests :: g.state == TERMINATED) <==> AllFinished(Settings(), View());
      assert (forall g | g in guests :: g.state == if g.memoryRequirement <= 1024 then TERMINATED else NEW)
        <==> ServedExactly(Settings(), View());
      if AllFinished(Settings(), View()) {
        FinishedState(Settings(), View());
      }
      InvShapeParts(Settings(), View());
      if c == Settings() && s == Initial(c) && maxTicks >= Deadline(c) {
        BoundedCompletion(c, maxTicks);
        BoundedService(c, maxTicks);
      }
    }

    /** The guest leaves the park: counted, and its memory given back. */
    method Leave(g: Guest)
      requires g in guests
      modifies this`waitSum, this`completed, memory, g`state, g`memoryAllocated, g`memoryStart
      ensures View() == Terminate(old(View()), g)
      ensures g.state == TERMINATED && !g.memoryAllocated
      ensures waitSum == old(waitSum) + g.totalWaitTicks && completed == old(completed) + 1
    {
      hide SimModel.ReleaseMemoryFor, Snapshot, Views;
      InGuests(g);
      MarkTerminated(g);
      waitSum := waitSum + g.totalWaitTicks;
      completed := completed + 1;
      ReleaseMemoryFor(g);
    }

    method MarkTerminated(g: Guest)
      requires g in guests
      modifies g`state
      ensures g.state == TERMINATED
      ensures View() == old(View()).(table := old(View()).table[g := old(g.Data()).(state := TERMINATED)])
    {
      g.state := TERMINATED;
    }
  }

  lemma FirstRide(specs: seq<RideSpec>, id: int, k: nat)
    requires k <= |specs| && (k < |specs| ==> specs[k].id == id) && forall j | 0 <= j < k :: specs[j].id != id
    ensures RideIndex(specs, id) == if k == |specs| then -1 else k
  {
    RideIndexHit(specs, id);
  }

  lemma WorkedState(c: Config, d: GuestData)
    ensures var w := Worked(c, d);
      w.state == d.state && w.visitCompleted == d.visitCompleted && w.totalWait == d.totalWait
  {
  }

  lemma SettleStep(s: State, rideId: int, out: seq<Guest>, j: nat)
    requires j < |out|
    ensures SettleAll(s, rideId, out[j..]) == SettleAll(Settle(s, rideId, out[j]), rideId, out[j + 1..])
  {
    assert out[j..][0] == out[j] && out[j..][1..] == out[j + 1..];
  }

  lemma InvShapeParts(c: Config, s: State)
    requires Inv(c, s, [])
    ensures NoDup(c.order) && c.quantum >= 1
  {
  }

  lemma RunStart(c: Config, s: State, start: State, maxTicks: int)
    requires Inv(c, s, []) && start == s.(ticksExecuted := 0, rideBusyTicks := 0)
    ensures Inv(c, start, []) && |s.rides| == |start.rides| == |c.rides|
    ensures SimModel.Run(c, s, maxTicks) == RunFrom(c, start, 0, maxTicks)
  {
  }

  lemma RunFromStep(c: Config, s: State, t: int, maxTicks: int)
    requires |s.rides| == |c.rides| && t < maxTicks
    ensures RunFrom(c, s, t, maxTicks) ==
      if AllFinished(c, Tick(c, s, t)) then Tick(c, s, t) else RunFrom(c, Tick(c, s, t), t + 1, maxTicks)
  {
  }

  lemma RunFromEnd(c: Config, s: State, t: int, maxTicks: int)
    requires |s.rides| == |c.rides|
    ensures t >= maxTicks ==> RunFrom(c, s, t, maxTicks) == s
  {
  }

  /** One step of the loop that collects arrivals. */
  lemma ArrivedStep(order: seq<Guest>, m: Table, tick: int, i: nat, batch: seq<Guest>)
    requires i < |order|
    ensures batch + Arrived(order[i..], m, tick) ==
      (if HasArrived(m, order[i], tick) then batch + [order[i]] else batch) + Arrived(order[i + 1..], m, tick)
  {
    hide HasArrived;
    assert order[i..][0] == order[i] && order[i..][1..] == order[i + 1..];
  }

  lemma ArrivedNobody(order: seq<Guest>, m: Table, tick: int)
    ensures order == [] ==> Arrived(order, m, tick) == []
  {
  }

  /** Dispatch, case by case. */
  lemma DispatchForm(c: Config, s: State)
    ensures var p := Pick(c.policy, s.ready);
      && (s.cpu != null || p.guest == null ==> Dispatch(c, s) == s)
      && (s.cpu == null && p.guest != null && At(s.table, p.guest).riding ==>
            Dispatch(c, s) == s.(ready := p.rest + [p.guest]))
      && (s.cpu == null && p.guest != null && !At(s.table, p.guest).riding ==>
            Dispatch(c, s) == s.(table := s.table[p.guest := At(s.table, p.guest).(state := RUNNING, sliceUsed := 0)],
                                 ready := p.rest, cpu := p.guest))
  {
  }

  lemma BusyStays(c: Config, s: State)
    ensures s.cpu != null ==> Dispatch(c, s) == s
  {
  }

  lemma PickMember(policy: Policy, q: seq<Guest>)
    ensures Pick(policy, q).guest != null ==> Pick(policy, q).guest in q
    ensures Pick(policy, q).guest == null ==> q == [] && Pick(policy, q).rest == []
  {
  }

  lemma CountWaitsStart(m: Table)
    ensures CountWaits(m, []) == m
  {
  }

  lemma CountWaitsStep(m: Table, gs: seq<Guest>, g: Guest)
    requires g in m && g !in gs
    ensures var d := CountWaits(m, gs)[g];
      && d == m[g]
      && CountWaits(m, gs + [g]) ==
         if Waits(d) then CountWaits(m, gs)[g := d.(totalWait := d.totalWait + 1)] else CountWaits(m, gs)
  {
  }

  lemma AdmitStep(s: State, batch: seq<Guest>, i: nat, tick: int)
    requires i < |batch|
    ensures AdmitAll(s, batch[i..], tick) == AdmitAll(AdmitOne(s, batch[i], tick), batch[i + 1..], tick)
  {
    assert batch[i..][0] == batch[i] && batch[i..][1..] == batch[i + 1..];
  }
}
