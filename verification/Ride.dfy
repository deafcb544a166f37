/** The ride object, proved against `RideModel`. The guests it changes are passed as a ghost set. */
module Rides {
  import opened Guests
  import opened RideModel

  class Ride {
    const id: int
    const capacity: int
    const durationTicks: int

    var busy: bool
    var remainingBusyTime: int
    var currentRiders: seq<Guest>
    var waitingQueue: seq<Guest>

    function Spec(): RideSpec {
      RideSpec(id, capacity, durationTicks)
    }

    function View(): RideData
      reads this
    {
      RideData(busy, remainingBusyTime, currentRiders, waitingQueue)
    }

    constructor (id: int, capacity: int, durationTicks: int)
      ensures this.id == id && this.capacity == capacity && this.durationTicks == durationTicks
      ensures !busy && remainingBusyTime == 0 && currentRiders == [] && waitingQueue == []
      ensures Spec() == RideSpec(id, capacity, durationTicks) && View() == IDLE
    {
      this.id, this.capacity, this.durationTicks := id, capacity, durationTicks;
      busy, remainingBusyTime, currentRiders, waitingQueue := false, 0, [], [];
    }

    method TryBoard(g: Guest, ghost all: set<Guest>) returns (boarded: bool)
      requires g in all
      modifies this, g`riding, g`state
      ensures Boarding(View(), Snapshot(all), boarded) ==
              RideModel.TryBoard(Spec(), old(View()), old(Snapshot(all)), g)
      ensures old(g.state) != RUNNING ==> !boarded && View() == old(View()) && g.Data() == old(g.Data())
      ensures old(g.state) == RUNNING && old(g.riding) ==> boarded && View() == old(View()) && g.Data() == old(g.Data())
      ensures old(g.state) == RUNNING && !old(g.riding) ==>
        && (boarded <==> !old(busy) && |old(currentRiders)| < capacity)
        && g.state == (if boarded then RIDING else WAITING) && g.riding == boarded
        && currentRiders == (if boarded then old(currentRiders) + [g] else old(currentRiders))
        && waitingQueue == (if boarded then old(waitingQueue) else old(waitingQueue) + [g])
    {
      if g.state != RUNNING {
        return false;
      }
      if g.riding {
        return true;
      }
      if busy {
        g.state := WAITING;
        waitingQueue := waitingQueue + [g];
        return false;
      }
      if |currentRiders| >= capacity {
        g.state := WAITING;
        waitingQueue := waitingQueue + [g];
        return false;
      }
      currentRiders := currentRiders + [g];
      TakeSeat(g, all);
      StartCycleIfLoadingComplete();
      return true;
    }

    static method TakeSeat(g: Guest, ghost all: set<Guest>)
      requires g in all
      modifies g`riding, g`state
      ensures Snapshot(all) == old(Snapshot(all))[g := old(g.Data()).(riding := true, state := RIDING)]
    {
      g.riding := true;
      g.state := RIDING;
    }

    static method StandUp(g: Guest, ghost all: set<Guest>)
      requires g in all
      modifies g`riding
      ensures Snapshot(all) == old(Snapshot(all))[g := old(g.Data()).(riding := false)]
    {
      g.riding := false;
    }

    method StartCycleIfLoadingComplete()
      modifies this`busy, this`remainingBusyTime
      ensures View() == StartCycle(Spec(), old(View()))
    {
      if busy || currentRiders == [] {
        return;
      }
      busy := true;
      remainingBusyTime := durationTicks;
    }

    method FinishCycle(ghost all: set<Guest>) returns (disembarked: seq<Guest>)
      requires forall g | g in currentRiders :: g in all
      modifies this, currentRiders
      ensures View() == RideModel.FinishCycle(old(View()))
      ensures Snapshot(all) == Alight(old(Snapshot(all)), old(currentRiders))
      ensures disembarked == old(currentRiders)
    {
      hide Alight, Snapshot;
      ghost var m0 := Snapshot(all);
      SnapshotKeys(all);
      AlightStart(m0);
      disembarked := [];
      var i := 0;
      while i < |currentRiders|
        invariant 0 <= i <= |currentRiders| && View() == old(View())
        invariant disembarked == currentRiders[..i]
        invariant Snapshot(all) == Alight(m0, currentRiders[..i])
      {
        var g := currentRiders[i];
        assert currentRiders[..i + 1] == currentRiders[..i] + [g] && g in currentRiders;
        InSnapshot(all, g);
        AlightStep(m0, currentRiders[..i], g);
        StandUp(g, all);
        disembarked := disembarked + [g];
        i := i + 1;
      }
      assert currentRiders[..i] == currentRiders;
      currentRiders := [];
      busy := false;
      remainingBusyTime := 0;
    }

    method Tick(ghost all: set<Guest>) returns (disembarked: seq<Guest>, admitted: seq<Guest>, operating: bool)
      requires forall g | g in currentRiders :: g in all
      requires forall g | g in waitingQueue :: g in all
      modifies this, all
      ensures RideStep(View(), Snapshot(all), disembarked, admitted, operating) ==
              RideTick(Spec(), old(View()), old(Snapshot(all)))
    {
      hide Load, Seat, Alight, Snapshot;
      disembarked, admitted := [], [];
      var busyBefore := busy;
      ghost var counted, ends := CountDown(View()), false;
      if busy {
        if remainingBusyTime > 0 {
          remainingBusyTime := remainingBusyTime - 1;
        }
        if remainingBusyTime == 0 {
          ends := true;
          disembarked := FinishCycle(all);
        }
      }
      ghost var r0, m0 := View(), Snapshot(all);
      assert r0 == if ends then RideModel.FinishCycle(counted) else counted;
      assert m0 == if ends then Alight(old(Snapshot(all)), counted.riders) else old(Snapshot(all));
      admitted := LoadFromQueue(all);
      ghost var l := Load(Spec(), r0, m0, []);
      assert RideTick(Spec(), old(View()), old(Snapshot(all))) ==
        RideStep(StartCycle(Spec(), l.ride), l.table, disembarked, l.admitted,
                 old(busy) || StartCycle(Spec(), l.ride).busy);
      StartCycleIfLoadingComplete();
      operating := busyBefore || busy;
    }

    /** The admission loop of a tick. */
    method LoadFromQueue(ghost all: set<Guest>) returns (admitted: seq<Guest>)
      requires forall g | g in waitingQueue :: g in all
      modifies this, waitingQueue
      ensures Loaded(View(), Snapshot(all), admitted) == Load(Spec(), old(View()), old(Snapshot(all)), [])
    {
      hide Load, Snapshot;
      admitted := [];
      while !busy && waitingQueue != [] && |currentRiders| < capacity
        invariant forall g | g in waitingQueue :: g in all && g in old(waitingQueue)
        invariant Load(Spec(), View(), Snapshot(all), admitted) == Load(Spec(), old(View()), old(Snapshot(all)), [])
        decreases |waitingQueue|
      {
        var g := waitingQueue[0];
        ghost var m := Snapshot(all);
        LoadStep(Spec(), View(), m, admitted);
        InSnapshot(all, g);
        waitingQueue := waitingQueue[1..];
        if g.state == TERMINATED {
          continue;
        }
        currentRiders := currentRiders + [g];
        TakeSeat(g, all);
        admitted := admitted + [g];
      }
      LoadEnds(Spec(), View(), Snapshot(all), admitted);
    }
  }

  lemma SnapshotKeys(all: set<Guest>)
    ensures Snapshot(all).Keys == all
  {
  }

  lemma InSnapshot(all: set<Guest>, g: Guest)
    requires g in all
    ensures g in Snapshot(all) && Snapshot(all)[g] == g.Data() == At(Snapshot(all), g)
  {
  }
}
