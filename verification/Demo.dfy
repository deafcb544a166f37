/** The scenario that ships with the simulation: three rides, five guests, 120 ticks. */
module Demo {
  import opened Guests
  import opened MemoryModel
  import opened RideModel
  import opened SchedulerModel
  import opened Sequences
  import opened SimModel
  import opened Invariant
  import opened Completion
  import opened Rides
  import opened Simulations

  const DEMO_RIDES := [RideSpec(0, 2, 3), RideSpec(1, 1, 4), RideSpec(2, 1, 2)]

  predicate IsGuest(g: Guest, pid: int, arrival: int, burst: int, memory: int, priority: int, ride: int) {
    && g.pid == pid && g.arrivalTime == arrival && g.burstTime == burst
    && g.memoryRequirement == memory && g.priority == priority && g.requestedRideId == ride
  }

  predicate DemoGuests(gs: seq<Guest>) {
    && |gs| == 5
    && IsGuest(gs[0], 0, 0, 4, 200, 2, 0)
    && IsGuest(gs[1], 1, 1, 3, 128, 1, 1)
    && IsGuest(gs[2], 2, 2, 6, 256, 3, 0)
    && IsGuest(gs[3], 3, 3, 2, 128, 2, 1)
    && IsGuest(gs[4], 4, 4, 5, 300, 0, 0)
  }

  lemma DemoRideOf(c: Config, g: Guest)
    requires c.rides == DEMO_RIDES && 0 <= g.requestedRideId <= 1
    ensures RideOf(c, g) == g.requestedRideId
  {
    assert c.rides[1..][0] == c.rides[1];
  }

  /** The scenario's deadline is tick 51. */
  lemma DemoDeadline(c: Config)
    requires c.rides == DEMO_RIDES && DemoGuests(c.order)
    ensures AllFinishable(c) && Deadline(c) == 51
  {
    var gs := c.order;
    forall g | g in gs ensures Finishable(c, g) {
      DemoRideOf(c, g);
    }
    var f := (g: Guest) => Demand(c, g);
    assert f(gs[0]) == 9 && f(gs[1]) == 9 && f(gs[2]) == 11 && f(gs[3]) == 8 && f(gs[4]) == 10 by {
      forall g | g in gs ensures RideOf(c, g) == g.requestedRideId {
        DemoRideOf(c, g);
      }
    }
    SumOfFive(gs, f);
    ArrivalsOfFive(gs);
  }

  lemma SumOfFive(gs: seq<Guest>, f: Guest -> int)
    requires |gs| == 5
    ensures Sum(gs, f) == f(gs[0]) + f(gs[1]) + f(gs[2]) + f(gs[3]) + f(gs[4])
  {
    assert gs[4..][1..] == [] && gs[3..][1..] == gs[4..] && gs[2..][1..] == gs[3..] && gs[1..][1..] == gs[2..];
    assert Sum(gs[4..], f) == f(gs[4]);
    assert Sum(gs[3..], f) == f(gs[3]) + Sum(gs[4..], f);
    assert Sum(gs[2..], f) == f(gs[2]) + Sum(gs[3..], f);
  }

  lemma ArrivalsOfFive(gs: seq<Guest>)
    requires |gs| == 5 && forall i | 0 <= i < 5 :: gs[i].arrivalTime == i && Admissible(gs[i])
    ensures LatestArrival(gs) == 4
  {
    assert gs[4..][1..] == [] && gs[3..][1..] == gs[4..] && gs[2..][1..] == gs[3..] && gs[1..][1..] == gs[2..];
    assert LatestArrival(gs[4..]) == 4;
    assert LatestArrival(gs[3..]) == 4;
    assert LatestArrival(gs[2..]) == 4;
  }

  /** The demo's 120 ticks are enough for its guests under every policy and every quantum. */
  lemma DemoFinishes(c: Config)
    requires c.rides == DEMO_RIDES && DemoGuests(c.order) && c.quantum >= 1
    ensures AllFinished(c, Run(c, Initial(c), 120))
  {
    hide Deadline, Run, Initial, AllFinished;
    DemoDistinct(c.order);
    DemoDeadline(c);
    BoundedCompletion(c, 120);
  }

  lemma DemoDistinct(gs: seq<Guest>)
    requires DemoGuests(gs)
    ensures NoDup(gs)
  {
    assert forall i | 0 <= i < 5 :: gs[i].pid == i;
  }

  method MakeDemoRides() returns (rides: seq<Ride>)
    ensures fresh(rides) && NoDup(rides) && Specs(rides) == DEMO_RIDES
    ensures |rides| == 3
    ensures rides[0].id == 0 && rides[0].capacity == 2 && rides[0].durationTicks == 3
    ensures rides[1].id == 1 && rides[1].capacity == 1 && rides[1].durationTicks == 4
    ensures rides[2].id == 2 && rides[2].capacity == 1 && rides[2].durationTicks == 2
    ensures forall r | r in rides :: r.View() == IDLE
  {
    var carousel := new Ride(0, 2, 3);
    var coaster := new Ride(1, 1, 4);
    var ferris := new Ride(2, 1, 2);
    rides := [carousel, coaster, ferris];
  }

  method MakeBaseScenarioGuests() returns (guests: seq<Guest>)
    ensures fresh(guests) && DemoGuests(guests) && |guests| == 5
    ensures forall i | 0 <= i < 5 :: guests[i].pid == i && guests[i].arrivalTime == i
    ensures guests[0].burstTime == 4 && guests[0].memoryRequirement == 200 && guests[0].priority == 2
    ensures guests[1].burstTime == 3 && guests[1].memoryRequirement == 128 && guests[1].priority == 1
    ensures guests[2].burstTime == 6 && guests[2].memoryRequirement == 256 && guests[2].priority == 3
    ensures guests[3].burstTime == 2 && guests[3].memoryRequirement == 128 && guests[3].priority == 2
    ensures guests[4].burstTime == 5 && guests[4].memoryRequirement == 300 && guests[4].priority == 0
    ensures guests[0].requestedRideId == 0 && guests[1].requestedRideId == 1 && guests[2].requestedRideId == 0
    ensures guests[3].requestedRideId == 1 && guests[4].requestedRideId == 0
    ensures forall g | g in guests :: g.Data() == Blank(g)
  {
    var g0 := new Guest(0, 0, 4, 200, 2, 0);
    var g1 := new Guest(1, 1, 3, 128, 1, 1);
    var g2 := new Guest(2, 2, 6, 256, 3, 0);
    var g3 := new Guest(3, 3, 2, 128, 2, 1);
    var g4 := new Guest(4, 4, 5, 300, 0, 0);
    guests := [g0, g1, g2, g3, g4];
  }

  /** One case of the demo: all five guests leave, and all memory is back. */
  method RunCase(policy: Policy, quantum: int) returns (completed: int, left: seq<Block>)
    ensures completed == 5 && left == [Block(0, 1024, true)]
  {
    hide *;
    var rides := MakeDemoRides();
    var guests := MakeBaseScenarioGuests();
    DemoDistinct(guests);
    var sim := new Simulation(rides, guests, policy);
    ghost var before := sim.Settings();
    sim.SetRoundRobinQuantum(quantum);
    InitialSame(before, sim.Settings());
    DemoDeadline(sim.Settings());
    sim.Run(120);
    FiveGuests(guests);
    DemoDistinct(guests);
    return sim.completed, sim.memory.blocks;
  }

  lemma InitialSame(c: Config, d: Config)
    requires c.order == d.order && c.rides == d.rides
    ensures Initial(c) == Initial(d)
  {
  }

  lemma FiveGuests(gs: seq<Guest>)
    requires DemoGuests(gs)
    ensures |gs| == 5
  {
  }
}
