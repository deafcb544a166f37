/** Exact times: when a waiting guest is seated and leaves the ride, when a READY guest gets the CPU,
    and how long it keeps it. All statements are about any number `n` of further ticks from any
    reachable tick boundary, whatever the other guests do meanwhile. */
module Timing {
  import opened Guests
  import opened RideModel
  import opened SchedulerModel
  import opened SimModel
  import opened Invariant
  import opened Preservation
  import opened Completion

  /** The state `n` ticks later, starting with tick `t`. */
  function Steps(c: Config, s: State, t: int, n: nat): (r: State)
    requires |s.rides| == |c.rides|
    ensures |r.rides| == |c.rides|
    decreases n
  {
    if n == 0 then s else Steps(c, Tick(c, s, t), t + 1, n - 1)
  }

  lemma StepsUnfold(c: Config, s: State, t: int, n: nat)
    requires |s.rides| == |c.rides|
    ensures Steps(c, s, t, n) == if n == 0 then s else Steps(c, Tick(c, s, t), t + 1, n - 1)
  {
  }

  lemma {:induction false} StepsInv(c: Config, s: State, t: int, n: nat)
    requires Inv(c, s, []) && |s.rides| == |c.rides|
    ensures Inv(c, Steps(c, s, t, n), [])
    decreases n
  {
    hide Inv, Tick;
    if n > 0 {
      TickInv(c, s, t);
      StepsInv(c, Tick(c, s, t), t + 1, n - 1);
    }
  }

  lemma {:induction false} StepsLast(c: Config, s: State, t: int, n: nat)
    requires |s.rides| == |c.rides| && n > 0
    ensures Steps(c, s, t, n) == Tick(c, Steps(c, s, t, n - 1), t + n - 1)
    decreases n
  {
    hide Tick;
    if n > 1 {
      StepsLast(c, Tick(c, s, t), t + 1, n - 1);
    }
  }

  /** Runs compose: the theorems below therefore apply from any tick of any run. */
  lemma {:induction false} AfterSteps(c: Config, n: nat, m: nat)
    ensures After(c, n + m) == Steps(c, After(c, n), n, m)
  {
    hide Tick;
    if m > 0 {
      AfterSteps(c, n, m - 1);
      StepsLast(c, After(c, n), n, m);
    }
  }

  // ---------------------------------------------------------------- what one tick does to one guest, to one ride

  /** What the ride phase from ride `j` on makes of the data of one guest. */
  function AfterRides(c: Config, s: State, j: nat, g: Guest): GuestData
    requires |s.rides| == |c.rides| && g in s.table
    requires forall k | 0 <= k < |c.rides| :: RideOk(c.rides[k], s.rides[k])
  {
    var i := RideOf(c, g);
    if i >= j && g in Leavers(s.rides[i]) then Settled(s.table[g].(riding := false))
    else if i >= j && g in Boarders(c.rides[i], s.rides[i]) then s.table[g].(riding := true, state := RIDING)
    else s.table[g]
  }

  lemma RidesOkAll(c: Config, s: State)
    requires Inv(c, s, [])
    ensures |s.rides| == |c.rides| && forall k | 0 <= k < |c.rides| :: RideOk(c.rides[k], s.rides[k])
  {
  }

  lemma SeatedElsewhere(c: Config, s: State, j: nat, g: Guest)
    requires Inv(c, s, []) && j < |c.rides|
    ensures |s.rides| == |c.rides| && RideOk(c.rides[j], s.rides[j])
    ensures g in Leavers(s.rides[j]) || g in Boarders(c.rides[j], s.rides[j]) ==> RideOf(c, g) == j
    ensures g in Leavers(s.rides[j]) ==> g !in Boarders(c.rides[j], s.rides[j])
  {
    hide Books, Tallied, Locals;
    if g in Boarders(c.rides[j], s.rides[j]) {
      assert g in s.rides[j].waiting;
    }
  }

  lemma {:induction false} RidePhaseGuest(c: Config, s: State, j: nat, g: Guest)
    requires Inv(c, s, []) && j <= |c.rides| && g in s.table
    ensures |s.rides| == |c.rides| && forall k | 0 <= k < |c.rides| :: RideOk(c.rides[k], s.rides[k])
    ensures g in RidePhase(c, s, j).table && RidePhase(c, s, j).table[g] == AfterRides(c, s, j, g)
    decreases |c.rides| - j
  {
    hide Inv, RideTurn, Boarders, Leavers, RideOk, Settled, Next, RidePhase;
    RidesOkAll(c, s);
    RidePhaseUnfolds(c, s, j);
    if j < |c.rides| {
      RideTurnInv(c, s, j);
      var s1 := RideTurn(c, s, j);
      MovesKeys(s, s1);
      SeatedElsewhere(c, s, j, g);
      RidePhaseGuest(c, s1, j + 1, g);
      assert forall k | j < k < |c.rides| :: s1.rides[k] == s.rides[k];
    }
  }

  /** A guest in a ride's queue or on it: what one tick up to the wait accounting makes of its data. */
  lemma UpToWaitsGuest(c: Config, s: State, t: int, g: Guest)
    requires Inv(c, s, []) && g in s.table && (s.table[g].state == WAITING || s.table[g].state == RIDING)
    ensures |s.rides| == |c.rides| && forall k | 0 <= k < |c.rides| :: RideOk(c.rides[k], s.rides[k])
    ensures g in UpToWaits(c, s, t).table && UpToWaits(c, s, t).table[g] == AfterRides(c, s, 0, g)
  {
    hide Inv, Admit, RidePhase, UpToWaits, Settled, Leavers, Boarders;
    RidesOkAll(c, s);
    var s0 := s.(ticksExecuted := t + 1);
    UpToWaitsUnfolds(c, s, t);
    AdmitInv(c, s0, t);
    RidePhaseGuest(c, Admit(c, s0, t), 0, g);
  }

  /** The parts of a guest's data that say where it stands in its visit. */
  predicate SameVisit(d: GuestData, e: GuestData) {
    d.state == e.state && d.riding == e.riding && d.visitCompleted == e.visitCompleted
  }

  /** The rest of the tick leaves guests on rides and in ride queues alone. */
  lemma RestOfTickGuest(c: Config, s: State, t: int, g: Guest)
    requires Inv(c, s, []) && g in s.table
    ensures |s.rides| == |c.rides|
    ensures var s1 := UpToWaits(c, s, t);
      g in s1.table && (s1.table[g].state == WAITING || s1.table[g].state == RIDING) ==>
        g in Tick(c, s, t).table && SameVisit(s1.table[g], Tick(c, s, t).table[g])
  {
    hide *;
    TickUnfolds(c, s, t);
    var s1 := UpToWaits(c, s, t);
    UpToWaitsInv(c, s, t);
    WaitMetricsInv(c, s1);
    WaitMetricsVisit(c, s1, g);
    DispatchInv(c, WaitMetrics(c, s1));
    DispatchVisit(c, WaitMetrics(c, s1), g);
    CpuTickInv(c, BeforeCpu(c, s, t));
    CpuTickVisit(c, BeforeCpu(c, s, t), g);
    DispatchVisit(c, AfterCpu(c, s, t), g);
    SameVisitMeans();
  }

  lemma SameVisitMeans()
    ensures forall d, e :: SameVisit(d, e) <==>
      d.state == e.state && d.riding == e.riding && d.visitCompleted == e.visitCompleted
  {
  }

  lemma WaitMetricsVisit(c: Config, s: State, g: Guest)
    ensures g in s.table ==> g in WaitMetrics(c, s).table && SameVisit(s.table[g], WaitMetrics(c, s).table[g])
  {
  }

  lemma DispatchVisit(c: Config, s: State, g: Guest)
    requires Inv(c, s, [])
    ensures g in s.table ==> g in Dispatch(c, s).table
    ensures g in s.table && s.table[g].state != READY ==> Dispatch(c, s).table[g] == s.table[g]
    ensures g in s.table ==> Dispatch(c, s).table[g].visitCompleted == s.table[g].visitCompleted
  {
    hide Inv, Dispatch, Pick;
    DispatchInv(c, s);
  }

  lemma CpuTickVisit(c: Config, s: State, g: Guest)
    requires Inv(c, s, [])
    ensures g in s.table ==> g in CpuTick(c, s).table
    ensures g in s.table && s.table[g].state != RUNNING ==> CpuTick(c, s).table[g] == s.table[g]
    ensures g in s.table && s.table[g].visitCompleted ==> CpuTick(c, s).table[g].visitCompleted
  {
    hide Inv, CpuTick;
    CpuTickForm(c, s);
  }

  /** The guest about to use the CPU in `b` goes to ride `j` instead. */
  predicate GoesTo(c: Config, b: State, j: nat) {
    b.cpu != null && Pending(b.cpu, At(b.table, b.cpu)) && RideOf(c, b.cpu) == j
  }

  lemma CpuTickRides(c: Config, s: State, j: nat)
    requires Inv(c, s, []) && j < |c.rides|
    ensures |s.rides| == |c.rides|
    ensures CpuTick(c, s).rides[j] == if GoesTo(c, s, j) then Joined(c.rides[j], s.rides[j], s.cpu) else s.rides[j]
  {
    hide Inv, CpuTick, Stepped;
    CpuTickForm(c, s);
  }

  /** One ride over a whole tick, in closed form. */
  lemma TickRide(c: Config, s: State, t: int, j: nat)
    requires Inv(c, s, []) && j < |c.rides|
    ensures |s.rides| == |c.rides| && RideOk(c.rides[j], s.rides[j])
    ensures var b := BeforeCpu(c, s, t); var n := Next(c.rides[j], s.rides[j]);
      Tick(c, s, t).rides[j] == if GoesTo(c, b, j) then Joined(c.rides[j], n, b.cpu) else n
  {
    hide *;
    RidesOkAll(c, s);
    TickUnfolds(c, s, t);
    var s1 := UpToWaits(c, s, t);
    UpToWaitsInv(c, s, t);
    WaitMetricsInv(c, s1);
    WaitMetricsRides(c, s1);
    DispatchInv(c, WaitMetrics(c, s1));
    DispatchRides(c, WaitMetrics(c, s1));
    CpuTickInv(c, BeforeCpu(c, s, t));
    CpuTickRides(c, BeforeCpu(c, s, t), j);
    DispatchRides(c, AfterCpu(c, s, t));
  }

  lemma WaitMetricsRides(c: Config, s: State)
    ensures WaitMetrics(c, s).rides == s.rides
  {
  }

  lemma DispatchRides(c: Config, s: State)
    ensures Dispatch(c, s).rides == s.rides
  {
  }

  // ---------------------------------------------------------------- exact boarding time

  /** Number of ticks after which the guest at index `k` of the queue is seated. */
  function SeatedIn(spec: RideSpec, r: RideData, k: nat): int
    requires spec.capacity >= 1
  {
    TimeLeft(r) + k / spec.capacity * AtLeast(1, spec.duration)
  }

  /** One tick in the life of a guest at index `k` of the queue of ride `i`. */
  lemma QueueStep(c: Config, s: State, t: int, i: nat, k: nat)
    requires Inv(c, s, []) && i < |c.rides| && c.rides[i].capacity >= 1 && c.rides[i].duration >= 0
    requires |s.rides| == |c.rides| && k < |s.rides[i].waiting|
    ensures var g := s.rides[i].waiting[k]; var spec := c.rides[i]; var r := s.rides[i];
      var s' := Tick(c, s, t);
      && g in s'.table && g in s.table && s.table[g].state == WAITING && r.busy
      && if TimeLeft(r) > 1 then
           TimeLeft(s'.rides[i]) == TimeLeft(r) - 1 && k < |s'.rides[i].waiting| && s'.rides[i].waiting[k] == g
         else if k < spec.capacity then
           && g in s'.rides[i].riders && TimeLeft(s'.rides[i]) == AtLeast(1, spec.duration)
           && s'.table[g].state == RIDING
         else
           && TimeLeft(s'.rides[i]) == AtLeast(1, spec.duration)
           && k - spec.capacity < |s'.rides[i].waiting| && s'.rides[i].waiting[k - spec.capacity] == g
  {
    hide Inv, Tick, BeforeCpu, UpToWaits, Settled, RideOf;
    var g := s.rides[i].waiting[k];
    assert g in s.rides[i].waiting;
    WaitingRide(c, s, i, g);
    TickRide(c, s, t, i);
    UpToWaitsGuest(c, s, t, g);
    RestOfTickGuest(c, s, t, g);
    SeatedElsewhere(c, s, i, g);
    if g in Leavers(s.rides[i]) {
      LeaverRides(c, s, i, g);
      assert false;
    }
    if TimeLeft(s.rides[i]) <= 1 && k < c.rides[i].capacity {
      assert Boarders(c.rides[i], s.rides[i])[k] == g;
    }
  }

  lemma LeaverRides(c: Config, s: State, i: nat, g: Guest)
    requires Inv(c, s, []) && i < |c.rides| && |s.rides| == |c.rides|
    ensures g in s.rides[i].riders ==> g in s.table && s.table[g].state == RIDING && s.table[g].riding
  {
  }

  /** One tick in the life of a rider of ride `i`. */
  lemma RiderStep(c: Config, s: State, t: int, i: nat, g: Guest)
    requires Inv(c, s, []) && i < |c.rides| && c.rides[i].duration >= 0
    requires |s.rides| == |c.rides| && g in s.rides[i].riders
    ensures var s' := Tick(c, s, t);
      && g in s'.table && g in s.table && s.table[g].state == RIDING && s.rides[i].busy
      && if TimeLeft(s.rides[i]) > 1 then
           TimeLeft(s'.rides[i]) == TimeLeft(s.rides[i]) - 1 && g in s'.rides[i].riders
         else s'.table[g].visitCompleted
  {
    hide Inv, Tick, BeforeCpu, UpToWaits, RideOf;
    WaitingMembers(c, s, i);
    TickRide(c, s, t, i);
    UpToWaitsGuest(c, s, t, g);
    RestOfTickGuest(c, s, t, g);
    SeatedElsewhere(c, s, i, g);
    if TimeLeft(s.rides[i]) <= 1 {
      LateVisit(c, s, t, g);
    }
  }

  /** A visit completed in the ride phase is still completed at the end of the tick. */
  lemma LateVisit(c: Config, s: State, t: int, g: Guest)
    requires Inv(c, s, []) && g in s.table
    ensures |s.rides| == |c.rides|
    ensures g in UpToWaits(c, s, t).table && g in Tick(c, s, t).table
    ensures UpToWaits(c, s, t).table[g].visitCompleted ==> Tick(c, s, t).table[g].visitCompleted
  {
    hide *;
    TickUnfolds(c, s, t);
    var s1 := UpToWaits(c, s, t);
    UpToWaitsInv(c, s, t);
    MovesKeys(s.(ticksExecuted := t + 1), s1);
    WaitMetricsInv(c, s1);
    WaitMetricsVisit(c, s1, g);
    DispatchInv(c, WaitMetrics(c, s1));
    DispatchVisit(c, WaitMetrics(c, s1), g);
    CpuTickInv(c, BeforeCpu(c, s, t));
    CpuTickVisit(c, BeforeCpu(c, s, t), g);
    DispatchVisit(c, AfterCpu(c, s, t), g);
    SameVisitMeans();
  }

  lemma TickKeepsVisit(c: Config, s: State, t: int, g: Guest)
    requires Inv(c, s, []) && g in s.table && s.table[g].visitCompleted
    ensures |s.rides| == |c.rides|
    ensures g in Tick(c, s, t).table && Tick(c, s, t).table[g].visitCompleted
  {
    hide *;
    LateVisit(c, s, t, g);
    UpToWaitsInv(c, s, t);
    MovesVisit(s.(ticksExecuted := t + 1), UpToWaits(c, s, t), g);
  }

  lemma MovesVisit(s: State, s': State, g: Guest)
    requires Moves(s, s')
    ensures g in s.table && s.table[g].visitCompleted ==> g in s'.table && s'.table[g].visitCompleted
  {
  }

  lemma {:induction false} VisitedStays(c: Config, s: State, t: int, g: Guest, n: nat)
    requires Inv(c, s, []) && |s.rides| == |c.rides| && g in s.table && s.table[g].visitCompleted
    ensures g in Steps(c, s, t, n).table && Steps(c, s, t, n).table[g].visitCompleted
    decreases n
  {
    hide Inv, Tick;
    if n > 0 {
      TickInv(c, s, t);
      TickKeepsVisit(c, s, t, g);
      VisitedStays(c, Tick(c, s, t), t + 1, g, n - 1);
    }
  }

  /** A rider rides for exactly as long as the timer says, and then its visit is completed for good. */
  lemma {:induction false} RidingTime(c: Config, s: State, t: int, i: nat, g: Guest, n: nat)
    requires Inv(c, s, []) && i < |c.rides| && c.rides[i].duration >= 0
    requires |s.rides| == |c.rides| && g in s.rides[i].riders
    ensures var e := Steps(c, s, t, n);
      && g in e.table
      && (n < TimeLeft(s.rides[i]) ==> e.table[g].state == RIDING && g in e.rides[i].riders)
      && (n >= TimeLeft(s.rides[i]) ==> e.table[g].visitCompleted)
    decreases n
  {
    hide Inv, Tick;
    RiderStep(c, s, t, i, g);
    if n > 0 {
      TickInv(c, s, t);
      if TimeLeft(s.rides[i]) > 1 {
        RidingTime(c, Tick(c, s, t), t + 1, i, g, n - 1);
      } else {
        VisitedStays(c, Tick(c, s, t), t + 1, g, n - 1);
      }
    }
  }

  lemma DivisionStep(a: int, b: int)
    requires b >= 1
    ensures (a - b) / b == a / b - 1
  {
    var q, r := a / b, a % b;
    assert a == q * b + r && 0 <= r < b;
    assert a - b == (q - 1) * b + r;
    DivisionUnique(a - b, b, q - 1, r);
  }

  lemma DivisionUnique(a: int, b: int, q: int, r: int)
    requires b >= 1 && a == q * b + r && 0 <= r < b
    ensures a / b == q
  {
    var p := a / b;
    var diff := p - q;
    assert a == p * b + a % b;
    assert diff * b == r - a % b;
    ProductBound(diff, b);
  }

  lemma ProductBound(x: int, b: int)
    requires b >= 1
    ensures x >= 1 ==> x * b >= b
    ensures x <= -1 ==> x * b <= -b
  {
  }

  lemma Distribute(q: int, d: int)
    requires q >= 0 && d >= 0
    ensures (q + 1) * d == q * d + d && q * d >= 0
  {
  }

  lemma NextRound(spec: RideSpec, k: int)
    requires 1 <= spec.capacity <= k
    ensures k / spec.capacity * AtLeast(1, spec.duration) ==
            (k - spec.capacity) / spec.capacity * AtLeast(1, spec.duration) + AtLeast(1, spec.duration)
    ensures (k - spec.capacity) / spec.capacity * AtLeast(1, spec.duration) >= 0
  {
    DivisionStep(k, spec.capacity);
    Distribute((k - spec.capacity) / spec.capacity, AtLeast(1, spec.duration));
  }

  /** Exact boarding time. The guest at index `k` of the queue of a ride with capacity `cap`, cycle
      length `dur` and `r` ticks left on its timer waits for exactly `r + k / cap * dur` ticks, rides for
      exactly `dur` ticks after that, and has then completed its visit for good. */
  lemma {:induction false} BoardingTime(c: Config, s: State, t: int, i: nat, k: nat, n: nat)
    requires Inv(c, s, []) && i < |c.rides| && c.rides[i].capacity >= 1 && c.rides[i].duration >= 0
    requires |s.rides| == |c.rides| && k < |s.rides[i].waiting|
    ensures var g := s.rides[i].waiting[k]; var e := Steps(c, s, t, n);
      var seated := SeatedIn(c.rides[i], s.rides[i], k); var dur := AtLeast(1, c.rides[i].duration);
      && g in e.table
      && (n < seated ==> e.table[g].state == WAITING)
      && (seated <= n < seated + dur ==> e.table[g].state == RIDING && g in e.rides[i].riders)
      && (seated + dur <= n ==> e.table[g].visitCompleted)
    decreases n
  {
    hide Inv, Tick;
    QueueStep(c, s, t, i, k);
    var g, spec := s.rides[i].waiting[k], c.rides[i];
    var s' := Tick(c, s, t);
    QueueIndex(spec, s.rides[i], k);
    if n > 0 {
      TickInv(c, s, t);
      if TimeLeft(s.rides[i]) > 1 {
        BoardingTime(c, s', t + 1, i, k, n - 1);
      } else if k < spec.capacity {
        RidingTime(c, s', t + 1, i, g, n - 1);
      } else {
        NextRound(spec, k);
        BoardingTime(c, s', t + 1, i, k - spec.capacity, n - 1);
      }
    }
  }

  lemma QueueIndex(spec: RideSpec, r: RideData, k: nat)
    requires spec.capacity >= 1 && r.busy
    ensures TimeLeft(r) >= 1 && SeatedIn(spec, r, k) >= TimeLeft(r)
    ensures k < spec.capacity ==> SeatedIn(spec, r, k) == TimeLeft(r)
  {
    if k >= spec.capacity {
      NextRound(spec, k);
    } else {
      assert k / spec.capacity == 0;
    }
  }

  // ---------------------------------------------------------------- exact dispatch time

  /** CPU ticks the guest uses when dispatched: one for going to its ride, else its remaining burst,
      at most the quantum under round robin. */
  function Turn(c: Config, g: Guest, d: GuestData): int {
    if Pending(g, d) && RideOf(c, g) >= 0 then 1
    else if c.policy == RoundRobin then Min(AtLeast(1, d.remaining), c.quantum)
    else AtLeast(1, d.remaining)
  }

  /** What is left of that for the guest on the CPU. */
  function Slice(c: Config, g: Guest, d: GuestData): int {
    if Pending(g, d) && RideOf(c, g) >= 0 then 1
    else if c.policy == RoundRobin then Min(AtLeast(1, d.remaining), c.quantum - d.sliceUsed)
    else AtLeast(1, d.remaining)
  }

  /** A guest whose CPU work ends: only a negative burst without a ride to visit would not. */
  predicate WorkEnds(c: Config, g: Guest) {
    RideOf(c, g) >= 0 || g.burstTime >= 0
  }

  function Turns(c: Config, m: Table, q: seq<Guest>): int {
    if q == [] then 0 else Turn(c, q[0], At(m, q[0])) + Turns(c, m, q[1..])
  }

  /** The CPU step itself, seen from the CPU: the last step of a slice frees it. */
  lemma CpuStep(c: Config, s: State)
    requires Inv(c, s, []) && s.cpu != null && WorkEnds(c, s.cpu)
    ensures s.cpu in s.table
    ensures var h: Guest := s.cpu; var r := CpuTick(c, s); var d := s.table[h];
      && s.ready <= r.ready
      && Slice(c, h, d) >= 1
      && if Slice(c, h, d) == 1 then r.cpu == null
         else r.cpu == h && h in r.table && Slice(c, h, r.table[h]) == Slice(c, h, d) - 1
              && !(Pending(h, d) && RideOf(c, h) >= 0)
              && r.table[h].remaining == d.remaining - 1 && !(Pending(h, r.table[h]) && RideOf(c, h) >= 0)
  {
    hide Inv, CpuTick;
    CpuTickForm(c, s);
    CpuMember(c, s);
  }

  /** The same guest is on the CPU, and nobody left the READY queue, when the CPU step of the tick starts. */
  lemma BeforeCpuKeeps(c: Config, s: State, t: int)
    requires Inv(c, s, []) && s.cpu != null
    ensures |s.rides| == |c.rides| && s.cpu in s.table
    ensures var b := BeforeCpu(c, s, t);
      && Inv(c, b, []) && b.cpu == s.cpu && s.ready <= b.ready && b.table.Keys == s.table.Keys
      && b.table[s.cpu] == s.table[s.cpu]
      && (forall g | g in s.ready :: g in s.table && b.table[g] == s.table[g].(totalWait := s.table[g].totalWait + 1))
  {
    hide *;
    TickUnfolds(c, s, t);
    CpuMember(c, s);
    var s0, s1 := s.(ticksExecuted := t + 1), UpToWaits(c, s, t);
    UpToWaitsInv(c, s, t);
    MovesBusy(s0, s1);
    WaitMetricsInv(c, s1);
    WaitMetricsBusy(c, s1);
    DispatchInv(c, WaitMetrics(c, s1));
    InvParts(c, s1, []);
    ShapeKeys(c, s1);
    forall g | g in s.ready ensures g in s.table && s.table[g].state == READY {
      ReadyMember(c, s, g);
    }
  }

  lemma MovesBusy(s: State, s': State)
    requires Moves(s, s')
    ensures s'.cpu == s.cpu && s.ready <= s'.ready && s'.table.Keys == s.table.Keys
    ensures forall g | g in s.table && (s.table[g].state == READY || s.table[g].state == RUNNING) ::
      s'.table[g] == s.table[g]
  {
  }

  lemma WaitMetricsBusy(c: Config, s: State)
    ensures var r := WaitMetrics(c, s);
      && r.table.Keys == s.table.Keys && r.ready == s.ready && r.cpu == s.cpu
      && (forall g | g in s.table && s.table[g].state == RUNNING :: r.table[g] == s.table[g])
      && (s.table.Keys == (set g | g in c.order) ==> forall g | g in s.table && s.table[g].state == READY ::
            r.table[g] == s.table[g].(totalWait := s.table[g].totalWait + 1))
  {
  }

  /** One tick of the CPU: the holder's slice shrinks, or the head of the queue takes over. */
  lemma CpuTurn(c: Config, s: State, t: int)
    requires Inv(c, s, []) && s.cpu != null && WorkEnds(c, s.cpu)
    ensures |s.rides| == |c.rides| && s.cpu in s.table
    ensures var h: Guest := s.cpu; var d := s.table[h]; var s' := Tick(c, s, t);
      && Slice(c, h, d) >= 1
      && (AfterCpu(c, s, t).cpu == null <==> Slice(c, h, d) == 1)
      && s'.table.Keys == s.table.Keys
      && (Slice(c, h, d) > 1 ==>
            && s'.cpu == h && s.ready <= s'.ready && Slice(c, h, s'.table[h]) == Slice(c, h, d) - 1
            && s'.table[h].remaining == d.remaining - 1 && !(Pending(h, s'.table[h]) && RideOf(c, h) >= 0))
      && (Slice(c, h, d) == 1 && s.ready != [] && c.policy != Priority ==>
            && s'.cpu == s.ready[0] && s.ready[1..] <= s'.ready
            && s.ready[0] in s.table
            && Slice(c, s.ready[0], s'.table[s.ready[0]]) == Turn(c, s.ready[0], s.table[s.ready[0]]))
      && (forall g | g in s.ready && g in s'.table && s'.table[g].state == READY ::
            g in s.table && Turn(c, g, s'.table[g]) == Turn(c, g, s.table[g]))
  {
    hide *;
    TickUnfolds(c, s, t);
    BeforeCpuKeeps(c, s, t);
    var b := BeforeCpu(c, s, t);
    var r := AfterCpu(c, s, t);
    CpuStep(c, b);
    CpuTickInv(c, b);
    DispatchInv(c, r);
    CpuTickKeys(c, b);
    DispatchKeys(c, r);
    forall g | g in s.ready ensures g in s.table && s.table[g].state == READY && r.table[g] == b.table[g] {
      ReadyMember(c, s, g);
      CpuTickVisit(c, b, g);
    }
    if r.cpu == null && s.ready != [] && c.policy != Priority {
      PickFirst(c.policy, r.ready);
      var f := s.ready[0];
      assert f in s.ready && r.ready[0] == f;
      FreshSlice(c, f, s.table[f], Tick(c, s, t).table[f]);
      assert s.ready[1..] <= r.ready[1..];
    }
    forall g | g in s.ready && g in Tick(c, s, t).table && Tick(c, s, t).table[g].state == READY
      ensures g in s.table && Turn(c, g, Tick(c, s, t).table[g]) == Turn(c, g, s.table[g])
    {
      DispatchVisit(c, r, g);
      SameTurn(c, g, s.table[g], Tick(c, s, t).table[g]);
    }
  }

  lemma PickFirst(policy: Policy, q: seq<Guest>)
    ensures policy != Priority && q != [] ==> Pick(policy, q) == Picked(q[0], q[1..])
  {
  }

  lemma FreshSlice(c: Config, g: Guest, d: GuestData, e: GuestData)
    requires e.remaining == d.remaining && e.visitCompleted == d.visitCompleted && e.sliceUsed == 0
    ensures Slice(c, g, e) == Turn(c, g, d)
  {
  }

  lemma SameTurn(c: Config, g: Guest, d: GuestData, e: GuestData)
    requires e.remaining == d.remaining && e.visitCompleted == d.visitCompleted
    ensures Turn(c, g, e) == Turn(c, g, d)
  {
  }

  lemma DispatchKeys(c: Config, s: State)
    requires Inv(c, s, [])
    ensures Dispatch(c, s).table.Keys == s.table.Keys
  {
    hide Inv, Dispatch, Pick;
    DispatchInv(c, s);
  }

  lemma CpuTickKeys(c: Config, s: State)
    requires Inv(c, s, [])
    ensures CpuTick(c, s).table.Keys == s.table.Keys
  {
    hide CpuTick, Queues, Books, Tallied, Locals;
    CpuTickInv(c, s);
  }

  lemma {:induction false} TurnsSame(c: Config, m: Table, m': Table, q: seq<Guest>)
    requires forall g | g in q :: Turn(c, g, At(m, g)) == Turn(c, g, At(m', g))
    ensures Turns(c, m, q) == Turns(c, m', q)
  {
    if q != [] {
      TurnsSame(c, m, m', q[1..]);
    }
  }

  /** The CPU step of tick `t` takes the guest off the CPU. */
  predicate LeavesCpu(c: Config, s: State, t: int)
    requires |s.rides| == |c.rides|
  {
    s.cpu != null && AfterCpu(c, s, t).cpu == null
  }

  /** The holder keeps the CPU for its whole slice and not longer: the last CPU step of the slice, and no
      earlier one, takes it off; unless it goes to a ride it works in every tick of the slice. */
  lemma {:induction false} HoldTime(c: Config, s: State, t: int, n: nat)
    requires Inv(c, s, []) && |s.rides| == |c.rides| && s.cpu != null
    ensures s.cpu in s.table
    ensures var h: Guest := s.cpu; var d := s.table[h]; var e := Steps(c, s, t, n);
      && (n < Slice(c, h, d) ==>
            && e.cpu == h && h in e.table
            && (!(Pending(h, d) && RideOf(c, h) >= 0) ==>
                  e.table[h].remaining == d.remaining - n && !(Pending(h, e.table[h]) && RideOf(c, h) >= 0)))
      && (n < Slice(c, h, d) && WorkEnds(c, h) ==> (LeavesCpu(c, e, t + n) <==> n == Slice(c, h, d) - 1))
    decreases n
  {
    hide Inv, Tick, RideOf, AfterCpu, WorkEnds;
    CpuMember(c, s);
    OneTickSlice(c, s.cpu, s.table[s.cpu], s);
    if WorkEnds(c, s.cpu) {
      CpuTurn(c, s, t);
      if n > 0 && n < Slice(c, s.cpu, s.table[s.cpu]) {
        TickInv(c, s, t);
        hide Slice;
        HoldTime(c, Tick(c, s, t), t + 1, n - 1);
      }
    }
  }

  /** Work that does not end gets slices of one tick, one after the other. */
  lemma OneTickSlice(c: Config, g: Guest, d: GuestData, s: State)
    requires Inv(c, s, []) && s.cpu == g && g in s.table && s.table[g] == d
    ensures !WorkEnds(c, g) ==> Slice(c, g, d) == 1 && d.remaining < 0
  {
    hide Queues, Books, Tallied;
    CpuMember(c, s);
  }

  /** A guest with a negative burst and no ride to visit never gives the CPU back. */
  lemma HolderStays(c: Config, s: State, t: int)
    requires Inv(c, s, []) && s.cpu != null && !WorkEnds(c, s.cpu)
    ensures |s.rides| == |c.rides| && Tick(c, s, t).cpu == s.cpu && s.ready <= Tick(c, s, t).ready
  {
    hide Inv, BeforeCpu, Tick, UpToWaits, CpuTick, AfterCpu, Dispatch, WorkEnds;
    TickUnfolds(c, s, t);
    BeforeCpuKeeps(c, s, t);
    CpuMember(c, s);
    OneTickSlice(c, s.cpu, s.table[s.cpu], s);
    EndlessStep(c, s.cpu, s.table[s.cpu], BeforeCpu(c, s, t));
    CpuTickForm(c, BeforeCpu(c, s, t));
    DispatchInv(c, AfterCpu(c, s, t));
  }

  lemma EndlessStep(c: Config, g: Guest, d: GuestData, s: State)
    requires !WorkEnds(c, g) && d.remaining < 0 && d.state == RUNNING && g in s.table && s.table[g] == d
    requires |s.rides| == |c.rides|
    ensures !ToRide(c, g, d) && Stepped(c, s, g).state == RUNNING
  {
  }

  lemma {:induction false} HoldsForGood(c: Config, s: State, t: int, n: nat)
    requires Inv(c, s, []) && |s.rides| == |c.rides| && s.cpu != null && !WorkEnds(c, s.cpu)
    ensures Steps(c, s, t, n).cpu == s.cpu
    decreases n
  {
    hide Inv, Tick, WorkEnds;
    if n > 0 {
      TickInv(c, s, t);
      HolderStays(c, s, t);
      HoldsForGood(c, Tick(c, s, t), t + 1, n - 1);
    }
  }

  /** Number of ticks after which the guest at index `k` of the READY queue gets the CPU. */
  function DispatchedIn(c: Config, s: State, k: nat): int
    requires s.cpu != null && k <= |s.ready|
  {
    Slice(c, s.cpu, At(s.table, s.cpu)) + Turns(c, s.table, s.ready[..k])
  }

  /** The queue ahead of index `k` one tick later. */
  lemma QueueAhead(c: Config, s: State, t: int, k: nat)
    requires Inv(c, s, []) && |s.rides| == |c.rides| && s.cpu != null && WorkEnds(c, s.cpu)
    requires c.policy != Priority && k < |s.ready|
    ensures DispatchedIn(c, s, k) >= 1
    ensures var s' := Tick(c, s, t);
      && s'.cpu != null && s.cpu in s.table
      && if Slice(c, s.cpu, s.table[s.cpu]) > 1 then
           && s'.cpu == s.cpu && k < |s'.ready| && s'.ready[..k + 1] == s.ready[..k + 1]
           && DispatchedIn(c, s', k) == DispatchedIn(c, s, k) - 1
         else
           && s'.cpu == s.ready[0] && s.ready[0] in s'.table
           && Slice(c, s.ready[0], s'.table[s.ready[0]]) == Turn(c, s.ready[0], At(s.table, s.ready[0]))
           && (k == 0 ==> DispatchedIn(c, s, k) == 1)
           && (k > 0 ==> k - 1 < |s'.ready| && s'.ready[..k] == s.ready[1..k + 1]
                         && DispatchedIn(c, s', k - 1) == DispatchedIn(c, s, k) - 1)
    ensures var g := s.ready[k]; var s' := Tick(c, s, t);
      g in s'.ready ==> Turn(c, g, At(s'.table, g)) == Turn(c, g, At(s.table, g))
  {
    hide Inv, Tick, Turn, Turns, Slice, WorkEnds, AfterCpu;
    var s' := Tick(c, s, t);
    CpuTurn(c, s, t);
    TickInv(c, s, t);
    QuantumPositive(c, s);
    TurnsPositive(c, s.table, s.ready[..k]);
    TurnsUnfold(c, s.table, s.ready[..k]);
    forall g | g in s'.ready ensures g in s'.table && s'.table[g].state == READY {
      ReadyMember(c, s', g);
    }
    if Slice(c, s.cpu, s.table[s.cpu]) > 1 {
      PrefixTake(s.ready, s'.ready, k);
      TurnsAhead(c, s, s', s.ready[..k]);
    } else if k > 0 {
      PrefixShift(s.ready, s'.ready, k);
      TurnsAhead(c, s, s', s.ready[1..k]);
    }
    assert s.ready[k] in s.ready;
  }

  lemma TurnsUnfold(c: Config, m: Table, q: seq<Guest>)
    ensures Turns(c, m, q) == if q == [] then 0 else Turn(c, q[0], At(m, q[0])) + Turns(c, m, q[1..])
  {
  }

  lemma PrefixShift(a: seq<Guest>, b: seq<Guest>, k: nat)
    requires 0 < k < |a| && a[1..] <= b
    ensures k - 1 < |b| && b[..k] == a[1..k + 1] && b[..k - 1] == a[1..k]
    ensures a[..k][1..] == a[1..k] && a[..k][0] == a[0]
    ensures forall g | g in a[1..k] :: g in b && g in a
  {
    assert forall j | 0 <= j < k :: b[j] == a[1..][j] == a[j + 1];
    assert forall g | g in a[1..k] :: g in b[..k - 1];
  }

  lemma QuantumPositive(c: Config, s: State)
    requires Inv(c, s, [])
    ensures c.quantum >= 1
  {
  }

  lemma PrefixTake(a: seq<Guest>, b: seq<Guest>, k: nat)
    requires a <= b && k < |a|
    ensures k < |b| && b[..k + 1] == a[..k + 1] && b[..k] == a[..k]
    ensures forall g | g in a[..k] :: g in b && g in a
  {
  }

  lemma {:induction false} TurnsPositive(c: Config, m: Table, q: seq<Guest>)
    requires c.quantum >= 1 || c.policy != RoundRobin
    ensures Turns(c, m, q) >= |q|
  {
    if q != [] {
      TurnsPositive(c, m, q[1..]);
    }
  }

  lemma TurnsAhead(c: Config, s: State, s': State, q: seq<Guest>)
    requires forall g | g in q :: g in s.ready && g in s'.ready
    requires forall g | g in s'.ready :: g in s'.table && s'.table[g].state == READY
    requires forall g | g in s.ready && g in s'.table && s'.table[g].state == READY ::
      g in s.table && Turn(c, g, s'.table[g]) == Turn(c, g, s.table[g])
    ensures Turns(c, s'.table, q) == Turns(c, s.table, q)
  {
    hide Turn;
    TurnsSame(c, s.table, s'.table, q);
  }

  /** Nobody in front of index `k`, the holder of the CPU included, keeps the CPU for good. */
  ghost predicate Unblocked(c: Config, s: State, k: nat)
    requires s.cpu != null && k <= |s.ready|
  {
    WorkEnds(c, s.cpu) && forall j | 0 <= j < k :: WorkEnds(c, s.ready[j])
  }

  /** Exact dispatch time under FCFS and round robin. The guest at index `k` of the READY queue stays
      READY for exactly the rest of the holder's slice plus the turns of the guests ahead of it, then holds
      the CPU for its own turn, whose last CPU step and no earlier one takes it off the CPU; later
      arrivals, ride traffic and preemptions change nothing. A guest whose work never ends keeps the CPU. */
  lemma {:induction false} DispatchTime(c: Config, s: State, t: int, k: nat, n: nat)
    requires Inv(c, s, []) && |s.rides| == |c.rides| && c.policy != Priority
    requires s.cpu != null && k < |s.ready| && Unblocked(c, s, k)
    ensures var g := s.ready[k]; var e := Steps(c, s, t, n); var wait := DispatchedIn(c, s, k);
      && g in s.table && g in e.table && wait >= 1
      && (n < wait ==> e.table[g].state == READY && g in e.ready)
      && (wait <= n < wait + Turn(c, g, s.table[g]) ==> e.cpu == g)
      && (WorkEnds(c, g) && wait <= n < wait + Turn(c, g, s.table[g]) ==>
            (LeavesCpu(c, e, t + n) <==> n == wait + Turn(c, g, s.table[g]) - 1))
      && (!WorkEnds(c, g) && wait <= n ==> e.cpu == g)
    decreases n
  {
    hide Inv, Tick, Turn, Slice, WorkEnds, DispatchedIn, RideOf, LeavesCpu;
    var g := s.ready[k];
    assert g in s.ready;
    ReadyMember(c, s, g);
    QueueAhead(c, s, t, k);
    StepsInv(c, s, t, n);
    StepsKeys(c, s, t, n);
    if n > 0 {
      var s' := Tick(c, s, t);
      TickInv(c, s, t);
      if Slice(c, s.cpu, s.table[s.cpu]) > 1 {
        SameIndex(s.ready, s'.ready, k, 0);
        DispatchTime(c, s', t + 1, k, n - 1);
      } else if k == 0 {
        HoldTime(c, s', t + 1, n - 1);
        if !WorkEnds(c, g) {
          HoldsForGood(c, s', t + 1, n - 1);
        }
      } else {
        SameIndex(s.ready, s'.ready, k - 1, 1);
        DispatchTime(c, s', t + 1, k - 1, n - 1);
      }
    }
  }

  lemma UnblockedSame(c: Config, s: State, s': State, k: nat)
    requires s.cpu != null && s'.cpu == s.cpu && k < |s.ready| && k < |s'.ready|
    requires forall j | 0 <= j <= k :: s'.ready[j] == s.ready[j]
    ensures Unblocked(c, s', k) <==> Unblocked(c, s, k)
  {
  }

  lemma UnblockedShift(c: Config, s: State, s': State, k: nat)
    requires s.cpu != null && 0 < k < |s.ready| && k - 1 < |s'.ready| && s'.cpu == s.ready[0] && WorkEnds(c, s.cpu)
    requires forall j | 0 <= j <= k - 1 :: s'.ready[j] == s.ready[j + 1]
    ensures Unblocked(c, s', k - 1) <==> Unblocked(c, s, k)
  {
    hide WorkEnds;
    if !Unblocked(c, s, k) {
      var j :| 0 <= j < k && !WorkEnds(c, s.ready[j]);
      assert j > 0 ==> s'.ready[j - 1] == s.ready[j];
    }
  }

  lemma BlockedBehind(c: Config, s: State, k: nat)
    requires s.cpu != null && k <= |s.ready|
    ensures !Unblocked(c, s, k) && k == 0 ==> !WorkEnds(c, s.cpu)
  {
  }

  lemma SlicePositive(c: Config, s: State)
    requires Inv(c, s, []) && s.cpu != null
    ensures s.cpu in s.table && Slice(c, s.cpu, s.table[s.cpu]) >= 1
  {
    hide Queues, Books, Tallied;
    CpuMember(c, s);
  }

  /** Where the guest at index `k` stands one tick later. */
  function IndexAfter(c: Config, s: State, k: nat): int
    requires s.cpu != null
  {
    if WorkEnds(c, s.cpu) && Slice(c, s.cpu, At(s.table, s.cpu)) == 1 then k - 1 else k
  }

  /** A blocked guest is blocked after a tick. */
  lemma BlockedStep(c: Config, s: State, t: int, k: nat)
    requires Inv(c, s, []) && |s.rides| == |c.rides| && c.policy != Priority
    requires s.cpu != null && k < |s.ready| && !Unblocked(c, s, k)
    ensures var s' := Tick(c, s, t); var i := IndexAfter(c, s, k);
      s'.cpu != null && 0 <= i < |s'.ready| && s'.ready[i] == s.ready[k] && !Unblocked(c, s', i)
  {
    hide Inv, Tick, Turn, Turns, Slice, WorkEnds, DispatchedIn, RideOf, Unblocked, GuestOk;
    var s' := Tick(c, s, t);
    CpuMember(c, s);
    if !WorkEnds(c, s.cpu) {
      HolderStays(c, s, t);
      PrefixTake(s.ready, s'.ready, k);
      SameIndex(s.ready, s'.ready, k, 0);
      UnblockedSame(c, s, s', k);
    } else {
      BlockedBehind(c, s, k);
      QueueAhead(c, s, t, k);
      SlicePositive(c, s);
      if Slice(c, s.cpu, s.table[s.cpu]) > 1 {
        SameIndex(s.ready, s'.ready, k, 0);
        UnblockedSame(c, s, s', k);
      } else {
        SameIndex(s.ready, s'.ready, k - 1, 1);
        UnblockedShift(c, s, s', k);
      }
    }
  }

  /** Behind somebody who keeps the CPU for good a guest stays READY for good. */
  lemma {:induction false} BlockedForGood(c: Config, s: State, t: int, k: nat, n: nat)
    requires Inv(c, s, []) && |s.rides| == |c.rides| && c.policy != Priority
    requires s.cpu != null && k < |s.ready| && !Unblocked(c, s, k)
    ensures var g := s.ready[k]; var e := Steps(c, s, t, n);
      g in e.ready && e.cpu != g
    decreases n
  {
    hide *;
    StepsUnfold(c, s, t, n);
    ReadyNotOnCpu(c, s, s.ready[k]);
    assert s.ready[k] in s.ready;
    if n > 0 {
      TickInv(c, s, t);
      BlockedStep(c, s, t, k);
      BlockedForGood(c, Tick(c, s, t), t + 1, IndexAfter(c, s, k), n - 1);
    }
  }

  lemma ReadyNotOnCpu(c: Config, s: State, g: Guest)
    requires Inv(c, s, []) && g in s.ready
    ensures s.cpu != g
  {
    hide Inv;
    ReadyMember(c, s, g);
    if s.cpu == g {
      CpuMember(c, s);
    }
  }

  lemma SameIndex(a: seq<Guest>, b: seq<Guest>, k: nat, shift: nat)
    requires k + shift < |a| && k < |b| && b[..k + 1] == a[shift..k + shift + 1]
    ensures forall j | 0 <= j <= k :: b[j] == a[j + shift]
    ensures a[k + shift] in b
  {
    forall j | 0 <= j <= k ensures b[j] == a[j + shift] {
      assert b[..k + 1][j] == b[j];
    }
    assert b[k] == a[k + shift];
  }

  lemma {:induction false} StepsKeys(c: Config, s: State, t: int, n: nat)
    requires Inv(c, s, []) && |s.rides| == |c.rides|
    ensures Steps(c, s, t, n).table.Keys == s.table.Keys
    decreases n
  {
    hide *;
    StepsInv(c, s, t, n);
    InvParts(c, s, []);
    InvParts(c, Steps(c, s, t, n), []);
    ShapeKeys(c, s);
    ShapeKeys(c, Steps(c, s, t, n));
  }

  lemma ShapeKeys(c: Config, s: State)
    requires Shape(c, s)
    ensures s.table.Keys == set g | g in c.order
  {
  }

  /** When a READY guest gets the CPU at all: exactly when nobody in front of it keeps the CPU for good. */
  lemma DispatchedEventually(c: Config, s: State, t: int, k: nat)
    requires Inv(c, s, []) && |s.rides| == |c.rides| && c.policy != Priority && s.cpu != null && k < |s.ready|
    ensures (exists n: nat :: Steps(c, s, t, n).cpu == s.ready[k]) <==> Unblocked(c, s, k)
  {
    hide Inv, Steps, Unblocked, Turn, DispatchedIn;
    if Unblocked(c, s, k) {
      DispatchTime(c, s, t, k, 0);
      TurnPositive(c, s, s.ready[k]);
      DispatchTime(c, s, t, k, DispatchedIn(c, s, k));
    } else {
      forall n: nat ensures Steps(c, s, t, n).cpu != s.ready[k] {
        BlockedForGood(c, s, t, k, n);
      }
    }
  }

  lemma TurnPositive(c: Config, s: State, g: Guest)
    requires Inv(c, s, []) && g in s.table
    ensures Turn(c, g, s.table[g]) >= 1
  {
  }

  /** The round-robin wait: unless somebody in front of it keeps the CPU for good, the guest at index `k` of
      the READY queue is READY until, after at most `(k + 1) * quantum` ticks, it gets the CPU. */
  lemma RoundRobinWait(c: Config, s: State, t: int, k: nat)
    requires Inv(c, s, []) && |s.rides| == |c.rides| && c.policy == RoundRobin
    requires s.cpu != null && k < |s.ready| && Unblocked(c, s, k)
    ensures var w := DispatchedIn(c, s, k);
      && 1 <= w <= (k + 1) * c.quantum
      && Steps(c, s, t, w).cpu == s.ready[k]
      && forall n: nat | n < w :: s.ready[k] in Steps(c, s, t, n).ready
  {
    hide Inv, Steps, Unblocked, Turn, DispatchedIn;
    DispatchTime(c, s, t, k, 0);
    var w := DispatchedIn(c, s, k);
    TurnPositive(c, s, s.ready[k]);
    DispatchTime(c, s, t, k, w);
    WaitBound(c, s, k);
    forall n: nat | n < w ensures s.ready[k] in Steps(c, s, t, n).ready {
      DispatchTime(c, s, t, k, n);
    }
  }

  lemma WaitBound(c: Config, s: State, k: nat)
    requires Inv(c, s, []) && c.policy == RoundRobin && s.cpu != null && k < |s.ready|
    ensures DispatchedIn(c, s, k) <= (k + 1) * c.quantum
  {
    hide Inv;
    CpuMember(c, s);
    InvParts(c, s, []);
    TurnsQuantum(c, s.table, s.ready[..k]);
    Distribute(k, c.quantum);
  }

  lemma {:induction false} TurnsQuantum(c: Config, m: Table, q: seq<Guest>)
    requires c.policy == RoundRobin && c.quantum >= 1
    ensures Turns(c, m, q) <= |q| * c.quantum
  {
    if q != [] {
      TurnsQuantum(c, m, q[1..]);
      Distribute(|q| - 1, c.quantum);
    }
  }

  // ---------------------------------------------------------------- no preemption under FCFS and priority

  /** The last unit of work of a guest with no ride to go to is its end. */
  lemma LastUnit(c: Config, s: State, t: int)
    requires Inv(c, s, []) && s.cpu != null && |s.rides| == |c.rides|
    ensures s.cpu in s.table
    ensures var h: Guest := s.cpu; var d := s.table[h];
      !(Pending(h, d) && RideOf(c, h) >= 0) && 0 <= d.remaining <= 1 ==>
        h in Tick(c, s, t).table && Tick(c, s, t).table[h].state == TERMINATED
  {
    hide Inv, BeforeCpu, Tick, UpToWaits, CpuTick, AfterCpu, Dispatch;
    TickUnfolds(c, s, t);
    BeforeCpuKeeps(c, s, t);
    CpuTickForm(c, BeforeCpu(c, s, t));
    DispatchTerminated(c, AfterCpu(c, s, t), s.cpu);
  }

  lemma {:induction false} TerminatedStays(c: Config, s: State, t: int, g: Guest, n: nat)
    requires Inv(c, s, []) && |s.rides| == |c.rides| && g in s.table && s.table[g].state == TERMINATED
    ensures g in Steps(c, s, t, n).table && Steps(c, s, t, n).table[g] == s.table[g]
    decreases n
  {
    hide Inv, Tick;
    if n > 0 {
      TickInv(c, s, t);
      TickKeepsTerminated(c, s, t, g);
      TerminatedStays(c, Tick(c, s, t), t + 1, g, n - 1);
    }
  }

  /** Without round robin, a guest that has the CPU and no ride to go to keeps it on consecutive ticks,
      one unit of work each, until it terminates with its work done. */
  lemma {:induction false} RunsToCompletion(c: Config, s: State, t: int, n: nat)
    requires Inv(c, s, []) && |s.rides| == |c.rides| && c.policy != RoundRobin && s.cpu != null && s.cpu in s.table
    requires !(Pending(s.cpu, s.table[s.cpu]) && RideOf(c, s.cpu) >= 0) && s.table[s.cpu].remaining >= 1
    ensures var h: Guest := s.cpu; var left := s.table[h].remaining; var e := Steps(c, s, t, n);
      && h in e.table
      && (n < left ==> e.cpu == h && e.table[h].state == RUNNING && e.table[h].remaining == left - n)
      && (n >= left ==> e.table[h].state == TERMINATED && e.table[h].remaining == 0)
    decreases n
  {
    hide Inv, Tick, RideOf, WorkEnds, AfterCpu, GuestOk;
    CpuMember(c, s);
    CpuWorkEnds(c, s);
    if n > 0 {
      TickInv(c, s, t);
      var s' := Tick(c, s, t);
      if s.table[s.cpu].remaining == 1 {
        LastUnit(c, s, t);
        DoneMeansNoWork(c, s', s.cpu);
        TerminatedStays(c, s', t + 1, s.cpu, n - 1);
      } else {
        CpuTurn(c, s, t);
        CpuMember(c, s');
        RunsToCompletion(c, s', t + 1, n - 1);
      }
    }
  }

  lemma CpuWorkEnds(c: Config, s: State)
    requires Inv(c, s, []) && s.cpu != null
    ensures s.cpu in s.table && (s.table[s.cpu].remaining >= 0 ==> WorkEnds(c, s.cpu))
  {
    hide Queues, Books, Tallied;
    CpuMember(c, s);
  }

  lemma DoneMeansNoWork(c: Config, s: State, g: Guest)
    requires Inv(c, s, []) && g in s.table && s.table[g].state == TERMINATED
    ensures g.burstTime >= 0 ==> s.table[g].remaining == 0
  {
    hide Queues, Books, Tallied;
    assert GuestOk(c, g, s.table[g]);
  }
}
