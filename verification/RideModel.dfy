/** A ride: a shared resource with `capacity` seats per cycle, a countdown and a FIFO queue. */
module RideModel {
  import opened Guests

  datatype RideSpec = RideSpec(id: int, capacity: int, duration: int)

  datatype RideData = RideData(busy: bool, timer: int, riders: seq<Guest>, waiting: seq<Guest>)

  const IDLE := RideData(false, 0, [], [])

  // ---------------------------------------------------------------- the operations

  function StartCycle(spec: RideSpec, r: RideData): RideData {
    if r.busy || r.riders == [] then r else r.(busy := true, timer := spec.duration)
  }

  datatype Boarding = Boarding(ride: RideData, table: Table, boarded: bool)

  function TryBoard(spec: RideSpec, r: RideData, m: Table, g: Guest): Boarding {
    var d := At(m, g);
    if d.state != RUNNING then Boarding(r, m, false)
    else if d.riding then Boarding(r, m, true)
    else if r.busy || spec.capacity <= |r.riders| then
      Boarding(r.(waiting := r.waiting + [g]), m[g := d.(state := WAITING)], false)
    else
      Boarding(StartCycle(spec, r.(riders := r.riders + [g])), m[g := d.(riding := true, state := RIDING)], true)
  }

  /** Clears the riding flag of these guests. */
  function Alight(m: Table, gs: seq<Guest>): Table {
    map g | g in m :: if g in gs then m[g].(riding := false) else m[g]
  }

  /** Puts these guests on a ride. */
  function Seat(m: Table, gs: seq<Guest>): Table {
    map g | g in m :: if g in gs then m[g].(riding := true, state := RIDING) else m[g]
  }

  function FinishCycle(r: RideData): RideData {
    r.(riders := [], busy := false, timer := 0)
  }

  datatype Loaded = Loaded(ride: RideData, table: Table, admitted: seq<Guest>)

  /** The admission loop: fills free seats of an idle ride from the front of its queue. */
  function Load(spec: RideSpec, r: RideData, m: Table, admitted: seq<Guest>): Loaded
    decreases |r.waiting|
  {
    if r.busy || r.waiting == [] || spec.capacity <= |r.riders| then Loaded(r, m, admitted)
    else
      var g := r.waiting[0];
      var popped := r.(waiting := r.waiting[1..]);
      if At(m, g).state == TERMINATED then Load(spec, popped, m, admitted)
      else
        Load(spec, popped.(riders := r.riders + [g]), m[g := At(m, g).(riding := true, state := RIDING)],
             admitted + [g])
  }

  /** One iteration of the admission loop. */
  lemma LoadStep(spec: RideSpec, r: RideData, m: Table, admitted: seq<Guest>)
    requires !r.busy && r.waiting != [] && |r.riders| < spec.capacity
    ensures var g := r.waiting[0];
      Load(spec, r, m, admitted) ==
      if At(m, g).state == TERMINATED then Load(spec, RideData(false, r.timer, r.riders, r.waiting[1..]), m, admitted)
      else Load(spec, RideData(false, r.timer, r.riders + [g], r.waiting[1..]),
                m[g := At(m, g).(riding := true, state := RIDING)], admitted + [g])
  {
  }

  lemma LoadEnds(spec: RideSpec, r: RideData, m: Table, admitted: seq<Guest>)
    requires r.busy || r.waiting == [] || spec.capacity <= |r.riders|
    ensures Load(spec, r, m, admitted) == Loaded(r, m, admitted)
  {
  }

  /** One iteration of the loop that empties a ride. */
  lemma AlightStep(m: Table, gs: seq<Guest>, g: Guest)
    requires g in m
    ensures g in Alight(m, gs)
    ensures Alight(m, gs + [g]) == Alight(m, gs)[g := Alight(m, gs)[g].(riding := false)]
  {
  }

  lemma AlightStart(m: Table)
    ensures Alight(m, []) == m
  {
  }

  datatype RideStep = RideStep(ride: RideData, table: Table, out: seq<Guest>, admitted: seq<Guest>, operating: bool)

  function CountDown(r: RideData): RideData {
    if r.busy && r.timer > 0 then r.(timer := r.timer - 1) else r
  }

  /** One simulation tick of the ride. */
  function RideTick(spec: RideSpec, r: RideData, m: Table): RideStep {
    var counted := CountDown(r);
    var ends := counted.busy && counted.timer == 0;
    var l := if ends then Load(spec, FinishCycle(counted), Alight(m, counted.riders), [])
             else Load(spec, counted, m, []);
    var last := StartCycle(spec, l.ride);
    RideStep(last, l.table, if ends then counted.riders else [], l.admitted, r.busy || last.busy)
  }

  // ---------------------------------------------------------------- the invariant of a ride

  /** Between operations an idle ride that can seat anyone has neither riders nor queue, and a
      busy ride has between 1 and `capacity` riders and its timer within the cycle. */
  predicate RideOk(spec: RideSpec, r: RideData) {
    && (!r.busy ==> r.riders == [] && r.timer == 0 && (spec.capacity >= 1 ==> r.waiting == []))
    && (r.busy ==> 1 <= |r.riders| <= spec.capacity
                   && if spec.duration >= 1 then 1 <= r.timer <= spec.duration else r.timer == spec.duration)
  }

  // ---------------------------------------------------------------- what one tick amounts to

  /** The cycle ends at the next tick. */
  predicate Ends(r: RideData) {
    r.busy && 0 <= r.timer <= 1
  }

  function Leavers(r: RideData): seq<Guest> {
    if Ends(r) then r.riders else []
  }

  function Min(a: int, b: int): int {
    if a < b then a else b
  }

  /** How many waiting guests the next cycle takes. */
  function SeatsFilled(spec: RideSpec, r: RideData): nat
    requires RideOk(spec, r)
    ensures SeatsFilled(spec, r) <= |r.waiting|
  {
    if Ends(r) then Min(spec.capacity, |r.waiting|) else 0
  }

  function Boarders(spec: RideSpec, r: RideData): seq<Guest>
    requires RideOk(spec, r)
  {
    r.waiting[..SeatsFilled(spec, r)]
  }

  function Next(spec: RideSpec, r: RideData): RideData
    requires RideOk(spec, r)
  {
    if Ends(r) then
      if r.waiting == [] then IDLE
      else RideData(true, spec.duration, Boarders(spec, r), r.waiting[SeatsFilled(spec, r)..])
    else CountDown(r)
  }

  lemma {:induction false} LoadEffect(spec: RideSpec, r: RideData, m: Table, admitted: seq<Guest>)
    requires !r.busy
    requires forall g | g in r.waiting :: g in m && m[g].state != TERMINATED
    ensures var k := if spec.capacity <= |r.riders| then 0 else Min(spec.capacity - |r.riders|, |r.waiting|);
      Load(spec, r, m, admitted) ==
      Loaded(r.(riders := r.riders + r.waiting[..k], waiting := r.waiting[k..]),
             Seat(m, r.waiting[..k]), admitted + r.waiting[..k])
    decreases |r.waiting|
  {
    hide Load, Seat;
    var k := if spec.capacity <= |r.riders| then 0 else Min(spec.capacity - |r.riders|, |r.waiting|);
    var w := r.waiting;
    if k == 0 {
      LoadEnds(spec, r, m, admitted);
      assert w[..0] == [] && w[0..] == w && r.riders + [] == r.riders && admitted + [] == admitted;
      SeatNobody(m);
    } else {
      var g := w[0];
      assert w[0] in w;
      LoadStep(spec, r, m, admitted);
      var r1 := r.(waiting := w[1..], riders := r.riders + [g]);
      var m1 := m[g := m[g].(riding := true, state := RIDING)];
      LoadEffect(spec, r1, m1, admitted + [g]);
      TakeShift(w, k);
      SeatFirst(m, g, w[1..][..k - 1]);
      assert r.riders + [g] + w[1..][..k - 1] == r.riders + w[..k];
      assert admitted + [g] + w[1..][..k - 1] == admitted + w[..k];
    }
  }

  lemma TakeShift(w: seq<Guest>, k: nat)
    requires 0 < k <= |w|
    ensures [w[0]] + w[1..][..k - 1] == w[..k] && w[1..][k - 1..] == w[k..]
  {
  }

  lemma SeatNobody(m: Table)
    ensures Seat(m, []) == m
  {
  }

  lemma SeatFirst(m: Table, g: Guest, rest: seq<Guest>)
    requires g in m
    ensures Seat(m[g := m[g].(riding := true, state := RIDING)], rest) == Seat(m, [g] + rest)
  {
  }

  lemma NextOk(spec: RideSpec, r: RideData)
    requires RideOk(spec, r)
    ensures RideOk(spec, Next(spec, r))
  {
  }

  /** One tick of a well-formed ride, without the loops: the whole cycle leaves when it ends, the next
      `capacity` guests of the queue take their seats in queue order, and the ride is counted as
      operating exactly when it was busy before. */
  lemma TickEffect(spec: RideSpec, r: RideData, m: Table)
    requires RideOk(spec, r)
    requires forall g | g in r.waiting :: g in m && m[g].state != TERMINATED
    ensures RideTick(spec, r, m) ==
      RideStep(Next(spec, r), Seat(Alight(m, Leavers(r)), Boarders(spec, r)), Leavers(r), Boarders(spec, r), r.busy)
    ensures RideOk(spec, Next(spec, r))
  {
    var w := r.waiting;
    if Ends(r) {
      LoadEffect(spec, FinishCycle(CountDown(r)), Alight(m, r.riders), []);
      var k := SeatsFilled(spec, r);
      assert [] + w[..k] == w[..k];
    } else {
      assert w[..0] == [];
      assert Seat(m, []) == m && Alight(m, []) == m;
    }
  }

  /** The same on the fields of the ride: who leaves in which order, who is seated in which order, and the timer. */
  lemma TickOutcome(spec: RideSpec, r: RideData, m: Table)
    requires RideOk(spec, r)
    requires forall g | g in r.waiting :: g in m && m[g].state != TERMINATED
    ensures var step := RideTick(spec, r, m);
      && step.operating == r.busy
      && if r.busy && 0 <= r.timer <= 1 then
           var k := if spec.capacity < |r.waiting| then spec.capacity else |r.waiting|;
           && step.out == r.riders
           && step.admitted == r.waiting[..k] == step.ride.riders
           && step.ride.waiting == r.waiting[k..]
           && step.ride.busy == (r.waiting != [])
           && step.ride.timer == (if r.waiting != [] then spec.duration else 0)
         else
           && step.out == [] && step.admitted == []
           && step.ride == r.(timer := if r.busy && r.timer > 0 then r.timer - 1 else r.timer)
  {
    hide RideTick;
    TickEffect(spec, r, m);
  }

  /** A guest is seated from the CPU only on an idle ride, where nobody is waiting: no overtaking. */
  lemma BoardEffect(spec: RideSpec, r: RideData, m: Table, g: Guest)
    requires RideOk(spec, r) && At(m, g).state == RUNNING && !At(m, g).riding
    ensures var b := TryBoard(spec, r, m, g);
      && RideOk(spec, b.ride)
      && (b.boarded <==> !r.busy && spec.capacity >= 1)
      && (b.boarded ==> r.waiting == [] && b.ride == RideData(true, spec.duration, [g], []))
      && (!b.boarded ==> b.ride == r.(waiting := r.waiting + [g]))
  {
    assert [] + [g] == [g];
  }
}
