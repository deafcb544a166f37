/** Selection from the READY queue, as functions on the queue's value, and what selection
    amounts to over a whole drain of the queue. */
module SchedulerModel {
  import opened Guests
  import opened Sequences

  datatype Policy = FCFS | Priority | RoundRobin

  /** The comparator of the priority policy: priority, then arrival, then pid. */
  predicate Before(a: Guest, b: Guest) {
    if a.priority != b.priority then a.priority < b.priority
    else if a.arrivalTime != b.arrivalTime then a.arrivalTime < b.arrivalTime
    else a.pid < b.pid
  }

  /** Index of the first minimal element. */
  function Best(q: seq<Guest>): (i: nat)
    requires q != []
    ensures i < |q|
    decreases |q|
  {
    if |q| == 1 then 0
    else
      var b := Best(q[..|q| - 1]);
      if Before(q[|q| - 1], q[b]) then |q| - 1 else b
  }

  datatype Picked = Picked(guest: Guest?, rest: seq<Guest>)

  function Pick(policy: Policy, q: seq<Guest>): Picked {
    if q == [] then Picked(null, [])
    else if policy != Priority then Picked(q[0], q[1..])
    else Picked(q[Best(q)], Without(q, Best(q)))
  }

  /** The guest chosen by priority, on the guests' fields: lowest priority number, then earliest arrival, then
      smallest pid, and strictly so against everybody in front of it. */
  lemma {:induction false} BestIsMostUrgent(q: seq<Guest>)
    requires q != []
    ensures var p := q[Best(q)];
      && (forall j | 0 <= j < |q| ::
            || p.priority < q[j].priority
            || (p.priority == q[j].priority && p.arrivalTime < q[j].arrivalTime)
            || (p.priority == q[j].priority && p.arrivalTime == q[j].arrivalTime && p.pid <= q[j].pid))
      && (forall j | 0 <= j < Best(q) ::
            || p.priority < q[j].priority
            || (p.priority == q[j].priority && p.arrivalTime < q[j].arrivalTime)
            || (p.priority == q[j].priority && p.arrivalTime == q[j].arrivalTime && p.pid < q[j].pid))
  {
    BestIsFirstMinimum(q);
    var p := q[Best(q)];
    forall j | 0 <= j < |q|
      ensures p.priority <= q[j].priority
      ensures p.priority == q[j].priority ==> p.arrivalTime <= q[j].arrivalTime
      ensures p.priority == q[j].priority && p.arrivalTime == q[j].arrivalTime ==> p.pid <= q[j].pid
    {
      assert !Before(q[j], p);
    }
    forall j | 0 <= j < Best(q)
      ensures p.priority == q[j].priority && p.arrivalTime == q[j].arrivalTime ==> p.pid < q[j].pid
    {
      assert Before(p, q[j]);
    }
  }

  lemma {:induction false} BestIsFirstMinimum(q: seq<Guest>)
    requires q != []
    ensures forall j | 0 <= j < |q| :: !Before(q[j], q[Best(q)])
    ensures forall j | 0 <= j < Best(q) :: Before(q[Best(q)], q[j])
    decreases |q|
  {
    if |q| > 1 {
      var front := q[..|q| - 1];
      BestIsFirstMinimum(front);
      assert forall j | 0 <= j < |front| :: front[j] == q[j];
    }
  }

  /** Every policy takes one occurrence out and keeps the order of the rest; only an empty queue gives no guest. */
  lemma PickTakesOne(policy: Policy, q: seq<Guest>)
    ensures var p := Pick(policy, q);
      && (p.guest == null <==> q == [])
      && (q != [] ==> exists i: nat | i < |q| ::
            q[i] == p.guest && p.rest == Without(q, i) && (policy != Priority ==> i == 0))
      && (q == [] ==> p.rest == [])
  {
    if q != [] {
      if policy != Priority {
        assert Without(q, 0) == q[1..];
      }
    }
  }

  /** The pick by priority, on the guests' fields. */
  lemma PickMostUrgent(q: seq<Guest>)
    requires q != []
    ensures Pick(Priority, q).guest != null
    ensures var p: Guest := Pick(Priority, q).guest; exists i: nat | i < |q| ::
      && q[i] == p && Pick(Priority, q).rest == q[..i] + q[i + 1..]
      && (forall j | 0 <= j < |q| ::
            || p.priority < q[j].priority
            || (p.priority == q[j].priority && p.arrivalTime < q[j].arrivalTime)
            || (p.priority == q[j].priority && p.arrivalTime == q[j].arrivalTime && p.pid <= q[j].pid))
      && (forall j | 0 <= j < i ::
            || p.priority < q[j].priority
            || (p.priority == q[j].priority && p.arrivalTime < q[j].arrivalTime)
            || (p.priority == q[j].priority && p.arrivalTime == q[j].arrivalTime && p.pid < q[j].pid))
  {
    BestIsMostUrgent(q);
    var i := Best(q);
    assert q[i] == Pick(Priority, q).guest;
  }

  // ---------------------------------------------------------------- draining the queue

  function Drain(policy: Policy, q: seq<Guest>): seq<Guest>
    decreases |q|
  {
    if q == [] then [] else [Pick(policy, q).guest] + Drain(policy, Pick(policy, q).rest)
  }

  datatype Key = Key(priority: int, arrival: int, pid: int)

  function KeyOf(g: Guest): Key {
    Key(g.priority, g.arrivalTime, g.pid)
  }

  /** The guests of the queue with this key, in queue order. */
  function WithKey(q: seq<Guest>, k: Key): seq<Guest> {
    if q == [] then [] else (if KeyOf(q[0]) == k then [q[0]] else []) + WithKey(q[1..], k)
  }

  /** In order of (priority, arrival, pid). */
  ghost predicate Sorted(q: seq<Guest>) {
    forall i, j | 0 <= i < j < |q| ::
      || q[i].priority < q[j].priority
      || (q[i].priority == q[j].priority && q[i].arrivalTime < q[j].arrivalTime)
      || (q[i].priority == q[j].priority && q[i].arrivalTime == q[j].arrivalTime && q[i].pid <= q[j].pid)
  }

  /** `d` is `q` rearranged in key order, guests of equal key keeping their order. */
  ghost predicate IsStableSort(d: seq<Guest>, q: seq<Guest>) {
    Sorted(d) && forall k :: WithKey(d, k) == WithKey(q, k)
  }

  lemma {:induction false} WithKeyAppend(a: seq<Guest>, b: seq<Guest>, k: Key)
    ensures WithKey(a + b, k) == WithKey(a, k) + WithKey(b, k)
  {
    if a == [] {
      assert a + b == b;
    } else {
      assert (a + b)[1..] == a[1..] + b;
      WithKeyAppend(a[1..], b, k);
    }
  }

  lemma {:induction false} WithKeyMembers(q: seq<Guest>, k: Key)
    ensures forall g :: g in WithKey(q, k) <==> g in q && KeyOf(g) == k
  {
    if q != [] {
      WithKeyMembers(q[1..], k);
      assert q == [q[0]] + q[1..];
    }
  }

  lemma {:induction false} NoneWithKey(q: seq<Guest>, k: Key)
    requires forall j | 0 <= j < |q| :: KeyOf(q[j]) != k
    ensures WithKey(q, k) == []
  {
    if q != [] {
      NoneWithKey(q[1..], k);
    }
  }

  lemma WithKeyPick(q: seq<Guest>, k: Key)
    requires q != []
    ensures var b := q[Best(q)];
      WithKey(q, k) == (if KeyOf(b) == k then [b] else []) + WithKey(Without(q, Best(q)), k)
  {
    var i := Best(q);
    BestIsFirstMinimum(q);
    var l, r := q[..i], q[i + 1..];
    SplitAt(q, i);
    if KeyOf(q[i]) == k {
      assert forall j | 0 <= j < |l| :: l[j] == q[j];
      NoneWithKey(l, k);
    }
    hide *;
    WithKeyAppend(l, [q[i]] + r, k);
    WithKeyHead(q[i], r, k);
    WithKeyAppend(l, r, k);
  }

  lemma SplitAt(q: seq<Guest>, i: nat)
    requires i < |q|
    ensures q == q[..i] + ([q[i]] + q[i + 1..]) && Without(q, i) == q[..i] + q[i + 1..]
  {
  }

  lemma WithKeyHead(g: Guest, r: seq<Guest>, k: Key)
    ensures WithKey([g] + r, k) == (if KeyOf(g) == k then [g] else []) + WithKey(r, k)
  {
    assert ([g] + r)[1..] == r;
  }

  /** Draining by priority is a stable sort by (priority, arrival, pid). */
  lemma {:induction false} DrainSorts(q: seq<Guest>)
    ensures IsStableSort(Drain(Priority, q), q)
    decreases |q|
  {
    if q != [] {
      var b := Best(q);
      var rest := Without(q, b);
      var d := Drain(Priority, rest);
      DrainSorts(rest);
      BestIsFirstMinimum(q);
      assert ([q[b]] + d)[1..] == d;
      forall k ensures WithKey([q[b]] + d, k) == WithKey(q, k) {
        WithKeyPick(q, k);
      }
      forall j | 0 <= j < |d| ensures !Before(d[j], q[b]) {
        WithKeyMembers(d, KeyOf(d[j]));
        WithKeyMembers(rest, KeyOf(d[j]));
        assert d[j] in WithKey(rest, KeyOf(d[j]));
      }
    }
  }

  /** There is only one stable sort of a queue, so the lemma above determines the drain order completely. */
  lemma {:induction false} StableSortUnique(a: seq<Guest>, b: seq<Guest>)
    requires Sorted(a) && Sorted(b) && forall k :: WithKey(a, k) == WithKey(b, k)
    ensures a == b
    decreases |a|
  {
    if a == [] {
      assert b == [] || WithKey(b, KeyOf(b[0])) == WithKey(a, KeyOf(b[0]));
    } else {
      var k := KeyOf(a[0]);
      WithKeyMembers(b, k);
      assert a[0] in WithKey(b, k);
      var l := KeyOf(b[0]);
      WithKeyMembers(a, l);
      assert b[0] in WithKey(a, l);
      assert k == l;
      assert a[0] == WithKey(a, k)[0] == WithKey(b, k)[0] == b[0];
      forall x ensures WithKey(a[1..], x) == WithKey(b[1..], x) {
        assert WithKey(a, x) == WithKey(b, x);
        var h := if k == x then [a[0]] else [];
        assert WithKey(a, x)[|h|..] == WithKey(a[1..], x);
        assert WithKey(b, x)[|h|..] == WithKey(b[1..], x);
      }
      StableSortUnique(a[1..], b[1..]);
      assert a == [a[0]] + a[1..] && b == [b[0]] + b[1..];
    }
  }

  /** The drain order of every policy, exactly: the queue itself, or its only stable sort. */
  lemma DrainOrder(policy: Policy, q: seq<Guest>, d: seq<Guest>)
    ensures d == Drain(policy, q) <==> if policy == Priority then IsStableSort(d, q) else d == q
  {
    if policy == Priority {
      DrainSorts(q);
      if IsStableSort(d, q) {
        StableSortUnique(d, Drain(policy, q));
      }
    } else {
      DrainFifo(policy, q);
    }
  }

  lemma {:induction false} DrainFifo(policy: Policy, q: seq<Guest>)
    requires policy != Priority
    ensures Drain(policy, q) == q
    decreases |q|
  {
    if q != [] {
      DrainFifo(policy, q[1..]);
    }
  }
}
