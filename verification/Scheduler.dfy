/** The scheduler object. The caller's queue is passed in and the shortened queue handed back. */
module Schedulers {
  import opened Guests
  import opened Sequences
  import opened SchedulerModel

  class Scheduler {
    var policy: Policy

    constructor (policy: Policy)
      ensures this.policy == policy
    {
      this.policy := policy;
    }

    method SetPolicy(p: Policy)
      modifies this
      ensures policy == p
    {
      policy := p;
    }

    /** Removes the next guest to run; the scan is that of a library minimum search. */
    method PickNext(ready: seq<Guest>) returns (next: Guest?, rest: seq<Guest>)
      ensures Picked(next, rest) == Pick(policy, ready)
      ensures next == null <==> ready == []
      ensures ready != [] && policy != Priority ==> next == ready[0] && rest == ready[1..]
      ensures ready != [] && policy == Priority ==> exists i: nat | i < |ready| ::
        && ready[i] == next && rest == ready[..i] + ready[i + 1..]
        && (forall j | 0 <= j < |ready| ::
              || next.priority < ready[j].priority
              || (next.priority == ready[j].priority && next.arrivalTime < ready[j].arrivalTime)
              || (next.priority == ready[j].priority && next.arrivalTime == ready[j].arrivalTime
                  && next.pid <= ready[j].pid))
        && (forall j | 0 <= j < i ::
              || next.priority < ready[j].priority
              || (next.priority == ready[j].priority && next.arrivalTime < ready[j].arrivalTime)
              || (next.priority == ready[j].priority && next.arrivalTime == ready[j].arrivalTime
                  && next.pid < ready[j].pid))
    {
      if |ready| == 0 {
        return null, [];
      }
      if policy == FCFS || policy == RoundRobin {
        return ready[0], ready[1..];
      }
      var best := 0;
      var i := 1;
      while i < |ready|
        invariant 1 <= i <= |ready| && best == Best(ready[..i])
      {
        assert ready[..i + 1][..i] == ready[..i];
        if Before(ready[i], ready[best]) {
          best := i;
        }
        i := i + 1;
      }
      assert ready[..i] == ready;
      PickMostUrgent(ready);
      return ready[best], Without(ready, best);
    }
  }
}
