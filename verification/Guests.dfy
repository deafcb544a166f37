/** One guest: a process with a CPU burst, a memory need and an optional ride request. */
module Guests {

  datatype GuestState = NEW | READY | RUNNING | WAITING | RIDING | TERMINATED

  /** The fields of a guest that a run changes. */
  datatype GuestData = GuestData(
    remaining: int,
    state: GuestState,
    visitCompleted: bool,
    riding: bool,
    sliceUsed: int,
    memoryAllocated: bool,
    memoryStart: int,
    firstReady: int,
    totalWait: int)

  /** The values of all guests' changing fields, by guest. */
  type Table = map<Guest, GuestData>

  class Guest {
    // set by the constructor and never changed afterwards
    const pid: int
    const arrivalTime: int
    const burstTime: int
    const memoryRequirement: int
    const priority: int
    const requestedRideId: int

    var remainingTime: int
    var state: GuestState
    var visitCompleted: bool
    var riding: bool
    var rrCpuUsedThisSlice: int
    var memoryAllocated: bool
    var memoryStart: int
    var firstReadyTick: int
    var totalWaitTicks: int

    function Data(): GuestData
      reads this
    {
      GuestData(remainingTime, state, visitCompleted, riding, rrCpuUsedThisSlice,
                memoryAllocated, memoryStart, firstReadyTick, totalWaitTicks)
    }

    constructor (pid: int, arrival: int, burst: int, memory: int, priority: int, rideId: int)
      ensures this.pid == pid && arrivalTime == arrival && burstTime == burst
      ensures memoryRequirement == memory && this.priority == priority && requestedRideId == rideId
      ensures Data() == Blank(this)
      ensures remainingTime == burst && state == NEW && !visitCompleted && !riding && rrCpuUsedThisSlice == 0
      ensures !memoryAllocated && memoryStart == -1 && firstReadyTick == -1 && totalWaitTicks == 0
    {
      this.pid, arrivalTime, burstTime, remainingTime := pid, arrival, burst, burst;
      memoryRequirement, this.priority, requestedRideId := memory, priority, rideId;
      state, visitCompleted, riding, rrCpuUsedThisSlice := NEW, false, false, 0;
      memoryAllocated, memoryStart, firstReadyTick, totalWaitTicks := false, -1, -1, 0;
    }
  }

  /** A guest as its constructor leaves it. */
  function Blank(g: Guest): GuestData {
    GuestData(g.burstTime, NEW, false, false, 0, false, -1, -1, 0)
  }

  function At(m: Table, g: Guest): GuestData {
    if g in m then m[g] else Blank(g)
  }

  /** The current values of the guests' fields. */
  function Snapshot(all: set<Guest>): Table
    reads all
  {
    map g | g in all :: g.Data()
  }

  /** The guest still has a ride visit to make (or to find impossible). */
  predicate Pending(g: Guest, d: GuestData) {
    g.requestedRideId >= 0 && !d.visitCompleted
  }
}
