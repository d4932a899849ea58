/**
 The guards that hold a buffer borrowed while an operation may still use it. `free` consumes a guard,
 so it is followed by the guard's drop, which must find nothing left to do.
 */
module Guards {
  import opened Wrappers
  import opened StatusCodec
  import opened Engine
  import opened Polling
  import opened Requests

  /**
   `StreamRequest` and `FetchAmoRequest`, which differ in nothing but the kind of buffer. `ucx` is the
   engine of the endpoint that posted the request; `worker` is what the caller passed along.
   */
  class BufferGuard {
    var request: Request?
    const ucx: UcxWorker
    const worker: Worker

    constructor (request: Request?, ucx: UcxWorker, worker: Worker)
      ensures this.request == request && this.ucx == ucx && this.worker == worker
    {
      this.request := request;
      this.ucx := ucx;
      this.worker := worker;
    }

    /** The wrapped request holds a handle. */
    ghost predicate Valid()
      reads this, request
    {
      request != null ==> request.ucx == ucx && request.handle.Some?
    }

    /** The handle the guard answers for. */
    ghost function Held(): Slot
      reads this, request
    {
      if request == null then None else request.handle
    }

    /** `into_inner`: the caller takes over the request. */
    method IntoInner() returns (r: Request?)
      requires Valid()
      modifies this, ucx`state, worker.ucx`state
      ensures r == old(request) && request == null
      ensures ucx.state == old(ucx.state) && worker.ucx.state == old(worker.ucx.state)
    {
      r := request;
      request := null;
      Drop();
    }

    method CheckFinished() returns (r: Result<bool, UcsStatus>)
      requires Valid()
      modifies ucx`state
      ensures r == CheckSlot(old(ucx.state), Held())
      ensures ucx.state == TouchSlot(old(ucx.state), Held())
    {
      if request == null { return Ok(true); }
      r := request.CheckFinished();
    }

    /**
     Frees the request once it has finished, or leaks it when the budget runs out: a leaked request
     keeps its handle, a freed one does not.
     */
    method Free(budget: nat := MAX_PROGRESS)
      requires Valid()
      modifies this, request, ucx`state, worker.ucx`state
      ensures request == null
      ensures ucx.state == FinishPoll(old(ucx.state), ucx.sched, ucx == worker.ucx, old(Held()), budget).0
      ensures old(request) != null ==>
                old(request).handle == FinishPoll(old(ucx.state), ucx.sched, ucx == worker.ucx, old(Held()), budget).1
      ensures ucx != worker.ucx ==>
                worker.ucx.state ==
                old(worker.ucx.state).Ticks(worker.ucx.sched, SpentElsewhere(old(ucx.state), old(Held()), budget))
    {
      if request != null {
        var r := request;
        request := null;
        Settle(r, budget);
      }
      Drop();
    }

    method Drop(budget: nat := MAX_PROGRESS)
      requires Valid()
      modifies this, request, ucx`state, worker.ucx`state
      ensures request == null
      ensures ucx.state == FinishPoll(old(ucx.state), ucx.sched, ucx == worker.ucx, old(Held()), budget).0
      ensures old(request) != null ==>
                old(request).handle == FinishPoll(old(ucx.state), ucx.sched, ucx == worker.ucx, old(Held()), budget).1
      ensures ucx != worker.ucx ==>
                worker.ucx.state ==
                old(worker.ucx.state).Ticks(worker.ucx.sched, SpentElsewhere(old(ucx.state), old(Held()), budget))
    {
      if request != null {
        var r := request;
        request := null;
        Settle(r, budget);
      }
    }

    /** The loop that `free` and `drop` have in common, on the request already taken out of the guard. */
    method Settle(r: Request, budget: nat)
      requires r.ucx == ucx && r.handle.Some?
      modifies r, ucx`state, worker.ucx`state
      ensures (ucx.state, r.handle) == FinishPoll(old(ucx.state), ucx.sched, ucx == worker.ucx, old(r.handle), budget)
      ensures ucx != worker.ucx ==>
                worker.ucx.state ==
                old(worker.ucx.state).Ticks(worker.ucx.sched, SpentElsewhere(old(ucx.state), old(r.handle), budget))
    {
      var finished := Await(r, budget);
      if finished { r.Free(); }
    }

    /** Checks and progresses in turn until the request has finished, well or badly, or the budget is spent. */
    method Await(r: Request, budget: nat) returns (finished: bool)
      requires r.ucx == ucx && r.handle.Some?
      modifies ucx`state, worker.ucx`state
      ensures ucx.state == Poll(old(ucx.state), ucx.sched, ucx == worker.ucx, r.handle.value, budget).0
      ensures finished == Poll(old(ucx.state), ucx.sched, ucx == worker.ucx, r.handle.value, budget).1.Finished?
      ensures ucx != worker.ucx ==>
                worker.ucx.state ==
                old(worker.ucx.state).Ticks(worker.ucx.sched, SpentElsewhere(old(ucx.state), r.handle, budget))
    {
      ghost var own, s0, w0, h := ucx == worker.ucx, ucx.state, worker.ucx.state, r.handle.value;
      for i := 0 to budget
        invariant Poll(s0, ucx.sched, own, h, budget) == Poll(ucx.state, ucx.sched, own, h, budget - i)
        invariant !own ==> RoundElsewhere(w0, worker.ucx.state, worker.ucx.sched, s0, ucx.state, r.handle, budget, i)
      {
        var c := r.CheckFinished();
        match c
        case Ok(true) => return true;
        case Ok(false) => worker.Progress();
        case Err(_) => return true;
      }
      return false;
    }
  }

  class TagRequest {
    const ucx: UcxWorker
    const worker: Worker
    var handle: Slot

    constructor (handle: Slot, ucx: UcxWorker, worker: Worker)
      ensures this.handle == handle && this.ucx == ucx && this.worker == worker
    {
      this.handle := handle;
      this.ucx := ucx;
      this.worker := worker;
    }

    /** Checks through a second `Request` for the same handle, which is never dropped. */
    method CheckFinished() returns (r: Result<bool, UcsStatus>)
      modifies `handle, ucx`state
      ensures handle == old(handle)
      ensures r == CheckSlot(old(ucx.state), handle)
      ensures ucx.state == TouchSlot(old(ucx.state), handle)
    {
      var request := new Request(ucx, handle);
      r := request.CheckFinished();
      handle := request.handle;
    }

    /** `into_inner`: the caller takes over the request; the guard's drop finds no handle. */
    method IntoInner() returns (r: Request)
      modifies `handle, ucx`state, worker.ucx`state
      ensures fresh(r) && r.ucx == ucx && r.handle == old(handle)
      ensures handle == None && ucx.state == old(ucx.state) && worker.ucx.state == old(worker.ucx.state)
    {
      r := new Request(ucx, handle);
      handle := None;
      var _ := Complete();
    }

    /** Waits until the request has finished and frees it; `Aborted` stands for `std::process::abort`. */
    method Complete(budget: nat := MAX_PROGRESS) returns (outcome: TagOutcome)
      modifies `handle, ucx`state, worker.ucx`state
      ensures (ucx.state, outcome) == FinishTag(old(ucx.state), ucx.sched, ucx == worker.ucx, old(handle), budget)
      ensures handle == if outcome == Aborted then old(handle) else None
      ensures ucx != worker.ucx ==>
                worker.ucx.state ==
                old(worker.ucx.state).Ticks(worker.ucx.sched, SpentElsewhere(old(ucx.state), old(handle), budget))
    {
      ghost var own, s0, w0 := ucx == worker.ucx, ucx.state, worker.ucx.state;
      var remaining := budget;
      while true
        invariant 0 <= remaining <= budget && handle == old(handle)
        invariant handle.None? ==> ucx.state == s0
        invariant handle.Some? ==>
                    PollTag(s0, ucx.sched, own, handle.value, budget) ==
                    PollTag(ucx.state, ucx.sched, own, handle.value, remaining)
        invariant !own ==>
                    RoundElsewhere(w0, worker.ucx.state, worker.ucx.sched, s0, ucx.state, handle, budget,
                                   budget - remaining)
        decreases remaining
      {
        var result := CheckFinished();
        if result == Ok(false) {
          if remaining == 0 { return Aborted; }
          remaining := remaining - 1;
          worker.Progress();
        } else {
          var request := new Request(ucx, handle);
          handle := None;
          request.Drop();
          return Completed(Forget(result));
        }
      }
    }

    method Free(budget: nat := MAX_PROGRESS) returns (outcome: TagOutcome)
      modifies `handle, ucx`state, worker.ucx`state
      ensures (ucx.state, outcome) == FinishTag(old(ucx.state), ucx.sched, ucx == worker.ucx, old(handle), budget)
      ensures handle == if outcome == Aborted then old(handle) else None
    {
      outcome := Complete(budget);
      if outcome != Aborted {
        var _ := Drop(budget);
      }
    }

    method Drop(budget: nat := MAX_PROGRESS) returns (outcome: TagOutcome)
      modifies `handle, ucx`state, worker.ucx`state
      ensures (ucx.state, outcome) == FinishTag(old(ucx.state), ucx.sched, ucx == worker.ucx, old(handle), budget)
      ensures handle == if outcome == Aborted then old(handle) else None
    {
      outcome := Complete(budget);
    }
  }
}
