/** `Request` and `Worker`: owning wrappers that take, free, release, cancel and wait for handles. */
module Requests {
  import opened Wrappers
  import opened StatusCodec
  import opened Engine
  import opened Polling

  /** The status a check of `slot` reports: an empty slot counts as completed. */
  function CheckSlot(s: State, slot: Slot): Result<bool, UcsStatus> {
    match slot
    case None => Ok(true)
    case Some(h) => Outcome(StatusOf(s, h))
  }

  /** The state after a call that only looks at the request in `slot`, if any. */
  function TouchSlot(s: State, slot: Slot): State {
    match slot
    case None => s
    case Some(h) => s.Touch(h)
  }

  /** The state after UCX has been asked to cancel the request in `slot`, if any. */
  function CancelSlot(s: State, slot: Slot): State {
    match slot
    case None => s
    case Some(h) => s.Cancel(h)
  }

  function ReleaseSlot(s: State, slot: Slot): State {
    match slot
    case None => s
    case Some(h) => s.Release(h)
  }

  /** The handle in `slot`, as a record of calls. */
  function Handles(slot: Slot): seq<Handle> {
    if slot.Some? then [slot.value] else []
  }

  /** The records of cancels, frees and releases have grown by these handles and no others. */
  ghost predicate Recorded(s: State, s': State, cancels: seq<Handle>, frees: seq<Handle>, releases: seq<Handle>) {
    s'.cancelled == s.cancelled + cancels && s'.freed == s.freed + frees && s'.released == s.released + releases
  }

  class Request {
    const ucx: UcxWorker      // the engine behind the raw handle
    var handle: Slot

    constructor (ucx: UcxWorker, handle: Slot)
      ensures this.ucx == ucx && this.handle == handle
    {
      this.ucx := ucx;
      this.handle := handle;
    }

    method Drop()
      modifies `handle, ucx`state
      ensures handle == None && ucx.state == FreeSlot(old(ucx.state), old(handle))
      ensures Recorded(old(ucx.state), ucx.state, [], Handles(old(handle)), [])
    {
      var h := handle;
      handle := None;
      if h.Some? { ucx.RequestFree(h.value); }
    }

    method CheckFinished() returns (r: Result<bool, UcsStatus>)
      modifies ucx`state
      ensures r == CheckSlot(old(ucx.state), handle)
      ensures handle == None ==> r == Ok(true)
      ensures ucx.state == TouchSlot(old(ucx.state), handle)
      ensures Recorded(old(ucx.state), ucx.state, [], [], [])
    {
      if handle.None? { return Ok(true); }
      var status := ucx.RequestCheckStatus(handle.value);
      CheckFinishedMeaning(status);
      var statusPtr := SignExtend(Code(status));
      if StatusPtrIsErr(statusPtr) { return Err(StatusFromPtr(statusPtr)); }
      return Ok(status == UcsOk);
    }

    /** Consumes the wrapper; the operation goes on. */
    method Release()
      modifies `handle, ucx`state
      ensures handle == None && ucx.state == ReleaseSlot(old(ucx.state), old(handle))
      ensures Recorded(old(ucx.state), ucx.state, [], [], Handles(old(handle)))
    {
      var h := handle;
      handle := None;
      if h.Some? { ucx.RequestRelease(h.value); }
      Drop();
    }

    /** Cancel, then free; the wrapper stays around without a handle. */
    method Cancel()
      modifies `handle, ucx`state
      ensures handle == None && ucx.state == FreeSlot(CancelSlot(old(ucx.state), old(handle)), old(handle))
      ensures Recorded(old(ucx.state), ucx.state, Handles(old(handle)), Handles(old(handle)), [])
      ensures old(handle).None? || old(handle).value in old(ucx.state).live ==> ucx.state.misuse == old(ucx.state).misuse
    {
      var h := handle;
      handle := None;
      if h.Some? {
        ucx.RequestCancel(h.value);
        ucx.RequestFree(h.value);
      }
    }

    /** Consumes the wrapper: its drop runs after the explicit free and finds no handle. */
    method Free()
      modifies `handle, ucx`state
      ensures handle == None && ucx.state == FreeSlot(old(ucx.state), old(handle))
      ensures Recorded(old(ucx.state), ucx.state, [], Handles(old(handle)), [])
    {
      var h := handle;
      handle := None;
      if h.Some? { ucx.RequestFree(h.value); }
      Drop();
    }
  }

  /** The `Arc<AtomicBool>` that a worker shares with its endpoints. */
  class AliveFlag {
    var alive: bool

    constructor ()
      ensures alive
    {
      alive := true;
    }
  }

  class Worker {
    const ucx: UcxWorker
    const alive: AliveFlag

    constructor (ucx: UcxWorker)
      ensures this.ucx == ucx && fresh(alive) && alive.alive
    {
      this.ucx := ucx;
      alive := new AliveFlag();
    }

    method Progress()
      modifies ucx`state
      ensures ucx.state == old(ucx.state).Tick(ucx.sched)
    {
      ucx.Progress();
    }

    /**
     Poll and progress at most `budget` times; `Ok(false)` when that was not enough. The request may
     belong to another worker, which then makes no progress.
     */
    method WaitRequest(request: Request, budget: nat := MAX_PROGRESS) returns (r: Result<bool, UcsStatus>)
      modifies ucx`state, request.ucx`state
      ensures (request.ucx.state, r) ==
              WaitFor(old(request.ucx.state), request.ucx.sched, request.ucx == ucx, request.handle, budget)
      ensures request.ucx != ucx ==>
                ucx.state == old(ucx.state).Ticks(ucx.sched, SpentElsewhere(old(request.ucx.state), request.handle, budget))
    {
      ghost var own, s0, w0 := request.ucx == ucx, request.ucx.state, ucx.state;
      for i := 0 to budget
        invariant request.handle.None? ==> i == 0 && request.ucx.state == s0
        invariant request.handle.Some? ==>
                    Poll(s0, request.ucx.sched, own, request.handle.value, budget) ==
                    Poll(request.ucx.state, request.ucx.sched, own, request.handle.value, budget - i)
        invariant !own ==>
                    RoundElsewhere(w0, ucx.state, ucx.sched, s0, request.ucx.state, request.handle, budget, i)
      {
        r := request.CheckFinished();
        match r
        case Ok(true) => return;
        case Ok(false) => Progress();
        case Err(_) => return;
      }
      return Ok(false);
    }

    /** Ask UCX to cancel; the caller keeps the handle. */
    method CancelRequest(request: Request)
      modifies request.ucx`state
      ensures request.ucx.state == CancelSlot(old(request.ucx.state), request.handle)
      ensures Recorded(old(request.ucx.state), request.ucx.state, Handles(request.handle), [], [])
    {
      if request.handle.Some? { request.ucx.RequestCancel(request.handle.value); }
    }

    /**
     The flag goes down first, then the worker is flushed with a bounded wait, then UCX destroys it,
     and every request of it that still has an owner with it. `flush` is what `ucp_worker_flush_nbx` answers.
     */
    method Drop(flush: Reply, budget: nat := MAX_PROGRESS)
      requires !ucx.state.gone
      modifies alive, ucx`state
      ensures !alive.alive && ucx.state.gone
      ensures ucx.state == FinishWorker(old(ucx.state), ucx.sched, flush, budget)
    {
      alive.alive := false;
      FlushOnDrop(flush, budget);
      ucx.WorkerDestroy();
    }

    /** The middle of the drop: the flag is down, the worker still exists; the request is dropped at the end. */
    method FlushOnDrop(flush: Reply, budget: nat)
      requires !alive.alive && !ucx.state.gone
      modifies ucx`state
      ensures ucx.state.Destroy() == FinishWorker(old(ucx.state), ucx.sched, flush, budget)
    {
      var answer := ucx.Nonblocking(flush);
      if answer.Err? || answer.value.None? { return; }
      var request := new Request(ucx, answer.value);
      AwaitFlush(request, budget);
      request.Drop();
    }

    /** The loop of the flush: any outcome ends it. */
    method AwaitFlush(request: Request, budget: nat)
      requires request.ucx == ucx && request.handle.Some?
      modifies ucx`state
      ensures ucx.state == Poll(old(ucx.state), ucx.sched, true, request.handle.value, budget).0
    {
      ghost var s0, h := ucx.state, request.handle.value;
      for i := 0 to budget
        invariant Poll(s0, ucx.sched, true, h, budget) == Poll(ucx.state, ucx.sched, true, h, budget - i)
      {
        var r := request.CheckFinished();
        if r != Ok(false) { return; }
        Progress();
      }
    }
  }
}
