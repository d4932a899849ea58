/** `Ep` teardown: which calls reach UCX, given the flag shared with the worker. */
module Endpoints {
  import opened Wrappers
  import opened StatusCodec
  import opened Engine
  import opened Polling
  import opened Requests

  /** The three ways of ending an endpoint that consult the worker's flag. */
  datatype Teardown = ByDrop | ByDestroy | ByDisconnect

  /** The calls a teardown makes; `reply` answers the first one. */
  function TeardownCalls(t: Teardown, ep: nat, alive: bool, reply: Reply): seq<EpCall> {
    if !alive then []
    else match t
      case ByDrop => [CloseNbx(ep)]
      case ByDestroy => [EpDestroy(ep)]
      case ByDisconnect => if reply.Refused? then [DisconnectNb(ep), EpDestroy(ep)] else [DisconnectNb(ep)]
  }

  class Ep {
    const handle: nat
    const ucx: UcxWorker         // the engine behind the raw handle
    const workerAlive: AliveFlag

    constructor (worker: Worker, handle: nat)
      ensures this.handle == handle && ucx == worker.ucx && workerAlive == worker.alive
    {
      this.handle := handle;
      ucx := worker.ucx;
      workerAlive := worker.alive;
    }

    /** Best-effort close; a close still in progress leaves its request leaked. */
    method Drop(reply: Reply)
      modifies ucx`state, ucx`epLog
      ensures ucx.epLog == old(ucx.epLog) + TeardownCalls(ByDrop, handle, workerAlive.alive, reply)
      ensures ucx.epLog == old(ucx.epLog) + if workerAlive.alive then [CloseNbx(handle)] else []
      ensures ucx.state == if workerAlive.alive then Call(old(ucx.state), reply) else old(ucx.state)
    {
      if !workerAlive.alive { return; }
      var _ := ucx.EndEndpoint(CloseNbx(handle), reply);
    }

    method Destroy()
      modifies ucx`state, ucx`epLog
      ensures ucx.epLog == old(ucx.epLog) + TeardownCalls(ByDestroy, handle, workerAlive.alive, Now)
      ensures ucx.epLog == old(ucx.epLog) + if workerAlive.alive then [EpDestroy(handle)] else []
      ensures ucx.state == if workerAlive.alive then Call(old(ucx.state), Now) else old(ucx.state)
    {
      if workerAlive.alive {
        var _ := ucx.EndEndpoint(EpDestroy(handle), Now);
      }
    }

    /** A refused disconnect is followed by a destroy. The caller owns a posted request. */
    method DisconnectNb(reply: Reply) returns (r: Result<Slot, UcsStatus>)
      modifies ucx`state, ucx`epLog
      ensures ucx.epLog == old(ucx.epLog) + TeardownCalls(ByDisconnect, handle, workerAlive.alive, reply)
      ensures ucx.epLog == old(ucx.epLog) + if !workerAlive.alive then []
                                            else if reply.Refused? then [EpCall.DisconnectNb(handle), EpDestroy(handle)]
                                            else [EpCall.DisconnectNb(handle)]
      ensures ucx.state == if !workerAlive.alive then old(ucx.state)
                           else if reply.Refused? then Call(Call(old(ucx.state), reply), Now)
                           else Call(old(ucx.state), reply)
      ensures r == if !workerAlive.alive || reply == Now then Ok(None)
                   else if reply.Refused? then Err(reply.error)
                   else Ok(Some(old(ucx.state).next))
    {
      if !workerAlive.alive { return Ok(None); }
      r := ucx.EndEndpoint(EpCall.DisconnectNb(handle), reply);
      if r.Err? {
        var _ := ucx.EndEndpoint(EpDestroy(handle), Now);
      }
    }

    /**
     Waits for the close request, progressing the worker passed along, which need not be the
     endpoint's own; consults no flag.
     */
    method Close(worker: Worker, reply: Reply, budget: nat := MAX_PROGRESS) returns (r: Result<(), UcsStatus>)
      modifies ucx`state, ucx`epLog, worker.ucx`state
      ensures ucx.epLog == old(ucx.epLog) + [CloseNbx(handle)]
      ensures reply == Now ==> ucx.state == Call(old(ucx.state), reply) && r == Ok(())
      ensures reply.Refused? ==> ucx.state == Call(old(ucx.state), reply) && r == Err(reply.error)
      ensures reply.Posted? ==>
                var (s, _, result) := FinishClose(Call(old(ucx.state), reply), ucx.sched, worker.ucx == ucx,
                                                  old(ucx.state).next, budget);
                ucx.state == s && r == result
    {
      var answer := ucx.EndEndpoint(CloseNbx(handle), reply);
      if answer.Err? { return Err(answer.error); }
      if answer.value.None? { return Ok(()); }
      var request := new Request(ucx, answer.value);
      r := AwaitClose(request, worker, budget);
    }

    /** The loop of `close`. */
    method AwaitClose(request: Request, worker: Worker, budget: nat) returns (r: Result<(), UcsStatus>)
      requires request.ucx == ucx && request.handle.Some?
      modifies request, ucx`state, worker.ucx`state
      ensures (ucx.state, request.handle, r) ==
              FinishClose(old(ucx.state), ucx.sched, worker.ucx == ucx, old(request.handle.value), budget)
    {
      ghost var own, s0, h := worker.ucx == ucx, ucx.state, request.handle.value;
      for i := 0 to budget
        invariant request.handle == Some(h)
        invariant Poll(s0, ucx.sched, own, h, budget) == Poll(ucx.state, ucx.sched, own, h, budget - i)
      {
        var c := request.CheckFinished();
        match c
        case Ok(true) => request.Free(); return Ok(());
        case Ok(false) => worker.Progress();
        case Err(e) => return Err(e);
      }
      return Err(TimedOut);
    }
  }
}
