/**
 The UCX side of the request protocol as an abstract machine. Requests are posted, complete in some
 progress call of their worker, and are disposed of by `ucp_request_free` or `ucp_request_release`.
 What completes when is a `Schedule` that every statement quantifies over.
 */
module Engine {
  import opened Wrappers
  import opened StatusCodec

  /** One request allocation. UCX may reuse an address; a handle here names one allocation. */
  type Handle = nat

  /** For the n-th progress call: the operations it completes, and with what status. */
  type Schedule = nat -> map<Handle, UcsStatus>

  /** What a nonblocking call answers: done at once, refused, or a request with the given status. */
  datatype Reply = Now | Refused(error: UcsStatus) | Posted(status: UcsStatus)

  datatype State = State(
    clock: nat,                       // progress calls so far
    next: Handle,                     // handles below this one have been posted
    status: map<Handle, UcsStatus>,   // status of the operation behind each posted handle
    live: set<Handle>,                // posted and not yet disposed of
    freed: seq<Handle>,               // arguments of ucp_request_free, in order
    released: seq<Handle>,            // arguments of ucp_request_release, in order
    cancelled: seq<Handle>,           // arguments of ucp_request_cancel, in order
    misuse: bool,                     // some call was made on a handle already disposed of
    gone: bool,                       // ucp_worker_destroy has returned
    late: bool)                       // some call was made on the worker or its requests after that
  {
    /** Any call that concerns this worker. */
    function Reach(): State {
      this.(late := late || gone)
    }

    /** A nonblocking call allocates a request whose operation has status `s` (already complete or not). */
    function Post(s: UcsStatus): State {
      Reach().(next := next + 1, status := status[next := s], live := live + {next})
    }

    /** One `ucp_worker_progress`: only operations in progress change, and a final status stays. */
    function Tick(sched: Schedule): State {
      var done := sched(clock);
      this.(clock := clock + 1,
            status := map h | h in status :: if Terminal(status[h]) || h !in done then status[h] else done[h])
    }

    function TickIf(sched: Schedule, own: bool): State {
      if own then Tick(sched) else this
    }

    /** Any call that only looks at the request. */
    function Touch(h: Handle): State {
      Reach().(misuse := misuse || h !in live)
    }

    function Free(h: Handle): State {
      Touch(h).(live := live - {h}, freed := freed + [h])
    }

    /** `ucp_request_cancel` only asks: the operation goes on until some progress call completes it. */
    function Cancel(h: Handle): State {
      Touch(h).(cancelled := cancelled + [h])
    }

    function Release(h: Handle): State {
      Touch(h).(live := live - {h}, released := released + [h])
    }

    /** `ucp_worker_destroy`: everything that belongs to the worker goes with it. */
    function Destroy(): State {
      this.(gone := true)
    }

    /** A request that may be passed to UCX. */
    predicate Usable(h: Handle) {
      h in live && h in status && !gone
    }

    /** `n` progress calls in a row. */
    function Ticks(sched: Schedule, n: nat): State
      decreases n
    {
      if n == 0 then this else Tick(sched).Ticks(sched, n - 1)
    }

    predicate InFlight(h: Handle) {
      h in status && !Terminal(status[h])
    }
  }

  /** The state after a nonblocking call, which hands out the next handle if it posts a request. */
  function Call(s: State, reply: Reply): State {
    if reply.Posted? then s.Post(reply.status) else s.Reach()
  }

  /** `status_ptr_to_result` on that answer. */
  function CallResult(s: State, reply: Reply): Result<Slot, UcsStatus> {
    match reply
    case Now => Ok(None)
    case Refused(e) => Err(e)
    case Posted(_) => Ok(Some(s.next))
  }

  const Initial := State(0, 0, map[], {}, [], [], [], false, false, false)

  /** A request slot such as `Option<NonNull<c_void>>`. */
  type Slot = Option<Handle>

  /** A handle is freed if the slot holds one. */
  function FreeSlot(s: State, slot: Slot): State {
    match slot
    case None => s
    case Some(h) => s.Free(h)
  }

  /** Progress changes statuses only, and only those of operations in flight. */
  lemma {:induction false} TicksFrame(s: State, sched: Schedule, n: nat)
    ensures var s' := s.Ticks(sched, n);
            s' == s.(clock := s.clock + n, status := s'.status) &&
            s'.status.Keys == s.status.Keys &&
            forall h | h in s.status && Terminal(s.status[h]) :: s'.status[h] == s.status[h]
    decreases n
  {
    if n > 0 { TicksFrame(s.Tick(sched), sched, n - 1); }
  }

  lemma {:induction false} TicksAdd(s: State, sched: Schedule, m: nat, n: nat)
    ensures s.Ticks(sched, m + n) == s.Ticks(sched, m).Ticks(sched, n)
    decreases m
  {
    if m > 0 { TicksAdd(s.Tick(sched), sched, m - 1, n); }
  }

  /** What each call on a request leaves on record; a call on a dead handle, or after the worker, leaves its mark. */
  lemma CallsAreRecorded(s: State, h: Handle)
    ensures s.Touch(h).freed == s.freed && s.Touch(h).released == s.released && s.Touch(h).cancelled == s.cancelled
    ensures s.Cancel(h).cancelled == s.cancelled + [h]
    ensures s.Cancel(h).freed == s.freed && s.Cancel(h).released == s.released && s.Cancel(h).live == s.live
    ensures s.Free(h).freed == s.freed + [h]
    ensures s.Free(h).released == s.released && s.Free(h).cancelled == s.cancelled && h !in s.Free(h).live
    ensures s.Release(h).released == s.released + [h]
    ensures s.Release(h).freed == s.freed && s.Release(h).cancelled == s.cancelled && h !in s.Release(h).live
    ensures forall t | t in [s.Touch(h), s.Cancel(h), s.Free(h), s.Release(h)] ::
              t.misuse == (s.misuse || h !in s.live) && t.late == (s.late || s.gone) && t.status == s.status
  {
  }

  /** A posted request is the next handle, live, with the status it was posted with. */
  lemma PostMeaning(s: State, status: UcsStatus)
    ensures var t := Call(s, Posted(status));
            && t.next == s.next + 1 && t.live == s.live + {s.next} && t.status == s.status[s.next := status]
            && t.clock == s.clock && t.freed == s.freed && t.released == s.released && t.cancelled == s.cancelled
            && t.misuse == s.misuse && t.late == (s.late || s.gone) && t.gone == s.gone
            && CallResult(s, Posted(status)) == Ok(Some(s.next))
    ensures CallResult(s, Now) == Ok(None) && forall e :: CallResult(s, Refused(e)) == Err(e)
    ensures Call(s, Now) == s.(late := s.late || s.gone) && forall e :: Call(s, Refused(e)) == Call(s, Now)
  {
  }

  /** An operation that the schedule completes in this progress call is complete after it. */
  lemma TickCompletes(s: State, sched: Schedule, h: Handle)
    requires s.InFlight(h)
    ensures s.Tick(sched).clock == s.clock + 1
    ensures s.Tick(sched).status[h] == if h in sched(s.clock) then sched(s.clock)[h] else s.status[h]
  {
  }

  /** How an operation progresses depends on its own status and on the clock only. */
  lemma {:induction false} TicksOfOne(s: State, t: State, sched: Schedule, h: Handle, n: nat)
    requires h in s.status && h in t.status && s.status[h] == t.status[h] && s.clock == t.clock
    ensures h in s.Ticks(sched, n).status && h in t.Ticks(sched, n).status
    ensures s.Ticks(sched, n).status[h] == t.Ticks(sched, n).status[h]
    decreases n
  {
    if n > 0 { TicksOfOne(s.Tick(sched), t.Tick(sched), sched, h, n - 1); }
  }

  /** The calls that end an endpoint. */
  datatype EpCall = CloseNbx(ep: nat) | EpDestroy(ep: nat) | DisconnectNb(ep: nat)

  /** The engine of one worker, as the Rust layer reaches it through the foreign-function interface. */
  class UcxWorker {
    const sched: Schedule
    var state: State
    var epLog: seq<EpCall>    // endpoint teardown calls, in order

    constructor (sched: Schedule)
      ensures this.sched == sched && state == Initial && epLog == []
    {
      this.sched := sched;
      state := Initial;
      epLog := [];
    }

    /** `ucp_ep_close_nbx`, `ucp_disconnect_nb` or `ucp_ep_destroy` (which answers nothing). */
    method EndEndpoint(call: EpCall, reply: Reply) returns (r: Result<Slot, UcsStatus>)
      modifies `state, `epLog
      ensures epLog == old(epLog) + [call]
      ensures state == Call(old(state), reply) && r == CallResult(old(state), reply)
    {
      epLog := epLog + [call];
      r := Nonblocking(reply);
    }

    method Progress()
      modifies `state
      ensures state == old(state).Tick(sched)
    {
      state := state.Tick(sched);
    }

    /** Any `_nbx` call on this worker; `reply` is the answer it gets. */
    method Nonblocking(reply: Reply) returns (r: Result<Slot, UcsStatus>)
      modifies `state
      ensures state == Call(old(state), reply) && r == CallResult(old(state), reply)
    {
      r := CallResult(state, reply);
      state := Call(state, reply);
    }

    method WorkerDestroy()
      modifies `state
      ensures state == old(state).Destroy()
    {
      state := state.Destroy();
    }

    method RequestCheckStatus(h: Handle) returns (s: UcsStatus)
      modifies `state
      ensures state == old(state).Touch(h)
      ensures s == if h in old(state).status then old(state).status[h] else UcsOk
    {
      state := state.Touch(h);
      s := if h in state.status then state.status[h] else UcsOk;
    }

    method RequestCancel(h: Handle)
      modifies `state
      ensures state == old(state).Cancel(h)
    {
      state := state.Cancel(h);
    }

    method RequestFree(h: Handle)
      modifies `state
      ensures state == old(state).Free(h)
    {
      state := state.Free(h);
    }

    method RequestRelease(h: Handle)
      modifies `state
      ensures state == old(state).Release(h)
    {
      state := state.Release(h);
    }
  }
}
