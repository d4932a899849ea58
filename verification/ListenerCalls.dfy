/** The listener's functions, each run without interruption, against the steps of the protocol. */
module ListenerCalls {
  import opened Wrappers
  import opened StatusCodec
  import opened ListenerProtocol

  class Listener {
    var state: World
    const handle: nat     // what ucp_listener_create hands out

    ghost predicate Valid()
      reads this
    {
      handle != 0 && Inv(state, handle)
    }

    /** The state and its callback are allocated, nothing else has happened. */
    constructor (handle: nat)
      requires handle != 0
      ensures this.handle == handle && state == Start && Valid()
    {
      this.handle := handle;
      state := Start;
      StartIsOk(handle);
    }

    method Take(a: Action)
      requires Valid() && Enabled(state, a, handle)
      modifies this
      ensures Valid() && state == Step(old(state), a, handle)
    {
      StepKeepsInv(state, a, handle);
      state := Step(state, a, handle);
    }

    /** On success the handle is published; on failure the state and the callback are gone, and nothing is destroyed. */
    method CreateWithConnHandler(accepted: bool)
      requires Valid() && state == Start
      modifies this
      ensures Valid()
      ensures state == if accepted then Start.(ucx := Active, creator := Holding, cell := handle)
                       else Start.(strong := 0, present := false, creator := Released)
    {
      if accepted {
        Take(Activate);
        Take(CreateOk);
        Take(Publish);
      } else {
        Take(CreateFails);
      }
    }

    /**
     One connection request: the closure moves it out as `kept`, or lets it go; it may panic in either
     case. Nothing but a kept request remains, and the handler is free again.
     */
    method ConnTrampoline(t: nat, kept: Option<nat>, panics: bool)
      requires Valid() && Enabled(state, Dispatch(t), handle) && state.mutex == None
      requires kept.Some? ==> kept.value !in state.requests
      modifies this
      ensures Valid()
      ensures state == if kept.Some? then old(state).(strong := old(state).strong + 1,
                                                      requests := old(state).requests + {kept.value})
                       else old(state)
    {
      ghost var before := state;
      Enter(t);
      RunClosure(t, kept, panics);
      Exit(t);
      assert before.tramps[t := Running(true)][t := Caught] - {t} == before.tramps;
    }

    /** Up to the locked handler: one reference for the request, one for the callback. */
    method Enter(t: nat)
      requires Valid() && Enabled(state, Dispatch(t), handle) && state.mutex == None
      modifies this
      ensures Valid()
      ensures state == old(state).(strong := old(state).strong + 2, mutex := Some(t),
                                   tramps := old(state).tramps[t := Running(true)])
      ensures old(state).strong > 0
    {
      Take(Dispatch(t));
      Take(CloneState(t));
      Take(Lock(t));
      assert state.tramps == old(state).tramps[t := Running(true)];
    }

    /** After the closure: unlock, then give up the last reference. */
    method Exit(t: nat)
      requires Valid() && At(state, t, Caught) && state.strong > 1
      modifies this
      ensures Valid()
      ensures state == old(state).(strong := old(state).strong - 1, mutex := None, tramps := old(state).tramps - {t})
    {
      Take(Unlock(t));
      Take(Leave(t));
      assert state.tramps == old(state).tramps - {t};
    }

    /** The part under `catch_unwind`. */
    method RunClosure(t: nat, kept: Option<nat>, panics: bool)
      requires Valid() && At(state, t, Running(true)) && state.strong > 1
      requires kept.Some? ==> kept.value !in state.requests
      modifies this
      ensures Valid()
      ensures state == old(state).(strong := if kept.Some? then old(state).strong else old(state).strong - 1,
                                   requests := if kept.Some? then old(state).requests + {kept.value}
                                               else old(state).requests,
                                   tramps := old(state).tramps[t := Caught])
    {
      ghost var before := state;
      if kept.Some? { Take(MoveOut(t, kept.value)); }
      EndClosure(t, kept.None?, panics);
      assert before.tramps[t := Running(false)][t := Caught] == before.tramps[t := Caught];
    }

    /** The closure returns or unwinds; a request it still has is dropped. */
    method EndClosure(t: nat, request: bool, panics: bool)
      requires Valid() && At(state, t, Running(request)) && state.strong > 1
      modifies this
      ensures Valid()
      ensures state == old(state).(strong := if request then old(state).strong - 1 else old(state).strong,
                                   tramps := old(state).tramps[t := Caught])
    {
      ghost var before := state;
      if panics {
        Take(Panic(t));
        Take(Unwind(t));
        assert before.tramps[t := Panicking(request)][t := Caught] == before.tramps[t := Caught];
      } else {
        Take(Return(t));
      }
    }

    /** `reject_owned`, with the answer UCX gives to a rejection that reaches it. */
    method RejectOwned(r: nat, answer: UcsStatus) returns (result: Result<(), UcsStatus>)
      requires Valid() && r in state.requests
      modifies this
      ensures Valid() && state == Step(old(state), Action.RejectOwned(r), handle)
      ensures result == if old(state).cell == 0 then Err(InvalidParam) else StatusToResult(answer)
      ensures state.rejectedOn == if old(state).cell == 0 then old(state).rejectedOn else old(state).rejectedOn + [handle]
    {
      var listener := state.cell;
      Take(Action.RejectOwned(r));
      if listener == 0 { return Err(InvalidParam); }
      return StatusToResult(answer);
    }

    /** Dropping the `Listener` destroys UCX's listener at once only if no request or callback is left. */
    method Drop()
      requires Valid() && state.creator == Holding
      modifies this
      ensures Valid() && state.creator == Released && state.strong == old(state).strong - 1
      ensures state.ucx == if old(state).requests == {} && old(state).tramps == map[] then Destroyed else Active
      ensures state.destroyCalls == if state.ucx == Destroyed then 1 else 0
    {
      ghost var before := state;
      Take(DropListener);
      LastOwner(before);
    }
  }

  lemma LastOwner(w: World)
    requires w.creator == Holding && w.strong == References(w)
    ensures w.strong == 1 <==> w.requests == {} && w.tramps == map[]
  {
    if w.strong == 1 { assert w.tramps.Keys == {}; }
    if w.tramps == map[] { assert Twos(w.tramps) == {}; }
  }
}
