/**
 The reference-counted state of a listener created with a connection callback. Its owners are the
 creating thread or the `Listener`, every `ConnRequest`, and every running trampoline. UCX may call
 the trampoline from any thread, even before the handle has been published.
 */
module ListenerProtocol {
  import opened Wrappers
  import opened StatusCodec

  /** Where the creator's reference is. */
  datatype Creator =
    | Creating   // inside ucp_listener_create
    | Created    // it returned OK; the handle is not written yet
    | Holding    // the Listener exists
    | Released   // the Listener was dropped, or creation failed

  /** A trampoline in progress; `request` tells whether it still owns its connection request. */
  datatype Trampoline =
    | Entered                  // one reference, in `request`
    | Cloned                   // a second one, in `callback_state`
    | Running(request: bool)   // holds the handler mutex, user code runs
    | Panicking(request: bool) // user code panicked, unwinding up to catch_unwind
    | Caught                   // user code is over, the mutex guard still exists
    | Unlocked                 // only `callback_state` is left
    | Refused                  // found the mutex poisoned; both references still there

  /** UCX's view of the listener. */
  datatype UcxListener = Absent | Active | Destroyed

  datatype World = World(
    strong: nat,                      // the Arc's strong count
    present: bool,                    // the ListenerState and the callback box in it exist
    cell: nat,                        // the published handle, 0 before publication
    creator: Creator,
    ucx: UcxListener,
    destroyCalls: nat,                // calls of ucp_listener_destroy
    requests: set<nat>,               // ConnRequests owned by user code
    tramps: map<nat, Trampoline>,     // trampolines in progress, by thread
    mutex: Option<nat>,               // the trampoline holding the handler mutex
    poisoned: bool,
    rejectedOn: seq<nat>,             // listener handles passed to ucp_listener_reject
    misuse: bool,                     // a dead state was referenced, or a dead listener passed to UCX
    workerGone: bool,                 // the worker the listener was created on has been destroyed
    late: bool)                       // UCX was called for the listener after that

  datatype Action =
    | Activate                        // UCX starts listening, still inside create
    | CreateOk
    | CreateFails
    | Publish
    | Dispatch(t: nat)                // UCX calls the trampoline, which takes its reference
    | CloneState(t: nat)
    | Lock(t: nat)
    | FindPoisoned(t: nat)
    | MoveOut(t: nat, r: nat)         // user code keeps the request
    | DropInside(t: nat)              // user code drops the request
    | Panic(t: nat)
    | Unwind(t: nat)                  // a panic drops the request if user code still had it
    | Return(t: nat)
    | Unlock(t: nat)
    | Leave(t: nat)
    | DropListener
    | DropRequest(r: nat)
    | RejectOwned(r: nat)             // ConnRequest::reject_owned
    | Reject(r: nat)                  // Listener::reject
    | DestroyWorker                   // UCX waits for the callbacks; neither listener nor requests prevent it

  /** Just before ucp_listener_create: one reference, nothing published. */
  const Start := World(1, true, 0, Creating, Absent, 0, {}, map[], None, false, [], false, false, false)

  /** Taking a reference touches the allocation; from zero it would revive a dead state. */
  function Increment(w: World): (w': World)
    ensures w'.workerGone == w.workerGone && (!w.workerGone ==> w'.late == w.late)
    ensures w'.rejectedOn == w.rejectedOn
  {
    w.(strong := w.strong + 1, misuse := w.misuse || !w.present)
  }

  /** The last reference runs the state's drop: destroy a published listener, then free everything. */
  function Decrement(w: World): (w': World)
    ensures w'.workerGone == w.workerGone && (!w.workerGone ==> w'.late == w.late)
    ensures w'.rejectedOn == w.rejectedOn
  {
    if w.strong == 0 then w.(misuse := true)
    else if w.strong > 1 then w.(strong := w.strong - 1)
    else w.(strong := 0, present := false,
            ucx := if w.cell != 0 then Destroyed else w.ucx,
            destroyCalls := if w.cell != 0 then w.destroyCalls + 1 else w.destroyCalls,
            misuse := w.misuse || !w.present || (w.cell != 0 && w.ucx != Active) || w.mutex.Some?,
            late := w.late || (w.cell != 0 && w.workerGone))
  }

  predicate At(w: World, t: nat, p: Trampoline) {
    t in w.tramps && w.tramps[t] == p
  }

  /** A mutex guard dropped now, on this thread, would poison its mutex. */
  predicate ThreadPanics(w: World, t: nat) {
    t in w.tramps && w.tramps[t].Panicking?
  }

  /** Which steps can happen. The mutex guard lives outside `catch_unwind`, so it is dropped once caught. */
  predicate Enabled(w: World, a: Action, handle: nat) {
    match a
    case Activate => w.creator == Creating && w.ucx == Absent
    case CreateOk => w.creator == Creating && w.ucx == Active
    case CreateFails => w.creator == Creating
    case Publish => w.creator == Created
    case Dispatch(t) => w.ucx == Active && t !in w.tramps && !w.workerGone
    case CloneState(t) => At(w, t, Entered)
    case Lock(t) => At(w, t, Cloned) && w.mutex == None && !w.poisoned
    case FindPoisoned(t) => At(w, t, Cloned) && w.mutex == None && w.poisoned
    case MoveOut(t, r) => At(w, t, Running(true)) && r !in w.requests
    case DropInside(t) => At(w, t, Running(true))
    case Panic(t) => t in w.tramps && w.tramps[t].Running?
    case Unwind(t) => t in w.tramps && w.tramps[t].Panicking?
    case Return(t) => t in w.tramps && w.tramps[t].Running?
    case Unlock(t) => At(w, t, Caught)
    case Leave(t) => At(w, t, Unlocked) || At(w, t, Refused)
    case DropListener => w.creator == Holding
    case DropRequest(r) => r in w.requests
    case RejectOwned(r) => r in w.requests
    case Reject(r) => r in w.requests && w.creator == Holding
    case DestroyWorker => !w.workerGone && w.tramps == map[] && (w.creator == Holding || w.creator == Released)
  }

  /** UCX is asked to reject through the handle in the cell. */
  function CallReject(w: World): (w': World)
    ensures w'.workerGone == w.workerGone && (!w.workerGone ==> w'.late == w.late)
  {
    w.(rejectedOn := w.rejectedOn + [w.cell], misuse := w.misuse || w.cell == 0 || w.ucx != Active,
        late := w.late || w.workerGone)
  }

  /** What `reject_owned` answers when UCX itself accepts the rejection. */
  function RejectOwnedResult(w: World): Result<(), UcsStatus> {
    if w.cell == 0 then Err(InvalidParam) else Ok(())
  }

  function Step(w: World, a: Action, handle: nat): World {
    match a
    case Activate => w.(ucx := Active)
    case CreateOk => w.(creator := Created)
    case CreateFails => Decrement(w.(creator := Released, ucx := Absent))
    case Publish => w.(creator := Holding, cell := handle)
    case Dispatch(t) => Increment(w).(tramps := w.tramps[t := Entered])
    case CloneState(t) => Increment(w).(tramps := w.tramps[t := Cloned])
    case Lock(t) => w.(mutex := Some(t), tramps := w.tramps[t := Running(true)])
    case FindPoisoned(t) => w.(tramps := w.tramps[t := Refused])
    case MoveOut(t, r) => w.(requests := w.requests + {r}, tramps := w.tramps[t := Running(false)])
    case DropInside(t) => Decrement(w).(tramps := w.tramps[t := Running(false)])
    case Panic(t) =>
      if t in w.tramps && w.tramps[t].Running? then w.(tramps := w.tramps[t := Panicking(w.tramps[t].request)]) else w
    case Unwind(t) =>
      if t in w.tramps && w.tramps[t].Panicking? && w.tramps[t].request
      then Decrement(w).(tramps := w.tramps[t := Caught]) else w.(tramps := w.tramps[t := Caught])
    case Return(t) =>
      if At(w, t, Running(true))
      then Decrement(w).(tramps := w.tramps[t := Caught]) else w.(tramps := w.tramps[t := Caught])
    case Unlock(t) =>
      w.(mutex := None, poisoned := w.poisoned || ThreadPanics(w, t), tramps := w.tramps[t := Unlocked])
    case Leave(t) =>
      var w' := if At(w, t, Refused) then Decrement(Decrement(w)) else Decrement(w);
      w'.(tramps := w.tramps - {t})
    case DropListener => Decrement(w).(creator := Released)
    case DropRequest(r) => Decrement(w).(requests := w.requests - {r})
    case RejectOwned(r) =>
      var w' := if w.cell == 0 then w else CallReject(w);
      Decrement(w').(requests := w.requests - {r})
    case Reject(r) => Decrement(CallReject(w)).(requests := w.requests - {r})
    case DestroyWorker => w.(workerGone := true)
  }

  // ---------- Invariant ----------

  /** References that a running trampoline owns. */
  function Refs(p: Trampoline): nat {
    match p
    case Cloned => 2
    case Running(request) => if request then 2 else 1
    case Panicking(request) => if request then 2 else 1
    case Refused => 2
    case _ => 1
  }

  function Twos(tramps: map<nat, Trampoline>): set<nat> {
    set t | t in tramps && Refs(tramps[t]) == 2
  }

  /** All references: the creator's, one per request, one or two per trampoline. */
  function References(w: World): nat {
    (if w.creator != Released then 1 else 0) + |w.requests| + |w.tramps.Keys| + |Twos(w.tramps)|
  }

  predicate HoldsMutex(p: Trampoline) {
    p.Running? || p.Panicking? || p.Caught?
  }

  ghost predicate MutexOk(w: World) {
    && !w.poisoned
    && (w.mutex.Some? ==> w.mutex.value in w.tramps && HoldsMutex(w.tramps[w.mutex.value]))
    && (forall t | t in w.tramps :: w.tramps[t] != Refused && (HoldsMutex(w.tramps[t]) ==> w.mutex == Some(t)))
  }

  /** The published handle, UCX's listener and the allocation go together. */
  predicate HandleOk(w: World, handle: nat) {
    && (w.creator == Creating || w.creator == Created ==> w.cell == 0 && w.ucx != Destroyed)
    && (w.creator == Created ==> w.ucx == Active)
    && (w.creator == Holding ==> w.cell == handle)
    && (w.cell == 0 && w.creator == Released ==> w.ucx == Absent)
    && (w.cell != 0 ==> w.cell == handle && w.ucx == if w.present then Active else Destroyed)
    && w.destroyCalls == (if w.cell != 0 && !w.present then 1 else 0)
  }

  ghost predicate Core(w: World, handle: nat) {
    && !w.misuse
    && MutexOk(w)
    && HandleOk(w, handle)
    && (forall h | h in w.rejectedOn :: h == handle)
  }

  ghost predicate Inv(w: World, handle: nat) {
    Core(w, handle) && w.strong == References(w) && (w.present <==> w.strong > 0)
  }

  lemma TwosRemoved(tramps: map<nat, Trampoline>, t: nat)
    ensures Twos(tramps - {t}) == Twos(tramps) - {t}
    ensures |Twos(tramps) - {t}| == |Twos(tramps)| - if t in Twos(tramps) then 1 else 0
  {
    if t !in Twos(tramps) { assert Twos(tramps) - {t} == Twos(tramps); }
  }

  lemma TwosReplaced(tramps: map<nat, Trampoline>, t: nat, p: Trampoline)
    ensures |Twos(tramps[t := p])| == |Twos(tramps) - {t}| + if Refs(p) == 2 then 1 else 0
  {
    var others, after := Twos(tramps) - {t}, Twos(tramps[t := p]);
    forall u ensures u in after <==> u in others || (u == t && Refs(p) == 2) {}
    if Refs(p) == 2 {
      assert after == others + {t};
    } else {
      assert after == others;
    }
  }

  lemma ThreadsReplaced(tramps: map<nat, Trampoline>, t: nat, p: Trampoline)
    ensures |tramps[t := p].Keys| == |tramps.Keys| + if t in tramps then 0 else 1
    ensures t in tramps ==> |(tramps - {t}).Keys| == |tramps.Keys| - 1
  {
    assert tramps[t := p].Keys == tramps.Keys + {t};
    assert (tramps - {t}).Keys == tramps.Keys - {t};
  }

  /** How replacing, adding or removing one trampoline changes the references. */
  lemma TrampolineReplaced(w: World, t: nat, p: Trampoline)
    ensures References(w.(tramps := w.tramps[t := p])) ==
            References(w) + Refs(p) - if t in w.tramps then Refs(w.tramps[t]) else 0
    ensures t in w.tramps ==> References(w.(tramps := w.tramps - {t})) == References(w) - Refs(w.tramps[t])
  {
    TwosRemoved(w.tramps, t);
    TwosReplaced(w.tramps, t, p);
    ThreadsReplaced(w.tramps, t, p);
  }

  /** Giving up a reference that no owner counts any more. */
  lemma DecrementKeepsInv(w: World, handle: nat)
    requires handle != 0 && Core(w, handle) && w.present && w.strong == References(w) + 1
    ensures Inv(Decrement(w), handle)
  {
    if w.strong == 1 {
      assert w.tramps.Keys == {};
      assert w.mutex == None;
    }
  }

  lemma CloneKeepsInv(w: World, t: nat, handle: nat)
    requires Inv(w, handle) && Enabled(w, CloneState(t), handle)
    ensures Inv(Step(w, CloneState(t), handle), handle)
  {
    TrampolineReplaced(w, t, Cloned);
  }

  lemma LockKeepsInv(w: World, t: nat, handle: nat)
    requires Inv(w, handle) && Enabled(w, Lock(t), handle)
    ensures Inv(Step(w, Lock(t), handle), handle)
  {
    TrampolineReplaced(w, t, Running(true));
  }

  lemma PanicKeepsInv(w: World, t: nat, handle: nat)
    requires Inv(w, handle) && Enabled(w, Panic(t), handle)
    ensures Inv(Step(w, Panic(t), handle), handle)
  {
    TrampolineReplaced(w, t, Panicking(w.tramps[t].request));
  }

  lemma UnlockKeepsInv(w: World, t: nat, handle: nat)
    requires Inv(w, handle) && Enabled(w, Unlock(t), handle)
    ensures Inv(Step(w, Unlock(t), handle), handle)
  {
    TrampolineReplaced(w, t, Unlocked);
  }

  lemma MoveOutKeepsInv(w: World, t: nat, r: nat, handle: nat)
    requires Inv(w, handle) && Enabled(w, MoveOut(t, r), handle)
    ensures Inv(Step(w, MoveOut(t, r), handle), handle)
  {
    TrampolineReplaced(w, t, Running(false));
  }

  /** A trampoline's step to `p` that gives up one reference, or only moves on. */
  lemma TrampolineDropKeepsInv(w: World, t: nat, p: Trampoline, handle: nat)
    requires handle != 0 && Inv(w, handle) && t in w.tramps && HoldsMutex(w.tramps[t]) && HoldsMutex(p)
    requires Refs(w.tramps[t]) == Refs(p) + 1
    ensures Inv(Decrement(w).(tramps := w.tramps[t := p]), handle)
  {
    var w1 := w.(tramps := w.tramps[t := p]);
    TrampolineReplaced(w, t, p);
    DecrementKeepsInv(w1, handle);
    assert Decrement(w).(tramps := w.tramps[t := p]) == Decrement(w1);
  }

  lemma DropStepsKeepInv(w: World, a: Action, handle: nat)
    requires handle != 0 && Inv(w, handle) && Enabled(w, a, handle) && (a.DropInside? || a.Unwind? || a.Return?)
    ensures Inv(Step(w, a, handle), handle)
  {
    var t := a.t;
    var p := if a.DropInside? then Running(false) else Caught;
    if Refs(w.tramps[t]) == 2 {
      TrampolineDropKeepsInv(w, t, p, handle);
    } else {
      TrampolineReplaced(w, t, p);
    }
  }

  lemma LeaveKeepsInv(w: World, t: nat, handle: nat)
    requires handle != 0 && Inv(w, handle) && Enabled(w, Leave(t), handle)
    ensures Inv(Step(w, Leave(t), handle), handle)
  {
    var w1 := w.(tramps := w.tramps - {t});
    assert w.tramps[t] == Unlocked;
    TrampolineReplaced(w, t, Unlocked);
    DecrementKeepsInv(w1, handle);
    assert Step(w, Leave(t), handle) == Decrement(w).(tramps := w.tramps - {t}) == Decrement(w1);
  }

  lemma DispatchKeepsInv(w: World, t: nat, handle: nat)
    requires Inv(w, handle) && Enabled(w, Dispatch(t), handle)
    ensures Inv(Step(w, Dispatch(t), handle), handle)
  {
    TrampolineReplaced(w, t, Entered);
  }

  lemma CreationKeepsInv(w: World, a: Action, handle: nat)
    requires handle != 0 && Inv(w, handle) && Enabled(w, a, handle)
    requires a.Activate? || a.CreateOk? || a.CreateFails? || a.Publish? || a.DropListener? || a.DestroyWorker?
    ensures Inv(Step(w, a, handle), handle)
  {
    match a
    case CreateFails => DecrementKeepsInv(w.(creator := Released, ucx := Absent), handle);
    case DropListener =>
      var w1 := w.(creator := Released);
      DecrementKeepsInv(w1, handle);
      assert Step(w, a, handle) == Decrement(w1);
    case _ =>
  }

  /** A connection request is dropped, and its reference with it. */
  lemma RequestDropKeepsInv(w: World, r: nat, handle: nat)
    requires handle != 0 && Inv(w, handle) && r in w.requests
    ensures Inv(Decrement(w).(requests := w.requests - {r}), handle)
  {
    var w1 := w.(requests := w.requests - {r});
    DecrementKeepsInv(w1, handle);
    assert Decrement(w).(requests := w.requests - {r}) == Decrement(w1);
  }

  lemma CallRejectKeepsInv(w: World, r: nat, handle: nat)
    requires handle != 0 && Inv(w, handle) && r in w.requests && w.cell != 0
    ensures Inv(CallReject(w), handle)
  {
    assert |w.requests| > 0;
  }

  lemma RequestStepsKeepInv(w: World, a: Action, handle: nat)
    requires handle != 0 && Inv(w, handle) && Enabled(w, a, handle)
    requires a.DropRequest? || a.RejectOwned? || a.Reject?
    ensures Inv(Step(w, a, handle), handle)
  {
    if a.DropRequest? || w.cell == 0 {
      RequestDropKeepsInv(w, a.r, handle);
    } else {
      CallRejectKeepsInv(w, a.r, handle);
      RequestDropKeepsInv(CallReject(w), a.r, handle);
    }
  }

  lemma StepKeepsInv(w: World, a: Action, handle: nat)
    requires handle != 0 && Inv(w, handle) && Enabled(w, a, handle)
    ensures Inv(Step(w, a, handle), handle)
  {
    match a
    case Dispatch(t) => DispatchKeepsInv(w, t, handle);
    case MoveOut(t, r) => MoveOutKeepsInv(w, t, r, handle);
    case Leave(t) => LeaveKeepsInv(w, t, handle);
    case CloneState(t) => CloneKeepsInv(w, t, handle);
    case Lock(t) => LockKeepsInv(w, t, handle);
    case Panic(t) => PanicKeepsInv(w, t, handle);
    case Unlock(t) => UnlockKeepsInv(w, t, handle);
    case DropInside(_) => DropStepsKeepInv(w, a, handle);
    case Unwind(_) => DropStepsKeepInv(w, a, handle);
    case Return(_) => DropStepsKeepInv(w, a, handle);
    case FindPoisoned(_) => assert false;
    case DropRequest(_) => RequestStepsKeepInv(w, a, handle);
    case RejectOwned(_) => RequestStepsKeepInv(w, a, handle);
    case Reject(_) => RequestStepsKeepInv(w, a, handle);
    case _ => CreationKeepsInv(w, a, handle);
  }

  // ---------- Runs ----------

  /** Every step of the sequence can happen when it is taken. */
  predicate ValidRun(w: World, acts: seq<Action>, handle: nat)
    decreases |acts|
  {
    acts == [] || (Enabled(w, acts[0], handle) && ValidRun(Step(w, acts[0], handle), acts[1..], handle))
  }

  function Run(w: World, acts: seq<Action>, handle: nat): World
    decreases |acts|
  {
    if acts == [] then w else Run(Step(w, acts[0], handle), acts[1..], handle)
  }

  lemma {:induction false} RunKeepsInv(w: World, acts: seq<Action>, handle: nat)
    requires handle != 0 && Inv(w, handle) && ValidRun(w, acts, handle)
    ensures Inv(Run(w, acts, handle), handle)
    decreases |acts|
  {
    if acts != [] {
      StepKeepsInv(w, acts[0], handle);
      RunKeepsInv(Step(w, acts[0], handle), acts[1..], handle);
    }
  }

  lemma StartIsOk(handle: nat)
    ensures Inv(Start, handle)
  {
    assert Twos(Start.tramps) == {};
  }

  /**
   Every interleaving: the strong count is the number of references that exist, the state lives exactly
   as long as one does, a published listener is destroyed exactly once, when the last one goes, and an
   unpublished one never; no dead state is referenced and no dead or null listener is passed to UCX.
   */
  lemma EveryInterleaving(acts: seq<Action>, handle: nat)
    requires handle != 0 && ValidRun(Start, acts, handle)
    ensures var w := Run(Start, acts, handle);
            && !w.misuse
            && w.strong == References(w)
            && (w.present <==> References(w) > 0)
            && w.destroyCalls == (if w.cell != 0 && References(w) == 0 then 1 else 0)
            && (forall h | h in w.rejectedOn :: h == handle)
  {
    StartIsOk(handle);
    RunKeepsInv(Start, acts, handle);
  }

  /** Whenever UCX may dispatch, or a trampoline runs or holds the mutex, the state is there. */
  lemma StateOutlivesCallbacks(acts: seq<Action>, handle: nat)
    requires handle != 0 && ValidRun(Start, acts, handle)
    ensures var w := Run(Start, acts, handle);
            w.ucx == Active || w.tramps != map[] || w.mutex.Some? || w.requests != {} ==> w.present && w.destroyCalls == 0
  {
    StartIsOk(handle);
    RunKeepsInv(Start, acts, handle);
    var w := Run(Start, acts, handle);
    if t :| t in w.tramps { assert w.tramps.Keys != {}; }
    if w.requests != {} { assert |w.requests| > 0; }
  }

  /**
   `reject_owned`, at any point of any run, also after the `Listener` is gone: it fails with
   "invalid parameter" exactly when the handle is not published; otherwise UCX is given the published
   handle of a listener that still exists.
   */
  lemma RejectOwnedIsSafe(acts: seq<Action>, r: nat, handle: nat)
    requires handle != 0 && ValidRun(Start, acts, handle) && Enabled(Run(Start, acts, handle), RejectOwned(r), handle)
    ensures var w := Run(Start, acts, handle);
            var w' := Step(w, RejectOwned(r), handle);
            && (RejectOwnedResult(w) == Err(InvalidParam) <==>
                  w.creator == Creating || w.creator == Created || w.ucx == Absent)
            && (RejectOwnedResult(w).Err? ==> w'.rejectedOn == w.rejectedOn)
            && (RejectOwnedResult(w).Ok? ==> w'.rejectedOn == w.rejectedOn + [handle] && w.ucx == Active)
            && !w'.misuse
  {
    StateOutlivesCallbacks(acts, handle);
    StartIsOk(handle);
    RunKeepsInv(Start, acts, handle);
    StepKeepsInv(Run(Start, acts, handle), RejectOwned(r), handle);
  }

  /** A panicking handler never poisons its mutex: the next connection request reaches it again. */
  lemma HandlerIsNeverPoisoned(acts: seq<Action>, t: nat, handle: nat)
    requires handle != 0 && ValidRun(Start, acts, handle) && At(Run(Start, acts, handle), t, Cloned)
    ensures var w := Run(Start, acts, handle);
            !Enabled(w, FindPoisoned(t), handle) && (w.mutex == None ==> Enabled(w, Lock(t), handle))
  {
    StartIsOk(handle);
    RunKeepsInv(Start, acts, handle);
  }

  /** A connection delivered to a handler that panics. */
  function PanicRound(t: nat): seq<Action> {
    [Dispatch(t), CloneState(t), Lock(t), Panic(t), Unwind(t), Unlock(t), Leave(t)]
  }

  lemma RunFrom(w: World, a: Action, rest: seq<Action>, handle: nat)
    requires Enabled(w, a, handle) && ValidRun(Step(w, a, handle), rest, handle)
    ensures ValidRun(w, [a] + rest, handle) && Run(w, [a] + rest, handle) == Run(Step(w, a, handle), rest, handle)
  {
    assert ([a] + rest)[1..] == rest;
  }

  /**
   In any state of any run, a delivery whose handler panics can go through and leaves the world exactly as
   it was, so the same handler can be locked and run again, any number of times.
   */
  lemma PanicsLeaveNoTrace(acts: seq<Action>, t: nat, handle: nat)
    requires handle != 0 && ValidRun(Start, acts, handle)
    requires Enabled(Run(Start, acts, handle), Dispatch(t), handle) && Run(Start, acts, handle).mutex == None
    ensures var w := Run(Start, acts, handle);
            ValidRun(w, PanicRound(t), handle) && Run(w, PanicRound(t), handle) == w
  {
    StartIsOk(handle);
    RunKeepsInv(Start, acts, handle);
    PanicRoundFrom(Run(Start, acts, handle), t, handle);
  }

  lemma PanicRoundFrom(w: World, t: nat, handle: nat)
    requires Enabled(w, Dispatch(t), handle) && w.present && w.strong > 0 && w.mutex == None && !w.poisoned
    ensures ValidRun(w, PanicRound(t), handle) && Run(w, PanicRound(t), handle) == w
  {
    var w3 := w.(strong := w.strong + 2, mutex := Some(t), tramps := w.tramps[t := Running(true)]);
    var w5 := w.(strong := w.strong + 1, mutex := Some(t), tramps := w.tramps[t := Caught]);
    LockSteps(w, t, handle, w3);
    PanicSteps(w3, t, handle, w5);
    LeaveSteps(w5, t, handle, w);
    var first, second, third := [Dispatch(t), CloneState(t), Lock(t)], [Panic(t), Unwind(t)], [Unlock(t), Leave(t)];
    RunsJoin(w3, second, third, handle);
    RunsJoin(w, first, second + third, handle);
    assert PanicRound(t) == first + (second + third);
  }

  lemma {:induction false} RunsJoin(w: World, acts: seq<Action>, more: seq<Action>, handle: nat)
    requires ValidRun(w, acts, handle) && ValidRun(Run(w, acts, handle), more, handle)
    ensures ValidRun(w, acts + more, handle) && Run(w, acts + more, handle) == Run(Run(w, acts, handle), more, handle)
    decreases |acts|
  {
    if acts == [] {
      assert acts + more == more;
    } else {
      assert (acts + more)[1..] == acts[1..] + more;
      RunsJoin(Step(w, acts[0], handle), acts[1..], more, handle);
    }
  }

  lemma LockSteps(w: World, t: nat, handle: nat, w': World)
    requires Enabled(w, Dispatch(t), handle) && w.present && w.mutex == None && !w.poisoned
    requires w' == w.(strong := w.strong + 2, mutex := Some(t), tramps := w.tramps[t := Running(true)])
    ensures var acts := [Dispatch(t), CloneState(t), Lock(t)]; ValidRun(w, acts, handle) && Run(w, acts, handle) == w'
  {
    var w1 := Step(w, Dispatch(t), handle);
    var w2 := Step(w1, CloneState(t), handle);
    assert Step(w2, Lock(t), handle) == w';
    RunFrom(w2, Lock(t), [], handle);
    RunFrom(w1, CloneState(t), [Lock(t)], handle);
    RunFrom(w, Dispatch(t), [CloneState(t), Lock(t)], handle);
  }

  lemma PanicSteps(w: World, t: nat, handle: nat, w': World)
    requires At(w, t, Running(true)) && w.strong > 1
    requires w' == w.(strong := w.strong - 1, tramps := w.tramps[t := Caught])
    ensures var acts := [Panic(t), Unwind(t)]; ValidRun(w, acts, handle) && Run(w, acts, handle) == w'
  {
    var w1 := Step(w, Panic(t), handle);
    assert Step(w1, Unwind(t), handle) == w';
    RunFrom(w1, Unwind(t), [], handle);
    RunFrom(w, Panic(t), [Unwind(t)], handle);
  }

  lemma LeaveSteps(w: World, t: nat, handle: nat, w': World)
    requires At(w, t, Caught) && w.strong > 1
    requires w' == w.(strong := w.strong - 1, mutex := None, tramps := w.tramps - {t})
    ensures var acts := [Unlock(t), Leave(t)]; ValidRun(w, acts, handle) && Run(w, acts, handle) == w'
  {
    var w1 := Step(w, Unlock(t), handle);
    assert Step(w1, Leave(t), handle) == w';
    RunFrom(w1, Leave(t), [], handle);
    RunFrom(w, Unlock(t), [Leave(t)], handle);
  }

  // ---------- What UCX sees, and what can happen ----------

  /** A rejection reaches UCX once, with the published handle, and `reject_owned` not at all before publication. */
  lemma RejectionsAreExact(acts: seq<Action>, a: Action, handle: nat)
    requires handle != 0 && ValidRun(Start, acts, handle) && Enabled(Run(Start, acts, handle), a, handle)
    ensures var w, w' := Run(Start, acts, handle), Step(Run(Start, acts, handle), a, handle);
            && w'.rejectedOn == w.rejectedOn + (if a.Reject? || (a.RejectOwned? && w.cell == handle) then [handle] else [])
            && (a.Reject? || a.RejectOwned? || a.DropRequest? ==> w'.requests == w.requests - {a.r})
  {
    StartIsOk(handle);
    RunKeepsInv(Start, acts, handle);
    StepRejects(Run(Start, acts, handle), a, handle);
  }

  predicate TakesRequest(a: Action) {
    a.Reject? || a.RejectOwned? || a.DropRequest?
  }

  lemma StepRejects(w: World, a: Action, handle: nat)
    ensures Step(w, a, handle).rejectedOn ==
            w.rejectedOn + if a.Reject? || (a.RejectOwned? && w.cell != 0) then [w.cell] else []
    ensures TakesRequest(a) ==> Step(w, a, handle).requests == w.requests - {a.r}
  {
    if !TakesRequest(a) {
      if a.Leave? || a.Unwind? || a.Return? || a.DropInside? || a.DropListener? || a.CreateFails? {
        GivingUpRejectsNothing(w, a, handle);
      } else {
        MovingRejectsNothing(w, a, handle);
      }
    }
  }

  lemma GivingUpRejectsNothing(w: World, a: Action, handle: nat)
    requires a.Leave? || a.Unwind? || a.Return? || a.DropInside? || a.DropListener? || a.CreateFails?
    ensures Step(w, a, handle).rejectedOn == w.rejectedOn
  {
  }

  lemma MovingRejectsNothing(w: World, a: Action, handle: nat)
    requires !TakesRequest(a)
    requires !a.Leave? && !a.Unwind? && !a.Return? && !a.DropInside? && !a.DropListener? && !a.CreateFails?
    ensures Step(w, a, handle).rejectedOn == w.rejectedOn
  {
  }

  /** The marks: reviving or giving up a dead state, and rejecting through no listener or a dead one. */
  lemma MisuseIsMarked(w: World)
    ensures !w.present ==> Increment(w).misuse
    ensures w.strong == 0 ==> Decrement(w).misuse
    ensures w.strong == 1 && w.cell != 0 && w.ucx != Active ==> Decrement(w).misuse
    ensures w.cell == 0 || w.ucx != Active ==> CallReject(w).misuse
  {
  }

  /** A callback may come before the handle is published; its request is then refused with "invalid parameter". */
  lemma CallbackRacesCreation(handle: nat)
    requires handle != 0
    ensures var acts := [Activate, Dispatch(0), CloneState(0), Lock(0), MoveOut(0, 7)];
            var w := Run(Start, acts, handle);
            && ValidRun(Start, acts, handle) && Enabled(w, RejectOwned(7), handle) && w.creator == Creating
            && RejectOwnedResult(w) == Err(InvalidParam)
  {
    var w1 := Step(Start, Activate, handle);
    var w4 := w1.(strong := 3, mutex := Some(0), tramps := map[0 := Running(true)]);
    LockSteps(w1, 0, handle, w4);
    RunFrom(w4, MoveOut(0, 7), [], handle);
    RunsJoin(w1, [Dispatch(0), CloneState(0), Lock(0)], [MoveOut(0, 7)], handle);
    RunFrom(Start, Activate, [Dispatch(0), CloneState(0), Lock(0), MoveOut(0, 7)], handle);
    assert [Dispatch(0), CloneState(0), Lock(0)] + [MoveOut(0, 7)] == [Dispatch(0), CloneState(0), Lock(0), MoveOut(0, 7)];
  }

  /** A request kept by the closure can be rejected after the `Listener` is gone; only then is the listener destroyed. */
  lemma RequestOutlivesListener(w: World, r: nat, handle: nat)
    requires handle != 0 && Inv(w, handle) && w.creator == Holding && w.requests == {r} && w.tramps == map[]
    ensures var w1 := Step(w, DropListener, handle);
            var w2 := Step(w1, RejectOwned(r), handle);
            && w1.ucx == Active && w1.destroyCalls == 0
            && Enabled(w1, RejectOwned(r), handle) && RejectOwnedResult(w1) == Ok(())
            && w2.ucx == Destroyed && w2.destroyCalls == 1 && w2.rejectedOn == w.rejectedOn + [handle]
  {
    assert Twos(w.tramps) == {};
  }
}
