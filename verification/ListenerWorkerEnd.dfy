/**
 A listener and its worker. Neither `Listener` nor `ConnRequest` borrows the worker, and dropping the
 state consults no flag, so both can reach UCX after `ucp_worker_destroy`.
 */
module ListenerWorkerEnd {
  import opened ListenerProtocol

  /** With the worker gone: a rejection, or the last reference to a published listener given up. */
  predicate Late(w: World, a: Action) {
    w.workerGone && w.cell != 0 && (a.RejectOwned? || a.Reject? || ((a.DropListener? || a.DropRequest?) && w.strong == 1))
  }

  predicate NeverLate(w: World, acts: seq<Action>, handle: nat)
    decreases |acts|
  {
    acts == [] || (!Late(w, acts[0]) && NeverLate(Step(w, acts[0], handle), acts[1..], handle))
  }

  /** The worker goes only with no callback in progress, and none starts after it. */
  ghost predicate QuietAfterWorker(w: World) {
    w.workerGone ==> w.tramps == map[] && (w.creator == Holding || w.creator == Released)
  }

  lemma StepLate(w: World, a: Action, handle: nat)
    requires handle != 0 && Inv(w, handle) && QuietAfterWorker(w) && Enabled(w, a, handle)
    ensures Step(w, a, handle).late == (w.late || Late(w, a))
  {
    if !w.workerGone && a != DestroyWorker { WorkerStays(w, a, handle); }
  }

  /** The step is not late for want of a destroyed worker, and does not destroy it. */
  predicate LeavesWorker(w: World, w': World) {
    w'.workerGone == w.workerGone && (!w.workerGone ==> w'.late == w.late)
  }

  predicate InTrampoline(a: Action) {
    a.Dispatch? || a.CloneState? || a.Lock? || a.FindPoisoned? || a.MoveOut? || a.DropInside? || a.Panic?
  }

  lemma TrampolineLeavesWorker(w: World, a: Action, handle: nat)
    requires InTrampoline(a)
    ensures LeavesWorker(w, Step(w, a, handle))
  {
  }

  predicate EndsTrampoline(a: Action) {
    a.Unwind? || a.Return? || a.Unlock? || a.Leave?
  }

  lemma TrampolineEndLeavesWorker(w: World, a: Action, handle: nat)
    requires EndsTrampoline(a)
    ensures LeavesWorker(w, Step(w, a, handle))
  {
  }

  lemma OtherStepLeavesWorker(w: World, a: Action, handle: nat)
    requires !InTrampoline(a) && !EndsTrampoline(a) && a != DestroyWorker
    ensures LeavesWorker(w, Step(w, a, handle))
  {
  }

  lemma WorkerStays(w: World, a: Action, handle: nat)
    requires a != DestroyWorker
    ensures LeavesWorker(w, Step(w, a, handle))
  {
    if InTrampoline(a) {
      TrampolineLeavesWorker(w, a, handle);
    } else if EndsTrampoline(a) {
      TrampolineEndLeavesWorker(w, a, handle);
    } else {
      OtherStepLeavesWorker(w, a, handle);
    }
  }

  lemma StepStaysQuiet(w: World, a: Action, handle: nat)
    requires QuietAfterWorker(w) && Enabled(w, a, handle)
    ensures QuietAfterWorker(Step(w, a, handle))
  {
    if a != DestroyWorker { WorkerStays(w, a, handle); }
  }

  /**
   A run keeps every call for the listener before the end of its worker if and only if no request is
   rejected after it, and no last reference to a published listener is given up after it.
   */
  lemma {:induction false} NoLateCallExactly(w: World, acts: seq<Action>, handle: nat)
    requires handle != 0 && Inv(w, handle) && QuietAfterWorker(w) && ValidRun(w, acts, handle)
    ensures Run(w, acts, handle).late <==> w.late || !NeverLate(w, acts, handle)
    decreases |acts|
  {
    if acts != [] {
      StepLate(w, acts[0], handle);
      StepStaysQuiet(w, acts[0], handle);
      StepKeepsInv(w, acts[0], handle);
      NoLateCallExactly(Step(w, acts[0], handle), acts[1..], handle);
    }
  }

  /** The shortest run that fails: the listener is dropped after its worker. */
  lemma ListenerOutlivesWorker(handle: nat)
    requires handle != 0
    ensures var acts := [Activate, CreateOk, Publish, DestroyWorker, DropListener];
            ValidRun(Start, acts, handle) && Run(Start, acts, handle).late
  {
    var w1 := Step(Start, Activate, handle);
    var w2 := Step(w1, CreateOk, handle);
    var w3 := Step(w2, Publish, handle);
    var w4 := Step(w3, DestroyWorker, handle);
    RunFrom(w4, DropListener, [], handle);
    RunFrom(w3, DestroyWorker, [DropListener], handle);
    RunFrom(w2, Publish, [DestroyWorker, DropListener], handle);
    RunFrom(w1, CreateOk, [Publish, DestroyWorker, DropListener], handle);
    RunFrom(Start, Activate, [CreateOk, Publish, DestroyWorker, DropListener], handle);
  }

  /** Nobody has a reference any more. */
  ghost predicate Deserted(w: World) {
    w.creator == Released && w.requests == {} && w.tramps == map[] && w.ucx != Active
  }

  lemma {:induction false} DesertedStays(w: World, acts: seq<Action>, handle: nat)
    requires Deserted(w) && ValidRun(w, acts, handle)
    ensures NeverLate(w, acts, handle)
    decreases |acts|
  {
    if acts != [] {
      assert acts[0] == DestroyWorker;
      DesertedStays(Step(w, acts[0], handle), acts[1..], handle);
    }
  }

  lemma {:induction false} NeverLateWhileUp(w: World, acts: seq<Action>, more: seq<Action>, handle: nat)
    requires !w.workerGone && forall a | a in acts :: a != DestroyWorker
    requires ValidRun(w, acts + more, handle)
    ensures ValidRun(Run(w, acts, handle), more, handle)
    ensures NeverLate(Run(w, acts, handle), more, handle) ==> NeverLate(w, acts + more, handle)
    decreases |acts|
  {
    if acts == [] {
      assert acts + more == more;
    } else {
      assert acts[0] in acts && (acts + more)[1..] == acts[1..] + more && (acts + more)[0] == acts[0];
      WorkerStays(w, acts[0], handle);
      assert forall a | a in acts[1..] :: a in acts;
      NeverLateWhileUp(Step(w, acts[0], handle), acts[1..], more, handle);
    }
  }

  lemma {:induction false} ValidPrefix(w: World, acts: seq<Action>, more: seq<Action>, handle: nat)
    requires ValidRun(w, acts + more, handle)
    ensures ValidRun(w, acts, handle)
    decreases |acts|
  {
    if acts != [] {
      assert (acts + more)[1..] == acts[1..] + more;
      ValidPrefix(Step(w, acts[0], handle), acts[1..], more, handle);
    }
  }

  /** Giving up the listener and every request before the worker is dropped, as documented, is enough. */
  lemma DropFirstIsEnough(before: seq<Action>, after: seq<Action>, handle: nat)
    requires handle != 0 && ValidRun(Start, before + after, handle) && forall a | a in before :: a != DestroyWorker
    requires References(Run(Start, before, handle)) == 0
    ensures !Run(Start, before + after, handle).late
  {
    var w := Run(Start, before, handle);
    StartIsOk(handle);
    ValidPrefix(Start, before, after, handle);
    RunKeepsInv(Start, before, handle);
    assert w.tramps.Keys == {};
    NeverLateWhileUp(Start, before, after, handle);
    DesertedStays(w, after, handle);
    NoLateCallExactly(Start, before + after, handle);
  }
}
