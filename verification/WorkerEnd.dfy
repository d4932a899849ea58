/**
 What outlives a worker. Requests carry no lifetime on their worker and no flag, so nothing stops a bare
 `Request` or an endpoint from reaching UCX after `ucp_worker_destroy`; guards do borrow a worker.
 */
module WorkerEnd {
  import opened Wrappers
  import opened StatusCodec
  import opened Engine
  import opened Polling
  import opened Requests
  import opened Runs

  /** The action passes `o`'s handle to UCX. */
  predicate Uses(n: nat, a: Action, o: Owner) {
    o.slot.Some? &&
    match (a, o)
    case (Check(_), _) => true
    case (Wait(_, own), Bare(_)) => !own && n > 0
    case (AwaitClose(_, own), Bare(_)) => !own && n > 0
    case (Free(_), Guard(kind, _, _)) => kind.Tag? || n > 0
    case (Drop(_), Guard(kind, _, _)) => kind.Tag? || n > 0
    case (_, Bare(_)) => a.CancelOnly? || a.Cancel? || a.Release? || a.Free? || a.Drop?
    case _ => false
  }

  /** With the worker gone: an operation through one of its endpoints, or a call on a request somebody still holds. */
  predicate Late(w: World, n: nat, a: Action) {
    w.ucx.gone && !w.aborted &&
    match a
    case PostGuarded(_, own, _) => !own
    case PostBare(_) => true
    case Progress => false
    case DropWorker(_) => false
    case _ => a.owner in w.owners && Uses(n, a, w.owners[a.owner])
  }

  ghost predicate NeverLate(w: World, sched: Schedule, n: nat, acts: seq<Action>)
    decreases |acts|
  {
    acts == [] || (!Late(w, n, acts[0]) && NeverLate(Step(w, sched, n, acts[0]), sched, n, acts[1..]))
  }

  lemma {:induction false} PollLate(s: State, sched: Schedule, own: bool, h: Handle, n: nat)
    ensures Poll(s, sched, own, h, n).0.gone == s.gone
    ensures Poll(s, sched, own, h, n).0.late == (s.late || (s.gone && n > 0))
    decreases n
  {
    if n > 0 { PollLate(s.Touch(h).TickIf(sched, own), sched, own, h, n - 1); }
  }

  lemma {:induction false} PollTagLate(s: State, sched: Schedule, own: bool, h: Handle, n: nat)
    ensures PollTag(s, sched, own, h, n).0.gone == s.gone
    ensures PollTag(s, sched, own, h, n).0.late == (s.late || s.gone)
    decreases n
  {
    if n > 0 { PollTagLate(s.Touch(h).TickIf(sched, own), sched, own, h, n - 1); }
  }

  lemma WaitLate(s: State, sched: Schedule, own: bool, slot: Slot, n: nat)
    ensures WaitFor(s, sched, own, slot, n).0.gone == s.gone
    ensures WaitFor(s, sched, own, slot, n).0.late == (s.late || (s.gone && slot.Some? && n > 0))
  {
    if slot.Some? { PollLate(s, sched, own, slot.value, n); }
  }

  lemma CloseLate(s: State, sched: Schedule, own: bool, h: Handle, n: nat)
    ensures FinishClose(s, sched, own, h, n).0.gone == s.gone
    ensures FinishClose(s, sched, own, h, n).0.late == (s.late || (s.gone && n > 0))
  {
    PollLate(s, sched, own, h, n);
  }

  lemma BareStepLate(w: World, sched: Schedule, n: nat, a: Action, o: Owner)
    requires !a.PostGuarded? && !a.PostBare? && !a.Progress? && !a.DropWorker? && o.Bare?
    ensures OwnerStep(w, sched, n, a, o).ucx.late == (w.ucx.late || (w.ucx.gone && Uses(n, a, o)))
    ensures OwnerStep(w, sched, n, a, o).ucx.gone == w.ucx.gone
  {
    if a.Wait? {
      WaitLate(w.ucx, sched, a.own, o.slot, n);
    } else if a.AwaitClose? && o.slot.Some? {
      CloseLate(w.ucx, sched, a.own, o.slot.value, n);
    }
  }

  lemma FinishLate(w: World, sched: Schedule, n: nat, id: nat, kind: Kind, own: bool, slot: Slot)
    ensures var s := Finish(w, sched, n, id, kind, own, slot).ucx;
            && s.late == (w.ucx.late || (w.ucx.gone && slot.Some? && (kind.Tag? || n > 0)))
            && s.gone == w.ucx.gone
  {
    if slot.Some? {
      PollLate(w.ucx, sched, own, slot.value, n);
      PollTagLate(w.ucx, sched, own, slot.value, n);
    }
  }

  lemma OwnerStepLate(w: World, sched: Schedule, n: nat, a: Action, o: Owner)
    requires !a.PostGuarded? && !a.PostBare? && !a.Progress? && !a.DropWorker?
    ensures OwnerStep(w, sched, n, a, o).ucx.late == (w.ucx.late || (w.ucx.gone && Uses(n, a, o)))
    ensures OwnerStep(w, sched, n, a, o).ucx.gone == w.ucx.gone
  {
    if o.Bare? {
      BareStepLate(w, sched, n, a, o);
    } else {
      FinishLate(w, sched, n, a.owner, o.kind, o.own, o.slot);
    }
  }

  lemma WorkerDroppedLate(w: World, sched: Schedule, n: nat, flush: Reply)
    requires !w.ucx.gone
    ensures WorkerDropped(w, sched, n, flush).ucx.late == w.ucx.late
  {
    if flush.Posted? { PollLate(Call(w.ucx, flush), sched, true, w.ucx.next, n); }
  }

  lemma StepLate(w: World, sched: Schedule, n: nat, a: Action)
    ensures Step(w, sched, n, a).ucx.late == (w.ucx.late || Late(w, n, a))
  {
    match a
    case PostGuarded(_, _, _) =>
    case PostBare(_) =>
    case Progress =>
    case DropWorker(flush) => if !w.ucx.gone { WorkerDroppedLate(w, sched, n, flush); }
    case _ => if a.owner in w.owners { OwnerStepLate(w, sched, n, a, w.owners[a.owner]); }
  }

  /**
   Nothing stops a bare `Request` from outliving its worker, and its drop consults no flag. So a run keeps
   every call before the end of the worker if and only if, after it, nobody calls UCX through a
   request still held or through an endpoint.
   */
  lemma {:induction false} NoLateCallExactly(w: World, sched: Schedule, n: nat, acts: seq<Action>)
    ensures Run(w, sched, n, acts).ucx.late <==> w.ucx.late || !NeverLate(w, sched, n, acts)
    decreases |acts|
  {
    if acts != [] {
      StepLate(w, sched, n, acts[0]);
      NoLateCallExactly(Step(w, sched, n, acts[0]), sched, n, acts[1..]);
    }
  }

  /** The shortest run that fails: a request in flight outlives the worker and is dropped. */
  lemma RequestOutlivesWorker(sched: Schedule, n: nat)
    ensures Run(Start, sched, n, [PostBare(Posted(InProgress)), DropWorker(Now), Drop(0)]).ucx.late
  {
    var acts := [PostBare(Posted(InProgress)), DropWorker(Now), Drop(0)];
    var w1 := Step(Start, sched, n, acts[0]);
    var w2 := Step(w1, sched, n, acts[1]);
    assert w1.owners == map[0 := Bare(Some(0))];
    assert w2.ucx.gone && Late(w2, n, acts[2]);
    assert acts[1..][1..] == [acts[2]] && acts[1..][0] == acts[1];
    assert !NeverLate(w2, sched, n, acts[1..][1..]);
    assert !NeverLate(w1, sched, n, acts[1..]);
    NoLateCallExactly(Start, sched, n, acts);
  }

  lemma {:induction false} UnborrowedOnceGone(w: World, sched: Schedule, n: nat, acts: seq<Action>)
    requires Inv(w) && (w.ucx.gone ==> !Borrowed(w))
    ensures var w' := Run(w, sched, n, acts); w'.ucx.gone ==> !Borrowed(w')
    decreases |acts|
  {
    if acts != [] {
      var w1 := Step(w, sched, n, acts[0]);
      StepKeepsInv(w, sched, n, acts[0]);
      StepUnborrowed(w, sched, n, acts[0]);
      UnborrowedOnceGone(w1, sched, n, acts[1..]);
    }
  }

  lemma GuardsAreOld(w: World, sched: Schedule, n: nat, a: Action, id: nat)
    requires !a.PostGuarded? && !a.PostBare? && !a.Progress? && !a.DropWorker? && a.owner in w.owners
    requires var o := OwnerStep(w, sched, n, a, w.owners[a.owner]).owners; id in o && o[id].Guard?
    ensures id in w.owners && w.owners[id] == OwnerStep(w, sched, n, a, w.owners[a.owner]).owners[id]
  {
  }

  /** Own guards come from posting only. */
  lemma OwnGuardsAreOld(w: World, sched: Schedule, n: nat, a: Action, id: nat)
    requires Inv(w) && (!a.PostGuarded? || !a.own)
    requires var o := Step(w, sched, n, a).owners; id in o && o[id].Guard? && o[id].own
    ensures id in w.owners && w.owners[id] == Step(w, sched, n, a).owners[id]
  {
    match a
    case PostGuarded(_, _, _) =>
    case PostBare(_) =>
    case Progress =>
    case DropWorker(flush) =>
      NextIsFresh(w);
      WorkerDroppedIsDrop(w, sched, n, flush);
    case _ => if !w.aborted && a.owner in w.owners { GuardsAreOld(w, sched, n, a, id); }
  }

  lemma StepUnborrowed(w: World, sched: Schedule, n: nat, a: Action)
    requires Inv(w) && (w.ucx.gone ==> !Borrowed(w))
    ensures var w' := Step(w, sched, n, a); w'.ucx.gone ==> !Borrowed(w')
  {
    var w' := Step(w, sched, n, a);
    if Borrowed(w') && (!a.PostGuarded? || !a.own) {
      var id :| id in w'.owners && w'.owners[id].Guard? && w'.owners[id].own;
      OwnGuardsAreOld(w, sched, n, a, id);
      assert Borrowed(w);
    }
    if !a.DropWorker? { StepGone(w, sched, n, a); }
  }

  lemma StepGone(w: World, sched: Schedule, n: nat, a: Action)
    requires !a.DropWorker?
    ensures Step(w, sched, n, a).ucx.gone == w.ucx.gone
  {
    if !a.PostGuarded? && !a.PostBare? && !a.Progress? && a.owner in w.owners {
      OwnerStepLate(w, sched, n, a, w.owners[a.owner]);
    }
  }

  /** A guard that borrows its request's own worker is never late: the borrow keeps the worker alive. */
  lemma BorrowingGuardsAreNeverLate(sched: Schedule, n: nat, acts: seq<Action>, id: nat)
    requires var w := Run(Start, sched, n, acts); id in w.owners && w.owners[id].Guard? && w.owners[id].own
    ensures !Run(Start, sched, n, acts).ucx.gone
  {
    StartIsSafe();
    UnborrowedOnceGone(Start, sched, n, acts);
  }

  /** No value of the program holds a request of this worker. */
  ghost predicate NothingHeld(w: World) {
    forall id | id in w.owners :: w.owners[id].slot == None
  }

  lemma StepStaysEmpty(w: World, sched: Schedule, n: nat, a: Action)
    requires NothingHeld(w) && Inv(w) && !a.PostGuarded? && !a.PostBare?
    ensures NothingHeld(Step(w, sched, n, a)) && !Late(w, n, a)
  {
    var w' := Step(w, sched, n, a);
    if a.DropWorker? {
      NextIsFresh(w);
      WorkerDroppedIsDrop(w, sched, n, a.flush);
    } else if !a.Progress? && a.owner in w.owners {
      OwnerStepStaysEmpty(w, sched, n, a);
    }
  }

  lemma OwnerStepStaysEmpty(w: World, sched: Schedule, n: nat, a: Action)
    requires NothingHeld(w) && !a.PostGuarded? && !a.PostBare? && !a.Progress? && !a.DropWorker? && a.owner in w.owners
    ensures NothingHeld(OwnerStep(w, sched, n, a, w.owners[a.owner]))
  {
    assert w.owners[a.owner].slot == None;
  }

  /** As long as nothing is posted, nothing gets held, and nothing is late. */
  lemma {:induction false} StaysEmpty(w: World, sched: Schedule, n: nat, acts: seq<Action>)
    requires NothingHeld(w) && Inv(w) && forall a | a in acts :: !a.PostGuarded? && !a.PostBare?
    ensures NeverLate(w, sched, n, acts)
    decreases |acts|
  {
    if acts != [] {
      assert acts[0] in acts;
      StepKeepsInv(w, sched, n, acts[0]);
      StepStaysEmpty(w, sched, n, acts[0]);
      StaysEmpty(Step(w, sched, n, acts[0]), sched, n, acts[1..]);
    }
  }

  lemma {:induction false} NeverLateWhileUp(w: World, sched: Schedule, n: nat, acts: seq<Action>, more: seq<Action>)
    requires !w.ucx.gone && forall a | a in acts :: !a.DropWorker?
    requires NeverLate(Run(w, sched, n, acts), sched, n, more)
    ensures NeverLate(w, sched, n, acts + more)
    decreases |acts|
  {
    if acts == [] {
      assert acts + more == more;
    } else {
      assert acts[0] in acts && (acts + more)[1..] == acts[1..] + more;
      StepGone(w, sched, n, acts[0]);
      NeverLateWhileUp(Step(w, sched, n, acts[0]), sched, n, acts[1..], more);
    }
  }

  /**
   Emptying or forgetting every request before the worker is dropped is enough, if its endpoints post
   nothing afterwards: the documented drop order, as far as requests go.
   */
  lemma EmptyFirstIsEnough(sched: Schedule, n: nat, before: seq<Action>, flush: Reply, after: seq<Action>)
    requires forall a | a in before :: !a.DropWorker?
    requires NothingHeld(Run(Start, sched, n, before))
    requires forall a | a in after :: !a.PostGuarded? && !a.PostBare?
    ensures !Run(Start, sched, n, before + ([DropWorker(flush)] + after)).ucx.late
  {
    var more := [DropWorker(flush)] + after;
    StartIsSafe();
    RunKeepsInv(Start, sched, n, before);
    StaysEmpty(Run(Start, sched, n, before), sched, n, more);
    NeverLateWhileUp(Start, sched, n, before, more);
    NoLateCallExactly(Start, sched, n, before + more);
  }
}
