/** What each step of a run does to the engine, exactly: which calls it records, and when it aborts or leaks. */
module StepEffects {
  import opened Wrappers
  import opened StatusCodec
  import opened Engine
  import opened Polling
  import opened Budget
  import opened Requests
  import opened Runs
  import opened WorkerEnd

  /** The owner that the action is about exists and holds its request bare. */
  predicate OnBare(w: World, a: Action) {
    !w.aborted && !a.PostGuarded? && !a.PostBare? && !a.Progress? && !a.DropWorker? &&
    a.owner in w.owners && w.owners[a.owner].Bare?
  }

  predicate EndsGuard(w: World, a: Action) {
    !w.aborted && (a.Free? || a.Drop?) && a.owner in w.owners && w.owners[a.owner].Guard?
  }

  lemma {:induction false} PollRecords(s: State, sched: Schedule, own: bool, h: Handle, n: nat)
    ensures Recorded(s, Poll(s, sched, own, h, n).0, [], [], [])
    decreases n
  {
    if n > 0 { PollRecords(s.Touch(h).TickIf(sched, own), sched, own, h, n - 1); }
  }

  lemma {:induction false} PollTagRecords(s: State, sched: Schedule, own: bool, h: Handle, n: nat)
    ensures Recorded(s, PollTag(s, sched, own, h, n).0, [], [], [])
    decreases n
  {
    if n > 0 { PollTagRecords(s.Touch(h).TickIf(sched, own), sched, own, h, n - 1); }
  }

  /** The handles that the action asks UCX to cancel. */
  function Cancels(w: World, a: Action): seq<Handle> {
    if OnBare(w, a) && (a.Cancel? || a.CancelOnly?) then Handles(w.owners[a.owner].slot) else []
  }

  /** The handles that the action passes to `ucp_request_release`. */
  function Releases(w: World, a: Action): seq<Handle> {
    if OnBare(w, a) && a.Release? then Handles(w.owners[a.owner].slot) else []
  }

  lemma WaitRecords(s: State, sched: Schedule, own: bool, slot: Slot, n: nat)
    ensures Recorded(s, WaitFor(s, sched, own, slot, n).0, [], [], [])
  {
    if slot.Some? { PollRecords(s, sched, own, slot.value, n); }
  }

  lemma CloseRecords(s: State, sched: Schedule, own: bool, h: Handle, n: nat)
    ensures var end := FinishClose(s, sched, own, h, n).0; end.cancelled == s.cancelled && end.released == s.released
  {
    PollRecords(s, sched, own, h, n);
  }

  lemma BareRecords(w: World, sched: Schedule, n: nat, a: Action)
    requires OnBare(w, a)
    ensures var s := Step(w, sched, n, a).ucx;
            s.cancelled == w.ucx.cancelled + Cancels(w, a) && s.released == w.ucx.released + Releases(w, a)
  {
    var slot := w.owners[a.owner].slot;
    if a.Wait? {
      WaitRecords(w.ucx, sched, a.own, slot, n);
    } else if a.AwaitClose? && slot.Some? {
      CloseRecords(w.ucx, sched, a.own, slot.value, n);
    }
  }

  /** A guard's end asks nothing of UCX but one free, unless its loop gives up. */
  lemma FinishRecords(w: World, sched: Schedule, n: nat, id: nat, kind: Kind, own: bool, slot: Slot)
    ensures var s := Finish(w, sched, n, id, kind, own, slot).ucx;
            s.cancelled == w.ucx.cancelled && s.released == w.ucx.released
  {
    if slot.Some? {
      if kind.Tag? {
        PollTagRecords(w.ucx, sched, own, slot.value, n);
      } else {
        PollRecords(w.ucx, sched, own, slot.value, n);
      }
    }
  }

  lemma GuardRecords(w: World, sched: Schedule, n: nat, a: Action)
    requires EndsGuard(w, a)
    ensures var s := Step(w, sched, n, a).ucx; s.cancelled == w.ucx.cancelled && s.released == w.ucx.released
  {
    var o := w.owners[a.owner];
    FinishRecords(w, sched, n, a.owner, o.kind, o.own, o.slot);
  }

  lemma DropRecords(w: World, sched: Schedule, n: nat, flush: Reply)
    ensures var s := WorkerDropped(w, sched, n, flush).ucx;
            s.cancelled == w.ucx.cancelled && s.released == w.ucx.released
  {
    if flush.Posted? { PollRecords(Call(w.ucx, flush), sched, true, w.ucx.next, n); }
  }

  /** Cancels and releases come from the calls of that name on a bare request with a handle, and from nothing else. */
  lemma StepRecords(w: World, sched: Schedule, n: nat, a: Action)
    ensures var s := Step(w, sched, n, a).ucx;
            s.cancelled == w.ucx.cancelled + Cancels(w, a) && s.released == w.ucx.released + Releases(w, a)
  {
    if OnBare(w, a) {
      BareRecords(w, sched, n, a);
    } else if EndsGuard(w, a) {
      GuardRecords(w, sched, n, a);
    } else if a.DropWorker? {
      DropRecords(w, sched, n, a.flush);
    } else {
      OtherRecords(w, sched, n, a);
    }
  }

  lemma OtherRecords(w: World, sched: Schedule, n: nat, a: Action)
    requires !OnBare(w, a) && !EndsGuard(w, a) && !a.DropWorker?
    ensures var s := Step(w, sched, n, a).ucx; s.cancelled == w.ucx.cancelled && s.released == w.ucx.released
  {
  }

  /**
   At any point of any run: `cancel` asks UCX to cancel the handle it holds, which is live then, frees
   it and keeps an empty wrapper; `cancel_request` only asks; every other action asks nothing.
   */
  lemma CancelsAreExact(sched: Schedule, n: nat, acts: seq<Action>, a: Action)
    ensures var w, w' := Run(Start, sched, n, acts), Step(Run(Start, sched, n, acts), sched, n, a);
            && w'.ucx.cancelled == w.ucx.cancelled + Cancels(w, a)
            && (forall h | h in Cancels(w, a) :: h in w.ucx.live)
            && (OnBare(w, a) && a.CancelOnly? ==> w'.ucx.freed == w.ucx.freed && w'.owners == w.owners)
            && (OnBare(w, a) && a.Cancel? ==>
                  w'.ucx.freed == w.ucx.freed + Cancels(w, a) && w'.owners == w.owners[a.owner := Bare(None)])
  {
    StartIsSafe();
    RunKeepsInv(Start, sched, n, acts);
    var w := Run(Start, sched, n, acts);
    StepRecords(w, sched, n, a);
    if OnBare(w, a) {
      assert OwnerSafe(w, a.owner);
      CancelEffect(w, sched, n, a);
    }
  }

  lemma CancelEffect(w: World, sched: Schedule, n: nat, a: Action)
    requires OnBare(w, a)
    ensures var w' := Step(w, sched, n, a);
            && (a.CancelOnly? ==> w'.ucx.freed == w.ucx.freed && w'.owners == w.owners)
            && (a.Cancel? ==>
                  w'.ucx.freed == w.ucx.freed + Cancels(w, a) && w'.owners == w.owners[a.owner := Bare(None)])
  {
  }

  lemma {:induction false} RunAppend(w: World, sched: Schedule, n: nat, acts: seq<Action>)
    requires acts != []
    ensures Run(w, sched, n, acts) == Step(Run(w, sched, n, acts[..|acts| - 1]), sched, n, acts[|acts| - 1])
  {
    var front, last := acts[..|acts| - 1], acts[|acts| - 1];
    assert acts == front + [last];
    RunSplits(w, sched, n, front, [last]);
    assert Run(Run(w, sched, n, front), sched, n, [last]) == Step(Run(w, sched, n, front), sched, n, last);
  }

  /** Every cancellation on record was asked for by one of the two calls, at a time when the request was live. */
  lemma {:induction false} EveryCancelHadItsCall(sched: Schedule, n: nat, acts: seq<Action>, h: Handle)
    requires h in Run(Start, sched, n, acts).ucx.cancelled
    ensures exists i :: 0 <= i < |acts| && (acts[i].Cancel? || acts[i].CancelOnly?) &&
                        h in Run(Start, sched, n, acts[..i]).ucx.live
    decreases |acts|
  {
    if acts != [] {
      var front, last := acts[..|acts| - 1], acts[|acts| - 1];
      RunAppend(Start, sched, n, acts);
      CancelsAreExact(sched, n, front, last);
      if h in Run(Start, sched, n, front).ucx.cancelled {
        EveryCancelHadItsCall(sched, n, front, h);
        var i :| 0 <= i < |front| && (front[i].Cancel? || front[i].CancelOnly?) &&
                 h in Run(Start, sched, n, front[..i]).ucx.live;
        assert acts[..i] == front[..i] && acts[i] == front[i];
      }
    }
  }

  /** The loop has nothing to show for its budget: see `Budget.GivesUpExactlyWhenPending` and `OtherWorkerNeverHelps`. */
  ghost predicate Unseen(s: State, sched: Schedule, own: bool, h: Handle, checks: nat) {
    if own then PendingThrough(s, sched, h, checks) else checks == 0 || s.InFlight(h)
  }

  lemma GivesUpUnseen(s: State, sched: Schedule, own: bool, h: Handle, n: nat)
    requires h in s.live && h in s.status && (own ==> !s.gone)
    ensures Poll(s, sched, own, h, n).1.GaveUp? <==> Unseen(s, sched, own, h, n)
    ensures PollTag(s, sched, own, h, n).1.GaveUp? <==> Unseen(s, sched, own, h, n + 1)
  {
    if own { GivesUpExactlyWhenPending(s, sched, h, n); } else { ElsewhereExact(s, sched, h, n); }
  }

  lemma FinishEffect(w: World, sched: Schedule, n: nat, id: nat, kind: Kind, own: bool, h: Handle)
    ensures var w' := Finish(w, sched, n, id, kind, own, Some(h));
            var gaveUp := if kind.Tag? then PollTag(w.ucx, sched, own, h, n).1.GaveUp?
                          else Poll(w.ucx, sched, own, h, n).1.GaveUp?;
            && w'.aborted == (w.aborted || (kind.Tag? && gaveUp))
            && w'.leaked == (if !kind.Tag? && gaveUp then w.leaked + {h} else w.leaked)
            && w'.ucx.freed == (if gaveUp then w.ucx.freed else w.ucx.freed + [h])
            && w'.owners == (if kind.Tag? && gaveUp then w.owners else w.owners - {id})
  {
    if kind.Tag? { PollTagRecords(w.ucx, sched, own, h, n); } else { PollRecords(w.ucx, sched, own, h, n); }
  }

  lemma GuardEnds(w: World, sched: Schedule, n: nat, a: Action, h: Handle)
    requires EndsGuard(w, a) && w.owners[a.owner].slot == Some(h)
    ensures var o := w.owners[a.owner]; Step(w, sched, n, a) == Finish(w, sched, n, a.owner, o.kind, o.own, Some(h))
  {
  }

  /** How the world changes when a guard's loop has given up, or has not. */
  ghost predicate EndedGuard(w: World, w': World, id: nat, tag: bool, h: Handle, unseen: bool) {
    && w'.aborted == (tag && unseen)
    && w'.leaked == (if !tag && unseen then w.leaked + {h} else w.leaked)
    && w'.ucx.freed == (if unseen then w.ucx.freed else w.ucx.freed + [h])
    && w'.owners == (if tag && unseen then w.owners else w.owners - {id})
  }

  /**
   What freeing or dropping a guard comes to, at any point of any run: a tagged one aborts the process,
   another one leaks its request, exactly if no check of its loop sees the operation finished; a
   tagged loop makes one check more. Otherwise the guard and its request are gone.
   */
  lemma GuardsEndExactly(sched: Schedule, n: nat, acts: seq<Action>, a: Action, h: Handle)
    requires var w := Run(Start, sched, n, acts); EndsGuard(w, a) && w.owners[a.owner].slot == Some(h)
    ensures var w := Run(Start, sched, n, acts);
            var o := w.owners[a.owner];
            EndedGuard(w, Step(w, sched, n, a), a.owner, o.kind.Tag?, h,
                       Unseen(w.ucx, sched, o.own, h, if o.kind.Tag? then n + 1 else n))
  {
    var w := Run(Start, sched, n, acts);
    var o := w.owners[a.owner];
    GuardsHoldLive(sched, n, acts, a.owner, h);
    GivesUpUnseen(w.ucx, sched, o.own, h, n);
    FinishEffect(w, sched, n, a.owner, o.kind, o.own, h);
    GuardEnds(w, sched, n, a, h);
  }

  lemma GuardsHoldLive(sched: Schedule, n: nat, acts: seq<Action>, id: nat, h: Handle)
    requires var w := Run(Start, sched, n, acts); id in w.owners && w.owners[id].Guard? && w.owners[id].slot == Some(h)
    ensures var w := Run(Start, sched, n, acts);
            h in w.ucx.live && h in w.ucx.status && (w.owners[id].own ==> !w.ucx.gone)
  {
    StartIsSafe();
    RunKeepsInv(Start, sched, n, acts);
    assert OwnerSafe(Run(Start, sched, n, acts), id);
    if Run(Start, sched, n, acts).owners[id].own { BorrowingGuardsAreNeverLate(sched, n, acts, id); }
  }

  /** The engine after a step is the one that the contract of the method behind it ensures. */
  lemma PostingIsItsCall(w: World, sched: Schedule, n: nat, a: Action)
    requires !w.aborted && (a.PostGuarded? || a.PostBare?) && !(a.PostGuarded? && a.own && w.ucx.gone)
    ensures var w' := Step(w, sched, n, a);
            && w'.ucx == Call(w.ucx, a.reply)
            && (CallResult(w.ucx, a.reply).Err? ==> w'.owners == w.owners)
            && (CallResult(w.ucx, a.reply).Ok? ==>
                  var slot := CallResult(w.ucx, a.reply).value;
                  w'.owners == w.owners[w.nextOwner := if a.PostGuarded? then Guard(a.kind, a.own, slot) else Bare(slot)])
  {
  }

  /** As above, for the steps of a bare request and for progress. */
  lemma BareStepIsItsCall(w: World, sched: Schedule, n: nat, a: Action)
    requires OnBare(w, a)
    ensures var s, slot, w' := w.ucx, w.owners[a.owner].slot, Step(w, sched, n, a);
            && (a.CancelOnly? ==> w' == w.(ucx := CancelSlot(s, slot)))
            && (a.Wait? && !(a.own && s.gone) ==> w' == w.(ucx := WaitFor(s, sched, a.own, slot, n).0))
            && (a.Release? ==> w'.ucx == ReleaseSlot(s, slot) && w'.owners == w.owners - {a.owner})
            && (a.Free? || a.Drop? ==> w'.ucx == FreeSlot(s, slot) && w'.owners == w.owners - {a.owner})
            && (a.AwaitClose? && slot.Some? && !(a.own && s.gone) ==>
                  var (end, left, _) := FinishClose(s, sched, a.own, slot.value, n);
                  w'.ucx == end && w'.owners == w.owners - {a.owner} && w'.leaked == w.leaked + SlotSet(left))
  {
  }

  lemma ProgressIsItsCall(w: World, sched: Schedule, n: nat)
    requires !w.aborted && !w.ucx.gone
    ensures Step(w, sched, n, Progress) == w.(ucx := w.ucx.Tick(sched))
  {
  }

  /** Checking, bare or through a guard, only looks. */
  lemma CheckIsItsCall(w: World, sched: Schedule, n: nat, id: nat)
    requires !w.aborted && id in w.owners
    ensures Step(w, sched, n, Check(id)) == w.(ucx := TouchSlot(w.ucx, w.owners[id].slot))
  {
  }

  lemma DropStep(w: World, sched: Schedule, n: nat, flush: Reply)
    requires !w.aborted
    ensures Step(w, sched, n, DropWorker(flush)) ==
            if w.ucx.gone || Borrowed(w) then w else WorkerDropped(w, sched, n, flush)
  {
  }

  /** The worker's drop, when nothing borrows it, is `Worker::drop`; and it happens once. */
  lemma WorkerDropIsItsCall(w: World, sched: Schedule, n: nat, flush: Reply)
    requires Inv(w) && !w.aborted
    ensures var w' := Step(w, sched, n, DropWorker(flush));
            if w.ucx.gone || Borrowed(w) then w' == w
            else w'.ucx == FinishWorker(w.ucx, sched, flush, n) && w'.owners == w.owners && w'.leaked == w.leaked
  {
    DropStep(w, sched, n, flush);
    NextIsFresh(w);
    WorkerDroppedIsDrop(w, sched, n, flush);
  }

  /** The ways out of a guard make no call: `into_inner` moves the handle to a bare request, forgetting loses it. */
  lemma EscapesMakeNoCall(w: World, sched: Schedule, n: nat, a: Action)
    requires !w.aborted && (a.Forget? || a.IntoInner? || a.Abandon?) && a.owner in w.owners
    ensures var o, w' := w.owners[a.owner], Step(w, sched, n, a);
            && w'.ucx == w.ucx
            && (a.Forget? || (a.Abandon? && o.Bare?) ==>
                  w'.owners == w.owners - {a.owner} && w'.leaked == w.leaked + SlotSet(o.slot))
            && (a.IntoInner? && o.Guard? ==>
                  w'.owners == (w.owners - {a.owner})[w.nextOwner := Bare(o.slot)] && w'.leaked == w.leaked)
  {
  }
}
