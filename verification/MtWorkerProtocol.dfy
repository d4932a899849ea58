/**
 `MtWorker`: any number of threads share one worker behind a mutex, in debug builds with the
 re-entry check of `progress`. The last thread to give up its access runs the worker's drop, without
 the mutex.
 */
module MtWorkerProtocol {
  import opened Wrappers

  /** On whose behalf `progress` runs. */
  datatype Caller = Direct | InClosure | InDrop

  datatype Pc =
    | Idle
    | InCall                    // fence, flush, arm, create_ep, ...: one UCX call
    | AtExchange(caller: Caller)    // about to compare-exchange the progress flag
    | Progressing(caller: Caller)   // flag taken, inside ucp_worker_progress
    | Closure                   // inside the closure given to with_worker
    | Unwinding                 // the closure panicked; the mutex guard is still to be dropped
    | Leaving                   // the operation is over; the mutex guard is still to be dropped
    | Dropping                  // inside Worker::drop

  type Thread = nat

  datatype World = World(
    access: set<Thread>,             // threads that own or borrow a clone
    pcs: map<Thread, Pc>,            // threads not idle
    mutex: Option<Thread>,
    poisoned: bool,
    flag: bool,                      // `progressing`
    exchangeFailed: bool,            // the compare-exchange failed on a first entry
    dropped: bool)                   // Worker::drop has run

  datatype Operation = Call | Progress | WithWorker

  datatype Action =
    | Share(t: Thread, other: Thread)     // clone or lend
    | Lock(t: Thread, op: Operation)      // succeeds on a poisoned mutex too
    | FinishCall(t: Thread)
    | Exchange(t: Thread)
    | Reenter(t: Thread)                  // a callback calls progress on this worker: it must fail
    | FinishProgress(t: Thread)
    | ProgressInClosure(t: Thread)
    | ReturnFromClosure(t: Thread)
    | PanicInClosure(t: Thread)
    | Unlock(t: Thread)
    | GiveUp(t: Thread)
    | ProgressInDrop(t: Thread)
    | FinishDrop(t: Thread)

  /** One thread has just wrapped the worker. */
  function Start(t: Thread): World {
    World({t}, map[], None, false, false, false, false)
  }

  function PcOf(w: World, t: Thread): Pc {
    if t in w.pcs then w.pcs[t] else Idle
  }

  function Goto(w: World, t: Thread, pc: Pc): World {
    w.(pcs := if pc == Idle then w.pcs - {t} else w.pcs[t := pc])
  }

  predicate Enabled(w: World, a: Action) {
    match a
    case Share(t, _) => t in w.access
    case Lock(t, _) => t in w.access && PcOf(w, t) == Idle && w.mutex == None
    case FinishCall(t) => PcOf(w, t) == InCall
    case Exchange(t) => PcOf(w, t).AtExchange?
    case Reenter(t) => PcOf(w, t).Progressing?
    case FinishProgress(t) => PcOf(w, t).Progressing?
    case ProgressInClosure(t) => PcOf(w, t) == Closure
    case ReturnFromClosure(t) => PcOf(w, t) == Closure
    case PanicInClosure(t) => PcOf(w, t) == Closure
    case Unlock(t) => PcOf(w, t) == Leaving || PcOf(w, t) == Unwinding
    case GiveUp(t) => t in w.access && PcOf(w, t) == Idle
    case ProgressInDrop(t) => PcOf(w, t) == Dropping
    case FinishDrop(t) => PcOf(w, t) == Dropping
  }

  function Step(w: World, a: Action): World {
    match a
    case Share(_, other) => w.(access := w.access + {other})
    case Lock(t, op) =>
      Goto(w, t, match op case Call => InCall case Progress => AtExchange(Direct) case WithWorker => Closure)
        .(mutex := Some(t))
    case FinishCall(t) => Goto(w, t, Leaving)
    case Exchange(t) =>
      var caller := if PcOf(w, t).AtExchange? then PcOf(w, t).caller else Direct;
      if w.flag then Goto(w, t, Unwinding).(exchangeFailed := true)
      else Goto(w, t, Progressing(caller)).(flag := true)
    case Reenter(_) => w
    case FinishProgress(t) =>
      var caller := if PcOf(w, t).Progressing? then PcOf(w, t).caller else Direct;
      Goto(w, t, match caller case Direct => Leaving case InClosure => Closure case InDrop => Dropping).(flag := false)
    case ProgressInClosure(t) => Goto(w, t, AtExchange(InClosure))
    case ReturnFromClosure(t) => Goto(w, t, Leaving)
    case PanicInClosure(t) => Goto(w, t, Unwinding)
    case Unlock(t) => Goto(w, t, Idle).(mutex := None, poisoned := w.poisoned || PcOf(w, t) == Unwinding)
    case GiveUp(t) =>
      var w' := w.(access := w.access - {t});
      if w'.access == {} then Goto(w', t, Dropping) else w'
    case ProgressInDrop(t) => Goto(w, t, AtExchange(InDrop))
    case FinishDrop(t) => Goto(w, t, Idle).(dropped := true)
  }

  /** The thread holds the worker's mutex. */
  predicate UnderLock(pc: Pc) {
    match pc
    case AtExchange(caller) => caller != InDrop
    case Progressing(caller) => caller != InDrop
    case Dropping => false
    case Idle => false
    case _ => true
  }

  ghost predicate Inv(w: World) {
    && !w.exchangeFailed
    && (forall t, u | t in w.pcs && u in w.pcs :: t == u)
    && (forall t | t in w.pcs ::
          && w.pcs[t] != Idle
          && (w.flag <==> w.pcs[t].Progressing?)
          && (if UnderLock(w.pcs[t]) then w.mutex == Some(t) && t in w.access && !w.dropped
              else w.mutex == None && w.access == {} && !w.dropped))
    && (w.mutex.Some? ==> w.mutex.value in w.pcs)
    && (w.flag ==> w.pcs.Keys != {})
    && (w.access == {} && w.pcs.Keys == {} ==> w.dropped)
    && (w.dropped ==> w.access == {} && w.pcs.Keys == {})
  }

  lemma LockKeepsInv(w: World, t: Thread, op: Operation)
    requires Inv(w) && Enabled(w, Lock(t, op))
    ensures Inv(Step(w, Lock(t, op)))
  {
    assert w.pcs.Keys == {} by { if u :| u in w.pcs { assert w.pcs[u] != Idle; } }
  }

  lemma GiveUpKeepsInv(w: World, t: Thread)
    requires Inv(w) && Enabled(w, GiveUp(t))
    ensures Inv(Step(w, GiveUp(t)))
  {
    forall u | u in w.pcs ensures u in w.access - {t} && UnderLock(w.pcs[u]) {
      assert PcOf(w, u) != Idle;
    }
  }

  /** The thread inside moves on: it is the only one, before and after. */
  lemma MoveKeepsInv(w: World, a: Action)
    requires Inv(w) && Enabled(w, a) && !a.Lock? && !a.GiveUp? && !a.Share?
    ensures Inv(Step(w, a))
  {
    assert w.pcs.Keys == {a.t};
  }

  lemma StepKeepsInv(w: World, a: Action)
    requires Inv(w) && Enabled(w, a)
    ensures Inv(Step(w, a))
  {
    match a
    case Lock(t, op) => LockKeepsInv(w, t, op);
    case GiveUp(t) => GiveUpKeepsInv(w, t);
    case Share(_, _) =>
    case _ => MoveKeepsInv(w, a);
  }

  predicate ValidRun(w: World, acts: seq<Action>)
    decreases |acts|
  {
    acts == [] || (Enabled(w, acts[0]) && ValidRun(Step(w, acts[0]), acts[1..]))
  }

  function Run(w: World, acts: seq<Action>): World
    decreases |acts|
  {
    if acts == [] then w else Run(Step(w, acts[0]), acts[1..])
  }

  lemma {:induction false} RunKeepsInv(w: World, acts: seq<Action>)
    requires Inv(w) && ValidRun(w, acts)
    ensures Inv(Run(w, acts))
    decreases |acts|
  {
    if acts != [] {
      StepKeepsInv(w, acts[0]);
      RunKeepsInv(Step(w, acts[0]), acts[1..]);
    }
  }

  /**
   Every interleaving, panicking closures and the final drop included: at most one thread is inside a
   worker operation, the flag is up exactly while a thread is inside `progress`, the compare-exchange
   has not failed on a first entry, and nobody is inside once the worker has been dropped.
   */
  lemma OneThreadInside(t0: Thread, acts: seq<Action>)
    requires ValidRun(Start(t0), acts)
    ensures var w := Run(Start(t0), acts);
            && (forall t, u | PcOf(w, t) != Idle && PcOf(w, u) != Idle :: t == u)
            && (w.flag <==> exists t :: PcOf(w, t).Progressing?)
            && !w.exchangeFailed
            && (w.dropped ==> forall t :: PcOf(w, t) == Idle)
  {
    RunKeepsInv(Start(t0), acts);
    var w := Run(Start(t0), acts);
    if w.flag {
      var t :| t in w.pcs;
      assert PcOf(w, t).Progressing?;
    }
  }

  /** A second entry by the thread inside `progress` is the only way to meet a raised flag. */
  lemma OnlyReentryMeetsTheFlag(t0: Thread, acts: seq<Action>, t: Thread)
    requires ValidRun(Start(t0), acts)
    ensures var w := Run(Start(t0), acts);
            && (Enabled(w, Exchange(t)) ==> !w.flag)
            && (Enabled(w, Reenter(t)) ==> w.flag)
  {
    RunKeepsInv(Start(t0), acts);
  }

  /** Without a panicking closure the mutex is never poisoned. */
  lemma {:induction false} OnlyPanicsPoison(w: World, acts: seq<Action>)
    requires Inv(w) && ValidRun(w, acts) && !w.poisoned && (forall t | t in w.pcs :: w.pcs[t] != Unwinding)
    requires forall a | a in acts :: !a.PanicInClosure?
    ensures !Run(w, acts).poisoned
    decreases |acts|
  {
    if acts != [] {
      assert acts[0] in acts;
      StepKeepsInv(w, acts[0]);
      OnlyPanicsPoison(Step(w, acts[0]), acts[1..]);
    }
  }

  /** A panicking closure poisons the mutex on its way out, and the next thread locks it all the same. */
  lemma PanicPoisonsAndLockingGoesOn(t0: Thread, acts: seq<Action>, t: Thread, u: Thread, op: Operation)
    requires ValidRun(Start(t0), acts) && Enabled(Run(Start(t0), acts), PanicInClosure(t))
    requires u in Run(Start(t0), acts).access
    ensures var w := Step(Step(Run(Start(t0), acts), PanicInClosure(t)), Unlock(t));
            w.poisoned && Enabled(w, Lock(u, op)) && (op == Progress ==> !Step(w, Lock(u, op)).flag)
  {
    RunKeepsInv(Start(t0), acts);
    assert PcOf(Run(Start(t0), acts), u) != Idle ==> u == t;
  }

  /** Poisoning never shuts anyone out: with nobody inside, every thread with access can lock. */
  lemma AccessSurvivesPanics(t0: Thread, acts: seq<Action>, t: Thread, op: Operation)
    requires ValidRun(Start(t0), acts)
    ensures var w := Run(Start(t0), acts);
            t in w.access && (forall u :: PcOf(w, u) == Idle) ==> Enabled(w, Lock(t, op))
  {
    RunKeepsInv(Start(t0), acts);
    var w := Run(Start(t0), acts);
    if w.mutex.Some? { assert PcOf(w, w.mutex.value) != Idle; }
  }

  lemma RunFrom(w: World, a: Action, rest: seq<Action>)
    requires Enabled(w, a) && ValidRun(Step(w, a), rest)
    ensures ValidRun(w, [a] + rest) && Run(w, [a] + rest) == Run(Step(w, a), rest)
  {
    assert ([a] + rest)[1..] == rest;
  }

  /**
   `progress` from any state of any run with the worker free: once locked, the thread takes the flag and is inside
   `progress`; when it leaves, everything is as before, poison included.
   */
  lemma ProgressGoesThrough(t0: Thread, acts: seq<Action>, t: Thread)
    requires ValidRun(Start(t0), acts) && Enabled(Run(Start(t0), acts), Lock(t, Operation.Progress))
    ensures var enter, leave := [Lock(t, Operation.Progress), Exchange(t)], [FinishProgress(t), Unlock(t)];
            var w := Run(Start(t0), acts);
            var inside := Run(w, enter);
            && ValidRun(w, enter) && PcOf(inside, t) == Progressing(Direct) && inside.flag && inside.mutex == Some(t)
            && ValidRun(inside, leave) && Run(inside, leave) == w
  {
    RunKeepsInv(Start(t0), acts);
    var w := Run(Start(t0), acts);
    NobodyInside(w);
    var inside := w.(pcs := map[t := Progressing(Direct)], mutex := Some(t), flag := true);
    EntersProgress(w, t, inside);
    LeavesProgress(w, t, inside);
  }

  lemma EntersProgress(w: World, t: Thread, inside: World)
    requires w.pcs == map[] && w.mutex == None && !w.flag && t in w.access
    requires inside == w.(pcs := map[t := Progressing(Direct)], mutex := Some(t), flag := true)
    ensures var acts := [Lock(t, Operation.Progress), Exchange(t)]; ValidRun(w, acts) && Run(w, acts) == inside
  {
    var locked := w.(pcs := map[t := AtExchange(Direct)], mutex := Some(t));
    assert Step(w, Lock(t, Operation.Progress)) == locked && Step(locked, Exchange(t)) == inside;
    RunFrom(locked, Exchange(t), []);
    RunFrom(w, Lock(t, Operation.Progress), [Exchange(t)]);
  }

  lemma LeavesProgress(w: World, t: Thread, inside: World)
    requires w.pcs == map[] && w.mutex == None && !w.flag
    requires inside == w.(pcs := map[t := Progressing(Direct)], mutex := Some(t), flag := true)
    ensures var acts := [FinishProgress(t), Unlock(t)]; ValidRun(inside, acts) && Run(inside, acts) == w
  {
    var left := w.(pcs := map[t := Leaving], mutex := Some(t));
    assert Step(inside, FinishProgress(t)) == left && Step(left, Unlock(t)) == w;
    RunFrom(left, Unlock(t), []);
    RunFrom(inside, FinishProgress(t), [Unlock(t)]);
  }

  /** The other operations: one is inside its call or its closure once locked, and leaves everything as it was. */
  lemma OperationsGoThrough(t0: Thread, acts: seq<Action>, t: Thread, op: Operation)
    requires ValidRun(Start(t0), acts) && Enabled(Run(Start(t0), acts), Lock(t, op)) && op != Operation.Progress
    ensures var w := Run(Start(t0), acts);
            var exit := if op == Call then FinishCall(t) else ReturnFromClosure(t);
            var inside, leave := Step(w, Lock(t, op)), [exit, Unlock(t)];
            && PcOf(inside, t) == (if op == Call then InCall else Closure) && inside.mutex == Some(t)
            && ValidRun(inside, leave) && Run(inside, leave) == w
  {
    RunKeepsInv(Start(t0), acts);
    var w := Run(Start(t0), acts);
    NobodyInside(w);
    var inside := w.(pcs := map[t := if op == Call then InCall else Closure], mutex := Some(t));
    var left := w.(pcs := map[t := Leaving], mutex := Some(t));
    assert Step(w, Lock(t, op)) == inside;
    var exit := if op == Call then FinishCall(t) else ReturnFromClosure(t);
    assert Step(inside, exit) == left && Step(left, Unlock(t)) == w;
    RunFrom(left, Unlock(t), []);
    RunFrom(inside, exit, [Unlock(t)]);
  }

  lemma NobodyInside(w: World)
    requires Inv(w) && w.mutex == None && w.access != {}
    ensures w.pcs == map[] && !w.flag
  {
    forall t ensures t !in w.pcs {}
  }

  /** A thread inside a closure or in the worker's drop that progresses the worker comes back to where it was. */
  lemma ProgressReturnsToCaller(w: World, t: Thread)
    requires Inv(w) && (PcOf(w, t) == Closure || PcOf(w, t) == Dropping)
    ensures var enter := if PcOf(w, t) == Closure then ProgressInClosure(t) else ProgressInDrop(t);
            var acts := [enter, Exchange(t), FinishProgress(t)];
            ValidRun(w, acts) && Run(w, acts) == w
  {
    var closure := PcOf(w, t) == Closure;
    var enter, caller := if closure then ProgressInClosure(t) else ProgressInDrop(t), if closure then InClosure else InDrop;
    var w1 := w.(pcs := w.pcs[t := AtExchange(caller)]);
    var w2 := w.(pcs := w.pcs[t := Progressing(caller)], flag := true);
    assert w1.pcs[t := Progressing(caller)] == w2.pcs && w2.pcs[t := w.pcs[t]] == w.pcs;
    RunFrom(w2, FinishProgress(t), []);
    RunFrom(w1, Exchange(t), [FinishProgress(t)]);
    RunFrom(w, enter, [Exchange(t), FinishProgress(t)]);
  }

  /** A clone gives access; giving up the last access, and no other, starts the worker's drop on that thread. */
  lemma AccessMeaning(w: World, t: Thread, other: Thread)
    requires Inv(w) && Enabled(w, GiveUp(t))
    ensures Step(w, Share(t, other)).access == w.access + {other}
    ensures Step(w, GiveUp(t)).access == w.access - {t}
    ensures PcOf(Step(w, GiveUp(t)), t) == if w.access == {t} then Dropping else Idle
    ensures w.access == {t} ==> Step(Step(w, GiveUp(t)), FinishDrop(t)).dropped
  {
    assert w.access - {t} == {} <==> w.access == {t};
  }
}
