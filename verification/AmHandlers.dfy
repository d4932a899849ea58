/**
 Active-message handlers: UCX's table of opaque arguments against the Rust values they point to.
 Callbacks may run on any thread and may still use an argument that has been replaced or removed;
 destroying the worker waits for them.
 */
module AmHandlers {
  import opened Wrappers
  import opened StatusCodec

  type HandlerId = nat

  /** An opaque argument in UCX's table: one of our handlers, or a caller's raw pointer. */
  datatype Arg = Closure(handler: HandlerId) | Raw

  datatype Phase = Live | Dropping | UcxGone | Released

  /** The stages of `am_register_handler`; the handler is owned by a local until it is retained. */
  datatype Registering = No | Fresh(handler: HandlerId) | Installed(handler: HandlerId)

  /** A running trampoline. The mutex guard exists in the last three states. */
  datatype Callback = Entered(arg: Arg) | Running(arg: Arg) | Panicking(arg: Arg) | Caught(arg: Arg)

  datatype World = World(
    phase: Phase,
    next: HandlerId,
    existing: set<HandlerId>,           // AmHandler values that exist
    registering: Registering,
    retained: seq<HandlerId>,           // Worker::am_handlers
    table: map<nat, Arg>,               // UCX's handlers, by active-message id
    callbacks: map<nat, Callback>,      // trampolines in progress, by thread
    locks: map<HandlerId, nat>,         // handler mutexes held, with the holding thread
    poisoned: set<HandlerId>,
    destroyed: bool,                    // ucp_worker_destroy has returned
    misuse: bool)                       // a handler that no longer exists was used

  datatype Action =
    | Begin                             // am_register_handler allocates the handler
    | SetOk(id: nat)                    // ucp_worker_set_am_recv_handler stores it
    | SetFails
    | Push                              // and the worker retains it
    | RegisterRaw(id: nat)
    | Unregister(id: nat)
    | Dispatch(t: nat, id: nat)
    | RawReturn(t: nat)                 // a raw callback is over
    | BadMessage(t: nat)                // null header or data with a length: INVALID_PARAM
    | Lock(t: nat)
    | FindPoisoned(t: nat)
    | Return(t: nat)
    | Panic(t: nat)
    | Catch(t: nat)
    | Unlock(t: nat)
    | BeginDrop
    | Destroy
    | ReleaseHandlers                   // the fields of Worker are dropped

  const Start := World(Live, 0, {}, No, [], map[], map[], map[], {}, false, false)

  /** The trampoline follows the pointer it was given. */
  function Use(w: World, arg: Arg): World {
    w.(misuse := w.misuse || (arg.Closure? && arg.handler !in w.existing))
  }

  predicate On(w: World, t: nat) {
    t in w.callbacks && w.callbacks[t].arg.Closure?
  }

  function HandlerOf(w: World, t: nat): HandlerId
    requires On(w, t)
  {
    w.callbacks[t].arg.handler
  }

  predicate Enabled(w: World, a: Action) {
    match a
    case Begin => w.phase == Live && w.registering == No
    case SetOk(_) => w.registering.Fresh?
    case SetFails => w.registering.Fresh?
    case Push => w.registering.Installed?
    case RegisterRaw(_) => w.phase == Live && w.registering == No
    case Unregister(_) => w.phase == Live && w.registering == No
    case Dispatch(t, id) => !w.destroyed && id in w.table && t !in w.callbacks
    case RawReturn(t) => t in w.callbacks && w.callbacks[t].arg.Raw?
    case BadMessage(t) => On(w, t) && w.callbacks[t].Entered?
    case Lock(t) =>
      On(w, t) && w.callbacks[t].Entered? && HandlerOf(w, t) !in w.locks && HandlerOf(w, t) !in w.poisoned
    case FindPoisoned(t) =>
      On(w, t) && w.callbacks[t].Entered? && HandlerOf(w, t) !in w.locks && HandlerOf(w, t) in w.poisoned
    case Return(t) => On(w, t) && w.callbacks[t].Running?
    case Panic(t) => On(w, t) && w.callbacks[t].Running?
    case Catch(t) => On(w, t) && w.callbacks[t].Panicking?
    case Unlock(t) => On(w, t) && w.callbacks[t].Caught?
    case BeginDrop => w.phase == Live && w.registering == No
    case Destroy => w.phase == Dropping && w.callbacks == map[]
    case ReleaseHandlers => w.phase == UcxGone
  }

  function Step(w: World, a: Action): World {
    match a
    case Begin => w.(next := w.next + 1, existing := w.existing + {w.next}, registering := Fresh(w.next))
    case SetOk(id) =>
      if w.registering.Fresh?
      then w.(table := w.table[id := Closure(w.registering.handler)], registering := Installed(w.registering.handler))
      else w
    case SetFails =>
      if w.registering.Fresh? then w.(existing := w.existing - {w.registering.handler}, registering := No) else w
    case Push =>
      if w.registering.Installed? then w.(retained := w.retained + [w.registering.handler], registering := No) else w
    case RegisterRaw(id) => w.(table := w.table[id := Raw])
    case Unregister(id) => w.(table := w.table - {id})
    case Dispatch(t, id) =>
      if id in w.table then Use(w, w.table[id]).(callbacks := w.callbacks[t := Entered(w.table[id])]) else w
    case RawReturn(t) => w.(callbacks := w.callbacks - {t})
    case BadMessage(t) => w.(callbacks := w.callbacks - {t})
    case Lock(t) =>
      if On(w, t) then Use(w, w.callbacks[t].arg)
        .(callbacks := w.callbacks[t := Running(w.callbacks[t].arg)], locks := w.locks[HandlerOf(w, t) := t]) else w
    case FindPoisoned(t) => w.(callbacks := w.callbacks - {t})
    case Return(t) =>
      if On(w, t) then Use(w, w.callbacks[t].arg).(callbacks := w.callbacks[t := Caught(w.callbacks[t].arg)]) else w
    case Panic(t) => if On(w, t) then w.(callbacks := w.callbacks[t := Panicking(w.callbacks[t].arg)]) else w
    case Catch(t) => if On(w, t) then w.(callbacks := w.callbacks[t := Caught(w.callbacks[t].arg)]) else w
    case Unlock(t) =>
      if On(w, t) then Use(w, w.callbacks[t].arg)
        .(callbacks := w.callbacks - {t}, locks := w.locks - {HandlerOf(w, t)},
          poisoned := if w.callbacks[t].Panicking? then w.poisoned + {HandlerOf(w, t)} else w.poisoned)
      else w
    case BeginDrop => w.(phase := Dropping)
    case Destroy => w.(phase := UcxGone, destroyed := true, table := map[])
    case ReleaseHandlers =>
      w.(phase := Released, existing := w.existing - (set h | h in w.retained), retained := [])
  }

  /** What the trampoline answers to UCX after the closure ran. */
  datatype ClosureEnd = Returned(result: Result<(), UcsStatus>) | Panicked

  function Answer(end: ClosureEnd): UcsStatus {
    match end
    case Returned(Ok(_)) => UcsOk
    case Returned(Err(s)) => if IsErr(s) then s else InvalidParam
    case Panicked => IoError
  }

  /** Whatever the closure does, UCX gets success or an error, and success only for `Ok`. */
  lemma AnswerIsFinal(end: ClosureEnd)
    ensures Answer(end) != InProgress
    ensures Answer(end) == UcsOk <==> end.Returned? && end.result.Ok?
    ensures end.Returned? && end.result.Err? ==>
              Answer(end) == if IsErr(end.result.error) then end.result.error else InvalidParam
    ensures end.Panicked? ==> Answer(end) == IoError
  {
  }

  predicate Pending(w: World, h: HandlerId) {
    w.registering.Installed? && w.registering.handler == h
  }

  /** The closure an argument points to is kept alive by the worker, or by the registration in progress. */
  predicate Kept(w: World, arg: Arg) {
    arg.Closure? ==> arg.handler in w.existing && (arg.handler in w.retained || Pending(w, arg.handler))
  }

  predicate HasGuard(c: Callback) {
    !c.Entered?
  }

  /** Everything reachable from UCX is kept. */
  ghost predicate ArgsKept(w: World) {
    && (forall id | id in w.table :: Kept(w, w.table[id]))
    && (forall t | t in w.callbacks :: Kept(w, w.callbacks[t].arg))
  }

  /** What exists is what the worker retains and what is being registered. */
  ghost predicate Owned(w: World) {
    && (forall h | h in w.existing :: h < w.next)
    && (forall h | h in w.retained :: h in w.existing)
    && (w.registering != No ==>
          w.phase == Live && w.registering.handler in w.existing && w.registering.handler !in w.retained)
    && (forall h | h in w.existing :: h in w.retained || (w.registering != No && w.registering.handler == h))
  }

  ghost predicate MutexesOk(w: World) {
    && w.poisoned == {}
    && (forall h | h in w.locks :: On(w, w.locks[h]) && HandlerOf(w, w.locks[h]) == h && HasGuard(w.callbacks[w.locks[h]]))
    && (forall t | t in w.callbacks && HasGuard(w.callbacks[t]) ::
          On(w, t) && HandlerOf(w, t) in w.locks && w.locks[HandlerOf(w, t)] == t)
  }

  ghost predicate PhaseOk(w: World) {
    && (w.destroyed <==> w.phase == UcxGone || w.phase == Released)
    && (w.destroyed ==> w.table == map[] && w.callbacks == map[])
    && (w.phase == Released ==> w.retained == [])
  }

  ghost predicate Inv(w: World) {
    !w.misuse && ArgsKept(w) && Owned(w) && MutexesOk(w) && PhaseOk(w)
  }

  predicate CallbackStep(a: Action) {
    a.Return? || a.Panic? || a.Catch?
  }

  lemma LockKeepsInv(w: World, t: nat)
    requires Inv(w) && Enabled(w, Lock(t))
    ensures Inv(Step(w, Lock(t)))
  {
    assert Kept(w, w.callbacks[t].arg);
  }

  lemma UnlockKeepsInv(w: World, t: nat)
    requires Inv(w) && Enabled(w, Unlock(t))
    ensures Inv(Step(w, Unlock(t)))
  {
    assert Kept(w, w.callbacks[t].arg);
  }

  /** A callback that never took the mutex is over. */
  lemma EarlyReturnKeepsInv(w: World, a: Action)
    requires Inv(w) && Enabled(w, a) && (a.RawReturn? || a.BadMessage?)
    ensures Inv(Step(w, a))
  {
  }

  lemma CallbackKeepsInv(w: World, a: Action)
    requires Inv(w) && Enabled(w, a) && CallbackStep(a)
    ensures Inv(Step(w, a))
  {
    assert Kept(w, w.callbacks[a.t].arg);
  }

  lemma DispatchKeepsInv(w: World, t: nat, id: nat)
    requires Inv(w) && Enabled(w, Dispatch(t, id))
    ensures Inv(Step(w, Dispatch(t, id)))
  {
    assert Kept(w, w.table[id]);
  }

  lemma RegistrationKeepsInv(w: World, a: Action)
    requires Inv(w) && Enabled(w, a)
    requires a.Begin? || a.SetOk? || a.SetFails? || a.Push? || a.RegisterRaw? || a.Unregister?
    ensures Inv(Step(w, a))
  {
    var w' := Step(w, a);
    forall id | id in w'.table ensures Kept(w', w'.table[id]) {
      if id in w.table { assert Kept(w, w.table[id]); }
    }
    forall t | t in w'.callbacks ensures Kept(w', w'.callbacks[t].arg) { assert Kept(w, w.callbacks[t].arg); }
  }

  lemma DropKeepsInv(w: World, a: Action)
    requires Inv(w) && Enabled(w, a) && (a.BeginDrop? || a.Destroy? || a.ReleaseHandlers?)
    ensures Inv(Step(w, a))
  {
  }

  lemma StepKeepsInv(w: World, a: Action)
    requires Inv(w) && Enabled(w, a)
    ensures Inv(Step(w, a))
  {
    match a
    case FindPoisoned(_) => assert false;
    case Lock(t) => LockKeepsInv(w, t);
    case Unlock(t) => UnlockKeepsInv(w, t);
    case Dispatch(t, id) => DispatchKeepsInv(w, t, id);
    case BeginDrop => DropKeepsInv(w, a);
    case Destroy => DropKeepsInv(w, a);
    case ReleaseHandlers => DropKeepsInv(w, a);
    case Begin => RegistrationKeepsInv(w, a);
    case SetOk(_) => RegistrationKeepsInv(w, a);
    case SetFails => RegistrationKeepsInv(w, a);
    case Push => RegistrationKeepsInv(w, a);
    case RegisterRaw(_) => RegistrationKeepsInv(w, a);
    case Unregister(_) => RegistrationKeepsInv(w, a);
    case RawReturn(_) => EarlyReturnKeepsInv(w, a);
    case BadMessage(_) => EarlyReturnKeepsInv(w, a);
    case _ => CallbackKeepsInv(w, a);
  }

  predicate ValidRun(w: World, acts: seq<Action>)
    decreases |acts|
  {
    acts == [] || (Enabled(w, acts[0]) && ValidRun(Step(w, acts[0]), acts[1..]))
  }

  function Run(w: World, acts: seq<Action>): World
    decreases |acts|
  {
    if acts == [] then w else Run(Step(w, acts[0]), acts[1..])
  }

  lemma {:induction false} RunKeepsInv(w: World, acts: seq<Action>)
    requires Inv(w) && ValidRun(w, acts)
    ensures Inv(Run(w, acts))
    decreases |acts|
  {
    if acts != [] {
      StepKeepsInv(w, acts[0]);
      RunKeepsInv(Step(w, acts[0]), acts[1..]);
    }
  }

  /**
   In every run, whatever UCX can still dispatch or is running points to a handler that exists, and no
   handler was used after it was dropped. A handler that UCX accepted exists until UCX has destroyed
   the worker.
   */
  lemma HandlersOutliveDispatch(acts: seq<Action>)
    requires ValidRun(Start, acts)
    ensures var w := Run(Start, acts);
            && !w.misuse
            && (forall id | id in w.table :: Kept(w, w.table[id]))
            && (forall t | t in w.callbacks :: Kept(w, w.callbacks[t].arg))
            && (forall h | h in w.retained :: h in w.existing)
  {
    RunKeepsInv(Start, acts);
  }

  /** Handlers are dropped only after a failed registration or once `ucp_worker_destroy` has returned. */
  lemma HandlersDropAfterDestroy(acts: seq<Action>, a: Action, h: HandlerId)
    requires ValidRun(Start, acts) && Enabled(Run(Start, acts), a)
    requires var w := Run(Start, acts); h in w.existing && h !in Step(w, a).existing
    ensures var w := Run(Start, acts);
            (a == SetFails && w.registering == Fresh(h)) || (a == ReleaseHandlers && w.destroyed && w.callbacks == map[])
    ensures forall id :: id in Run(Start, acts).table ==> Run(Start, acts).table[id] != Closure(h)
  {
    RunKeepsInv(Start, acts);
    var w := Run(Start, acts);
    forall id | id in w.table ensures w.table[id] != Closure(h) {
      assert Kept(w, w.table[id]);
    }
  }

  /**
   A handler is never run by two threads at once, and a panic does not keep it from running again: its
   mutex is never poisoned, so an entered callback with the mutex free can always take it.
   */
  lemma HandlersRunOneAtATime(acts: seq<Action>, t: nat, u: nat)
    requires ValidRun(Start, acts) && On(Run(Start, acts), t) && On(Run(Start, acts), u)
    requires HandlerOf(Run(Start, acts), t) == HandlerOf(Run(Start, acts), u)
    ensures var w := Run(Start, acts);
            && (HasGuard(w.callbacks[t]) && HasGuard(w.callbacks[u]) ==> t == u)
            && !Enabled(w, FindPoisoned(t))
            && (w.callbacks[t].Entered? && HandlerOf(w, t) !in w.locks ==> Enabled(w, Lock(t)))
  {
    RunKeepsInv(Start, acts);
  }

  /** The last word of the program on an active-message id: a closure UCX accepted, a raw callback, or nothing. */
  datatype Registered = Nothing | ByRaw | ByClosure(handler: int)

  /** Read off the actions alone: the handlers are numbered in the order of the calls that create them. */
  function LastRegistered(acts: seq<Action>, id: nat): Registered
    decreases |acts|
  {
    if acts == [] then Nothing
    else
      var front, last := acts[..|acts| - 1], acts[|acts| - 1];
      match last
      case SetOk(i) => if i == id then ByClosure(Begun(front) - 1) else LastRegistered(front, id)
      case RegisterRaw(i) => if i == id then ByRaw else LastRegistered(front, id)
      case Unregister(i) => if i == id then Nothing else LastRegistered(front, id)
      case Destroy => Nothing
      case _ => LastRegistered(front, id)
  }

  /** Calls of `am_register_handler` so far. */
  function Begun(acts: seq<Action>): int
    decreases |acts|
  {
    if acts == [] then 0
    else Begun(acts[..|acts| - 1]) + if acts[|acts| - 1] == Begin then 1 else 0
  }

  predicate Agrees(w: World, id: nat, last: Registered) {
    match last
    case Nothing => id !in w.table
    case ByRaw => id in w.table && w.table[id] == Raw
    case ByClosure(h) => id in w.table && w.table[id].Closure? && w.table[id].handler == h
  }

  lemma {:induction false} RunAppend(w: World, acts: seq<Action>)
    requires acts != [] && ValidRun(w, acts)
    ensures var front, last := acts[..|acts| - 1], acts[|acts| - 1];
            ValidRun(w, front) && Enabled(Run(w, front), last) && Run(w, acts) == Step(Run(w, front), last)
    decreases |acts|
  {
    if |acts| > 1 {
      RunAppend(Step(w, acts[0]), acts[1..]);
      assert acts[..|acts| - 1][1..] == acts[1..][..|acts| - 2];
    } else {
      assert Run(Step(w, acts[0]), acts[1..]) == Step(w, acts[0]);
    }
  }

  /** UCX's table has, for every id, what the program registered last, and a fresh handler for every closure. */
  lemma {:induction false} TableIsLastRegistered(acts: seq<Action>, id: nat)
    requires ValidRun(Start, acts)
    ensures var w := Run(Start, acts);
            && Agrees(w, id, LastRegistered(acts, id))
            && w.next == Begun(acts)
            && (w.registering != No ==> w.registering.handler == w.next - 1)
    decreases |acts|
  {
    if acts != [] {
      RunAppend(Start, acts);
      TableIsLastRegistered(acts[..|acts| - 1], id);
    }
  }

  /** A message reaches what is registered: the callback runs under the mutex of that very handler. */
  lemma DispatchReachesHandler(acts: seq<Action>, t: nat, id: nat)
    requires ValidRun(Start, acts) && Enabled(Run(Start, acts), Dispatch(t, id))
    requires var w := Run(Start, acts); w.table[id].Closure? && w.table[id].handler !in w.locks
    ensures var w := Run(Start, acts);
            var w1 := Step(w, Dispatch(t, id));
            var w2 := Step(w1, Lock(t));
            && Enabled(w1, Lock(t)) && t in w2.callbacks && w2.callbacks[t] == Running(w.table[id])
            && w2.locks == w.locks[w.table[id].handler := t]
  {
    RunKeepsInv(Start, acts);
  }

  /** A malformed message, and a message for a raw callback, come and go without touching any handler. */
  lemma OtherMessagesLeaveNoTrace(acts: seq<Action>, t: nat, id: nat)
    requires ValidRun(Start, acts) && Enabled(Run(Start, acts), Dispatch(t, id))
    ensures var w := Run(Start, acts);
            var end := if w.table[id].Raw? then RawReturn(t) else BadMessage(t);
            var w1 := Step(w, Dispatch(t, id));
            Enabled(w1, end) && Step(w1, end) == w
  {
    RunKeepsInv(Start, acts);
    var w := Run(Start, acts);
    assert w.callbacks[t := Entered(w.table[id])] - {t} == w.callbacks;
  }

  /** Following a pointer to a handler that is gone leaves its mark. */
  lemma UseIsMarked(w: World, arg: Arg)
    ensures Use(w, arg).misuse <==> w.misuse || (arg.Closure? && arg.handler !in w.existing)
  {
  }

  /** A message delivered to a handler that panics. */
  function PanicRound(t: nat, id: nat): seq<Action> {
    [Dispatch(t, id), Lock(t), Panic(t), Catch(t), Unlock(t)]
  }

  lemma RunFrom(w: World, a: Action, rest: seq<Action>)
    requires Enabled(w, a) && ValidRun(Step(w, a), rest)
    ensures ValidRun(w, [a] + rest) && Run(w, [a] + rest) == Run(Step(w, a), rest)
  {
    assert ([a] + rest)[1..] == rest;
  }

  /**
   In any state of any run, a message whose handler panics can go through and leaves the world exactly as it
   was: the comment about poisoning notwithstanding, the same handler is locked and run for the next message.
   */
  lemma PanicsLeaveNoTrace(acts: seq<Action>, t: nat, id: nat)
    requires ValidRun(Start, acts) && Enabled(Run(Start, acts), Dispatch(t, id))
    requires var w := Run(Start, acts); w.table[id].Closure? && w.table[id].handler !in w.locks
    ensures var w := Run(Start, acts); ValidRun(w, PanicRound(t, id)) && Run(w, PanicRound(t, id)) == w
  {
    RunKeepsInv(Start, acts);
    PanicRoundFrom(Run(Start, acts), t, id);
  }

  lemma PanicRoundFrom(w: World, t: nat, id: nat)
    requires Inv(w) && Enabled(w, Dispatch(t, id)) && w.table[id].Closure? && w.table[id].handler !in w.locks
    ensures ValidRun(w, PanicRound(t, id)) && Run(w, PanicRound(t, id)) == w
  {
    var arg := w.table[id];
    var w1 := w.(callbacks := w.callbacks[t := Entered(arg)]);
    var w2 := w.(callbacks := w.callbacks[t := Running(arg)], locks := w.locks[arg.handler := t]);
    assert Kept(w, arg);
    assert w1.callbacks[t := Running(arg)] == w2.callbacks;
    PanicAndUnlock(w, w2, t, arg);
    RunFrom(w1, Lock(t), [Panic(t), Catch(t), Unlock(t)]);
    RunFrom(w, Dispatch(t, id), [Lock(t), Panic(t), Catch(t), Unlock(t)]);
  }

  lemma PanicAndUnlock(w: World, w2: World, t: nat, arg: Arg)
    requires arg.Closure? && arg.handler in w.existing && t !in w.callbacks && arg.handler !in w.locks
    requires w2 == w.(callbacks := w.callbacks[t := Running(arg)], locks := w.locks[arg.handler := t])
    ensures var acts := [Panic(t), Catch(t), Unlock(t)]; ValidRun(w2, acts) && Run(w2, acts) == w
  {
    var w3 := w2.(callbacks := w.callbacks[t := Panicking(arg)]);
    var w4 := w2.(callbacks := w.callbacks[t := Caught(arg)]);
    assert w2.callbacks[t := Panicking(arg)] == w3.callbacks && w3.callbacks[t := Caught(arg)] == w4.callbacks;
    assert w4.callbacks - {t} == w.callbacks && w4.locks - {arg.handler} == w.locks;
    RunFrom(w4, Unlock(t), []);
    RunFrom(w3, Catch(t), [Unlock(t)]);
    RunFrom(w2, Panic(t), [Catch(t), Unlock(t)]);
  }

  /** The registration calls of `Worker`; `accepted` is what UCX answers. */
  class AmWorker {
    var world: World

    constructor ()
      ensures world == Start
    {
      world := Start;
    }

    /** The new handler is retained, on top of all earlier ones, iff UCX took it. */
    method AmRegisterHandler(id: nat, accepted: bool)
      requires Inv(world) && Enabled(world, Begin)
      modifies this
      ensures Inv(world)
      ensures var h := old(world).next;
              world == if accepted
                       then old(world).(next := h + 1, existing := old(world).existing + {h},
                                        retained := old(world).retained + [h],
                                        table := old(world).table[id := Closure(h)])
                       else old(world).(next := h + 1)
    {
      StepKeepsInv(world, Begin);
      world := Step(world, Begin);
      var result := if accepted then SetOk(id) else SetFails;
      StepKeepsInv(world, result);
      world := Step(world, result);
      if accepted {
        StepKeepsInv(world, Push);
        world := Step(world, Push);
      }
    }

    /** The id loses its handler; the handler itself stays retained. */
    method AmUnregister(id: nat, accepted: bool)
      requires Inv(world) && Enabled(world, Unregister(id))
      modifies this
      ensures Inv(world)
      ensures world == if accepted then old(world).(table := old(world).table - {id}) else old(world)
    {
      if accepted {
        StepKeepsInv(world, Unregister(id));
        world := Step(world, Unregister(id));
      }
    }
  }
}
