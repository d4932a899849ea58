/**
 Any interleaving of endpoint teardown with worker teardown, over any number of workers. A worker's
 drop begins by clearing its flag, then progresses UCX (whose callbacks may end endpoints), then
 destroys the worker.
 */
module Teardown {
  import opened Engine
  import opened Endpoints

  datatype Phase = Live | Dropping | Gone

  datatype EpStatus = Open | Closed | Destroyed | Disconnected | Skipped

  datatype Endpoint = Endpoint(worker: nat, status: EpStatus)

  /** What UCX and the flags see. `explicitClose` marks the call made by `Ep::close`. */
  datatype Event = DropBegan(worker: nat) | WorkerDestroyed(worker: nat) | Called(call: EpCall, explicitClose: bool)

  datatype World = World(workers: map<nat, Phase>, eps: map<nat, Endpoint>, log: seq<Event>)

  datatype Action =
    | NewWorker(w: nat)
    | NewEp(e: nat, w: nat)
    | End(e: nat, t: Teardown, reply: Reply)
    | Close(e: nat, through: nat)   // Ep::close with a reference to a live worker
    | BeginDrop(w: nat)
    | FinishDrop(w: nat)

  const Start := World(map[], map[], [])

  /** The log with some calls appended. */
  function Logged(log: seq<Event>, cs: seq<EpCall>): seq<Event>
    decreases |cs|
  {
    if cs == [] then log else Logged(log + [Called(cs[0], false)], cs[1..])
  }

  predicate FlagUp(w: World, worker: nat) {
    worker in w.workers && w.workers[worker] == Live
  }

  function EndedAs(t: Teardown, alive: bool, reply: Reply): EpStatus {
    if !alive then Skipped
    else match t
      case ByDrop => Closed
      case ByDestroy => Destroyed
      case ByDisconnect => if reply.Refused? then Destroyed else Disconnected
  }

  /** Actions that the types rule out (a value that does not exist, a reference that cannot) do nothing. */
  function Step(w: World, a: Action): World {
    match a
    case NewWorker(k) =>
      if k in w.workers then w else w.(workers := w.workers[k := Live])
    case NewEp(e, k) =>
      if e in w.eps || !FlagUp(w, k) then w else w.(eps := w.eps[e := Endpoint(k, Open)])
    case End(e, t, reply) =>
      if e !in w.eps || w.eps[e].status != Open then w
      else
        var alive := FlagUp(w, w.eps[e].worker);
        w.(eps := w.eps[e := w.eps[e].(status := EndedAs(t, alive, reply))],
           log := Logged(w.log, TeardownCalls(t, e, alive, reply)))
    case Close(e, k) =>
      if e !in w.eps || w.eps[e].status != Open || !FlagUp(w, k) then w
      else w.(eps := w.eps[e := w.eps[e].(status := Closed)], log := w.log + [Called(CloseNbx(e), true)])
    case BeginDrop(k) =>
      if FlagUp(w, k) then w.(workers := w.workers[k := Dropping], log := w.log + [DropBegan(k)]) else w
    case FinishDrop(k) =>
      if k in w.workers && w.workers[k] == Dropping
      then w.(workers := w.workers[k := Gone], log := w.log + [WorkerDestroyed(k)]) else w
  }

  function Run(w: World, acts: seq<Action>): World
    decreases |acts|
  {
    if acts == [] then w else Run(Step(w, acts[0]), acts[1..])
  }

  /** The calls in the log that concern endpoint `e`, in order. */
  function CallsOn(log: seq<Event>, e: nat): seq<EpCall> {
    if log == [] then []
    else
      var last := log[|log| - 1];
      CallsOn(log[..|log| - 1], e) + if last.Called? && last.call.ep == e then [last.call] else []
  }

  /** The only sequences of calls an endpoint can see, by its final status. */
  predicate AllowedCalls(status: EpStatus, e: nat, calls: seq<EpCall>) {
    match status
    case Open => calls == []
    case Skipped => calls == []
    case Closed => calls == [CloseNbx(e)]
    case Disconnected => calls == [EpCall.DisconnectNb(e)]
    case Destroyed => calls == [EpDestroy(e)] || calls == [EpCall.DisconnectNb(e), EpDestroy(e)]
  }

  /** Every logged call concerns a known endpoint, and each endpoint has seen what its status allows. */
  ghost predicate CallsAllowed(w: World) {
    && (forall e | e in w.eps :: AllowedCalls(w.eps[e].status, e, CallsOn(w.log, e)))
    && (forall ev | ev in w.log && ev.Called? :: ev.call.ep in w.eps)
  }

  /** A worker's flag is up exactly until its drop begins. */
  ghost predicate FlagsFollowLog(w: World) {
    && (forall k | k in w.workers :: w.workers[k] == Live <==> DropBegan(k) !in w.log)
    && (forall k | DropBegan(k) in w.log :: k in w.workers)
    && (forall e | e in w.eps :: w.eps[e].worker in w.workers)
  }

  /** No call on an endpoint follows the beginning of its worker's drop, explicit closes aside. */
  ghost predicate NoCallAfterDrop(log: seq<Event>, eps: map<nat, Endpoint>) {
    forall i, j | 0 <= j < i < |log| && Follows(log[j], log[i], eps) :: log[i].explicitClose
  }

  predicate Follows(drop: Event, call: Event, eps: map<nat, Endpoint>) {
    drop.DropBegan? && call.Called? && call.call.ep in eps && eps[call.call.ep].worker == drop.worker
  }

  ghost predicate Inv(w: World) {
    CallsAllowed(w) && FlagsFollowLog(w) && NoCallAfterDrop(w.log, w.eps)
  }

  lemma CallsOnAppend(log: seq<Event>, ev: Event, e: nat)
    ensures CallsOn(log + [ev], e) == CallsOn(log, e) + if ev.Called? && ev.call.ep == e then [ev.call] else []
  {
    assert (log + [ev])[..|log|] == log;
  }

  /** Appending calls on one endpoint. */
  lemma {:induction false} LoggedCalls(log: seq<Event>, cs: seq<EpCall>, ep: nat, e: nat)
    requires forall c | c in cs :: c.ep == ep
    ensures CallsOn(Logged(log, cs), e) == CallsOn(log, e) + if e == ep then cs else []
    ensures forall ev :: ev in Logged(log, cs) <==> ev in log || (ev.Called? && !ev.explicitClose && ev.call in cs)
    decreases |cs|
  {
    if cs != [] {
      CallsOnAppend(log, Called(cs[0], false), e);
      LoggedCalls(log + [Called(cs[0], false)], cs[1..], ep, e);
      assert cs == [cs[0]] + cs[1..];
    }
  }

  lemma AppendKeepsOrder(log: seq<Event>, eps: map<nat, Endpoint>, ev: Event)
    requires NoCallAfterDrop(log, eps)
    requires ev.Called? && !ev.explicitClose && ev.call.ep in eps ==> DropBegan(eps[ev.call.ep].worker) !in log
    ensures NoCallAfterDrop(log + [ev], eps)
  {
    var log' := log + [ev];
    forall i, j | 0 <= j < i < |log'| && Follows(log'[j], log'[i], eps) ensures log'[i].explicitClose {
      assert log'[j] == log[j];
      if i < |log| { assert log'[i] == log[i]; } else { assert log[j] in log; }
    }
  }

  lemma {:induction false} LoggedKeepsOrder(log: seq<Event>, eps: map<nat, Endpoint>, cs: seq<EpCall>)
    requires NoCallAfterDrop(log, eps)
    requires forall c | c in cs :: c.ep in eps && DropBegan(eps[c.ep].worker) !in log
    ensures NoCallAfterDrop(Logged(log, cs), eps)
    decreases |cs|
  {
    if cs != [] {
      var log' := log + [Called(cs[0], false)];
      AppendKeepsOrder(log, eps, Called(cs[0], false));
      forall c | c in cs[1..] ensures c.ep in eps && DropBegan(eps[c.ep].worker) !in log' { assert c in cs; }
      LoggedKeepsOrder(log', eps, cs[1..]);
    }
  }

  /** Statuses do not matter for the order, and a new endpoint has no calls. */
  lemma EndpointsKeepOrder(log: seq<Event>, eps: map<nat, Endpoint>, eps': map<nat, Endpoint>)
    requires NoCallAfterDrop(log, eps)
    requires forall e | e in eps :: e in eps' && eps'[e].worker == eps[e].worker
    requires forall ev | ev in log && ev.Called? :: ev.call.ep in eps
    ensures NoCallAfterDrop(log, eps')
  {
    forall i, j | 0 <= j < i < |log| && Follows(log[j], log[i], eps') ensures log[i].explicitClose {
      assert log[i] in log;
      assert Follows(log[j], log[i], eps);
    }
  }

  lemma EndKeepsCalls(w: World, e: nat, t: Teardown, reply: Reply)
    requires CallsAllowed(w) && e in w.eps && w.eps[e].status == Open
    ensures CallsAllowed(Step(w, End(e, t, reply)))
  {
    var w' := Step(w, End(e, t, reply));
    var cs := TeardownCalls(t, e, FlagUp(w, w.eps[e].worker), reply);
    LoggedCalls(w.log, cs, e, e);
    forall e' | e' in w'.eps ensures AllowedCalls(w'.eps[e'].status, e', CallsOn(w'.log, e')) {
      LoggedCalls(w.log, cs, e, e');
    }
  }

  lemma EndKeepsFlags(w: World, e: nat, t: Teardown, reply: Reply)
    requires FlagsFollowLog(w) && e in w.eps && w.eps[e].status == Open
    ensures FlagsFollowLog(Step(w, End(e, t, reply)))
  {
    LoggedCalls(w.log, TeardownCalls(t, e, FlagUp(w, w.eps[e].worker), reply), e, e);
  }

  lemma EndKeepsOrder(w: World, e: nat, t: Teardown, reply: Reply)
    requires Inv(w) && e in w.eps && w.eps[e].status == Open
    ensures var w' := Step(w, End(e, t, reply)); NoCallAfterDrop(w'.log, w'.eps)
  {
    var w' := Step(w, End(e, t, reply));
    var cs := TeardownCalls(t, e, FlagUp(w, w.eps[e].worker), reply);
    LoggedCalls(w.log, cs, e, e);
    LoggedKeepsOrder(w.log, w.eps, cs);
    EndpointsKeepOrder(w'.log, w.eps, w'.eps);
  }

  lemma EndKeepsInv(w: World, e: nat, t: Teardown, reply: Reply)
    requires Inv(w) && e in w.eps && w.eps[e].status == Open
    ensures Inv(Step(w, End(e, t, reply)))
  {
    EndKeepsCalls(w, e, t, reply);
    EndKeepsFlags(w, e, t, reply);
    EndKeepsOrder(w, e, t, reply);
  }

  /** The event that an explicit close or a step of a worker's drop logs. */
  predicate Appends(w: World, a: Action, ev: Event) {
    (a.Close? || a.BeginDrop? || a.FinishDrop?) && Step(w, a).log == w.log + [ev]
  }

  lemma CloseKeepsCalls(w: World, a: Action)
    requires CallsAllowed(w) && TakesEffect(w, a)
    ensures CallsAllowed(Step(w, a))
  {
    var w' := Step(w, a);
    forall e | e in w'.eps ensures AllowedCalls(w'.eps[e].status, e, CallsOn(w'.log, e)) {
      CallsOnAppend(w.log, Called(CloseNbx(a.e), true), e);
    }
  }

  lemma WorkerEventKeepsCalls(w: World, workers: map<nat, Phase>, ev: Event)
    requires CallsAllowed(w) && !ev.Called?
    ensures CallsAllowed(w.(workers := workers, log := w.log + [ev]))
  {
    forall e | e in w.eps ensures AllowedCalls(w.eps[e].status, e, CallsOn(w.log + [ev], e)) {
      CallsOnAppend(w.log, ev, e);
    }
  }

  lemma AppendKeepsRest(w: World, a: Action, ev: Event)
    requires Inv(w) && Appends(w, a, ev)
    ensures var w' := Step(w, a); FlagsFollowLog(w') && NoCallAfterDrop(w'.log, w'.eps)
  {
    var w' := Step(w, a);
    assert w'.log[|w.log|] == ev;
    AppendKeepsOrder(w.log, w.eps, ev);
    EndpointsKeepOrder(w'.log, w.eps, w'.eps);
  }

  lemma AppendKeepsInv(w: World, a: Action)
    requires Inv(w) && (a.Close? || a.BeginDrop? || a.FinishDrop?)
    ensures Inv(Step(w, a))
  {
    if Step(w, a) != w {
      var ev := Step(w, a).log[|w.log|];
      assert Step(w, a).log == w.log + [ev];
      if a.Close? { CloseKeepsCalls(w, a); } else { WorkerEventKeepsCalls(w, Step(w, a).workers, ev); }
      AppendKeepsRest(w, a, ev);
    }
  }

  /** An endpoint that does not exist yet has seen no calls. */
  lemma {:induction false} NoCallsYet(log: seq<Event>, e: nat)
    requires forall ev | ev in log && ev.Called? :: ev.call.ep != e
    ensures CallsOn(log, e) == []
  {
    if log != [] {
      assert log[|log| - 1] in log;
      NoCallsYet(log[..|log| - 1], e);
    }
  }

  lemma StepKeepsInv(w: World, a: Action)
    requires Inv(w)
    ensures Inv(Step(w, a))
  {
    match a
    case End(e, t, reply) => if e in w.eps && w.eps[e].status == Open { EndKeepsInv(w, e, t, reply); }
    case NewEp(e, k) =>
      if e !in w.eps {
        NoCallsYet(w.log, e);
        EndpointsKeepOrder(w.log, w.eps, Step(w, a).eps);
      }
    case NewWorker(_) =>
    case _ => AppendKeepsInv(w, a);
  }

  lemma {:induction false} RunKeepsInv(w: World, acts: seq<Action>)
    requires Inv(w)
    ensures Inv(Run(w, acts))
    decreases |acts|
  {
    if acts != [] {
      StepKeepsInv(w, acts[0]);
      RunKeepsInv(Step(w, acts[0]), acts[1..]);
    }
  }

  /**
   In every run, each endpoint sees one of the allowed call sequences (two calls only for a refused
   disconnect), and no `drop`, `destroy` or `disconnect_nb` reaches UCX once the worker's drop began.
   */
  lemma EveryEndpointEndsOnce(acts: seq<Action>)
    ensures var w := Run(Start, acts);
            && (forall e | e in w.eps :: AllowedCalls(w.eps[e].status, e, CallsOn(w.log, e)))
            && NoCallAfterDrop(w.log, w.eps)
  {
    RunKeepsInv(Start, acts);
  }

  /** No call at all on an endpoint follows the beginning of its worker's drop. */
  ghost predicate NoLateCall(log: seq<Event>, eps: map<nat, Endpoint>) {
    forall i, j | 0 <= j < i < |log| :: !Follows(log[j], log[i], eps)
  }

  /** The close happens: the endpoint is open and the reference passed is to a live worker. */
  predicate TakesEffect(w: World, a: Action) {
    a.Close? && a.e in w.eps && w.eps[a.e].status == Open && FlagUp(w, a.through)
  }

  /** Every `Ep::close` is made while the flag of the endpoint's own worker is up. */
  predicate ClosesWhileAlive(w: World, acts: seq<Action>)
    decreases |acts|
  {
    acts == [] ||
    ((TakesEffect(w, acts[0]) ==> FlagUp(w, w.eps[acts[0].e].worker)) && ClosesWhileAlive(Step(w, acts[0]), acts[1..]))
  }

  /** Every `Ep::close` is given a reference to the endpoint's own worker. */
  predicate ClosesThroughOwnWorker(w: World, acts: seq<Action>)
    decreases |acts|
  {
    acts == [] ||
    ((TakesEffect(w, acts[0]) ==> acts[0].through == w.eps[acts[0].e].worker) &&
     ClosesThroughOwnWorker(Step(w, acts[0]), acts[1..]))
  }

  lemma {:induction false} LoggedExtends(log: seq<Event>, cs: seq<EpCall>)
    ensures log <= Logged(log, cs)
    decreases |cs|
  {
    if cs != [] { LoggedExtends(log + [Called(cs[0], false)], cs[1..]); }
  }

  lemma StepExtends(w: World, a: Action)
    ensures w.log <= Step(w, a).log
    ensures forall e | e in w.eps :: e in Step(w, a).eps && Step(w, a).eps[e].worker == w.eps[e].worker
  {
    if a.End? && a.e in w.eps {
      LoggedExtends(w.log, TeardownCalls(a.t, a.e, FlagUp(w, w.eps[a.e].worker), a.reply));
    }
  }

  lemma LateCallStays(w: World, a: Action)
    requires !NoLateCall(w.log, w.eps)
    ensures !NoLateCall(Step(w, a).log, Step(w, a).eps)
  {
    StepExtends(w, a);
    var i, j :| 0 <= j < i < |w.log| && Follows(w.log[j], w.log[i], w.eps);
    var w' := Step(w, a);
    assert w'.log[i] == w.log[i] && w'.log[j] == w.log[j];
    assert Follows(w'.log[j], w'.log[i], w'.eps);
  }

  lemma {:induction false} LateCallStaysForever(w: World, acts: seq<Action>)
    requires !NoLateCall(w.log, w.eps)
    ensures !NoLateCall(Run(w, acts).log, Run(w, acts).eps)
    decreases |acts|
  {
    if acts != [] {
      LateCallStays(w, acts[0]);
      LateCallStaysForever(Step(w, acts[0]), acts[1..]);
    }
  }

  /** A late call is an explicit close made while the flag is down, and such a close is late. */
  lemma LateExactlyWhenFlagDown(w: World, a: Action)
    requires Inv(w) && NoLateCall(w.log, w.eps)
    ensures NoLateCall(Step(w, a).log, Step(w, a).eps) <==>
            (TakesEffect(w, a) ==> FlagUp(w, w.eps[a.e].worker))
  {
    if TakesEffect(w, a) && !FlagUp(w, w.eps[a.e].worker) { CloseIsLate(w, a); } else { NothingIsLate(w, a); }
  }

  lemma CloseIsLate(w: World, a: Action)
    requires Inv(w) && TakesEffect(w, a) && !FlagUp(w, w.eps[a.e].worker)
    ensures !NoLateCall(Step(w, a).log, Step(w, a).eps)
  {
    var w', k := Step(w, a), w.eps[a.e].worker;
    assert DropBegan(k) in w.log;
    var j :| 0 <= j < |w.log| && w.log[j] == DropBegan(k);
    assert w'.log[j] == DropBegan(k);
    assert Follows(w'.log[j], w'.log[|w.log|], w'.eps);
  }

  lemma NothingIsLate(w: World, a: Action)
    requires Inv(w) && NoLateCall(w.log, w.eps) && (TakesEffect(w, a) ==> FlagUp(w, w.eps[a.e].worker))
    ensures NoLateCall(Step(w, a).log, Step(w, a).eps)
  {
    var w' := Step(w, a);
    forall i, j | 0 <= j < i < |w'.log| ensures !Follows(w'.log[j], w'.log[i], w'.eps) {
      if i < |w.log| {
        OldCallsAreNotLate(w, a, i, j);
      } else if a.End? {
        NewEndIsNotLate(w, a, i, j);
      } else if a.Close? {
        NewCloseIsNotLate(w, a, j);
      }
    }
  }

  lemma OldCallsAreNotLate(w: World, a: Action, i: nat, j: nat)
    requires Inv(w) && NoLateCall(w.log, w.eps) && j < i < |w.log|
    ensures |w.log| <= |Step(w, a).log| && !Follows(Step(w, a).log[j], Step(w, a).log[i], Step(w, a).eps)
  {
    var w' := Step(w, a);
    StepExtends(w, a);
    assert w'.log[i] == w.log[i] && w'.log[j] == w.log[j] && w.log[i] in w.log;
    assert !Follows(w.log[j], w.log[i], w.eps);
  }

  lemma NewCloseIsNotLate(w: World, a: Action, j: nat)
    requires Inv(w) && TakesEffect(w, a) && FlagUp(w, w.eps[a.e].worker) && j < |w.log|
    ensures var w' := Step(w, a); |w'.log| == |w.log| + 1 && !Follows(w'.log[j], w'.log[|w.log|], w'.eps)
  {
    assert w.log[j] in w.log;
  }

  /** A teardown that consults the flag adds only calls that are not explicit closes, which are never late. */
  lemma NewEndIsNotLate(w: World, a: Action, i: nat, j: nat)
    requires Inv(w) && a.End? && |w.log| <= i < |Step(w, a).log| && j < i
    ensures !Follows(Step(w, a).log[j], Step(w, a).log[i], Step(w, a).eps)
  {
    var cs := TeardownCalls(a.t, a.e, FlagUp(w, w.eps[a.e].worker), a.reply);
    EndKeepsOrder(w, a.e, a.t, a.reply);
    LoggedTail(w.log, cs, i);
  }

  lemma {:induction false} LoggedTail(log: seq<Event>, cs: seq<EpCall>, i: nat)
    requires |log| <= i < |Logged(log, cs)|
    ensures Logged(log, cs)[i].Called? && !Logged(log, cs)[i].explicitClose
    decreases |cs|
  {
    if cs != [] {
      var log' := log + [Called(cs[0], false)];
      LoggedExtends(log', cs[1..]);
      if i > |log| { LoggedTail(log', cs[1..], i); }
    }
  }

  /**
   `Ep::close` consults no flag, so a run keeps every call before the drop of its worker if and only
   if each explicit close is made while that worker's flag is still up.
   */
  lemma {:induction false} NoLateCallExactly(w: World, acts: seq<Action>)
    requires Inv(w) && NoLateCall(w.log, w.eps)
    ensures NoLateCall(Run(w, acts).log, Run(w, acts).eps) <==> ClosesWhileAlive(w, acts)
    decreases |acts|
  {
    if acts != [] {
      var w1 := Step(w, acts[0]);
      StepKeepsInv(w, acts[0]);
      LateExactlyWhenFlagDown(w, acts[0]);
      if NoLateCall(w1.log, w1.eps) {
        NoLateCallExactly(w1, acts[1..]);
      } else {
        LateCallStaysForever(w1, acts[1..]);
      }
    }
  }

  /** Passing the endpoint's own worker, as documented, is enough. */
  lemma {:induction false} OwnWorkerIsEnough(w: World, acts: seq<Action>)
    requires ClosesThroughOwnWorker(w, acts)
    ensures ClosesWhileAlive(w, acts)
    decreases |acts|
  {
    if acts != [] { OwnWorkerIsEnough(Step(w, acts[0]), acts[1..]); }
  }

  /** Passing another worker is not: the close then reaches an endpoint of a destroyed worker. */
  lemma OtherWorkerIsNotEnough()
    ensures var acts := [NewWorker(0), NewWorker(1), NewEp(0, 0), BeginDrop(0), FinishDrop(0), Close(0, 1)];
            !NoLateCall(Run(Start, acts).log, Run(Start, acts).eps)
  {
    var gone := World(map[0 := Gone, 1 := Live], map[0 := Endpoint(0, Open)], [DropBegan(0), WorkerDestroyed(0)]);
    DropsFirst(gone, [Close(0, 1)]);
    RunFrom(gone, [Close(0, 1)]);
    var w := Step(gone, Close(0, 1));
    assert w.log[0] == DropBegan(0) && w.log[2] == Called(CloseNbx(0), true);
    assert Follows(w.log[0], w.log[2], w.eps);
  }

  /** One worker of two is gone, and an endpoint of it is still there. */
  lemma DropsFirst(gone: World, rest: seq<Action>)
    requires gone == World(map[0 := Gone, 1 := Live], map[0 := Endpoint(0, Open)], [DropBegan(0), WorkerDestroyed(0)])
    requires |rest| == 1
    ensures Run(Start, [NewWorker(0), NewWorker(1), NewEp(0, 0), BeginDrop(0), FinishDrop(0), rest[0]]) == Run(gone, rest)
  {
    var eps := map[0 := Endpoint(0, Open)];
    var w1 := World(map[0 := Live], map[], []);
    var w2 := World(map[0 := Live, 1 := Live], map[], []);
    var w3 := World(map[0 := Live, 1 := Live], eps, []);
    var w4 := World(map[0 := Dropping, 1 := Live], eps, [DropBegan(0)]);
    assert Step(Start, NewWorker(0)) == w1 && Step(w1, NewWorker(1)) == w2 && Step(w2, NewEp(0, 0)) == w3;
    assert Step(w3, BeginDrop(0)) == w4 && Step(w4, FinishDrop(0)) == gone;
    RunFrom(w4, [FinishDrop(0), rest[0]]);
    RunFrom(w3, [BeginDrop(0), FinishDrop(0), rest[0]]);
    RunFrom(w2, [NewEp(0, 0), BeginDrop(0), FinishDrop(0), rest[0]]);
    RunFrom(w1, [NewWorker(1), NewEp(0, 0), BeginDrop(0), FinishDrop(0), rest[0]]);
    RunFrom(Start, [NewWorker(0), NewWorker(1), NewEp(0, 0), BeginDrop(0), FinishDrop(0), rest[0]]);
    assert [FinishDrop(0), rest[0]][1..] == rest;
  }

  lemma RunFrom(w: World, acts: seq<Action>)
    requires acts != []
    ensures Run(w, acts) == Run(Step(w, acts[0]), acts[1..])
  {
  }
}
