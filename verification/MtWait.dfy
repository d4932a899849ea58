/**
 `MtWorker::wait_request`: each progress call takes the lock on its own, so other threads get at the
 worker between the rounds of the loop. `others(i)` is what they do before check `i`.
 */
module MtWait {
  import opened Wrappers
  import opened StatusCodec
  import opened Engine
  import opened Polling
  import opened Budget
  import opened Requests

  /** What another thread can do to the worker of the request, through calls on it or on its requests. */
  datatype Deed =
    | Progress
    | Nonblocking(reply: Reply)
    | Check(h: Handle)
    | Cancel(h: Handle)
    | Free(h: Handle)
    | Release(h: Handle)

  function Do(s: State, sched: Schedule, d: Deed): State {
    match d
    case Progress => s.Tick(sched)
    case Nonblocking(reply) => Call(s, reply)
    case Check(h) => s.Touch(h)
    case Cancel(h) => s.Cancel(h)
    case Free(h) => s.Free(h)
    case Release(h) => s.Release(h)
  }

  function DoAll(s: State, sched: Schedule, ds: seq<Deed>): State
    decreases |ds|
  {
    if ds == [] then s else DoAll(Do(s, sched, ds[0]), sched, ds[1..])
  }

  /** Progress calls among the deeds. */
  function Turns(ds: seq<Deed>): nat {
    if ds == [] then 0 else (if ds[0].Progress? then 1 else 0) + Turns(ds[1..])
  }

  /** The request is borrowed by the waiting thread, so nobody else disposes of it. */
  predicate Leaves(ds: seq<Deed>, h: Handle) {
    Free(h) !in ds && Release(h) !in ds
  }

  type Others = nat -> seq<Deed>

  /** The loop from round `i` on, with `n` rounds in all; `own` says whether the request is this worker's. */
  function SharedWait(s: State, sched: Schedule, own: bool, slot: Slot, others: Others, i: nat, n: nat)
    : (r: (State, Result<bool, UcsStatus>))
    decreases n - i
  {
    if i >= n then (s, Ok(false))
    else
      var before := DoAll(s, sched, others(i));
      var seen, result := TouchSlot(before, slot), CheckSlot(before, slot);
      if result != Ok(false) then (seen, result)
      else SharedWait(seen.TickIf(sched, own), sched, own, slot, others, i + 1, n)
  }

  function Step(own: bool): nat { if own then 1 else 0 }

  /** Progress calls, by anybody, before the last check of rounds `i` to `n`. */
  function SeenInAll(own: bool, others: Others, i: nat, n: nat): nat
    requires i < n
    decreases n - i
  {
    Turns(others(i)) + if i + 1 == n then 0 else Step(own) + SeenInAll(own, others, i + 1, n)
  }

  /** Progress calls until the loop stops, for a request that finishes after `k`. */
  function StopsAfter(own: bool, others: Others, i: nat, n: nat, k: nat): nat
    decreases n - i
  {
    if i >= n then 0
    else
      var m := Turns(others(i));
      if k <= m then m else m + Step(own) + StopsAfter(own, others, i + 1, n, k - m - Step(own))
  }

  class MtWorker {
    const inner: Worker

    constructor (worker: Worker)
      ensures inner == worker
    {
      inner := worker;
    }

    method WaitRequest(request: Request, others: Others, budget: nat := MAX_PROGRESS)
      returns (r: Result<bool, UcsStatus>)
      modifies inner.ucx`state, request.ucx`state
      ensures (request.ucx.state, r) ==
              SharedWait(old(request.ucx.state), request.ucx.sched, request.ucx == inner.ucx, request.handle, others, 0,
                         budget)
    {
      ghost var own, s0 := request.ucx == inner.ucx, request.ucx.state;
      for i := 0 to budget
        invariant SharedWait(s0, request.ucx.sched, own, request.handle, others, 0, budget) ==
                  SharedWait(request.ucx.state, request.ucx.sched, own, request.handle, others, i, budget)
      {
        Meanwhile(request.ucx, others(i));
        r := request.CheckFinished();
        match r
        case Ok(true) => return;
        case Ok(false) => inner.Progress();
        case Err(_) => return;
      }
      return Ok(false);
    }

    /** What the other threads do before the next round. */
    method Meanwhile(ucx: UcxWorker, ds: seq<Deed>)
      modifies ucx`state
      ensures ucx.state == DoAll(old(ucx.state), ucx.sched, ds)
    {
      for j := 0 to |ds|
        invariant DoAll(old(ucx.state), ucx.sched, ds) == DoAll(ucx.state, ucx.sched, ds[j..])
      {
        match ds[j]
        case Progress => ucx.Progress();
        case Nonblocking(reply) => var _ := ucx.Nonblocking(reply);
        case Check(h) => var _ := ucx.RequestCheckStatus(h);
        case Cancel(h) => ucx.RequestCancel(h);
        case Free(h) => ucx.RequestFree(h);
        case Release(h) => ucx.RequestRelease(h);
      }
    }
  }

  /** A request of a live worker that is in flight for `k` more progress calls and then ends as `outcome`. */
  ghost predicate Due(s: State, sched: Schedule, h: Handle, k: nat, outcome: UcsStatus) {
    s.Usable(h) && h < s.next && FinishesAfter(s, sched, h, k) && StatusOf(s.Ticks(sched, k), h) == outcome
  }

  lemma DueAfterTick(s: State, sched: Schedule, h: Handle, k: nat, outcome: UcsStatus)
    requires Due(s, sched, h, k, outcome)
    ensures Due(s.Tick(sched), sched, h, Less(k, 1), outcome)
  {
    FinishesEarlier(s, sched, h, k, 1);
    assert s.Ticks(sched, 1) == s.Tick(sched).Ticks(sched, 0) == s.Tick(sched);
  }

  lemma DueAfterDeed(s: State, sched: Schedule, h: Handle, k: nat, outcome: UcsStatus, d: Deed)
    requires Due(s, sched, h, k, outcome) && d != Free(h) && d != Release(h)
    ensures Due(Do(s, sched, d), sched, h, Less(k, Turns([d])), outcome)
    ensures Do(s, sched, d).clock == s.clock + Turns([d])
  {
    if d.Progress? {
      DueAfterTick(s, sched, h, k, outcome);
    } else {
      SameFuture(s, Do(s, sched, d), sched, h, k);
    }
  }

  /** Whatever other threads do, the request comes closer to its end by the progress calls among it. */
  lemma {:induction false} DueAfterAll(s: State, sched: Schedule, h: Handle, k: nat, outcome: UcsStatus, ds: seq<Deed>)
    requires Due(s, sched, h, k, outcome) && Leaves(ds, h)
    ensures Due(DoAll(s, sched, ds), sched, h, Less(k, Turns(ds)), outcome)
    ensures DoAll(s, sched, ds).clock == s.clock + Turns(ds)
    decreases |ds|
  {
    if ds != [] {
      DueAfterDeed(s, sched, h, k, outcome, ds[0]);
      var now := Less(k, Turns([ds[0]]));
      assert Less(now, Turns(ds[1..])) == Less(k, Turns(ds));
      DueAfterAll(Do(s, sched, ds[0]), sched, h, now, outcome, ds[1..]);
    }
  }

  /** How a wait that began at `clock` ended: after `stops` progress calls, with or without seeing the outcome. */
  predicate EndedAs(ended: (State, Result<bool, UcsStatus>), clock: nat, h: Handle, stops: nat, seen: bool,
                    outcome: UcsStatus)
  {
    && ended.0.clock == clock + stops
    && ended.1 == (if seen then Outcome(outcome) else Ok(false))
    && h in ended.0.live
  }

  predicate Sees(own: bool, others: Others, i: nat, n: nat, k: nat) {
    i < n && k <= SeenInAll(own, others, i, n)
  }

  /**
   Under any interference that leaves the borrowed request alone, the wait observes a request that
   finishes after `k` progress calls of anybody iff that many have been made before its last check,
   then stops at the first check after them; otherwise it answers `Ok(false)` after all rounds.
   */
  lemma {:induction false} SharedWaitExact(s: State, sched: Schedule, own: bool, h: Handle, others: Others, i: nat, n: nat,
                                           k: nat, outcome: UcsStatus)
    requires i <= n && Due(s, sched, h, k, outcome) && forall j :: Leaves(others(j), h)
    ensures EndedAs(SharedWait(s, sched, own, Some(h), others, i, n), s.clock, h,
                    StopsAfter(own, others, i, n, k), Sees(own, others, i, n, k), outcome)
    decreases n - i
  {
    if i < n {
      var m := Turns(others(i));
      if k <= m {
        LastRound(s, sched, own, h, others, i, n, k, outcome);
      } else {
        var next, later := DoAll(s, sched, others(i)).TickIf(sched, own), k - m - Step(own);
        OneRound(s, sched, own, h, others, i, n, k, later, outcome);
        SharedWaitExact(next, sched, own, h, others, i + 1, n, later, outcome);
        RoundsAdd(own, others, i, n, k, later);
      }
    }
  }

  /** A round whose check comes at or past the end of the operation. */
  lemma LastRound(s: State, sched: Schedule, own: bool, h: Handle, others: Others, i: nat, n: nat, k: nat,
                  outcome: UcsStatus)
    requires i < n && Due(s, sched, h, k, outcome) && Leaves(others(i), h) && k <= Turns(others(i))
    ensures EndedAs(SharedWait(s, sched, own, Some(h), others, i, n), s.clock, h,
                    StopsAfter(own, others, i, n, k), Sees(own, others, i, n, k), outcome)
  {
    DueAfterAll(s, sched, h, k, outcome, others(i));
    CheckWhenDue(DoAll(s, sched, others(i)), sched, h, outcome);
  }

  /** A round whose check comes too early: the loop goes on where the round's own progress call leaves it. */
  lemma OneRound(s: State, sched: Schedule, own: bool, h: Handle, others: Others, i: nat, n: nat, k: nat, later: nat,
                 outcome: UcsStatus)
    requires i < n && Due(s, sched, h, k, outcome) && Leaves(others(i), h)
    requires k > Turns(others(i)) && later == k - Turns(others(i)) - Step(own)
    ensures var next := DoAll(s, sched, others(i)).TickIf(sched, own);
            && SharedWait(s, sched, own, Some(h), others, i, n) == SharedWait(next, sched, own, Some(h), others, i + 1, n)
            && Due(next, sched, h, later, outcome)
            && next.clock == s.clock + Turns(others(i)) + Step(own)
  {
    var before, m := DoAll(s, sched, others(i)), Turns(others(i));
    DueAfterAll(s, sched, h, k, outcome, others(i));
    CheckTooEarly(before, sched, own, h, Less(k, m), later, outcome);
  }

  lemma RoundsAdd(own: bool, others: Others, i: nat, n: nat, k: nat, later: nat)
    requires i < n && k > Turns(others(i)) && later == k - Turns(others(i)) - Step(own)
    ensures StopsAfter(own, others, i, n, k) == Turns(others(i)) + Step(own) + StopsAfter(own, others, i + 1, n, later)
    ensures Sees(own, others, i, n, k) <==> Sees(own, others, i + 1, n, later)
  {
  }

  lemma CheckWhenDue(s: State, sched: Schedule, h: Handle, outcome: UcsStatus)
    requires Due(s, sched, h, 0, outcome)
    ensures s.Touch(h) == s && CheckSlot(s, Some(h)) == Outcome(outcome) != Ok(false)
  {
    assert s.Ticks(sched, 0) == s;
  }

  lemma CheckTooEarly(s: State, sched: Schedule, own: bool, h: Handle, k: nat, later: nat, outcome: UcsStatus)
    requires Due(s, sched, h, k, outcome) && k > 0 && later == k - Step(own)
    ensures s.Touch(h) == s && CheckSlot(s, Some(h)) == Ok(false)
    ensures Due(s.TickIf(sched, own), sched, h, later, outcome)
  {
    OneCloser(s, sched, h, k);
    if own { DueAfterTick(s, sched, h, k, outcome); }
  }

  /** Interference only helps: the rounds of the loop are among the progress calls it sees. */
  lemma {:induction false} OthersOnlyHelp(others: Others, i: nat, n: nat)
    requires i < n
    ensures SeenInAll(true, others, i, n) >= n - i - 1
    decreases n - i
  {
    if i + 1 < n { OthersOnlyHelp(others, i + 1, n); }
  }

  lemma {:induction false} AloneIsPoll(s: State, sched: Schedule, own: bool, h: Handle, others: Others, i: nat, n: nat)
    requires i <= n && forall j :: others(j) == []
    ensures var (s', v) := Poll(s, sched, own, h, n - i);
            SharedWait(s, sched, own, Some(h), others, i, n) == (s', if v.GaveUp? then Ok(false) else v.result)
    decreases n - i
  {
    if i < n {
      assert others(i) == [] && DoAll(s, sched, others(i)) == s;
      AloneIsPoll(s.Touch(h).TickIf(sched, own), sched, own, h, others, i + 1, n);
    }
  }

  /** With nobody else around, this is `Worker::wait_request`. */
  lemma AloneIsWaitFor(s: State, sched: Schedule, own: bool, slot: Slot, others: Others, n: nat)
    requires forall j :: others(j) == []
    ensures SharedWait(s, sched, own, slot, others, 0, n) == WaitFor(s, sched, own, slot, n)
  {
    if slot.Some? {
      AloneIsPoll(s, sched, own, slot.value, others, 0, n);
    } else {
      assert others(0) == [] && DoAll(s, sched, others(0)) == s;
    }
  }
}
