/**
 The bounded wait loops of the crate as functions of the engine state, and exactly what they observe:
 a loop sees a request finish iff that happens within its budget of progress calls.
 */
module Polling {
  import opened Wrappers
  import opened StatusCodec
  import opened Engine

  /** Progress budget of every wait loop in the crate. */
  const MAX_PROGRESS := 1_000_000

  datatype Verdict = Finished(result: Result<bool, UcsStatus>) | GaveUp

  function StatusOf(s: State, h: Handle): UcsStatus {
    if h in s.status then s.status[h] else UcsOk
  }

  /**
   `for _ in 0..n { check; progress }`, leaving the loop once the check is not `Ok(false)`. The worker
   that is progressed need not be the one the request belongs to: `own` says whether it is.
   */
  function Poll(s: State, sched: Schedule, own: bool, h: Handle, n: nat): (State, Verdict)
    decreases n
  {
    if n == 0 then (s, GaveUp)
    else
      var seen, r := s.Touch(h), Outcome(StatusOf(s, h));
      if r != Ok(false) then (seen, Finished(r)) else Poll(seen.TickIf(sched, own), sched, own, h, n - 1)
  }

  /** The countdown of tagged requests: check first, then give up once `n` progress calls are spent. */
  function PollTag(s: State, sched: Schedule, own: bool, h: Handle, n: nat): (State, Verdict)
    decreases n
  {
    var seen, r := s.Touch(h), Outcome(StatusOf(s, h));
    if r != Ok(false) then (seen, Finished(r))
    else if n == 0 then (seen, GaveUp)
    else PollTag(seen.TickIf(sched, own), sched, own, h, n - 1)
  }

  /** Progress calls that any of the loops makes on another worker than the request's own. */
  function SpentElsewhere(s: State, slot: Slot, n: nat): nat {
    if slot.Some? && Outcome(StatusOf(s, slot.value)) == Ok(false) then n else 0
  }

  /** Round `i` of such a loop: the other worker has made `i` progress calls, and the request `s` is pending. */
  ghost predicate RoundElsewhere(w0: State, w: State, sched: Schedule, s0: State, s: State, slot: Slot, n: nat, i: nat)
    requires i <= n
  {
    && w.Ticks(sched, n - i) == w0.Ticks(sched, n)
    && (i == 0 ==> w == w0)
    && (i > 0 ==> SpentElsewhere(s0, slot, n) == n)
    && (slot.Some? ==> StatusOf(s, slot.value) == StatusOf(s0, slot.value))
  }

  /** `StreamRequest` and `FetchAmoRequest`, `free` and `drop`: free the request, or leak it. */
  function FinishPoll(s: State, sched: Schedule, own: bool, slot: Slot, n: nat): (r: (State, Slot)) {
    match slot
    case None => (s, None)
    case Some(h) =>
      var (s', v) := Poll(s, sched, own, h, n);
      if v.GaveUp? then (s', Some(h)) else (s'.Free(h), None)
  }

  datatype TagOutcome = Completed(result: Result<(), UcsStatus>) | Aborted

  function Forget<T>(r: Result<bool, T>): Result<(), T> {
    if r.Ok? then Ok(()) else Err(r.error)
  }

  /** `TagRequest`, `free` and `drop`: free the request, or abort the process. */
  function FinishTag(s: State, sched: Schedule, own: bool, slot: Slot, n: nat): (r: (State, TagOutcome)) {
    match slot
    case None => (s, Completed(Ok(())))
    case Some(h) =>
      var (s', v) := PollTag(s, sched, own, h, n);
      if v.GaveUp? then (s', Aborted) else (s'.Free(h), Completed(Forget(v.result)))
  }

  /** `Worker::wait_request`: the request stays with its owner. */
  function WaitFor(s: State, sched: Schedule, own: bool, slot: Slot, n: nat): (r: (State, Result<bool, UcsStatus>)) {
    if n == 0 then (s, Ok(false))
    else match slot
      case None => (s, Ok(true))
      case Some(h) =>
        var (s', v) := Poll(s, sched, own, h, n);
        (s', if v.GaveUp? then Ok(false) else v.result)
  }

  /** `Ep::close` waiting for its close request: freed only on success, leaked on error and timeout. */
  function FinishClose(s: State, sched: Schedule, own: bool, h: Handle, n: nat)
    : (r: (State, Slot, Result<(), UcsStatus>))
  {
    var (s', v) := Poll(s, sched, own, h, n);
    match v
    case GaveUp => (s', Some(h), Err(TimedOut))
    case Finished(Ok(_)) => (s'.Free(h), None, Ok(()))
    case Finished(Err(e)) => (s', Some(h), Err(e))
  }

  /** The flush loop of `Worker::drop`: the request is freed whatever was seen of it. */
  function FinishFlush(s: State, sched: Schedule, h: Handle, n: nat): State {
    Poll(s, sched, true, h, n).0.Free(h)
  }

  /** A worker's farewell: flush, wait for the flush request if there is one, and destroy. */
  function FinishWorker(s: State, sched: Schedule, flush: Reply, n: nat): State {
    var flushing := Call(s, flush);
    (if flush.Posted? then FinishFlush(flushing, sched, s.next, n) else flushing).Destroy()
  }

  /** The operation behind `h` is still in progress after each of 0, 1, ..., n - 1 progress calls. */
  ghost predicate PendingThrough(s: State, sched: Schedule, h: Handle, n: nat) {
    forall j: nat | j < n :: s.Ticks(sched, j).InFlight(h)
  }

  /** The operation behind `h` is first seen finished after exactly `k` progress calls. */
  ghost predicate FinishesAfter(s: State, sched: Schedule, h: Handle, k: nat) {
    PendingThrough(s, sched, h, k) && h in s.status && Terminal(StatusOf(s.Ticks(sched, k), h))
  }

  /** After any number of rounds, either the operation is still in progress or it finished at one point. */
  lemma {:induction false} FinishesOrPending(s: State, sched: Schedule, h: Handle, n: nat)
    requires h in s.status
    ensures PendingThrough(s, sched, h, n) || exists k: nat | k < n :: FinishesAfter(s, sched, h, k)
  {
    if n > 0 {
      FinishesOrPending(s, sched, h, n - 1);
      TicksFrame(s, sched, n - 1);
      if PendingThrough(s, sched, h, n - 1) && !s.Ticks(sched, n - 1).InFlight(h) {
        assert FinishesAfter(s, sched, h, n - 1);
      } else if k: nat :| k < n - 1 && FinishesAfter(s, sched, h, k) {
      }
    }
  }

  /** `FinishesAfter` seen from one progress call later. */
  lemma PendingLater(s: State, sched: Schedule, h: Handle, n: nat)
    requires n > 0 && s.InFlight(h)
    ensures PendingThrough(s, sched, h, n) <==> PendingThrough(s.Tick(sched), sched, h, n - 1)
  {
    forall j: nat | j < n - 1 ensures s.Tick(sched).Ticks(sched, j) == s.Ticks(sched, j + 1) {}
    if PendingThrough(s.Tick(sched), sched, h, n - 1) {
      forall j: nat | j < n ensures s.Ticks(sched, j).InFlight(h) {
        if j > 0 { assert s.Tick(sched).Ticks(sched, j - 1).InFlight(h); }
      }
    }
    if PendingThrough(s, sched, h, n) {
      forall j: nat | j < n - 1 ensures s.Tick(sched).Ticks(sched, j).InFlight(h) {
        assert s.Ticks(sched, j + 1).InFlight(h);
      }
    }
  }

  /** Before it finishes a request is in flight, and one progress call brings the end one call closer. */
  lemma OneCloser(s: State, sched: Schedule, h: Handle, k: nat)
    requires k > 0 && FinishesAfter(s, sched, h, k)
    ensures s.InFlight(h) && FinishesAfter(s.Tick(sched), sched, h, k - 1)
  {
    assert s.Ticks(sched, 0).InFlight(h);
    PendingLater(s, sched, h, k);
  }

  /**
   The budget theorem of the `for` loops. A request that finishes after `k` progress calls is observed
   iff `k < n`, after exactly `k` calls; otherwise the loop gives up after exactly `n`.
   */
  lemma {:induction false} PollExact(s: State, sched: Schedule, h: Handle, n: nat, k: nat)
    requires s.Usable(h) && FinishesAfter(s, sched, h, k)
    ensures Poll(s, sched, true, h, n) ==
            if k < n then (s.Ticks(sched, k), Finished(Outcome(StatusOf(s.Ticks(sched, k), h))))
            else (s.Ticks(sched, n), GaveUp)
    decreases n
  {
    if n > 0 && k > 0 {
      OneCloser(s, sched, h, k);
      PollExact(s.Tick(sched), sched, h, n - 1, k - 1);
    }
  }

  /** A loop that never sees the operation finish spends its whole budget. */
  lemma {:induction false} PollPending(s: State, sched: Schedule, h: Handle, n: nat)
    requires s.Usable(h) && PendingThrough(s, sched, h, n)
    ensures Poll(s, sched, true, h, n) == (s.Ticks(sched, n), GaveUp)
    decreases n
  {
    if n > 0 {
      assert s.Ticks(sched, 0).InFlight(h);
      PendingLater(s, sched, h, n);
      PollPending(s.Tick(sched), sched, h, n - 1);
    }
  }

  /** The tagged countdown is a `for` loop with one more check: it observes the request iff `k <= n`. */
  lemma {:induction false} PollTagExact(s: State, sched: Schedule, h: Handle, n: nat, k: nat)
    requires s.Usable(h) && FinishesAfter(s, sched, h, k)
    ensures PollTag(s, sched, true, h, n) ==
            if k <= n then (s.Ticks(sched, k), Finished(Outcome(StatusOf(s.Ticks(sched, k), h))))
            else (s.Ticks(sched, n), GaveUp)
    decreases n
  {
    if k > 0 {
      OneCloser(s, sched, h, k);
      if n > 0 { PollTagExact(s.Tick(sched), sched, h, n - 1, k - 1); }
    }
  }

  lemma {:induction false} PollTagPending(s: State, sched: Schedule, h: Handle, n: nat)
    requires s.Usable(h) && PendingThrough(s, sched, h, n + 1)
    ensures PollTag(s, sched, true, h, n) == (s.Ticks(sched, n), GaveUp)
    decreases n
  {
    assert s.Ticks(sched, 0).InFlight(h);
    if n > 0 {
      PendingLater(s, sched, h, n + 1);
      PollTagPending(s.Tick(sched), sched, h, n - 1);
    }
  }

  /**
   Progressing another worker never helps: without progress on its own worker a request is as it was
   at the first check, and the loop gives up exactly if it was in progress then.
   */
  lemma {:induction false} ElsewhereExact(s: State, sched: Schedule, h: Handle, n: nat)
    ensures var r := Outcome(StatusOf(s, h));
            && Poll(s, sched, false, h, n) == (if n == 0 then (s, GaveUp)
                                               else (s.Touch(h), if r == Ok(false) then GaveUp else Finished(r)))
            && PollTag(s, sched, false, h, n) == (s.Touch(h), if r == Ok(false) then GaveUp else Finished(r))
    decreases n
  {
    if n > 0 {
      assert s.Touch(h).Touch(h) == s.Touch(h);
      ElsewhereExact(s.Touch(h), sched, h, n - 1);
    }
  }
}
