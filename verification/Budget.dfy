/** What the budget theorem means for each operation, and for many guards sharing one worker. */
module Budget {
  import opened Wrappers
  import opened StatusCodec
  import opened Engine
  import opened Polling

  /** What each wait loop with budget `n` does with a request that finishes after `k` progress calls. */
  lemma EveryLoopAtItsBudget(s: State, sched: Schedule, h: Handle, n: nat, k: nat)
    requires s.Usable(h) && FinishesAfter(s, sched, h, k)
    ensures var seen, spent := s.Ticks(sched, k), s.Ticks(sched, n);
            var r := Outcome(StatusOf(seen, h));
            && FinishPoll(s, sched, true, Some(h), n) == (if k < n then (seen.Free(h), None) else (spent, Some(h)))
            && WaitFor(s, sched, true, Some(h), n) == (if k < n then (seen, r) else (spent, Ok(false)))
            && FinishClose(s, sched, true, h, n) == (if k >= n then (spent, Some(h), Err(TimedOut))
                                                     else if r.Ok? then (seen.Free(h), None, Ok(()))
                                                     else (seen, Some(h), Err(r.error)))
            && FinishFlush(s, sched, h, n) == (if k < n then seen else spent).Free(h)
            && FinishTag(s, sched, true, Some(h), n) == (if k <= n then (seen.Free(h), Completed(Forget(r)))
                                                         else (spent, Aborted))
  {
    PollExact(s, sched, h, n, k);
    PollTagExact(s, sched, h, n, k);
    assert s.Ticks(sched, 0) == s;
  }

  /** With the budget the crate uses: the millionth progress call is one too late, except for tags. */
  lemma CrateBudget(s: State, sched: Schedule, h: Handle, k: nat)
    requires s.Usable(h) && FinishesAfter(s, sched, h, k)
    ensures FinishPoll(s, sched, true, Some(h), MAX_PROGRESS).1 == None <==> k <= 999_999
    ensures FinishTag(s, sched, true, Some(h), MAX_PROGRESS).1 != Aborted <==> k <= 1_000_000
  {
    EveryLoopAtItsBudget(s, sched, h, MAX_PROGRESS, k);
  }

  /** Giving up happens in no other case: exactly when the operation stays in progress all along. */
  lemma GivesUpExactlyWhenPending(s: State, sched: Schedule, h: Handle, n: nat)
    requires s.Usable(h)
    ensures FinishPoll(s, sched, true, Some(h), n).1 == Some(h) <==> PendingThrough(s, sched, h, n)
    ensures FinishTag(s, sched, true, Some(h), n).1 == Aborted <==> PendingThrough(s, sched, h, n + 1)
    ensures n > 0 ==> (WaitFor(s, sched, true, Some(h), n).1 == Ok(false) <==> PendingThrough(s, sched, h, n))
  {
    FinishesOrPending(s, sched, h, n);
    FinishesOrPending(s, sched, h, n + 1);
    if PendingThrough(s, sched, h, n) { PollPending(s, sched, h, n); }
    if PendingThrough(s, sched, h, n + 1) { PollTagPending(s, sched, h, n); }
    if k: nat :| k < n && FinishesAfter(s, sched, h, k) {
      EveryLoopAtItsBudget(s, sched, h, n, k);
      assert !s.Ticks(sched, k).InFlight(h);
    }
    if k: nat :| k < n + 1 && FinishesAfter(s, sched, h, k) {
      EveryLoopAtItsBudget(s, sched, h, n, k);
      assert !s.Ticks(sched, k).InFlight(h);
    }
  }

  /**
   A loop that progresses another worker than the request's own: a request in flight stays in flight, so
   it is leaked, reported pending, timed out or fatal; one that is finished is seen at the first check.
   */
  lemma OtherWorkerNeverHelps(s: State, sched: Schedule, h: Handle, n: nat)
    requires s.Usable(h)
    ensures var r, blind := Outcome(StatusOf(s, h)), n == 0 || s.InFlight(h);
            && FinishPoll(s, sched, false, Some(h), n) == (if blind then (s, Some(h)) else (s.Free(h), None))
            && WaitFor(s, sched, false, Some(h), n) == (s, if blind then Ok(false) else r)
            && FinishClose(s, sched, false, h, n) == (if blind then (s, Some(h), Err(TimedOut))
                                                      else if r.Ok? then (s.Free(h), None, Ok(()))
                                                      else (s, Some(h), Err(r.error)))
            && FinishTag(s, sched, false, Some(h), n) == (if s.InFlight(h) then (s, Aborted)
                                                          else (s.Free(h), Completed(Forget(r))))
  {
    ElsewhereExact(s, sched, h, n);
  }

  /** The end of a worker whose flush was posted as the next handle and waited for with `spent` progress calls. */
  ghost predicate EndedAfter(s: State, sched: Schedule, status: UcsStatus, spent: nat, end: State) {
    && end.clock == s.clock + spent
    && end.status == s.Post(status).Ticks(sched, spent).status
    && end.next == s.next + 1 && end.live == s.live - {s.next}
    && end.freed == s.freed + [s.next] && end.released == s.released && end.cancelled == s.cancelled
    && end.gone && end.late == s.late && end.misuse == s.misuse
  }

  /**
   What dropping a worker does. A posted flush that finishes after `k` progress calls is waited for with that
   many, or with the whole budget if that is less; then its request alone is freed and the worker destroyed.
   A flush that stays pending costs the budget; one answered at once costs nothing.
   */
  lemma WorkerDropExact(s: State, sched: Schedule, status: UcsStatus, n: nat)
    requires !s.gone && s.next !in s.status && s.next !in s.live
    ensures forall k: nat | FinishesAfter(s.Post(status), sched, s.next, k) ::
              EndedAfter(s, sched, status, if k < n then k else n, FinishWorker(s, sched, Posted(status), n))
    ensures PendingThrough(s.Post(status), sched, s.next, n) ==>
              EndedAfter(s, sched, status, n, FinishWorker(s, sched, Posted(status), n))
    ensures FinishWorker(s, sched, Now, n) == s.(gone := true)
    ensures forall e :: FinishWorker(s, sched, Refused(e), n) == s.(gone := true)
  {
    var s0 := s.Post(status);
    forall k: nat | FinishesAfter(s0, sched, s.next, k)
      ensures EndedAfter(s, sched, status, if k < n then k else n, FinishWorker(s, sched, Posted(status), n))
    {
      EveryLoopAtItsBudget(s0, sched, s.next, n, k);
      EndsAfterFlush(s, sched, status, n, if k < n then k else n);
    }
    if PendingThrough(s0, sched, s.next, n) {
      PollPending(s0, sched, s.next, n);
      EndsAfterFlush(s, sched, status, n, n);
    }
  }

  lemma EndsAfterFlush(s: State, sched: Schedule, status: UcsStatus, n: nat, spent: nat)
    requires !s.gone && s.next !in s.status && s.next !in s.live
    requires FinishFlush(s.Post(status), sched, s.next, n) == s.Post(status).Ticks(sched, spent).Free(s.next)
    ensures EndedAfter(s, sched, status, spent, FinishWorker(s, sched, Posted(status), n))
  {
    TicksFrame(s.Post(status), sched, spent);
  }

  /** An empty guard, request or wait does nothing, and counts as finished. */
  lemma EmptyIsFinished(s: State, sched: Schedule, own: bool, n: nat)
    ensures FinishPoll(s, sched, own, None, n) == (s, None)
    ensures FinishTag(s, sched, own, None, n) == (s, Completed(Ok(())))
    ensures n > 0 ==> WaitFor(s, sched, own, None, n) == (s, Ok(true))
  {
  }

  /** A guard about to be dropped: its request, and whether it is a tagged one. */
  datatype Held = Held(h: Handle, tag: bool)

  /** What a drop comes to; `Killed` is the process aborting. */
  datatype Fate = Freed | Leaked | Killed

  /** Dropping one guard. */
  function DropOne(s: State, sched: Schedule, g: Held, n: nat): (State, Fate) {
    if g.tag then
      var (s', outcome) := FinishTag(s, sched, true, Some(g.h), n);
      (s', if outcome == Aborted then Killed else Freed)
    else
      var (s', left) := FinishPoll(s, sched, true, Some(g.h), n);
      (s', if left.Some? then Leaked else Freed)
  }

  /** Guards of one worker, dropped one after the other, until all are gone or the process is. */
  function DropAll(s: State, sched: Schedule, gs: seq<Held>, n: nat): (State, seq<Fate>)
    decreases |gs|
  {
    if gs == [] then (s, [])
    else
      var (s1, fate) := DropOne(s, sched, gs[0], n);
      if fate == Killed then (s1, [fate])
      else
        var (s2, fates) := DropAll(s1, sched, gs[1..], n);
        (s2, [fate] + fates)
  }

  /** Progress calls that one drop spends on a request that finishes after `k`. */
  function Spent(k: nat, n: nat): nat { if k < n then k else n }

  /** A finishing time, seen `m` progress calls later. */
  function Less(k: nat, m: nat): nat { if k > m then k - m else 0 }

  /** The finishing times `ks`, seen `m` progress calls later. */
  function Later(ks: seq<nat>, m: nat): seq<nat> {
    seq(|ks|, i requires 0 <= i < |ks| => Less(ks[i], m))
  }

  function FateOf(k: nat, tag: bool, n: nat): Fate {
    if k < n || (tag && k == n) then Freed else if tag then Killed else Leaked
  }

  /** The fate of each guard, from the finishing times alone. */
  function Fates(ks: seq<nat>, gs: seq<Held>, n: nat): seq<Fate>
    requires |ks| == |gs|
    decreases |ks|
  {
    if ks == [] then []
    else
      var fate := FateOf(ks[0], gs[0].tag, n);
      if fate == Killed then [fate] else [fate] + Fates(Later(ks[1..], Spent(ks[0], n)), gs[1..], n)
  }

  /** Progress calls that all drops together spend. */
  function TotalSpent(ks: seq<nat>, gs: seq<Held>, n: nat): nat
    requires |ks| == |gs|
    decreases |ks|
  {
    if ks == [] then 0
    else if FateOf(ks[0], gs[0].tag, n) == Killed then Spent(ks[0], n)
    else Spent(ks[0], n) + TotalSpent(Later(ks[1..], Spent(ks[0], n)), gs[1..], n)
  }

  /** Every progress call counts: after `m` of them the request needs `m` fewer, and ends no differently. */
  lemma {:induction false} FinishesEarlier(s: State, sched: Schedule, h: Handle, k: nat, m: nat)
    requires FinishesAfter(s, sched, h, k)
    ensures FinishesAfter(s.Ticks(sched, m), sched, h, Less(k, m))
    ensures StatusOf(s.Ticks(sched, m).Ticks(sched, Less(k, m)), h) == StatusOf(s.Ticks(sched, k), h)
    decreases m
  {
    if m > 0 {
      var next, k1 := s.Tick(sched), Less(k, 1);
      OneTickEarlier(s, sched, h, k, next, k1);
      FinishesEarlier(next, sched, h, k1, m - 1);
      assert s.Ticks(sched, m) == next.Ticks(sched, m - 1) && Less(k, m) == Less(k1, m - 1);
    } else {
      assert s.Ticks(sched, m) == s;
    }
  }

  lemma OneTickEarlier(s: State, sched: Schedule, h: Handle, k: nat, next: State, k1: nat)
    requires FinishesAfter(s, sched, h, k) && next == s.Tick(sched) && k1 == Less(k, 1)
    ensures FinishesAfter(next, sched, h, k1)
    ensures StatusOf(next.Ticks(sched, k1), h) == StatusOf(s.Ticks(sched, k), h)
  {
    if k > 0 { OneCloser(s, sched, h, k); } else { StaysFinished(s, sched, h); }
  }

  lemma StaysFinished(s: State, sched: Schedule, h: Handle)
    requires FinishesAfter(s, sched, h, 0)
    ensures FinishesAfter(s.Tick(sched), sched, h, 0)
    ensures StatusOf(s.Tick(sched).Ticks(sched, 0), h) == StatusOf(s.Ticks(sched, 0), h)
  {
    assert s.Ticks(sched, 0) == s && s.Tick(sched).Ticks(sched, 0) == s.Tick(sched);
  }

  /** When a request finishes depends on its own status and on the clock only. */
  lemma SameFuture(s: State, t: State, sched: Schedule, h: Handle, k: nat)
    requires h in s.status && h in t.status && s.status[h] == t.status[h] && s.clock == t.clock
    requires FinishesAfter(s, sched, h, k)
    ensures FinishesAfter(t, sched, h, k) && StatusOf(t.Ticks(sched, k), h) == StatusOf(s.Ticks(sched, k), h)
  {
    TicksOfOne(s, t, sched, h, k);
    forall j: nat | j < k ensures t.Ticks(sched, j).InFlight(h) {
      assert s.Ticks(sched, j).InFlight(h);
      TicksOfOne(s, t, sched, h, j);
    }
  }

  /** The state after one drop, freed handle aside, is that of the progress calls it spent. */
  lemma DropOneExact(s: State, sched: Schedule, g: Held, k: nat, n: nat)
    requires s.Usable(g.h) && FinishesAfter(s, sched, g.h, k)
    ensures var (s1, fate) := DropOne(s, sched, g, n);
            var spent := s.Ticks(sched, Spent(k, n));
            fate == FateOf(k, g.tag, n) && s1 == if fate == Freed then spent.Free(g.h) else spent
  {
    EveryLoopAtItsBudget(s, sched, g.h, n, k);
  }

  /** It brings the requests of the other guards closer to their end, and does nothing else to them. */
  lemma OtherGuardsShift(s: State, sched: Schedule, g: Held, kg: nat, h: Handle, k: nat, n: nat)
    requires s.Usable(g.h) && FinishesAfter(s, sched, g.h, kg)
    requires h != g.h && s.Usable(h) && FinishesAfter(s, sched, h, k)
    ensures var s1, m := DropOne(s, sched, g, n).0, Spent(kg, n);
            s1.Usable(h) && FinishesAfter(s1, sched, h, Less(k, m))
  {
    var m := Spent(kg, n);
    DropOneExact(s, sched, g, kg, n);
    TicksFrame(s, sched, m);
    FinishesEarlier(s, sched, h, k, m);
    SameFuture(s.Ticks(sched, m), DropOne(s, sched, g, n).0, sched, h, Less(k, m));
  }

  ghost predicate GuardReady(s: State, sched: Schedule, g: Held, k: nat) {
    s.Usable(g.h) && FinishesAfter(s, sched, g.h, k)
  }

  predicate Distinct(gs: seq<Held>) {
    forall i, j | 0 <= i < j < |gs| :: gs[i].h != gs[j].h
  }

  /** Guards for different live requests, with their finishing times. */
  ghost predicate Ready(s: State, sched: Schedule, gs: seq<Held>, ks: seq<nat>) {
    && |gs| == |ks|
    && Distinct(gs)
    && (forall i | 0 <= i < |gs| :: GuardReady(s, sched, gs[i], ks[i]))
  }

  /** After dropping the first guard the others are ready, with their times shifted. */
  lemma RestIsReady(s: State, sched: Schedule, gs: seq<Held>, ks: seq<nat>, n: nat)
    requires Ready(s, sched, gs, ks) && gs != []
    ensures Ready(DropOne(s, sched, gs[0], n).0, sched, gs[1..], Later(ks[1..], Spent(ks[0], n)))
  {
    var s1, gs', ks' := DropOne(s, sched, gs[0], n).0, gs[1..], Later(ks[1..], Spent(ks[0], n));
    assert Distinct(gs') by { forall i, j | 0 <= i < j < |gs'| ensures gs'[i].h != gs'[j].h {} }
    forall i | 0 <= i < |gs'| ensures GuardReady(s1, sched, gs'[i], ks'[i]) {
      OtherIsReady(s, sched, gs, ks, n, i + 1);
      assert gs'[i] == gs[i + 1] && ks'[i] == Less(ks[i + 1], Spent(ks[0], n));
    }
  }

  lemma OtherIsReady(s: State, sched: Schedule, gs: seq<Held>, ks: seq<nat>, n: nat, i: nat)
    requires Ready(s, sched, gs, ks) && 0 < i < |gs|
    ensures GuardReady(DropOne(s, sched, gs[0], n).0, sched, gs[i], Less(ks[i], Spent(ks[0], n)))
  {
    assert GuardReady(s, sched, gs[0], ks[0]) && GuardReady(s, sched, gs[i], ks[i]);
    OtherGuardsShift(s, sched, gs[0], ks[0], gs[i].h, ks[i], n);
  }

  lemma ClockAfterOne(s: State, sched: Schedule, g: Held, k: nat, n: nat)
    requires s.Usable(g.h) && FinishesAfter(s, sched, g.h, k)
    ensures DropOne(s, sched, g, n).0.clock == s.clock + Spent(k, n)
  {
    DropOneExact(s, sched, g, k, n);
    TicksFrame(s, sched, Spent(k, n));
  }

  /**
   Any number of stream, fetch-AMO and tagged guards on one worker, dropped in any order: which
   requests are freed, which are leaked, whether the process aborts, and how many progress calls it
   takes, all follow from the finishing times.
   */
  lemma {:induction false} DropAllExact(s: State, sched: Schedule, gs: seq<Held>, ks: seq<nat>, n: nat)
    requires Ready(s, sched, gs, ks)
    ensures DropAll(s, sched, gs, n).1 == Fates(ks, gs, n)
    ensures DropAll(s, sched, gs, n).0.clock == s.clock + TotalSpent(ks, gs, n)
    decreases |gs|
  {
    if gs != [] {
      assert GuardReady(s, sched, gs[0], ks[0]);
      RestIsReady(s, sched, gs, ks, n);
      DropOneExact(s, sched, gs[0], ks[0], n);
      ClockAfterOne(s, sched, gs[0], ks[0], n);
      DropAllExact(DropOne(s, sched, gs[0], n).0, sched, gs[1..], Later(ks[1..], Spent(ks[0], n)), n);
    }
  }

  /** Dropping the first `i` guards, and the progress calls that took. */
  function ClockAfter(s: State, sched: Schedule, gs: seq<Held>, n: nat, i: nat): nat
    requires i <= |gs|
  {
    DropAll(s, sched, gs[..i], n).0.clock
  }

  /** What becomes of guard `i` of `count`, whose request needs `left` more progress calls when its turn comes. */
  predicate FateFits(fates: seq<Fate>, i: nat, count: nat, tag: bool, left: nat, n: nat)
    requires i < |fates|
  {
    && (fates[i] == Freed <==> left < n || (tag && left == n))
    && (fates[i] == Killed <==> tag && left > n)
    && (i + 1 < |fates| ==> fates[i] != Killed)
    && (i + 1 == |fates| ==> i + 1 == count || fates[i] == Killed)
  }

  /**
   The fate of each guard, one by one: what its own loop makes of the time left when its turn comes. The
   first process abort ends the sequence, and nothing else does.
   */
  lemma {:induction false} EachFate(s: State, sched: Schedule, gs: seq<Held>, ks: seq<nat>, n: nat, i: nat)
    requires Ready(s, sched, gs, ks) && i < |DropAll(s, sched, gs, n).1|
    ensures i < |gs| && ClockAfter(s, sched, gs, n, i) >= s.clock
    ensures FateFits(DropAll(s, sched, gs, n).1, i, |gs|, gs[i].tag,
                     Less(ks[i], ClockAfter(s, sched, gs, n, i) - s.clock), n)
    decreases i
  {
    if i == 0 {
      FirstFate(s, sched, gs, ks, n);
    } else {
      var s1, m := DropOne(s, sched, gs[0], n).0, Spent(ks[0], n);
      DropAllStep(s, sched, gs, n);
      RestIsReady(s, sched, gs, ks, n);
      EachFate(s1, sched, gs[1..], Later(ks[1..], m), n, i - 1);
      ClockSplits(s, sched, gs, ks, n, i);
      var before := ClockAfter(s1, sched, gs[1..], n, i - 1) - s1.clock;
      assert Later(ks[1..], m)[i - 1] == Less(ks[i], m);
      assert Less(Less(ks[i], m), before) == Less(ks[i], ClockAfter(s, sched, gs, n, i) - s.clock);
      FateShifts(DropAll(s1, sched, gs[1..], n).1, DropOne(s, sched, gs[0], n).1, i - 1, |gs| - 1, gs[i].tag,
                 Less(Less(ks[i], m), before), n);
    }
  }

  lemma FirstFate(s: State, sched: Schedule, gs: seq<Held>, ks: seq<nat>, n: nat)
    requires Ready(s, sched, gs, ks) && gs != []
    ensures DropAll(s, sched, gs, n).1 != [] && ClockAfter(s, sched, gs, n, 0) == s.clock
    ensures FateFits(DropAll(s, sched, gs, n).1, 0, |gs|, gs[0].tag, ks[0], n)
  {
    assert GuardReady(s, sched, gs[0], ks[0]);
    DropOneExact(s, sched, gs[0], ks[0], n);
    DropAllStep(s, sched, gs, n);
    assert gs[..0] == [];
    if |gs| > 1 && DropOne(s, sched, gs[0], n).1 != Killed {
      DropAllStep(DropOne(s, sched, gs[0], n).0, sched, gs[1..], n);
    }
  }

  /** The first drop, then the rest unless the process is gone. */
  lemma DropAllStep(s: State, sched: Schedule, gs: seq<Held>, n: nat)
    requires gs != []
    ensures var (s1, fate) := DropOne(s, sched, gs[0], n);
            DropAll(s, sched, gs, n).1 == [fate] + if fate == Killed then [] else DropAll(s1, sched, gs[1..], n).1
  {
  }

  lemma FateShifts(fates: seq<Fate>, first: Fate, i: nat, count: nat, tag: bool, left: nat, n: nat)
    requires i < |fates| && FateFits(fates, i, count, tag, left, n)
    ensures FateFits([first] + fates, i + 1, count + 1, tag, left, n)
  {
  }

  lemma ClockSplits(s: State, sched: Schedule, gs: seq<Held>, ks: seq<nat>, n: nat, i: nat)
    requires Ready(s, sched, gs, ks) && 0 < i < |gs| && DropOne(s, sched, gs[0], n).1 != Killed
    ensures var s1 := DropOne(s, sched, gs[0], n).0;
            && ClockAfter(s, sched, gs, n, i) == ClockAfter(s1, sched, gs[1..], n, i - 1)
            && s1.clock == s.clock + Spent(ks[0], n)
  {
    assert GuardReady(s, sched, gs[0], ks[0]);
    ClockAfterOne(s, sched, gs[0], ks[0], n);
    assert gs[..i][1..] == gs[1..][..i - 1] && gs[..i][0] == gs[0];
  }
}
