/** How each endpoint ends, from what the program did to it: which calls UCX sees of it, and its final status. */
module EndpointEnds {
  import opened Engine
  import opened Endpoints
  import opened Teardown

  /** The action ends endpoint `e`, which is open in `w`. */
  predicate Ends(w: World, a: Action, e: nat) {
    e in w.eps && w.eps[e].status == Open && ((a.End? && a.e == e) || (TakesEffect(w, a) && a.e == e))
  }

  /** The moment of a run at which `e` ends: the world before it, and the action. */
  datatype Ending = StaysOpen | EndsBy(before: World, a: Action)

  function EndingOf(w: World, acts: seq<Action>, e: nat): Ending
    decreases |acts|
  {
    if acts == [] then StaysOpen
    else if Ends(w, acts[0], e) then EndsBy(w, acts[0])
    else EndingOf(Step(w, acts[0]), acts[1..], e)
  }

  /** The drop of the endpoint's worker had not begun. */
  ghost predicate WorkerUp(w: World, e: nat)
    requires e in w.eps
  {
    DropBegan(w.eps[e].worker) !in w.log
  }

  lemma EndingStep(w: World, a: Action, e: nat)
    requires Inv(w) && Ends(w, a, e)
    ensures var w', up := Step(w, a), WorkerUp(w, e);
            && e in w'.eps
            && (a.Close? ==> CallsOn(w'.log, e) == [CloseNbx(e)] && w'.eps[e].status == Closed)
            && (a.End? && !up ==> CallsOn(w'.log, e) == [] && w'.eps[e].status == Skipped)
            && (a.End? && up && a.t.ByDrop? ==> CallsOn(w'.log, e) == [CloseNbx(e)] && w'.eps[e].status == Closed)
            && (a.End? && up && a.t.ByDestroy? ==> CallsOn(w'.log, e) == [EpDestroy(e)] && w'.eps[e].status == Destroyed)
            && (a.End? && up && a.t.ByDisconnect? && a.reply.Refused? ==>
                  CallsOn(w'.log, e) == [DisconnectNb(e), EpDestroy(e)] && w'.eps[e].status == Destroyed)
            && (a.End? && up && a.t.ByDisconnect? && !a.reply.Refused? ==>
                  CallsOn(w'.log, e) == [DisconnectNb(e)] && w'.eps[e].status == Disconnected)
  {
    assert AllowedCalls(Open, e, CallsOn(w.log, e));
    if a.End? {
      LoggedCalls(w.log, TeardownCalls(a.t, e, FlagUp(w, w.eps[e].worker), a.reply), e, e);
    } else {
      CallsOnAppend(w.log, Called(CloseNbx(e), true), e);
    }
  }

  lemma OtherEnd(w: World, a: Action, e: nat)
    requires !Ends(w, a, e) && a.End?
    ensures CallsOn(Step(w, a).log, e) == CallsOn(w.log, e)
    ensures Step(w, a).eps.Keys == w.eps.Keys && (e in w.eps ==> Step(w, a).eps[e] == w.eps[e])
  {
    if a.e in w.eps && w.eps[a.e].status == Open {
      LoggedCalls(w.log, TeardownCalls(a.t, a.e, FlagUp(w, w.eps[a.e].worker), a.reply), a.e, e);
    }
  }

  lemma OtherEvent(w: World, a: Action, e: nat)
    requires !Ends(w, a, e) && !a.End?
    ensures CallsOn(Step(w, a).log, e) == CallsOn(w.log, e)
  {
    var w' := Step(w, a);
    if |w'.log| > |w.log| { CallsOnAppend(w.log, w'.log[|w.log|], e); }
  }

  /** Any other action leaves the endpoint, if it exists, and the calls on it as they are. */
  lemma OtherStep(w: World, a: Action, e: nat)
    requires !Ends(w, a, e)
    ensures CallsOn(Step(w, a).log, e) == CallsOn(w.log, e)
    ensures e in w.eps ==> e in Step(w, a).eps && Step(w, a).eps[e] == w.eps[e]
    ensures e !in w.eps && e in Step(w, a).eps ==> a.NewEp? && a.e == e && Step(w, a).eps[e] == Endpoint(a.w, Open)
  {
    if a.End? { OtherEnd(w, a, e); } else { OtherEvent(w, a, e); }
  }

  lemma {:induction false} EndedStays(w: World, acts: seq<Action>, e: nat)
    requires e in w.eps && w.eps[e].status != Open
    ensures e in Run(w, acts).eps && Run(w, acts).eps[e] == w.eps[e]
    ensures CallsOn(Run(w, acts).log, e) == CallsOn(w.log, e)
    decreases |acts|
  {
    if acts != [] {
      OtherStep(w, acts[0], e);
      EndedStays(Step(w, acts[0]), acts[1..], e);
    }
  }

  lemma {:induction false} EndsAsItsEnding(w: World, acts: seq<Action>, e: nat)
    requires Inv(w) && (e in w.eps ==> w.eps[e].status == Open) && CallsOn(w.log, e) == []
    requires e in Run(w, acts).eps
    ensures var end, final := EndingOf(w, acts, e), Run(w, acts);
            if end.StaysOpen? then CallsOn(final.log, e) == [] && final.eps[e].status == Open
            else
              var w' := Step(end.before, end.a);
              && Inv(end.before) && Ends(end.before, end.a, e) && e in w'.eps
              && CallsOn(final.log, e) == CallsOn(w'.log, e) && final.eps[e] == w'.eps[e]
    decreases |acts|
  {
    if acts != [] {
      var w1 := Step(w, acts[0]);
      StepKeepsInv(w, acts[0]);
      if Ends(w, acts[0], e) {
        EndingStep(w, acts[0], e);
        EndedStays(w1, acts[1..], e);
      } else {
        OtherStep(w, acts[0], e);
        EndsAsItsEnding(w1, acts[1..], e);
      }
    }
  }

  /**
   In every run, what UCX sees of an endpoint follows from how the program ended it, and from whether the drop of
   its worker had begun then: an explicit close is one close, whatever the flag; with the worker going or gone
   the other three make no call; otherwise a drop is one close, a destroy one destroy, an accepted
   disconnect one disconnect, and a refused disconnect a disconnect followed by a destroy.
   */
  lemma EndpointCallsExactly(acts: seq<Action>, e: nat)
    requires e in Run(Start, acts).eps
    ensures var final := Run(Start, acts);
            var end, calls, status := EndingOf(Start, acts, e), CallsOn(final.log, e), final.eps[e].status;
            if end.StaysOpen? then calls == [] && status == Open
            else
              && e in end.before.eps && (end.a.End? || end.a.Close?)
              && var a, up := end.a, WorkerUp(end.before, e);
                 if a.Close? then calls == [CloseNbx(e)] && status == Closed
                 else if !up then calls == [] && status == Skipped
                 else if a.t.ByDrop? then calls == [CloseNbx(e)] && status == Closed
                 else if a.t.ByDestroy? then calls == [EpDestroy(e)] && status == Destroyed
                 else if a.reply.Refused? then calls == [DisconnectNb(e), EpDestroy(e)] && status == Destroyed
                 else calls == [DisconnectNb(e)] && status == Disconnected
  {
    EndsAsItsEnding(Start, acts, e);
    var end := EndingOf(Start, acts, e);
    if end.EndsBy? { EndingStep(end.before, end.a, e); }
  }

  /** Two calls on one endpoint mean a disconnect that UCX refused while the worker was up, and nothing else does. */
  lemma TwoCallsExactly(acts: seq<Action>, e: nat)
    requires e in Run(Start, acts).eps
    ensures |CallsOn(Run(Start, acts).log, e)| >= 2 <==>
            var end := EndingOf(Start, acts, e);
            end.EndsBy? && end.a.End? && end.a.t.ByDisconnect? && end.a.reply.Refused? &&
            e in end.before.eps && WorkerUp(end.before, e)
  {
    EndpointCallsExactly(acts, e);
  }

  ghost predicate DestroyedMeansGone(w: World) {
    forall k :: WorkerDestroyed(k) in w.log <==> k in w.workers && w.workers[k] == Gone
  }

  lemma StepDestroys(w: World, a: Action)
    requires DestroyedMeansGone(w)
    ensures DestroyedMeansGone(Step(w, a))
  {
    if a.End? && a.e in w.eps {
      LoggedCalls(w.log, TeardownCalls(a.t, a.e, FlagUp(w, w.eps[a.e].worker), a.reply), a.e, a.e);
    }
  }

  /** UCX has destroyed exactly the workers whose drop is complete. */
  lemma {:induction false} DestroyedExactly(w: World, acts: seq<Action>)
    requires DestroyedMeansGone(w)
    ensures DestroyedMeansGone(Run(w, acts))
    decreases |acts|
  {
    if acts != [] {
      StepDestroys(w, acts[0]);
      DestroyedExactly(Step(w, acts[0]), acts[1..]);
    }
  }
}
