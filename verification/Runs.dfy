/**
 Every run of the request protocol on one worker: any number of guards and bare requests, any order
 of calls, any completion schedule. The effect of each call is the one proved of its method.
 */
module Runs {
  import opened Wrappers
  import opened StatusCodec
  import opened Engine
  import opened Polling
  import opened Requests

  datatype Kind = Stream | FetchAmo | Tag

  /**
   A value of the program that may hold a request handle. A guard borrows the worker it was given, which
   is the request's own one or, since nothing checks that, another.
   */
  datatype Owner = Guard(kind: Kind, own: bool, slot: Slot) | Bare(slot: Slot)

  /** A buffer lent to the operation of a request, through the guard with that number. */
  datatype Loan = Loan(guard: nat, kind: Kind)

  datatype World = World(
    ucx: State,
    owners: map<nat, Owner>,      // values alive in the program
    nextOwner: nat,
    holder: map<Handle, nat>,     // the last owner each posted handle had
    loans: map<Handle, Loan>,     // for each request posted through a guard
    leaked: set<Handle>,          // handles passed to mem::forget
    escaped: set<Handle>,         // handles taken out of a guard, or forgotten together with it
    aborted: bool)                // the process is gone

  const Start := World(Initial, map[], 0, map[], map[], {}, {}, false)

  datatype Action =
    | PostGuarded(kind: Kind, own: bool, reply: Reply)  // stream, tagged and fetch-AMO operations
    | PostBare(reply: Reply)                 // operations returning a bare request; closes and flushes
    | Progress                               // of this worker, by whatever call
    | DropWorker(flush: Reply)
    | Check(owner: nat)
    | CancelOnly(owner: nat)                 // Worker::cancel_request
    | Cancel(owner: nat)                     // Request::cancel
    | Release(owner: nat)                    // Request::release
    | Wait(owner: nat, own: bool)            // wait_request of this worker or another
    | AwaitClose(owner: nat, own: bool)      // the rest of Ep::close
    | Free(owner: nat)                       // Request::free, or the guard's free
    | Drop(owner: nat)
    | Abandon(owner: nat)                    // Ep::drop, leaving its close request behind
    | Forget(owner: nat)                     // mem::forget by the program, of any owner
    | IntoInner(owner: nat)                  // the guard's unsafe into_inner

  /** Posting. A guard of an operation that completed at once is empty (a send then returns no guard at all). */
  function Posting(w: World, reply: Reply, owner: Owner): World {
    match CallResult(w.ucx, reply)
    case Err(_) => w.(ucx := Call(w.ucx, reply))
    case Ok(slot) =>
      w.(ucx := Call(w.ucx, reply),
         owners := w.owners[w.nextOwner := owner.(slot := slot)],
         nextOwner := w.nextOwner + 1,
         holder := if slot.Some? then w.holder[slot.value := w.nextOwner] else w.holder,
         loans := if owner.Guard? && slot.Some? then w.loans[slot.value := Loan(w.nextOwner, owner.kind)] else w.loans)
  }

  /** A guard's `free` or `drop`; the two have the same effect, since after `free` the drop finds no handle. */
  function Finish(w: World, sched: Schedule, n: nat, id: nat, kind: Kind, own: bool, slot: Slot): World {
    if kind.Tag? then
      var (s, outcome) := FinishTag(w.ucx, sched, own, slot, n);
      if outcome == Aborted then w.(ucx := s, aborted := true)
      else w.(ucx := s, owners := w.owners - {id})
    else
      var (s, left) := FinishPoll(w.ucx, sched, own, slot, n);
      w.(ucx := s, owners := w.owners - {id}, leaked := if left.Some? then w.leaked + {left.value} else w.leaked)
  }

  /** Some guard borrows this worker, which therefore cannot be dropped. */
  ghost predicate Borrowed(w: World) {
    exists id :: id in w.owners && w.owners[id].Guard? && w.owners[id].own
  }

  /** Actions that the types rule out (a value that does not exist, a reference that cannot) do nothing. */
  ghost function Step(w: World, sched: Schedule, n: nat, a: Action): World {
    if w.aborted then w
    else match a
      case PostGuarded(kind, own, reply) =>
        if own && w.ucx.gone then w else Posting(w, reply, Guard(kind, own, None))
      case PostBare(reply) => Posting(w, reply, Bare(None))
      case Progress => if w.ucx.gone then w else w.(ucx := w.ucx.Tick(sched))
      case DropWorker(flush) => if w.ucx.gone || Borrowed(w) then w else WorkerDropped(w, sched, n, flush)
      case _ =>
        if a.owner !in w.owners then w
        else OwnerStep(w, sched, n, a, w.owners[a.owner])
  }

  function OwnerStep(w: World, sched: Schedule, n: nat, a: Action, o: Owner): World
    requires !a.PostGuarded? && !a.PostBare? && !a.Progress? && !a.DropWorker?
  {
    var id := a.owner;
    match (a, o)
    case (Check(_), _) => w.(ucx := TouchSlot(w.ucx, o.slot))
    case (Wait(_, own), Bare(slot)) =>
      if own && w.ucx.gone then w else w.(ucx := WaitFor(w.ucx, sched, own, slot, n).0)
    case (AwaitClose(_, own), Bare(Some(h))) => if own && w.ucx.gone then w else Closed(w, sched, n, own, id, h)
    case (CancelOnly(_), Bare(slot)) => w.(ucx := CancelSlot(w.ucx, slot))
    case (Cancel(_), Bare(slot)) =>
      w.(ucx := FreeSlot(CancelSlot(w.ucx, slot), slot), owners := w.owners[id := Bare(None)])
    case (Release(_), Bare(slot)) => w.(ucx := ReleaseSlot(w.ucx, slot), owners := w.owners - {id})
    case (Free(_), Bare(slot)) => w.(ucx := FreeSlot(w.ucx, slot), owners := w.owners - {id})
    case (Drop(_), Bare(slot)) => w.(ucx := FreeSlot(w.ucx, slot), owners := w.owners - {id})
    case (Free(_), Guard(kind, own, slot)) => Finish(w, sched, n, id, kind, own, slot)
    case (Drop(_), Guard(kind, own, slot)) => Finish(w, sched, n, id, kind, own, slot)
    case (Abandon(_), Bare(_)) => Forgotten(w, id, o)
    case (Forget(_), _) => Forgotten(w, id, o)
    case (IntoInner(_), Guard(_, _, slot)) => Extracted(w, id, slot)
    case _ => w
  }

  function Closed(w: World, sched: Schedule, n: nat, own: bool, id: nat, h: Handle): World {
    var (s, left, _) := FinishClose(w.ucx, sched, own, h, n);
    w.(ucx := s, owners := w.owners - {id}, leaked := if left.Some? then w.leaked + {left.value} else w.leaked)
  }

  /** `Worker::drop`: a flush request is posted, waited for and freed, and the worker is destroyed. */
  function WorkerDropped(w: World, sched: Schedule, n: nat, flush: Reply): World {
    var w1 := if flush.Posted? then Flushed(Posting(w, flush, Bare(None)), sched, n, w.nextOwner, w.ucx.next)
              else w.(ucx := Call(w.ucx, flush));
    w1.(ucx := w1.ucx.Destroy())
  }

  function Flushed(w: World, sched: Schedule, n: nat, id: nat, h: Handle): World {
    w.(ucx := FinishFlush(w.ucx, sched, h, n), owners := w.owners - {id})
  }

  function Forgotten(w: World, id: nat, o: Owner): World {
    w.(owners := w.owners - {id}, leaked := w.leaked + SlotSet(o.slot),
       escaped := if o.Guard? then w.escaped + SlotSet(o.slot) else w.escaped)
  }

  function Extracted(w: World, id: nat, slot: Slot): World {
    w.(owners := (w.owners - {id})[w.nextOwner := Bare(slot)], nextOwner := w.nextOwner + 1,
       holder := if slot.Some? then w.holder[slot.value := w.nextOwner] else w.holder,
       escaped := w.escaped + SlotSet(slot))
  }

  function SlotSet(slot: Slot): set<Handle> {
    if slot.Some? then {slot.value} else {}
  }

  ghost function Run(w: World, sched: Schedule, n: nat, acts: seq<Action>): World
    decreases |acts|
  {
    if acts == [] then w else Run(Step(w, sched, n, acts[0]), sched, n, acts[1..])
  }

  // ---------- What every state of every run satisfies ----------

  ghost predicate NoDup<T>(q: seq<T>) {
    forall i, j | 0 <= i < j < |q| :: q[i] != q[j]
  }

  /** Nothing was used after disposal or disposed of twice; posted = live + freed + released. */
  ghost predicate Accounted(s: State) {
    && !s.misuse
    && NoDup(s.freed) && NoDup(s.released)
    && s.live <= s.status.Keys
    && (forall h | h in s.freed || h in s.released :: h in s.status && h !in s.live)
    && |s.status.Keys| == |s.live| + |s.freed| + |s.released|
  }

  /** The buffer lent for `h`: while its guard exists, the guard answers for the request. Once the guard
      is gone the operation has finished, or the request is leaked for good (never with tags). */
  predicate LoanSafe(w: World, h: Handle)
    requires h in w.loans
  {
    var loan := w.loans[h];
    if loan.guard in w.owners then
      var o := w.owners[loan.guard];
      o.Guard? && o.kind == loan.kind && o.slot == Some(h) && h !in w.escaped
    else !w.ucx.InFlight(h) || (h in w.leaked && !loan.kind.Tag?) || h in w.escaped
  }

  /** A posted handle is in exactly one place: one live owner's slot, leaked, freed, or released. */
  predicate HandleSafe(w: World, h: Handle) {
    && h < w.ucx.next
    && (h in w.ucx.live <==> h !in w.ucx.freed && h !in w.ucx.released)
    && !(h in w.ucx.freed && h in w.ucx.released)
    && (h in w.leaked ==> h in w.ucx.live)
    && h in w.holder
    && (h in w.ucx.live && h !in w.leaked ==>
          w.holder[h] in w.owners && w.owners[w.holder[h]].slot == Some(h))
    && (h in w.loans ==> w.loans[h].guard < w.nextOwner && LoanSafe(w, h))
  }

  predicate OwnerSafe(w: World, id: nat)
    requires id in w.owners
  {
    && id < w.nextOwner
    && (w.owners[id].slot.Some? ==>
          var h := w.owners[id].slot.value;
          && h in w.ucx.live && h !in w.leaked
          && h in w.holder && w.holder[h] == id
          && (w.owners[id].Guard? ==> h in w.loans && w.loans[h] == Loan(id, w.owners[id].kind) && h !in w.escaped)
          && (w.owners[id].Bare? ==> h !in w.loans || h in w.escaped))
  }

  ghost predicate Inv(w: World) {
    && Accounted(w.ucx)
    && w.loans.Keys <= w.ucx.status.Keys && w.holder.Keys <= w.ucx.status.Keys
    && w.leaked <= w.ucx.status.Keys && w.escaped <= w.ucx.status.Keys
    && (forall h | h in w.ucx.status :: HandleSafe(w, h))
    && (forall id | id in w.owners :: OwnerSafe(w, id))
  }

  // ---------- Preservation ----------

  /** `s'` is `s` after some checks, cancels and progress: final statuses stay, nothing is posted or disposed of. */
  ghost predicate Progressed(s: State, s': State) {
    s' == s.(clock := s'.clock, status := s'.status, late := s'.late, cancelled := s'.cancelled) &&
    s'.status.Keys == s.status.Keys &&
    forall h | h in s.status && Terminal(s.status[h]) :: s'.status[h] == s.status[h]
  }

  lemma {:induction false} PollShape(s: State, sched: Schedule, own: bool, h: Handle, n: nat)
    requires h in s.live && h in s.status
    ensures Progressed(s, Poll(s, sched, own, h, n).0)
    ensures Poll(s, sched, own, h, n).1.Finished? ==> !Poll(s, sched, own, h, n).0.InFlight(h)
    decreases n
  {
    if n > 0 && Outcome(StatusOf(s, h)) == Ok(false) { PollShape(s.Touch(h).TickIf(sched, own), sched, own, h, n - 1); }
  }

  lemma {:induction false} PollTagShape(s: State, sched: Schedule, own: bool, h: Handle, n: nat)
    requires h in s.live && h in s.status
    ensures Progressed(s, PollTag(s, sched, own, h, n).0)
    ensures PollTag(s, sched, own, h, n).1.Finished? ==> !PollTag(s, sched, own, h, n).0.InFlight(h)
    decreases n
  {
    if n > 0 && Outcome(StatusOf(s, h)) == Ok(false) {
      PollTagShape(s.Touch(h).TickIf(sched, own), sched, own, h, n - 1);
    }
  }

  lemma ProgressKeepsInv(w: World, s: State)
    requires Inv(w) && Progressed(w.ucx, s)
    ensures Inv(w.(ucx := s))
  {
    var w' := w.(ucx := s);
    forall h | h in w'.ucx.status ensures HandleSafe(w', h) { assert HandleSafe(w, h); }
    forall id | id in w'.owners ensures OwnerSafe(w', id) { assert OwnerSafe(w, id); }
  }

  lemma PostKeepsAccount(s: State, status: UcsStatus)
    requires Accounted(s) && s.next !in s.status
    ensures Accounted(s.Post(status))
  {
    assert s.Post(status).status.Keys == s.status.Keys + {s.next};
  }

  lemma FreeKeepsAccount(s: State, h: Handle)
    requires Accounted(s) && h in s.live
    ensures Accounted(s.Free(h)) && Accounted(s.Release(h))
  {
  }

  lemma NextIsFresh(w: World)
    requires Inv(w)
    ensures w.ucx.next !in w.ucx.status && w.nextOwner !in w.owners
  {
    assert w.ucx.next in w.ucx.status ==> HandleSafe(w, w.ucx.next);
    assert w.nextOwner in w.owners ==> OwnerSafe(w, w.nextOwner);
  }

  lemma PostingKeepsHandle(w: World, reply: Reply, owner: Owner, h: Handle)
    requires Inv(w) && h in w.ucx.status
    ensures HandleSafe(Posting(w, reply, owner), h)
  {
    NextIsFresh(w);
    assert HandleSafe(w, h);
  }

  lemma PostedIsSafe(w: World, status: UcsStatus, owner: Owner)
    requires Inv(w)
    ensures HandleSafe(Posting(w, Posted(status), owner), w.ucx.next)
  {
    NextIsFresh(w);
  }

  lemma PostingKeepsHandles(w: World, reply: Reply, owner: Owner)
    requires Inv(w)
    ensures var w' := Posting(w, reply, owner); forall h | h in w'.ucx.status :: HandleSafe(w', h)
  {
    var w' := Posting(w, reply, owner);
    forall h | h in w'.ucx.status ensures HandleSafe(w', h) {
      if h in w.ucx.status { PostingKeepsHandle(w, reply, owner, h); } else { PostedIsSafe(w, reply.status, owner); }
    }
  }

  lemma PostingKeepsOwners(w: World, reply: Reply, owner: Owner)
    requires Inv(w)
    ensures var w' := Posting(w, reply, owner); forall id | id in w'.owners :: OwnerSafe(w', id)
  {
    var w' := Posting(w, reply, owner);
    NextIsFresh(w);
    forall id | id in w'.owners ensures OwnerSafe(w', id) {
      if id in w.owners { assert OwnerSafe(w, id); }
    }
  }

  lemma PostingKeepsBounds(w: World, reply: Reply, owner: Owner)
    requires Inv(w)
    ensures var w' := Posting(w, reply, owner);
            && w'.loans.Keys <= w'.ucx.status.Keys && w'.holder.Keys <= w'.ucx.status.Keys
            && w'.leaked <= w'.ucx.status.Keys && w'.escaped <= w'.ucx.status.Keys
  {
  }

  lemma PostingKeepsAccount(w: World, reply: Reply, owner: Owner)
    requires Inv(w)
    ensures Accounted(Posting(w, reply, owner).ucx)
  {
    NextIsFresh(w);
    if reply.Posted? { PostKeepsAccount(w.ucx, reply.status); }
  }

  lemma PostingKeepsInv(w: World, reply: Reply, owner: Owner)
    requires Inv(w)
    ensures Inv(Posting(w, reply, owner))
  {
    PostingKeepsBounds(w, reply, owner);
    PostingKeepsAccount(w, reply, owner);
    PostingKeepsHandles(w, reply, owner);
    PostingKeepsOwners(w, reply, owner);
  }

  /** An owner disposes of its request and is gone, or (after a cancel) stays with an empty slot. */
  function Disposed(w: World, id: nat, release: bool, stays: bool): World
    requires id in w.owners
  {
    var slot := w.owners[id].slot;
    w.(ucx := if release then ReleaseSlot(w.ucx, slot) else FreeSlot(w.ucx, slot),
       owners := if stays then w.owners[id := Bare(None)] else w.owners - {id})
  }

  /** A guard disposes of its request only when that is no longer in flight, and never stays. */
  predicate MayDispose(w: World, id: nat, stays: bool)
    requires id in w.owners
  {
    w.owners[id].Guard? ==> !stays && (w.owners[id].slot.Some? ==> !w.ucx.InFlight(w.owners[id].slot.value))
  }

  lemma DisposedKeepsHandles(w: World, id: nat, release: bool, stays: bool)
    requires Inv(w) && id in w.owners && MayDispose(w, id, stays)
    ensures var w' := Disposed(w, id, release, stays); forall h | h in w'.ucx.status :: HandleSafe(w', h)
  {
    var w' := Disposed(w, id, release, stays);
    assert OwnerSafe(w, id);
    forall h | h in w'.ucx.status ensures HandleSafe(w', h) { assert HandleSafe(w, h); }
  }

  lemma DisposedKeepsOwners(w: World, id: nat, release: bool, stays: bool)
    requires Inv(w) && id in w.owners && MayDispose(w, id, stays)
    ensures var w' := Disposed(w, id, release, stays); forall id' | id' in w'.owners :: OwnerSafe(w', id')
  {
    var w' := Disposed(w, id, release, stays);
    assert OwnerSafe(w, id);
    forall id' | id' in w'.owners ensures OwnerSafe(w', id') {
      if id' != id { assert OwnerSafe(w, id'); }
    }
  }

  lemma DisposedKeepsInv(w: World, id: nat, release: bool, stays: bool)
    requires Inv(w) && id in w.owners && MayDispose(w, id, stays)
    ensures Inv(Disposed(w, id, release, stays))
  {
    assert OwnerSafe(w, id);
    if w.owners[id].slot.Some? { FreeKeepsAccount(w.ucx, w.owners[id].slot.value); }
    DisposedKeepsHandles(w, id, release, stays);
    DisposedKeepsOwners(w, id, release, stays);
  }

  /** A guard that gives up leaves its request behind, still in flight. */
  lemma LeakKeepsInv(w: World, id: nat)
    requires Inv(w) && id in w.owners && w.owners[id].slot.Some?
    requires w.owners[id].Guard? ==> !w.owners[id].kind.Tag?
    ensures Inv(w.(owners := w.owners - {id}, leaked := w.leaked + {w.owners[id].slot.value}))
  {
    var w' := w.(owners := w.owners - {id}, leaked := w.leaked + {w.owners[id].slot.value});
    assert OwnerSafe(w, id);
    forall h | h in w'.ucx.status ensures HandleSafe(w', h) { assert HandleSafe(w, h); }
    forall id' | id' in w'.owners ensures OwnerSafe(w', id') { assert OwnerSafe(w, id'); }
  }

  lemma FinishTagKeepsInv(w: World, sched: Schedule, n: nat, id: nat, own: bool, h: Handle)
    requires Inv(w) && id in w.owners && w.owners[id] == Guard(Tag, own, Some(h))
    ensures Inv(Finish(w, sched, n, id, Tag, own, Some(h)))
  {
    assert OwnerSafe(w, id);
    PollTagShape(w.ucx, sched, own, h, n);
    var (s, v) := PollTag(w.ucx, sched, own, h, n);
    ProgressKeepsInv(w, s);
    if v.Finished? {
      DisposedKeepsInv(w.(ucx := s), id, false, false);
    } else {
      AbortKeepsInv(w.(ucx := s));
    }
  }

  lemma AbortKeepsInv(w: World)
    requires Inv(w)
    ensures Inv(w.(aborted := true))
  {
    var w' := w.(aborted := true);
    forall h | h in w'.ucx.status ensures HandleSafe(w', h) { assert HandleSafe(w, h); }
    forall id | id in w'.owners ensures OwnerSafe(w', id) { assert OwnerSafe(w, id); }
  }

  lemma FinishPollKeepsInv(w: World, sched: Schedule, n: nat, id: nat, kind: Kind, own: bool, h: Handle)
    requires Inv(w) && id in w.owners && w.owners[id] == Guard(kind, own, Some(h)) && !kind.Tag?
    ensures Inv(Finish(w, sched, n, id, kind, own, Some(h)))
  {
    assert OwnerSafe(w, id);
    PollShape(w.ucx, sched, own, h, n);
    var (s, v) := Poll(w.ucx, sched, own, h, n);
    ProgressKeepsInv(w, s);
    if v.Finished? { DisposedKeepsInv(w.(ucx := s), id, false, false); } else { LeakKeepsInv(w.(ucx := s), id); }
  }

  lemma FinishKeepsInv(w: World, sched: Schedule, n: nat, id: nat)
    requires Inv(w) && id in w.owners && w.owners[id].Guard?
    ensures Inv(Finish(w, sched, n, id, w.owners[id].kind, w.owners[id].own, w.owners[id].slot))
  {
    match w.owners[id]
    case Guard(_, _, None) => DisposedKeepsInv(w, id, false, false);
    case Guard(kind, own, Some(h)) =>
      if kind.Tag? {
        FinishTagKeepsInv(w, sched, n, id, own, h);
      } else {
        FinishPollKeepsInv(w, sched, n, id, kind, own, h);
      }
  }

  lemma ForgetKeepsInv(w: World, id: nat)
    requires Inv(w) && id in w.owners
    ensures Inv(Forgotten(w, id, w.owners[id]))
  {
    var w' := Forgotten(w, id, w.owners[id]);
    assert OwnerSafe(w, id);
    forall h | h in w'.ucx.status ensures HandleSafe(w', h) { assert HandleSafe(w, h); }
    forall id' | id' in w'.owners ensures OwnerSafe(w', id') { assert OwnerSafe(w, id'); }
  }

  lemma IntoInnerKeepsHandles(w: World, id: nat)
    requires Inv(w) && id in w.owners && w.owners[id].Guard?
    ensures var w' := Extracted(w, id, w.owners[id].slot);
            forall h | h in w'.ucx.status :: HandleSafe(w', h)
  {
    var w' := Extracted(w, id, w.owners[id].slot);
    NextIsFresh(w);
    assert OwnerSafe(w, id);
    forall h | h in w'.ucx.status ensures HandleSafe(w', h) { assert HandleSafe(w, h); }
  }

  lemma IntoInnerKeepsOwners(w: World, id: nat)
    requires Inv(w) && id in w.owners && w.owners[id].Guard?
    ensures var w' := Extracted(w, id, w.owners[id].slot);
            forall id' | id' in w'.owners :: OwnerSafe(w', id')
  {
    var w' := Extracted(w, id, w.owners[id].slot);
    NextIsFresh(w);
    assert OwnerSafe(w, id);
    forall id' | id' in w'.owners ensures OwnerSafe(w', id') {
      if id' != w.nextOwner { assert OwnerSafe(w, id'); }
    }
  }

  lemma IntoInnerKeepsInv(w: World, id: nat)
    requires Inv(w) && id in w.owners && w.owners[id].Guard?
    ensures Inv(Extracted(w, id, w.owners[id].slot))
  {
    assert OwnerSafe(w, id);
    IntoInnerKeepsHandles(w, id);
    IntoInnerKeepsOwners(w, id);
  }

  lemma ClosedKeepsInv(w: World, sched: Schedule, n: nat, own: bool, id: nat, h: Handle)
    requires Inv(w) && id in w.owners && w.owners[id] == Bare(Some(h))
    ensures Inv(Closed(w, sched, n, own, id, h))
  {
    assert OwnerSafe(w, id);
    PollShape(w.ucx, sched, own, h, n);
    var left := FinishClose(w.ucx, sched, own, h, n).1;
    var polled := Poll(w.ucx, sched, own, h, n).0;
    ProgressKeepsInv(w, polled);
    if left.Some? { LeakKeepsInv(w.(ucx := polled), id); } else { DisposedKeepsInv(w.(ucx := polled), id, false, false); }
  }

  lemma FlushedKeepsInv(w: World, sched: Schedule, n: nat, id: nat, h: Handle)
    requires Inv(w) && id in w.owners && w.owners[id] == Bare(Some(h))
    ensures Inv(Flushed(w, sched, n, id, h))
  {
    assert OwnerSafe(w, id);
    PollShape(w.ucx, sched, true, h, n);
    var polled := Poll(w.ucx, sched, true, h, n).0;
    ProgressKeepsInv(w, polled);
    DisposedKeepsInv(w.(ucx := polled), id, false, false);
  }

  /** The flags about the worker's end do not matter to the ownership of requests. */
  lemma FlagsKeepInv(w: World, gone: bool, late: bool)
    requires Inv(w)
    ensures Inv(w.(ucx := w.ucx.(gone := gone, late := late)))
  {
    var w' := w.(ucx := w.ucx.(gone := gone, late := late));
    forall h | h in w'.ucx.status ensures HandleSafe(w', h) { assert HandleSafe(w, h); }
    forall id | id in w'.owners ensures OwnerSafe(w', id) { assert OwnerSafe(w, id); }
  }

  lemma WorkerDroppedKeepsInv(w: World, sched: Schedule, n: nat, flush: Reply)
    requires Inv(w)
    ensures Inv(WorkerDropped(w, sched, n, flush))
  {
    if flush.Posted? {
      var w1 := Posting(w, flush, Bare(None));
      PostingKeepsInv(w, flush, Bare(None));
      FlushedKeepsInv(w1, sched, n, w.nextOwner, w.ucx.next);
      var w2 := Flushed(w1, sched, n, w.nextOwner, w.ucx.next);
      FlagsKeepInv(w2, true, w2.ucx.late);
    } else {
      FlagsKeepInv(w, true, w.ucx.Reach().late);
    }
  }

  /** The step is the worker's `drop`, call for call. */
  lemma WorkerDroppedIsDrop(w: World, sched: Schedule, n: nat, flush: Reply)
    ensures WorkerDropped(w, sched, n, flush).ucx == FinishWorker(w.ucx, sched, flush, n)
    ensures w.nextOwner !in w.owners ==> WorkerDropped(w, sched, n, flush).owners == w.owners
    ensures WorkerDropped(w, sched, n, flush).leaked == w.leaked
  {
  }

  lemma WaitKeepsInv(w: World, sched: Schedule, n: nat, own: bool, id: nat)
    requires Inv(w) && id in w.owners
    ensures Inv(w.(ucx := WaitFor(w.ucx, sched, own, w.owners[id].slot, n).0))
  {
    assert OwnerSafe(w, id);
    if w.owners[id].slot.Some? && n > 0 {
      var h := w.owners[id].slot.value;
      PollShape(w.ucx, sched, own, h, n);
      ProgressKeepsInv(w, Poll(w.ucx, sched, own, h, n).0);
    }
  }

  lemma TouchKeepsInv(w: World, id: nat)
    requires Inv(w) && id in w.owners
    ensures Inv(w.(ucx := TouchSlot(w.ucx, w.owners[id].slot)))
  {
    assert OwnerSafe(w, id);
    if w.owners[id].slot.Some? { ProgressKeepsInv(w, w.ucx.Touch(w.owners[id].slot.value)); }
  }

  lemma CancelSlotKeepsInv(w: World, id: nat)
    requires Inv(w) && id in w.owners
    ensures Inv(w.(ucx := CancelSlot(w.ucx, w.owners[id].slot)))
  {
    assert OwnerSafe(w, id);
    if w.owners[id].slot.Some? { ProgressKeepsInv(w, w.ucx.Cancel(w.owners[id].slot.value)); }
  }

  lemma CancelKeepsInv(w: World, id: nat)
    requires Inv(w) && id in w.owners && w.owners[id].Bare?
    ensures var slot := w.owners[id].slot;
            Inv(w.(ucx := FreeSlot(CancelSlot(w.ucx, slot), slot), owners := w.owners[id := Bare(None)]))
  {
    CancelSlotKeepsInv(w, id);
    DisposedKeepsInv(w.(ucx := CancelSlot(w.ucx, w.owners[id].slot)), id, false, true);
  }

  lemma OwnerStepKeepsInv(w: World, sched: Schedule, n: nat, a: Action)
    requires Inv(w) && !a.PostGuarded? && !a.PostBare? && !a.Progress? && !a.DropWorker? && a.owner in w.owners
    ensures Inv(OwnerStep(w, sched, n, a, w.owners[a.owner]))
  {
    var id := a.owner;
    match (a, w.owners[id])
    case (Check(_), _) => TouchKeepsInv(w, id);
    case (CancelOnly(_), Bare(_)) => CancelSlotKeepsInv(w, id);
    case (Wait(_, own), Bare(_)) => WaitKeepsInv(w, sched, n, own, id);
    case (AwaitClose(_, own), Bare(Some(h))) => ClosedKeepsInv(w, sched, n, own, id, h);
    case (Cancel(_), Bare(_)) => CancelKeepsInv(w, id);
    case (Release(_), Bare(_)) => DisposedKeepsInv(w, id, true, false);
    case (Free(_), Bare(_)) => DisposedKeepsInv(w, id, false, false);
    case (Drop(_), Bare(_)) => DisposedKeepsInv(w, id, false, false);
    case (Free(_), Guard(_, _, _)) => FinishKeepsInv(w, sched, n, id);
    case (Drop(_), Guard(_, _, _)) => FinishKeepsInv(w, sched, n, id);
    case (Abandon(_), Bare(_)) => ForgetKeepsInv(w, id);
    case (Forget(_), _) => ForgetKeepsInv(w, id);
    case (IntoInner(_), Guard(_, _, _)) => IntoInnerKeepsInv(w, id);
    case _ =>
  }

  lemma StepKeepsInv(w: World, sched: Schedule, n: nat, a: Action)
    requires Inv(w)
    ensures Inv(Step(w, sched, n, a))
  {
    match a
    case PostGuarded(kind, own, reply) => PostingKeepsInv(w, reply, Guard(kind, own, None));
    case PostBare(reply) => PostingKeepsInv(w, reply, Bare(None));
    case Progress => ProgressKeepsInv(w, w.ucx.Tick(sched));
    case DropWorker(flush) => WorkerDroppedKeepsInv(w, sched, n, flush);
    case _ => if a.owner in w.owners { OwnerStepKeepsInv(w, sched, n, a); }
  }

  lemma {:induction false} RunKeepsInv(w: World, sched: Schedule, n: nat, acts: seq<Action>)
    requires Inv(w)
    ensures Inv(Run(w, sched, n, acts))
    decreases |acts|
  {
    if acts != [] {
      StepKeepsInv(w, sched, n, acts[0]);
      RunKeepsInv(Step(w, sched, n, acts[0]), sched, n, acts[1..]);
    }
  }

  // ---------- The theorems ----------

  /** The handles in the slots of values alive in the program. */
  function HeldHandles(w: World): set<Handle> {
    set id | id in w.owners && w.owners[id].slot.Some? :: w.owners[id].slot.value
  }

  lemma StartIsSafe()
    ensures Inv(Start)
  {
  }

  lemma HeldIsLiveNotLeaked(w: World)
    requires Inv(w)
    ensures HeldHandles(w) == w.ucx.live - w.leaked
  {
    forall h | h in HeldHandles(w) ensures h in w.ucx.live - w.leaked {
      var id :| id in w.owners && w.owners[id].slot == Some(h);
      assert OwnerSafe(w, id);
    }
    forall h | h in w.ucx.live - w.leaked ensures h in HeldHandles(w) {
      assert HandleSafe(w, h);
      assert w.owners[w.holder[h]].slot == Some(h);
    }
  }

  lemma {:induction false} NoDupCount<T>(q: seq<T>, x: T)
    requires NoDup(q)
    ensures multiset(q)[x] <= 1
  {
    if q != [] {
      var front := q[..|q| - 1];
      NoDupCount(front, x);
      assert q == front + [q[|q| - 1]];
      assert forall i | 0 <= i < |front| :: front[i] == q[i] != q[|q| - 1];
    }
  }

  /**
   Linearity and conservation, in every run, the end of the worker included. No call is ever made on a
   handle that was already disposed of, each handle is disposed of at most once, no two values hold the
   same handle, and posted = held + leaked + freed + released.
   */
  lemma EveryRunIsLinear(sched: Schedule, n: nat, acts: seq<Action>)
    ensures var w := Run(Start, sched, n, acts);
            && !w.ucx.misuse
            && (forall h :: multiset(w.ucx.freed)[h] + multiset(w.ucx.released)[h] <= 1)
            && (forall id, id' | id in w.owners && id' in w.owners && id != id' && w.owners[id].slot.Some? ::
                  w.owners[id].slot != w.owners[id'].slot)
            && |w.ucx.status.Keys| == |HeldHandles(w)| + |w.leaked| + |w.ucx.freed| + |w.ucx.released|
  {
    StartIsSafe();
    RunKeepsInv(Start, sched, n, acts);
    var w := Run(Start, sched, n, acts);
    HeldIsLiveNotLeaked(w);
    assert w.leaked <= w.ucx.live by {
      forall h | h in w.leaked ensures h in w.ucx.live { assert HandleSafe(w, h); }
    }
    assert |w.ucx.live - w.leaked| == |w.ucx.live| - |w.leaked|;
    forall h ensures multiset(w.ucx.freed)[h] + multiset(w.ucx.released)[h] <= 1 {
      NoDupCount(w.ucx.freed, h);
      NoDupCount(w.ucx.released, h);
      assert h in w.ucx.status ==> HandleSafe(w, h);
    }
    forall id, id' | id in w.owners && id' in w.owners && id != id' && w.owners[id].slot.Some?
      ensures w.owners[id].slot != w.owners[id'].slot
    {
      assert OwnerSafe(w, id) && OwnerSafe(w, id');
    }
  }

  /** No value is taken out of its guard and no guard is forgotten. */
  predicate Guarded(acts: seq<Action>) {
    forall a | a in acts :: !a.IntoInner? && !a.Forget?
  }

  lemma {:induction false} GuardedRunsDoNotEscape(w: World, sched: Schedule, n: nat, acts: seq<Action>)
    requires Guarded(acts)
    ensures Run(w, sched, n, acts).escaped == w.escaped
    decreases |acts|
  {
    if acts != [] {
      assert acts[0] in acts;
      var w1 := Step(w, sched, n, acts[0]);
      assert w1.escaped == w.escaped;
      GuardedRunsDoNotEscape(w1, sched, n, acts[1..]);
    }
  }

  /** The buffer lent for `h` is safe to use again only if its operation is over. */
  predicate BufferSafe(w: World, h: Handle)
    requires h in w.loans
  {
    && (w.loans[h].guard !in w.owners ==> !w.ucx.InFlight(h) || (h in w.leaked && !w.loans[h].kind.Tag?))
    && (h !in w.ucx.live ==> !w.ucx.InFlight(h))
  }

  /**
   Buffer safety, in every run without `into_inner` and without forgetting: a guard that is gone has
   seen its operation through, or leaked the request for good; a tagged guard never leaks, it aborts
   the process while it still exists. No guard frees a request in flight.
   */
  lemma EveryGuardedRunKeepsBuffersSafe(sched: Schedule, n: nat, acts: seq<Action>, h: Handle)
    requires Guarded(acts) && h in Run(Start, sched, n, acts).loans
    ensures BufferSafe(Run(Start, sched, n, acts), h)
  {
    StartIsSafe();
    RunKeepsInv(Start, sched, n, acts);
    GuardedRunsDoNotEscape(Start, sched, n, acts);
    assert HandleSafe(Run(Start, sched, n, acts), h);
  }

  /** With escapes, safety is lost for the escaped requests only. */
  lemma OnlyEscapedLoansAreAtRisk(sched: Schedule, n: nat, acts: seq<Action>, h: Handle)
    requires h in Run(Start, sched, n, acts).loans && h !in Run(Start, sched, n, acts).escaped
    ensures BufferSafe(Run(Start, sched, n, acts), h)
  {
    StartIsSafe();
    RunKeepsInv(Start, sched, n, acts);
    assert HandleSafe(Run(Start, sched, n, acts), h);
  }

  lemma {:induction false} RunSplits(w: World, sched: Schedule, n: nat, acts: seq<Action>, more: seq<Action>)
    ensures Run(w, sched, n, acts + more) == Run(Run(w, sched, n, acts), sched, n, more)
    decreases |acts|
  {
    if acts == [] {
      assert acts + more == more;
    } else {
      assert (acts + more)[1..] == acts[1..] + more;
      RunSplits(Step(w, sched, n, acts[0]), sched, n, acts[1..], more);
    }
  }

  lemma {:induction false} LeaksOnlyGrow(w: World, sched: Schedule, n: nat, acts: seq<Action>)
    ensures w.leaked <= Run(w, sched, n, acts).leaked
    decreases |acts|
  {
    if acts != [] {
      var w1 := Step(w, sched, n, acts[0]);
      assert w.leaked <= w1.leaked;
      LeaksOnlyGrow(w1, sched, n, acts[1..]);
    }
  }

  /** A leaked request is never disposed of, however the run goes on. */
  lemma LeakIsForever(sched: Schedule, n: nat, acts: seq<Action>, more: seq<Action>, h: Handle)
    requires h in Run(Start, sched, n, acts).leaked
    ensures var s := Run(Start, sched, n, acts + more).ucx; h in s.live && h !in s.freed && h !in s.released
  {
    RunSplits(Start, sched, n, acts, more);
    LeaksOnlyGrow(Run(Start, sched, n, acts), sched, n, more);
    StartIsSafe();
    RunKeepsInv(Start, sched, n, acts + more);
    assert HandleSafe(Run(Start, sched, n, acts + more), h);
  }
}
