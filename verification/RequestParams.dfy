/** `RequestParamBuilder`: setters that keep a field mask and a parameter struct in step. */
module RequestParams {
  import opened Wrappers
  import opened Bits

  /** The fields that the builder can set; each is a number, with 0 for null, none or unset. */
  datatype Field = Flags | ReplyBuffer | Datatype | SendCallback | MemoryType

  /** Positions in the 32-bit mask of the fields and of the two immediate-completion flags. */
  function Position(f: Field): nat {
    match f
    case SendCallback => 1
    case Datatype => 3
    case Flags => 4
    case ReplyBuffer => 5
    case MemoryType => 6
  }

  const NO_IMM_CMPL := 16
  const FORCE_IMM_CMPL := 18

  /** The masks of the bindings: 2, 8, 16, 32, 64, 65536 and 262144. */
  lemma MasksOfTheBindings()
    ensures Pow2(Position(SendCallback)) == 2 && Pow2(Position(Datatype)) == 8 && Pow2(Position(Flags)) == 16
    ensures Pow2(Position(ReplyBuffer)) == 32 && Pow2(Position(MemoryType)) == 64
    ensures Pow2(NO_IMM_CMPL) == 65536 && Pow2(FORCE_IMM_CMPL) == 262144
  {
    Pow2Add(8, 8);
    Pow2Add(16, 2);
  }

  /** `mask |= bit`. */
  function SetBit(mask: nat, n: nat): nat { Or(mask, Pow2(n)) }

  /** `mask & bit != 0`. */
  predicate HasBit(mask: nat, n: nat) { And(mask, Pow2(n)) != 0 }

  lemma SetBitMeaning(mask: nat, n: nat, i: nat)
    ensures HasBit(SetBit(mask, n), i) <==> i == n || HasBit(mask, i)
  {
    MaskNonzero(SetBit(mask, n), i);
    MaskNonzero(mask, i);
    OrBits(mask, Pow2(n), i);
    Pow2Bits(n, i);
  }

  /** `ucp_request_param_t`, as far as the builder writes it. */
  datatype Params = Params(opAttrMask: nat, flags: nat, replyBuffer: nat, datatyp: nat, sendCallback: nat, memoryType: nat)

  function Value(p: Params, f: Field): nat {
    match f
    case Flags => p.flags
    case ReplyBuffer => p.replyBuffer
    case Datatype => p.datatyp
    case SendCallback => p.sendCallback
    case MemoryType => p.memoryType
  }

  function WithValue(p: Params, f: Field, v: nat): Params {
    match f
    case Flags => p.(flags := v)
    case ReplyBuffer => p.(replyBuffer := v)
    case Datatype => p.(datatyp := v)
    case SendCallback => p.(sendCallback := v)
    case MemoryType => p.(memoryType := v)
  }

  datatype Setter = Set(field: Field, v: nat) | ForceImmCmpl | NoImmCmpl

  datatype State = State(params: Params, fieldMask: nat)

  const Zeroed := State(Params(0, 0, 0, 0, 0, 0), 0)

  /** One setter; `None` is a panic. */
  function Apply(s: State, c: Setter): Option<State> {
    match c
    case Set(f, v) => Some(State(WithValue(s.params, f, v), SetBit(s.fieldMask, Position(f))))
    case ForceImmCmpl =>
      if HasBit(s.fieldMask, NO_IMM_CMPL) then None else Some(s.(fieldMask := SetBit(s.fieldMask, FORCE_IMM_CMPL)))
    case NoImmCmpl =>
      if HasBit(s.fieldMask, FORCE_IMM_CMPL) then None else Some(s.(fieldMask := SetBit(s.fieldMask, NO_IMM_CMPL)))
  }

  /** Any sequence of setters on a new builder. */
  function Configure(calls: seq<Setter>): Option<State>
    decreases |calls|
  {
    if calls == [] then Some(Zeroed)
    else
      var before := Configure(calls[..|calls| - 1]);
      if before.None? then None else Apply(before.value, calls[|calls| - 1])
  }

  /** `build`: the mask goes into the struct, which is copied out. */
  function Build(s: State): Params {
    s.params.(opAttrMask := s.fieldMask)
  }

  class RequestParamBuilder {
    var params: Params
    var fieldMask: nat

    function Now(): State
      reads this
    {
      State(params, fieldMask)
    }

    constructor ()
      ensures Now() == Zeroed
    {
      params := Params(0, 0, 0, 0, 0, 0);
      fieldMask := 0;
    }

    method ForceImmCmpl() returns (panicked: bool)
      modifies this
      ensures Apply(old(Now()), Setter.ForceImmCmpl) == if panicked then None else Some(Now())
      ensures params == old(params) && (panicked ==> fieldMask == old(fieldMask))
    {
      if HasBit(fieldMask, NO_IMM_CMPL) { return true; }
      fieldMask := SetBit(fieldMask, FORCE_IMM_CMPL);
      return false;
    }

    method NoImmCmpl() returns (panicked: bool)
      modifies this
      ensures Apply(old(Now()), Setter.NoImmCmpl) == if panicked then None else Some(Now())
      ensures params == old(params) && (panicked ==> fieldMask == old(fieldMask))
    {
      if HasBit(fieldMask, FORCE_IMM_CMPL) { return true; }
      fieldMask := SetBit(fieldMask, NO_IMM_CMPL);
      return false;
    }

    method SetFlags(flags: nat)
      modifies this
      ensures Apply(old(Now()), Set(Flags, flags)) == Some(Now())
      ensures params == old(params).(flags := flags)
    {
      fieldMask := SetBit(fieldMask, Position(Flags));
      params := params.(flags := flags);
    }

    method SetReplyBuffer(buf: nat)
      modifies this
      ensures Apply(old(Now()), Set(ReplyBuffer, buf)) == Some(Now())
      ensures params == old(params).(replyBuffer := buf)
    {
      fieldMask := SetBit(fieldMask, Position(ReplyBuffer));
      params := params.(replyBuffer := buf);
    }

    method SetDatatype(dt: nat)
      modifies this
      ensures Apply(old(Now()), Set(Datatype, dt)) == Some(Now())
      ensures params == old(params).(datatyp := dt)
    {
      fieldMask := SetBit(fieldMask, Position(Datatype));
      params := params.(datatyp := dt);
    }

    method SetSendCallback(cb: nat)
      modifies this
      ensures Apply(old(Now()), Set(SendCallback, cb)) == Some(Now())
      ensures params == old(params).(sendCallback := cb)
    {
      fieldMask := SetBit(fieldMask, Position(SendCallback));
      params := params.(sendCallback := cb);
    }

    method SetMemoryType(mt: nat)
      modifies this
      ensures Apply(old(Now()), Set(MemoryType, mt)) == Some(Now())
      ensures params == old(params).(memoryType := mt)
    {
      fieldMask := SetBit(fieldMask, Position(MemoryType));
      params := params.(memoryType := mt);
    }

    method BuildParams() returns (p: Params)
      modifies this
      ensures p == Build(old(Now())) && Build(Now()) == p && fieldMask == old(fieldMask)
      ensures p == old(params).(opAttrMask := old(fieldMask)) && params == p
      ensures forall f :: Value(p, f) == Value(old(params), f)
    {
      params := params.(opAttrMask := fieldMask);
      p := params;
    }
  }

  // ---------- Any sequence of calls ----------

  /** The last value given to a field, or 0. */
  function LastValue(calls: seq<Setter>, f: Field): nat
    decreases |calls|
  {
    if calls == [] then 0
    else
      var c := calls[|calls| - 1];
      if c.Set? && c.field == f then c.v else LastValue(calls[..|calls| - 1], f)
  }

  predicate Touched(calls: seq<Setter>, f: Field) {
    exists c :: c in calls && c.Set? && c.field == f
  }

  /** Bits for the setters used, and no others. */
  ghost predicate FaithfulMask(mask: nat, calls: seq<Setter>) {
    && (forall f :: HasBit(mask, Position(f)) <==> Touched(calls, f))
    && (forall i | HasBit(mask, i) :: i == FORCE_IMM_CMPL || i == NO_IMM_CMPL || exists f :: Position(f) == i)
    && (HasBit(mask, FORCE_IMM_CMPL) <==> ForceImmCmpl in calls)
    && (HasBit(mask, NO_IMM_CMPL) <==> NoImmCmpl in calls)
  }

  /** Mask and fields say what was called: bits for the setters used, last values, zeros elsewhere. */
  ghost predicate Faithful(s: State, calls: seq<Setter>) {
    FaithfulMask(s.fieldMask, calls) && forall f :: Value(s.params, f) == LastValue(calls, f)
  }

  lemma TouchedAppend(calls: seq<Setter>, c: Setter, f: Field)
    ensures Touched(calls + [c], f) <==> Touched(calls, f) || (c.Set? && c.field == f)
    ensures LastValue(calls + [c], f) == if c.Set? && c.field == f then c.v else LastValue(calls, f)
  {
    assert (calls + [c])[..|calls|] == calls;
    if Touched(calls, f) {
      var d :| d in calls && d.Set? && d.field == f;
      assert d in calls + [c];
    }
    if c.Set? && c.field == f { assert c in calls + [c]; }
  }

  /** The mask bit that a setter sets. */
  function BitOf(c: Setter): nat {
    match c
    case Set(f, _) => Position(f)
    case ForceImmCmpl => FORCE_IMM_CMPL
    case NoImmCmpl => NO_IMM_CMPL
  }

  lemma SetBitFaithful(mask: nat, calls: seq<Setter>, c: Setter)
    requires FaithfulMask(mask, calls)
    ensures FaithfulMask(SetBit(mask, BitOf(c)), calls + [c])
  {
    var mask', calls', n := SetBit(mask, BitOf(c)), calls + [c], BitOf(c);
    forall f ensures HasBit(mask', Position(f)) <==> Touched(calls', f) {
      TouchedAppend(calls, c, f);
      SetBitMeaning(mask, n, Position(f));
    }
    forall i | HasBit(mask', i)
      ensures i == FORCE_IMM_CMPL || i == NO_IMM_CMPL || exists f :: Position(f) == i
    {
      SetBitMeaning(mask, n, i);
      if c.Set? && i == n { assert Position(c.field) == i; }
    }
    SetBitMeaning(mask, n, FORCE_IMM_CMPL);
    SetBitMeaning(mask, n, NO_IMM_CMPL);
  }

  lemma ApplyFaithful(s: State, calls: seq<Setter>, c: Setter)
    requires Faithful(s, calls) && Apply(s, c).Some?
    ensures Faithful(Apply(s, c).value, calls + [c])
  {
    SetBitFaithful(s.fieldMask, calls, c);
    forall f ensures Value(Apply(s, c).value.params, f) == LastValue(calls + [c], f) {
      TouchedAppend(calls, c, f);
    }
  }

  lemma {:induction false} ConfigureFaithful(calls: seq<Setter>)
    ensures Configure(calls).None? <==> ForceImmCmpl in calls && NoImmCmpl in calls
    ensures Configure(calls).Some? ==> Faithful(Configure(calls).value, calls)
    decreases |calls|
  {
    if calls != [] {
      var front, c := calls[..|calls| - 1], calls[|calls| - 1];
      assert calls == front + [c];
      ConfigureFaithful(front);
      if Configure(front).Some? {
        var s := Configure(front).value;
        assert Apply(s, c).None? <==>
               (c == ForceImmCmpl && NoImmCmpl in front) || (c == NoImmCmpl && ForceImmCmpl in front);
        if Apply(s, c).Some? { ApplyFaithful(s, front, c); }
      }
    } else {
      NothingSet();
    }
  }

  /**
   Configuring panics exactly when both immediate-completion flags are asked for; otherwise the built
   parameters say what was called, and never both flags.
   */
  lemma EveryConfiguration(calls: seq<Setter>)
    ensures Configure(calls).None? <==> ForceImmCmpl in calls && NoImmCmpl in calls
    ensures Configure(calls).Some? ==>
              var built := Build(Configure(calls).value);
              && FaithfulMask(built.opAttrMask, calls)
              && built.flags == LastValue(calls, Flags) && built.replyBuffer == LastValue(calls, ReplyBuffer)
              && built.datatyp == LastValue(calls, Datatype) && built.sendCallback == LastValue(calls, SendCallback)
              && built.memoryType == LastValue(calls, MemoryType)
              && !(HasBit(built.opAttrMask, FORCE_IMM_CMPL) && HasBit(built.opAttrMask, NO_IMM_CMPL))
  {
    ConfigureFaithful(calls);
    if Configure(calls).Some? {
      var s := Configure(calls).value;
      forall f ensures Value(Build(s), f) == LastValue(calls, f) { assert Value(s.params, f) == LastValue(calls, f); }
      assert Value(Build(s), Flags) == LastValue(calls, Flags);
      assert Value(Build(s), ReplyBuffer) == LastValue(calls, ReplyBuffer);
      assert Value(Build(s), Datatype) == LastValue(calls, Datatype);
      assert Value(Build(s), SendCallback) == LastValue(calls, SendCallback);
      assert Value(Build(s), MemoryType) == LastValue(calls, MemoryType);
    }
  }

  lemma NothingSet()
    ensures Faithful(Zeroed, [])
  {
  }
}
