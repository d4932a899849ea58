/** Remote-key buffers: the wire frame, and the ownership of the buffers UCX packs keys into. */
module RkeyFraming {
  import opened Wrappers
  import opened StatusCodec

  /** `u32::to_le_bytes`. */
  function ToLeBytes(n: nat): (bytes: seq<Byte>)
    requires n < TWO_32
    ensures |bytes| == 4
  {
    [(n % 256) as Byte, (n / 256 % 256) as Byte, (n / 65536 % 256) as Byte, (n / 16777216) as Byte]
  }

  /** `u32::from_le_bytes`. */
  function FromLeBytes(bytes: seq<Byte>): (n: nat)
    requires |bytes| == 4
    ensures n < TWO_32
  {
    bytes[0] as nat + 256 * bytes[1] as nat + 65536 * bytes[2] as nat + 16777216 * bytes[3] as nat
  }

  /** `[4-byte little-endian payload length][payload]`. */
  function Frame(payload: seq<Byte>): Result<seq<Byte>, UcsStatus> {
    if |payload| >= TWO_32 then Err(OutOfRange) else Ok(ToLeBytes(|payload|) + payload)
  }

  function Unframe(buffer: seq<Byte>): Result<seq<Byte>, UcsStatus> {
    if |buffer| < 4 then Err(InvalidParam)
    else if FromLeBytes(buffer[..4]) != |buffer| - 4 then Err(InvalidParam)
    else Ok(buffer[4..])
  }

  lemma LeBytesRoundTrip(n: nat)
    requires n < TWO_32
    ensures FromLeBytes(ToLeBytes(n)) == n
  {
    assert n / 65536 == n / 256 / 256 && n / 16777216 == n / 256 / 256 / 256;
  }

  lemma LeBytesUnique(bytes: seq<Byte>)
    requires |bytes| == 4
    ensures ToLeBytes(FromLeBytes(bytes)) == bytes
  {
    var b0, b1, b2, b3 := bytes[0] as nat, bytes[1] as nat, bytes[2] as nat, bytes[3] as nat;
    var n := FromLeBytes(bytes);
    assert n == b0 + 256 * (b1 + 256 * (b2 + 256 * b3));
    assert n / 256 == b1 + 256 * (b2 + 256 * b3) && n % 256 == b0;
    assert n / 65536 == n / 256 / 256 == b2 + 256 * b3;
    assert n / 16777216 == n / 65536 / 256 == b3;
  }

  /** Unframing is exactly the inverse of framing, in both directions, errors included. */
  lemma UnframeInvertsFrame(buffer: seq<Byte>, payload: seq<Byte>)
    ensures Unframe(buffer) == Ok(payload) <==> Frame(payload) == Ok(buffer)
    ensures Frame(payload).Ok? <==> |payload| < TWO_32
    ensures Unframe(buffer).Ok? <==> exists p :: Frame(p) == Ok(buffer)
  {
    if |buffer| >= 4 {
      LeBytesUnique(buffer[..4]);
      assert buffer == buffer[..4] + buffer[4..];
      if Unframe(buffer).Ok? { assert Frame(buffer[4..]) == Ok(buffer); }
    }
    if |payload| < TWO_32 { FrameThenUnframe(payload); }
    if p :| Frame(p) == Ok(buffer) { FrameThenUnframe(p); }
  }

  /** The bytes on the wire: the length, least significant byte first, then the payload; and which error says no. */
  lemma WireFormat(payload: seq<Byte>, buffer: seq<Byte>)
    ensures Frame(payload).Ok? ==>
              var b := Frame(payload).value;
              && |b| == 4 + |payload| && b[4..] == payload
              && |payload| == b[0] as int + 0x100 * b[1] as int + 0x1_0000 * b[2] as int + 0x100_0000 * b[3] as int
    ensures Frame(payload).Err? ==> Frame(payload).error == OutOfRange
    ensures Unframe(buffer).Err? ==> Unframe(buffer).error == InvalidParam
  {
    if Frame(payload).Ok? {
      LeBytesRoundTrip(|payload|);
      assert Frame(payload).value[..4] == ToLeBytes(|payload|);
    }
  }

  lemma FrameThenUnframe(payload: seq<Byte>)
    requires |payload| < TWO_32
    ensures Unframe(Frame(payload).value) == Ok(payload)
  {
    var buffer := Frame(payload).value;
    LeBytesRoundTrip(|payload|);
    assert buffer[..4] == ToLeBytes(|payload|) && buffer[4..] == payload;
  }

  /** Different payloads have different frames, and neither frame is a prefix of the other. */
  lemma FramesArePrefixFree(p: seq<Byte>, q: seq<Byte>)
    requires |p| < TWO_32 && |q| < TWO_32 && Frame(p).value <= Frame(q).value
    ensures p == q
  {
    var b, c := Frame(p).value, Frame(q).value;
    assert b[..4] == c[..4];
    assert b[..4] == ToLeBytes(|p|) && c[..4] == ToLeBytes(|q|);
    LeBytesRoundTrip(|p|);
    LeBytesRoundTrip(|q|);
    assert b == c;
    assert p == b[4..] && q == c[4..];
  }

  /** The method form of `frame_rkey_payload`, filling one vector. */
  method FrameRkeyPayload(payload: seq<Byte>) returns (r: Result<seq<Byte>, UcsStatus>)
    ensures r == Frame(payload)
  {
    if |payload| >= TWO_32 { return Err(OutOfRange); }
    var framed: seq<Byte> := [];
    framed := framed + ToLeBytes(|payload|);
    framed := framed + payload;
    assert framed == ToLeBytes(|payload|) + payload;
    return Ok(framed);
  }

  /** A pointer to a packed buffer; 0 is null. */
  type Ptr = nat

  /** What `ucp_rkey_pack` answers. */
  datatype PackReply = Packed(payload: seq<Byte>) | PackFailed(error: UcsStatus)

  /** The books on packed buffers: handed out so far, still held by somebody, given back and in which order. */
  datatype Ledger = Ledger(next: Ptr, held: set<Ptr>, released: seq<Ptr>)
  {
    function HandOut(): Ledger {
      this.(next := next + 1, held := held + {next})
    }

    function GiveBack(p: Ptr): Ledger {
      this.(held := held - {p}, released := released + [p])
    }
  }

  /** A buffer handed out is held or was given back, exactly once; nothing else was given back. */
  ghost predicate Balanced(l: Ledger) {
    && l.next > 0
    && (forall p | p in l.held :: 0 < p < l.next)
    && (forall p :: multiset(l.released)[p] == if 0 < p < l.next && p !in l.held then 1 else 0)
  }

  lemma HandOutKeepsBalance(l: Ledger)
    requires Balanced(l)
    ensures Balanced(l.HandOut())
  {
  }

  lemma GiveBackKeepsBalance(l: Ledger, p: Ptr)
    requires Balanced(l) && p in l.held
    ensures Balanced(l.GiveBack(p))
  {
    assert multiset(l.released + [p]) == multiset(l.released) + multiset{p};
  }

  /** UCX's side: the packed buffers, and which were given back in which order. */
  class RkeyHeap {
    var buffers: map<Ptr, seq<Byte>>   // packed and not yet released
    var next: Ptr
    var released: seq<Ptr>

    ghost function Book(): Ledger
      reads this
    {
      Ledger(next, buffers.Keys, released)
    }

    ghost predicate Valid()
      reads this
    {
      Balanced(Book())
    }

    constructor ()
      ensures Valid() && Book() == Ledger(1, {}, [])
    {
      buffers, next, released := map[], 1, [];
    }

    method RkeyPack(reply: PackReply) returns (r: Result<Ptr, UcsStatus>)
      requires Valid()
      modifies this
      ensures Valid()
      ensures reply.PackFailed? ==> r == Err(reply.error) && buffers == old(buffers) && Book() == old(Book())
      ensures reply.Packed? ==>
                r == Ok(old(next)) && r.value !in old(buffers) && Book() == old(Book()).HandOut() &&
                buffers == old(buffers)[r.value := reply.payload]
    {
      if reply.PackFailed? { return Err(reply.error); }
      HandOutKeepsBalance(Book());
      r := Ok(next);
      buffers := buffers[next := reply.payload];
      next := next + 1;
      assert Book() == old(Book()).HandOut();
    }

    /** The caller must own `p`: a buffer given back twice would unbalance the book. */
    method RkeyBufferRelease(p: Ptr)
      requires Valid() && p in buffers
      modifies this
      ensures Valid() && buffers == old(buffers) - {p} && Book() == old(Book()).GiveBack(p)
    {
      GiveBackKeepsBalance(Book(), p);
      buffers := buffers - {p};
      released := released + [p];
      assert Book() == old(Book()).GiveBack(p);
    }
  }

  class PackedRkeyBuffer {
    const heap: RkeyHeap
    var buffer: Ptr
    const size: nat
    const framed: seq<Byte>

    constructor (heap: RkeyHeap, buffer: Ptr, size: nat, framed: seq<Byte>)
      ensures this.heap == heap && this.buffer == buffer && this.size == size && this.framed == framed
    {
      this.heap := heap;
      this.buffer := buffer;
      this.size := size;
      this.framed := framed;
    }

    /** Owns a packed buffer, and holds the frame of what is in it. */
    ghost predicate Owns()
      reads this, heap
    {
      buffer != 0 && buffer in heap.buffers && Frame(heap.buffers[buffer]) == Ok(framed) && size == |heap.buffers[buffer]|
    }

    static method FromRawParts(heap: RkeyHeap, buffer: Ptr) returns (r: Result<PackedRkeyBuffer, UcsStatus>)
      requires heap.Valid() && buffer in heap.buffers
      ensures r.Ok? <==> Frame(heap.buffers[buffer]).Ok?
      ensures r.Ok? ==> fresh(r.value) && r.value.heap == heap && r.value.buffer == buffer && r.value.Owns()
      ensures r.Err? ==> r.error == OutOfRange
    {
      var payload := heap.buffers[buffer];
      if |payload| >= TWO_32 { return Err(OutOfRange); }
      var framed := ToLeBytes(|payload|);
      framed := framed + payload;
      var packed := new PackedRkeyBuffer(heap, buffer, |payload|, framed);
      return Ok(packed);
    }

    /** Gives the buffer back once; dropping again does nothing. */
    method Drop()
      requires heap.Valid() && (buffer != 0 ==> buffer in heap.buffers)
      modifies this`buffer, heap
      ensures heap.Valid() && buffer == 0
      ensures heap.Book() == LedgerStep(old(heap.Book()), ByDrop(old(buffer)))
      ensures heap.buffers == old(heap.buffers) - {old(buffer)}
    {
      if buffer != 0 {
        heap.RkeyBufferRelease(buffer);
        buffer := 0;
      }
    }
  }

  /** `pack_rkey`: a buffer that could not be framed is given back at once, any other is owned by the result. */
  method PackRkey(heap: RkeyHeap, reply: PackReply) returns (r: Result<PackedRkeyBuffer, UcsStatus>)
    requires heap.Valid()
    modifies heap
    ensures heap.Valid() && heap.Book() == LedgerStep(old(heap.Book()), ByPackRkey(reply))
    ensures r.Ok? <==> reply.Packed? && |reply.payload| < TWO_32
    ensures r.Ok? ==>
              && fresh(r.value) && r.value.heap == heap && r.value.Owns() && Frame(reply.payload) == Ok(r.value.framed)
              && heap.buffers == old(heap.buffers)[r.value.buffer := reply.payload] && r.value.buffer !in old(heap.buffers)
    ensures r.Err? ==> heap.buffers == old(heap.buffers)
    ensures r.Err? ==> r.error == if reply.PackFailed? then reply.error else OutOfRange
  {
    var packed := heap.RkeyPack(reply);
    if packed.Err? { return Err(packed.error); }
    r := PackedRkeyBuffer.FromRawParts(heap, packed.value);
    if r.Err? {
      heap.RkeyBufferRelease(packed.value);
      assert heap.buffers == old(heap.buffers);
    }
  }

  /** `RemoteKey::pack`: the buffer is framed into a vector and given back on every path. */
  method RemoteKeyPack(heap: RkeyHeap, reply: PackReply) returns (r: Result<seq<Byte>, UcsStatus>)
    requires heap.Valid()
    modifies heap
    ensures heap.Valid() && heap.Book() == LedgerStep(old(heap.Book()), ByRemoteKeyPack(reply))
    ensures heap.buffers == old(heap.buffers)
    ensures r == if reply.PackFailed? then Err(reply.error) else Frame(reply.payload)
  {
    var packed := heap.RkeyPack(reply);
    if packed.Err? { return Err(packed.error); }
    r := FrameRkeyPayload(heap.buffers[packed.value]);
    heap.RkeyBufferRelease(packed.value);
    assert heap.buffers == old(heap.buffers);
  }

  /** The calls that pack or drop; dropping a wrapper that is already empty passes the null pointer. */
  datatype LedgerAction = ByPackRkey(reply: PackReply) | ByRemoteKeyPack(reply: PackReply) | ByDrop(p: Ptr)

  /** What each call does to the book; the three methods above ensure it of the heap's own. */
  function LedgerStep(l: Ledger, a: LedgerAction): Ledger {
    match a
    case ByPackRkey(Packed(payload)) => if |payload| < TWO_32 then l.HandOut() else l.HandOut().GiveBack(l.next)
    case ByRemoteKeyPack(Packed(_)) => l.HandOut().GiveBack(l.next)
    case ByDrop(p) => if p in l.held then l.GiveBack(p) else l
    case _ => l
  }

  function LedgerRun(l: Ledger, acts: seq<LedgerAction>): Ledger
    decreases |acts|
  {
    if acts == [] then l else LedgerRun(LedgerStep(l, acts[0]), acts[1..])
  }

  lemma {:induction false} RunKeepsBalance(l: Ledger, acts: seq<LedgerAction>)
    requires Balanced(l)
    ensures Balanced(LedgerRun(l, acts))
    decreases |acts|
  {
    if acts != [] {
      HandOutKeepsBalance(l);
      GiveBackKeepsBalance(l.HandOut(), l.next);
      if acts[0].ByDrop? && acts[0].p in l.held { GiveBackKeepsBalance(l, acts[0].p); }
      RunKeepsBalance(LedgerStep(l, acts[0]), acts[1..]);
    }
  }

  /** From an empty heap, after any calls: each buffer handed out is held or was given back, exactly once. */
  lemma EveryBufferReleasedOnce(acts: seq<LedgerAction>, p: Ptr)
    ensures var l := LedgerRun(Ledger(1, {}, []), acts);
            multiset(l.released)[p] == if 0 < p < l.next && p !in l.held then 1 else 0
  {
    RunKeepsBalance(Ledger(1, {}, []), acts);
  }
}
