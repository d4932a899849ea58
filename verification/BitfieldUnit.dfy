/**
 Bit-field storage: numbers of up to 64 bits packed at arbitrary bit offsets of a byte array.
 On a little-endian target, bit `k` of the storage is bit `k` of the array read as a little-endian
 number; on a big-endian target bits are counted from the most significant end.
 */
module BitfieldUnit {
  import opened Wrappers
  import opened Bits

  predicate ByteBit(b: bv8, i: nat)
    requires i < 8
  {
    b & (1 << i) == 1 << i
  }

  /** The byte array as one number: byte 0 is least significant iff `big` is false. */
  function IntOf(s: seq<bv8>, big: bool): nat {
    if s == [] then 0
    else if big then s[|s| - 1] as int + 256 * IntOf(s[..|s| - 1], big)
    else s[0] as int + 256 * IntOf(s[1..], big)
  }

  /** Where storage bit `index` sits in the number. */
  function Position(index: nat, size: nat, big: bool): nat
    requires index < 8 * size
  {
    if big then 8 * size - 1 - index else index
  }

  /** Where a field of `w` bits at storage offset `off` starts in the number. */
  function FieldStart(off: nat, w: nat, size: nat, big: bool): nat
    requires off + w <= 8 * size
  {
    if big then 8 * size - off - w else off
  }

  /** The number stored in the `w` bits at storage offset `off`. */
  function FieldOf(s: seq<bv8>, big: bool, off: nat, w: nat): nat
    requires off + w <= 8 * |s|
  {
    (IntOf(s, big) / Pow2(FieldStart(off, w, |s|, big))) % Pow2(w)
  }

  /** `after` is `before` with the low `w` bits of `val` written at storage offset `off`. */
  predicate Written(before: seq<bv8>, after: seq<bv8>, big: bool, off: nat, w: nat, val: nat)
    requires off + w <= 8 * |before|
  {
    |after| == |before| &&
    IntOf(after, big) == Deposit(IntOf(before, big), FieldStart(off, w, |before|, big), w, val)
  }

  /** The bit that the storage convention assigns to `index`. */
  predicate StorageBit(s: seq<bv8>, big: bool, index: nat)
    requires index < 8 * |s|
  {
    TestBit(s[index / 8] as int, if big then 7 - index % 8 else index % 8)
  }

  function Weight(b: bool): nat { if b then 1 else 0 }

  /** The eight bits of a byte, least significant first. */
  function BitsOf(b: bv8): seq<bool> {
    seq(8, i requires 0 <= i < 8 => ByteBit(b, i))
  }

  lemma ByteValue(b: bv8)
    ensures b as int == EightBitValue(BitsOf(b))
  {
  }

  lemma ByteBits(b: bv8, i: nat)
    requires i < 8
    ensures ByteBit(b, i) <==> TestBit(b as int, i)
  {
    ByteValue(b);
    EightBits(b as int, BitsOf(b), i);
  }

  function EightBitValue(bits: seq<bool>): nat
    requires |bits| == 8
  {
    Weight(bits[0]) + 2 * Weight(bits[1]) + 4 * Weight(bits[2]) + 8 * Weight(bits[3])
    + 16 * Weight(bits[4]) + 32 * Weight(bits[5]) + 64 * Weight(bits[6]) + 128 * Weight(bits[7])
  }

  lemma EightBits(x: nat, bits: seq<bool>, i: nat)
    requires |bits| == 8 && i < 8 && x == EightBitValue(bits)
    ensures TestBit(x, i) <==> bits[i]
  {
    SumOfEight(bits);
    SumBits(bits, i);
  }

  /** The number whose bits, least significant first, are `bits`. */
  function Sum(bits: seq<bool>): nat {
    if bits == [] then 0 else Weight(bits[0]) + 2 * Sum(bits[1..])
  }

  lemma {:induction false} SumBits(bits: seq<bool>, i: nat)
    requires i < |bits|
    ensures TestBit(Sum(bits), i) <==> bits[i]
  {
    assert Sum(bits) / 2 == Sum(bits[1..]);
    if i > 0 { SumBits(bits[1..], i - 1); }
  }

  lemma SumOfEight(bits: seq<bool>)
    requires |bits| == 8
    ensures Sum(bits) == EightBitValue(bits)
  {
    assert Sum(bits[7..]) == Weight(bits[7]);
    assert Sum(bits[6..]) == Weight(bits[6]) + 2 * Sum(bits[7..]) by { assert bits[6..][1..] == bits[7..]; }
    assert Sum(bits[5..]) == Weight(bits[5]) + 2 * Sum(bits[6..]) by { assert bits[5..][1..] == bits[6..]; }
    assert Sum(bits[4..]) == Weight(bits[4]) + 2 * Sum(bits[5..]) by { assert bits[4..][1..] == bits[5..]; }
    assert Sum(bits[3..]) == Weight(bits[3]) + 2 * Sum(bits[4..]) by { assert bits[3..][1..] == bits[4..]; }
    assert Sum(bits[2..]) == Weight(bits[2]) + 2 * Sum(bits[3..]) by { assert bits[2..][1..] == bits[3..]; }
    assert Sum(bits[1..]) == Weight(bits[1]) + 2 * Sum(bits[2..]) by { assert bits[1..][1..] == bits[2..]; }
  }

  /** The storage convention is a numbering of the bits of one number. */
  lemma StorageBitIsNumberBit(s: seq<bv8>, big: bool, index: nat)
    requires index < 8 * |s|
    ensures StorageBit(s, big, index) <==> TestBit(IntOf(s, big), Position(index, |s|, big))
  {
    if big { BigEndianBit(s, index); } else { LittleEndianBit(s, index); }
  }

  lemma {:induction false} LittleEndianBit(s: seq<bv8>, index: nat)
    requires index < 8 * |s|
    ensures TestBit(s[index / 8] as int, index % 8) <==> TestBit(IntOf(s, false), index)
    decreases |s|
  {
    var rest := s[1..];
    Digit(s[0] as int, IntOf(rest, false), index);
    if index >= 8 {
      ByteBefore(index);
      LittleEndianBit(rest, index - 8);
      assert rest[(index - 8) / 8] == s[index / 8];
    } else {
      assert index / 8 == 0 && index % 8 == index;
    }
  }

  lemma {:induction false} BigEndianBit(s: seq<bv8>, index: nat)
    requires index < 8 * |s|
    ensures TestBit(s[index / 8] as int, 7 - index % 8) <==> TestBit(IntOf(s, true), 8 * |s| - 1 - index)
    decreases |s|
  {
    var n, rest := |s|, s[..|s| - 1];
    var p := 8 * n - 1 - index;
    Digit(s[n - 1] as int, IntOf(rest, true), p);
    if p >= 8 {
      BigEndianBit(rest, index);
      assert rest[index / 8] == s[index / 8];
    } else {
      assert index / 8 == n - 1 && 7 - index % 8 == p;
    }
  }

  lemma ByteBefore(index: nat)
    requires index >= 8
    ensures (index - 8) / 8 == index / 8 - 1 && (index - 8) % 8 == index % 8
  {
  }

  /** The bits of a base-256 numeral. */
  lemma Digit(low: nat, high: nat, p: nat)
    requires low < 256
    ensures TestBit(low + 256 * high, p) <==> if p < 8 then TestBit(low, p) else TestBit(high, p - 8)
  {
    assert Pow2(8) == 256;
    ConcatBits(low, 8, high, p);
  }

  lemma {:induction false} IntOfBound(s: seq<bv8>, big: bool)
    ensures IntOf(s, big) < Pow2(8 * |s|)
    decreases |s|
  {
    if s != [] {
      IntOfBound(if big then s[..|s| - 1] else s[1..], big);
      assert Pow2(8 * |s|) == 256 * Pow2(8 * (|s| - 1)) by {
        assert Pow2(8) == 256;
        Pow2Add(8, 8 * (|s| - 1));
      }
    }
  }

  /** The number determines the bytes. */
  lemma {:induction false} IntOfInjective(s: seq<bv8>, t: seq<bv8>, big: bool)
    requires |s| == |t| && IntOf(s, big) == IntOf(t, big)
    ensures s == t
    decreases |s|
  {
    if s != [] {
      var n := |s|;
      if big {
        SameDigits(s[n - 1], t[n - 1], IntOf(s[..n - 1], big), IntOf(t[..n - 1], big));
        IntOfInjective(s[..n - 1], t[..n - 1], big);
        assert s == s[..n - 1] + [s[n - 1]] && t == t[..n - 1] + [t[n - 1]];
      } else {
        SameDigits(s[0], t[0], IntOf(s[1..], big), IntOf(t[1..], big));
        IntOfInjective(s[1..], t[1..], big);
        assert s == [s[0]] + s[1..] && t == [t[0]] + t[1..];
      }
    }
  }

  lemma SameDigits(b: bv8, c: bv8, x: nat, y: nat)
    requires b as int + 256 * x == c as int + 256 * y
    ensures b == c && x == y
  {
    assert b as int == c as int;
    assert (b as int) as bv8 == b && (c as int) as bv8 == c;
  }

  /** A field inside one byte, in either order: the byte's own bits, counted from its other end if `big`. */
  lemma FieldInByte(s: seq<bv8>, big: bool, i: nat, o: nat, w: nat)
    requires i < |s| && o + w <= 8
    ensures FieldOf(s, big, 8 * i + o, w) == (s[i] as int / Pow2(if big then 8 - o - w else o)) % Pow2(w)
  {
    var x, lo, b := IntOf(s, big), FieldStart(8 * i + o, w, |s|, big), s[i] as int;
    var lo' := if big then 8 - o - w else o;
    forall t: nat ensures TestBit(Extract(x, lo, w), t) <==> TestBit(Extract(b, lo', w), t) {
      ExtractBits(x, lo, w, t);
      ExtractBits(b, lo', w, t);
      if t < w {
        var k := if big then 8 * i + o + w - 1 - t else 8 * i + o + t;
        assert k / 8 == i;
        StorageBitIsNumberBit(s, big, k);
      }
    }
    SameBits(Extract(x, lo, w), Extract(b, lo', w));
    ExtractIsDivMod(x, lo, w);
    ExtractIsDivMod(b, lo', w);
  }

  lemma IntOfTwoBytes(s: seq<bv8>, big: bool)
    requires |s| == 2
    ensures IntOf(s, big) == if big then 256 * s[0] as int + s[1] as int else s[0] as int + 256 * s[1] as int
  {
    var rest := if big then s[..1] else s[1..];
    assert IntOf([], big) == 0;
    assert rest[..0] == [] && rest[1..] == [];
    assert IntOf(rest, big) == rest[0] as int;
  }

  /** Two neighbouring bytes: the first is the low one in little-endian storage, the high one in big-endian storage. */
  lemma FieldOfTwoBytes(s: seq<bv8>, big: bool)
    requires |s| == 2
    ensures FieldOf(s, big, 0, 16) == if big then 256 * s[0] as int + s[1] as int else s[0] as int + 256 * s[1] as int
  {
    IntOfTwoBytes(s, big);
    IntOfBound(s, big);
    WholeNumber(IntOf(s, big), Pow2(16));
  }

  lemma WholeNumber(x: nat, p: nat)
    requires x < p
    ensures (x / Pow2(0)) % p == x
  {
  }

  class Unit {
    const bigEndian: bool
    const storage: array<bv8>

    constructor (bigEndian: bool, storage: array<bv8>)
      ensures this.bigEndian == bigEndian && this.storage == storage
    {
      this.bigEndian := bigEndian;
      this.storage := storage;
    }

    ghost function Value(): nat
      reads storage
    {
      IntOf(storage[..], bigEndian)
    }

    method GetBit(index: nat) returns (bit: bool)
      requires index < 8 * storage.Length
      ensures bit <==> TestBit(Value(), Position(index, storage.Length, bigEndian))
    {
      var byte := storage[index / 8];
      var bitIndex := if bigEndian then 7 - index % 8 else index % 8;
      bit := HasBit(byte, bitIndex);
      StorageBitIsNumberBit(storage[..], bigEndian, index);
    }

    method SetBit(index: nat, val: bool)
      requires index < 8 * storage.Length
      modifies storage
      ensures forall k: nat | k < 8 * storage.Length ::
                StorageBit(storage[..], bigEndian, k) <==>
                if k == index then val else StorageBit(old(storage[..]), bigEndian, k)
    {
      var byteIndex := index / 8;
      var bitIndex := if bigEndian then 7 - index % 8 else index % 8;
      var updated := WithBit(storage[byteIndex], bitIndex, val);
      storage[byteIndex] := updated;
      assert storage[..] == old(storage[..])[byteIndex := updated];
      BitUpdates(old(storage[..]), storage[..], bigEndian, index, val);
    }

    /** Reads the `w`-bit field at `off` as one number. */
    method Get(off: nat, w: nat) returns (val: nat)
      requires w <= 64 && off + w <= 8 * storage.Length
      ensures val == FieldOf(storage[..], bigEndian, off, w)
    {
      ghost var x, lo := Value(), FieldStart(off, w, storage.Length, bigEndian);
      val := 0;
      forall t: nat ensures !TestBit(val, t) { ZeroHasNoBits(t); }
      for i := 0 to w
        invariant forall t: nat :: TestBit(val, t) <==>
                    (if bigEndian then w - i <= t < w else t < i) && TestBit(x, lo + t)
      {
        var bit := GetBit(i + off);
        if bit {
          var index := if bigEndian then w - 1 - i else i;
          ghost var before := val;
          val := Or(val, Pow2(index));
          forall t: nat ensures TestBit(val, t) <==> TestBit(before, t) || t == index {
            OrBits(before, Pow2(index), t);
            Pow2Bits(index, t);
          }
        }
      }
      forall t: nat ensures TestBit(val, t) <==> TestBit(Extract(x, lo, w), t) { ExtractBits(x, lo, w, t); }
      SameBits(val, Extract(x, lo, w));
      ExtractIsDivMod(x, lo, w);
    }

    /** Writes the low `w` bits of `val` into the field at `off` and changes nothing else. */
    method Set(off: nat, w: nat, val: nat)
      requires w <= 64 && off + w <= 8 * storage.Length
      modifies storage
      ensures Written(old(storage[..]), storage[..], bigEndian, off, w, val)
    {
      ghost var s0 := storage[..];
      for i := 0 to w
        invariant forall k: nat | k < 8 * storage.Length ::
                    StorageBit(storage[..], bigEndian, k) <==>
                    if bigEndian && off + w - i <= k < off + w then TestBit(val, off + w - 1 - k)
                    else if !bigEndian && off <= k < off + i then TestBit(val, k - off)
                    else StorageBit(s0, bigEndian, k)
      {
        var mask := Pow2(i);
        var valBitIsSet := And(val, mask) == mask;
        MaskTest(val, i);
        var index := if bigEndian then w - 1 - i else i;
        SetBit(index + off, valBitIsSet);
      }
      FieldWritten(s0, storage[..], bigEndian, off, w, val);
    }
  }

  /** Setting or clearing one bit of a byte. */
  lemma ByteUpdate(b: bv8, i: nat, val: bool, j: nat)
    requires i < 8 && j < 8
    ensures TestBit((if val then b | (1 << i) else b & !(1 << i)) as int, j) <==>
            if i == j then val else TestBit(b as int, j)
  {
    ByteMask(b, i, val, j);
    ByteBits(b, j);
    ByteBits(if val then b | (1 << i) else b & !(1 << i), j);
  }

  lemma ByteMask(b: bv8, i: nat, val: bool, j: nat)
    requires i < 8 && j < 8
    ensures ByteBit(if val then b | (1 << i) else b & !(1 << i), j) <==> if i == j then val else ByteBit(b, j)
  {
  }

  /** `y` is the byte value `x` with bit `i` set to `val`. */
  predicate OneBitSet(x: nat, y: nat, i: nat, val: bool) {
    forall j: nat | j < 8 :: TestBit(y, j) <==> if i == j then val else TestBit(x, j)
  }

  method HasBit(byte: bv8, bitIndex: nat) returns (bit: bool)
    requires bitIndex < 8
    ensures bit <==> TestBit(byte as int, bitIndex)
  {
    var mask: bv8 := 1 << bitIndex;
    bit := byte & mask == mask;
    ByteBits(byte, bitIndex);
  }

  lemma ByteUpdates(b: bv8, i: nat, val: bool, b': bv8)
    requires i < 8 && b' == if val then b | (1 << i) else b & !(1 << i)
    ensures OneBitSet(b as int, b' as int, i, val)
  {
    var x, y := b as int, b' as int;
    forall j: nat | j < 8 ensures TestBit(y, j) <==> if i == j then val else TestBit(x, j) {
      ByteUpdate(b, i, val, j);
    }
  }

  method WithBit(byte: bv8, bitIndex: nat, val: bool) returns (updated: bv8)
    requires bitIndex < 8
    ensures OneBitSet(byte as int, updated as int, bitIndex, val)
  {
    var mask: bv8 := 1 << bitIndex;
    updated := byte;
    if val {
      updated := updated | mask;
    } else {
      updated := updated & !mask;
    }
    ByteUpdates(byte, bitIndex, val, updated);
  }

  lemma BitUpdates(s: seq<bv8>, s': seq<bv8>, big: bool, index: nat, val: bool)
    requires index < 8 * |s| && |s'| == |s| && s' == s[index / 8 := s'[index / 8]]
    requires OneBitSet(s[index / 8] as int, s'[index / 8] as int, if big then 7 - index % 8 else index % 8, val)
    ensures forall k: nat | k < 8 * |s| ::
              StorageBit(s', big, k) <==> if k == index then val else StorageBit(s, big, k)
  {
    forall k: nat | k < 8 * |s|
      ensures StorageBit(s', big, k) <==> if k == index then val else StorageBit(s, big, k)
    {
      var j := if big then 7 - k % 8 else k % 8;
      if k / 8 == index / 8 {
        assert TestBit(s'[index / 8] as int, j) <==> if k == index then val else TestBit(s[index / 8] as int, j);
      }
    }
  }

  /** Bit by bit, writing a field is a deposit into the number. */
  lemma FieldWritten(s: seq<bv8>, s': seq<bv8>, big: bool, off: nat, w: nat, val: nat)
    requires |s| == |s'| && off + w <= 8 * |s|
    requires forall k: nat | k < 8 * |s| ::
               StorageBit(s', big, k) <==>
               if off <= k < off + w then TestBit(val, if big then off + w - 1 - k else k - off)
               else StorageBit(s, big, k)
    ensures Written(s, s', big, off, w, val)
  {
    var n, lo := |s|, FieldStart(off, w, |s|, big);
    var x, x', y := IntOf(s, big), IntOf(s', big), Deposit(IntOf(s, big), lo, w, val);
    IntOfBound(s, big);
    IntOfBound(s', big);
    forall p: nat ensures TestBit(x', p) <==> TestBit(y, p) {
      DepositBits(x, lo, w, val, p);
      if p < 8 * n {
        var k := if big then 8 * n - 1 - p else p;
        StorageBitIsNumberBit(s, big, k);
        StorageBitIsNumberBit(s', big, k);
      } else {
        SmallHasNoHighBits(x, 8 * n, p);
        SmallHasNoHighBits(x', 8 * n, p);
      }
    }
    SameBits(x', y);
  }

  /** After a write the field holds the value modulo 2^w, and every disjoint field is as before. */
  lemma WrittenField(s: seq<bv8>, s': seq<bv8>, big: bool, off: nat, w: nat, val: nat)
    requires off + w <= 8 * |s| && Written(s, s', big, off, w, val)
    ensures FieldOf(s', big, off, w) == val % Pow2(w)
    ensures forall off': nat, w': nat | off' + w' <= 8 * |s| && (off + w <= off' || off' + w' <= off) ::
              FieldOf(s', big, off', w') == FieldOf(s, big, off', w')
  {
    var n, x, x' := |s|, IntOf(s, big), IntOf(s', big);
    var lo := FieldStart(off, w, n, big);
    ExtractDeposited(x, lo, w, val);
    ExtractIsDivMod(x', lo, w);
    HighLowAreDivMod(val, w);
    forall off': nat, w': nat | off' + w' <= 8 * |s| && (off + w <= off' || off' + w' <= off)
      ensures FieldOf(s', big, off', w') == FieldOf(s, big, off', w')
    {
      var lo' := FieldStart(off', w', n, big);
      ExtractElsewhere(x, lo, w, val, lo', w');
      ExtractIsDivMod(x', lo', w');
      ExtractIsDivMod(x, lo', w');
    }
  }

  /** Writes to disjoint fields commute, byte for byte. */
  lemma WritesCommute(s: seq<bv8>, big: bool, off: nat, w: nat, val: nat, off': nat, w': nat, val': nat,
                      a: seq<bv8>, ab: seq<bv8>, b: seq<bv8>, ba: seq<bv8>)
    requires off + w <= 8 * |s| && off' + w' <= 8 * |s| && (off + w <= off' || off' + w' <= off)
    requires Written(s, a, big, off, w, val) && Written(a, ab, big, off', w', val')
    requires Written(s, b, big, off', w', val') && Written(b, ba, big, off, w, val)
    ensures ab == ba
  {
    var n := |s|;
    DepositsCommute(IntOf(s, big), FieldStart(off, w, n, big), w, val, FieldStart(off', w', n, big), w', val');
    IntOfInjective(ab, ba, big);
  }

  /** A write is determined by its arguments. */
  lemma WrittenUnique(s: seq<bv8>, a: seq<bv8>, b: seq<bv8>, big: bool, off: nat, w: nat, val: nat)
    requires off + w <= 8 * |s| && Written(s, a, big, off, w, val) && Written(s, b, big, off, w, val)
    ensures a == b
  {
    IntOfInjective(a, b, big);
  }

  /** The bounds that `get` and `set` assert in debug builds. */
  predicate AssertedBounds(off: nat, w: nat, size: nat) {
    w <= 64 && off / 8 < size && (off + w) / 8 <= size
  }

  /**
   The asserted bounds do not keep the loops inside the storage: under them every touched bit exists
   exactly when `off + w <= 8 * size`, which a 2-bit field at offset 7 of one byte misses.
   */
  lemma AssertedBoundsAdmitOverrun(off: nat, w: nat, size: nat)
    requires AssertedBounds(off, w, size)
    ensures (forall i: nat | i < w :: Touches(off, i) < size) <==> off + w <= 8 * size
    ensures AssertedBounds(7, 2, 1) && Touches(7, 1) == 1
  {
    if w > 0 { assert Touches(off, w - 1) == (w - 1 + off) / 8; }
  }

  /** The byte that step `i` of a field access at `off` touches. */
  function Touches(off: nat, i: nat): nat { (i + off) / 8 }

  const TWO_24 := 0x100_0000

  /** A C `int`. */
  newtype CInt = x: int | -0x8000_0000 <= x < 0x8000_0000

  /** `transmute::<c_int, u32>`. */
  function ToU32(x: CInt): (u: nat) {
    if x < 0 then x as int + TWO_32 else x as int
  }

  /** `transmute::<u32, c_int>`. */
  function FromU32(u: nat): (x: CInt)
    requires u < TWO_32
  {
    if u < TWO_31 then u as CInt else (u - TWO_32) as CInt
  }

  /** The only bit-field of the bindings: the 24-bit `_flags2` of `_IO_FILE`. */
  class IoFile {
    const bitfield1: Unit

    /** `new_bitfield_1`: zeroed storage with the flags written into it. */
    constructor (bigEndian: bool, flags2: CInt)
      ensures fresh(bitfield1) && fresh(bitfield1.storage)
      ensures bitfield1.bigEndian == bigEndian && bitfield1.storage.Length == 3
      ensures Written([0, 0, 0], bitfield1.storage[..], bigEndian, 0, 24, ToU32(flags2))
    {
      var zeroed := new bv8[3](_ => 0);
      bitfield1 := new Unit(bigEndian, zeroed);
      new;
      assert bitfield1.storage[..] == [0, 0, 0];
      bitfield1.Set(0, 24, ToU32(flags2));
    }

    method Flags2() returns (flags2: CInt)
      requires bitfield1.storage.Length == 3
      ensures flags2 as int == FieldOf(bitfield1.storage[..], bitfield1.bigEndian, 0, 24)
    {
      var u := bitfield1.Get(0, 24);
      Pow2Of24();
      flags2 := FromU32(u);
    }

    method SetFlags2(val: CInt)
      requires bitfield1.storage.Length == 3
      modifies bitfield1.storage
      ensures Written(old(bitfield1.storage[..]), bitfield1.storage[..], bitfield1.bigEndian, 0, 24, ToU32(val))
    {
      bitfield1.Set(0, 24, ToU32(val));
    }
  }

  lemma Pow2Of24()
    ensures Pow2(24) == TWO_24
  {
    assert Pow2(8) == 256;
    Pow2Add(8, 8);
    Pow2Add(16, 8);
  }

  /**
   Whatever the three bytes held, setting the flags and reading them back gives the argument modulo
   2^24: the argument itself exactly when it is a 24-bit number.
   */
  lemma Flags2RoundTrip(s: seq<bv8>, s': seq<bv8>, big: bool, val: CInt)
    requires |s| == 3 && Written(s, s', big, 0, 24, ToU32(val))
    ensures FieldOf(s', big, 0, 24) == val as int % TWO_24
    ensures FieldOf(s', big, 0, 24) == val as int <==> 0 <= val as int < TWO_24
  {
    WrittenField(s, s', big, 0, 24, ToU32(val));
    Pow2Of24();
    if val < 0 {
      var x := val as int;
      assert (x + 256 * TWO_24) % TWO_24 == x % TWO_24;
    }
  }
}
