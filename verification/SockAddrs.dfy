/**
 Socket addresses: `SockAddr::new` lays a native struct out in memory, `from_storage` reads it back
 (section 3.3 of RFC 3493). Both go through native-endian integers and network byte order.
 */
module SockAddrs {
  import opened Wrappers

  newtype U16 = x: int | 0 <= x < 0x1_0000
  newtype U32 = x: int | 0 <= x < 0x1_0000_0000

  type Octets4 = s: seq<Byte> | |s| == 4 witness [0, 0, 0, 0]
  type Octets16 = s: seq<Byte> | |s| == 16 witness [0, 0, 0, 0, 0, 0, 0, 0, 0, 0, 0, 0, 0, 0, 0, 0]

  /** `std::net::SocketAddr`. */
  datatype SocketAddr =
    | V4(ip4: Octets4, port: U16)
    | V6(ip6: Octets16, port: U16, flowinfo: U32, scopeId: U32)

  /** The native structs, field by field, with fields as native integers. */
  datatype SocketStorage =
    | SockaddrIn(family: U16, port: U16, addr: U32, zero: seq<Byte>)
    | SockaddrIn6(family: U16, port: U16, flowinfo: U32, addr6: Octets16, scopeId: U32)

  const AF_INET: U16 := 2
  const AF_INET6: U16 := 10

  /** A native integer in memory; the host's byte order is `big`. */
  function ToNe2(x: U16, big: bool): (s: seq<Byte>)
    ensures |s| == 2
  {
    var lo, hi := (x % 256) as Byte, (x / 256) as Byte;
    if big then [hi, lo] else [lo, hi]
  }

  function FromNe2(s: seq<Byte>, big: bool): U16
    requires |s| == 2
  {
    if big then s[0] as U16 * 256 + s[1] as U16 else s[1] as U16 * 256 + s[0] as U16
  }

  function ToNe4(x: U32, big: bool): (s: seq<Byte>)
    ensures |s| == 4
  {
    var lo, hi := (x % 0x1_0000) as U16, (x / 0x1_0000) as U16;
    if big then ToNe2(hi, big) + ToNe2(lo, big) else ToNe2(lo, big) + ToNe2(hi, big)
  }

  function FromNe4(s: seq<Byte>, big: bool): U32
    requires |s| == 4
  {
    var a, b := FromNe2(s[..2], big) as U32, FromNe2(s[2..], big) as U32;
    if big then a * 0x1_0000 + b else b * 0x1_0000 + a
  }

  function SwapBytes2(x: U16): U16 { (x % 256) * 256 + x / 256 }

  function SwapBytes4(x: U32): U32 {
    SwapBytes2((x % 0x1_0000) as U16) as U32 * 0x1_0000 + SwapBytes2((x / 0x1_0000) as U16) as U32
  }

  /** `to_be` and `from_be` are the same function of the host's byte order. */
  function Be2(x: U16, big: bool): U16 { if big then x else SwapBytes2(x) }

  function Be4(x: U32, big: bool): U32 { if big then x else SwapBytes4(x) }

  /** `SockAddr::new`. */
  function New(addr: SocketAddr, big: bool): SocketStorage {
    match addr
    case V4(ip, port) => SockaddrIn(AF_INET, Be2(port, big), FromNe4(ip, big), seq(8, _ => 0))
    case V6(ip, port, flowinfo, scopeId) => SockaddrIn6(AF_INET6, Be2(port, big), Be4(flowinfo, big), ip, scopeId)
  }

  /** The bytes of the struct: what UCX reads through `to_ffi`. */
  function Layout(s: SocketStorage, big: bool): seq<Byte> {
    match s
    case SockaddrIn(family, port, addr, zero) => ToNe2(family, big) + ToNe2(port, big) + ToNe4(addr, big) + zero
    case SockaddrIn6(family, port, flowinfo, addr6, scopeId) =>
      ToNe2(family, big) + ToNe2(port, big) + ToNe4(flowinfo, big) + addr6 + ToNe4(scopeId, big)
  }

  /** `SocketStorage::len`. */
  function Len(s: SocketStorage): nat {
    if s.SockaddrIn? then 16 else 28
  }

  /** `Ipv4Addr::from(u32)`: most significant octet first. */
  function Ipv4Octets(x: U32): Octets4 { ToNe4(x, true) }

  /** `from_storage` on a `sockaddr_storage` of 128 bytes; it ignores flow information and scope. */
  function FromStorage(mem: seq<Byte>, big: bool): Option<SocketAddr>
    requires |mem| == 128
  {
    var family := FromNe2(mem[..2], big);
    var port := Be2(FromNe2(mem[2..4], big), big);
    if family == AF_INET then
      Some(V4(Ipv4Octets(Be4(FromNe4(mem[4..8], big), big)), port))
    else if family == AF_INET6 then
      Some(V6(mem[8..24], port, 0, 0))
    else None
  }

  /** What survives the trip. */
  function WithoutFlowAndScope(addr: SocketAddr): SocketAddr {
    match addr
    case V4(_, _) => addr
    case V6(ip, port, _, _) => V6(ip, port, 0, 0)
  }

  lemma Ne2RoundTrip(x: U16, big: bool)
    ensures FromNe2(ToNe2(x, big), big) == x
  {
  }

  lemma Ne4RoundTrip(x: U32, big: bool)
    ensures FromNe4(ToNe4(x, big), big) == x
  {
    var s := ToNe4(x, big);
    var lo, hi := (x % 0x1_0000) as U16, (x / 0x1_0000) as U16;
    Ne2RoundTrip(lo, big);
    Ne2RoundTrip(hi, big);
    assert s[..2] == ToNe2(if big then hi else lo, big) && s[2..] == ToNe2(if big then lo else hi, big);
  }

  lemma Be2Twice(x: U16, big: bool)
    ensures Be2(Be2(x, big), big) == x
  {
    assert SwapBytes2(x) % 256 == x / 256 && SwapBytes2(x) / 256 == x % 256;
  }

  lemma Halves(hi: U16, lo: U16)
    ensures var x := hi as U32 * 0x1_0000 + lo as U32; (x % 0x1_0000) as U16 == lo && (x / 0x1_0000) as U16 == hi
  {
  }

  lemma SwapReads(s: seq<Byte>)
    requires |s| == 2
    ensures SwapBytes2(FromNe2(s, false)) == FromNe2(s, true)
    ensures ToNe2(FromNe2(s, true), true) == s
  {
    var x := FromNe2(s, false);
    assert x % 256 == s[0] as U16 && x / 256 == s[1] as U16;
  }

  /** Converting from network order after a native read is a big-endian read. */
  lemma NetworkRead(s: seq<Byte>, big: bool)
    requires |s| == 4
    ensures Be4(FromNe4(s, big), big) == FromNe4(s, true)
  {
    if !big {
      Halves(FromNe2(s[2..], false), FromNe2(s[..2], false));
      SwapReads(s[..2]);
      SwapReads(s[2..]);
    }
  }

  /** An address stored in network order reads the same octets back on either host. */
  lemma OctetsSurvive(ip: Octets4, big: bool)
    ensures Ipv4Octets(Be4(FromNe4(ip, big), big)) == ip
  {
    NetworkRead(ip, big);
    Halves(FromNe2(ip[..2], true), FromNe2(ip[2..], true));
    SwapReads(ip[..2]);
    SwapReads(ip[2..]);
    assert ip == ip[..2] + ip[2..];
  }

  /** The declared length is the size of the struct. */
  lemma LenIsLayoutSize(addr: SocketAddr, big: bool)
    ensures |Layout(New(addr, big), big)| == Len(New(addr, big))
  {
  }

  /**
   On a host of either byte order, an address laid out by `SockAddr::new` at the start of any storage
   is read back with the same IP address and port, and with zero flow information and scope; so the
   trip is the identity exactly when those were zero.
   */
  lemma AddressRoundTrip(addr: SocketAddr, big: bool, mem: seq<Byte>)
    requires |mem| == 128 && Layout(New(addr, big), big) <= mem
    ensures FromStorage(mem, big) == Some(WithoutFlowAndScope(addr))
    ensures FromStorage(mem, big) == Some(addr) <==> addr.V4? || (addr.flowinfo == 0 && addr.scopeId == 0)
  {
    var s := New(addr, big);
    var bytes := Layout(s, big);
    LenIsLayoutSize(addr, big);
    assert mem[..2] == bytes[..2] == ToNe2(s.family, big);
    assert mem[2..4] == bytes[2..4] == ToNe2(s.port, big);
    Ne2RoundTrip(s.family, big);
    Ne2RoundTrip(s.port, big);
    Be2Twice(addr.port, big);
    if addr.V4? {
      assert mem[4..8] == bytes[4..8] == ToNe4(s.addr, big);
      Ne4RoundTrip(s.addr, big);
      OctetsSurvive(addr.ip4, big);
    } else {
      assert mem[8..24] == bytes[8..24] == addr.ip6;
    }
  }

  /** Anything else in the family field is not an address. */
  lemma OtherFamiliesAreRefused(mem: seq<Byte>, big: bool)
    requires |mem| == 128
    ensures FromStorage(mem, big).None? <==> mem[..2] != ToNe2(AF_INET, big) && mem[..2] != ToNe2(AF_INET6, big)
  {
    var f := FromNe2(mem[..2], big);
    assert ToNe2(f, big) == mem[..2];
    Ne2RoundTrip(AF_INET, big);
    Ne2RoundTrip(AF_INET6, big);
  }

  /** Network order: the most significant byte first. */
  predicate NetworkBytes2(bytes: seq<Byte>, x: U16) {
    |bytes| == 2 && x as int == 0x100 * bytes[0] as int + bytes[1] as int
  }

  predicate NetworkBytes4(bytes: seq<Byte>, x: U32) {
    |bytes| == 4 &&
    x as int == 0x100_0000 * bytes[0] as int + 0x1_0000 * bytes[1] as int + 0x100 * bytes[2] as int + bytes[3] as int
  }

  lemma Be2Bytes(x: U16, big: bool)
    ensures NetworkBytes2(ToNe2(Be2(x, big), big), x)
  {
    BigEndian2(x);
    if !big { SwappedBytes(x); }
  }

  lemma BigEndian2(x: U16)
    ensures NetworkBytes2(ToNe2(x, true), x)
  {
  }

  lemma BigEndian4(x: U32)
    ensures NetworkBytes4(ToNe4(x, true), x)
  {
    BigEndian2((x % 0x1_0000) as U16);
    BigEndian2((x / 0x1_0000) as U16);
  }

  lemma Be4Bytes(x: U32, big: bool)
    ensures ToNe4(Be4(x, big), big) == ToNe4(x, true)
  {
    if !big {
      var lo, hi := (x % 0x1_0000) as U16, (x / 0x1_0000) as U16;
      Halves(SwapBytes2(lo), SwapBytes2(hi));
      SwappedBytes(lo);
      SwappedBytes(hi);
    }
  }

  lemma SwappedBytes(x: U16)
    ensures ToNe2(SwapBytes2(x), false) == ToNe2(x, true)
  {
    assert SwapBytes2(x) % 256 == x / 256 && SwapBytes2(x) / 256 == x % 256;
  }

  lemma Ne2Reads(s: seq<Byte>, big: bool)
    requires |s| == 2
    ensures ToNe2(FromNe2(s, big), big) == s
  {
  }

  /** The number that a four-byte read composes from its halves. */
  lemma Ne4Halves(hi: U16, lo: U16, big: bool)
    ensures ToNe4(hi as U32 * 0x1_0000 + lo as U32, big) ==
            if big then ToNe2(hi, big) + ToNe2(lo, big) else ToNe2(lo, big) + ToNe2(hi, big)
  {
    Halves(hi, lo);
  }

  lemma Ne4Reads(s: seq<Byte>, big: bool)
    requires |s| == 4
    ensures ToNe4(FromNe4(s, big), big) == s
  {
    var a, b := FromNe2(s[..2], big), FromNe2(s[2..], big);
    Ne4Halves(if big then a else b, if big then b else a, big);
    Ne2Reads(s[..2], big);
    Ne2Reads(s[2..], big);
    assert s == s[..2] + s[2..];
  }

  /**
   What UCX finds in memory, on a host of either byte order: the family (2 or 10) in native order, the port and
   the flow information in network order, the octets of the address as they are, zeros after an IPv4 address.
   */
  lemma NetworkLayout(addr: SocketAddr, big: bool)
    ensures var bytes := Layout(New(addr, big), big);
            && |bytes| == (if addr.V4? then 16 else 28)
            && bytes[..2] == ToNe2(if addr.V4? then 2 else 10, big)
            && NetworkBytes2(bytes[2..4], addr.port)
            && (addr.V4? ==> bytes[4..8] == addr.ip4 && bytes[8..] == [0, 0, 0, 0, 0, 0, 0, 0])
            && (addr.V6? ==> NetworkBytes4(bytes[4..8], addr.flowinfo) && bytes[8..24] == addr.ip6)
            && (addr.V6? ==> bytes[24..] == ToNe4(addr.scopeId, big))
  {
    var bytes := Layout(New(addr, big), big);
    Be2Bytes(addr.port, big);
    assert bytes[2..4] == ToNe2(Be2(addr.port, big), big);
    if addr.V4? {
      Ne4Reads(addr.ip4, big);
      assert bytes[4..8] == ToNe4(FromNe4(addr.ip4, big), big);
    } else {
      Be4Bytes(addr.flowinfo, big);
      BigEndian4(addr.flowinfo);
      assert bytes[4..8] == ToNe4(Be4(addr.flowinfo, big), big);
    }
  }

  /** What reading any storage gives: port from network order, octets in order, flow information and scope dropped. */
  lemma StorageReads(mem: seq<Byte>, big: bool)
    requires |mem| == 128
    ensures mem[..2] == ToNe2(2, big) ==>
              FromStorage(mem, big) == Some(V4(mem[4..8], (256 * mem[2] as int + mem[3] as int) as U16))
    ensures mem[..2] == ToNe2(10, big) ==>
              FromStorage(mem, big) == Some(V6(mem[8..24], (256 * mem[2] as int + mem[3] as int) as U16, 0, 0))
  {
    Ne2RoundTrip(2, big);
    Ne2RoundTrip(10, big);
    if !big { SwapReads(mem[2..4]); }
    OctetsSurvive(mem[4..8], big);
  }
}
