/** The packet header codec and the packet hash (reticulum-core/src/packet.rs). */
module Packets {
  import opened Base
  import opened Crypto

  const DATA: Byte := 0
  const ANNOUNCE: Byte := 1
  const LINKREQUEST: Byte := 2
  const PROOF: Byte := 3

  const SINGLE: Byte := 0
  const GROUP: Byte := 1
  const PLAIN: Byte := 2
  const LINK: Byte := 3

  const HEADER_1: Byte := 0
  const HEADER_2: Byte := 1
  const BROADCAST: Byte := 0
  const TRANSPORT: Byte := 1

  const NO_CONTEXT: Byte := 0
  const RESOURCE: Byte := 0x01
  const PATH_RESPONSE: Byte := 0x0B
  const KEEPALIVE: Byte := 0xFA
  const LINKCLOSE: Byte := 0xFC
  const LRRTT: Byte := 0xFE
  const LRPROOF: Byte := 0xFF

  datatype Packet = Packet(
    headerType: Byte,
    packetType: Byte,
    destType: Byte,
    propagation: Byte,
    contextFlag: bool,
    ifac: bool,
    hops: Byte,
    transportId: Option<Bytes>,
    dest: Bytes,
    context: Byte,
    data: Bytes)

  function Header1(destType: Byte, packetType: Byte, dest: Bytes, context: Byte, data: Bytes): Packet {
    Packet(HEADER_1, packetType, destType, BROADCAST, false, false, 0, None, dest, context, data)
  }

  function Bit(b: bool): nat {
    if b then 1 else 0
  }

  /** The flag byte; the fields occupy disjoint bits, so the source's `|` is a sum. */
  function FlagByte(i: int, h: int, c: int, r: int, d: int, t: int): int {
    128 * i + 64 * h + 32 * c + 16 * r + 4 * d + t
  }

  function Flags(p: Packet): Byte {
    FlagByte(Bit(p.ifac), p.headerType % 2, Bit(p.contextFlag), p.propagation % 2, p.destType % 4, p.packetType % 4)
  }

  function Encode(p: Packet): Bytes {
    [Flags(p), p.hops]
    + (if p.headerType == HEADER_2 && p.transportId.Some? then p.transportId.value else [])
    + p.dest + [p.context] + p.data
  }

  // The flag byte's fields, from the top bit down.
  function IfacBit(f: Byte): nat { f / 128 % 2 }
  function HeaderBit(f: Byte): Byte { f / 64 % 2 }
  function ContextBit(f: Byte): nat { f / 32 % 2 }
  function PropagationBit(f: Byte): Byte { f / 16 % 2 }
  function DestBits(f: Byte): Byte { f / 4 % 4 }
  function TypeBits(f: Byte): Byte { f % 4 }

  function Decode(b: Bytes): Result<Packet> {
    if |b| < 2 then
      Err(Truncated)
    else
      var headerType := HeaderBit(b[0]);
      var addresses := if headerType == HEADER_1 then 16 else 32;
      if |b| < 2 + addresses + 1 then
        Err(Truncated)
      else
        Ok(Packet(
             headerType, TypeBits(b[0]), DestBits(b[0]), PropagationBit(b[0]),
             ContextBit(b[0]) == 1, IfacBit(b[0]) == 1, b[1],
             if headerType == HEADER_2 then Some(b[2..18]) else None,
             b[addresses - 14..addresses + 2], b[addresses + 2], b[addresses + 3..]))
  }

  /** The packets the wire format can represent. */
  predicate WellFormed(p: Packet) {
    && p.headerType < 2 && p.packetType < 4 && p.destType < 4 && p.propagation < 2
    && |p.dest| == 16
    && (p.headerType == HEADER_2 <==> p.transportId.Some?)
    && (p.transportId.Some? ==> |p.transportId.value| == 16)
  }

  /** `f` is made of six fields of one or two bits. */
  predicate Fields(f: int, i: int, h: int, c: int, r: int, d: int, t: int) {
    && 0 <= i < 2 && 0 <= h < 2 && 0 <= c < 2 && 0 <= r < 2 && 0 <= d < 4 && 0 <= t < 4
    && f == FlagByte(i, h, c, r, d, t)
  }

  lemma HighFields(f: int, i: int, h: int, c: int, r: int, d: int, t: int)
    requires Fields(f, i, h, c, r, d, t)
    ensures f / 128 % 2 == i && f / 64 % 2 == h && f / 32 % 2 == c
  {
  }

  lemma LowFields(f: int, i: int, h: int, c: int, r: int, d: int, t: int)
    requires Fields(f, i, h, c, r, d, t)
    ensures f / 16 % 2 == r && f / 4 % 4 == d && f % 4 == t
  {
    var high := 8 * i + 4 * h + 2 * c + r;
    assert f == 16 * high + (4 * d + t);
    Low(high, d, t, f);
    assert high == 2 * (4 * i + 2 * h + c) + r;
  }

  lemma Low(high: nat, d: nat, t: nat, f: nat)
    requires d < 4 && t < 4 && f == 16 * high + (4 * d + t)
    ensures f / 16 == high && f / 4 % 4 == d && f % 4 == t
  {
    assert f / 4 == 4 * high + d;
  }

  lemma AllFields(f: Byte)
    ensures Fields(f, IfacBit(f), HeaderBit(f), ContextBit(f), PropagationBit(f), DestBits(f), TypeBits(f))
  {
    var a, b, d, e, g := f / 4, f / 16, f / 32, f / 64, f / 128;
    assert f == 4 * a + f % 4;
    assert a == 4 * b + a % 4 by { assert a / 4 == b; }
    assert b == 2 * d + b % 2 by { assert b / 2 == d; }
    assert d == 2 * e + d % 2 by { assert d / 2 == e; }
    assert e == 2 * g + e % 2 by { assert e / 2 == g; }
  }

  ghost predicate FieldsOf(f: Byte, p: Packet) {
    && HeaderBit(f) == p.headerType && TypeBits(f) == p.packetType && DestBits(f) == p.destType
    && PropagationBit(f) == p.propagation && ContextBit(f) == Bit(p.contextFlag) && IfacBit(f) == Bit(p.ifac)
  }

  lemma InRange(p: Packet)
    requires WellFormed(p)
    ensures p.headerType % 2 == p.headerType && p.propagation % 2 == p.propagation
    ensures p.destType % 4 == p.destType && p.packetType % 4 == p.packetType
  {
  }

  lemma FlagFields(p: Packet)
    requires WellFormed(p)
    ensures FieldsOf(Flags(p), p)
  {
    InRange(p);
    HighFields(Flags(p), Bit(p.ifac), p.headerType, Bit(p.contextFlag), p.propagation, p.destType, p.packetType);
    LowFields(Flags(p), Bit(p.ifac), p.headerType, Bit(p.contextFlag), p.propagation, p.destType, p.packetType);
    hide FlagByte;
  }

  lemma Slices<T>(a: seq<T>, t: seq<T>, d: seq<T>, x: T, r: seq<T>, n: nat, m: nat)
    requires n == |a| + |t| && m == n + |d|
    ensures var b := a + t + d + [x] + r;
            |b| == m + 1 + |r| && b[..|a|] == a && b[|a|..n] == t && b[n..m] == d && b[m] == x && b[m + 1..] == r
  {
  }

  lemma Glue<T>(b: seq<T>, n: nat, m: nat)
    requires 2 <= n <= m < |b|
    ensures b == [b[0], b[1]] + b[2..n] + b[n..m] + [b[m]] + b[m + 1..]
  {
  }

  lemma FlagsType(p: Packet)
    requires p.packetType < 4
    ensures TypeBits(Flags(p)) == p.packetType
  {
    var high := 32 * Bit(p.ifac) + 16 * (p.headerType % 2) + 8 * Bit(p.contextFlag) + 4 * (p.propagation % 2)
      + p.destType % 4;
    assert Flags(p) == 4 * high + p.packetType;
  }

  /** Decoding undoes encoding on every representable packet. */
  lemma DecodeEncode(p: Packet)
    requires WellFormed(p)
    ensures Decode(Encode(p)) == Ok(p)
  {
    FlagFields(p);
    hide Flags, HeaderBit, TypeBits, DestBits, PropagationBit, ContextBit, IfacBit;
    var t := if p.headerType == HEADER_2 then p.transportId.value else [];
    Slices([Flags(p), p.hops], t, p.dest, p.context, p.data, 2 + |t|, 18 + |t|);
  }

  lemma DecodedFlags(b: Bytes)
    requires Decode(b).Ok?
    ensures WellFormed(Decode(b).value) && Flags(Decode(b).value) == b[0]
  {
    var p := Decode(b).value;
    AllFields(b[0]);
    assert FieldsOf(b[0], p);
    hide FlagByte, HeaderBit, TypeBits, DestBits, PropagationBit, ContextBit, IfacBit;
    InRange(p);
  }

  /** Every accepted byte string is the encoding of what it decodes to. */
  lemma EncodeDecode(b: Bytes)
    requires Decode(b).Ok?
    ensures WellFormed(Decode(b).value)
    ensures Encode(Decode(b).value) == b
  {
    DecodedFlags(b);
    hide Flags, HeaderBit, TypeBits, DestBits, PropagationBit, ContextBit, IfacBit;
    var n := if Decode(b).value.headerType == HEADER_2 then 18 else 2;
    Glue(b, n, n + 16);
  }

  /** The hashed part leaves out hops, header type, propagation, transport id and both flags. */
  function HashablePart(p: Packet): Bytes {
    [p.destType % 4 * 4 + p.packetType % 4] + p.dest + [p.context] + p.data
  }

  function FullPacketHash(c: Suite, p: Packet): Bytes {
    c.sha(HashablePart(p))
  }

  function PacketHash(c: Suite, p: Packet): Bytes {
    Truncate(FullPacketHash(c, p))
  }
}
