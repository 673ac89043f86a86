/**
 * The Yamux frame header (src/muxer/yamux/yamux_frame.cpp): twelve bytes, version, type, flags,
 * stream id and length, the last three big-endian. A `Packet` is what a connection puts on the wire:
 * one header built by one of the message constructors, followed by the payload of a data message.
 */
module YamuxFrame {
  import opened Basics

  const HEADER_LENGTH: nat := 12
  const INITIAL_WINDOW: nat := 256 * 1024
  const DEFAULT_VERSION: byte := 0

  datatype FrameType = DATA | WINDOW_UPDATE | PING | GO_AWAY

  datatype Flag = NONE | SYN | ACK | FIN | RST

  datatype Frame = Frame(version: byte, ty: FrameType, flags: u16, streamId: u32, length: u32)

  function TypeCode(t: FrameType): byte {
    match t
    case DATA => 0
    case WINDOW_UPDATE => 1
    case PING => 2
    case GO_AWAY => 3
  }

  function FlagCode(f: Flag): byte {
    match f
    case NONE => 0
    case SYN => 1
    case ACK => 2
    case FIN => 4
    case RST => 8
  }

  /** Bit test `flag & flags != 0`; every flag but NONE is a single bit. */
  predicate FlagIsSet(flags: u16, f: Flag) {
    FlagCode(f) != 0 && flags / FlagCode(f) % 2 == 1
  }

  /** `flags & ~(RST | FIN)`. */
  function WithoutRstFin(flags: u16): u16 {
    flags / 16 * 16 + flags % 4
  }

  function PutU16(n: u16): seq<byte> { [n / 0x100, n % 0x100] }

  function PutU32(n: u32): seq<byte> {
    [n / 0x100_0000, n / 0x1_0000 % 0x100, n / 0x100 % 0x100, n % 0x100]
  }

  function GetU16(b: seq<byte>): u16
    requires |b| == 2
  {
    (b[0] as int) * 0x100 + b[1]
  }

  function GetU32(b: seq<byte>): u32
    requires |b| == 4
  {
    (b[0] as int) * 0x100_0000 + (b[1] as int) * 0x1_0000 + (b[2] as int) * 0x100 + b[3]
  }

  function FrameBytes(version: byte, ty: FrameType, flag: Flag, streamId: u32, length: u32): (r: seq<byte>)
    ensures |r| == HEADER_LENGTH
  {
    [version, TypeCode(ty)] + PutU16(FlagCode(flag)) + PutU32(streamId) + PutU32(length)
  }

  function ParseFrame(b: seq<byte>): Option<Frame> {
    if |b| < HEADER_LENGTH then None
    else if b[1] > 3 then None
    else
      var ty := if b[1] == 0 then DATA else if b[1] == 1 then WINDOW_UPDATE else if b[1] == 2 then PING else GO_AWAY;
      Some(Frame(b[0], ty, GetU16(b[2..4]), GetU32(b[4..8]), GetU32(b[8..12])))
  }

  lemma U32RoundTrip(n: u32)
    ensures GetU32(PutU32(n)) == n
  {
    var a, b, c := n / 0x100_0000, n / 0x1_0000, n / 0x100;
    assert c == 0x100 * b + n / 0x100 % 0x100 by { assert n / 0x100 / 0x100 == n / 0x1_0000; }
    assert b == 0x100 * a + n / 0x1_0000 % 0x100 by { assert n / 0x1_0000 / 0x100 == n / 0x100_0000; }
  }

  /** A printed header, whatever follows it, is read back field by field. */
  lemma FrameRoundTrip(version: byte, ty: FrameType, flag: Flag, streamId: u32, length: u32, rest: seq<byte>)
    ensures ParseFrame(FrameBytes(version, ty, flag, streamId, length) + rest)
         == Some(Frame(version, ty, FlagCode(flag), streamId, length))
  {
    var b := FrameBytes(version, ty, flag, streamId, length) + rest;
    assert b[2..4] == PutU16(FlagCode(flag));
    assert b[4..8] == PutU32(streamId);
    assert b[8..12] == PutU32(length);
    U32RoundTrip(streamId);
    U32RoundTrip(length);
  }

  /** Conversely, printing what was read reproduces the bytes read, for every header with at most one known flag. */
  lemma FrameParseThenPrint(b: seq<byte>, flag: Flag)
    requires |b| == HEADER_LENGTH && ParseFrame(b).Some? && ParseFrame(b).value.flags == FlagCode(flag)
    ensures var f := ParseFrame(b).value; FrameBytes(f.version, f.ty, flag, f.streamId, f.length) == b
  {
    var f := ParseFrame(b).value;
    var p := FrameBytes(f.version, f.ty, flag, f.streamId, f.length);
    assert b[2..4] == [b[2], b[3]] && b[4..8] == [b[4], b[5], b[6], b[7]] && b[8..12] == [b[8], b[9], b[10], b[11]];
    PutOfGet(b[4..8]);
    PutOfGet(b[8..12]);
    assert p[4..8] == b[4..8] && p[8..12] == b[8..12];
    assert p == [b[0], b[1], b[2], b[3]] + b[4..8] + b[8..12];
  }

  lemma PutOfGet(b: seq<byte>)
    requires |b| == 4
    ensures PutU32(GetU32(b)) == b
  {
    var n: int, b0: int, b1: int, b2: int := GetU32(b), b[0], b[1], b[2];
    assert n / 0x100 == b0 * 0x1_0000 + b1 * 0x100 + b2;
    assert n / 0x1_0000 == b0 * 0x100 + b1;
    assert n / 0x100_0000 == b0;
  }

  /** The messages the constructors build (yamux_frame.cpp:47-126). */
  datatype Packet =
    | PSyn(sid: u32)
    | PAck(sid: u32)
    | PFin(sid: u32)
    | PRst(sid: u32)
    | PData(sid: u32, data: seq<byte>)
    | PWin(sid: u32, delta: u32)
    | PPing(value: u32)
    | PPong(value: u32)
    | PGoAway(code: u32)

  function HeaderOf(p: Packet): Frame {
    match p
    case PSyn(sid) => Frame(DEFAULT_VERSION, DATA, FlagCode(SYN), sid, 0)
    case PAck(sid) => Frame(DEFAULT_VERSION, DATA, FlagCode(ACK), sid, 0)
    case PFin(sid) => Frame(DEFAULT_VERSION, DATA, FlagCode(FIN), sid, 0)
    case PRst(sid) => Frame(DEFAULT_VERSION, DATA, FlagCode(RST), sid, 0)
    case PData(sid, data) => Frame(DEFAULT_VERSION, DATA, FlagCode(NONE), sid, ToU32(|data|))
    case PWin(sid, delta) => Frame(DEFAULT_VERSION, WINDOW_UPDATE, FlagCode(NONE), sid, delta)
    case PPing(v) => Frame(DEFAULT_VERSION, PING, FlagCode(SYN), 0, v)
    case PPong(v) => Frame(DEFAULT_VERSION, PING, FlagCode(ACK), 0, v)
    case PGoAway(code) => Frame(DEFAULT_VERSION, GO_AWAY, FlagCode(NONE), 0, code)
  }

  function FlagOf(p: Packet): Flag {
    match p
    case PSyn(_) => SYN
    case PAck(_) => ACK
    case PFin(_) => FIN
    case PRst(_) => RST
    case PPing(_) => SYN
    case PPong(_) => ACK
    case _ => NONE
  }

  function Payload(p: Packet): seq<byte> { if p.PData? then p.data else [] }

  function PacketBytes(p: Packet): (r: seq<byte>)
    ensures |r| == HEADER_LENGTH + |Payload(p)|
  {
    var h := HeaderOf(p);
    FrameBytes(h.version, h.ty, FlagOf(p), h.streamId, h.length) + Payload(p)
  }

  function WireBytes(ps: seq<Packet>): seq<byte> {
    if ps == [] then [] else PacketBytes(ps[0]) + WireBytes(ps[1..])
  }

  /** Packets a connection may send: a stream id where one is needed, a payload the length field can hold. */
  predicate Sendable(p: Packet) {
    match p
    case PData(sid, data) => sid != 0 && 0 < |data| < 0x1_0000_0000
    case PSyn(sid) => sid != 0
    case PAck(sid) => sid != 0
    case PFin(sid) => sid != 0
    case PRst(sid) => sid != 0
    case PWin(sid, _) => sid != 0
    case _ => true
  }

  lemma PacketHeaderParses(p: Packet, rest: seq<byte>)
    ensures ParseFrame(PacketBytes(p) + rest) == Some(HeaderOf(p))
  {
    var h := HeaderOf(p);
    FrameRoundTrip(h.version, h.ty, FlagOf(p), h.streamId, h.length, Payload(p) + rest);
    assert PacketBytes(p) + rest
        == FrameBytes(h.version, h.ty, FlagOf(p), h.streamId, h.length) + (Payload(p) + rest);
  }

  /** The length field truncates: a payload of 2^32 bytes is announced as an empty data frame. */
  lemma OversizedPayloadIsMisread(p: Packet, rest: seq<byte>)
    requires p.PData?
    ensures ParseFrame(PacketBytes(p) + rest).Some?
    ensures ParseFrame(PacketBytes(p) + rest).value.length == |p.data| <==> |p.data| < 0x1_0000_0000
  {
    PacketHeaderParses(p, rest);
  }

  // ---------------------------------------------------------------------------------------------
  // The layout on the wire.

  /** Bytes as a number in base 256, the most significant first. */
  function BigEndian(b: seq<byte>): nat {
    if b == [] then 0 else 0x100 * BigEndian(b[..|b| - 1]) + b[|b| - 1]
  }

  lemma BigEndian2(b: seq<byte>)
    requires |b| == 2
    ensures BigEndian(b) == 0x100 * (b[0] as int) + b[1]
  {
    var first := b[..1];
    assert first == [b[0]] && first[..0] == [];
    assert BigEndian(first) == 0x100 * BigEndian(first[..0]) + b[0] == b[0];
  }

  lemma BigEndian4(b: seq<byte>)
    requires |b| == 4
    ensures BigEndian(b) == 0x100_0000 * (b[0] as int) + 0x1_0000 * (b[1] as int) + 0x100 * (b[2] as int) + b[3]
  {
    var b3, b2 := b[..3], b[..2];
    assert b3[..2] == b2 && b3[2] == b[2] && b2[0] == b[0] && b2[1] == b[1];
    BigEndian2(b2);
    assert BigEndian(b3) == 0x100 * BigEndian(b2) + b[2];
    assert BigEndian(b) == 0x100 * BigEndian(b3) + b[3];
  }

  /** A flag is a bit of the second byte. */
  lemma FlagBits(hi: byte, lo: byte)
    ensures var flags: u16 := 0x100 * (hi as int) + lo;
            && (FlagIsSet(flags, SYN) <==> lo % 2 == 1) && (FlagIsSet(flags, ACK) <==> lo / 2 % 2 == 1)
            && (FlagIsSet(flags, FIN) <==> lo / 4 % 2 == 1) && (FlagIsSet(flags, RST) <==> lo / 8 % 2 == 1)
  {
    var h: int, l: int := hi, lo;
    assert (0x100 * h + l) / 2 == 0x80 * h + l / 2;
    assert (0x100 * h + l) / 4 == 0x40 * h + l / 4;
    assert (0x100 * h + l) / 8 == 0x20 * h + l / 8;
  }

  /** The four flags are the four low bits. */
  lemma LowBits(h: nat, m: nat)
    requires m < 16 && 16 * h + m < 0x1_0000
    ensures var flags: u16 := 16 * h + m;
            && (FlagIsSet(flags, SYN) <==> m % 2 == 1) && (FlagIsSet(flags, ACK) <==> m / 2 % 2 == 1)
            && (FlagIsSet(flags, FIN) <==> m / 4 % 2 == 1) && (FlagIsSet(flags, RST) <==> m / 8 % 2 == 1)
  {
    assert (16 * h + m) / 2 == 8 * h + m / 2;
    assert (16 * h + m) / 4 == 4 * h + m / 4;
    assert (16 * h + m) / 8 == 2 * h + m / 8;
  }

  /** Holding RST and FIN back leaves every other flag as it is. */
  lemma FlagsHeldBack(flags: u16)
    ensures var rest := WithoutRstFin(flags);
            && !FlagIsSet(rest, RST) && !FlagIsSet(rest, FIN)
            && (FlagIsSet(rest, SYN) <==> FlagIsSet(flags, SYN)) && (FlagIsSet(rest, ACK) <==> FlagIsSet(flags, ACK))
            && flags == rest + (if FlagIsSet(flags, FIN) then 4 else 0) + if FlagIsSet(flags, RST) then 8 else 0
  {
    hide FlagIsSet, WithoutRstFin;
    var h: nat, l: nat := flags / 16, flags % 16;
    SplitFlags(flags, h, l);
    LowBits(h, l);
    LowBits(h, l % 4);
    Nibble(l);
    assert l / 4 % 2 == (if FlagIsSet(flags, FIN) then 1 else 0) && l / 8 % 2 == if FlagIsSet(flags, RST) then 1 else 0;
  }

  lemma SplitFlags(flags: u16, h: nat, l: nat)
    requires h == flags / 16 && l == flags % 16
    ensures flags == 16 * h + l && WithoutRstFin(flags) == 16 * h + l % 4
  {
    assert (16 * h + l) % 4 == l % 4;
  }

  lemma Nibble(l: nat)
    requires l < 16
    ensures l % 4 % 2 == l % 2 && l % 4 / 2 % 2 == l / 2 % 2 && l % 4 / 4 == 0 && l % 4 / 8 == 0
    ensures l == l % 4 + 4 * (l / 4 % 2) + 8 * (l / 8 % 2)
  {
    assert l == 0 || l == 1 || l == 2 || l == 3 || l == 4 || l == 5 || l == 6 || l == 7 || l == 8 || l == 9 ||
      l == 10 ||
      l == 11 || l == 12 || l == 13 || l == 14 || l == 15;
  }

  /** What a header says: version, type and flags, and two numbers, most significant byte first. */
  lemma HeaderLayout(b: seq<byte>)
    ensures ParseFrame(b).Some? <==> |b| >= 12 && b[1] <= 3
    ensures ParseFrame(b).Some? ==>
              var f := ParseFrame(b).value;
              && f.version == b[0]
              && f.ty == (match b[1] case 0 => DATA case 1 => WINDOW_UPDATE case 2 => PING case _ => GO_AWAY)
              && f.flags == BigEndian(b[2..4]) && f.streamId == BigEndian(b[4..8]) && f.length == BigEndian(b[8..12])
              && (FlagIsSet(f.flags, SYN) <==> b[3] % 2 == 1) && (FlagIsSet(f.flags, ACK) <==> b[3] / 2 % 2 == 1)
              && (FlagIsSet(f.flags, FIN) <==> b[3] / 4 % 2 == 1) && (FlagIsSet(f.flags, RST) <==> b[3] / 8 % 2 == 1)
  {
    if ParseFrame(b).Some? {
      hide FlagIsSet, BigEndian;
      BigEndian2(b[2..4]);
      BigEndian4(b[4..8]);
      BigEndian4(b[8..12]);
      FlagBits(b[2], b[3]);
    }
  }

  /** The bytes of each message, number by number. */
  lemma MessageLayout(p: Packet)
    ensures var b := PacketBytes(p);
            && b[0] == 0
            && b[1]
            == (match p case PWin(_, _) => 1 case PPing(_) => 2 case PPong(_) => 2 case PGoAway(_) => 3 case _ => 0)
            && BigEndian(b[2..4])
            == (match p case PSyn(_) => 1 case PPing(_) => 1 case PAck(_) => 2 case PPong(_) => 2 case PFin(_) => 4
                case PRst(_) => 8 case _ => 0)
            && BigEndian(b[4..8]) == (if p.PPing? || p.PPong? || p.PGoAway? then 0 else p.sid)
            && BigEndian(b[8..12])
            == (match p case PData(_, data) => |data| % 0x1_0000_0000 case PWin(_, delta) => delta case PPing(v) => v
                case PPong(v) => v case PGoAway(code) => code case _ => 0)
            && b[12..] == Payload(p)
  {
    var b := PacketBytes(p);
    var h := HeaderOf(p);
    var header := FrameBytes(h.version, h.ty, FlagOf(p), h.streamId, h.length);
    assert b == header + Payload(p) && b[..12] == header && b[12..] == Payload(p);
    assert b[2..4] == header[2..4] && b[4..8] == header[4..8] && b[8..12] == header[8..12];
    FrameRoundTrip(h.version, h.ty, FlagOf(p), h.streamId, h.length, []);
    assert header + [] == header;
    HeaderLayout(header);
  }
}
