/** The 32-byte depth message on the wire: what the generator stores into a packet and what the
    consumer reads out of one. */
module Codec {
  import opened Words
  import opened Orders

  const MAX_SYMBOL_SIZE := 6

  type Symbol = s: seq<u8> | |s| == MAX_SYMBOL_SIZE witness [0, 0, 0, 0, 0, 0]

  // ---- layout ----

  const TYPE_OFFSET := 0
  const VERSION_OFFSET := TYPE_OFFSET + 1
  const LENGTH_OFFSET := VERSION_OFFSET + 1
  const HEADER_SIZE := LENGTH_OFFSET + 2

  const TIMESTAMP_OFFSET := HEADER_SIZE
  const SEQUENCE_OFFSET := TIMESTAMP_OFFSET + 8
  const SYMBOL_OFFSET := SEQUENCE_OFFSET + 2
  const YEAR_OFFSET := SYMBOL_OFFSET + MAX_SYMBOL_SIZE
  const MONTH_OFFSET := YEAR_OFFSET + 1
  const DAY_OFFSET := MONTH_OFFSET + 1
  const FLAGS_OFFSET := DAY_OFFSET + 1
  const STRIKE_OFFSET := FLAGS_OFFSET + 1
  const PRICE_OFFSET := STRIKE_OFFSET + 4
  const SIZE := PRICE_OFFSET + 4

  const DEPTH: u8 := 1
  const VERSION: u8 := 1
  const LENGTH: u16 := 32

  datatype Field =
    | Type | Version | Length | Timestamp | Sequence | SymbolName
    | Year | Month | Day | Flags | Strike | Price
  {
    function Offset(): nat {
      match this
      case Type => TYPE_OFFSET
      case Version => VERSION_OFFSET
      case Length => LENGTH_OFFSET
      case Timestamp => TIMESTAMP_OFFSET
      case Sequence => SEQUENCE_OFFSET
      case SymbolName => SYMBOL_OFFSET
      case Year => YEAR_OFFSET
      case Month => MONTH_OFFSET
      case Day => DAY_OFFSET
      case Flags => FLAGS_OFFSET
      case Strike => STRIKE_OFFSET
      case Price => PRICE_OFFSET
    }

    function Width(): nat {
      match this
      case Length | Sequence => 2
      case Timestamp => 8
      case SymbolName => MAX_SYMBOL_SIZE
      case Strike | Price => 4
      case Type | Version | Year | Month | Day | Flags => 1
    }

    /** The bytes this field of a message stores. */
    function Bytes(m: DepthMessage): seq<u8> {
      match this
      case Type => [DEPTH]
      case Version => [VERSION]
      case Length => Bytes16(LENGTH)
      case Timestamp => Bytes64(m.tsNs)
      case Sequence => Bytes16(m.seqNo)
      case SymbolName => m.symbol
      case Year => [m.year]
      case Month => [m.month]
      case Day => [m.day]
      case Flags => [m.flags]
      case Strike => Bytes32(ToWord(m.strike))
      case Price => Bytes32(ToWord(m.price))
    }

    predicate Covers(i: nat) {
      Offset() <= i < Offset() + Width()
    }
  }

  /** The message as the generator holds it. */
  datatype DepthMessage = DepthMessage(
    tsNs: u64, seqNo: u16, version: u8,
    strike: i32, symbol: Symbol, year: u8, month: u8, day: u8, optionFlags: u8,
    price: i32, flags: u8)

  /** The message as the consumer keeps it, without the local clock reading. */
  datatype InternalMessage = InternalMessage(
    strike: i32, symbol: Symbol, year: u8, month: u8, day: u8, optionFlags: u8,
    marketTsNs: u64, price: i32, seqNo: u16, flags: u8)

  // ---- words ----

  /** Conversion of a signed price to the unsigned word that carries it, and back. */
  function ToWord(x: i32): u32 {
    if x < 0 then x + U32_MODULUS else x
  }

  function FromWord(w: u32): i32 {
    if w < 0x8000_0000 then w else w - U32_MODULUS
  }

  function Bytes16(v: u16): seq<u8> {
    [(v / 0x100) % 0x100, v % 0x100]
  }

  function Bytes32(v: u32): seq<u8> {
    [(v / 0x100_0000) % 0x100, (v / 0x1_0000) % 0x100, (v / 0x100) % 0x100, v % 0x100]
  }

  function Bytes64(v: u64): seq<u8> {
    [(v / 0x100_0000_0000_0000) % 0x100, (v / 0x1_0000_0000_0000) % 0x100,
     (v / 0x100_0000_0000) % 0x100, (v / 0x1_0000_0000) % 0x100,
     (v / 0x100_0000) % 0x100, (v / 0x1_0000) % 0x100, (v / 0x100) % 0x100, v % 0x100]
  }

  function Read8(p: seq<u8>, offset: nat): u8
    requires offset < |p|
  {
    p[offset]
  }

  function Read16(p: seq<u8>, offset: nat): u16
    requires offset + 2 <= |p|
  {
    Read8(p, offset) * 0x100 + Read8(p, offset + 1)
  }

  function Read32(p: seq<u8>, offset: nat): u32
    requires offset + 4 <= |p|
  {
    Read16(p, offset) * 0x1_0000 + Read16(p, offset + 2)
  }

  function Read64(p: seq<u8>, offset: nat): u64
    requires offset + 8 <= |p|
  {
    Read32(p, offset) * 0x1_0000_0000 + Read32(p, offset + 4)
  }

  function ReadI32(p: seq<u8>, offset: nat): i32
    requires offset + 4 <= |p|
  {
    FromWord(Read32(p, offset))
  }

  /** Whole multiples of 256 do not reach the low byte. */
  lemma DropHigh(n: nat, x: nat)
    ensures (n * 0x100 + x) % 0x100 == x % 0x100
  {
  }

  lemma LowHalf(v: u32, hi: nat, lo: nat)
    requires v == hi * 0x1_0000 + lo && lo < 0x1_0000
    ensures v % 0x100 == lo % 0x100
    ensures (v / 0x100) % 0x100 == (lo / 0x100) % 0x100
  {
    assert v / 0x100 == hi * 0x100 + lo / 0x100;
    DropHigh(hi, lo / 0x100);
    DropHigh(hi * 0x100, lo);
  }

  lemma HighHalf(v: u32, hi: nat, lo: nat)
    requires v == hi * 0x1_0000 + lo && lo < 0x1_0000
    ensures v / 0x1_0000 == hi && v / 0x100_0000 == hi / 0x100
  {
  }

  /** A word's bytes are those of its upper half followed by those of its lower half. */
  lemma Halves32(v: u32)
    ensures Bytes32(v) == Bytes16(v / 0x1_0000) + Bytes16(v % 0x1_0000)
  {
    var hi, lo := v / 0x1_0000, v % 0x1_0000;
    LowHalf(v, hi, lo);
    HighHalf(v, hi, lo);
  }

  lemma LowBytes(v: u64, hi: nat, lo: nat)
    requires v == hi * 0x1_0000_0000 + lo && lo < 0x1_0000_0000
    ensures v % 0x100 == lo % 0x100
    ensures (v / 0x100) % 0x100 == (lo / 0x100) % 0x100
  {
    DropHigh(hi * 0x100_0000, lo);
    assert v / 0x100 == hi * 0x100_0000 + lo / 0x100;
    DropHigh(hi * 0x1_0000, lo / 0x100);
  }

  lemma ThirdByte(v: u64, hi: nat, lo: nat)
    requires v == hi * 0x1_0000_0000 + lo && lo < 0x1_0000_0000
    ensures (v / 0x1_0000) % 0x100 == (lo / 0x1_0000) % 0x100
  {
    assert v / 0x1_0000 == hi * 0x1_0000 + lo / 0x1_0000;
    DropHigh(hi * 0x100, lo / 0x1_0000);
  }

  lemma FourthByte(v: u64, hi: nat, lo: nat)
    requires v == hi * 0x1_0000_0000 + lo && lo < 0x1_0000_0000
    ensures (v / 0x100_0000) % 0x100 == (lo / 0x100_0000) % 0x100
  {
    assert v / 0x100_0000 == hi * 0x100 + lo / 0x100_0000;
    DropHigh(hi, lo / 0x100_0000);
  }

  lemma HighBytes(v: u64, hi: nat, lo: nat)
    requires v == hi * 0x1_0000_0000 + lo && lo < 0x1_0000_0000
    ensures v / 0x1_0000_0000 == hi && v / 0x100_0000_0000 == hi / 0x100
    ensures v / 0x1_0000_0000_0000 == hi / 0x1_0000 && v / 0x100_0000_0000_0000 == hi / 0x100_0000
  {
  }

  lemma Halves64(v: u64)
    ensures Bytes64(v) == Bytes32(v / 0x1_0000_0000) + Bytes32(v % 0x1_0000_0000)
  {
    var hi, lo := v / 0x1_0000_0000, v % 0x1_0000_0000;
    LowBytes(v, hi, lo);
    ThirdByte(v, hi, lo);
    FourthByte(v, hi, lo);
    HighBytes(v, hi, lo);
  }

  // ---- reading back what was written, and writing back what was read ----

  lemma ReadBack16(p: seq<u8>, offset: nat, v: u16)
    requires offset + 2 <= |p| && p[offset..offset + 2] == Bytes16(v)
    ensures Read16(p, offset) == v
  {
  }

  lemma ReadBack32(p: seq<u8>, offset: nat, v: u32)
    requires offset + 4 <= |p| && p[offset..offset + 4] == Bytes32(v)
    ensures Read32(p, offset) == v
  {
    Halves32(v);
    assert p[offset..offset + 2] == p[offset..offset + 4][..2];
    assert p[offset + 2..offset + 4] == p[offset..offset + 4][2..];
    ReadBack16(p, offset, v / 0x1_0000);
    ReadBack16(p, offset + 2, v % 0x1_0000);
  }

  lemma ReadBack64(p: seq<u8>, offset: nat, v: u64)
    requires offset + 8 <= |p| && p[offset..offset + 8] == Bytes64(v)
    ensures Read64(p, offset) == v
  {
    Halves64(v);
    assert p[offset..offset + 4] == p[offset..offset + 8][..4];
    assert p[offset + 4..offset + 8] == p[offset..offset + 8][4..];
    ReadBack32(p, offset, v / 0x1_0000_0000);
    ReadBack32(p, offset + 4, v % 0x1_0000_0000);
  }

  lemma WriteBack16(p: seq<u8>, offset: nat)
    requires offset + 2 <= |p|
    ensures Bytes16(Read16(p, offset)) == p[offset..offset + 2]
  {
  }

  lemma Read32Halves(p: seq<u8>, offset: nat)
    requires offset + 4 <= |p|
    ensures Read32(p, offset) / 0x1_0000 == Read16(p, offset)
    ensures Read32(p, offset) % 0x1_0000 == Read16(p, offset + 2)
  {
  }

  lemma WriteBack32(p: seq<u8>, offset: nat)
    requires offset + 4 <= |p|
    ensures Bytes32(Read32(p, offset)) == p[offset..offset + 4]
  {
    Halves32(Read32(p, offset));
    Read32Halves(p, offset);
    WriteBack16(p, offset);
    WriteBack16(p, offset + 2);
    assert p[offset..offset + 4] == p[offset..offset + 2] + p[offset + 2..offset + 4];
  }

  lemma Read64Halves(p: seq<u8>, offset: nat)
    requires offset + 8 <= |p|
    ensures Read64(p, offset) / 0x1_0000_0000 == Read32(p, offset)
    ensures Read64(p, offset) % 0x1_0000_0000 == Read32(p, offset + 4)
  {
  }

  lemma WriteBack64(p: seq<u8>, offset: nat)
    requires offset + 8 <= |p|
    ensures Bytes64(Read64(p, offset)) == p[offset..offset + 8]
  {
    Halves64(Read64(p, offset));
    Read64Halves(p, offset);
    WriteBack32(p, offset);
    WriteBack32(p, offset + 4);
    assert p[offset..offset + 8] == p[offset..offset + 4] + p[offset + 4..offset + 8];
  }

  // ---- the packet ----

  function Header(): seq<u8> {
    [DEPTH, VERSION] + Bytes16(LENGTH)
  }

  function Encode(m: DepthMessage): (p: seq<u8>)
    ensures |p| == SIZE
  {
    Header() + Bytes64(m.tsNs) + Bytes16(m.seqNo) + m.symbol + [m.year, m.month, m.day, m.flags]
    + Bytes32(ToWord(m.strike)) + Bytes32(ToWord(m.price))
  }

  function Decode(p: seq<u8>): InternalMessage
    requires |p| == SIZE
  {
    InternalMessage(
      ReadI32(p, STRIKE_OFFSET), p[SYMBOL_OFFSET..SYMBOL_OFFSET + MAX_SYMBOL_SIZE],
      Read8(p, YEAR_OFFSET), Read8(p, MONTH_OFFSET), Read8(p, DAY_OFFSET), 0,
      Read64(p, TIMESTAMP_OFFSET), ReadI32(p, PRICE_OFFSET), Read16(p, SEQUENCE_OFFSET), Read8(p, FLAGS_OFFSET))
  }

  /** What reaches the consumer of a message: everything but its version byte and the option's
      own flags, which arrive as zero. */
  function Received(m: DepthMessage): InternalMessage {
    InternalMessage(m.strike, m.symbol, m.year, m.month, m.day, 0, m.tsNs, m.price, m.seqNo, m.flags)
  }

  /** A message that would be received as `i`. */
  function Resent(i: InternalMessage, version: u8, optionFlags: u8): DepthMessage {
    DepthMessage(i.marketTsNs, i.seqNo, version, i.strike, i.symbol, i.year, i.month, i.day, optionFlags,
                 i.price, i.flags)
  }

  lemma EncodeFront(m: DepthMessage)
    ensures var p := Encode(m);
            && p[..HEADER_SIZE] == Header()
            && p[TIMESTAMP_OFFSET..SEQUENCE_OFFSET] == Bytes64(m.tsNs)
            && p[SEQUENCE_OFFSET..SYMBOL_OFFSET] == Bytes16(m.seqNo)
            && p[SYMBOL_OFFSET..YEAR_OFFSET] == m.symbol
  {
  }

  lemma EncodeBack(m: DepthMessage)
    ensures var p := Encode(m);
            && p[YEAR_OFFSET..STRIKE_OFFSET] == [m.year, m.month, m.day, m.flags]
            && p[STRIKE_OFFSET..PRICE_OFFSET] == Bytes32(ToWord(m.strike))
            && p[PRICE_OFFSET..SIZE] == Bytes32(ToWord(m.price))
  {
  }

  /** Each field's bytes stand at its offset. */
  lemma FieldInPlace(m: DepthMessage, f: Field)
    ensures |f.Bytes(m)| == f.Width() && f.Offset() + f.Width() <= SIZE
    ensures Encode(m)[f.Offset()..f.Offset() + f.Width()] == f.Bytes(m)
  {
  }

  /** Every byte of the packet belongs to exactly one field and is that field's byte. */
  lemma EachByteOnce(m: DepthMessage, i: nat)
    requires i < SIZE
    ensures exists f: Field ::
              && f.Covers(i) && (forall g: Field :: g.Covers(i) ==> g == f)
              && i - f.Offset() < |f.Bytes(m)| && Encode(m)[i] == f.Bytes(m)[i - f.Offset()]
  {
    var f :=
      if i < 1 then Type else if i < 2 then Version else if i < 4 then Length else if i < 12 then Timestamp
      else if i < 14 then Sequence else if i < 20 then SymbolName else if i < 21 then Year
      else if i < 22 then Month else if i < 23 then Day else if i < 24 then Flags
      else if i < 28 then Strike else Price;
    FieldInPlace(m, f);
    OnlyField(f, i);
    assert Encode(m)[i] == Encode(m)[f.Offset()..f.Offset() + f.Width()][i - f.Offset()];
  }

  lemma OnlyField(f: Field, i: nat)
    requires f.Covers(i)
    ensures forall g: Field :: g.Covers(i) ==> g == f
  {
  }

  /** Decoding an encoded message gives back every field the wire carries, signed prices over
      their full range included. */
  lemma RoundTrip(m: DepthMessage)
    ensures Decode(Encode(m)) == Received(m)
  {
    var p := Encode(m);
    EncodeFront(m);
    EncodeBack(m);
    ReadBack64(p, TIMESTAMP_OFFSET, m.tsNs);
    ReadBack16(p, SEQUENCE_OFFSET, m.seqNo);
    ReadBack32(p, STRIKE_OFFSET, ToWord(m.strike));
    ReadBack32(p, PRICE_OFFSET, ToWord(m.price));
    SingleBytes(p, m);
  }

  lemma SingleBytes(p: seq<u8>, m: DepthMessage)
    requires |p| == SIZE && p[YEAR_OFFSET..STRIKE_OFFSET] == [m.year, m.month, m.day, m.flags]
    ensures Read8(p, YEAR_OFFSET) == m.year && Read8(p, MONTH_OFFSET) == m.month
    ensures Read8(p, DAY_OFFSET) == m.day && Read8(p, FLAGS_OFFSET) == m.flags
  {
  }

  /** Re-encoding what was decoded from any packet with the right header reproduces the packet
      byte for byte, whatever the two fields that are not carried. */
  lemma ReEncode(p: seq<u8>, version: u8, optionFlags: u8)
    requires |p| == SIZE && p[..HEADER_SIZE] == Header()
    ensures Encode(Resent(Decode(p), version, optionFlags)) == p
  {
    WriteBack64(p, TIMESTAMP_OFFSET);
    WriteBack16(p, SEQUENCE_OFFSET);
    WriteBackPrice(p, STRIKE_OFFSET);
    WriteBackPrice(p, PRICE_OFFSET);
    Pieces(p);
  }

  lemma WriteBackPrice(p: seq<u8>, offset: nat)
    requires offset + 4 <= |p|
    ensures Bytes32(ToWord(ReadI32(p, offset))) == p[offset..offset + 4]
  {
    WriteBack32(p, offset);
  }

  lemma Pieces(p: seq<u8>)
    requires |p| == SIZE
    ensures p == p[..HEADER_SIZE] + p[TIMESTAMP_OFFSET..SEQUENCE_OFFSET] + p[SEQUENCE_OFFSET..SYMBOL_OFFSET]
                 + p[SYMBOL_OFFSET..YEAR_OFFSET]
                 + [p[YEAR_OFFSET], p[MONTH_OFFSET], p[DAY_OFFSET], p[FLAGS_OFFSET]]
                 + p[STRIKE_OFFSET..PRICE_OFFSET] + p[PRICE_OFFSET..SIZE]
  {
  }

  /** The number these four bytes stand for, most significant first. */
  function Number(a: nat, b: nat, c: nat, d: nat): nat {
    a * 0x100_0000 + b * 0x1_0000 + c * 0x100 + d
  }

  lemma ReadNumber(p: seq<u8>, k: nat)
    requires k + 4 <= |p|
    ensures Read32(p, k) == Number(p[k], p[k + 1], p[k + 2], p[k + 3])
    ensures Read32(p, k) >= 0x8000_0000 <==> p[k] >= 0x80
  {
  }

  /** Any packet read byte by byte. */
  lemma ReadsBytes(p: seq<u8>, i: InternalMessage)
    requires |p| == 32 && i == Decode(p)
    ensures i.marketTsNs == Number(p[4], p[5], p[6], p[7]) * 0x1_0000_0000 + Number(p[8], p[9], p[10], p[11])
    ensures i.seqNo == Number(0, 0, p[12], p[13]) && i.symbol == p[14..20]
    ensures i.year == p[20] && i.month == p[21] && i.day == p[22] && i.flags == p[23] && i.optionFlags == 0
    ensures i.strike == Number(p[24], p[25], p[26], p[27]) - if p[24] >= 0x80 then 0x1_0000_0000 else 0
    ensures i.price == Number(p[28], p[29], p[30], p[31]) - if p[28] >= 0x80 then 0x1_0000_0000 else 0
  {
    ReadNumber(p, 4);
    ReadNumber(p, 8);
    ReadNumber(p, 24);
    ReadNumber(p, 28);
  }

  lemma PacketHeader(m: DepthMessage)
    ensures Encode(m)[..4] == [1, 1, 0, 32]
  {
    EncodeFront(m);
  }

  /** The packet byte by byte: type one, version one, a length field that is the packet's own
      length, and every number most significant byte first, prices in two's complement. */
  lemma PacketBytes(m: DepthMessage, p: seq<u8>)
    requires p == Encode(m)
    ensures |p| == 32 && p[0] == 1 && p[1] == 1 && Number(0, 0, p[2], p[3]) == |p|
    ensures m.tsNs == Number(p[4], p[5], p[6], p[7]) * 0x1_0000_0000 + Number(p[8], p[9], p[10], p[11])
    ensures m.seqNo == Number(0, 0, p[12], p[13]) && m.symbol == p[14..20]
    ensures m.year == p[20] && m.month == p[21] && m.day == p[22] && m.flags == p[23]
    ensures m.strike == Number(p[24], p[25], p[26], p[27]) - if p[24] >= 0x80 then 0x1_0000_0000 else 0
    ensures m.price == Number(p[28], p[29], p[30], p[31]) - if p[28] >= 0x80 then 0x1_0000_0000 else 0
  {
    PacketHeader(m);
    assert p[0] == p[..4][0] && p[1] == p[..4][1] && p[2] == p[..4][2] && p[3] == p[..4][3];
    RoundTrip(m);
    ReadsBytes(p, Decode(p));
  }

  /** What is read depends on every byte behind the header and on no byte of it. */
  lemma HeaderIsIgnored(p: seq<u8>, q: seq<u8>)
    requires |p| == SIZE && |q| == SIZE
    ensures Decode(p) == Decode(q) <==> p[4..] == q[4..]
  {
    DecodesBody(p);
    DecodesBody(q);
    ReEncode(Header() + p[4..], 0, 0);
    ReEncode(Header() + q[4..], 0, 0);
    assert (Header() + p[4..])[4..] == p[4..] && (Header() + q[4..])[4..] == q[4..];
  }

  lemma DecodesBody(p: seq<u8>)
    requires |p| == SIZE
    ensures Decode(Header() + p[4..]) == Decode(p)
  {
    var q := Header() + p[4..];
    assert forall i :: 4 <= i < SIZE ==> q[i] == p[i];
    assert q[SYMBOL_OFFSET..SYMBOL_OFFSET + MAX_SYMBOL_SIZE] == p[SYMBOL_OFFSET..SYMBOL_OFFSET + MAX_SYMBOL_SIZE];
  }

  /** Two messages make the same packet exactly when they are received alike. */
  lemma SamePacketIff(m: DepthMessage, n: DepthMessage)
    ensures Encode(m) == Encode(n) <==> Received(m) == Received(n)
  {
    RoundTrip(m);
    RoundTrip(n);
  }

  // ---- the stores, in place ----

  method WriteU8(buf: array<u8>, offset: nat, val: u8)
    requires offset + 1 <= buf.Length
    modifies buf
    ensures buf[..offset + 1] == old(buf[..offset]) + [val]
    ensures buf[offset + 1..] == old(buf[offset + 1..])
  {
    buf[offset] := val;
  }

  method WriteU16(buf: array<u8>, offset: nat, val: u16)
    requires offset + 2 <= buf.Length
    modifies buf
    ensures buf[..offset + 2] == old(buf[..offset]) + Bytes16(val)
    ensures buf[offset + 2..] == old(buf[offset + 2..])
  {
    buf[offset] := (val / 0x100) % 0x100;
    buf[offset + 1] := val % 0x100;
  }

  method WriteU32(buf: array<u8>, offset: nat, val: u32)
    requires offset + 4 <= buf.Length
    modifies buf
    ensures buf[..offset + 4] == old(buf[..offset]) + Bytes32(val)
    ensures buf[offset + 4..] == old(buf[offset + 4..])
  {
    buf[offset] := (val / 0x100_0000) % 0x100;
    buf[offset + 1] := (val / 0x1_0000) % 0x100;
    buf[offset + 2] := (val / 0x100) % 0x100;
    buf[offset + 3] := val % 0x100;
  }

  method WriteU64(buf: array<u8>, offset: nat, val: u64)
    requires offset + 8 <= buf.Length
    modifies buf
    ensures buf[..offset + 8] == old(buf[..offset]) + Bytes64(val)
    ensures buf[offset + 8..] == old(buf[offset + 8..])
  {
    buf[offset] := (val / 0x100_0000_0000_0000) % 0x100;
    buf[offset + 1] := (val / 0x1_0000_0000_0000) % 0x100;
    buf[offset + 2] := (val / 0x100_0000_0000) % 0x100;
    buf[offset + 3] := (val / 0x1_0000_0000) % 0x100;
    buf[offset + 4] := (val / 0x100_0000) % 0x100;
    buf[offset + 5] := (val / 0x1_0000) % 0x100;
    buf[offset + 6] := (val / 0x100) % 0x100;
    buf[offset + 7] := val % 0x100;
  }

  /** `memcpy` into the packet. */
  method WriteBytes(buf: array<u8>, offset: nat, bytes: seq<u8>)
    requires offset + |bytes| <= buf.Length
    modifies buf
    ensures buf[..offset + |bytes|] == old(buf[..offset]) + bytes
    ensures buf[offset + |bytes|..] == old(buf[offset + |bytes|..])
  {
    forall k | 0 <= k < |bytes| {
      buf[offset + k] := bytes[k];
    }
  }

  method StoreFront(buf: array<u8>, msg: DepthMessage)
    requires buf.Length == SIZE
    modifies buf
    ensures buf[..YEAR_OFFSET] == Header() + Bytes64(msg.tsNs) + Bytes16(msg.seqNo) + msg.symbol
  {
    WriteU8(buf, TYPE_OFFSET, DEPTH);
    assert buf[..VERSION_OFFSET] == [DEPTH];
    WriteU8(buf, VERSION_OFFSET, VERSION);
    WriteU16(buf, LENGTH_OFFSET, LENGTH);
    assert buf[..HEADER_SIZE] == Header();
    WriteU64(buf, TIMESTAMP_OFFSET, msg.tsNs);
    WriteU16(buf, SEQUENCE_OFFSET, msg.seqNo);
    WriteBytes(buf, SYMBOL_OFFSET, msg.symbol);
  }

  method StoreBack(buf: array<u8>, msg: DepthMessage)
    requires buf.Length == SIZE
    modifies buf
    ensures buf[..] == old(buf[..YEAR_OFFSET]) + [msg.year, msg.month, msg.day, msg.flags]
                       + Bytes32(ToWord(msg.strike)) + Bytes32(ToWord(msg.price))
  {
    ghost var front := buf[..YEAR_OFFSET];
    WriteU8(buf, YEAR_OFFSET, msg.year);
    WriteU8(buf, MONTH_OFFSET, msg.month);
    assert buf[..DAY_OFFSET] == front + [msg.year, msg.month];
    WriteU8(buf, DAY_OFFSET, msg.day);
    WriteU8(buf, FLAGS_OFFSET, msg.flags);
    assert buf[..STRIKE_OFFSET] == front + [msg.year, msg.month, msg.day, msg.flags];
    WriteU32(buf, STRIKE_OFFSET, ToWord(msg.strike));
    WriteU32(buf, PRICE_OFFSET, ToWord(msg.price));
    assert buf[..SIZE] == buf[..];
  }

  /** The packet is stored field by field; the result is the encoding. */
  method Serialize(msg: DepthMessage) returns (buf: array<u8>)
    ensures fresh(buf) && buf.Length == SIZE && buf[..] == Encode(msg)
  {
    buf := new u8[SIZE](_ => 0);
    StoreFront(buf, msg);
    StoreBack(buf, msg);
  }

  const BLANK: InternalMessage := InternalMessage(INVALID_PRICE, [0, 0, 0, 0, 0, 0], 0, 0, 0, 0, 0, INVALID_PRICE, 0, 0)

  /** The message is filled in field by field; the type, version and length are not looked at. */
  method Deserialize(buf: array<u8>) returns (msg: InternalMessage)
    requires buf.Length == SIZE
    ensures msg == Decode(buf[..])
  {
    var p := buf[..];
    msg := BLANK;
    msg := msg.(marketTsNs := Read64(p, TIMESTAMP_OFFSET));
    msg := msg.(seqNo := Read16(p, SEQUENCE_OFFSET));
    msg := msg.(symbol := p[SYMBOL_OFFSET..SYMBOL_OFFSET + MAX_SYMBOL_SIZE]);
    msg := msg.(year := Read8(p, YEAR_OFFSET));
    msg := msg.(month := Read8(p, MONTH_OFFSET));
    msg := msg.(day := Read8(p, DAY_OFFSET));
    msg := msg.(flags := Read8(p, FLAGS_OFFSET));
    msg := msg.(strike := ReadI32(p, STRIKE_OFFSET));
    msg := msg.(price := ReadI32(p, PRICE_OFFSET));
  }

  /** What the consumer reads out of a packet the generator stored is the message sent. */
  method SendAndReceive(msg: DepthMessage) returns (received: InternalMessage)
    ensures received == Received(msg)
  {
    var buf := Serialize(msg);
    RoundTrip(msg);
    received := Deserialize(buf);
  }
}
