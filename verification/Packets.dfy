/**
 * The packed packet structs: a header (size, id) and the fields of each kind without padding, all
 * integers little-endian.
 */
module Packets {
  import opened Bytes
  import opened Framing

  datatype Option<T> = None | Some(value: T)

  /** Ids are unique within a channel only: the two channels use the same numbers. */
  datatype Channel = ClientChannel | DbChannel

  datatype Kind = CpEcho | SpEcho | CpLogin | SpLogin | CpChat | SpChat | DcpEcho | DspEcho

  function ChannelOf(k: Kind): Channel {
    if k.DcpEcho? || k.DspEcho? then DbChannel else ClientChannel
  }

  function Id(k: Kind): nat {
    match k
    case CpEcho => 1
    case CpChat => 2
    case SpEcho => 3
    case SpChat => 4
    case CpLogin => 5
    case SpLogin => 6
    case DcpEcho => 1
    case DspEcho => 2
  }

  function KindOf(c: Channel, id: nat): Option<Kind> {
    match c
    case ClientChannel =>
      if id == 1 then Some(CpEcho) else if id == 2 then Some(CpChat) else if id == 3 then Some(SpEcho)
      else if id == 4 then Some(SpChat) else if id == 5 then Some(CpLogin) else if id == 6 then Some(SpLogin)
      else None
    case DbChannel => if id == 1 then Some(DcpEcho) else if id == 2 then Some(DspEcho) else None
  }

  const MAX_ID_LENGTH: nat := 300
  const MAX_PW_LENGTH: nat := 300
  const MAX_CHAT_LENGTH: nat := 1000
  const DB_MESSAGE_LENGTH: nat := 256

  /** A field of a struct: a fixed character array, or a two's complement integer of so many bytes. */
  datatype Field = Chars(n: nat) | Int(n: nat)

  datatype Value = Text(chars: seq<byte>) | Number(v: int)

  function Layout(k: Kind): seq<Field> {
    match k
    case CpEcho => [Chars(MAX_CHAT_LENGTH)]
    case SpEcho => [Chars(MAX_CHAT_LENGTH)]
    case CpLogin => [Chars(MAX_ID_LENGTH), Chars(MAX_PW_LENGTH)]
    case SpLogin => [Int(4), Int(8), Chars(MAX_ID_LENGTH), Chars(MAX_PW_LENGTH)]
    case CpChat => [Chars(MAX_CHAT_LENGTH)]
    case SpChat => [Int(8), Chars(MAX_ID_LENGTH), Chars(MAX_CHAT_LENGTH)]
    case DcpEcho => [Chars(DB_MESSAGE_LENGTH)]
    case DspEcho => [Chars(DB_MESSAGE_LENGTH)]
  }

  function Width(layout: seq<Field>): nat {
    if layout == [] then 0 else layout[0].n + Width(layout[1..])
  }

  /** sizeof of the packed struct. */
  function SizeOf(k: Kind): nat {
    PACKET_HEADER_SIZE + Width(Layout(k))
  }

  datatype Packet = Packet(kind: Kind, values: seq<Value>)

  predicate FitsField(f: Field, v: Value) {
    match f
    case Chars(n) => v.Text? && |v.chars| == n
    case Int(n) => v.Number? && -(Power256(n) as int) <= 2 * v.v < Power256(n)
  }

  predicate FitsLayout(layout: seq<Field>, values: seq<Value>) {
    |values| == |layout| && forall i :: 0 <= i < |layout| ==> FitsField(layout[i], values[i])
  }

  predicate Valid(p: Packet) {
    FitsLayout(Layout(p.kind), p.values)
  }

  function EncodeField(f: Field, v: Value): (r: seq<byte>)
    requires FitsField(f, v)
    ensures |r| == f.n
  {
    match f
    case Chars(_) => v.chars
    case Int(n) => LittleEndian(n, if v.v < 0 then v.v + Power256(n) else v.v)
  }

  function DecodeField(f: Field, bytes: seq<byte>): (v: Value)
    requires |bytes| == f.n
    ensures FitsField(f, v)
  {
    match f
    case Chars(_) => Text(bytes)
    case Int(n) =>
      var u := FromLittleEndian(bytes);
      Number(if 2 * u >= Power256(n) then u - Power256(n) else u)
  }

  function EncodeFields(layout: seq<Field>, values: seq<Value>): (r: seq<byte>)
    requires FitsLayout(layout, values)
    ensures |r| == Width(layout)
  {
    if layout == [] then [] else EncodeField(layout[0], values[0]) + EncodeFields(layout[1..], values[1..])
  }

  function DecodeFields(layout: seq<Field>, bytes: seq<byte>): (values: seq<Value>)
    requires |bytes| == Width(layout)
    ensures FitsLayout(layout, values)
  {
    if layout == [] then []
    else [DecodeField(layout[0], bytes[..layout[0].n])] + DecodeFields(layout[1..], bytes[layout[0].n..])
  }

  function Encode(p: Packet): (r: seq<byte>)
    requires Valid(p)
    ensures |r| == SizeOf(p.kind)
  {
    LittleEndian(2, SizeOf(p.kind)) + LittleEndian(2, Id(p.kind)) + EncodeFields(Layout(p.kind), p.values)
  }

  function Decode(c: Channel, bytes: seq<byte>): Option<Packet> {
    if |bytes| < PACKET_HEADER_SIZE then None
    else
      match KindOf(c, PacketId(bytes))
      case None => None
      case Some(k) =>
        if AnnouncedSize(bytes) == SizeOf(k) == |bytes|
        then Some(Packet(k, DecodeFields(Layout(k), bytes[4..])))
        else None
  }

  // ----- round trips -----

  /** Within a channel the id selects the kind, and only that kind. */
  lemma IdSelectsKind(c: Channel, id: nat, k: Kind)
    ensures KindOf(c, id) == Some(k) <==> ChannelOf(k) == c && Id(k) == id
  {
  }

  /** Across the channels it does not. */
  lemma IdsOverlap()
    ensures Id(CpEcho) == Id(DcpEcho) && Id(CpChat) == Id(DspEcho)
    ensures forall k, l :: ChannelOf(k) == ChannelOf(l) && Id(k) == Id(l) ==> k == l
  {
  }

  lemma FieldRoundTrip(f: Field, v: Value)
    requires FitsField(f, v)
    ensures DecodeField(f, EncodeField(f, v)) == v
  {
    if f.Int? {
      LittleEndianRoundTrip(f.n, if v.v < 0 then v.v + Power256(f.n) else v.v);
    }
  }

  lemma FieldRoundTripBack(f: Field, bytes: seq<byte>)
    requires |bytes| == f.n
    ensures EncodeField(f, DecodeField(f, bytes)) == bytes
  {
    if f.Int? {
      FromLittleEndianRoundTrip(bytes);
    }
  }

  lemma {:induction false} FieldsRoundTrip(layout: seq<Field>, values: seq<Value>)
    requires FitsLayout(layout, values)
    ensures DecodeFields(layout, EncodeFields(layout, values)) == values
  {
    if layout != [] {
      FieldRoundTrip(layout[0], values[0]);
      FieldsRoundTrip(layout[1..], values[1..]);
      var bytes := EncodeFields(layout, values);
      assert bytes[..layout[0].n] == EncodeField(layout[0], values[0]);
      assert bytes[layout[0].n..] == EncodeFields(layout[1..], values[1..]);
    }
  }

  lemma {:induction false} FieldsRoundTripBack(layout: seq<Field>, bytes: seq<byte>)
    requires |bytes| == Width(layout)
    ensures EncodeFields(layout, DecodeFields(layout, bytes)) == bytes
  {
    if layout != [] {
      FieldRoundTripBack(layout[0], bytes[..layout[0].n]);
      FieldsRoundTripBack(layout[1..], bytes[layout[0].n..]);
      assert DecodeFields(layout, bytes)[1..] == DecodeFields(layout[1..], bytes[layout[0].n..]);
    }
  }

  lemma TwoBytes(n: nat)
    requires n < 65536
    ensures LittleEndian(2, n) == [n % 256, n / 256]
    ensures FromLittleEndian(LittleEndian(2, n)) == n
  {
    assert Power256(2) == 65536 by { assert Power256(1) == 256; }
    LittleEndianRoundTrip(2, n);
    assert LittleEndian(1, n / 256) == [n / 256] by { assert LittleEndian(0, n / 256 / 256) == []; }
  }

  lemma SizeOfKind(k: Kind)
    ensures SizeOf(k) == match k
                         case CpEcho => 1004
                         case SpEcho => 1004
                         case CpLogin => 604
                         case SpLogin => 616
                         case CpChat => 1004
                         case SpChat => 1312
                         case DcpEcho => 260
                         case DspEcho => 260
  {
    assert Width([]) == 0;
    WidthCons(Chars(MAX_CHAT_LENGTH), []);
    WidthCons(Chars(DB_MESSAGE_LENGTH), []);
    WidthCons(Chars(MAX_PW_LENGTH), []);
    WidthCons(Chars(MAX_ID_LENGTH), [Chars(MAX_PW_LENGTH)]);
    WidthCons(Int(8), [Chars(MAX_ID_LENGTH), Chars(MAX_PW_LENGTH)]);
    WidthCons(Int(4), [Int(8), Chars(MAX_ID_LENGTH), Chars(MAX_PW_LENGTH)]);
    WidthCons(Chars(MAX_ID_LENGTH), [Chars(MAX_CHAT_LENGTH)]);
    WidthCons(Int(8), [Chars(MAX_ID_LENGTH), Chars(MAX_CHAT_LENGTH)]);
  }

  lemma WidthCons(f: Field, layout: seq<Field>)
    ensures Width([f] + layout) == f.n + Width(layout)
  {
    assert ([f] + layout)[1..] == layout;
  }

  /** Every encoded packet is a packet to the receiver, and its header announces its own length. */
  lemma EncodedIsFramed(p: Packet)
    requires Valid(p)
    ensures Framed(Encode(p)) && |Encode(p)| <= 1312
    ensures AnnouncedSize(Encode(p)) == |Encode(p)| && PacketId(Encode(p)) == Id(p.kind)
  {
    SizeOfKind(p.kind);
    TwoBytes(SizeOf(p.kind));
    TwoBytes(Id(p.kind));
    WordIsLittleEndian(Encode(p), 0);
    WordIsLittleEndian(Encode(p), 2);
    assert Encode(p)[0..2] == LittleEndian(2, SizeOf(p.kind));
    assert Encode(p)[2..4] == LittleEndian(2, Id(p.kind));
  }

  /** Decoding gives back what was encoded. */
  lemma DecodeEncode(p: Packet)
    requires Valid(p)
    ensures Decode(ChannelOf(p.kind), Encode(p)) == Some(p)
  {
    EncodedIsFramed(p);
    IdSelectsKind(ChannelOf(p.kind), Id(p.kind), p.kind);
    DecodeBody(p.kind, p.values, Encode(p));
  }

  lemma DecodeBody(k: Kind, values: seq<Value>, bytes: seq<byte>)
    requires FitsLayout(Layout(k), values) && bytes == Encode(Packet(k, values))
    ensures |bytes[4..]| == Width(Layout(k)) && DecodeFields(Layout(k), bytes[4..]) == values
  {
    FieldsRoundTrip(Layout(k), values);
    assert bytes[4..] == EncodeFields(Layout(k), values);
  }

  /** Only encodings are decoded: a decoded packet is valid, belongs to the channel and encodes to the same bytes. */
  lemma EncodeDecode(c: Channel, bytes: seq<byte>)
    requires Decode(c, bytes).Some?
    ensures var p := Decode(c, bytes).value;
            Valid(p) && ChannelOf(p.kind) == c && Encode(p) == bytes
  {
    var k := Decode(c, bytes).value.kind;
    IdSelectsKind(c, PacketId(bytes), k);
    BodyEncodes(k, bytes);
  }

  lemma BodyEncodes(k: Kind, bytes: seq<byte>)
    requires |bytes| == SizeOf(k) && AnnouncedSize(bytes) == SizeOf(k) && PacketId(bytes) == Id(k)
    ensures Encode(Packet(k, DecodeFields(Layout(k), bytes[4..]))) == bytes
  {
    FieldsRoundTripBack(Layout(k), bytes[4..]);
    WordIsLittleEndian(bytes, 0);
    WordIsLittleEndian(bytes, 2);
    InThree(bytes);
  }

  lemma InThree(bytes: seq<byte>)
    requires |bytes| >= 4
    ensures bytes == bytes[0..2] + bytes[2..4] + bytes[4..]
  {
  }

  // ----- the bytes of each kind -----

  /** The 32-bit and the 64-bit integer at offset `at`, byte by byte. */
  function DoubleWord(bytes: seq<byte>, at: nat): nat
    requires at + 4 <= |bytes|
  {
    (bytes[at] as nat) + 256 * (bytes[at + 1] as nat)
      + 65536 * (bytes[at + 2] as nat) + 16777216 * (bytes[at + 3] as nat)
  }

  function QuadWord(bytes: seq<byte>, at: nat): nat
    requires at + 8 <= |bytes|
  {
    DoubleWord(bytes, at) + 4294967296 * DoubleWord(bytes, at + 4)
  }

  lemma FourBytes(v: int)
    requires FitsField(Int(4), Number(v))
    ensures DoubleWord(EncodeField(Int(4), Number(v)), 0) == if v < 0 then v + 4294967296 else v
  {
    var b := EncodeField(Int(4), Number(v));
    PowerOfFour();
    LittleEndianRoundTrip(4, if v < 0 then v + Power256(4) else v);
    FromFourBytes(b);
  }

  lemma PowerOfFour()
    ensures Power256(4) == 4294967296
  {
    assert Power256(1) == 256 && Power256(2) == 65536 && Power256(3) == 16777216;
  }

  lemma FromFourBytes(b: seq<byte>)
    requires |b| == 4
    ensures FromLittleEndian(b) == DoubleWord(b, 0)
  {
    assert b[1..][1..] == b[2..] && b[2..][1..] == b[3..] && b[3..][1..] == [];
    assert FromLittleEndian(b[3..]) == b[3] as nat;
    assert FromLittleEndian(b[2..]) == (b[2] as nat) + 256 * (b[3] as nat);
    assert FromLittleEndian(b[1..]) == (b[1] as nat) + 256 * FromLittleEndian(b[2..]);
  }

  lemma EightBytes(v: int)
    requires FitsField(Int(8), Number(v))
    ensures QuadWord(EncodeField(Int(8), Number(v)), 0) == if v < 0 then v + 18446744073709551616 else v
  {
    var b := EncodeField(Int(8), Number(v));
    PowerOfEight();
    LittleEndianRoundTrip(8, if v < 0 then v + Power256(8) else v);
    FromEightBytes(b);
  }

  lemma PowerOfEight()
    ensures Power256(8) == 18446744073709551616
  {
    assert Power256(1) == 256 && Power256(2) == 65536 && Power256(3) == 16777216 && Power256(4) == 4294967296;
    assert Power256(5) == 1099511627776 && Power256(6) == 281474976710656 && Power256(7) == 72057594037927936;
  }

  lemma FromEightBytes(b: seq<byte>)
    requires |b| == 8
    ensures FromLittleEndian(b) == QuadWord(b, 0)
  {
    var high := b[4..];
    FromFourBytes(high);
    assert b[1..][1..] == b[2..] && b[2..][1..] == b[3..] && b[3..][1..] == high;
    assert FromLittleEndian(b[3..]) == (b[3] as nat) + 256 * FromLittleEndian(high);
    assert FromLittleEndian(b[2..]) == (b[2] as nat) + 256 * FromLittleEndian(b[3..]);
    assert FromLittleEndian(b[1..]) == (b[1] as nat) + 256 * FromLittleEndian(b[2..]);
    assert DoubleWord(b, 4) == DoubleWord(high, 0);
  }

  /** Each field lies where the fields before it end. */
  lemma {:induction false} FieldAt(layout: seq<Field>, values: seq<Value>, i: nat)
    requires FitsLayout(layout, values) && i < |layout|
    ensures var at := Width(layout[..i]);
            && at + layout[i].n <= Width(layout)
            && EncodeFields(layout, values)[at..at + layout[i].n] == EncodeField(layout[i], values[i])
  {
    if i == 0 {
      assert layout[..0] == [];
    } else {
      FieldAt(layout[1..], values[1..], i - 1);
      assert layout[..i] == [layout[0]] + layout[1..][..i - 1];
      WidthCons(layout[0], layout[1..][..i - 1]);
      var at := Width(layout[1..][..i - 1]);
      SliceBehind(EncodeField(layout[0], values[0]), EncodeFields(layout[1..], values[1..]), at, at + layout[i].n);
    }
  }

  lemma SliceBehind<T>(a: seq<T>, b: seq<T>, i: nat, j: nat)
    requires i <= j <= |b|
    ensures (a + b)[|a| + i..|a| + j] == b[i..j]
  {
  }

  /** The same in the whole packet, behind the header. */
  lemma FieldInPacket(p: Packet, i: nat, at: nat)
    requires Valid(p) && i < |Layout(p.kind)| && at == 4 + Width(Layout(p.kind)[..i])
    ensures at + Layout(p.kind)[i].n <= |Encode(p)|
    ensures Encode(p)[at..at + Layout(p.kind)[i].n] == EncodeField(Layout(p.kind)[i], p.values[i])
  {
    FieldAt(Layout(p.kind), p.values, i);
    var body := EncodeFields(Layout(p.kind), p.values);
    assert Encode(p)[4..] == body;
    assert Encode(p)[at..at + Layout(p.kind)[i].n] == Encode(p)[4..][at - 4..at - 4 + Layout(p.kind)[i].n];
  }

  /** The structs of one field: the text follows the header. */
  lemma OneTextBytes(p: Packet)
    requires Valid(p) && !p.kind.CpLogin? && !p.kind.SpLogin? && !p.kind.SpChat?
    ensures |p.values| == 1 && p.values[0].Text?
    ensures Encode(p)[4..] == p.values[0].chars
    ensures |Encode(p)| == if p.kind.DcpEcho? || p.kind.DspEcho? then 260 else 1004
  {
    SizeOfKind(p.kind);
    assert Layout(p.kind)[..0] == [];
    FieldInPacket(p, 0, 4);
  }

  /** CP_LOGIN: id, password. */
  lemma CpLoginBytes(p: Packet)
    requires Valid(p) && p.kind.CpLogin?
    ensures |p.values| == 2 && p.values[0].Text? && p.values[1].Text? && |Encode(p)| == 604
    ensures Encode(p)[4..304] == p.values[0].chars
    ensures Encode(p)[304..604] == p.values[1].chars
  {
    SizeOfKind(p.kind);
    FirstWidths(Layout(p.kind));
    FieldInPacket(p, 0, 4);
    FieldInPacket(p, 1, 304);
  }

  /** SP_LOGIN: result, unique number, id, password; the numbers in two's complement. */
  lemma SpLoginBytes(p: Packet)
    requires Valid(p) && p.kind.SpLogin?
    ensures |p.values| == 4 && p.values[0].Number? && p.values[1].Number? && p.values[2].Text? && p.values[3].Text?
    ensures |Encode(p)| == 616
    ensures DoubleWord(Encode(p), 4) == var v := p.values[0].v; if v < 0 then v + 4294967296 else v
    ensures QuadWord(Encode(p), 8) == var v := p.values[1].v; if v < 0 then v + 18446744073709551616 else v
    ensures Encode(p)[16..316] == p.values[2].chars
    ensures Encode(p)[316..616] == p.values[3].chars
  {
    SizeOfKind(p.kind);
    FirstWidths(Layout(p.kind));
    FieldInPacket(p, 0, 4);
    FieldInPacket(p, 1, 8);
    FieldInPacket(p, 2, 16);
    FieldInPacket(p, 3, 316);
    DoubleWordAt(Encode(p), 4, p.values[0].v);
    QuadWordAt(Encode(p), 8, p.values[1].v);
  }

  /** SP_CHAT: unique number, id, text. */
  lemma SpChatBytes(p: Packet)
    requires Valid(p) && p.kind.SpChat?
    ensures |p.values| == 3 && p.values[0].Number? && p.values[1].Text? && p.values[2].Text? && |Encode(p)| == 1312
    ensures QuadWord(Encode(p), 4) == var v := p.values[0].v; if v < 0 then v + 18446744073709551616 else v
    ensures Encode(p)[12..312] == p.values[1].chars
    ensures Encode(p)[312..1312] == p.values[2].chars
  {
    SizeOfKind(p.kind);
    FirstWidths(Layout(p.kind));
    FieldInPacket(p, 0, 4);
    FieldInPacket(p, 1, 12);
    FieldInPacket(p, 2, 312);
    QuadWordAt(Encode(p), 4, p.values[0].v);
  }

  lemma DoubleWordAt(bytes: seq<byte>, at: nat, v: int)
    requires at + 4 <= |bytes| && FitsField(Int(4), Number(v)) && bytes[at..at + 4] == EncodeField(Int(4), Number(v))
    ensures DoubleWord(bytes, at) == if v < 0 then v + 4294967296 else v
  {
    FourBytes(v);
    assert DoubleWord(bytes, at) == DoubleWord(bytes[at..at + 4], 0);
  }

  lemma QuadWordAt(bytes: seq<byte>, at: nat, v: int)
    requires at + 8 <= |bytes| && FitsField(Int(8), Number(v)) && bytes[at..at + 8] == EncodeField(Int(8), Number(v))
    ensures QuadWord(bytes, at) == if v < 0 then v + 18446744073709551616 else v
  {
    EightBytes(v);
    assert QuadWord(bytes, at) == QuadWord(bytes[at..at + 8], 0);
  }

  /** The widths of the first fields. */
  lemma FirstWidths(layout: seq<Field>)
    ensures Width(layout[..0]) == 0
    ensures |layout| > 0 ==> Width(layout[..1]) == layout[0].n
    ensures |layout| > 1 ==> Width(layout[..2]) == layout[0].n + layout[1].n
    ensures |layout| > 2 ==> Width(layout[..3]) == layout[0].n + layout[1].n + layout[2].n
  {
    if |layout| > 0 {
      WidthSnoc(layout, 0);
    }
    if |layout| > 1 {
      WidthSnoc(layout, 1);
    }
    if |layout| > 2 {
      WidthSnoc(layout, 2);
    }
  }

  lemma {:induction false} WidthSnoc(layout: seq<Field>, i: nat)
    requires i < |layout|
    ensures Width(layout[..i + 1]) == Width(layout[..i]) + layout[i].n
  {
    if i == 0 {
      assert layout[..1][1..] == [];
    } else {
      WidthSnoc(layout[1..], i - 1);
      assert layout[..i + 1][1..] == layout[1..][..i] && layout[..i][1..] == layout[1..][..i - 1];
    }
  }

  // ----- the bytes of the header -----

  /** A packet of this size with this id, seen from its first four bytes. */
  predicate HasHeader(bytes: seq<byte>, size: nat, id: nat) {
    && |bytes| == size >= 4
    && bytes[0] as int == size % 256 && bytes[1] as int == size / 256
    && bytes[2] as int == id && bytes[3] == 0
  }

  predicate DecodesTo(c: Channel, bytes: seq<byte>, k: Kind) {
    Decode(c, bytes).Some? && Decode(c, bytes).value.kind == k
  }

  /** On each channel exactly the byte strings with the size and the number of a kind decode to that kind. */
  lemma DecodesExactly(bytes: seq<byte>)
    ensures DecodesTo(ClientChannel, bytes, CpEcho) <==> HasHeader(bytes, 1004, 1)
    ensures DecodesTo(ClientChannel, bytes, CpChat) <==> HasHeader(bytes, 1004, 2)
    ensures DecodesTo(ClientChannel, bytes, SpEcho) <==> HasHeader(bytes, 1004, 3)
    ensures DecodesTo(ClientChannel, bytes, SpChat) <==> HasHeader(bytes, 1312, 4)
    ensures DecodesTo(ClientChannel, bytes, CpLogin) <==> HasHeader(bytes, 604, 5)
    ensures DecodesTo(ClientChannel, bytes, SpLogin) <==> HasHeader(bytes, 616, 6)
    ensures DecodesTo(DbChannel, bytes, DcpEcho) <==> HasHeader(bytes, 260, 1)
    ensures DecodesTo(DbChannel, bytes, DspEcho) <==> HasHeader(bytes, 260, 2)
  {
    KindByHeader(ClientChannel, bytes, CpEcho, 1004, 1);
    KindByHeader(ClientChannel, bytes, CpChat, 1004, 2);
    KindByHeader(ClientChannel, bytes, SpEcho, 1004, 3);
    KindByHeader(ClientChannel, bytes, SpChat, 1312, 4);
    KindByHeader(ClientChannel, bytes, CpLogin, 604, 5);
    KindByHeader(ClientChannel, bytes, SpLogin, 616, 6);
    KindByHeader(DbChannel, bytes, DcpEcho, 260, 1);
    KindByHeader(DbChannel, bytes, DspEcho, 260, 2);
  }

  lemma KindByHeader(c: Channel, bytes: seq<byte>, k: Kind, size: nat, id: nat)
    requires KindOf(c, id) == Some(k) && SizeOf(k) == size && 4 <= size < 65536 && id < 256
    ensures DecodesTo(c, bytes, k) <==> HasHeader(bytes, size, id)
  {
    if |bytes| >= 4 {
      IdSelectsKind(c, PacketId(bytes), k);
      IdSelectsKind(c, id, k);
      LowAndHigh(bytes[0], bytes[1], size);
      LowAndHigh(bytes[2], bytes[3], id);
    }
  }

  lemma LowAndHigh(low: byte, high: byte, n: nat)
    requires n < 65536
    ensures (low as int) + 256 * (high as int) == n <==> low as int == n % 256 && high as int == n / 256
  {
  }

  /** And each kind is encoded with them. */
  lemma EncodesWithHeader(p: Packet)
    requires Valid(p)
    ensures match p.kind
            case CpEcho => HasHeader(Encode(p), 1004, 1)
            case CpChat => HasHeader(Encode(p), 1004, 2)
            case SpEcho => HasHeader(Encode(p), 1004, 3)
            case SpChat => HasHeader(Encode(p), 1312, 4)
            case CpLogin => HasHeader(Encode(p), 604, 5)
            case SpLogin => HasHeader(Encode(p), 616, 6)
            case DcpEcho => HasHeader(Encode(p), 260, 1)
            case DspEcho => HasHeader(Encode(p), 260, 2)
  {
    DecodeEncode(p);
    DecodesExactly(Encode(p));
  }

  // ----- the constructors -----

  function Zero(f: Field): (v: Value)
    ensures FitsField(f, v)
  {
    match f
    case Chars(n) => Text(seq(n, _ => 0))
    case Int(_) => Number(0)
  }

  function Zeros(layout: seq<Field>): (values: seq<Value>)
    ensures FitsLayout(layout, values)
  {
    if layout == [] then [] else [Zero(layout[0])] + Zeros(layout[1..])
  }

  /** A packet of kind `k` as its constructor leaves it: every field zero. */
  function Blank(k: Kind): (p: Packet)
    ensures Valid(p)
  {
    Packet(k, Zeros(Layout(k)))
  }

  lemma {:induction false} ZeroBytes(n: nat)
    ensures LittleEndian(n, 0) == seq(n, _ => 0)
  {
    if n > 0 {
      ZeroBytes(n - 1);
    }
  }

  lemma {:induction false} BlankFields(layout: seq<Field>)
    ensures EncodeFields(layout, Zeros(layout)) == seq(Width(layout), _ => 0)
  {
    if layout != [] {
      BlankFields(layout[1..]);
      ZeroBytes(layout[0].n);
      assert Zeros(layout)[1..] == Zeros(layout[1..]);
      assert EncodeField(layout[0], Zero(layout[0])) == seq(layout[0].n, _ => 0);
    }
  }

  lemma BlankBytes(k: Kind, bytes: seq<byte>)
    requires |bytes| == SizeOf(k) < 65536
    requires bytes[0] == SizeOf(k) % 256 && bytes[1] == SizeOf(k) / 256
    requires bytes[2] == Id(k) % 256 && bytes[3] == Id(k) / 256
    requires forall j :: PACKET_HEADER_SIZE <= j < |bytes| ==> bytes[j] == 0
    ensures bytes == Encode(Blank(k))
  {
    BlankHeader(k, bytes);
    BlankFields(Layout(k));
    assert bytes[4..] == seq(Width(Layout(k)), _ => 0);
    assert bytes == bytes[..4] + bytes[4..];
  }

  lemma BlankHeader(k: Kind, bytes: seq<byte>)
    requires |bytes| >= 4 && SizeOf(k) < 65536
    requires bytes[0] == SizeOf(k) % 256 && bytes[1] == SizeOf(k) / 256
    requires bytes[2] == Id(k) % 256 && bytes[3] == Id(k) / 256
    ensures bytes[..4] == LittleEndian(2, SizeOf(k)) + LittleEndian(2, Id(k))
  {
    TwoBytes(SizeOf(k));
    TwoBytes(Id(k));
  }

  /** A packed struct in memory. */
  class PackedPacket {
    const cells: array<byte>

    /** Stores the header and clears the fields. */
    constructor (k: Kind)
      ensures fresh(cells)
      ensures cells[..] == Encode(Blank(k))
    {
      var size := SizeOf(k);
      SizeOfKind(k);
      cells := new byte[size];
      new;
      cells[2], cells[3] := Id(k) % 256, Id(k) / 256;
      cells[0], cells[1] := size % 256, size / 256;
      for i := PACKET_HEADER_SIZE to size
        invariant cells[0] == size % 256 && cells[1] == size / 256
        invariant cells[2] == Id(k) % 256 && cells[3] == Id(k) / 256
        invariant forall j :: PACKET_HEADER_SIZE <= j < i ==> cells[j] == 0
      {
        cells[i] := 0;
      }
      BlankBytes(k, cells[..]);
    }
  }
}
