/** The qmux wire format: message numbers, marshalling, and reading packets off a byte stream. */
module Codec {
  import opened Bytes

  const MSG_OPEN: byte := 100
  const MSG_OPEN_CONFIRM: byte := 101
  const MSG_OPEN_FAILURE: byte := 102
  const MSG_WINDOW_ADJUST: byte := 103
  const MSG_DATA: byte := 104
  const MSG_EOF: byte := 105
  const MSG_CLOSE: byte := 106

  datatype Message =
    | OpenMessage(senderId: u32, windowSize: u32, maxPacketSize: u32)
    | OpenConfirmMessage(channelId: u32, senderId: u32, windowSize: u32, maxPacketSize: u32)
    | OpenFailureMessage(channelId: u32)
    | WindowAdjustMessage(channelId: u32, additionalBytes: u32)
    | DataMessage(channelId: u32, length: u32, data: seq<byte>)
    | EOFMessage(channelId: u32)
    | CloseMessage(channelId: u32)
  {
    /** The receiver's channel id; only an open names no channel. */
    function Channel(): Option<u32> {
      if OpenMessage? then None else Some(channelId)
    }

    /** What a sender of the protocol always produces: Length counts Data. */
    predicate WellFormed() {
      DataMessage? ==> length == |data|
    }
  }

  /** The fixed part of each payload; a type missing from the table has size zero. */
  function PayloadSize(t: byte): nat {
    match t
    case 100 => 12
    case 101 => 16
    case 102 => 4
    case 103 => 8
    case 104 => 8
    case 105 => 4
    case 106 => 4
    case _ => 0
  }

  predicate KnownType(t: byte) {
    MSG_OPEN <= t <= MSG_CLOSE
  }

  // ---- Marshalling ----

  /** The wire format as concatenated fields. */
  function Encoding(m: Message): seq<byte> {
    match m
    case OpenMessage(s, w, p) => [MSG_OPEN] + U32(s) + U32(w) + U32(p)
    case OpenConfirmMessage(c, s, w, p) => [MSG_OPEN_CONFIRM] + U32(c) + U32(s) + U32(w) + U32(p)
    case OpenFailureMessage(c) => [MSG_OPEN_FAILURE] + U32(c)
    case WindowAdjustMessage(c, n) => [MSG_WINDOW_ADJUST] + U32(c) + U32(n)
    case DataMessage(c, n, d) => [MSG_DATA] + U32(c) + U32(n) + d
    case EOFMessage(c) => [MSG_EOF] + U32(c)
    case CloseMessage(c) => [MSG_CLOSE] + U32(c)
  }

  function EncodingAll(ms: seq<Message>): seq<byte> {
    if ms == [] then [] else Encoding(ms[0]) + EncodingAll(ms[1..])
  }

  /** binary.BigEndian.PutUint32(packet[at:at+4], n). */
  method PutUint32(packet: array<byte>, at: nat, n: u32)
    requires at + 4 <= packet.Length
    modifies packet
    ensures packet[..] == old(packet[..at]) + U32(n) + old(packet[at + 4..])
  {
    packet[at] := n / 0x100_0000;
    packet[at + 1] := n / 0x1_0000 % 0x100;
    packet[at + 2] := n / 0x100 % 0x100;
    packet[at + 3] := n % 0x100;
  }

  method NewPacket(t: byte) returns (packet: array<byte>)
    ensures fresh(packet) && packet.Length == PayloadSize(t) + 1 && packet[0] == t
  {
    packet := new byte[PayloadSize(t) + 1](_ => 0);
    packet[0] := t;
  }

  /** MarshalMux of the messages that carry one channel id. */
  method MarshalId(t: byte, id: u32) returns (b: seq<byte>)
    requires PayloadSize(t) == 4
    ensures b == [t] + U32(id)
  {
    var packet := NewPacket(t);
    PutUint32(packet, 1, id);
    b := packet[..];
  }

  method MarshalOpen(m: Message) returns (b: seq<byte>)
    requires m.OpenMessage?
    ensures b == Encoding(m)
  {
    var packet := NewPacket(MSG_OPEN);
    PutUint32(packet, 1, m.senderId);
    PutUint32(packet, 5, m.windowSize);
    PutUint32(packet, 9, m.maxPacketSize);
    b := packet[..];
  }

  method MarshalOpenConfirm(m: Message) returns (b: seq<byte>)
    requires m.OpenConfirmMessage?
    ensures b == Encoding(m)
  {
    var packet := NewPacket(MSG_OPEN_CONFIRM);
    PutUint32(packet, 1, m.channelId);
    PutUint32(packet, 5, m.senderId);
    PutUint32(packet, 9, m.windowSize);
    PutUint32(packet, 13, m.maxPacketSize);
    b := packet[..];
  }

  method MarshalWindowAdjust(m: Message) returns (b: seq<byte>)
    requires m.WindowAdjustMessage?
    ensures b == Encoding(m)
  {
    var packet := NewPacket(MSG_WINDOW_ADJUST);
    PutUint32(packet, 1, m.channelId);
    PutUint32(packet, 5, m.additionalBytes);
    b := packet[..];
  }

  method MarshalData(m: Message) returns (b: seq<byte>)
    requires m.DataMessage?
    ensures b == Encoding(m)
  {
    var packet := NewPacket(MSG_DATA);
    PutUint32(packet, 1, m.channelId);
    PutUint32(packet, 5, m.length);
    b := packet[..] + m.data;
  }

  method Marshal(m: Message) returns (b: seq<byte>)
    ensures b == Encoding(m)
  {
    match m
    case OpenMessage(_, _, _) => b := MarshalOpen(m);
    case OpenConfirmMessage(_, _, _, _) => b := MarshalOpenConfirm(m);
    case OpenFailureMessage(id) => b := MarshalId(MSG_OPEN_FAILURE, id);
    case WindowAdjustMessage(_, _) => b := MarshalWindowAdjust(m);
    case DataMessage(_, _, _) => b := MarshalData(m);
    case EOFMessage(id) => b := MarshalId(MSG_EOF, id);
    case CloseMessage(id) => b := MarshalId(MSG_CLOSE, id);
  }

  // ---- Unmarshalling ----

  /** decode: dispatch on the type byte; None for an unknown type. The packet
      has at least the fixed size of its type, as every packet readPacket returns. */
  function DecodePacket(packet: seq<byte>): Option<Message>
    requires |packet| >= 1 && |packet| >= PayloadSize(packet[0]) + 1
  {
    match packet[0]
    case 100 => Some(OpenMessage(GetU32(packet[1..5]), GetU32(packet[5..9]), GetU32(packet[9..13])))
    case 101 => Some(OpenConfirmMessage(GetU32(packet[1..5]), GetU32(packet[5..9]),
                                        GetU32(packet[9..13]), GetU32(packet[13..17])))
    case 102 => Some(OpenFailureMessage(GetU32(packet[1..5])))
    case 103 => Some(WindowAdjustMessage(GetU32(packet[1..5]), GetU32(packet[5..9])))
    case 104 => Some(DataMessage(GetU32(packet[1..5]), GetU32(packet[5..9]), packet[9..]))
    case 105 => Some(EOFMessage(GetU32(packet[1..5])))
    case 106 => Some(CloseMessage(GetU32(packet[1..5])))
    case _ => None
  }

  // ---- Reading packets ----

  datatype DecodeError = EndOfStream | UnexpectedType(t: byte)

  datatype PacketResult =
    | Packet(packet: seq<byte>, rest: seq<byte>)
    | NoPacket

  /** The first packet of a stream whose remaining bytes are `s`. */
  function NextPacket(s: seq<byte>): (r: PacketResult)
    ensures r.Packet? ==> |r.packet| >= 1 && |r.packet| >= PayloadSize(r.packet[0]) + 1
    ensures r.Packet? ==> r.packet + r.rest == s
  {
    if |s| == 0 then NoPacket
    else
      var fixed := 1 + PayloadSize(s[0]);
      if |s| < fixed then NoPacket
      else if s[0] == MSG_DATA then
        var end := fixed + GetU32(s[5..9]);
        if |s| < end then NoPacket else Packet(s[..end], s[end..])
      else Packet(s[..fixed], s[fixed..])
  }

  /** What is left of a stream after its first packet. */
  function AfterNext(s: seq<byte>): seq<byte> {
    match NextPacket(s)
    case NoPacket => []
    case Packet(_, rest) => rest
  }

  datatype MessageResult =
    | Got(message: Message, rest: seq<byte>)
    | Bad(error: DecodeError)

  function NextMessage(s: seq<byte>): MessageResult {
    match NextPacket(s)
    case NoPacket => Bad(EndOfStream)
    case Packet(packet, rest) =>
      match DecodePacket(packet)
      case None => Bad(UnexpectedType(packet[0]))
      case Some(m) => Got(m, rest)
  }

  /** A transport end: the bytes still to arrive, and those written. */
  class Transport {
    var incoming: seq<byte>
    var sent: seq<byte>

    constructor (incoming: seq<byte>)
      ensures this.incoming == incoming && sent == []
    {
      this.incoming := incoming;
      sent := [];
    }

    /** A Read that fills its slice, or fails because the stream ends first. */
    method Read(k: nat) returns (data: seq<byte>, ok: bool)
      modifies `incoming
      ensures ok == (k <= |old(incoming)|)
      ensures ok ==> data == old(incoming)[..k] && incoming == old(incoming)[k..]
      ensures !ok ==> data == [] && incoming == []
    {
      ok := k <= |incoming|;
      if ok {
        data, incoming := incoming[..k], incoming[k..];
      } else {
        data, incoming := [], [];
      }
    }

    method Write(b: seq<byte>)
      modifies `sent
      ensures sent == old(sent) + b
    {
      sent := sent + b;
    }
  }

  method ReadPacket(c: Transport) returns (r: PacketResult)
    modifies c`incoming
    ensures r == NextPacket(old(c.incoming))
    ensures c.incoming == if r.Packet? then r.rest else []
  {
    ghost var s := c.incoming;
    var msgNum, ok := c.Read(1);
    if !ok { return NoPacket; }
    var rest, ok1 := c.Read(PayloadSize(msgNum[0]));
    if !ok1 { return NoPacket; }
    var packet := msgNum + rest;
    assert packet == s[..1 + PayloadSize(s[0])];
    if msgNum[0] == MSG_DATA {
      assert rest[4..8] == s[5..9];
      var dataSize := GetU32(rest[4..8]);
      var data, ok2 := c.Read(dataSize);
      if !ok2 { return NoPacket; }
      packet := packet + data;
      assert packet == s[..9 + dataSize];
    }
    r := Packet(packet, c.incoming);
  }

  class Decoder {
    const r: Transport

    constructor (r: Transport)
      ensures this.r == r
    {
      this.r := r;
    }

    method Decode() returns (res: MessageResult)
      modifies r`incoming
      ensures res == NextMessage(old(r.incoming))
      ensures r.incoming == AfterNext(old(r.incoming)) && (res.Got? ==> r.incoming == res.rest)
    {
      var p := ReadPacket(r);
      match p
      case NoPacket => res := Bad(EndOfStream);
      case Packet(packet, rest) =>
        var m := DecodePacket(packet);
        res := match m case None => Bad(UnexpectedType(packet[0])) case Some(msg) => Got(msg, rest);
    }
  }

  class Encoder {
    const w: Transport

    constructor (w: Transport)
      ensures this.w == w
    {
      this.w := w;
    }

    method Encode(m: Message)
      modifies w`sent
      ensures w.sent == old(w.sent) + Encoding(m)
    {
      var b := Marshal(m);
      w.Write(b);
    }
  }

  // ---- The layout in numbers ----

  /** The 32-bit number at a position of a packet, most significant byte first. */
  function At(b: seq<byte>, i: nat): int
    requires i + 4 <= |b|
  {
    ((b[i] as int * 256 + b[i + 1] as int) * 256 + b[i + 2] as int) * 256 + b[i + 3] as int
  }

  lemma AtIsGet(b: seq<byte>)
    ensures forall i :: 0 <= i <= |b| - 4 ==> At(b, i) == GetU32(b[i..i + 4])
  {
  }

  /** Where each field of each message stands. */
  predicate LaidOut(b: seq<byte>, m: Message) {
    match m
    case OpenMessage(s, w, p) => |b| == 13 && b[0] == 100 && At(b, 1) == s && At(b, 5) == w && At(b, 9) == p
    case OpenConfirmMessage(c, s, w, p) =>
      |b| == 17 && b[0] == 101 && At(b, 1) == c && At(b, 5) == s && At(b, 9) == w && At(b, 13) == p
    case OpenFailureMessage(c) => |b| == 5 && b[0] == 102 && At(b, 1) == c
    case WindowAdjustMessage(c, n) => |b| == 9 && b[0] == 103 && At(b, 1) == c && At(b, 5) == n
    case DataMessage(c, n, d) => |b| == 9 + |d| && b[0] == 104 && At(b, 1) == c && At(b, 5) == n && b[9..] == d
    case EOFMessage(c) => |b| == 5 && b[0] == 105 && At(b, 1) == c
    case CloseMessage(c) => |b| == 5 && b[0] == 106 && At(b, 1) == c
  }

  lemma EncodingLaidOut(m: Message)
    ensures LaidOut(Encoding(m), m)
  {
    FieldsRoundTrip(m);
    EncodingShape(m);
    AtIsGet(Encoding(m));
  }

  // ---- Framing ----

  lemma EncodingShape(m: Message)
    ensures |Encoding(m)| == 1 + PayloadSize(Encoding(m)[0]) + if m.DataMessage? then |m.data| else 0
    ensures KnownType(Encoding(m)[0]) && (Encoding(m)[0] == MSG_DATA <==> m.DataMessage?)
  {
  }

  lemma FieldsRoundTrip(m: Message)
    ensures |Encoding(m)| >= PayloadSize(Encoding(m)[0]) + 1
    ensures DecodePacket(Encoding(m)) == Some(m)
  {
    EncodingShape(m);
    var b := Encoding(m);
    match m
    case OpenMessage(s, w, p) =>
      assert b[1..5] == U32(s) + [] && b[5..9] == U32(w) + [] && b[9..13] == U32(p) + [];
      U32RoundTrip(s, []); U32RoundTrip(w, []); U32RoundTrip(p, []);
    case OpenConfirmMessage(c, s, w, p) =>
      assert b[1..5] == U32(c) + [] && b[5..9] == U32(s) + [] && b[9..13] == U32(w) + [] && b[13..17] == U32(p) + [];
      U32RoundTrip(c, []); U32RoundTrip(s, []); U32RoundTrip(w, []); U32RoundTrip(p, []);
    case WindowAdjustMessage(c, n) =>
      assert b[1..5] == U32(c) + [] && b[5..9] == U32(n) + [];
      U32RoundTrip(c, []); U32RoundTrip(n, []);
    case DataMessage(c, n, d) =>
      assert b[1..5] == U32(c) + [] && b[5..9] == U32(n) + [] && b[9..] == d;
      U32RoundTrip(c, []); U32RoundTrip(n, []);
    case OpenFailureMessage(c) => assert b[1..5] == U32(c) + []; U32RoundTrip(c, []);
    case EOFMessage(c) => assert b[1..5] == U32(c) + []; U32RoundTrip(c, []);
    case CloseMessage(c) => assert b[1..5] == U32(c) + []; U32RoundTrip(c, []);
  }

  /** Decode is injective on exact packets: it re-marshals to the same bytes. */
  lemma DecodeInverse(packet: seq<byte>)
    requires |packet| >= 1 && KnownType(packet[0])
    requires |packet| == PayloadSize(packet[0]) + 1 || (packet[0] == MSG_DATA && |packet| >= 9)
    ensures DecodePacket(packet).Some? && Encoding(DecodePacket(packet).value) == packet
  {
    GetU32Inverse(packet[1..5]);
    if |packet| >= 9 { GetU32Inverse(packet[5..9]); }
    if |packet| >= 13 { GetU32Inverse(packet[9..13]); }
    if |packet| >= 17 { GetU32Inverse(packet[13..17]); }
    var m := DecodePacket(packet).value;
    assert Encoding(m) == packet;
  }

  /** A message comes back first and alone, whatever follows it, exactly when its
      Length counts its Data; in particular no encoding is a proper prefix of another. */
  lemma FramingExact(m: Message)
    ensures m.WellFormed() <==> forall tail: seq<byte> :: NextMessage(Encoding(m) + tail) == Got(m, tail)
  {
    if m.WellFormed() {
      forall tail: seq<byte> ensures NextMessage(Encoding(m) + tail) == Got(m, tail) {
        FramingOne(m, tail);
      }
    } else {
      var s := Encoding(m) + [];
      assert s == Encoding(m) && s[5..9] == U32(m.length) + [];
      U32RoundTrip(m.length, []);
      assert NextMessage(s) != Got(m, []);
    }
  }

  lemma FramingOne(m: Message, tail: seq<byte>)
    requires m.WellFormed()
    ensures NextMessage(Encoding(m) + tail) == Got(m, tail)
  {
    var b := Encoding(m);
    var s := b + tail;
    EncodingShape(m);
    FieldsRoundTrip(m);
    if m.DataMessage? {
      assert s[5..9] == U32(m.length) + [];
      U32RoundTrip(m.length, []);
    }
    assert s[..|b|] == b && s[|b|..] == tail;
  }

  // ---- Streams that do not decode ----

  lemma PacketStays(s: seq<byte>, more: seq<byte>)
    requires NextPacket(s).Packet?
    ensures NextPacket(s + more) == Packet(NextPacket(s).packet, NextPacket(s).rest + more)
  {
    var t, k := s + more, |NextPacket(s).packet|;
    assert k + |NextPacket(s).rest| == |s| && NextPacket(s).packet == s[..k];
    if s[0] == MSG_DATA { assert t[5..9] == s[5..9]; }
    assert t[..k] == s[..k] && t[k..] == s[k..] + more;
  }

  function Padded(s: seq<byte>, n: nat): (t: seq<byte>)
    ensures s <= t && |t| >= n && (|t| == |s| || |t| == n)
  {
    if |s| < n then s + seq(n - |s|, _ => 0) else s
  }

  /** What is cut within a packet can be completed to one. */
  lemma Completed(s: seq<byte>) returns (m: Message, more: seq<byte>)
    requires NextMessage(s) == Bad(EndOfStream)
    ensures m.WellFormed() && more != [] && s + more == Encoding(m)
  {
    var t := if s == [] then [MSG_EOF] else s;
    var u := CompletedBytes(t);
    WholePacket(u);
    m, more := NextMessage(u).message, u[|s|..];
    assert s + more == u;
  }

  lemma CompletedBytes(s: seq<byte>) returns (u: seq<byte>)
    requires s != [] && NextPacket(s).NoPacket?
    ensures s < u && KnownType(u[0]) && |u| >= 1 + PayloadSize(u[0])
    ensures |u| == if u[0] == MSG_DATA then 9 + GetU32(u[5..9]) else 1 + PayloadSize(u[0])
  {
    u := Padded(s, 1 + PayloadSize(s[0]));
    if s[0] == MSG_DATA { u := PaddedData(s, u); }
  }

  lemma WholePacket(t: seq<byte>)
    requires t != [] && KnownType(t[0]) && |t| >= 1 + PayloadSize(t[0])
    requires |t| == if t[0] == MSG_DATA then 9 + GetU32(t[5..9]) else 1 + PayloadSize(t[0])
    ensures var n := NextMessage(t); n.Got? && n.message.WellFormed() && Encoding(n.message) == t
  {
    assert t[..|t|] == t && t[|t|..] == [];
    NextMessageInverse(t);
    assert Encoding(NextMessage(t).message) + [] == t;
  }

  lemma PaddedData(s: seq<byte>, t: seq<byte>) returns (u: seq<byte>)
    requires NextPacket(s).NoPacket? && s != [] && s[0] == MSG_DATA && s <= t && |t| >= 9 && (|t| == |s| || |t| == 9)
    ensures s < u && |u| >= 9 && |u| == 9 + GetU32(u[5..9])
  {
    u := Padded(t, 9 + GetU32(t[5..9]));
    assert u[5..9] == t[5..9];
    if |t| == |s| { assert s == t; }
  }

  /** Which streams yield no message: exactly those that begin with a type out of range, and those that end
      before a packet does, the empty one included. */
  lemma UndecodableExactly(s: seq<byte>)
    ensures NextMessage(s) == Bad(EndOfStream)
            <==> exists m: Message, more: seq<byte> :: m.WellFormed() && more != [] && s + more == Encoding(m)
    ensures forall t: byte :: NextMessage(s) == Bad(UnexpectedType(t)) <==> s != [] && s[0] == t && (t < 100 || t > 106)
  {
    if NextMessage(s) == Bad(EndOfStream) { var m, more := Completed(s); }
    forall m: Message, more: seq<byte> | m.WellFormed() && more != [] && s + more == Encoding(m)
      ensures NextMessage(s) == Bad(EndOfStream)
    {
      CutShort(s, m, more);
    }
  }

  lemma CutShort(s: seq<byte>, m: Message, more: seq<byte>)
    requires m.WellFormed() && more != [] && s + more == Encoding(m)
    ensures NextMessage(s) == Bad(EndOfStream)
  {
    FramingOne(m, []);
    assert Encoding(m) + [] == s + more;
    if NextPacket(s).Packet? {
      PacketStays(s, more);
      EncodingShape(m);
    }
  }

  /** The messages of a stream that holds whole packets of known types and nothing else. */
  function DecodeAll(s: seq<byte>): Option<seq<Message>>
    decreases |s|
  {
    if s == [] then Some([])
    else
      var r := NextMessage(s);
      if r.Bad? then None
      else
        assert |NextPacket(s).packet + r.rest| == |s|;
        var more := DecodeAll(r.rest);
        if more.None? then None else Some([r.message] + more.value)
  }

  predicate AllWellFormed(ms: seq<Message>) {
    forall i :: 0 <= i < |ms| ==> ms[i].WellFormed()
  }

  /** Converse of framing for one packet: what was read re-marshals to the bytes consumed. */
  lemma NextMessageInverse(s: seq<byte>)
    requires NextMessage(s).Got?
    ensures var r := NextMessage(s); r.message.WellFormed() && Encoding(r.message) + r.rest == s
  {
    var p := NextPacket(s);
    assert s[0] == p.packet[0];
    DecodeInverse(p.packet);
    if s[0] == MSG_DATA {
      assert p.packet[5..9] == s[5..9];
    }
  }

  /** Encoding and decoding of streams are inverse bijections between lists of
      well-formed messages and the streams that decode. */
  lemma {:induction false} FramingBijection(s: seq<byte>, ms: seq<Message>)
    ensures DecodeAll(s) == Some(ms) <==> AllWellFormed(ms) && EncodingAll(ms) == s
    decreases |ms|
  {
    if ms == [] {
      assert s != [] && DecodeAll(s).Some? ==> |DecodeAll(s).value| >= 1;
    } else {
      if DecodeAll(s) == Some(ms) {
        var r := NextMessage(s);
        NextMessageInverse(s);
        assert r.message == ms[0] && DecodeAll(r.rest) == Some(ms[1..]);
        FramingBijection(r.rest, ms[1..]);
      }
      if AllWellFormed(ms) && EncodingAll(ms) == s {
        EncodingShape(ms[0]);
        FramingOne(ms[0], EncodingAll(ms[1..]));
        FramingBijection(EncodingAll(ms[1..]), ms[1..]);
        assert [ms[0]] + ms[1..] == ms;
      }
    }
  }

  lemma {:induction false} EncodingAllAppend(xs: seq<Message>, ys: seq<Message>)
    ensures EncodingAll(xs + ys) == EncodingAll(xs) + EncodingAll(ys)
  {
    if xs == [] {
      assert xs + ys == ys;
    } else {
      assert (xs + ys)[1..] == xs[1..] + ys;
      EncodingAllAppend(xs[1..], ys);
      Assoc(Encoding(xs[0]), EncodingAll(xs[1..]), EncodingAll(ys));
    }
  }
}
