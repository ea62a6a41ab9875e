/** TLS records (section 6.2.1 of RFC 5246), and the first message of a stream of them. */
module RecordSpec {
  import opened Bytes
  import opened HelloSpec
  import HelloFormat

  const MAX_PLAINTEXT: nat := 16384
  const MAX_CIPHERTEXT: nat := 16384 + 2048
  const RECORD_HEADER_LEN: nat := 5
  const MAX_HANDSHAKE: nat := 65536
  const TYPE_HANDSHAKE: byte := 22
  const TYPE_CLIENT_HELLO: byte := 1

  /** ConnectionError is the connection's own error, its end or another, which is passed on. */
  datatype ReadError = ConnectionError | SSLv2Handshake | RecordOverflow | UnexpectedMessage | InternalError

  datatype RecordResult =
    | Record(payload: seq<byte>, rest: seq<byte>)
    | BadRecord(error: ReadError)

  /** What the checks on a header say; None if the body is to be read. */
  function HeaderError(h: seq<byte>): Option<ReadError>
    requires |h| >= 5
  {
    if h[0] == 0x80 then Some(SSLv2Handshake)
    else if GetU16(h[3..5]) > MAX_CIPHERTEXT then Some(RecordOverflow)
    else if h[0] != TYPE_HANDSHAKE || GetU16(h[1..3]) >= 0x1000 || GetU16(h[3..5]) >= 0x3000 then
      Some(UnexpectedMessage)
    else None
  }

  /** The first record of a stream whose bytes are s. */
  function NextRecord(s: seq<byte>): (r: RecordResult)
    ensures r.Record? ==> |r.payload| < 0x3000 <= MAX_PLAINTEXT && |r.rest| == |s| - 5 - |r.payload|
  {
    if |s| < RECORD_HEADER_LEN then BadRecord(ConnectionError)
    else if HeaderError(s).Some? then BadRecord(HeaderError(s).value)
    else
      var n: int := GetU16(s[3..5]);
      if |s| < RECORD_HEADER_LEN + n then BadRecord(ConnectionError)
      else Record(s[5..5 + n], s[5 + n..])
  }

  datatype Gathered = Gathered(hand: seq<byte>) | NotGathered(error: ReadError)

  /** Payloads are added to `hand` until it holds `need` bytes. */
  function Gather(hand: seq<byte>, s: seq<byte>, need: nat): (g: Gathered)
    ensures g.Gathered? ==> |g.hand| >= need && hand <= g.hand
    decreases |s|
  {
    if |hand| >= need then Gathered(hand)
    else
      match NextRecord(s)
      case BadRecord(e) => NotGathered(e)
      case Record(payload, rest) => Gather(hand + payload, rest, need)
  }

  datatype Outcome = Parsed(hello: Hello) | Failed(error: ReadError)

  function HandshakeLength(data: seq<byte>): nat
    requires |data| >= 4
  {
    var b1: int, b2: int, b3: int := data[1], data[2], data[3];
    b1 * 0x1_0000 + b2 * 0x100 + b3
  }

  /** A whole handshake message. */
  function ParseMessage(data: seq<byte>): Outcome
    requires |data| >= 4
  {
    if data[0] != TYPE_CLIENT_HELLO then Failed(UnexpectedMessage)
    else
      match Unmarshalled(NO_HELLO, data)
      case None => Failed(UnexpectedMessage)
      case Some(m) => Parsed(m)
  }

  /** readClientHello, record by record. */
  function ReadHello(s: seq<byte>): Outcome {
    match NextRecord(s)
    case BadRecord(e) => Failed(e)
    case Record(payload, rest) => ReadOn(payload, rest)
  }

  /** After the first record, whose payload is `hand`. */
  function ReadOn(hand: seq<byte>, s: seq<byte>): Outcome {
    if |hand| < 4 then Failed(UnexpectedMessage)
    else
      var n := HandshakeLength(hand);
      if n > MAX_HANDSHAKE then Failed(InternalError)
      else
        match Gather(hand, s, 4 + n)
        case NotGathered(e) => Failed(e)
        case Gathered(all) => ParseMessage(all[..4 + n])
  }

  // ---- Fragmentation ----

  datatype Fragment = Fragment(vers: u16, payload: seq<byte>)

  /** A record as this reader takes it: below version 16.0, and less than 12 kB. */
  predicate Acceptable(f: Fragment) {
    f.vers < 0x1000 && |f.payload| < 0x3000
  }

  predicate AllAcceptable(fs: seq<Fragment>) {
    forall i :: 0 <= i < |fs| ==> Acceptable(fs[i])
  }

  /** A record of the handshake type. */
  function FragmentBytes(f: Fragment): seq<byte> {
    [22] + U16(f.vers) + U16(HelloFormat.Size(|f.payload|)) + f.payload
  }

  function Wire(fs: seq<Fragment>): seq<byte> {
    if fs == [] then [] else FragmentBytes(fs[0]) + Wire(fs[1..])
  }

  function Payloads(fs: seq<Fragment>): seq<byte> {
    if fs == [] then [] else fs[0].payload + Payloads(fs[1..])
  }

  lemma FragmentRead(f: Fragment, tail: seq<byte>)
    requires Acceptable(f)
    ensures NextRecord(FragmentBytes(f) + tail) == Record(f.payload, tail)
  {
    var s := FragmentBytes(f) + tail;
    assert s[1..3] == U16(f.vers) + [] && s[3..5] == U16(|f.payload|) + [];
    U16RoundTrip(f.vers, []);
    U16RoundTrip(|f.payload|, []);
    assert s[5..5 + |f.payload|] == f.payload && s[5 + |f.payload|..] == tail;
  }

  lemma WireHead(fs: seq<Fragment>, tail: seq<byte>)
    requires fs != [] && Acceptable(fs[0])
    ensures NextRecord(Wire(fs) + tail) == Record(fs[0].payload, Wire(fs[1..]) + tail)
  {
    FragmentRead(fs[0], Wire(fs[1..]) + tail);
    Assoc(FragmentBytes(fs[0]), Wire(fs[1..]), tail);
  }

  lemma {:induction false} GatherFragments(hand: seq<byte>, fs: seq<Fragment>, tail: seq<byte>, need: nat)
    requires AllAcceptable(fs) && |hand| + |Payloads(fs)| >= need
    ensures var g := Gather(hand, Wire(fs) + tail, need);
            g.Gathered? && |g.hand| >= need && g.hand[..need] == (hand + Payloads(fs))[..need]
    decreases |fs|
  {
    if |hand| < need {
      WireHead(fs, tail);
      GatherFragments(hand + fs[0].payload, fs[1..], tail, need);
      Assoc(hand, fs[0].payload, Payloads(fs[1..]));
    }
  }

  /** A handshake message cut into acceptable records in any way, with more in the last record
      and anything after it, is read as the whole message if and only if the first record holds
      its 4 header bytes, or the message is one that is refused as unexpected anyway. */
  lemma Fragmented(fs: seq<Fragment>, h: seq<byte>, tail: seq<byte>)
    requires fs != [] && AllAcceptable(fs) && h <= Payloads(fs)
    requires |h| >= 4 && |h| == 4 + HandshakeLength(h) && HandshakeLength(h) <= MAX_HANDSHAKE
    ensures ReadHello(Wire(fs) + tail) == ParseMessage(h)
            <==> |fs[0].payload| >= 4 || ParseMessage(h) == Failed(UnexpectedMessage)
  {
    WireHead(fs, tail);
    if |fs[0].payload| >= 4 { LongFirst(fs[0].payload, fs[1..], h, tail); }
  }

  lemma LongFirst(hand: seq<byte>, fs: seq<Fragment>, h: seq<byte>, tail: seq<byte>)
    requires AllAcceptable(fs) && h <= hand + Payloads(fs) && |hand| >= 4
    requires |h| >= 4 && |h| == 4 + HandshakeLength(h) && HandshakeLength(h) <= MAX_HANDSHAKE
    ensures ReadOn(hand, Wire(fs) + tail) == ParseMessage(h)
  {
    SameLength(hand, h, hand + Payloads(fs));
    GatherFragments(hand, fs, tail, |h|);
    assert (hand + Payloads(fs))[..|h|] == h;
  }

  /** Two prefixes of one string tell the same length. */
  lemma SameLength(a: seq<byte>, b: seq<byte>, s: seq<byte>)
    requires 4 <= |a| && 4 <= |b| && a <= s && b <= s
    ensures HandshakeLength(a) == HandshakeLength(b)
  {
    assert forall i :: 0 <= i < 4 ==> a[i] == s[i] && b[i] == s[i];
  }

  // ---- What is accepted, and what is refused ----

  /** A record that is read is an acceptable fragment at the start of the stream. */
  lemma RecordIsFragment(s: seq<byte>)
    requires NextRecord(s).Record?
    ensures var f := Fragment(GetU16(s[1..3]), NextRecord(s).payload);
            Acceptable(f) && s == FragmentBytes(f) + NextRecord(s).rest
  {
    GetU16Inverse(s[1..3]);
    GetU16Inverse(s[3..5]);
    assert s[1..3][..2] == s[1..3] && s[3..5][..2] == s[3..5];
    var n: int := GetU16(s[3..5]);
    assert s == [s[0]] + s[1..3] + s[3..5] + s[5..5 + n] + s[5 + n..];
  }

  /** Whatever is gathered comes from acceptable fragments. */
  lemma {:induction false} GatheredFrom(hand: seq<byte>, s: seq<byte>, need: nat)
        returns (fs: seq<Fragment>, tail: seq<byte>)
    requires Gather(hand, s, need).Gathered?
    ensures s == Wire(fs) + tail && AllAcceptable(fs) && Gather(hand, s, need).hand == hand + Payloads(fs)
    decreases |s|
  {
    if |hand| >= need {
      assert s == [] + s && hand == hand + [];
      return [], s;
    }
    var r := NextRecord(s);
    var f := Fragment(GetU16(s[1..3]), r.payload);
    RecordIsFragment(s);
    var more;
    more, tail := GatheredFrom(hand + r.payload, r.rest, need);
    fs := [f] + more;
    assert fs[1..] == more;
    Assoc(FragmentBytes(f), Wire(more), tail);
    Assoc(hand, f.payload, Payloads(more));
  }

  /** The stream carries, in acceptable handshake records whose first holds its 4 header bytes, a
      ClientHello of at most 65536 bytes that unmarshals to m. */
  ghost predicate Carries(s: seq<byte>, m: Hello) {
    exists fs, tail, h :: CarriedBy(s, m, fs, tail, h)
  }

  predicate CarriedBy(s: seq<byte>, m: Hello, fs: seq<Fragment>, tail: seq<byte>, h: seq<byte>) {
    && s == Wire(fs) + tail && fs != [] && AllAcceptable(fs) && |fs[0].payload| >= 4 && h <= Payloads(fs)
    && |h| >= 4 && |h| == 4 + HandshakeLength(h) && HandshakeLength(h) <= 65536 && h[0] == 1
    && Unmarshalled(NO_HELLO, h) == Some(m)
  }

  /** Exactly the streams that carry an acceptable ClientHello are parsed, to what they carry. */
  lemma ParsedExactly(s: seq<byte>, m: Hello)
    ensures ReadHello(s) == Parsed(m) <==> Carries(s, m)
  {
    if Carries(s, m) {
      var fs, tail, h :| CarriedBy(s, m, fs, tail, h);
      Fragmented(fs, h, tail);
    }
    if ReadHello(s) == Parsed(m) { ParsedIsCarried(s, m); }
  }

  lemma ParsedIsCarried(s: seq<byte>, m: Hello)
    requires ReadHello(s) == Parsed(m)
    ensures Carries(s, m)
  {
    var r, f := NextRecord(s), Fragment(GetU16(s[1..3]), NextRecord(s).payload);
    RecordIsFragment(s);
    var more, tail, h := ReadOnCarried(r.payload, r.rest, m);
    FirstFragment(s, f, more, tail);
    CarriedFrom(s, f, more, tail, h, m);
  }

  lemma CarriedFrom(s: seq<byte>, f: Fragment, more: seq<Fragment>, tail: seq<byte>, h: seq<byte>, m: Hello)
    requires s == Wire([f] + more) + tail && Acceptable(f) && AllAcceptable(more)
    requires |f.payload| >= 4 && h <= Payloads([f] + more)
    requires |h| >= 4 && |h| == 4 + HandshakeLength(h) && HandshakeLength(h) <= 65536 && h[0] == 1
    requires Unmarshalled(NO_HELLO, h) == Some(m)
    ensures Carries(s, m)
  {
    assert CarriedBy(s, m, [f] + more, tail, h);
  }

  lemma ReadOnCarried(hand: seq<byte>, s: seq<byte>, m: Hello)
        returns (fs: seq<Fragment>, tail: seq<byte>, h: seq<byte>)
    requires ReadOn(hand, s) == Parsed(m)
    ensures s == Wire(fs) + tail && AllAcceptable(fs) && |hand| >= 4 && h <= hand + Payloads(fs)
    ensures |h| >= 4 && |h| == 4 + HandshakeLength(h) && HandshakeLength(h) <= 65536 && h[0] == 1
    ensures Unmarshalled(NO_HELLO, h) == Some(m)
  {
    var need := 4 + HandshakeLength(hand);
    fs, tail := GatheredFrom(hand, s, need);
    h := (hand + Payloads(fs))[..need];
    SameLength(h, hand, hand + Payloads(fs));
    MessageParsed(h, m);
  }

  lemma MessageParsed(h: seq<byte>, m: Hello)
    requires |h| >= 4 && ParseMessage(h) == Parsed(m)
    ensures h[0] == 1 && Unmarshalled(NO_HELLO, h) == Some(m)
  {
  }

  lemma FirstFragment(s: seq<byte>, f: Fragment, more: seq<Fragment>, tail: seq<byte>)
    requires s == FragmentBytes(f) + (Wire(more) + tail)
    ensures s == Wire([f] + more) + tail && Payloads([f] + more) == f.payload + Payloads(more)
  {
    assert ([f] + more)[1..] == more;
    Assoc(FragmentBytes(f), Wire(more), tail);
  }

  /** The header h of a record that is refused, by numbers: 0x80 starts an SSLv2 handshake, 18432 bytes is
      the most a record may hold, 22 is the handshake type. */
  predicate RefusedHeader(h: seq<byte>, error: ReadError)
    requires |h| == 5
  {
    var typ: int, vers: int, length: int := h[0], GetU16(h[1..3]), GetU16(h[3..5]);
    match error
    case SSLv2Handshake => typ == 0x80
    case RecordOverflow => typ != 0x80 && length > 18432
    case UnexpectedMessage => typ != 0x80 && length <= 18432 && (typ != 22 || vers >= 0x1000 || length >= 0x3000)
    case _ => false
  }

  /** After any acceptable fragments that do not complete the message, a bad header is refused for its own
      reason, before its body is read. */
  lemma HeaderRefused(fs: seq<Fragment>, h: seq<byte>, tail: seq<byte>, error: ReadError)
    requires AllAcceptable(fs) && |h| == 5 && RefusedHeader(h, error)
    requires fs != [] ==> && |fs[0].payload| >= 4 && HandshakeLength(fs[0].payload) <= 65536
                          && |Payloads(fs)| < 4 + HandshakeLength(fs[0].payload)
    ensures ReadHello(Wire(fs) + (h + tail)) == Failed(error)
  {
    var s := h + tail;
    HeaderRead(h, tail, error);
    if fs == [] {
      assert Wire(fs) + s == s;
    } else {
      WireHead(fs, s);
      ReadOnStops(fs[0].payload, fs[1..], s, 4 + HandshakeLength(fs[0].payload), error);
    }
  }

  lemma ReadOnStops(hand: seq<byte>, fs: seq<Fragment>, s: seq<byte>, need: nat, error: ReadError)
    requires AllAcceptable(fs) && |hand| + |Payloads(fs)| < need && NextRecord(s) == BadRecord(error)
    requires |hand| >= 4 && HandshakeLength(hand) <= 65536 && need == 4 + HandshakeLength(hand)
    ensures ReadOn(hand, Wire(fs) + s) == Failed(error)
  {
    GatherStops(hand, fs, s, need, error);
    ReadOnFails(hand, Wire(fs) + s, error);
  }

  lemma ReadOnFails(hand: seq<byte>, s: seq<byte>, error: ReadError)
    requires |hand| >= 4 && HandshakeLength(hand) <= 65536
    requires Gather(hand, s, 4 + HandshakeLength(hand)) == NotGathered(error)
    ensures ReadOn(hand, s) == Failed(error)
  {
  }

  lemma HeaderRead(h: seq<byte>, tail: seq<byte>, error: ReadError)
    requires |h| == 5 && RefusedHeader(h, error)
    ensures NextRecord(h + tail) == BadRecord(error)
  {
    var s := h + tail;
    assert s[1..3] == h[1..3] && s[3..5] == h[3..5];
  }

  lemma {:induction false} GatherStops(hand: seq<byte>, fs: seq<Fragment>, s: seq<byte>, need: nat,
                                       error: ReadError)
    requires AllAcceptable(fs) && |hand| + |Payloads(fs)| < need && NextRecord(s) == BadRecord(error)
    ensures Gather(hand, Wire(fs) + s, need) == NotGathered(error)
    decreases |fs|
  {
    if fs == [] {
      assert Wire(fs) + s == s;
    } else {
      WireHead(fs, s);
      GatherStops(hand + fs[0].payload, fs[1..], s, need, error);
    }
  }

  /** A handshake message that says it is longer than 65536 bytes is refused at once. */
  lemma LongRefused(fs: seq<Fragment>, tail: seq<byte>)
    requires fs != [] && Acceptable(fs[0]) && |fs[0].payload| >= 4 && HandshakeLength(fs[0].payload) > 65536
    ensures ReadHello(Wire(fs) + tail) == Failed(InternalError)
  {
    WireHead(fs, tail);
  }

  // ---- Streams that end too soon ----

  lemma RecordSettled(s: seq<byte>, more: seq<byte>)
    requires NextRecord(s) != BadRecord(ConnectionError)
    ensures var r := NextRecord(s);
            NextRecord(s + more) == if r.Record? then Record(r.payload, r.rest + more) else r
  {
    var t := s + more;
    assert t[1..3] == s[1..3] && t[3..5] == s[3..5];
    if NextRecord(s).Record? {
      var n: int := GetU16(s[3..5]);
      assert t[5..5 + n] == s[5..5 + n] && t[5 + n..] == s[5 + n..] + more;
    }
  }

  lemma {:induction false} GatherSettled(hand: seq<byte>, s: seq<byte>, need: nat, more: seq<byte>)
    requires Gather(hand, s, need) != NotGathered(ConnectionError)
    ensures Gather(hand, s + more, need) == Gather(hand, s, need)
    decreases |s|
  {
    if |hand| < need {
      RecordSettled(s, more);
      var r := NextRecord(s);
      if r.Record? { GatherSettled(hand + r.payload, r.rest, need, more); }
    }
  }

  /** Bytes that settle any stream: they fill up its record, and begin no other. */
  function Zeros(n: nat): seq<byte> {
    seq(n, _ => 0)
  }

  lemma ZerosDrop(s: seq<byte>, k: nat, n: nat)
    requires |s| < k <= |s| + n
    ensures (s + Zeros(n))[k..] == Zeros(|s| + n - k)
  {
  }

  /** A stream that ends within its first record is settled by zeros: the record is refused, or read with
      zeros left, which are no record. */
  lemma RecordFilled(s: seq<byte>)
    requires NextRecord(s) == BadRecord(ConnectionError)
    ensures var r := NextRecord(s + Zeros(0x4000));
            r != BadRecord(ConnectionError) && (r.Record? ==> NextRecord(r.rest) == BadRecord(UnexpectedMessage))
  {
    var t := s + Zeros(0x4000);
    var n: int := GetU16(t[3..5]);
    if |s| >= 5 { assert t[3..5] == s[3..5] && t[1..3] == s[1..3]; }
    if NextRecord(t).Record? {
      assert |s| < 5 + n;
      ZerosDrop(s, 5 + n, 0x4000);
    }
  }

  lemma {:induction false} GatherFilled(hand: seq<byte>, s: seq<byte>, need: nat)
    requires Gather(hand, s, need) == NotGathered(ConnectionError)
    ensures Gather(hand, s + Zeros(0x4000), need) != NotGathered(ConnectionError)
    decreases |s|
  {
    var r := NextRecord(s);
    if r.Record? {
      RecordSettled(s, Zeros(0x4000));
      GatherFilled(hand + r.payload, r.rest, need);
    } else {
      RecordFilled(s);
      var r1 := NextRecord(s + Zeros(0x4000));
      if r1.Record? && |hand + r1.payload| < need { assert Gather(hand + r1.payload, r1.rest, need).NotGathered?; }
    }
  }

  /** The connection's own error is the outcome exactly when the stream ends too soon to tell: then some
      more bytes change it, and any other outcome they leave as it is. */
  lemma EndsTooSoon(s: seq<byte>)
    ensures ReadHello(s) == Failed(ConnectionError) <==> exists more :: ReadHello(s + more) != ReadHello(s)
  {
    if ReadHello(s) == Failed(ConnectionError) {
      Unsettled(s);
    } else {
      forall more ensures ReadHello(s + more) == ReadHello(s) {
        Settled(s, more);
      }
    }
  }

  lemma Settled(s: seq<byte>, more: seq<byte>)
    requires ReadHello(s) != Failed(ConnectionError)
    ensures ReadHello(s + more) == ReadHello(s)
  {
    RecordSettled(s, more);
    if NextRecord(s).Record? { ReadOnSettled(NextRecord(s).payload, NextRecord(s).rest, more); }
  }

  lemma ReadOnSettled(hand: seq<byte>, s: seq<byte>, more: seq<byte>)
    requires ReadOn(hand, s) != Failed(ConnectionError)
    ensures ReadOn(hand, s + more) == ReadOn(hand, s)
  {
    if |hand| >= 4 && HandshakeLength(hand) <= MAX_HANDSHAKE {
      GatherSettled(hand, s, 4 + HandshakeLength(hand), more);
    }
  }

  lemma Unsettled(s: seq<byte>)
    requires ReadHello(s) == Failed(ConnectionError)
    ensures ReadHello(s + Zeros(0x4000)) != Failed(ConnectionError)
  {
    if NextRecord(s).Record? {
      RecordSettled(s, Zeros(0x4000));
      ReadOnUnsettled(NextRecord(s).payload, NextRecord(s).rest);
    } else {
      var r := NextRecord(s + Zeros(0x4000));
      RecordFilled(s);
      if r.Record? { ReadOnRefused(r.payload, r.rest); }
    }
  }

  lemma ReadOnUnsettled(hand: seq<byte>, s: seq<byte>)
    requires ReadOn(hand, s) == Failed(ConnectionError)
    ensures ReadOn(hand, s + Zeros(0x4000)) != Failed(ConnectionError)
  {
    GatherFilled(hand, s, 4 + HandshakeLength(hand));
  }

  lemma ReadOnRefused(hand: seq<byte>, s: seq<byte>)
    requires NextRecord(s) == BadRecord(UnexpectedMessage)
    ensures ReadOn(hand, s) != Failed(ConnectionError)
  {
  }

  /** From a client's offer to the parsed message, through any fragmentation. */
  lemma OfferRead(w: HelloFormat.Offer, fs: seq<Fragment>, tail: seq<byte>)
    requires HelloFormat.WellFormed(w) && |HelloFormat.OfferBody(w)| <= MAX_HANDSHAKE
    requires fs != [] && AllAcceptable(fs) && |fs[0].payload| >= 4 && HelloFormat.Serialize(w) <= Payloads(fs)
    ensures ReadHello(Wire(fs) + tail) == Parsed(HelloFormat.Meaning(NO_HELLO, w))
            <==> w.extensions.None? || HelloFormat.ListsReadRight(w.extensions.value)
  {
    var h := HelloFormat.Serialize(w);
    HeaderLength(|HelloFormat.OfferBody(w)|);
    SameLength(h, HelloFormat.Header(|HelloFormat.OfferBody(w)|), h);
    Fragmented(fs, h, tail);
    HelloFormat.RoundTrip(NO_HELLO, w);
  }

  lemma HeaderLength(n: nat)
    requires n <= MAX_HANDSHAKE
    ensures HandshakeLength(HelloFormat.Header(n)) == n
  {
    assert n / 0x1_0000 == n / 0x100 / 0x100;
  }

  /** A hello whose first record holds 3 bytes of it is refused, though it is accepted in one record. */
  lemma ShortFirstRecord(random: seq<byte>)
    requires |random| == 32
    ensures var h := HelloFormat.Serialize(HelloFormat.Offer(0x0303, random, [], [], [], None));
            && |h| == 42
            && ReadHello(Wire([Fragment(0x0301, h)])).Parsed?
            && ReadHello(Wire([Fragment(0x0301, h[..3]), Fragment(0x0301, h[3..])])) == Failed(UnexpectedMessage)
  {
    var w := HelloFormat.Offer(0x0303, random, [], [], [], None);
    var h := HelloFormat.Serialize(w);
    var whole, cut := [Fragment(0x0301, h)], [Fragment(0x0301, h[..3]), Fragment(0x0301, h[3..])];
    assert Payloads(whole) == h by { assert whole[1..] == []; }
    OfferRead(w, whole, []);
    assert Wire(whole) + [] == Wire(whole) && Wire(cut) + [] == Wire(cut);
    WireHead(cut, []);
  }
}
