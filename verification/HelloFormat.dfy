/** The format of a ClientHello (sections 7.4.1.2 of RFC 5246 and 3 of RFC 6066), and how unmarshal reads it. */
module HelloFormat {
  import opened Bytes
  import opened HelloSpec

  datatype Name = Name(kind: byte, name: seq<byte>)

  datatype Extension =
    | ServerNames(names: seq<Name>)
    | NextProto
    | StatusRequest(status: seq<byte>)
    | Curves(curves: seq<u16>)
    | Points(points: seq<byte>)
    | Ticket(ticket: seq<byte>)
    | Unknown(typ: u16, content: seq<byte>)

  /** A ClientHello as a client means it; None where it leaves the extension block out. */
  datatype Offer = Offer(
    vers: u16,
    random: seq<byte>,
    sessionId: seq<byte>,
    suites: seq<u16>,
    methods: seq<byte>,
    extensions: Option<seq<Extension>>)

  // ---- Serialisation ----

  /** A length that fits its two bytes, as those of well-formed offers do. */
  function Size(n: nat): u16 {
    if n < 0x1_0000 then n else 0
  }

  function Size8(n: nat): byte {
    if n < 0x100 then n else 0
  }

  function OneName(n: Name): (b: seq<byte>)
    ensures |b| == 3 + |n.name|
  {
    [n.kind] + U16(Size(|n.name|)) + n.name
  }

  function NameBytes(names: seq<Name>): (b: seq<byte>)
    ensures |b| >= 3 * |names|
  {
    if names == [] then []
    else OneName(names[0]) + NameBytes(names[1..])
  }

  function TypeOf(e: Extension): u16 {
    match e
    case ServerNames(_) => EXT_SERVER_NAME
    case NextProto => EXT_NEXT_PROTO
    case StatusRequest(_) => EXT_STATUS_REQUEST
    case Curves(_) => EXT_CURVES
    case Points(_) => EXT_POINTS
    case Ticket(_) => EXT_TICKET
    case Unknown(typ, _) => typ
  }

  function BodyOf(e: Extension): seq<byte> {
    match e
    case ServerNames(names) => U16(Size(|NameBytes(names)|)) + NameBytes(names)
    case NextProto => []
    case StatusRequest(status) => status
    case Curves(curves) => CountedU16s(curves)
    case Points(points) => CountedBytes(points)
    case Ticket(ticket) => ticket
    case Unknown(_, content) => content
  }

  /** 16-bit numbers after a two-byte count of their bytes. */
  function CountedU16s(xs: seq<u16>): seq<byte> {
    U16(Size(2 * |xs|)) + U16sBytes(xs)
  }

  /** Bytes after a one-byte count. */
  function CountedBytes(b: seq<byte>): seq<byte> {
    [Size8(|b|)] + b
  }

  function ExtensionBytes(e: Extension): seq<byte> {
    U16(TypeOf(e)) + U16(Size(|BodyOf(e)|)) + BodyOf(e)
  }

  function ExtensionsBytes(es: seq<Extension>): seq<byte> {
    if es == [] then [] else ExtensionBytes(es[0]) + ExtensionsBytes(es[1..])
  }

  function BlockBytes(extensions: Option<seq<Extension>>): seq<byte> {
    match extensions
    case None => []
    case Some(es) => U16(Size(|ExtensionsBytes(es)|)) + ExtensionsBytes(es)
  }

  function IdBytes(vers: u16, random: seq<byte>, sessionId: seq<byte>): seq<byte> {
    U16(vers) + random + [Size8(|sessionId|)] + sessionId
  }

  function OfferBody(w: Offer): seq<byte> {
    IdBytes(w.vers, w.random, w.sessionId)
    + (CountedU16s(w.suites) + (CountedBytes(w.methods) + BlockBytes(w.extensions)))
  }

  function Header(n: nat): (b: seq<byte>)
    ensures |b| == 4
  {
    [1, n / 0x1_0000 % 0x100, n / 0x100 % 0x100, n % 0x100]
  }

  /** The handshake message. */
  function Serialize(w: Offer): seq<byte> {
    Header(|OfferBody(w)|) + OfferBody(w)
  }

  // ---- Well-formed offers ----

  predicate WellFormedExtension(e: Extension) {
    && |BodyOf(e)| < 0x1_0000
    && (e.ServerNames? ==> forall i :: 0 <= i < |e.names| ==> |e.names[i].name| < 0x1_0000)
    && (e.Points? ==> |e.points| < 0x100)
    && (e.Unknown? ==>
          e.typ !in {EXT_SERVER_NAME, EXT_NEXT_PROTO, EXT_STATUS_REQUEST, EXT_CURVES, EXT_POINTS, EXT_TICKET})
  }

  predicate WellFormedExtensions(es: seq<Extension>) {
    && (forall i :: 0 <= i < |es| ==> WellFormedExtension(es[i]))
    && (forall i, j :: 0 <= i < j < |es| ==> TypeOf(es[i]) != TypeOf(es[j]))
  }

  predicate WellFormed(w: Offer) {
    && |w.random| == 32 && |w.sessionId| <= 32 && 2 * |w.suites| < 0x1_0000 && |w.methods| < 0x100
    && (w.extensions.Some? ==>
          WellFormedExtensions(w.extensions.value) && |ExtensionsBytes(w.extensions.value)| < 0x1_0000)
  }

  // ---- What an offer means ----

  function FirstHost(names: seq<Name>): Option<seq<byte>> {
    if names == [] then None
    else if names[0].kind == HOST_NAME then Some(names[0].name)
    else FirstHost(names[1..])
  }

  /** The extension of a type. */
  function Find(es: seq<Extension>, typ: u16): Option<Extension> {
    if es == [] then None
    else if TypeOf(es[0]) == typ then Some(es[0])
    else Find(es[1..], typ)
  }

  function HostOf(e: Option<Extension>, otherwise: seq<byte>): seq<byte> {
    if e.Some? && e.value.ServerNames? && FirstHost(e.value.names).Some? then FirstHost(e.value.names).value
    else otherwise
  }

  /** A message m with the extensions of an offer filled in, type by type. */
  function Filled(m: Hello, es: seq<Extension>): Hello {
    var status, curves := Find(es, EXT_STATUS_REQUEST), Find(es, EXT_CURVES);
    var points, ticket := Find(es, EXT_POINTS), Find(es, EXT_TICKET);
    m.(nextProtoNeg := m.nextProtoNeg || Find(es, EXT_NEXT_PROTO).Some?,
       serverName := HostOf(Find(es, EXT_SERVER_NAME), m.serverName),
       ocsp := if status.Some? && status.value.StatusRequest?
               then status.value.status != [] && status.value.status[0] == STATUS_TYPE_OCSP else m.ocsp,
       curves := if curves.Some? && curves.value.Curves? then curves.value.curves else m.curves,
       points := if points.Some? && points.value.Points? then points.value.points else m.points,
       ticketSupported := m.ticketSupported || ticket.Some?,
       ticket := if ticket.Some? && ticket.value.Ticket? then ticket.value.ticket else m.ticket)
  }

  /** What unmarshal should leave in a message that held m. */
  function Meaning(m: Hello, w: Offer): Hello {
    Filled(Bare(m, w), if w.extensions.Some? then w.extensions.value else [])
  }

  // ---- When unmarshal gets it right ----

  /** Names of other types than host_name, as they stand in a list. */
  predicate HostFree(names: seq<Name>) {
    forall i :: 0 <= i < |names| ==> |names[i].name| < 0x1_0000 && names[i].kind != HOST_NAME
  }

  /** b begins with host-free names: `count` of them, or fewer and then an empty host_name. */
  predicate HarmlessAs(b: seq<byte>, count: nat, names: seq<Name>, more: seq<byte>) {
    && HostFree(names) && b == NameBytes(names) + more
    && (|names| == count || (|names| < count && [HOST_NAME, 0, 0] <= more))
  }

  ghost predicate Harmless(b: seq<byte>, count: nat) {
    exists names, more :: HarmlessAs(b, count, names, more)
  }

  /** A server_name list holds a host_name; or what follows it can be taken for as many more names as
      the list has bytes beyond its names, without a host_name but perhaps an empty one. */
  ghost predicate ListReadRight(names: seq<Name>, following: seq<byte>) {
    FirstHost(names).Some? || Harmless(following, |NameBytes(names)| - |names|)
  }

  ghost predicate ListsReadRight(es: seq<Extension>) {
    es != [] ==>
      && (es[0].ServerNames? ==> ListReadRight(es[0].names, ExtensionsBytes(es[1..])))
      && ListsReadRight(es[1..])
  }

  // ---- Proof ----

  lemma NameParse(d: seq<byte>, n: Name, more: seq<byte>, count: nat, later: NameScan)
    requires d == OneName(n) + more && |n.name| < 0x1_0000 && count > 0 && later == ScanNames(more, count - 1)
    ensures ScanNames(d, count) == if n.kind == HOST_NAME then Host(n.name) else later
  {
    assert d[1..3] == U16(|n.name|) + [];
    U16RoundTrip(|n.name|, []);
    assert d[3..3 + |n.name|] == n.name;
    assert d[3 + |n.name|..] == more;
  }

  lemma NamesHead(d: seq<byte>, names: seq<Name>, tail: seq<byte>)
    requires names != [] && d == NameBytes(names) + tail
    ensures d == OneName(names[0]) + (NameBytes(names[1..]) + tail)
  {
    Assoc(OneName(names[0]), NameBytes(names[1..]), tail);
  }

  /** What a scan makes of names and then, past them, `after`. */
  function AfterNames(names: seq<Name>, after: NameScan): NameScan {
    if FirstHost(names).Some? then Host(FirstHost(names).value) else after
  }

  lemma {:induction false} NamesParse(d: seq<byte>, names: seq<Name>, tail: seq<byte>, count: nat, after: NameScan)
    requires d == NameBytes(names) + tail && count >= |names| && after == ScanNames(tail, count - |names|)
    requires forall i :: 0 <= i < |names| ==> |names[i].name| < 0x1_0000
    ensures ScanNames(d, count) == AfterNames(names, after)
    decreases |names|
  {
    if names == [] {
      assert d == tail;
    } else {
      var more := NameBytes(names[1..]) + tail;
      NamesHead(d, names, tail);
      NamesParse(more, names[1..], tail, count - 1, after);
      NameParse(d, names[0], more, count, AfterNames(names[1..], after));
    }
  }

  lemma {:induction false} HostFreeHasNoHost(names: seq<Name>)
    requires HostFree(names)
    ensures FirstHost(names).None?
  {
    if names != [] { HostFreeHasNoHost(names[1..]); }
  }

  lemma HarmlessSkipped(b: seq<byte>, count: nat, names: seq<Name>, more: seq<byte>)
    requires HarmlessAs(b, count, names, more)
    ensures ScanNames(b, count) in {NoHost, Host([])}
  {
    NamesParse(b, names, more, count, ScanNames(more, count - |names|));
    HostFreeHasNoHost(names);
    if |names| < count {
      assert more[..3] == [HOST_NAME, 0, 0];
      assert more[0] == more[..3][0] && more[1] == more[..3][1] && more[2] == more[..3][2];
      assert GetU16(more[1..3]) == 0 && more[3..3] == [];
    }
  }

  /** One more name before harmless bytes. */
  lemma HarmlessStep(b: seq<byte>, count: nat, names: seq<Name>, more: seq<byte>)
    requires count > 0 && |b| >= 3 && |b| - 3 >= GetU16(b[1..3]) && b[0] != HOST_NAME
    requires HarmlessAs(b[3 + GetU16(b[1..3]) as int..], count - 1, names, more)
    ensures HarmlessAs(b, count, [Name(b[0], b[3..3 + GetU16(b[1..3]) as int])] + names, more)
  {
    var nameLen: int := GetU16(b[1..3]);
    var first := Name(b[0], b[3..3 + nameLen]);
    GetU16Inverse(b[1..3]);
    NameSplit(b, nameLen);
    assert ([first] + names)[1..] == names;
    Assoc(OneName(first), NameBytes(names), more);
  }

  lemma {:induction false} SkippedHarmless(b: seq<byte>, count: nat) returns (names: seq<Name>, more: seq<byte>)
    requires ScanNames(b, count) in {NoHost, Host([])}
    ensures HarmlessAs(b, count, names, more)
    decreases count
  {
    names, more := [], b;
    assert NameBytes([]) + b == b;
    if count > 0 {
      var nameLen: int := GetU16(b[1..3]);
      if b[0] != HOST_NAME {
        names, more := SkippedHarmless(b[3 + nameLen..], count - 1);
        HarmlessStep(b, count, names, more);
        names := [Name(b[0], b[3..3 + nameLen])] + names;
      } else {
        EmptyHost(b);
      }
    }
  }

  lemma EmptyHost(b: seq<byte>)
    requires |b| >= 3 && b[0] == HOST_NAME && GetU16(b[1..3]) == 0
    ensures [HOST_NAME, 0, 0] <= b
  {
    assert b[1..3][0] == b[1] && b[1..3][1] == b[2];
  }

  lemma NameSplit(b: seq<byte>, nameLen: u16)
    requires |b| >= 3 + nameLen && U16(nameLen) == b[1..3][..2]
    ensures b == [b[0]] + U16(nameLen) + b[3..3 + nameLen] + b[3 + nameLen..]
  {
  }

  /** The scan changes nothing exactly on what looks like host-free names. */
  lemma ScanHarmless(b: seq<byte>, count: nat)
    ensures ScanNames(b, count) in {NoHost, Host([])} <==> Harmless(b, count)
  {
    if ScanNames(b, count) in {NoHost, Host([])} {
      var names, more := SkippedHarmless(b, count);
    }
    if Harmless(b, count) {
      var names, more :| HarmlessAs(b, count, names, more);
      HarmlessSkipped(b, count, names, more);
    }
  }

  /** One extension of an offer applied to a message, where its names hold a host_name. */
  function Applied(m: Hello, e: Extension): Hello {
    match e
    case ServerNames(names) => m.(serverName := HostOf(Some(e), m.serverName))
    case NextProto => m.(nextProtoNeg := true)
    case StatusRequest(status) => m.(ocsp := status != [] && status[0] == STATUS_TYPE_OCSP)
    case Curves(curves) => m.(curves := curves)
    case Points(points) => m.(points := points)
    case Ticket(ticket) => m.(ticketSupported := true, ticket := ticket)
    case Unknown(_, _) => m
  }

  function AppliedAll(m: Hello, es: seq<Extension>): Hello
    decreases |es|
  {
    if es == [] then m else AppliedAll(Applied(m, es[0]), es[1..])
  }

  lemma OtherParse(m: Hello, e: Extension, tail: seq<byte>)
    requires WellFormedExtension(e) && !e.ServerNames?
    ensures ParseExtension(m, TypeOf(e), |BodyOf(e)|, BodyOf(e) + tail) == Some(Applied(m, e))
  {
    var data := BodyOf(e) + tail;
    assert data[..|BodyOf(e)|] == BodyOf(e);
    match e
    case Curves(curves) =>
      U16RoundTrip(2 * |curves|, U16sBytes(curves));
      U16sRoundTrip(curves);
      assert BodyOf(e)[2..] == U16sBytes(curves);
    case Points(points) => assert BodyOf(e)[1..] == points;
    case _ =>
  }

  /** What a server_name extension makes of a message, given the bytes that follow it. */
  function AfterList(m: Hello, names: seq<Name>, following: seq<byte>): Option<Hello> {
    if FirstHost(names).Some? then Some(m.(serverName := FirstHost(names).value))
    else
      match ScanNames(following, |NameBytes(names)| - |names|)
      case BadNames => None
      case NoHost => Some(m)
      case Host(name) => Some(m.(serverName := name))
  }

  lemma AfterListRight(m: Hello, names: seq<Name>, following: seq<byte>)
    requires m.serverName == []
    ensures AfterList(m, names, following) == Some(Applied(m, ServerNames(names))) <==> ListReadRight(names, following)
    ensures var m1 := AfterList(m, names, following);
            m1.Some? && m1.value.serverName == Applied(m, ServerNames(names)).serverName ==>
              m1.value == Applied(m, ServerNames(names))
  {
    ScanHarmless(following, |NameBytes(names)| - |names|);
  }

  lemma ServerNamesParse(m: Hello, names: seq<Name>, tail: seq<byte>)
    requires WellFormedExtension(ServerNames(names))
    ensures var body := BodyOf(ServerNames(names));
            ParseExtension(m, EXT_SERVER_NAME, |body|, body + tail) == AfterList(m, names, tail)
  {
    var list := NameBytes(names);
    var data := BodyOf(ServerNames(names)) + tail;
    Assoc(U16(|list|), list, tail);
    Parts(data, U16(|list|), list + tail);
    U16RoundTrip(|list|, list + tail);
    NamesParse(list + tail, names, tail, |list|, ScanNames(tail, |list| - |names|));
  }

  lemma HeadParse(m: Hello, es: seq<Extension>)
    requires es != [] && WellFormedExtension(es[0])
    ensures var e, tail := es[0], ExtensionsBytes(es[1..]);
            ParseExtensions(m, ExtensionsBytes(es))
            == match ParseExtension(m, TypeOf(e), |BodyOf(e)|, BodyOf(e) + tail)
               case None => None
               case Some(m1) => ParseExtensions(m1, tail)
  {
    var e, tail := es[0], ExtensionsBytes(es[1..]);
    var data := ExtensionsBytes(es);
    assert data == U16(TypeOf(e)) + (U16(|BodyOf(e)|) + (BodyOf(e) + tail));
    U16RoundTrip(TypeOf(e), U16(|BodyOf(e)|) + (BodyOf(e) + tail));
    assert data[2..4] == U16(|BodyOf(e)|) + [];
    U16RoundTrip(|BodyOf(e)|, []);
    assert data[4..] == BodyOf(e) + tail;
    assert (BodyOf(e) + tail)[|BodyOf(e)|..] == tail;
  }

  lemma TailWellFormed(es: seq<Extension>)
    requires es != [] && WellFormedExtensions(es)
    ensures WellFormedExtensions(es[1..]) && Find(es[1..], TypeOf(es[0])).None?
  {
    FindNone(es[1..], TypeOf(es[0]));
  }

  lemma {:induction false} FindNone(es: seq<Extension>, typ: u16)
    ensures Find(es, typ).None? <==> forall i :: 0 <= i < |es| ==> TypeOf(es[i]) != typ
    ensures Find(es, typ).Some? ==> Find(es, typ).value in es && TypeOf(Find(es, typ).value) == typ
  {
    if es != [] { FindNone(es[1..], typ); }
  }

  /** Filling in the head first and then the rest is filling in all. */
  lemma FilledHead(m: Hello, es: seq<Extension>)
    requires es != [] && Find(es[1..], TypeOf(es[0])).None? && WellFormedExtension(es[0])
    ensures Filled(Applied(m, es[0]), es[1..]) == Filled(m, es)
  {
    var e := es[0];
    assert forall typ :: Find(es, typ) == if TypeOf(e) == typ then Some(e) else Find(es[1..], typ);
  }

  lemma {:induction false} AppliedIsFilled(m: Hello, es: seq<Extension>)
    requires WellFormedExtensions(es)
    ensures AppliedAll(m, es) == Filled(m, es)
    decreases |es|
  {
    if es != [] {
      TailWellFormed(es);
      AppliedIsFilled(Applied(m, es[0]), es[1..]);
      FilledHead(m, es);
    }
  }

  /** No server_name among the extensions. */
  predicate Nameless(es: seq<Extension>) {
    forall i :: 0 <= i < |es| ==> !es[i].ServerNames?
  }

  lemma NamesOnce(es: seq<Extension>)
    requires es != [] && WellFormedExtensions(es) && es[0].ServerNames?
    ensures Nameless(es[1..])
  {
    forall i | 0 <= i < |es[1..]| ensures !es[1..][i].ServerNames? {
      assert TypeOf(es[0]) != TypeOf(es[i + 1]);
    }
  }

  lemma {:induction false} NamelessParse(m: Hello, es: seq<Extension>)
    requires WellFormedExtensions(es) && Nameless(es)
    ensures ParseExtensions(m, ExtensionsBytes(es)) == Some(AppliedAll(m, es)) && ListsReadRight(es)
    ensures AppliedAll(m, es).serverName == m.serverName
    decreases |es|
  {
    if es != [] {
      TailWellFormed(es);
      HeadParse(m, es);
      OtherParse(m, es[0], ExtensionsBytes(es[1..]));
      NamelessParse(Applied(m, es[0]), es[1..]);
    }
  }

  lemma NamesHeadParse(m: Hello, es: seq<Extension>)
    requires WellFormedExtensions(es) && m.serverName == [] && es != [] && es[0].ServerNames?
    ensures ParseExtensions(m, ExtensionsBytes(es)) == Some(AppliedAll(m, es)) <==> ListsReadRight(es)
  {
    var names, tail := es[0].names, ExtensionsBytes(es[1..]);
    TailWellFormed(es);
    NamesOnce(es);
    HeadParse(m, es);
    ServerNamesParse(m, names, tail);
    AfterListRight(m, names, tail);
    NamelessParse(Applied(m, es[0]), es[1..]);
    var m1 := AfterList(m, names, tail);
    if m1.Some? { NamelessParse(m1.value, es[1..]); }
  }

  lemma {:induction false} ExtensionsParse(m: Hello, es: seq<Extension>)
    requires WellFormedExtensions(es) && m.serverName == []
    ensures ParseExtensions(m, ExtensionsBytes(es)) == Some(AppliedAll(m, es)) <==> ListsReadRight(es)
    decreases |es|
  {
    if es != [] {
      if es[0].ServerNames? {
        NamesHeadParse(m, es);
      } else {
        TailWellFormed(es);
        HeadParse(m, es);
        OtherParse(m, es[0], ExtensionsBytes(es[1..]));
        ExtensionsParse(Applied(m, es[0]), es[1..]);
      }
    }
  }

  lemma IdsParse(m: Hello, w: Offer, more: seq<byte>)
    requires WellFormed(w) && |more| >= 3
    ensures var data := Header(|OfferBody(w)|) + (IdBytes(w.vers, w.random, w.sessionId) + more);
            ParseIds(m, data)
            == Some(Cut(m.(raw := data, vers := w.vers, random := w.random, sessionId := w.sessionId), more))
  {
    var data := Header(|OfferBody(w)|) + (IdBytes(w.vers, w.random, w.sessionId) + more);
    assert data[4..6] == U16(w.vers) + [];
    U16RoundTrip(w.vers, []);
    assert data[6..38] == w.random && data[38] == |w.sessionId|;
    assert data[39..39 + |w.sessionId|] == w.sessionId && data[39 + |w.sessionId|..] == more;
  }

  lemma SuitesParse(m: Hello, suites: seq<u16>, more: seq<byte>)
    requires 2 * |suites| < 0x1_0000
    ensures ParseSuites(m, CountedU16s(suites) + more) == Some(Cut(m.(suites := suites), more))
  {
    var data := CountedU16s(suites) + more;
    assert data == U16(2 * |suites|) + (U16sBytes(suites) + more);
    U16RoundTrip(2 * |suites|, U16sBytes(suites) + more);
    assert data[2..2 + 2 * |suites|] == U16sBytes(suites) && data[2 + 2 * |suites|..] == more;
    U16sRoundTrip(suites);
  }

  lemma MethodsParse(m: Hello, methods: seq<byte>, more: seq<byte>)
    requires |methods| < 0x100
    ensures ParseMethods(m, CountedBytes(methods) + more) == Some(Cut(m.(methods := methods), more))
  {
    var data := CountedBytes(methods) + more;
    assert data[0] == |methods| && data[1..1 + |methods|] == methods && data[1 + |methods|..] == more;
  }

  lemma BlockParse(m: Hello, extensions: Option<seq<Extension>>)
    requires extensions.Some? ==>
               WellFormedExtensions(extensions.value) && |ExtensionsBytes(extensions.value)| < 0x1_0000
    requires m.serverName == []
    ensures var es := if extensions.Some? then extensions.value else [];
            ParseBlock(m, BlockBytes(extensions)) == Some(Filled(m, es)) <==> ListsReadRight(es)
  {
    match extensions
    case None =>
    case Some(es) =>
      U16RoundTrip(|ExtensionsBytes(es)|, ExtensionsBytes(es));
      assert BlockBytes(extensions)[2..] == ExtensionsBytes(es);
      ExtensionsParse(m, es);
      AppliedIsFilled(m, es);
  }

  /** The message before its extensions are read. */
  function Bare(m: Hello, w: Offer): Hello {
    Reset(Hello(Serialize(w), w.vers, w.random, w.sessionId, w.suites, w.methods,
                false, [], false, m.curves, m.points, false, []))
  }

  lemma FixedParse(m: Hello, w: Offer)
    requires WellFormed(w)
    ensures Unmarshalled(m, Serialize(w)) == ParseBlock(Bare(m, w), BlockBytes(w.extensions))
  {
    var more1 := CountedBytes(w.methods) + BlockBytes(w.extensions);
    var more2 := CountedU16s(w.suites) + more1;
    IdsParse(m, w, more2);
    assert Serialize(w) == Header(|OfferBody(w)|) + (IdBytes(w.vers, w.random, w.sessionId) + more2);
    var m1 := m.(raw := Serialize(w), vers := w.vers, random := w.random, sessionId := w.sessionId);
    SuitesParse(m1, w.suites, more1);
    MethodsParse(m1.(suites := w.suites), w.methods, BlockBytes(w.extensions));
  }

  // ---- Theorems ----

  /** Reading a well-formed offer back yields exactly what it means if and only if each of its
      server_name lists holds a host_name or is followed by bytes that make its scan harmless. */
  lemma RoundTrip(m: Hello, w: Offer)
    requires WellFormed(w)
    ensures Unmarshalled(m, Serialize(w)) == Some(Meaning(m, w))
            <==> w.extensions.None? || ListsReadRight(w.extensions.value)
  {
    FixedParse(m, w);
    BlockParse(Bare(m, w), w.extensions);
  }

  /** The case the parser is made for: every list that is sent holds a host_name, and then
      ServerName is the first one; without a server_name extension it is empty. */
  lemma HostNameFound(w: Offer)
    requires WellFormed(w)
    requires w.extensions.Some? ==>
               forall i :: 0 <= i < |w.extensions.value| && w.extensions.value[i].ServerNames? ==>
                 FirstHost(w.extensions.value[i].names).Some?
    ensures Unmarshalled(NO_HELLO, Serialize(w)) == Some(Meaning(NO_HELLO, w))
    ensures w.extensions.Some? ==>
              forall i :: 0 <= i < |w.extensions.value| && w.extensions.value[i].ServerNames? ==>
                Meaning(NO_HELLO, w).serverName == FirstHost(w.extensions.value[i].names).value
  {
    RoundTrip(NO_HELLO, w);
    if w.extensions.Some? {
      var es := w.extensions.value;
      HostsReadRight(es);
      forall i | 0 <= i < |es| && es[i].ServerNames?
        ensures Meaning(NO_HELLO, w).serverName == FirstHost(es[i].names).value
      {
        FindIs(es, i);
      }
    }
  }

  lemma {:induction false} FindIs(es: seq<Extension>, i: nat)
    requires WellFormedExtensions(es) && i < |es|
    ensures Find(es, TypeOf(es[i])) == Some(es[i])
  {
    if i > 0 {
      TailWellFormed(es);
      FindIs(es[1..], i - 1);
    }
  }

  lemma {:induction false} HostsReadRight(es: seq<Extension>)
    requires forall i :: 0 <= i < |es| && es[i].ServerNames? ==> FirstHost(es[i].names).Some?
    ensures ListsReadRight(es)
  {
    if es != [] { HostsReadRight(es[1..]); }
  }

  /** An offer is refused whose last extension is a non-empty server_name list without a host_name. */
  lemma LastListRefused(m: Hello, w: Offer)
    requires WellFormed(w) && w.extensions.Some? && w.extensions.value != []
    requires var last := w.extensions.value[|w.extensions.value| - 1];
             last.ServerNames? && last.names != [] && FirstHost(last.names).None?
    ensures Unmarshalled(m, Serialize(w)).None?
  {
    var es := w.extensions.value;
    FixedParse(m, w);
    U16RoundTrip(|ExtensionsBytes(es)|, ExtensionsBytes(es));
    assert BlockBytes(w.extensions)[2..] == ExtensionsBytes(es);
    LastRefused(Bare(m, w), es);
  }

  lemma {:induction false} LastRefused(m: Hello, es: seq<Extension>)
    requires WellFormedExtensions(es) && es != []
    requires var last := es[|es| - 1]; last.ServerNames? && last.names != [] && FirstHost(last.names).None?
    ensures ParseExtensions(m, ExtensionsBytes(es)).None?
    decreases |es|
  {
    HeadParse(m, es);
    if |es| > 1 {
      TailWellFormed(es);
      assert TypeOf(es[0]) != TypeOf(es[|es| - 1]);
      OtherParse(m, es[0], ExtensionsBytes(es[1..]));
      LastRefused(Applied(m, es[0]), es[1..]);
    } else {
      assert ExtensionsBytes(es[1..]) == [];
      ServerNamesParse(m, es[0].names, []);
    }
  }

  /** The smallest such offer: one name, of a type that is not host_name. */
  function OtherNameOffer(random: seq<byte>): Offer {
    Offer(0x0303, random, [], [], [], Some([ServerNames([Name(1, [])])]))
  }

  /** So not every well-formed offer is accepted. */
  lemma OtherNameRefused(random: seq<byte>)
    requires |random| == 32
    ensures WellFormed(OtherNameOffer(random)) && Unmarshalled(NO_HELLO, Serialize(OtherNameOffer(random))).None?
  {
    var es := OtherNameOffer(random).extensions.value;
    assert NameBytes(es[0].names) == [1, 0, 0] + NameBytes(es[0].names[1..]) == [1, 0, 0];
    assert ExtensionsBytes(es) == ExtensionBytes(es[0]) + ExtensionsBytes(es[1..]) == ExtensionBytes(es[0]);
    LastListRefused(NO_HELLO, OtherNameOffer(random));
  }
}
