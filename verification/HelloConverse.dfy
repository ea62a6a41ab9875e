/** What can be said of any byte string that unmarshal accepts. */
module HelloConverse {
  import opened Bytes
  import opened HelloSpec
  import opened HelloFormat

  /** An entry of the extension block. */
  datatype Entry = Entry(typ: u16, body: seq<byte>)

  predicate Fits(es: seq<Entry>) {
    forall i :: 0 <= i < |es| ==> |es[i].body| < 0x1_0000
  }

  /** Type, length, body, entry after entry. */
  function Tiles(es: seq<Entry>): seq<byte> {
    if es == [] then [] else U16(es[0].typ) + U16(Size(|es[0].body|)) + es[0].body + Tiles(es[1..])
  }

  /** The body of the last entry of a type. */
  function LastBody(es: seq<Entry>, typ: u16): Option<seq<byte>> {
    if es == [] then None
    else
      var later := LastBody(es[1..], typ);
      if later.Some? then later else if es[0].typ == typ then Some(es[0].body) else None
  }

  /** The entries of a block, as far as it is tiled by any. */
  function EntriesOf(data: seq<byte>): seq<Entry>
    decreases |data|
  {
    if |data| < 4 || |data| - 4 < GetU16(data[2..4]) then []
    else
      var length: int := GetU16(data[2..4]);
      [Entry(GetU16(data), data[4..][..length])] + EntriesOf(data[4..][length..])
  }

  lemma InFour(data: seq<byte>, length: nat)
    requires 4 + length <= |data|
    ensures data == data[..2] + data[2..4] + data[4..][..length] + data[4..][length..]
  {
  }

  lemma {:induction false} BlockTiled(m: Hello, data: seq<byte>)
    requires ParseExtensions(m, data).Some?
    ensures Tiles(EntriesOf(data)) == data && Fits(EntriesOf(data))
    decreases |data|
  {
    if data != [] {
      var typ, length: int, body := GetU16(data), GetU16(data[2..4]), data[4..];
      var m1 := ParseExtension(m, typ, length, body).value;
      BlockTiled(m1, body[length..]);
      var es := EntriesOf(data);
      assert es[1..] == EntriesOf(body[length..]);
      GetU16Inverse(data);
      GetU16Inverse(data[2..4]);
      assert data[2..4][..2] == data[2..4];
      InFour(data, length);
    }
  }

  /** The extension fields of the result r agree with the last body of each type, or with what was there. */
  predicate Agrees(m: Hello, es: seq<Entry>, r: Hello) {
    var status, curves := LastBody(es, EXT_STATUS_REQUEST), LastBody(es, EXT_CURVES);
    var points, ticket := LastBody(es, EXT_POINTS), LastBody(es, EXT_TICKET);
    && (match LastBody(es, EXT_NEXT_PROTO)
        case None => r.nextProtoNeg == m.nextProtoNeg
        case Some(b) => r.nextProtoNeg && b == [])
    && r.ocsp == (if status.Some? then status.value != [] && status.value[0] == STATUS_TYPE_OCSP else m.ocsp)
    && (if curves.Some? then curves.value == CountedU16s(r.curves) else r.curves == m.curves)
    && (if points.Some? then points.value == CountedBytes(r.points) else r.points == m.points)
    && (if ticket.Some? then r.ticketSupported && r.ticket == ticket.value
        else r.ticketSupported == m.ticketSupported && r.ticket == m.ticket)
    && (LastBody(es, EXT_SERVER_NAME).None? ==> r.serverName == m.serverName)
  }

  lemma LastOfOne(e: Entry, es: seq<Entry>)
    ensures forall typ :: LastBody([e], typ) == if e.typ == typ then Some(e.body) else None
    ensures forall typ :: LastBody([e] + es, typ)
                          == if LastBody(es, typ).Some? then LastBody(es, typ) else LastBody([e], typ)
  {
    assert [e][1..] == [] && ([e] + es)[1..] == es;
  }

  /** What one accepted extension leaves behind agrees with it. */
  lemma OneAgrees(m: Hello, typ: u16, length: u16, data: seq<byte>)
    requires length <= |data| && ParseExtension(m, typ, length, data).Some?
    ensures Agrees(m, [Entry(typ, data[..length])], ParseExtension(m, typ, length, data).value)
  {
    var body := data[..length];
    LastOfOne(Entry(typ, body), []);
    if typ == EXT_CURVES {
      CurvesAgree(m, body);
    } else if typ == EXT_POINTS {
      assert body == [body[0]] + body[1..];
    }
  }

  lemma CurvesAgree(m: Hello, body: seq<byte>)
    requires ParseCurves(m, body).Some?
    ensures body == CountedU16s(ParseCurves(m, body).value.curves)
  {
    GetU16Inverse(body);
    U16sInverse(body[2..]);
    assert body == body[..2] + body[2..];
  }

  lemma AgreesThen(m: Hello, e: Entry, m1: Hello, es: seq<Entry>, r: Hello)
    requires Agrees(m, [e], m1) && Agrees(m1, es, r)
    ensures Agrees(m, [e] + es, r)
  {
    LastOfOne(e, es);
  }

  lemma {:induction false} BlockAgrees(m: Hello, data: seq<byte>)
    requires ParseExtensions(m, data).Some?
    ensures Agrees(m, EntriesOf(data), ParseExtensions(m, data).value)
    decreases |data|
  {
    if data != [] {
      var typ, length, body := GetU16(data), GetU16(data[2..4]), data[4..];
      var m1 := ParseExtension(m, typ, length, body).value;
      OneAgrees(m, typ, length, body);
      BlockAgrees(m1, body[length..]);
      AgreesThen(m, Entry(typ, body[..length]), m1, EntriesOf(body[length..]), ParseExtensions(m, data).value);
    }
  }

  /** The fields before the extensions, serialised again. */
  function FixedBytes(r: Hello): seq<byte> {
    IdBytes(r.vers, r.random, r.sessionId) + (CountedU16s(r.suites) + CountedBytes(r.methods))
  }

  lemma Pieces(data: seq<byte>, end: nat)
    requires 39 <= end <= |data|
    ensures data == data[..4] + (data[4..6] + data[6..38] + data[38..39] + data[39..end] + data[end..])
  {
  }

  lemma IdsCut(m: Hello, data: seq<byte>)
    requires ParseIds(m, data).Some?
    ensures var c := ParseIds(m, data).value;
            data == data[..4] + (IdBytes(c.m.vers, c.m.random, c.m.sessionId) + c.rest)
  {
    var c := ParseIds(m, data).value;
    GetU16Inverse(data[4..6]);
    Pieces(data, 39 + |c.m.sessionId|);
    assert [Size8(|c.m.sessionId|)] == data[38..39] && data[4..6][..2] == data[4..6];
  }

  lemma SuitesCut(m: Hello, data: seq<byte>)
    requires ParseSuites(m, data).Some?
    ensures var c := ParseSuites(m, data).value; data == CountedU16s(c.m.suites) + c.rest
  {
    var c := ParseSuites(m, data).value;
    var suiteLen: int := GetU16(data);
    GetU16Inverse(data);
    U16sInverse(data[2..2 + suiteLen]);
    assert data == data[..2] + data[2..2 + suiteLen] + c.rest;
  }

  lemma MethodsCut(m: Hello, data: seq<byte>)
    requires ParseMethods(m, data).Some?
    ensures var c := ParseMethods(m, data).value; data == CountedBytes(c.m.methods) + c.rest
  {
    var c := ParseMethods(m, data).value;
    assert data == [data[0]] + c.m.methods + c.rest;
  }

  lemma Regroup(h: seq<byte>, a: seq<byte>, b: seq<byte>, c: seq<byte>, rest: seq<byte>)
    ensures h + (a + (b + (c + rest))) == h + ((a + (b + c)) + rest)
  {
  }

  lemma FixedCut(m: Hello, data: seq<byte>)
    requires ParseFixed(m, data).Some?
    ensures var c := ParseFixed(m, data).value;
            data == data[..4] + (FixedBytes(c.m) + c.rest) && c.m.curves == m.curves && c.m.points == m.points
  {
    var c1 := ParseIds(m, data).value;
    var c2 := ParseSuites(c1.m, c1.rest).value;
    var c3 := ParseMethods(c2.m, c2.rest).value;
    IdsCut(m, data);
    SuitesCut(c1.m, c1.rest);
    MethodsCut(c2.m, c2.rest);
    Regroup(data[..4], IdBytes(c1.m.vers, c1.m.random, c1.m.sessionId), CountedU16s(c2.m.suites),
            CountedBytes(c3.m.methods), c3.rest);
  }

  /** The entries of a message's extension block, none if it has no block. */
  function Entries(data: seq<byte>): seq<Entry> {
    match ParseFixed(NO_HELLO, data)
    case None => []
    case Some(c) => if |c.rest| < 2 then [] else EntriesOf(c.rest[2..])
  }

  predicate SameFixed(a: Hello, b: Hello) {
    && a.raw == b.raw && a.vers == b.vers && a.random == b.random && a.sessionId == b.sessionId
    && a.suites == b.suites && a.methods == b.methods
  }

  lemma ExtensionKeeps(m: Hello, typ: u16, length: nat, data: seq<byte>)
    requires length <= |data| && ParseExtension(m, typ, length, data).Some?
    ensures SameFixed(ParseExtension(m, typ, length, data).value, m)
  {
  }

  lemma {:induction false} FixedKept(m: Hello, data: seq<byte>)
    requires ParseExtensions(m, data).Some?
    ensures SameFixed(ParseExtensions(m, data).value, m)
    decreases |data|
  {
    if data != [] {
      var length: int, body := GetU16(data[2..4]), data[4..];
      ExtensionKeeps(m, GetU16(data), length, body);
      FixedKept(ParseExtension(m, GetU16(data), length, body).value, body[length..]);
    }
  }

  lemma BlockCut(m: Hello, data: seq<byte>)
    requires data != [] && ParseBlock(m, data).Some?
    ensures var es, r := EntriesOf(data[2..]), ParseBlock(m, data).value;
            && Fits(es) && |Tiles(es)| < 0x1_0000 && data == U16(Size(|Tiles(es)|)) + Tiles(es)
            && Agrees(m, es, r) && SameFixed(r, m)
  {
    var block := data[2..];
    BlockTiled(m, block);
    BlockAgrees(m, block);
    FixedKept(m, block);
    GetU16Inverse(data);
    assert data == data[..2] + block;
  }

  // ---- Where ServerName comes from ----

  /** The name stands at i in the input, after a host_name type and its own length. */
  predicate OccursAt(data: seq<byte>, i: nat, name: seq<byte>) {
    && i + 3 + |name| <= |data| && data[i] == HOST_NAME
    && GetU16(data[i + 1..i + 3]) == |name| && data[i + 3..i + 3 + |name|] == name
  }

  ghost predicate Occurs(data: seq<byte>, name: seq<byte>) {
    exists i: nat :: OccursAt(data, i, name)
  }

  lemma OccursFurther(data: seq<byte>, k: nat, name: seq<byte>)
    requires k <= |data| && Occurs(data[k..], name)
    ensures Occurs(data, name)
  {
    var i: nat :| OccursAt(data[k..], i, name);
    assert data[k..][i + 1..i + 3] == data[k + i + 1..k + i + 3];
    assert data[k..][i + 3..i + 3 + |name|] == data[k + i + 3..k + i + 3 + |name|];
    assert OccursAt(data, k + i, name);
  }

  lemma {:induction false} ScanOccurs(d: seq<byte>, count: nat)
    requires ScanNames(d, count).Host?
    ensures Occurs(d, ScanNames(d, count).name)
    decreases count
  {
    var nameLen: int := GetU16(d[1..3]);
    if d[0] == HOST_NAME {
      assert OccursAt(d, 0, d[3..3 + nameLen]);
    } else {
      ScanOccurs(d[3 + nameLen..], count - 1);
      OccursFurther(d, 3 + nameLen, ScanNames(d, count).name);
    }
  }

  lemma OneOccurs(m: Hello, typ: u16, length: nat, data: seq<byte>)
    requires length <= |data| && ParseExtension(m, typ, length, data).Some?
    ensures var name := ParseExtension(m, typ, length, data).value.serverName;
            name == m.serverName || Occurs(data, name)
  {
    if typ == EXT_SERVER_NAME && ScanNames(data[2..], GetU16(data)).Host? {
      ScanOccurs(data[2..], GetU16(data));
      OccursFurther(data, 2, ScanNames(data[2..], GetU16(data)).name);
    }
  }

  lemma {:induction false} BlockOccurs(m: Hello, data: seq<byte>)
    requires ParseExtensions(m, data).Some?
    ensures var name := ParseExtensions(m, data).value.serverName; name == m.serverName || Occurs(data, name)
    decreases |data|
  {
    if data != [] {
      var typ, length: int, body := GetU16(data), GetU16(data[2..4]), data[4..];
      var m1 := ParseExtension(m, typ, length, body).value;
      OneOccurs(m, typ, length, body);
      BlockOccurs(m1, body[length..]);
      OccursLater(data, length, ParseExtensions(m1, body[length..]).value.serverName);
      OccursLater(data, 0, m1.serverName);
    }
  }

  lemma OccursLater(data: seq<byte>, length: nat, name: seq<byte>)
    requires |data| >= 4 + length
    ensures Occurs(data[4..][length..], name) ==> Occurs(data, name)
  {
    if Occurs(data[4..][length..], name) {
      OccursFurther(data[4..], length, name);
      OccursFurther(data, 4, name);
    }
  }

  /** The last server_name entry is a well-formed list of these names, one of them a host_name. */
  predicate LastNames(es: seq<Entry>, names: seq<Name>) {
    && WellFormedExtension(ServerNames(names)) && FirstHost(names).Some?
    && LastBody(es, EXT_SERVER_NAME) == Some(BodyOf(ServerNames(names)))
  }

  lemma {:induction false} BlockNamed(m: Hello, data: seq<byte>, names: seq<Name>)
    requires ParseExtensions(m, data).Some? && LastNames(EntriesOf(data), names)
    ensures Some(ParseExtensions(m, data).value.serverName) == FirstHost(names)
    decreases |data|
  {
    var typ, length: int, body := GetU16(data), GetU16(data[2..4]), data[4..];
    var later := EntriesOf(body[length..]);
    var m1 := ParseExtension(m, typ, length, body).value;
    LastOfOne(Entry(typ, body[..length]), later);
    if LastBody(later, EXT_SERVER_NAME).Some? {
      BlockNamed(m1, body[length..], names);
    } else {
      assert body[..length] + body[length..] == body;
      ServerNamesParse(m, names, body[length..]);
      BlockAgrees(m1, body[length..]);
    }
  }

  // ---- Messages read into more than once ----

  /** A message with other curves and points, the two fields unmarshal does not reset. */
  function With(m: Hello, curves: seq<u16>, points: seq<byte>): Hello {
    m.(curves := curves, points := points)
  }

  lemma IdsFrom(m: Hello, n: Hello, data: seq<byte>)
    ensures ParseIds(m, data).Some? == ParseIds(n, data).Some?
    ensures ParseIds(m, data).Some? ==>
              var a, b := ParseIds(m, data).value, ParseIds(n, data).value;
              && a.rest == b.rest && a.m.curves == m.curves && a.m.points == m.points
              && a.m == b.m.(suites := a.m.suites, methods := a.m.methods, nextProtoNeg := a.m.nextProtoNeg,
                             serverName := a.m.serverName, ocsp := a.m.ocsp, curves := a.m.curves,
                             points := a.m.points, ticketSupported := a.m.ticketSupported, ticket := a.m.ticket)
  {
  }

  lemma FixedFrom(m: Hello, data: seq<byte>)
    ensures ParseFixed(m, data).Some? == ParseFixed(NO_HELLO, data).Some?
    ensures ParseFixed(m, data).Some? ==>
              var a, b := ParseFixed(m, data).value, ParseFixed(NO_HELLO, data).value;
              && a.rest == b.rest && Reset(b.m) == With(Reset(b.m), [], [])
              && Reset(a.m) == With(Reset(b.m), m.curves, m.points)
  {
    IdsFrom(m, NO_HELLO, data);
  }

  lemma ExtensionFrom(m: Hello, curves: seq<u16>, points: seq<byte>, typ: u16, length: nat, data: seq<byte>)
    requires length <= |data|
    ensures var r := ParseExtension(m, typ, length, data);
            ParseExtension(With(m, curves, points), typ, length, data)
            == if r.None? then None
               else Some(With(r.value, if typ == EXT_CURVES then r.value.curves else curves,
                              if typ == EXT_POINTS then r.value.points else points))
  {
  }

  /** Other curves and points to start with make no difference but for themselves, and that only
      where the block has no entry for them. */
  lemma {:induction false} BlockFrom(m: Hello, curves: seq<u16>, points: seq<byte>, data: seq<byte>)
    ensures var r := ParseExtensions(m, data); var es := EntriesOf(data);
            ParseExtensions(With(m, curves, points), data)
            == if r.None? then None
               else Some(With(r.value, if LastBody(es, EXT_CURVES).Some? then r.value.curves else curves,
                              if LastBody(es, EXT_POINTS).Some? then r.value.points else points))
    decreases |data|
  {
    if |data| >= 4 && |data| - 4 >= GetU16(data[2..4]) {
      var typ, length: int, body := GetU16(data), GetU16(data[2..4]), data[4..];
      ExtensionFrom(m, curves, points, typ, length, body);
      var r := ParseExtension(m, typ, length, body);
      if r.Some? {
        var curves1 := if typ == EXT_CURVES then r.value.curves else curves;
        var points1 := if typ == EXT_POINTS then r.value.points else points;
        BlockFrom(r.value, curves1, points1, body[length..]);
        LastOfOne(Entry(typ, body[..length]), EntriesOf(body[length..]));
        if ParseExtensions(r.value, body[length..]).Some? { BlockAgrees(r.value, body[length..]); }
      }
    }
  }

  /** Reading into a message that was used before gives what reading into a new one gives if and only
      if the input is refused, or has its own curves and points wherever the message had some. */
  lemma Reuse(m: Hello, data: seq<byte>)
    ensures Unmarshalled(m, data) == Unmarshalled(NO_HELLO, data)
            <==> || Unmarshalled(NO_HELLO, data).None?
                 || ((m.curves == [] || LastBody(Entries(data), EXT_CURVES).Some?)
                     && (m.points == [] || LastBody(Entries(data), EXT_POINTS).Some?))
    ensures Unmarshalled(m, data).Some? == Unmarshalled(NO_HELLO, data).Some?
  {
    FixedFrom(m, data);
    if ParseFixed(m, data).Some? {
      var c := ParseFixed(NO_HELLO, data).value;
      if |c.rest| >= 2 {
        BlockFrom(Reset(c.m), m.curves, m.points, c.rest[2..]);
        if ParseExtensions(Reset(c.m), c.rest[2..]).Some? { BlockAgrees(Reset(c.m), c.rest[2..]); }
      }
    }
  }

  /** A hello without extensions, read into a message that has curves, keeps them. */
  lemma CurvesKept(random: seq<byte>)
    requires |random| == 32
    ensures var data := Serialize(Offer(0x0303, random, [], [], [], None));
            && Unmarshalled(NO_HELLO, data).Some? && Unmarshalled(NO_HELLO, data).value.curves == []
            && Unmarshalled(With(NO_HELLO, [23], []), data).Some?
            && Unmarshalled(With(NO_HELLO, [23], []), data).value.curves == [23]
  {
    RoundTrip(NO_HELLO, Offer(0x0303, random, [], [], [], None));
    RoundTrip(With(NO_HELLO, [23], []), Offer(0x0303, random, [], [], [], None));
  }

  /** The 4 header bytes, the fixed fields of r and, unless the message ends there, the counted entries. */
  predicate LaidOut(data: seq<byte>, r: Hello, es: seq<Entry>)
    requires |data| >= 4
  {
    || (data == data[..4] + FixedBytes(r) && es == [])
    || (|Tiles(es)| < 0x1_0000 && data == data[..4] + FixedBytes(r) + U16(Size(|Tiles(es)|)) + Tiles(es))
  }

  /** An accepted message is its 4 header bytes, its fixed fields serialised again, and, unless
      it ends there, a block that counts its length and is tiled by entries; the extension
      fields of the result agree with those entries. A ServerName stands in the input, and where the
      last server_name entry is a well-formed list with a host_name, it is the first of those. */
  lemma Accepted(m: Hello, data: seq<byte>)
    requires Unmarshalled(m, data).Some?
    ensures |data| >= 42
    ensures var r, es := Unmarshalled(m, data).value, Entries(data);
            && r.raw == data && |r.random| == 32 && |r.sessionId| <= 32 && Fits(es)
            && LaidOut(data, r, es)
            && Agrees(Reset(m), es, r)
            && (r.serverName != [] ==> Occurs(data, r.serverName))
            && forall names :: LastNames(es, names) ==> Some(r.serverName) == FirstHost(names)
  {
    AcceptedFields(m, data);
    AcceptedName(m, data);
    FixedFrom(m, data);
    if ParseFixed(m, data).value.rest == [] { AcceptedPlain(m, data); } else { AcceptedBlock(m, data); }
    forall names | LastNames(Entries(data), names)
      ensures Some(Unmarshalled(m, data).value.serverName) == FirstHost(names)
    {
      AcceptedNames(m, data, names);
    }
  }

  lemma AcceptedNames(m: Hello, data: seq<byte>, names: seq<Name>)
    requires Unmarshalled(m, data).Some? && LastNames(Entries(data), names)
    ensures Some(Unmarshalled(m, data).value.serverName) == FirstHost(names)
  {
    FixedFrom(m, data);
    var c := ParseFixed(m, data).value;
    if c.rest != [] { BlockNamed(Reset(c.m), c.rest[2..], names); }
  }

  lemma AcceptedFields(m: Hello, data: seq<byte>)
    requires Unmarshalled(m, data).Some?
    ensures var r := Unmarshalled(m, data).value;
            |data| >= 42 && r.raw == data && |r.random| == 32 && |r.sessionId| <= 32
  {
    var c := ParseFixed(m, data).value;
    if c.rest != [] { FixedKept(Reset(c.m), c.rest[2..]); }
  }

  lemma AcceptedPlain(m: Hello, data: seq<byte>)
    requires Unmarshalled(m, data).Some? && ParseFixed(m, data).value.rest == [] && |data| >= 4
    ensures var r := Unmarshalled(m, data).value; LaidOut(data, r, []) && Agrees(Reset(m), [], r)
  {
    var c := ParseFixed(m, data).value;
    FixedCut(m, data);
    assert FixedBytes(c.m) + c.rest == FixedBytes(c.m);
  }

  lemma AcceptedBlock(m: Hello, data: seq<byte>)
    requires Unmarshalled(m, data).Some? && ParseFixed(m, data).value.rest != [] && |data| >= 4
    ensures var r, es := Unmarshalled(m, data).value, EntriesOf(ParseFixed(m, data).value.rest[2..]);
            Fits(es) && LaidOut(data, r, es) && Agrees(Reset(m), es, r)
  {
    var c := ParseFixed(m, data).value;
    FixedCut(m, data);
    BlockCut(Reset(c.m), c.rest);
    var r, es := ParseBlock(Reset(c.m), c.rest).value, EntriesOf(c.rest[2..]);
    Laid(data, c, r, es);
    AgreesFrom(Reset(c.m), Reset(m), es, r);
  }

  lemma Laid(data: seq<byte>, c: Cut, r: Hello, es: seq<Entry>)
    requires |data| >= 4 && data == data[..4] + (FixedBytes(c.m) + c.rest) && SameFixed(r, c.m)
    requires |Tiles(es)| < 0x1_0000 && c.rest == U16(Size(|Tiles(es)|)) + Tiles(es)
    ensures LaidOut(data, r, es)
  {
    Apart(data[..4], FixedBytes(r), U16(Size(|Tiles(es)|)), Tiles(es));
  }

  /** Agreement depends on the extension fields only. */
  lemma AgreesFrom(m: Hello, n: Hello, es: seq<Entry>, r: Hello)
    requires Agrees(m, es, r) && m == n.(raw := m.raw, vers := m.vers, random := m.random, sessionId := m.sessionId,
                                         suites := m.suites, methods := m.methods)
    ensures Agrees(n, es, r)
  {
  }

  lemma AcceptedName(m: Hello, data: seq<byte>)
    requires Unmarshalled(m, data).Some?
    ensures var name := Unmarshalled(m, data).value.serverName; name != [] ==> Occurs(data, name)
  {
    var c := ParseFixed(m, data).value;
    FixedEnds(m, data);
    if c.rest != [] {
      BlockOccurs(Reset(c.m), c.rest[2..]);
      var name := Unmarshalled(m, data).value.serverName;
      if name != [] { OccursInTail(data, |data| - |c.rest|, c.rest, name); }
    }
  }

  lemma FixedEnds(m: Hello, data: seq<byte>)
    requires ParseFixed(m, data).Some?
    ensures var rest := ParseFixed(m, data).value.rest; |rest| <= |data| && rest == data[|data| - |rest|..]
  {
  }

  lemma OccursInTail(data: seq<byte>, k: nat, rest: seq<byte>, name: seq<byte>)
    requires k <= |data| && rest == data[k..] && |rest| >= 2 && Occurs(rest[2..], name)
    ensures Occurs(data, name)
  {
    OccursFurther(rest, 2, name);
    OccursFurther(data, k, name);
  }

  lemma Apart(h: seq<byte>, a: seq<byte>, b: seq<byte>, c: seq<byte>)
    ensures h + (a + (b + c)) == h + a + b + c
  {
  }
}
