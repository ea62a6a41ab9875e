/** The ClientHello message: what unmarshal makes of any byte string. */
module HelloSpec {
  import opened Bytes

  const EXT_SERVER_NAME: u16 := 0
  const EXT_STATUS_REQUEST: u16 := 5
  const EXT_CURVES: u16 := 10
  const EXT_POINTS: u16 := 11
  const EXT_TICKET: u16 := 35
  const EXT_NEXT_PROTO: u16 := 13172
  const STATUS_TYPE_OCSP: byte := 1
  const HOST_NAME: byte := 0

  /** The fields of a ClientHelloMsg. */
  datatype Hello = Hello(
    raw: seq<byte>,
    vers: u16,
    random: seq<byte>,
    sessionId: seq<byte>,
    suites: seq<u16>,
    methods: seq<byte>,
    nextProtoNeg: bool,
    serverName: seq<byte>,
    ocsp: bool,
    curves: seq<u16>,
    points: seq<byte>,
    ticketSupported: bool,
    ticket: seq<byte>)

  const NO_HELLO := Hello([], 0, [], [], [], [], false, [], false, [], [], false, [])

  /** The 16-bit numbers of a string of whole ones. */
  function U16s(b: seq<byte>): (r: seq<u16>)
    requires |b| % 2 == 0
    ensures |r| == |b| / 2
  {
    if b == [] then [] else [GetU16(b)] + U16s(b[2..])
  }

  function U16sBytes(xs: seq<u16>): (b: seq<byte>)
    ensures |b| == 2 * |xs|
  {
    if xs == [] then [] else U16(xs[0]) + U16sBytes(xs[1..])
  }

  lemma {:induction false} U16sRoundTrip(xs: seq<u16>)
    ensures U16s(U16sBytes(xs)) == xs
  {
    if xs != [] {
      var b := U16sBytes(xs);
      U16RoundTrip(xs[0], U16sBytes(xs[1..]));
      assert b[2..] == U16sBytes(xs[1..]);
      U16sRoundTrip(xs[1..]);
    }
  }

  lemma {:induction false} U16sInverse(b: seq<byte>)
    requires |b| % 2 == 0
    ensures U16sBytes(U16s(b)) == b
  {
    if b != [] {
      GetU16Inverse(b);
      U16sInverse(b[2..]);
      assert U16s(b)[1..] == U16s(b[2..]);
      assert b[..2] + b[2..] == b;
    }
  }

  lemma {:induction false} U16sAppend(b: seq<byte>, x: seq<byte>)
    requires |b| % 2 == 0 && |x| == 2
    ensures U16s(b + x) == U16s(b) + [GetU16(x)]
  {
    if b == [] {
      assert b + x == x;
    } else {
      assert (b + x)[2..] == b[2..] + x;
      U16sAppend(b[2..], x);
    }
  }

  // ---- Parsing ----

  datatype Cut = Cut(m: Hello, rest: seq<byte>)

  function ParseIds(m: Hello, data: seq<byte>): Option<Cut> {
    if |data| < 42 then None
    else
      var sidLen: int := data[38];
      if sidLen > 32 || |data| < 39 + sidLen then None
      else
        Some(Cut(m.(raw := data, vers := GetU16(data[4..6]), random := data[6..38], sessionId := data[39..39 + sidLen]),
                 data[39 + sidLen..]))
  }

  function ParseSuites(m: Hello, data: seq<byte>): Option<Cut> {
    if |data| < 2 then None
    else
      var suiteLen: int := GetU16(data);
      if suiteLen % 2 == 1 || |data| < 2 + suiteLen then None
      else Some(Cut(m.(suites := U16s(data[2..2 + suiteLen])), data[2 + suiteLen..]))
  }

  function ParseMethods(m: Hello, data: seq<byte>): Option<Cut> {
    if |data| < 1 then None
    else
      var methodLen: int := data[0];
      if |data| < 1 + methodLen then None
      else Some(Cut(m.(methods := data[1..1 + methodLen]), data[1 + methodLen..]))
  }

  /** What unmarshal resets before the extensions; curves and points keep what they had. */
  function Reset(m: Hello): Hello {
    m.(nextProtoNeg := false, serverName := [], ocsp := false, ticketSupported := false, ticket := [])
  }

  /** The fields before the extensions. */
  function ParseFixed(m: Hello, data: seq<byte>): Option<Cut> {
    match ParseIds(m, data)
    case None => None
    case Some(c1) =>
      match ParseSuites(c1.m, c1.rest)
      case None => None
      case Some(c2) => ParseMethods(c2.m, c2.rest)
  }

  datatype NameScan = BadNames | NoHost | Host(name: seq<byte>)

  /** The first host_name among up to `count` names at the start of d. */
  function ScanNames(d: seq<byte>, count: nat): NameScan
    decreases count
  {
    if count == 0 then NoHost
    else if |d| < 3 then BadNames
    else
      var nameLen: int := GetU16(d[1..3]);
      if |d| - 3 < nameLen then BadNames
      else if d[0] == HOST_NAME then Host(d[3..3 + nameLen])
      else ScanNames(d[3 + nameLen..], count - 1)
  }

  /** The server_name extension. The length of its list, in bytes, serves as the number of names,
      and the names may run on into whatever follows the extension. */
  function ParseServerName(m: Hello, length: nat, data: seq<byte>): Option<Hello>
    requires length <= |data|
  {
    if length < 2 then None
    else
      match ScanNames(data[2..], GetU16(data))
      case BadNames => None
      case NoHost => Some(m)
      case Host(name) => Some(m.(serverName := name))
  }

  function ParseCurves(m: Hello, body: seq<byte>): Option<Hello> {
    if |body| < 2 then None
    else
      var l: int := GetU16(body);
      if l % 2 == 1 || |body| != l + 2 then None else Some(m.(curves := U16s(body[2..])))
  }

  function ParsePoints(m: Hello, body: seq<byte>): Option<Hello> {
    if |body| < 1 || body[0] != |body| - 1 then None else Some(m.(points := body[1..]))
  }

  /** One extension, whose body is the first `length` bytes of the data left. */
  function ParseExtension(m: Hello, extension: u16, length: nat, data: seq<byte>): Option<Hello>
    requires length <= |data|
  {
    if extension == EXT_SERVER_NAME then ParseServerName(m, length, data)
    else if extension == EXT_NEXT_PROTO then if length > 0 then None else Some(m.(nextProtoNeg := true))
    else if extension == EXT_STATUS_REQUEST then Some(m.(ocsp := length > 0 && data[0] == STATUS_TYPE_OCSP))
    else if extension == EXT_CURVES then ParseCurves(m, data[..length])
    else if extension == EXT_POINTS then ParsePoints(m, data[..length])
    else if extension == EXT_TICKET then Some(m.(ticketSupported := true, ticket := data[..length]))
    else Some(m)
  }

  function ParseExtensions(m: Hello, data: seq<byte>): Option<Hello>
    decreases |data|
  {
    if data == [] then Some(m)
    else if |data| < 4 then None
    else
      var length: int := GetU16(data[2..4]);
      var body := data[4..];
      if |body| < length then None
      else
        match ParseExtension(m, GetU16(data), length, body)
        case None => None
        case Some(m1) => ParseExtensions(m1, body[length..])
  }

  /** The optional extension block. */
  function ParseBlock(m: Hello, data: seq<byte>): Option<Hello> {
    if data == [] then Some(m)
    else if |data| < 2 || GetU16(data) != |data| - 2 then None
    else ParseExtensions(m, data[2..])
  }

  /** unmarshal, on a message that holds m. */
  function Unmarshalled(m: Hello, data: seq<byte>): Option<Hello> {
    match ParseFixed(m, data)
    case None => None
    case Some(c) => ParseBlock(Reset(c.m), c.rest)
  }
}
