/** ClientHelloMsg, whose unmarshal fills its fields while it advances through the data. */
module ClientHello {
  import opened Bytes
  import opened HelloSpec

  class ClientHelloMsg {
    var raw: seq<byte>
    var vers: u16
    var random: seq<byte>
    var sessionId: seq<byte>
    var cipherSuites: seq<u16>
    var compressionMethods: seq<byte>
    var nextProtoNeg: bool
    var serverName: seq<byte>
    var ocspStapling: bool
    var supportedCurves: seq<u16>
    var supportedPoints: seq<byte>
    var ticketSupported: bool
    var sessionTicket: seq<byte>

    constructor ()
      ensures Contents() == NO_HELLO
    {
      raw, vers, random, sessionId, cipherSuites, compressionMethods := [], 0, [], [], [], [];
      nextProtoNeg, serverName, ocspStapling := false, [], false;
      supportedCurves, supportedPoints, ticketSupported, sessionTicket := [], [], false, [];
    }

    function Contents(): Hello
      reads this
    {
      Hello(raw, vers, random, sessionId, cipherSuites, compressionMethods, nextProtoNeg, serverName,
            ocspStapling, supportedCurves, supportedPoints, ticketSupported, sessionTicket)
    }

    /** Whether data is a ClientHello; if so the fields say what is in it. */
    method Unmarshal(data: seq<byte>) returns (ok: bool)
      modifies this
      ensures ok == Unmarshalled(old(Contents()), data).Some?
      ensures ok ==> Contents() == Unmarshalled(old(Contents()), data).value
    {
      var fixedOk, rest := ReadFixed(data);
      if !fixedOk { return false; }
      if rest == [] { return true; }
      if |rest| < 2 { return false; }
      var extensionsLength: int := GetU16(rest);
      rest := rest[2..];
      if extensionsLength != |rest| { return false; }
      ok := ReadExtensions(rest);
    }

    method ReadFixed(data: seq<byte>) returns (ok: bool, rest: seq<byte>)
      modifies this
      ensures ok == ParseFixed(old(Contents()), data).Some?
      ensures ok ==> Reset(Contents()) == Contents() == Reset(ParseFixed(old(Contents()), data).value.m)
      ensures ok ==> rest == ParseFixed(old(Contents()), data).value.rest
    {
      ok, rest := ReadIds(data);
      if !ok { return; }
      ok, rest := ReadSuites(rest);
      if !ok { return; }
      ok, rest := ReadMethods(rest);
      nextProtoNeg, serverName, ocspStapling, ticketSupported, sessionTicket := false, [], false, false, [];
    }

    method ReadIds(data: seq<byte>) returns (ok: bool, rest: seq<byte>)
      modifies this
      ensures ok == ParseIds(old(Contents()), data).Some?
      ensures ok ==> Cut(Contents(), rest) == ParseIds(old(Contents()), data).value
    {
      if |data| < 42 { return false, []; }
      raw := data;
      vers := GetU16(data[4..6]);
      random := data[6..38];
      var sessionIdLen: int := data[38];
      if sessionIdLen > 32 || |data| < 39 + sessionIdLen { return false, []; }
      sessionId := data[39..39 + sessionIdLen];
      return true, data[39 + sessionIdLen..];
    }

    method ReadSuites(data: seq<byte>) returns (ok: bool, rest: seq<byte>)
      modifies this`cipherSuites
      ensures ok == ParseSuites(old(Contents()), data).Some?
      ensures ok ==> Cut(Contents(), rest) == ParseSuites(old(Contents()), data).value
    {
      if |data| < 2 { return false, []; }
      var cipherSuiteLen: int := GetU16(data);
      if cipherSuiteLen % 2 == 1 || |data| < 2 + cipherSuiteLen { return false, []; }
      cipherSuites := ReadU16s(data[2..2 + cipherSuiteLen]);
      return true, data[2 + cipherSuiteLen..];
    }

    method ReadMethods(data: seq<byte>) returns (ok: bool, rest: seq<byte>)
      modifies this`compressionMethods
      ensures ok == ParseMethods(old(Contents()), data).Some?
      ensures ok ==> Cut(Contents(), rest) == ParseMethods(old(Contents()), data).value
    {
      if |data| < 1 { return false, []; }
      var compressionMethodsLen: int := data[0];
      if |data| < 1 + compressionMethodsLen { return false, []; }
      compressionMethods := data[1..1 + compressionMethodsLen];
      return true, data[1 + compressionMethodsLen..];
    }

    method ReadExtensions(block: seq<byte>) returns (ok: bool)
      modifies this
      ensures ok == ParseExtensions(old(Contents()), block).Some?
      ensures ok ==> Contents() == ParseExtensions(old(Contents()), block).value
    {
      var data := block;
      while data != []
        invariant ParseExtensions(Contents(), data) == ParseExtensions(old(Contents()), block)
        decreases |data|
      {
        if |data| < 4 { return false; }
        var extension, length := GetU16(data), GetU16(data[2..4]);
        data := data[4..];
        if |data| < length { return false; }
        var good := ReadExtension(extension, length, data);
        if !good { return false; }
        data := data[length..];
      }
      return true;
    }

    method ReadExtension(extension: u16, length: nat, data: seq<byte>) returns (ok: bool)
      requires length <= |data|
      modifies this
      ensures ok == ParseExtension(old(Contents()), extension, length, data).Some?
      ensures ok ==> Contents() == ParseExtension(old(Contents()), extension, length, data).value
    {
      if extension == EXT_SERVER_NAME {
        if length < 2 { return false; }
        ok := ReadServerName(data[2..], GetU16(data));
      } else if extension == EXT_NEXT_PROTO {
        if length > 0 { return false; }
        nextProtoNeg := true;
        ok := true;
      } else if extension == EXT_STATUS_REQUEST {
        ocspStapling := length > 0 && data[0] == STATUS_TYPE_OCSP;
        ok := true;
      } else if extension == EXT_CURVES {
        ok := ReadCurves(data[..length]);
      } else if extension == EXT_POINTS {
        if length < 1 || data[0] != length - 1 { return false; }
        supportedPoints := data[..length][1..];
        ok := true;
      } else if extension == EXT_TICKET {
        ticketSupported := true;
        sessionTicket := data[..length];
        ok := true;
      } else {
        ok := true;
      }
    }

    method ReadServerName(names: seq<byte>, numNames: nat) returns (ok: bool)
      modifies this`serverName
      ensures ok == !ScanNames(names, numNames).BadNames?
      ensures ScanNames(names, numNames).Host? ==> serverName == ScanNames(names, numNames).name
      ensures !ScanNames(names, numNames).Host? ==> serverName == old(serverName)
    {
      var d, i := names, 0;
      while i < numNames
        invariant 0 <= i <= numNames && serverName == old(serverName)
        invariant ScanNames(d, numNames - i) == ScanNames(names, numNames)
      {
        if |d| < 3 { return false; }
        var nameType, nameLen := d[0], GetU16(d[1..3]);
        if |d[3..]| < nameLen { return false; }
        if nameType == HOST_NAME {
          serverName := d[3..][..nameLen];
          break;
        }
        d := d[3..][nameLen..];
        i := i + 1;
      }
      return true;
    }

    method ReadCurves(body: seq<byte>) returns (ok: bool)
      modifies this`supportedCurves
      ensures ok == ParseCurves(old(Contents()), body).Some?
      ensures ok ==> Contents() == ParseCurves(old(Contents()), body).value
    {
      if |body| < 2 { return false; }
      var l: int := GetU16(body);
      if l % 2 == 1 || |body| != l + 2 { return false; }
      supportedCurves := ReadU16s(body[2..]);
      return true;
    }
  }

  method ReadU16s(b: seq<byte>) returns (xs: seq<u16>)
    requires |b| % 2 == 0
    ensures xs == U16s(b)
  {
    xs := [];
    var i := 0;
    while i < |b| / 2
      invariant 0 <= i <= |b| / 2 && xs == U16s(b[..2 * i])
    {
      U16sAppend(b[..2 * i], b[2 * i..2 * i + 2]);
      assert b[..2 * (i + 1)] == b[..2 * i] + b[2 * i..2 * i + 2];
      xs := xs + [GetU16(b[2 * i..2 * i + 2])];
      i := i + 1;
    }
    assert b[..2 * i] == b;
  }
}
