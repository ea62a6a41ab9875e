/** A connection that is read once for its host name and then again from its first byte. */
module SharedConns {
  import opened Bytes

  // ---- As values ----

  /** The bytes the tee has copied and that were not delivered since, whether the shared connection
      still serves from them, and the bytes still on the raw connection. */
  datatype Shared = Shared(buffer: seq<byte>, attached: bool, rest: seq<byte>)

  function Unread(s: Shared): seq<byte> {
    (if s.attached then s.buffer else []) + s.rest
  }

  /** Bytes no Read will deliver. */
  function Lost(s: Shared): seq<byte> {
    if s.attached then [] else s.buffer
  }

  /** The header parser reads k bytes through the tee, or what is left. */
  function TeeStep(s: Shared, k: nat): Shared {
    var n := Least(k, |s.rest|);
    s.(buffer := s.buffer + s.rest[..n], rest := s.rest[n..])
  }

  datatype Served = Served(s: Shared, data: seq<byte>)

  /** Read into a slice of `want` bytes; k is what the raw connection yields if it is asked. */
  function ServeStep(s: Shared, want: nat, k: nat): Served {
    if s.attached && (s.buffer != [] || want == 0) then
      var n := Least(want, |s.buffer|);
      Served(s.(buffer := s.buffer[n..]), s.buffer[..n])
    else
      var n := Least(k, Least(want, |s.rest|));
      Served(s.(attached := false, rest := s.rest[n..]), s.rest[..n])
  }

  datatype Access = Tee(k: nat) | Serve(want: nat, k: nat)

  /** The state after a sequence of accesses, and everything Read delivered. */
  function Run(s: Shared, accesses: seq<Access>): Served
    decreases |accesses|
  {
    if accesses == [] then Served(s, [])
    else
      match accesses[0]
      case Tee(k) => Run(TeeStep(s, k), accesses[1..])
      case Serve(want, k) =>
        var first := ServeStep(s, want, k);
        var later := Run(first.s, accesses[1..]);
        Served(later.s, first.data + later.data)
  }

  /** The tee yields bytes only before a Read has found the buffer used up. */
  predicate TeeInTime(s: Shared, accesses: seq<Access>)
    decreases |accesses|
  {
    accesses != [] ==>
      match accesses[0]
      case Tee(k) => (s.attached || k == 0 || s.rest == []) && TeeInTime(TeeStep(s, k), accesses[1..])
      case Serve(want, k) => TeeInTime(ServeStep(s, want, k).s, accesses[1..])
  }

  lemma ServeSplits(s: Shared, want: nat, k: nat)
    ensures var e := ServeStep(s, want, k);
            && e.data + Unread(e.s) == Unread(s) && Lost(e.s) == Lost(s)
            && |e.data| + |Unread(e.s)| == |Unread(s)|
  {
    var e := ServeStep(s, want, k);
    if e.s.attached {
      assert s.buffer == e.data + e.s.buffer;
    } else {
      assert s.rest == e.data + e.s.rest;
    }
  }

  /** A tee access moves bytes into the buffer; they are lost if it is no longer served from. */
  lemma TeeMoves(s: Shared, k: nat)
    ensures var s1 := TeeStep(s, k);
            && |Unread(s1)| + |Lost(s1)| == |Unread(s)| + |Lost(s)| && |Lost(s)| <= |Lost(s1)|
            && (|Lost(s1)| == |Lost(s)| <==> s.attached || k == 0 || s.rest == [])
            && (|Lost(s1)| == |Lost(s)| ==> Unread(s1) == Unread(s))
  {
    var n := Least(k, |s.rest|);
    Assoc(s.buffer, s.rest[..n], s.rest[n..]);
    assert s.rest[..n] + s.rest[n..] == s.rest;
    if n == 0 { assert TeeStep(s, k) == s; }
  }

  lemma {:induction false} RunConserves(s: Shared, accesses: seq<Access>)
    ensures var e := Run(s, accesses);
            && |e.data| + |Unread(e.s)| + |Lost(e.s)| == |Unread(s)| + |Lost(s)|
            && |Lost(s)| <= |Lost(e.s)|
            && (|Lost(e.s)| == |Lost(s)| <==> TeeInTime(s, accesses))
    decreases |accesses|
  {
    if accesses != [] {
      match accesses[0]
      case Tee(k) =>
        TeeMoves(s, k);
        RunConserves(TeeStep(s, k), accesses[1..]);
      case Serve(want, k) =>
        ServeSplits(s, want, k);
        RunConserves(ServeStep(s, want, k).s, accesses[1..]);
    }
  }

  /** In time, nothing is out of order either. */
  lemma {:induction false} RunKeepsOrder(s: Shared, accesses: seq<Access>)
    requires TeeInTime(s, accesses)
    ensures var e := Run(s, accesses); e.data + Unread(e.s) == Unread(s)
    decreases |accesses|
  {
    if accesses != [] {
      match accesses[0]
      case Tee(k) =>
        TeeMoves(s, k);
        RunKeepsOrder(TeeStep(s, k), accesses[1..]);
      case Serve(want, k) =>
        var first := ServeStep(s, want, k);
        ServeSplits(s, want, k);
        RunKeepsOrder(first.s, accesses[1..]);
        var later := Run(first.s, accesses[1..]);
        Assoc(first.data, later.data, Unread(later.s));
    }
  }

  /** However the parser and the application read a connection, what was delivered and what is
      still to be delivered make up the original stream if and only if the tee yielded no bytes
      once a Read had found the buffer used up. */
  lemma Replay(original: seq<byte>, accesses: seq<Access>)
    ensures var e := Run(Shared([], true, original), accesses);
            e.data + Unread(e.s) == original <==> TeeInTime(Shared([], true, original), accesses)
  {
    var e := Run(Shared([], true, original), accesses);
    RunConserves(Shared([], true, original), accesses);
    if TeeInTime(Shared([], true, original), accesses) { RunKeepsOrder(Shared([], true, original), accesses); }
    assert Unread(Shared([], true, original)) == original;
    assert |e.data + Unread(e.s)| == |e.data| + |Unread(e.s)|;
  }

  /** A tee that reads on after a Read has dropped the buffer takes a byte that no Read delivers. */
  lemma LateTee()
    ensures var accesses := [Tee(1), Serve(1, 1), Serve(1, 1), Tee(1)];
            && !TeeInTime(Shared([], true, [1, 2, 3]), accesses)
            && Run(Shared([], true, [1, 2, 3]), accesses) == Served(Shared([3], false, []), [1, 2])
  {
    assert ServeStep(Shared([1], true, [2, 3]), 1, 1) == Served(Shared([], true, [2, 3]), [1]);
    assert ServeStep(Shared([], true, [2, 3]), 1, 1) == Served(Shared([], false, [3]), [2]);
  }

  lemma {:induction false} ParserFirst(s: Shared, parse: seq<Access>, later: seq<Access>)
    requires s.attached && (forall i :: 0 <= i < |parse| ==> parse[i].Tee?)
    requires forall i :: 0 <= i < |later| ==> later[i].Serve?
    ensures TeeInTime(s, parse + later)
    decreases |parse|
  {
    if parse == [] {
      assert parse + later == later;
      OnlyServed(s, later);
    } else {
      assert (parse + later)[1..] == parse[1..] + later;
      ParserFirst(TeeStep(s, parse[0].k), parse[1..], later);
    }
  }

  lemma {:induction false} OnlyServed(s: Shared, later: seq<Access>)
    requires forall i :: 0 <= i < |later| ==> later[i].Serve?
    ensures TeeInTime(s, later)
    decreases |later|
  {
    if later != [] { OnlyServed(ServeStep(s, later[0].want, later[0].k).s, later[1..]); }
  }

  /** The promised use: once the header has been parsed, Read delivers the stream from its first byte. */
  lemma UnreadAfterParsing(original: seq<byte>, parse: seq<Access>, later: seq<Access>)
    requires forall i :: 0 <= i < |parse| ==> parse[i].Tee?
    requires forall i :: 0 <= i < |later| ==> later[i].Serve?
    ensures var e := Run(Shared([], true, original), parse + later); e.data + Unread(e.s) == original
  {
    ParserFirst(Shared([], true, original), parse, later);
    Replay(original, parse + later);
  }

  /** Reads that ask for something, of a connection that yields something. */
  predicate Reading(accesses: seq<Access>) {
    forall i :: 0 <= i < |accesses| ==> accesses[i].Serve? && accesses[i].want > 0 && accesses[i].k > 0
  }

  lemma {:induction false} ReadsDeliver(s: Shared, later: seq<Access>)
    requires Reading(later) && |later| >= |Unread(s)|
    ensures Run(s, later).data == Unread(s)
    decreases |later|
  {
    if later != [] {
      var e := ServeStep(s, later[0].want, later[0].k);
      ServeSplits(s, later[0].want, later[0].k);
      ReadsDeliver(e.s, later[1..]);
    }
  }

  lemma {:induction false} RunParts(s: Shared, parse: seq<Access>, later: seq<Access>)
    requires forall i :: 0 <= i < |parse| ==> parse[i].Tee?
    ensures Run(s, parse).data == [] && Run(s, parse + later) == Run(Run(s, parse).s, later)
    decreases |parse|
  {
    if parse == [] {
      assert parse + later == later;
    } else {
      assert (parse + later)[1..] == parse[1..] + later;
      RunParts(TeeStep(s, parse[0].k), parse[1..], later);
    }
  }

  /** And no Read stalls: one for each byte of the stream is enough to deliver all of it, however they are
      sized and however much the parser had read. */
  lemma AllIsDelivered(original: seq<byte>, parse: seq<Access>, later: seq<Access>)
    requires forall i :: 0 <= i < |parse| ==> parse[i].Tee?
    requires Reading(later) && |later| >= |original|
    ensures Run(Shared([], true, original), parse + later).data == original
  {
    UnreadAfterParsing(original, parse, []);
    assert parse + [] == parse;
    RunParts(Shared([], true, original), parse, later);
    ReadsDeliver(Run(Shared([], true, original), parse).s, later);
  }

  // ---- As objects ----

  /** A connection that yields bytes, in pieces of any sizes, until it ends or fails with some other error. */
  class NetConn {
    var rest: seq<byte>       // what it still yields before its error
    var pieces: seq<nat>      // sizes of the pieces to come, any afterwards
    const errorWithLast: bool // whether the error comes along with the last bytes

    constructor (rest: seq<byte>, pieces: seq<nat>, errorWithLast: bool)
      ensures this.rest == rest
    {
      this.rest, this.pieces, this.errorWithLast := rest, pieces, errorWithLast;
    }

    /** At least a byte unless it fails or none was asked for; `eof` stands for its error, whichever it is. */
    method Read(want: nat) returns (data: seq<byte>, eof: bool)
      modifies this
      ensures |data| <= want && |data| <= |old(rest)|
      ensures data == old(rest)[..|data|] && rest == old(rest)[|data|..]
      ensures want > 0 && !eof ==> data != []
      ensures eof ==> rest == []
    {
      var piece := if pieces == [] || pieces[0] == 0 then 1 else pieces[0];
      if pieces != [] { pieces := pieces[1..]; }
      var n := Least(piece, Least(want, |rest|));
      data, rest := rest[..n], rest[n..];
      eof := rest == [] && (n == 0 || errorWithLast);
    }
  }

  /** bytes.Buffer */
  class ByteBuffer {
    var data: seq<byte>

    constructor ()
      ensures data == []
    {
      data := [];
    }

    method Write(b: seq<byte>)
      modifies this
      ensures data == old(data) + b
    {
      data := data + b;
    }

    method Read(want: nat) returns (out: seq<byte>, eof: bool)
      modifies this
      ensures eof == (old(data) == [] && want > 0)
      ensures |out| == Least(want, |old(data)|) && out == old(data)[..|out|] && data == old(data)[|out|..]
    {
      var n := Least(want, |data|);
      eof := data == [] && want > 0;
      out, data := data[..n], data[n..];
    }
  }

  /** io.TeeReader */
  class TeeReader {
    const r: NetConn
    const w: ByteBuffer

    constructor (r: NetConn, w: ByteBuffer)
      ensures this.r == r && this.w == w
    {
      this.r, this.w := r, w;
    }

    method Read(want: nat) returns (data: seq<byte>, eof: bool)
      modifies r, w
      ensures |data| <= want && |data| <= |old(r.rest)|
      ensures data == old(r.rest)[..|data|] && r.rest == old(r.rest)[|data|..] && w.data == old(w.data) + data
      ensures forall attached :: Shared(w.data, attached, r.rest)
                                 == TeeStep(Shared(old(w.data), attached, old(r.rest)), |data|)
      ensures want > 0 && !eof ==> data != []
      ensures eof ==> r.rest == []
    {
      data, eof := r.Read(want);
      if data != [] { w.Write(data); }
    }
  }

  class SharedConn {
    const conn: NetConn
    var vhostBuf: ByteBuffer?
    ghost const buffer: ByteBuffer   // vhostBuf at first, and the tee's for good

    ghost predicate Valid()
      reads this
    {
      vhostBuf != null ==> vhostBuf == buffer
    }

    ghost function State(): Shared
      reads this, buffer, conn
    {
      Shared(buffer.data, vhostBuf != null, conn.rest)
    }

    constructor (conn: NetConn)
      ensures Valid() && this.conn == conn && fresh(buffer) && State() == Shared([], true, conn.rest)
    {
      this.conn := conn;
      var b := new ByteBuffer();
      vhostBuf, buffer := b, b;
    }

    method Read(want: nat) returns (data: seq<byte>, eof: bool)
      requires Valid()
      modifies this, buffer, conn
      ensures Valid()
      ensures old(State().attached) && old(State().buffer) != [] ==> |data| == Least(want, |old(State().buffer)|)
      ensures |data| <= want
      ensures Served(State(), data) == ServeStep(old(State()), want, |data|)
      ensures want > 0 && !eof ==> data != []
      ensures eof ==> Unread(State()) == []
    {
      if vhostBuf == null {
        data, eof := conn.Read(want);
        return;
      }
      data, eof := vhostBuf.Read(want);
      if eof {
        vhostBuf := null;
        data, eof := conn.Read(want);
      }
    }
  }

  /** newShared: a connection, and the reader through which its header is parsed. */
  method NewShared(conn: NetConn) returns (c: SharedConn, rd: TeeReader)
    ensures c.Valid() && c.conn == conn && fresh(c) && fresh(c.buffer)
    ensures c.State() == Shared([], true, conn.rest)
    ensures rd.r == conn && rd.w == c.buffer
  {
    c := new SharedConn(conn);
    rd := new TeeReader(conn, c.vhostBuf);
  }
}
