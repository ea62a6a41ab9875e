/** The reader of the ClientHello: a growing block of raw input, cut into records, and the
    handshake data gathered from them. */
module HelloReader {
  import opened Bytes
  import opened HelloSpec
  import opened ClientHello
  import opened RecordSpec
  import opened SharedConns

  /** A data buffer: the first `len` bytes of an array are its data, the rest is spare capacity. */
  class Block {
    var data: array<byte>
    var len: nat
    var off: nat      // index for reading

    ghost predicate Valid()
      reads this
    {
      len <= data.Length
    }

    ghost function Contents(): seq<byte>
      requires Valid()
      reads this, data
    {
      data[..len]
    }

    constructor ()
      ensures Valid() && Contents() == [] && fresh(data) && off == 0
    {
      data, len, off := new byte[0], 0, 0;
    }

    method Reserve(n: nat)
      requires Valid()
      modifies this`data
      ensures Valid() && data.Length >= n && Contents() == old(Contents())
      ensures data == old(data) || fresh(data)
    {
      if data.Length >= n { return; }
      var m := data.Length;
      if m == 0 { m := 1024; }
      while m < n
        invariant 0 < m && data.Length <= m
      {
        m := m * 2;
      }
      var bigger := new byte[m];
      forall i | 0 <= i < len { bigger[i] := data[i]; }
      assert bigger[..len] == data[..len];
      data := bigger;
    }

    method Resize(n: nat)
      requires Valid()
      modifies this`data, this`len
      ensures Valid() && len == n && (data == old(data) || fresh(data))
    {
      if n > data.Length { Reserve(n); }
      len := n;
    }

    /** What a read into the spare capacity leaves. */
    method Append(more: seq<byte>)
      requires Valid() && len + |more| <= data.Length
      modifies this`len, data
      ensures Valid() && data == old(data) && Contents() == old(Contents()) + more
    {
      forall i | 0 <= i < |more| { data[len + i] := more[i]; }
      len := len + |more|;
    }

    /** Read until the block contains n bytes; fails only if the stream ends before. */
    method ReadFromUntil(r: TeeReader, n: nat) returns (ok: bool)
      requires Valid()
      modifies this`data, this`len, data, r.r, r.w
      ensures Valid() && (data == old(data) || fresh(data))
      ensures Contents() + r.r.rest == old(Contents() + r.r.rest)
      ensures r.w.data + r.r.rest == old(r.w.data + r.r.rest)
      ensures ok == (len >= n) && ok == (|old(Contents() + r.r.rest)| >= n)
      ensures old(len) >= n ==> Contents() == old(Contents())
    {
      if len >= n { return true; }
      Reserve(n);
      while true
        invariant Valid() && len < n <= data.Length && (data == old(data) || fresh(data))
        invariant Contents() + r.r.rest == old(Contents() + r.r.rest)
        invariant r.w.data + r.r.rest == old(r.w.data + r.r.rest)
        decreases |r.r.rest|
      {
        var eof := ReadOnce(r);
        if len >= n { break; }
        if eof { return false; }
      }
      return true;
    }

    method ReadOnce(r: TeeReader) returns (eof: bool)
      requires Valid() && len < data.Length
      modifies this`len, data, r.r, r.w
      ensures Valid() && data == old(data)
      ensures Contents() + r.r.rest == old(Contents() + r.r.rest)
      ensures r.w.data + r.r.rest == old(r.w.data + r.r.rest)
      ensures eof ==> r.r.rest == []
      ensures !eof ==> |r.r.rest| < |old(r.r.rest)|
    {
      ghost var had, copied, rest := Contents(), r.w.data, r.r.rest;
      var more;
      more, eof := r.Read(data.Length - len);
      assert more + r.r.rest == rest;
      Assoc(copied, more, r.r.rest);
      Append(more);
      Assoc(had, more, r.r.rest);
    }
  }

  /** Cut a block after its first n bytes; the remainder is None if there is none. */
  method SplitBlock(b: Block, n: nat) returns (bb: Option<Block>)
    requires b.Valid()
    modifies b`len
    ensures b.Valid() && bb.Some? == (|old(b.Contents())| > n)
    ensures bb.None? ==> b.Contents() == old(b.Contents())
    ensures bb.Some? ==> && bb.value.Valid() && fresh(bb.value) && fresh(bb.value.data)
                         && b.Contents() == old(b.Contents())[..n] && bb.value.Contents() == old(b.Contents())[n..]
  {
    if b.len <= n { return None; }
    var rest := new Block();
    rest.Resize(b.len - n);
    forall i | 0 <= i < b.len - n { rest.data[i] := b.data[n + i]; }
    forall i | 0 <= i < b.len - n ensures rest.Contents()[i] == b.Contents()[n..][i] {
      assert rest.data[i] == b.data[n + i];
    }
    assert rest.Contents() == b.Contents()[n..];
    b.len := n;
    bb := Some(rest);
  }

  /** The state that readClientHello and its readRecord share. */
  class RecordReader {
    const rd: TeeReader
    var nextBlock: Block?      // raw input, right off the wire
    var hand: seq<byte>        // handshake data waiting to be read
    ghost var Repr: set<object>

    ghost predicate Valid()
      reads this, Repr
    {
      && this in Repr && rd.r !in Repr && rd.w !in Repr
      && (nextBlock != null ==>
            nextBlock in Repr && nextBlock.data in Repr && nextBlock.Valid())
    }

    /** The bytes no record has been made of yet. */
    ghost function Pending(): seq<byte>
      requires Valid()
      reads this, Repr, rd.r
    {
      (if nextBlock == null then [] else nextBlock.Contents()) + rd.r.rest
    }

    /** Everything the connection has yielded or will yield. */
    ghost function Whole(): seq<byte>
      reads rd.r, rd.w
    {
      rd.w.data + rd.r.rest
    }

    constructor (rd: TeeReader)
      ensures Valid() && fresh(Repr) && this.rd == rd && hand == [] && Pending() == rd.r.rest
    {
      this.rd := rd;
      nextBlock, hand, Repr := null, [], {this};
    }

    /** Put at least n bytes of the pending stream into the block. */
    method Fill(n: nat) returns (ok: bool)
      requires Valid() && nextBlock != null
      modifies Repr - {this}, this`Repr, rd.r, rd.w
      ensures Valid() && fresh(Repr - old(Repr)) && nextBlock == old(nextBlock)
      ensures Pending() == old(Pending()) && Whole() == old(Whole())
      ensures ok == (|Pending()| >= n) && (ok ==> nextBlock.len >= n)
    {
      ok := nextBlock.ReadFromUntil(rd, n);
      Repr := Repr + {nextBlock.data};
    }

    /** Make the first n bytes of the block a block of their own, and keep the rest. */
    method Cut(n: nat) returns (b: Block)
      requires Valid() && nextBlock != null && nextBlock.len >= n
      modifies this, nextBlock`len
      ensures Valid() && fresh(Repr - old(Repr)) && hand == old(hand) && b == old(nextBlock)
      ensures b.Valid() && b.Contents() == old(Pending())[..n] && Pending() == old(Pending())[n..]
    {
      b := nextBlock;
      ghost var had := b.Contents();
      var rest := SplitBlock(b, n);
      nextBlock := if rest.None? then null else rest.value;
      Repr := if rest.None? then Repr else Repr + {nextBlock, nextBlock.data};
      assert (had + rd.r.rest)[..n] == had[..n] && (had + rd.r.rest)[n..] == had[n..] + rd.r.rest;
    }

    /** readRecord */
    method ReadRecord() returns (error: Option<ReadError>)
      requires Valid()
      modifies Repr, rd.r, rd.w
      ensures Valid() && fresh(Repr - old(Repr)) && Whole() == old(Whole())
      ensures var r := NextRecord(old(Pending()));
              if r.BadRecord? then error == Some(r.error)
              else error == None && hand == old(hand) + r.payload && Pending() == r.rest
    {
      var ok, header := ReadHeader();
      if !ok { return Some(ConnectionError); }
      SameHeader(header, Pending());
      error := CheckHeader(header);
      if error.Some? { return; }
      var payload;
      ok, payload := ReadPayload(GetU16(header[3..5]));
      if !ok { return Some(ConnectionError); }
      hand := hand + payload;
    }

    method ReadHeader() returns (ok: bool, header: seq<byte>)
      requires Valid()
      modifies Repr, rd.r, rd.w
      ensures Valid() && fresh(Repr - old(Repr)) && Whole() == old(Whole()) && hand == old(hand)
      ensures nextBlock != null && Pending() == old(Pending())
      ensures ok == (|Pending()| >= RECORD_HEADER_LEN) && (ok ==> header == Pending()[..RECORD_HEADER_LEN])
    {
      header := [];
      if nextBlock == null { NewBlock(); }
      ok := Fill(RECORD_HEADER_LEN);
      if ok {
        header := nextBlock.data[..RECORD_HEADER_LEN];
        assert header == nextBlock.Contents()[..RECORD_HEADER_LEN];
      }
    }

    /** The record's body. The source also refuses a body over the maximum plaintext length,
        which no length that passed the checks on the header is. */
    method ReadPayload(n: nat) returns (ok: bool, payload: seq<byte>)
      requires Valid() && nextBlock != null
      modifies Repr, rd.r, rd.w
      ensures Valid() && fresh(Repr - old(Repr)) && Whole() == old(Whole()) && hand == old(hand)
      ensures ok == (|old(Pending())| >= RECORD_HEADER_LEN + n)
      ensures ok ==> payload == old(Pending())[5..5 + n] && Pending() == old(Pending())[5 + n..]
    {
      payload := [];
      ok := Fill(RECORD_HEADER_LEN + n);
      if ok {
        var b := Cut(RECORD_HEADER_LEN + n);
        b.off := RECORD_HEADER_LEN;
        payload := b.data[b.off..b.len];
        assert payload == b.Contents()[5..];
      }
    }

    /** Read records until `need` bytes of handshake data wait. */
    method GatherUntil(need: nat) returns (error: Option<ReadError>)
      requires Valid()
      modifies Repr, rd.r, rd.w
      ensures Valid() && fresh(Repr - old(Repr)) && Whole() == old(Whole())
      ensures Gather(old(hand), old(Pending()), need)
              == if error.Some? then NotGathered(error.value) else Gathered(hand)
    {
      error := None;
      while |hand| < need
        invariant error.None? && Valid() && fresh(Repr - old(Repr)) && Whole() == old(Whole())
        invariant Gather(hand, Pending(), need) == Gather(old(hand), old(Pending()), need)
        decreases |Pending()|
      {
        error := ReadRecord();
        if error.Some? { return; }
      }
    }

    method NewBlock()
      requires Valid() && nextBlock == null
      modifies this
      ensures Valid() && fresh(Repr - old(Repr)) && hand == old(hand) && nextBlock != null
      ensures Pending() == old(Pending())
    {
      nextBlock := new Block();
      Repr := Repr + {nextBlock, nextBlock.data};
    }
  }

  lemma SameHeader(h: seq<byte>, s: seq<byte>)
    requires |h| == 5 && |s| >= 5 && h == s[..5]
    ensures HeaderError(h) == HeaderError(s) && GetU16(h[3..5]) == GetU16(s[3..5])
  {
    assert h[1..3] == s[1..3] && h[3..5] == s[3..5];
  }

  method CheckHeader(h: seq<byte>) returns (error: Option<ReadError>)
    requires |h| == 5
    ensures error == HeaderError(h)
  {
    var typ, vers, n := h[0], GetU16(h[1..3]), GetU16(h[3..5]);
    if typ == 0x80 { return Some(SSLv2Handshake); }
    if n > MAX_CIPHERTEXT { return Some(RecordOverflow); }
    if typ != TYPE_HANDSHAKE || vers >= 0x1000 || n >= 0x3000 { return Some(UnexpectedMessage); }
    return None;
  }

  /** readClientHello: however the stream arrives, the outcome is that of reading it record by
      record, and what was read has been copied for the connection to deliver again. */
  method ReadClientHello(rd: TeeReader) returns (r: Outcome, msg: ClientHelloMsg?)
    modifies rd.r, rd.w
    ensures r == ReadHello(old(rd.r.rest))
    ensures rd.w.data + rd.r.rest == old(rd.w.data + rd.r.rest)
    ensures if r.Parsed? then msg != null && fresh(msg) && msg.Contents() == r.hello else msg == null
  {
    var error, data := ReadMessage(rd);
    if error.Some? { return Failed(error.value), null; }
    if data[0] != TYPE_CLIENT_HELLO { return Failed(UnexpectedMessage), null; }
    msg := new ClientHelloMsg();
    var ok := msg.Unmarshal(data);
    if !ok { return Failed(UnexpectedMessage), null; }
    r := Parsed(msg.Contents());
  }

  /** The part of readClientHello that gathers a whole handshake message. */
  method ReadMessage(rd: TeeReader) returns (error: Option<ReadError>, data: seq<byte>)
    modifies rd.r, rd.w
    ensures rd.w.data + rd.r.rest == old(rd.w.data + rd.r.rest)
    ensures error.None? ==> |data| >= 4
    ensures ReadHello(old(rd.r.rest)) == if error.Some? then Failed(error.value) else ParseMessage(data)
  {
    data := [];
    var reader := new RecordReader(rd);
    ghost var first := NextRecord(rd.r.rest);
    error := reader.ReadRecord();
    if error.None? {
      assert reader.hand == first.payload && reader.Pending() == first.rest;
      error, data := ReadRest(reader);
    }
  }

  method ReadRest(reader: RecordReader) returns (error: Option<ReadError>, data: seq<byte>)
    requires reader.Valid()
    modifies reader.Repr, reader.rd.r, reader.rd.w
    ensures reader.Whole() == old(reader.Whole()) && (error.None? ==> |data| >= 4)
    ensures ReadOn(old(reader.hand), old(reader.Pending()))
            == if error.Some? then Failed(error.value) else ParseMessage(data)
  {
    data := [];
    if |reader.hand| < 4 { return Some(UnexpectedMessage), []; }
    var n := HandshakeLength(reader.hand);
    if n > MAX_HANDSHAKE { return Some(InternalError), []; }
    error := reader.GatherUntil(4 + n);
    if error.Some? { return; }
    return None, reader.hand[..4 + n];
  }

  /** TLS: the connection that is returned, parsed or not, delivers the stream from its first byte. */
  method TLS(conn: NetConn) returns (c: SharedConn, r: Outcome, msg: ClientHelloMsg?)
    modifies conn
    ensures c.Valid() && c.conn == conn && c.State().attached && Unread(c.State()) == old(conn.rest)
    ensures r == ReadHello(old(conn.rest))
    ensures if r.Parsed? then msg != null && msg.Contents() == r.hello else msg == null
    ensures HostOf(msg) == if r.Parsed? then r.hello.serverName else []
  {
    var rd;
    c, rd := NewShared(conn);
    r, msg := ReadClientHello(rd);
  }

  /** TLSConn.Host */
  function HostOf(msg: ClientHelloMsg?): seq<byte>
    reads msg
  {
    if msg == null then [] else msg.serverName
  }
}
