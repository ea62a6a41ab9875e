/** One end of a channel as a value: what each operation and each incoming message does to it. */
module ChannelSpec {
  import opened Bytes
  import opened Codec
  import opened FlowWindow

  const MIN_PACKET: u32 := 9
  const MAX_PACKET: u32 := 0x8000_0000
  const CHANNEL_MAX_PACKET: u32 := 0x8000
  const WINDOW_SIZE: u32 := 64 * 0x8000
  const CHAN_SIZE: nat := 16

  datatype Chan = Chan(
    localId: u32,
    remoteId: u32,
    maxIncoming: u32,
    maxRemote: u32,
    outbound: bool,
    msgs: seq<Message>,      // delivered to the opener, not yet received by it
    msgsClosed: bool,
    sentEOF: bool,
    sentClose: bool,
    credit: Credit,          // remoteWin
    pending: seq<byte>,
    pendingClosed: bool,
    myWindow: u32,
    // History.
    written: seq<byte>,      // payload bytes sent
    read: seq<byte>,         // bytes that Read copied out
    owed: nat,               // how many of them it has not granted back yet
    appClosed: bool)         // the application called Close
  {
    /** The receive window, the unread bytes, and those whose Read is still under way share the initial window. */
    predicate WindowBalanced() {
      myWindow + |pending| + owed == WINDOW_SIZE
    }

    /** Credit granted by the peer went to sent bytes, is still there, or was forfeited. */
    predicate CreditBalanced() {
      && credit.Balanced() && credit.spent == |written|
      && (credit.forfeited > 0 ==> credit.closed)
    }
  }

  function NewChan(outbound: bool, localId: u32): Chan {
    Chan(localId, 0, 0, 0, outbound, [], false, false, false, NO_CREDIT, [], false, WINDOW_SIZE, [], [], 0, false)
  }

  // ---- Operations of the application ----

  /** What an operation leaves and sends; `eof` is an io.EOF returned to the caller. */
  datatype Effect = Effect(ch: Chan, out: seq<Message>, eof: bool)

  function Send(c: Chan, m: Message): Effect {
    if c.sentClose then Effect(c, [], true)
    else Effect(c.(sentClose := m.CloseMessage?), [m], false)
  }

  function CloseWriteOp(c: Chan): Effect {
    Send(c.(sentEOF := true), EOFMessage(c.remoteId))
  }

  function CloseOp(c: Chan): Effect {
    Send(c.(appClosed := true), CloseMessage(c.remoteId))
  }

  /** min(a uint32, b int), whose second argument is truncated to 32 bits. */
  function Min32(a: u32, b: nat): u32 {
    if a < Truncate32(b) then a else Truncate32(b)
  }

  /** One iteration of the Write loop, on data not yet empty, once credit or closing lets it run. */
  function WriteChunk(c: Chan, data: seq<byte>): Effect
    requires c.credit.win > 0 || c.credit.closed
  {
    var r := Reserve(c.credit, Min32(c.maxRemote, |data|));
    if r.eof then Effect(c.(credit := r.credit), [], true)
    else
      var toSend := data[..r.got];
      Effect(c.(credit := r.credit, written := c.written + toSend),
             [DataMessage(c.remoteId, Truncate32(|toSend|), toSend)], false)
  }

  /** n bytes leave the queue, their window still to be granted back. */
  function TakeBytes(c: Chan, n: nat): Chan
    requires n <= |c.pending|
  {
    c.(pending := c.pending[n..], read := c.read + c.pending[..n], owed := c.owed + n)
  }

  /** The first part of Read into a slice of `want` bytes, once data, closing or an empty slice lets it return. */
  function TakeOut(c: Chan, want: nat): Effect {
    var n := Least(want, |c.pending|);
    Effect(TakeBytes(c, n), [], n == 0 && want > 0 && c.pendingClosed)
  }

  /** adjustWindow, the second part of a Read that took n bytes. */
  function GiveBack(c: Chan, n: u32): Effect
    requires n <= c.owed
  {
    Send(c.(myWindow := Add32(c.myWindow, n), owed := c.owed - n), WindowAdjustMessage(c.remoteId, n))
  }

  /** Read as a whole, where nothing else happens in between. */
  function ReadOp(c: Chan, want: nat): Effect {
    var n := Least(want, |c.pending|);
    if n == 0 then TakeOut(c, want) else GiveBack(TakeOut(c, want).ch, Truncate32(n)).(eof := false)
  }

  // ---- Incoming messages ----

  datatype Failure =
    | UndecodablePacket(e: DecodeError)
    | InvalidChannel
    | PacketTooLarge
    | WrongLength
    | WroteTooMuch
    | InvalidWindowUpdate
    | ResponseOnInbound
    | InvalidMaxPacketSize
    | InvalidMessage

  /** How the session loop fares: it goes on, stops with an error, waits for room in a
      Go channel, or panics by closing or sending on a closed one. */
  datatype Verdict = Fine | Failed(f: Failure) | Blocked | Panicked

  datatype Handled = Handled(ch: Chan, out: seq<Message>, verdict: Verdict, removed: bool)

  function HandleData(c: Chan, m: Message): Handled
    requires m.DataMessage?
  {
    if m.length > c.maxIncoming then Handled(c, [], Failed(PacketTooLarge), false)
    else if m.length != Truncate32(|m.data|) then Handled(c, [], Failed(WrongLength), false)
    else if c.myWindow < m.length then Handled(c, [], Failed(WroteTooMuch), false)
    else Handled(c.(myWindow := c.myWindow - m.length, pending := c.pending + m.data), [], Fine, false)
  }

  /** close(): ends the queue and the message channel, marks Close as sent, unblocks writers. */
  function Shutdown(c: Chan): Chan {
    c.(pendingClosed := true, msgsClosed := true, sentClose := true, credit := c.credit.(closed := true))
  }

  /** ch.msg <- m */
  function Post(c: Chan, m: Message, removed: bool): Handled {
    if c.msgsClosed then Handled(c, [], Panicked, removed)
    else if |c.msgs| >= CHAN_SIZE then Handled(c, [], Blocked, removed)
    else Handled(c.(msgs := c.msgs + [m]), [], Fine, removed)
  }

  predicate ValidMaxPacket(n: u32) {
    MIN_PACKET <= n <= MAX_PACKET
  }

  function HandleClose(c: Chan): Handled {
    var e := Send(c, CloseMessage(c.remoteId));
    if c.msgsClosed then Handled(e.ch.(pendingClosed := true), e.out, Panicked, true)
    else Handled(Shutdown(e.ch), e.out, Fine, true)
  }

  function HandleAdjust(c: Chan, n: u32): Handled {
    var g := Add(c.credit, n);
    Handled(c.(credit := g.credit), [], if g.ok then Fine else Failed(InvalidWindowUpdate), false)
  }

  function HandleConfirm(c: Chan, m: Message): Handled
    requires m.OpenConfirmMessage?
  {
    if !c.outbound then Handled(c, [], Failed(ResponseOnInbound), false)
    else if !ValidMaxPacket(m.maxPacketSize) then Handled(c, [], Failed(InvalidMaxPacketSize), false)
    else
      Post(c.(remoteId := m.senderId, maxRemote := m.maxPacketSize, credit := Add(c.credit, m.windowSize).credit),
           m, false)
  }

  function HandleFailure(c: Chan, m: Message): Handled {
    if !c.outbound then Handled(c, [], Failed(ResponseOnInbound), false) else Post(c, m, true)
  }

  function Handle(c: Chan, m: Message): Handled {
    match m
    case DataMessage(_, _, _) => HandleData(c, m)
    case CloseMessage(_) => HandleClose(c)
    case EOFMessage(_) => Handled(c.(pendingClosed := true), [], Fine, false)
    case WindowAdjustMessage(_, n) => HandleAdjust(c, n)
    case OpenConfirmMessage(_, _, _, _) => HandleConfirm(c, m)
    case OpenFailureMessage(_) => HandleFailure(c, m)
    case OpenMessage(_, _, _) => Handled(c, [], Failed(InvalidMessage), false)
  }

  /** The id a removing message frees: the channel's own on Close, the one it named on OpenFailure. */
  function FreedId(c: Chan, m: Message): u32
    requires !m.OpenMessage?
  {
    if m.CloseMessage? then c.localId else m.channelId
  }

  // ---- Facts about single operations ----

  /** min is the smaller number exactly when the truncated argument still decides it. */
  lemma MinExact(a: u32, b: nat)
    ensures Min32(a, b) == (if a < b then a else b) <==> b < TWO_32 || a <= b % 0x1_0000_0000
    ensures Min32(a, b) <= a && Min32(a, b) <= b
  {
  }

  /** A granted iteration sends a non-empty prefix that fits the peer's limit exactly
      when the remaining length is not a multiple of 2^32 and the limit is not zero. */
  lemma ChunkProgress(c: Chan, data: seq<byte>)
    requires c.credit.win > 0 && !c.credit.closed
    ensures var e := WriteChunk(c, data);
            && |e.out| == 1 && e.out[0].DataMessage? && !e.eof && e.out[0].WellFormed()
            && e.out[0].data <= data && |e.out[0].data| <= c.maxRemote
            && e.ch.written == c.written + e.out[0].data
            && (|e.out[0].data| >= 1 <==> |data| % 0x1_0000_0000 != 0 && c.maxRemote > 0)
            && (|e.out[0].data| == Min32(c.maxRemote, |data|) || e.ch.credit.win == 0)
            && e.ch.credit.win == c.credit.win - |e.out[0].data|
  {
  }

  // Every operation and every message keeps both balances, whoever the peer is.

  lemma WriteKeepsBalances(c: Chan, data: seq<byte>)
    requires c.WindowBalanced() && c.CreditBalanced() && (c.credit.win > 0 || c.credit.closed)
    ensures WriteChunk(c, data).ch.WindowBalanced() && WriteChunk(c, data).ch.CreditBalanced()
  {
    var r := Reserve(c.credit, Min32(c.maxRemote, |data|));
    assert r.credit.Balanced();
    if !r.eof { assert |c.written + data[..r.got]| == |c.written| + r.got; }
  }

  lemma TakeKeepsBalances(c: Chan, want: nat)
    requires c.WindowBalanced() && c.CreditBalanced()
    ensures TakeOut(c, want).ch.WindowBalanced() && TakeOut(c, want).ch.CreditBalanced()
  {
    var n := Least(want, |c.pending|);
    assert |c.pending[n..]| == |c.pending| - n;
  }

  lemma GiveKeepsBalances(c: Chan, n: u32)
    requires c.WindowBalanced() && c.CreditBalanced() && n <= c.owed
    ensures GiveBack(c, n).ch.WindowBalanced() && GiveBack(c, n).ch.CreditBalanced()
    ensures GiveBack(c, n).ch.myWindow == c.myWindow + n
  {
  }

  lemma DataKeepsBalances(c: Chan, m: Message)
    requires c.WindowBalanced() && c.CreditBalanced() && m.DataMessage? && m.WellFormed()
    ensures HandleData(c, m).ch.WindowBalanced() && HandleData(c, m).ch.CreditBalanced()
  {
  }

  lemma GrantKeepsBalances(c: Chan, n: u32)
    requires c.CreditBalanced()
    ensures Add(c.credit, n).credit.Balanced()
    ensures Add(c.credit, n).credit.spent == c.credit.spent && Add(c.credit, n).credit.forfeited == c.credit.forfeited
    ensures Add(c.credit, n).credit.closed == c.credit.closed
  {
    AddRejectsExactlyOverflow(c.credit, n);
  }

  lemma HandleKeepsBalances(c: Chan, m: Message)
    requires c.WindowBalanced() && c.CreditBalanced() && m.WellFormed()
    ensures Handle(c, m).ch.WindowBalanced() && Handle(c, m).ch.CreditBalanced()
  {
    match m
    case DataMessage(_, _, _) => DataKeepsBalances(c, m);
    case WindowAdjustMessage(_, n) => GrantKeepsBalances(c, n);
    case OpenConfirmMessage(_, _, window, _) => GrantKeepsBalances(c, window);
    case CloseMessage(_) =>
    case EOFMessage(_) =>
    case OpenFailureMessage(_) =>
    case OpenMessage(_, _, _) =>
  }
}
