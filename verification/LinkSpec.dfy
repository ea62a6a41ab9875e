/** One channel seen whole: its two ends and the messages in flight between them, and what
    every step of either end keeps. */
module LinkSpec {
  import opened Bytes
  import opened Codec
  import opened FlowWindow
  import opened ChannelSpec
  import opened SessionSpec

  /** The data in a list of messages, in order. */
  function Payload(ms: seq<Message>): seq<byte> {
    if ms == [] then []
    else (if ms[0].DataMessage? then ms[0].data else []) + Payload(ms[1..])
  }

  /** The credit a message grants its receiver. */
  function GrantOf(m: Message): nat {
    match m
    case WindowAdjustMessage(_, n) => n
    case OpenMessage(_, w, _) => w
    case OpenConfirmMessage(_, _, w, _) => w
    case _ => 0
  }

  function Grants(ms: seq<Message>): nat {
    if ms == [] then 0 else GrantOf(ms[0]) + Grants(ms[1..])
  }

  lemma {:induction false} PayloadAppend(xs: seq<Message>, ys: seq<Message>)
    ensures Payload(xs + ys) == Payload(xs) + Payload(ys)
  {
    if xs == [] {
      assert xs + ys == ys;
    } else {
      assert (xs + ys)[1..] == xs[1..] + ys;
      PayloadAppend(xs[1..], ys);
      Assoc(if xs[0].DataMessage? then xs[0].data else [], Payload(xs[1..]), Payload(ys));
    }
  }

  lemma {:induction false} GrantsAppend(xs: seq<Message>, ys: seq<Message>)
    ensures Grants(xs + ys) == Grants(xs) + Grants(ys)
  {
    if xs == [] {
      assert xs + ys == ys;
    } else {
      assert (xs + ys)[1..] == xs[1..] + ys;
      GrantsAppend(xs[1..], ys);
    }
  }

  lemma {:induction false} NoPayload(ms: seq<Message>)
    requires forall i :: 0 <= i < |ms| ==> !ms[i].DataMessage?
    ensures Payload(ms) == []
  {
    if ms != [] { NoPayload(ms[1..]); }
  }

  // ---- What holds of a link ----

  /** The opener's end is not established until the confirm arrives. */
  predicate Established(c: Chan) {
    c.maxRemote != 0
  }

  /** Open finds an answer on a channel it has established. */
  predicate Answered(x: Chan) {
    x.outbound && Established(x) ==> x.msgs != []
  }

  predicate EndOK(x: Chan) {
    && x.maxIncoming == CHANNEL_MAX_PACKET && (x.maxRemote == 0 || x.maxRemote == CHANNEL_MAX_PACKET)
    && x.WindowBalanced()
    && (x.sentClose ==> x.appClosed || x.credit.closed)
    && (x.credit.closed ==> x.sentClose && x.pendingClosed)
    && x.msgsClosed == x.credit.closed
    && (!x.outbound ==> Established(x))
    && (!Established(x) ==> x == OpenedChannel(x.localId))
    && |x.msgs| <= 1 && (x.msgs != [] ==> x.outbound && x.msgs[0].OpenConfirmMessage?)
    && (x.appClosed ==> x.sentClose)
  }

  function Confirm(y: Chan, x: Chan): Message {
    OpenConfirmMessage(y.localId, x.localId, WINDOW_SIZE, CHANNEL_MAX_PACKET)
  }

  /** A message in flight from x to y names y, and is one x may have sent. */
  predicate ItemOK(m: Message, x: Chan, y: Chan) {
    match m
    case DataMessage(id, n, d) => id == y.localId && n == |d| <= CHANNEL_MAX_PACKET
    case WindowAdjustMessage(id, _) => id == y.localId
    case EOFMessage(id) => id == y.localId && x.sentEOF
    case CloseMessage(id) => id == y.localId && x.sentClose
    case OpenConfirmMessage(_, _, _, _) => m == Confirm(y, x) && !Established(y)
    case _ => false
  }

  /** The order of messages in flight: a confirm first, a close last, no data after an EOF. */
  predicate Ordered(xy: seq<Message>) {
    && (forall i :: 0 <= i < |xy| ==> xy[i].OpenConfirmMessage? ==> i == 0)
    && (forall i :: 0 <= i < |xy| ==> xy[i].CloseMessage? ==> i == |xy| - 1)
    && (forall i, j :: 0 <= i < j < |xy| && xy[i].EOFMessage? ==> !xy[j].DataMessage?)
  }

  predicate Traffic(x: Chan, y: Chan, xy: seq<Message>) {
    && (forall i :: 0 <= i < |xy| ==> ItemOK(xy[i], x, y))
    && Ordered(xy)
    && (!Established(y) ==> xy != [] && xy[0] == Confirm(y, x))
    && (!Established(x) ==> xy == [])
    && (Established(x) ==> x.remoteId == y.localId)
  }

  /** The end of the data is among the messages in flight. */
  predicate EndComing(xy: seq<Message>) {
    exists i :: 0 <= i < |xy| && (xy[i].EOFMessage? || xy[i].CloseMessage?)
  }

  /** How x's EOF and Close show at y: only once sent, and then without fail. */
  predicate Closing(x: Chan, y: Chan, xy: seq<Message>) {
    && (x.sentEOF ==> y.pendingClosed || EndComing(xy))
    && (y.pendingClosed ==> (forall i :: 0 <= i < |xy| ==> !xy[i].DataMessage?) && (x.sentEOF || x.sentClose))
    && (y.credit.closed ==> xy == [] && x.sentClose)
    && (x.sentClose ==> y.credit.closed || (xy != [] && xy[|xy| - 1].CloseMessage?))
  }

  /** Credit for sending from x to y: at x, in flight as data, unread or just read at y, or on its way back. */
  function CreditAround(x: Chan, y: Chan, xy: seq<Message>, yx: seq<Message>): nat {
    x.credit.win + |Payload(xy)| + |y.pending| + y.owed + Grants(yx)
  }

  predicate CreditOK(x: Chan, y: Chan, xy: seq<Message>, yx: seq<Message>) {
    && CreditAround(x, y, xy, yx) <= WINDOW_SIZE
    && (!y.sentClose ==> CreditAround(x, y, xy, yx) == WINDOW_SIZE)
  }

  /** Everything written at x was read at y, waits there, or is in flight, in that order. */
  predicate StreamOK(x: Chan, y: Chan, xy: seq<Message>) {
    x.written == y.read + y.pending + Payload(xy)
  }

  predicate Half(x: Chan, y: Chan, xy: seq<Message>, yx: seq<Message>) {
    EndOK(x) && Traffic(x, y, xy) && Closing(x, y, xy) && CreditOK(x, y, xy, yx) && StreamOK(x, y, xy)
  }

  /** A link both of whose ends exist. */
  predicate Joined(x: Chan, y: Chan, xy: seq<Message>, yx: seq<Message>) {
    x.outbound != y.outbound && Half(x, y, xy, yx) && Half(y, x, yx, xy)
  }

  /** A link whose open has not arrived. */
  predicate Opening(x: Chan, xy: seq<Message>, yx: seq<Message>) {
    x == OpenedChannel(x.localId) && xy == [OpenRequest(x)] && yx == []
  }

  /** A link whose open has arrived and made the end y, but is not confirmed: y's side waits for room. */
  predicate Unconfirmed(x: Option<Chan>, y: Option<Chan>, xy: seq<Message>, yx: seq<Message>) {
    && x.Some? && y.Some? && xy == [] && yx == []
    && x.value == OpenedChannel(x.value.localId)
    && y.value == AcceptedChannel(y.value.localId, OpenRequest(x.value))
  }

  predicate LinkOK(x: Option<Chan>, y: Option<Chan>, xy: seq<Message>, yx: seq<Message>) {
    match (x, y)
    case (Some(c), Some(d)) => Joined(c, d, xy, yx)
    case (Some(c), None) => Opening(c, xy, yx)
    case (None, Some(d)) => Opening(d, yx, xy)
    case (None, None) => false
  }

  // ---- Steps of an application at x ----

  lemma PayloadSnoc(ms: seq<Message>, m: Message)
    ensures Payload(ms + [m]) == Payload(ms) + if m.DataMessage? then m.data else []
    ensures Grants(ms + [m]) == Grants(ms) + GrantOf(m)
  {
    PayloadAppend(ms, [m]);
    GrantsAppend(ms, [m]);
    assert Payload([m][1..]) == [] && Grants([m][1..]) == 0;
  }

  /** The order is kept by a message sent while Close is not in flight, and data only before EOF. */
  lemma OrderedSnoc(xy: seq<Message>, m: Message)
    requires Ordered(xy) && !m.OpenConfirmMessage?
    requires forall i :: 0 <= i < |xy| ==> !xy[i].CloseMessage?
    requires m.DataMessage? ==> forall i :: 0 <= i < |xy| ==> !xy[i].EOFMessage?
    ensures Ordered(xy + [m]) && (EndComing(xy) || m.EOFMessage? || m.CloseMessage? ==> EndComing(xy + [m]))
  {
    if i :| 0 <= i < |xy| && (xy[i].EOFMessage? || xy[i].CloseMessage?) { assert (xy + [m])[i] == xy[i]; }
    assert (xy + [m])[|xy|] == m;
  }

  /** The direction from y to x does not notice a step of x that neither reads nor grants. */
  lemma Unnoticed(x: Chan, x1: Chan, y: Chan, yx: seq<Message>, xy: seq<Message>, xy1: seq<Message>)
    requires Half(y, x, yx, xy) && Grants(xy1) == Grants(xy)
    requires x1.localId == x.localId && Established(x1) == Established(x)
    requires x1.pending == x.pending && x1.pendingClosed == x.pendingClosed && x1.read == x.read && x1.owed == x.owed
    requires x1.credit.closed == x.credit.closed && (x.sentClose ==> x1.sentClose)
    ensures Half(y, x1, yx, xy1)
  {
    assert Confirm(x1, y) == Confirm(x, y);
  }

  /** What a step of x leaves alone when it sends no data. */
  predicate SameSender(x: Chan, x1: Chan) {
    && x1.localId == x.localId && x1.remoteId == x.remoteId && x1.maxRemote == x.maxRemote
    && x1.credit.win == x.credit.win && x1.written == x.written
    && (x.sentEOF ==> x1.sentEOF) && (x.sentClose ==> x1.sentClose)
  }

  /** The direction from x to y after x sends m, carrying no data, on a channel it has not closed. */
  lemma Sends(x: Chan, x1: Chan, y: Chan, xy: seq<Message>, yx: seq<Message>, yx1: seq<Message>, m: Message)
    requires Half(x, y, xy, yx) && Established(x) && EndOK(x1) && SameSender(x, x1)
    requires !x.sentClose && x1.sentClose == m.CloseMessage? && Grants(yx1) == Grants(yx)
    requires !m.DataMessage? && !m.OpenConfirmMessage? && ItemOK(m, x1, y)
    requires x1.sentEOF ==> x.sentEOF || m.EOFMessage?
    ensures Half(x1, y, xy + [m], yx1)
  {
    PayloadSnoc(xy, m);
    OrderedSnoc(xy, m);
  }

  /** The direction from x to y after a step of x that sends nothing. */
  lemma Quiet(x: Chan, x1: Chan, y: Chan, xy: seq<Message>, yx: seq<Message>, yx1: seq<Message>)
    requires Half(x, y, xy, yx) && Established(x) && EndOK(x1) && SameSender(x, x1)
    requires x1.sentClose == x.sentClose && x1.sentEOF == x.sentEOF && Grants(yx1) == Grants(yx)
    ensures Half(x1, y, xy, yx1)
  {
    assert Confirm(y, x1) == Confirm(y, x);
  }

  lemma WriteOut(x: Chan, y: Chan, xy: seq<Message>, yx: seq<Message>, data: seq<byte>)
    requires Half(x, y, xy, yx) && y.localId == x.remoteId && Established(x) && WriteRuns(x, data)
    requires !x.sentEOF && !x.appClosed
    requires x.credit.closed ==> y.sentClose
    ensures var e := WriteChunk(x, data); Half(e.ch, y, xy + e.out, yx)
  {
    var e := WriteChunk(x, data);
    if e.out == [] {
      assert xy + e.out == xy;
    } else {
      PayloadSnoc(xy, e.out[0]);
      OrderedSnoc(xy, e.out[0]);
      Assoc(y.read + y.pending, Payload(xy), e.out[0].data);
    }
  }

  lemma WriteStep(x: Chan, y: Chan, xy: seq<Message>, yx: seq<Message>, data: seq<byte>)
    requires Joined(x, y, xy, yx) && Established(x) && WriteRuns(x, data) && !x.sentEOF && !x.appClosed
    ensures var e := WriteChunk(x, data); Joined(e.ch, y, xy + e.out, yx)
  {
    var e := WriteChunk(x, data);
    WriteOut(x, y, xy, yx, data);
    if e.out == [] {
      assert xy + e.out == xy;
    } else {
      PayloadSnoc(xy, e.out[0]);
    }
    Unnoticed(x, e.ch, y, yx, xy, xy + e.out);
  }

  /** Ending the write side of a channel that has sent Close: the end of its data is told already. */
  lemma EndedLate(x: Chan, y: Chan, xy: seq<Message>, yx: seq<Message>)
    requires Half(x, y, xy, yx) && EndOK(y) && x.sentClose
    ensures Half(x.(sentEOF := true), y, xy, yx)
  {
    assert Confirm(y, x.(sentEOF := true)) == Confirm(y, x);
    assert y.pendingClosed || EndComing(xy);
  }

  lemma CloseWriteStep(x: Chan, y: Chan, xy: seq<Message>, yx: seq<Message>)
    requires Joined(x, y, xy, yx) && Established(x)
    ensures var e := CloseWriteOp(x); Joined(e.ch, y, xy + e.out, yx)
  {
    var e := CloseWriteOp(x);
    if x.sentClose {
      EndedLate(x, y, xy, yx);
      assert xy + e.out == xy;
    } else {
      Sends(x, e.ch, y, xy, yx, yx, e.out[0]);
      PayloadSnoc(xy, e.out[0]);
    }
    Unnoticed(x, e.ch, y, yx, xy, xy + e.out);
  }

  lemma CloseStep(x: Chan, y: Chan, xy: seq<Message>, yx: seq<Message>)
    requires Joined(x, y, xy, yx) && Established(x)
    ensures var e := CloseOp(x); Joined(e.ch, y, xy + e.out, yx)
  {
    var e := CloseOp(x);
    if e.out == [] {
      assert xy + e.out == xy;
    } else {
      Sends(x, e.ch, y, xy, yx, yx, e.out[0]);
      PayloadSnoc(xy, e.out[0]);
    }
    Unnoticed(x, e.ch, y, yx, xy, xy + e.out);
  }

  /** The direction from y to x after x takes n bytes out of its queue. */
  lemma Consumed(x: Chan, y: Chan, yx: seq<Message>, xy: seq<Message>, n: nat)
    requires Half(y, x, yx, xy) && n <= |x.pending|
    ensures Half(y, TakeBytes(x, n), yx, xy)
  {
    var x1 := TakeBytes(x, n);
    assert Confirm(x1, y) == Confirm(x, y);
    assert x.pending == x.pending[..n] + x.pending[n..];
    Assoc(x.read, x.pending[..n], x.pending[n..]);
  }

  lemma TakeOutStep(x: Chan, y: Chan, xy: seq<Message>, yx: seq<Message>, want: nat)
    requires Joined(x, y, xy, yx) && Established(x)
    ensures Joined(TakeOut(x, want).ch, y, xy, yx)
  {
    TakeOutEnd(x, want);
    Quiet(x, TakeOut(x, want).ch, y, xy, yx, yx);
    Consumed(x, y, yx, xy, Least(want, |x.pending|));
  }

  lemma TakeOutEnd(x: Chan, want: nat)
    requires EndOK(x) && Established(x)
    ensures EndOK(TakeOut(x, want).ch) && SameSender(x, TakeOut(x, want).ch)
  {
    var n := Least(want, |x.pending|);
    assert |x.pending[n..]| == |x.pending| - n;
  }

  /** The direction from y to x after x grants n bytes back, unless it has sent Close. */
  lemma GrantSeen(x: Chan, x1: Chan, y: Chan, yx: seq<Message>, xy: seq<Message>, xy1: seq<Message>, n: u32)
    requires Half(y, x, yx, xy) && n <= x.owed
    requires x1 == x.(owed := x.owed - n, myWindow := x1.myWindow)
    requires Grants(xy1) == Grants(xy) + if x.sentClose then 0 else n
    ensures Half(y, x1, yx, xy1)
  {
    assert Confirm(x1, y) == Confirm(x, y);
  }

  /** The direction from x to y as x grants bytes back. */
  lemma Granting(x: Chan, y: Chan, xy: seq<Message>, yx: seq<Message>, n: u32)
    requires Half(x, y, xy, yx) && y.localId == x.remoteId && Established(x) && n <= x.owed
    ensures var e := GiveBack(x, n);
            && Half(e.ch, y, xy + e.out, yx)
            && Grants(xy + e.out) == Grants(xy) + if x.sentClose then 0 else n
  {
    var e := GiveBack(x, n);
    GiveBackEnd(x, n);
    if x.sentClose {
      assert xy + e.out == xy;
      Quiet(x, e.ch, y, xy, yx, yx);
    } else {
      Sends(x, e.ch, y, xy, yx, yx, e.out[0]);
      PayloadSnoc(xy, e.out[0]);
    }
  }

  lemma GiveBackStep(x: Chan, y: Chan, xy: seq<Message>, yx: seq<Message>, n: u32)
    requires Joined(x, y, xy, yx) && Established(x) && n <= x.owed
    ensures var e := GiveBack(x, n); Joined(e.ch, y, xy + e.out, yx)
  {
    Granting(x, y, xy, yx, n);
    GaveBack(x, n);
    GrantSeen(x, GiveBack(x, n).ch, y, yx, xy, xy + GiveBack(x, n).out, n);
  }

  lemma GaveBack(x: Chan, n: u32)
    requires n <= x.owed
    ensures var x1 := GiveBack(x, n).ch;
            x1 == x.(owed := x.owed - n, myWindow := x1.myWindow)
  {
  }

  lemma GiveBackEnd(x: Chan, n: u32)
    requires EndOK(x) && Established(x) && n <= x.owed
    ensures EndOK(GiveBack(x, n).ch) && SameSender(x, GiveBack(x, n).ch)
  {
  }

  // ---- Delivery of the first message in flight from x to y ----

  lemma PayloadHead(xy: seq<Message>)
    requires xy != []
    ensures Payload(xy) == (if xy[0].DataMessage? then xy[0].data else []) + Payload(xy[1..])
    ensures Grants(xy) == GrantOf(xy[0]) + Grants(xy[1..])
  {
  }

  lemma OrderedTail(xy: seq<Message>)
    requires Ordered(xy) && xy != []
    ensures Ordered(xy[1..])
    ensures forall i :: 0 <= i < |xy[1..]| ==> !xy[1..][i].OpenConfirmMessage?
    ensures xy[0].CloseMessage? ==> xy[1..] == []
    ensures xy[0].EOFMessage? ==> forall i :: 0 <= i < |xy[1..]| ==> !xy[1..][i].DataMessage?
  {
  }

  lemma EndComesLater(xy: seq<Message>)
    requires EndComing(xy) && !xy[0].EOFMessage? && !xy[0].CloseMessage?
    ensures EndComing(xy[1..])
  {
    var i :| 0 <= i < |xy| && (xy[i].EOFMessage? || xy[i].CloseMessage?);
    assert xy[1..][i - 1] == xy[i];
  }

  lemma DataForward(x: Chan, y: Chan, y1: Chan, xy: seq<Message>, yx: seq<Message>)
    requires Joined(x, y, xy, yx) && xy != [] && xy[0].DataMessage?
    requires y1 == y.(pending := y.pending + xy[0].data, myWindow := y1.myWindow)
    ensures Half(x, y1, xy[1..], yx)
  {
    PayloadHead(xy);
    OrderedTail(xy);
    if EndComing(xy) { EndComesLater(xy); }
    assert y.read + y.pending + Payload(xy) == y.read + y1.pending + Payload(xy[1..]);
    assert Confirm(y1, x) == Confirm(y, x);
  }

  lemma DataArrives(x: Chan, y: Chan, xy: seq<Message>, yx: seq<Message>)
    requires Joined(x, y, xy, yx) && xy != [] && xy[0].DataMessage?
    ensures var h := Handle(y, xy[0]);
            h.verdict.Fine? && !h.removed && Joined(x, h.ch, xy[1..], yx + h.out)
  {
    var h := Handle(y, xy[0]);
    PayloadHead(xy);
    assert ItemOK(xy[0], x, y);
    DataForward(x, y, h.ch, xy, yx);
    Quiet(y, h.ch, x, yx, xy, xy[1..]);
    assert yx + h.out == yx;
  }

  /** The direction from x to y when y takes a message that carries no data and closes nothing. */
  lemma Popped(x: Chan, y: Chan, y1: Chan, xy: seq<Message>, yx: seq<Message>)
    requires Half(x, y, xy, yx) && xy != [] && !xy[0].DataMessage? && !xy[0].EOFMessage? && !xy[0].CloseMessage?
    requires y1 == y.(credit := y1.credit) && y1.credit.closed == y.credit.closed && Established(y)
    ensures Half(x, y1, xy[1..], yx)
  {
    PayloadHead(xy);
    OrderedTail(xy);
    if EndComing(xy) { EndComesLater(xy); }
  }

  /** The direction from y to x when the credit in the first message of xy reaches y. */
  lemma CreditArrives(x: Chan, y: Chan, y1: Chan, xy: seq<Message>, yx: seq<Message>)
    requires Half(y, x, yx, xy) && xy != [] && Established(y) && EndOK(y1)
    requires y1 == y.(credit := y1.credit) && y1.credit.win == y.credit.win + GrantOf(xy[0])
    ensures Half(y1, x, yx, xy[1..])
  {
    PayloadHead(xy);
    assert Confirm(x, y1) == Confirm(x, y);
  }

  lemma AdjustArrives(x: Chan, y: Chan, xy: seq<Message>, yx: seq<Message>)
    requires Joined(x, y, xy, yx) && xy != [] && xy[0].WindowAdjustMessage?
    ensures var h := Handle(y, xy[0]);
            h.verdict.Fine? && !h.removed && Joined(x, h.ch, xy[1..], yx + h.out)
  {
    var h := Handle(y, xy[0]);
    PayloadHead(xy);
    AddRejectsExactlyOverflow(y.credit, xy[0].additionalBytes);
    Popped(x, y, h.ch, xy, yx);
    CreditArrives(x, y, h.ch, xy, yx);
    assert yx + h.out == yx;
  }

  lemma EofForward(x: Chan, y: Chan, xy: seq<Message>, yx: seq<Message>)
    requires Half(x, y, xy, yx) && Established(y) && xy != [] && xy[0].EOFMessage?
    ensures Half(x, y.(pendingClosed := true), xy[1..], yx)
  {
    PayloadHead(xy);
    OrderedTail(xy);
    assert ItemOK(xy[0], x, y);
  }

  lemma EofArrives(x: Chan, y: Chan, xy: seq<Message>, yx: seq<Message>)
    requires Joined(x, y, xy, yx) && xy != [] && xy[0].EOFMessage?
    ensures var h := Handle(y, xy[0]);
            h.verdict.Fine? && !h.removed && Joined(x, h.ch, xy[1..], yx + h.out)
  {
    var y1 := y.(pendingClosed := true);
    assert Handle(y, xy[0]) == Handled(y1, [], Fine, false);
    assert Established(y) && EndOK(y1);
    EofForward(x, y, xy, yx);
    PayloadHead(xy);
    Quiet(y, y1, x, yx, xy, xy[1..]);
    assert yx + [] == yx;
  }

  lemma CloseForward(x: Chan, y: Chan, xy: seq<Message>, yx: seq<Message>, yx1: seq<Message>)
    requires Half(x, y, xy, yx) && Established(y) && xy != [] && xy[0].CloseMessage? && Grants(yx1) == Grants(yx)
    ensures Half(x, Shutdown(y), xy[1..], yx1)
  {
    PayloadHead(xy);
    OrderedTail(xy);
    assert ItemOK(xy[0], x, y);
  }

  lemma CloseArrives(x: Chan, y: Chan, xy: seq<Message>, yx: seq<Message>)
    requires Joined(x, y, xy, yx) && xy != [] && xy[0].CloseMessage?
    ensures var h := Handle(y, xy[0]);
            h.verdict.Fine? && h.removed && Joined(x, h.ch, xy[1..], yx + h.out)
  {
    var reply := CloseMessage(y.remoteId);
    PayloadHead(xy);
    if y.sentClose {
      Quiet(y, Shutdown(y), x, yx, xy, xy[1..]);
      CloseForward(x, y, xy, yx, yx);
      assert yx + [] == yx;
    } else {
      PayloadSnoc(yx, reply);
      Sends(y, Shutdown(y), x, yx, xy, xy[1..], reply);
      CloseForward(x, y, xy, yx, yx + [reply]);
    }
    assert Handle(y, xy[0]).ch == Shutdown(y);
  }

  lemma ConfirmArrives(x: Chan, y: Chan, xy: seq<Message>, yx: seq<Message>)
    requires Joined(x, y, xy, yx) && xy != [] && xy[0].OpenConfirmMessage?
    ensures var h := Handle(y, xy[0]);
            h.verdict.Fine? && !h.removed && Joined(x, h.ch, xy[1..], yx + h.out)
  {
    var h := Handle(y, xy[0]);
    PayloadHead(xy);
    OrderedTail(xy);
    assert ItemOK(xy[0], x, y);
    FirstGrant(WINDOW_SIZE);
    assert yx + h.out == yx;
  }

  /** The open arrives, and the new end's confirm is on its way. */
  lemma OpenArrives(x: Chan, id: u32)
    requires x == OpenedChannel(x.localId)
    ensures var y := AcceptedChannel(id, OpenRequest(x));
            Joined(x, y, [], [OpenConfirmMessage(y.remoteId, y.localId, y.myWindow, y.maxIncoming)])
  {
    NewEnds(x, id);
    OpenerWaits(x, id);
    AcceptorConfirms(x, id);
  }

  lemma NewEnds(x: Chan, id: u32)
    requires x == OpenedChannel(x.localId)
    ensures EndOK(x) && EndOK(AcceptedChannel(id, OpenRequest(x))) && Established(AcceptedChannel(id, OpenRequest(x)))
  {
    FirstGrant(WINDOW_SIZE);
  }

  lemma OpenerWaits(x: Chan, id: u32)
    requires x == OpenedChannel(x.localId) && EndOK(x)
    ensures var y := AcceptedChannel(id, OpenRequest(x)); Half(x, y, [], [Confirm(x, y)])
  {
    FirstGrant(WINDOW_SIZE);
    var confirm := Confirm(x, AcceptedChannel(id, OpenRequest(x)));
    PayloadSnoc([], confirm);
    assert [] + [confirm] == [confirm];
  }

  lemma AcceptorConfirms(x: Chan, id: u32)
    requires x == OpenedChannel(x.localId) && EndOK(AcceptedChannel(id, OpenRequest(x)))
    ensures var y := AcceptedChannel(id, OpenRequest(x)); Half(y, x, [Confirm(x, y)], [])
  {
    FirstGrant(WINDOW_SIZE);
    var confirm := Confirm(x, AcceptedChannel(id, OpenRequest(x)));
    PayloadSnoc([], confirm);
    assert [] + [confirm] == [confirm];
  }

  /** Open receives its confirm. */
  lemma TakeStep(x: Chan, y: Chan, xy: seq<Message>, yx: seq<Message>)
    requires Joined(x, y, xy, yx) && Established(x)
    ensures Joined(TakeMsg(x), y, xy, yx)
  {
    Quiet(x, TakeMsg(x), y, xy, yx, yx);
    Unnoticed(x, TakeMsg(x), y, yx, xy, xy);
  }

  predicate SameEnd(x: Chan, x1: Chan) {
    x1.localId == x.localId && x1.outbound == x.outbound && x1.maxRemote == x.maxRemote
    && x1.credit.closed == x.credit.closed
  }

  lemma ReadEnd(x: Chan, want: nat, n: u32)
    ensures SameEnd(x, TakeOut(x, want).ch)
    ensures n <= x.owed ==> SameEnd(x, GiveBack(x, n).ch)
  {
  }

  lemma WriteEnd(x: Chan, data: seq<byte>)
    requires WriteRuns(x, data)
    ensures SameEnd(x, WriteChunk(x, data).ch)
  {
  }

  lemma CalledEnd(x: Chan, i: Input)
    requires OfApp(i)
    ensures SameEnd(x, AppEffect(x, i).ch)
  {
    match i
    case Takes(_) =>
    case Writes(_, data) => if WriteRuns(x, data) { WriteEnd(x, data); }
    case Reads(_, want) => ReadEnd(x, want, 0);
    case GivesBack(_, n) => ReadEnd(x, 0, n);
    case ClosesWrite(_) =>
    case Closes(_) =>
  }

  lemma AppStep(x: Chan, y: Chan, xy: seq<Message>, yx: seq<Message>, i: Input)
    requires Joined(x, y, xy, yx) && Established(x) && OfApp(i)
    requires i.Writes? ==> WriteRuns(x, i.data) && !x.sentEOF && !x.appClosed
    ensures var e := AppEffect(x, i); Joined(e.ch, y, xy + e.out, yx)
  {
    assert xy + [] == xy;
    match i
    case Takes(_) => TakeStep(x, y, xy, yx);
    case Writes(_, data) => WriteStep(x, y, xy, yx, data);
    case Reads(_, want) => TakeOutStep(x, y, xy, yx, want);
    case GivesBack(_, n) => if 0 < n <= x.owed { GiveBackStep(x, y, xy, yx, n); }
    case ClosesWrite(_) => CloseWriteStep(x, y, xy, yx);
    case Closes(_) => CloseStep(x, y, xy, yx);
  }

  /** Whatever is first in flight from x, y handles it without an error; only Close removes y. */
  lemma Arrives(x: Chan, y: Chan, xy: seq<Message>, yx: seq<Message>)
    requires Joined(x, y, xy, yx) && xy != []
    ensures xy[0].Channel() == Some(y.localId) && !y.credit.closed
    ensures var h := Handle(y, xy[0]);
            && h.verdict.Fine? && Joined(x, h.ch, xy[1..], yx + h.out)
            && h.removed == xy[0].CloseMessage?
  {
    assert ItemOK(xy[0], x, y);
    match xy[0]
    case DataMessage(_, _, _) => DataArrives(x, y, xy, yx);
    case WindowAdjustMessage(_, _) => AdjustArrives(x, y, xy, yx);
    case EOFMessage(_) => EofArrives(x, y, xy, yx);
    case CloseMessage(_) => CloseArrives(x, y, xy, yx);
    case OpenConfirmMessage(_, _, _, _) => ConfirmArrives(x, y, xy, yx);
  }

  /** What a handled message leaves alone, but for Close. */
  predicate StaysEnd(y: Chan, c: Chan) {
    && c.localId == y.localId && c.outbound == y.outbound && c.credit.closed == y.credit.closed
    && (Established(y) ==> Established(c)) && (Answered(y) ==> Answered(c))
  }

  lemma CreditedEnd(y: Chan, m: Message)
    requires m.WindowAdjustMessage? || m.OpenConfirmMessage?
    requires Handle(y, m).verdict.Fine?
    ensures StaysEnd(y, Handle(y, m).ch)
  {
    AddRejectsExactlyOverflow(y.credit, if m.WindowAdjustMessage? then m.additionalBytes else m.windowSize);
  }

  lemma HandledEnd(y: Chan, m: Message)
    requires Handle(y, m).verdict.Fine?
    ensures var c := Handle(y, m).ch;
            && c.localId == y.localId && c.outbound == y.outbound && (Established(y) ==> Established(c))
            && c.credit.closed == (m.CloseMessage? || y.credit.closed) && (Answered(y) ==> Answered(c))
  {
    if m.WindowAdjustMessage? || m.OpenConfirmMessage? { CreditedEnd(y, m); }
  }
}
