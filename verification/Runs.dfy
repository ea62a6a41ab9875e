/** Runs of the two-sided system, and what the session layer promises over all of them. */
module Runs {
  import opened Bytes
  import opened Codec
  import opened FlowWindow
  import opened ChannelSpec
  import opened SessionSpec
  import opened LinkSpec
  import opened SystemSpec

  /** A step of the left or of the right side. */
  datatype Move = Move(left: bool, input: Input)

  /** The system as one side sees it: itself as `a`. */
  function View(s: System, left: bool): System {
    if left then s else Swap(s)
  }

  predicate Possible(s: System, m: Move) {
    Enabled(View(s, m.left), m.input) && |View(s, m.left).a.peer.objs| == |View(s, m.left).a.linkOf|
  }

  function Do(s: System, m: Move): System
    requires Possible(s, m)
  {
    View(ActA(View(s, m.left), m.input), m.left)
  }

  predicate IsRun(s: System, ms: seq<Move>)
    decreases |ms|
  {
    ms != [] ==> Possible(s, ms[0]) && IsRun(Do(s, ms[0]), ms[1..])
  }

  function After(s: System, ms: seq<Move>): System
    requires IsRun(s, ms)
    decreases |ms|
  {
    if ms == [] then s else After(Do(s, ms[0]), ms[1..])
  }

  /** The applications keep the rule of Close, and no table reaches 2^32 slots. */
  predicate Disciplined(s: System, ms: seq<Move>)
    requires IsRun(s, ms)
    decreases |ms|
  {
    ms != [] ==>
      && Usage(View(s, ms[0].left), ms[0].input)
      && Fits(Do(s, ms[0]))
      && Disciplined(Do(s, ms[0]), ms[1..])
  }

  ghost predicate Reachable(s: System) {
    exists ms :: IsRun(NEW_SYSTEM, ms) && Disciplined(NEW_SYSTEM, ms) && After(NEW_SYSTEM, ms) == s
  }

  lemma DoKeeps(s: System, m: Move)
    requires Inv(s) && Possible(s, m) && Usage(View(s, m.left), m.input) && Fits(Do(s, m))
    ensures Inv(Do(s, m))
  {
    if !m.left { SwapInv(s); }
    ActKeeps(View(s, m.left), m.input);
    if !m.left { SwapInv(ActA(Swap(s), m.input)); }
  }

  lemma {:induction false} RunKeeps(s: System, ms: seq<Move>)
    requires Inv(s) && IsRun(s, ms) && Disciplined(s, ms)
    ensures Inv(After(s, ms))
    decreases |ms|
  {
    if ms != [] {
      DoKeeps(s, ms[0]);
      RunKeeps(Do(s, ms[0]), ms[1..]);
    }
  }

  /** The invariant of every link, both tables and both wires holds in every reachable state. */
  lemma ReachableInv(s: System, left: bool)
    requires Reachable(s)
    ensures Inv(View(s, left))
  {
    var ms :| IsRun(NEW_SYSTEM, ms) && Disciplined(NEW_SYSTEM, ms) && After(NEW_SYSTEM, ms) == s;
    assert Inv(NEW_SYSTEM);
    RunKeeps(NEW_SYSTEM, ms);
    if !left { SwapInv(s); }
  }

  // ---- No errors ----

  /** The next packet for side a is handled without any error; a wait comes only of a full inbox. */
  lemma HeadHandled(v: System)
    requires Inv(v) && v.b.wire != []
    ensures TableInRange(v.a.peer)
    ensures var m := v.b.wire[0].msg;
            Receive(v.a.peer, m).verdict
            == if m.OpenMessage? && |v.a.peer.inbox| >= CHAN_SIZE then Blocked else Fine
  {
    HeadOfWire(v);
    var m, k := v.b.wire[0].msg, v.b.wire[0].link;
    if m.OpenMessage? {
      assert Flow(v.b.wire, k)[0] == m == OpenRequest(EndAt(v.b, k).value);
    } else {
      HeadFindsItsChannel(v);
      Arrives(EndAt(v.b, k).value, EndAt(v.a, k).value, Flow(v.b.wire, k), Flow(v.a.wire, k));
    }
  }

  /** The next packet for a side is handled without any error, on every run; it waits only
      when it is an open and the inbox is full. */
  lemma NoErrors(s: System, left: bool)
    requires Reachable(s) && View(s, left).b.wire != []
    ensures TableInRange(View(s, left).a.peer)
    ensures var v := View(s, left); var m := v.b.wire[0].msg;
            Receive(v.a.peer, m).verdict
            == if m.OpenMessage? && |v.a.peer.inbox| >= CHAN_SIZE then Blocked else Fine
  {
    ReachableInv(s, left);
    HeadHandled(View(s, left));
  }

  /** So no loop ever stops or panics, nor waits at a message queue: it reads, or waits to put a channel
      into a full inbox. */
  lemma LoopsGoOn(s: System, left: bool)
    requires Reachable(s)
    ensures var h := View(s, left).a; h.loop.Reading? || (h.loop.Queueing? && |h.peer.inbox| == CHAN_SIZE)
  {
    ReachableInv(s, left);
  }

  lemma {:induction false} InFlow(w: seq<Tagged>, i: nat)
    requires i < |w|
    ensures w[i].msg in Flow(w, w[i].link)
  {
    if i > 0 {
      InFlow(w[1..], i - 1);
      assert w[1..][i - 1] == w[i];
    }
  }

  /** What a packet anywhere on b's wire can be. */
  lemma InFlight(s: System, i: nat)
    requires Inv(s) && i < |s.b.wire|
    ensures var m := s.b.wire[i].msg; var k := s.b.wire[i].link;
            && k < |s.a.endOf| && EndAt(s.b, k).Some?
            && (m.OpenMessage? ==> m == OpenRequest(EndAt(s.b, k).value))
            && (!m.OpenMessage? ==> EndAt(s.a, k).Some? && !EndAt(s.a, k).value.credit.closed
                                    && ItemOK(m, EndAt(s.b, k).value, EndAt(s.a, k).value))
  {
    var m := s.b.wire[i].msg;
    var k := s.b.wire[i].link;
    InFlow(s.b.wire, i);
    assert LinkAt(s, k);
    var j :| 0 <= j < |Flow(s.b.wire, k)| && Flow(s.b.wire, k)[j] == m;
    if EndAt(s.a, k).Some? && EndAt(s.b, k).Some? {
      assert ItemOK(m, EndAt(s.b, k).value, EndAt(s.a, k).value);
    }
  }

  /** handleOpen never refuses: no OpenFailure is ever in flight. */
  lemma NoOpenFailures(s: System, left: bool, i: nat)
    requires Reachable(s) && i < |View(s, left).b.wire|
    ensures !View(s, left).b.wire[i].msg.OpenFailureMessage?
  {
    ReachableInv(s, left);
    InFlight(View(s, left), i);
  }

  /** Open never fails: every channel it has made and not yet returned has no answer so far, or a
      confirm, also when the other side has closed it meanwhile; and once it has the confirm, it is
      joined to a channel of the other side, each naming the other. */
  lemma OpenSucceeds(s: System, left: bool, o: nat)
    requires Reachable(s) && Indexed(s.a) && Indexed(s.b)
    requires var v := View(s, left); o < |v.a.peer.objs| && v.a.peer.objs[o].outbound && o !in v.a.held
    ensures var v := View(s, left); var x := v.a.peer.objs[o];
            && OutcomeOf(x) == (if Established(x) then Opened else NoAnswerYet)
            && (Established(x) ==>
                  && o < |v.a.linkOf| && EndAt(v.b, v.a.linkOf[o]).Some?
                  && var y := EndAt(v.b, v.a.linkOf[o]).value;
                     !y.outbound && x.remoteId == y.localId && y.remoteId == x.localId)
  {
    var v := View(s, left);
    ReachableInv(s, left);
    EndShape(v, v.a.linkOf[o]);
    assert LinkAt(v, v.a.linkOf[o]) && EndAt(v.a, v.a.linkOf[o]) == Some(v.a.peer.objs[o]);
  }

  // ---- Ids ----

  /** Every message in flight, wherever on its wire, names an id that is held at its receiver
      by the channel of the very opening it was sent for: reuse of ids is safe, also when
      closes cross, and no slot is freed while a message to it is on its way. */
  lemma IdsNeverConfused(s: System, left: bool, i: nat)
    requires Reachable(s) && i < |View(s, left).b.wire| && !View(s, left).b.wire[i].msg.OpenMessage?
    ensures var v := View(s, left); var k := v.b.wire[i].link;
            && k < |v.a.endOf| && v.a.endOf[k].Some?
            && Holder(v.a.peer, v.b.wire[i].msg.channelId) == v.a.endOf[k]
  {
    ReachableInv(s, left);
    InFlight(View(s, left), i);
  }

  /** A channel that has received Close is in no slot, and no call on it sends anything. */
  lemma RemovedIsSilent(s: System, left: bool, o: nat, i: Input)
    requires Reachable(s) && o < |View(s, left).a.peer.objs| && View(s, left).a.peer.objs[o].credit.closed
    ensures Some(o) !in View(s, left).a.peer.table
    ensures OfApp(i) ==> AppEffect(View(s, left).a.peer.objs[o], i).out == []
  {
    var v := View(s, left);
    ReachableInv(s, left);
    var c := v.a.peer.objs[o];
    EndShape(v, v.a.linkOf[o]);
    assert LinkAt(v, v.a.linkOf[o]) && EndAt(v.a, v.a.linkOf[o]) == Some(c);
    assert c.sentClose;
  }

  // ---- Streams ----

  /** End-to-end stream: in each direction of each channel, the bytes written are the bytes
      read, then those pending, then those in flight, in order. */
  lemma StreamIntact(s: System, left: bool, k: nat)
    requires Reachable(s) && k < |View(s, left).a.endOf| && Indexed(s.a) && Indexed(s.b)
    requires EndAt(View(s, left).a, k).Some? && EndAt(View(s, left).b, k).Some?
    ensures var v := View(s, left); var x := EndAt(v.a, k).value; var y := EndAt(v.b, k).value;
            x.written == y.read + y.pending + Payload(Flow(v.a.wire, k))
  {
    ReachableInv(s, left);
    BothEnds(View(s, left), k);
  }

  /** An end that can write no more. */
  predicate Finished(x: Chan) {
    x.sentEOF || (x.sentClose && (x.appClosed || x.credit.closed))
  }

  lemma FinishedCall(c: Chan, i: Input)
    requires Finished(c) && OfApp(i) && (i.Writes? ==> !c.appClosed && !c.sentEOF)
    ensures Finished(AppEffect(c, i).ch) && AppEffect(c, i).ch.written == c.written
  {
  }

  lemma FinishedHandling(c: Chan, m: Message)
    requires Finished(c)
    ensures Finished(Handle(c, m).ch) && Handle(c, m).ch.written == c.written
  {
    if m.WindowAdjustMessage? { AddRejectsExactlyOverflow(c.credit, m.additionalBytes); }
    if m.OpenConfirmMessage? { AddRejectsExactlyOverflow(c.credit, m.windowSize); }
  }

  /** How one of a host's ends moves on: it is kept, and stays finished with its bytes written. */
  predicate Onward(x: Option<Chan>, x1: Option<Chan>) {
    x.Some? && Finished(x.value) ==> x1.Some? && Finished(x1.value) && x1.value.written == x.value.written
  }

  lemma FinishedCallStep(s: System, i: Input, k: nat)
    requires Inv(s) && OfApp(i) && Enabled(s, i) && Usage(s, i) && Inv(ActA(s, i)) && k < |s.a.endOf|
    ensures k < |ActA(s, i).a.endOf| && Onward(EndAt(s.a, k), EndAt(ActA(s, i).a, k))
  {
    var c := s.a.peer.objs[i.obj];
    CallingHost(s, i);
    if Finished(c) { FinishedCall(c, i); }
  }

  lemma FinishedArrivalStep(s: System, k: nat)
    requires Inv(s) && Enabled(s, PacketArrives) && !s.b.wire[0].msg.OpenMessage?
    requires Inv(ActA(s, PacketArrives)) && k < |s.a.endOf|
    ensures k < |ActA(s, PacketArrives).a.endOf| && Onward(EndAt(s.a, k), EndAt(ActA(s, PacketArrives).a, k))
  {
    var c := EndAt(s.a, s.b.wire[0].link);
    ArrivingHost(s);
    if c.Some? && Finished(c.value) { FinishedHandling(c.value, s.b.wire[0].msg); }
  }

  lemma OnwardAtOpen(s: System, k: nat)
    requires Inv(s) && Enabled(s, PacketArrives) && s.b.wire[0].msg.OpenMessage?
    requires Inv(ActA(s, PacketArrives)) && k < |s.a.endOf|
    ensures k < |ActA(s, PacketArrives).a.endOf| && Onward(EndAt(s.a, k), EndAt(ActA(s, PacketArrives).a, k))
  {
    HeadOfWire(s);
  }

  /** A step of side a leaves the far ends alone, and finished ends finished. */
  lemma FinishedStep(s: System, i: Input, k: nat)
    requires Inv(s) && Enabled(s, i) && Usage(s, i) && Inv(ActA(s, i)) && k < |s.a.endOf|
    ensures k < |ActA(s, i).a.endOf| && Onward(EndAt(s.a, k), EndAt(ActA(s, i).a, k))
    ensures EndAt(s.b, k).Some? ==> EndAt(ActA(s, i).b, k) == EndAt(s.b, k)
  {
    if OfApp(i) {
      FinishedCallStep(s, i, k);
    } else if i.PacketArrives? {
      if s.b.wire[0].msg.OpenMessage? { OnwardAtOpen(s, k); } else { FinishedArrivalStep(s, k); }
    } else if i.Accepts? {
      AcceptingOK(s.a);
    } else {
      OnwardAtOpening(s, k);
    }
  }

  lemma OnwardAtOpening(s: System, k: nat)
    requires Inv(s) && Inv(ActA(s, Opens)) && k < |s.a.endOf|
    ensures k < |ActA(s, Opens).a.endOf| && EndAt(ActA(s, Opens).a, k) == EndAt(s.a, k)
    ensures EndAt(ActA(s, Opens).b, k) == EndAt(s.b, k)
  {
  }

  lemma {:induction false} FinishedForever(s: System, left: bool, k: nat, ms: seq<Move>)
    requires Inv(s) && IsRun(s, ms) && Disciplined(s, ms) && k < |s.a.endOf|
    requires EndAt(View(s, left).a, k).Some? && Finished(EndAt(View(s, left).a, k).value)
    ensures Inv(After(s, ms)) && k < |After(s, ms).a.endOf|
    ensures var x := EndAt(View(After(s, ms), left).a, k);
            x.Some? && x.value.written == EndAt(View(s, left).a, k).value.written
    decreases |ms|
  {
    if ms != [] {
      var m := ms[0];
      DoKeeps(s, m);
      if !m.left { SwapInv(s); SwapInv(Do(s, m)); }
      FinishedStep(View(s, m.left), m.input, k);
      FinishedForever(Do(s, m), left, k, ms[1..]);
    }
  }

  lemma EofFinishes(v: System, k: nat, want: nat)
    requires Inv(v) && k < |v.a.endOf| && EndAt(v.a, k).Some? && EndAt(v.b, k).Some?
    requires ReadOp(EndAt(v.b, k).value, want).eof
    ensures var x := EndAt(v.a, k).value; x.written == EndAt(v.b, k).value.read && Finished(x)
  {
    BothEnds(v, k);
    var y := EndAt(v.b, k).value;
    NoPayload(Flow(v.a.wire, k));
    assert y.read + [] + [] == y.read;
  }

  /** A Read that returns EOF has everything: every byte the far end ever wrote has been read,
      and on every continuation of the run it writes no more. */
  lemma EofIsFinal(s: System, left: bool, k: nat, want: nat, ms: seq<Move>)
    requires Reachable(s) && k < |View(s, left).a.endOf| && Indexed(s.a) && Indexed(s.b)
    requires EndAt(View(s, left).a, k).Some? && EndAt(View(s, left).b, k).Some?
    requires ReadOp(EndAt(View(s, left).b, k).value, want).eof
    requires IsRun(s, ms) && Disciplined(s, ms)
    ensures var x := EndAt(View(s, left).a, k).value; var y := EndAt(View(s, left).b, k).value;
            x.written == y.read
    ensures Inv(After(s, ms)) && k < |After(s, ms).a.endOf|
    ensures EndAt(View(After(s, ms), left).a, k).Some?
    ensures EndAt(View(After(s, ms), left).a, k).value.written == EndAt(View(s, left).b, k).value.read
  {
    ReachableInv(s, true);
    ReachableInv(s, left);
    EofFinishes(View(s, left), k, want);
    FinishedForever(s, left, k, ms);
  }

  /** The end of a stream is told: once an end has sent EOF or Close the other end knows it, or the
      message that says so is on its way, and only then; and a Close by the application is sent. */
  lemma EndIsTold(s: System, left: bool, k: nat)
    requires Reachable(s) && k < |View(s, left).a.endOf| && Indexed(s.a) && Indexed(s.b)
    requires EndAt(View(s, left).a, k).Some? && EndAt(View(s, left).b, k).Some?
    ensures var v := View(s, left); var x := EndAt(v.a, k).value; var y := EndAt(v.b, k).value;
            && (x.sentEOF || x.sentClose <==> y.pendingClosed || EndComing(Flow(v.a.wire, k)))
            && (x.appClosed ==> x.sentClose)
  {
    ReachableInv(s, left);
    ReachableInv(s, !left);
    EndTold(View(s, left), k);
  }

  lemma EndTold(v: System, k: nat)
    requires Inv(v) && k < |v.a.endOf| && EndAt(v.a, k).Some? && EndAt(v.b, k).Some?
    ensures var x := EndAt(v.a, k).value; var y := EndAt(v.b, k).value;
            && (x.sentEOF || x.sentClose <==> y.pendingClosed || EndComing(Flow(v.a.wire, k)))
            && (x.appClosed ==> x.sentClose) && (x.sentClose && Flow(v.a.wire, k) == [] ==> y.credit.closed)
  {
    BothEnds(v, k);
    assert LinkAt(v, k);
    var x, y, xy := EndAt(v.a, k).value, EndAt(v.b, k).value, Flow(v.a.wire, k);
    assert EndOK(y);
    EndWasSent(x, y, xy);
    if xy != [] && xy[|xy| - 1].CloseMessage? { assert EndComing(xy); }
  }

  lemma EndWasSent(x: Chan, y: Chan, xy: seq<Message>)
    requires EndComing(xy) ==> forall i :: 0 <= i < |xy| ==> ItemOK(xy[i], x, y)
    ensures EndComing(xy) ==> x.sentEOF || x.sentClose
  {
    if i :| 0 <= i < |xy| && (xy[i].EOFMessage? || xy[i].CloseMessage?) { assert ItemOK(xy[i], x, y); }
  }

  /** So after the far end's CloseWrite or Close, with all it sent delivered and read, a Read of a
      non-empty slice does not wait: it returns EOF, and the bytes read are all that were written. */
  lemma EofComes(s: System, left: bool, k: nat, want: nat)
    requires Reachable(s) && k < |View(s, left).a.endOf| && Indexed(s.a) && Indexed(s.b) && want > 0
    requires EndAt(View(s, left).a, k).Some? && EndAt(View(s, left).b, k).Some?
    requires EndAt(View(s, left).a, k).value.sentEOF || EndAt(View(s, left).a, k).value.appClosed
    requires Flow(View(s, left).a.wire, k) == [] && EndAt(View(s, left).b, k).value.pending == []
    ensures var x := EndAt(View(s, left).a, k).value; var y := EndAt(View(s, left).b, k).value;
            ReadOp(y, want) == Effect(y, [], true) && y.read == x.written
  {
    ReachableInv(s, left);
    EndTold(View(s, left), k);
    BothEnds(View(s, left), k);
    var y := EndAt(View(s, left).b, k).value;
    assert y.pendingClosed && y.pending[0..] == [] && y.read + [] == y.read && y.read + [] + [] == y.read;
  }

  /** The handshake of Close completes: once either end has sent it and nothing more is in flight,
      both ends are closed, and in no slot of their tables. */
  lemma CloseCompletes(s: System, left: bool, k: nat)
    requires Reachable(s) && k < |View(s, left).a.endOf| && Indexed(s.a) && Indexed(s.b)
    requires EndAt(View(s, left).a, k).Some? && EndAt(View(s, left).b, k).Some?
    requires EndAt(View(s, left).a, k).value.sentClose
    requires Flow(View(s, left).a.wire, k) == [] && Flow(View(s, left).b.wire, k) == []
    ensures var v := View(s, left);
            && EndAt(v.a, k).value.credit.closed && EndAt(v.b, k).value.credit.closed
            && v.a.endOf[k] !in v.a.peer.table && v.b.endOf[k] !in v.b.peer.table
  {
    ReachableInv(s, left);
    ReachableInv(s, !left);
    EndTold(View(s, left), k);
    BothEnds(View(s, !left), k);
    EndTold(View(s, !left), k);
  }

  /** The handshake of Open completes: with nothing of an opening in flight, and no loop waiting for room
      for its channel, both ends exist and each has the other's id. */
  lemma OpenCompletes(s: System, left: bool, k: nat)
    requires Reachable(s) && k < |View(s, left).a.endOf| && Indexed(s.a) && Indexed(s.b)
    requires Flow(View(s, left).a.wire, k) == [] && Flow(View(s, left).b.wire, k) == []
    requires !WaitsOn(s.a, k) && !WaitsOn(s.b, k)
    ensures var v := View(s, left);
            && EndAt(v.a, k).Some? && EndAt(v.b, k).Some?
            && var x := EndAt(v.a, k).value; var y := EndAt(v.b, k).value;
               x.outbound != y.outbound && x.remoteId == y.localId && y.remoteId == x.localId
  {
    ReachableInv(s, left);
    assert LinkAt(View(s, left), k);
  }

  // ---- Credit ----

  /** Credit is conserved over both sides: until the receiver has sent Close, the sender's window,
      the data in flight, the unread bytes, those just read and the grants in flight, or waiting to be
      sent, make up the whole window; afterwards they are at most that. Before the open has arrived,
      it carries the whole grant. */
  lemma CreditConserved(s: System, left: bool, k: nat)
    requires Reachable(s) && k < |View(s, left).a.endOf| && Indexed(s.a) && Indexed(s.b)
    ensures var v := View(s, left);
            EndAt(v.a, k).Some? && EndAt(v.b, k).Some? ==>
              var x := EndAt(v.a, k).value; var y := EndAt(v.b, k).value;
              var sum := x.credit.win + |Payload(Flow(v.a.wire, k))| + |y.pending| + y.owed
                         + Grants(Flow(v.b.wire, k)) + Waiting(v.b, k);
              sum <= WINDOW_SIZE && (!y.sentClose ==> sum == WINDOW_SIZE)
    ensures var v := View(s, left);
            EndAt(v.b, k).None? ==> EndAt(v.a, k).Some? && Grants(Flow(v.a.wire, k)) == WINDOW_SIZE
  {
    var v := View(s, left);
    ReachableInv(s, left);
    if EndAt(v.b, k).None? { NotArrived(v, k); } else if EndAt(v.a, k).Some? { BothEnds(v, k); }
  }

  /** A writer with no credit, to a receiver that has not sent Close, is owed it: there is data in
      flight or unread, a Read yet to grant back what it took, or a grant on its way
      or waiting to be sent; and when nothing is, the full window is back. */
  lemma CreditComesBack(s: System, left: bool, k: nat)
    requires Reachable(s) && k < |View(s, left).a.endOf| && Indexed(s.a) && Indexed(s.b)
    requires EndAt(View(s, left).a, k).Some? && EndAt(View(s, left).b, k).Some?
    requires !EndAt(View(s, left).b, k).value.sentClose
    ensures var v := View(s, left); var x := EndAt(v.a, k).value; var y := EndAt(v.b, k).value;
            && (x.credit.win == 0 ==>
                  || (exists m :: m in Flow(v.a.wire, k) && m.DataMessage?) || y.pending != [] || y.owed > 0
                  || (exists m :: m in Flow(v.b.wire, k) && GrantOf(m) > 0) || WaitsOn(v.b, k))
            && ((Flow(v.a.wire, k) == [] && Flow(v.b.wire, k) == [] && y.pending == [] && y.owed == 0
                 && !WaitsOn(v.b, k)) ==> x.credit.win == WINDOW_SIZE)
  {
    var v := View(s, left);
    CreditConserved(s, left, k);
    if forall m :: m in Flow(v.a.wire, k) ==> !m.DataMessage? { NoPayload(Flow(v.a.wire, k)); }
    if forall m :: m in Flow(v.b.wire, k) ==> GrantOf(m) == 0 { NoGrants(Flow(v.b.wire, k)); }
  }

  /** A Write that waits, on any channel, is owed what will wake it: credit, as above, or the peer's Close
      on its way. */
  lemma WaitingWriteIsOwed(s: System, left: bool, k: nat, data: seq<byte>)
    requires Reachable(s) && k < |View(s, left).a.endOf| && Indexed(s.a) && Indexed(s.b)
    requires EndAt(View(s, left).a, k).Some? && EndAt(View(s, left).b, k).Some?
    requires data != [] && !WriteRuns(EndAt(View(s, left).a, k).value, data)
    ensures var v := View(s, left); var y := EndAt(v.b, k).value;
            || (exists m :: m in Flow(v.a.wire, k) && m.DataMessage?) || y.pending != [] || y.owed > 0
            || (exists m :: m in Flow(v.b.wire, k) && (GrantOf(m) > 0 || m.CloseMessage?)) || WaitsOn(v.b, k)
  {
    var v := View(s, left);
    if EndAt(v.b, k).value.sentClose {
      ReachableInv(s, !left);
      BothEnds(View(s, !left), k);
      var yx := Flow(v.b.wire, k);
      assert yx[|yx| - 1] in yx;
    } else {
      CreditComesBack(s, left, k);
    }
  }

  lemma {:induction false} NoGrants(ms: seq<Message>)
    requires forall m :: m in ms ==> GrantOf(m) == 0
    ensures Grants(ms) == 0
  {
    if ms != [] { NoGrants(ms[1..]); }
  }

  // ---- Bytes on the wire ----

  function Messages(w: seq<Tagged>): seq<Message> {
    seq(|w|, i requires 0 <= i < |w| => w[i].msg)
  }

  /** The bytes of each wire decode to the very messages sent, so delivering messages is
      delivering bytes. */
  lemma WireDecodes(s: System, left: bool)
    requires Reachable(s)
    ensures var w := Messages(View(s, left).b.wire); DecodeAll(EncodingAll(w)) == Some(w)
    ensures var w := Messages(View(s, left).b.wire);
            w != [] ==> NextMessage(EncodingAll(w)) == Got(w[0], EncodingAll(w[1..]))
  {
    var v := View(s, left);
    var w := Messages(v.b.wire);
    ReachableInv(s, left);
    forall i | 0 <= i < |w| ensures w[i].WellFormed() {
      InFlight(v, i);
    }
    FramingBijection(EncodingAll(w), w);
    if w != [] { FramingOne(w[0], EncodingAll(w[1..])); }
  }

  // ---- The sides are sessions ----

  /** A side as a session on its own: its stream is the bytes of the other side's wire. */
  function AsRunning(v: System, sent: seq<byte>): Running {
    Running(v.a.peer, EncodingAll(Messages(v.b.wire)), v.a.loop, sent)
  }

  lemma MessagesSent(w: seq<Tagged>, out: seq<Message>, k: nat)
    ensures Messages((w + Tag(out, k))[|w|..]) == out
  {
    assert (w + Tag(out, k))[|w|..] == Tag(out, k);
  }

  /** What side a's step i puts on its wire. */
  function Emitted(v: System, i: Input): seq<Message>
    requires Enabled(v, i) && |v.a.peer.objs| == |v.a.linkOf|
  {
    var w := ActA(v, i).a.wire;
    if |w| < |v.a.wire| then [] else Messages(w[|v.a.wire|..])
  }

  predicate Agree(v: System, i: Input, sent: seq<byte>)
    requires Enabled(v, i) && |v.a.peer.objs| == |v.a.linkOf|
  {
    && TableInRange(v.a.peer)
    && Step(AsRunning(v, sent), i) == AsRunning(ActA(v, i), sent + EncodingAll(Emitted(v, i)))
  }

  lemma HeadDecodes(v: System)
    requires Inv(v) && v.b.wire != []
    ensures NextMessage(EncodingAll(Messages(v.b.wire)))
            == Got(v.b.wire[0].msg, EncodingAll(Messages(v.b.wire[1..])))
  {
    InFlight(v, 0);
    assert Messages(v.b.wire)[1..] == Messages(v.b.wire[1..]);
    FramingOne(v.b.wire[0].msg, EncodingAll(Messages(v.b.wire[1..])));
  }

  lemma PacketAgrees(v: System, sent: seq<byte>)
    requires Inv(v) && Enabled(v, PacketArrives)
    ensures Agree(v, PacketArrives, sent)
  {
    HeadDecodes(v);
    HeadHandled(v);
    HeadOfWire(v);
    PacketEmits(v);
  }

  lemma PacketEmits(v: System)
    requires Inv(v) && Enabled(v, PacketArrives) && TableInRange(v.a.peer)
    ensures Emitted(v, PacketArrives) == Receive(v.a.peer, v.b.wire[0].msg).out
  {
    var m, k := v.b.wire[0].msg, v.b.wire[0].link;
    var q := Receive(v.a.peer, m);
    if !m.OpenMessage? {
      HeadFindsItsChannel(v);
      assert q.actor.Some? && q.actor.value < |v.a.linkOf| && v.a.linkOf[q.actor.value] == k;
    }
    assert ActA(v, PacketArrives).a.wire == v.a.wire + Tag(q.out, k);
    MessagesSent(v.a.wire, q.out, k);
  }

  lemma CallAgrees(v: System, i: Input, sent: seq<byte>)
    requires Inv(v) && OfApp(i) && Enabled(v, i)
    ensures Agree(v, i, sent)
  {
    var e := AppEffect(v.a.peer.objs[i.obj], i);
    MessagesSent(v.a.wire, e.out, v.a.linkOf[i.obj]);
    assert ActA(v, i).a.wire == v.a.wire + Tag(e.out, v.a.linkOf[i.obj]);
    assert Resumed(Call(AsRunning(v, sent), i)) == Call(AsRunning(v, sent), i);
  }

  lemma AcceptAgrees(v: System, sent: seq<byte>)
    requires Inv(v) && Enabled(v, Accepts)
    ensures Agree(v, Accepts, sent)
  {
    AcceptingOK(v.a);
    if v.a.loop.Queueing? {
      var o := v.a.loop.obj;
      MessagesSent(v.a.wire, [OpenReply(v.a.peer.objs[o])], v.a.linkOf[o]);
    } else {
      MessagesSent(v.a.wire, [], 0);
      assert v.a.wire + Tag([], 0) == v.a.wire;
      assert sent + EncodingAll([]) == sent;
    }
  }

  lemma OpenAgrees(v: System, sent: seq<byte>)
    requires Inv(v)
    ensures Agree(v, Opens, sent)
  {
    var open, k := OpenRequest(OpenedChannel(NextId(v.a.peer))), |v.a.endOf|;
    assert [Tagged(open, k)] == Tag([open], k);
    MessagesSent(v.a.wire, [open], k);
  }

  /** Each step of a side, in every reachable state, is the step of the session on its own whose stream
      is the bytes on the other side's wire, waits of its loop included; so what holds against any
      peer holds of each side, and the two-sided system runs the same code. */
  lemma SidesAreSessions(s: System, left: bool, i: Input, sent: seq<byte>)
    requires Reachable(s) && Enabled(View(s, left), i) && |View(s, left).a.peer.objs| == |View(s, left).a.linkOf|
    ensures Agree(View(s, left), i, sent)
  {
    ReachableInv(s, left);
    var v := View(s, left);
    match i
    case PacketArrives => PacketAgrees(v, sent);
    case Opens => OpenAgrees(v, sent);
    case Accepts => AcceptAgrees(v, sent);
    case _ => CallAgrees(v, i, sent);
  }
}
