/** Two session ends joined by two lossless FIFO wires, and every run of them. */
module SystemSpec {
  import opened Bytes
  import opened Codec
  import opened ChanTable
  import opened FlowWindow
  import opened ChannelSpec
  import opened SessionSpec
  import opened LinkSpec

  /** A message in flight. `link` records, as history only, the opening it belongs to: no step looks at it. */
  datatype Tagged = Tagged(msg: Message, link: nat)

  /** One side: its session end with its loop, the channels its application holds, and the wire it
      writes to. `linkOf` and `endOf` relate channel objects to openings; like the tags they are history. */
  datatype Host = Host(peer: Peer, loop: LoopState, held: set<nat>, linkOf: seq<nat>, endOf: seq<Option<nat>>,
                       wire: seq<Tagged>)

  datatype System = System(a: Host, b: Host)

  const NEW_HOST := Host(NEW_PEER, Reading, {}, [], [], [])
  const NEW_SYSTEM := System(NEW_HOST, NEW_HOST)

  function Swap(s: System): System {
    System(s.b, s.a)
  }

  function Tag(ms: seq<Message>, k: nat): seq<Tagged> {
    seq(|ms|, i requires 0 <= i < |ms| => Tagged(ms[i], k))
  }

  /** The messages of one opening on a wire. */
  function Flow(w: seq<Tagged>, k: nat): seq<Message> {
    if w == [] then [] else (if w[0].link == k then [w[0].msg] else []) + Flow(w[1..], k)
  }

  // ---- Steps of side a ----

  /** When a step of side a can happen at all. */
  predicate Enabled(s: System, i: Input) {
    match i
    case PacketArrives => s.a.loop.Reading? && s.b.wire != [] && TableInRange(s.a.peer)
    case Opens => true
    case Accepts => s.a.peer.inbox != []
    case Takes(obj) => obj < |s.a.peer.objs| && obj !in s.a.held && s.a.peer.objs[obj].msgs != []
    case Writes(obj, data) => obj in s.a.held && obj < |s.a.peer.objs| && WriteRuns(s.a.peer.objs[obj], data)
    case Reads(obj, want) =>
      && obj in s.a.held && obj < |s.a.peer.objs|
      && (want == 0 || s.a.peer.objs[obj].pending != [] || s.a.peer.objs[obj].pendingClosed)
    case GivesBack(obj, n) => obj in s.a.held && obj < |s.a.peer.objs| && 0 < n <= s.a.peer.objs[obj].owed
    case ClosesWrite(obj) => obj in s.a.held && obj < |s.a.peer.objs|
    case Closes(obj) => obj in s.a.held && obj < |s.a.peer.objs|
  }

  /** The documented rule for applications: nothing is written after one's own Close or CloseWrite,
      by a Write still under way either. */
  predicate Usage(s: System, i: Input)
    requires Enabled(s, i)
  {
    i.Writes? ==> !s.a.peer.objs[i.obj].appClosed && !s.a.peer.objs[i.obj].sentEOF
  }

  /** The application comes to hold a channel. */
  function Holding(h: Host, o: nat): Host {
    h.(held := h.held + {o})
  }

  /** A host making a call: once Open takes its answer the application holds the channel. */
  function Caller(h: Host, i: Input): Host
    requires OfApp(i)
  {
    if i.Takes? then Holding(h, i.obj) else h
  }

  function AppHost(h: Host, obj: nat, e: Effect): Host
    requires obj < |h.peer.objs| == |h.linkOf|
  {
    h.(peer := h.peer.(objs := h.peer.objs[obj := e.ch]), wire := h.wire + Tag(e.out, h.linkOf[obj]))
  }

  /** A host that accepts a channel; a loop that waits for room in the inbox goes on. */
  function Accepting(h: Host): Host
    requires h.peer.inbox != []
  {
    var h1 := Holding(h.(peer := h.peer.(inbox := h.peer.inbox[1..])), h.peer.inbox[0]);
    if h.loop.Queueing? && h.loop.obj < |h.peer.objs| == |h.linkOf| && |h1.peer.inbox| < CHAN_SIZE then
      h1.(peer := h1.peer.(inbox := h1.peer.inbox + [h.loop.obj]), loop := Reading,
          wire := h.wire + Tag([OpenReply(h.peer.objs[h.loop.obj])], h.linkOf[h.loop.obj]))
    else h1
  }

  /** The receiving host: a channel made for an open joins the opening of the packet that made it. */
  function Receiving(h: Host, q: Received, k: nat): Host {
    if q.actor.None? then h.(peer := q.p, wire := h.wire + Tag(q.out, k))
    else if q.actor.value < |h.linkOf| then h.(peer := q.p, wire := h.wire + Tag(q.out, h.linkOf[q.actor.value]))
    else
      h.(peer := q.p, linkOf := h.linkOf + [k],
         endOf := if k < |h.endOf| then h.endOf[k := q.actor] else h.endOf, wire := h.wire + Tag(q.out, k))
  }

  function ActA(s: System, i: Input): System
    requires Enabled(s, i) && |s.a.peer.objs| == |s.a.linkOf|
  {
    match i
    case PacketArrives =>
      var m := s.b.wire[0].msg;
      var q := Receive(s.a.peer, m);
      System(Receiving(s.a, q, s.b.wire[0].link).(loop := LoopAfter(q, m)), s.b.(wire := s.b.wire[1..]))
    case Opens =>
      var c := OpenedChannel(NextId(s.a.peer));
      System(s.a.(peer := StartOpen(s.a.peer), linkOf := s.a.linkOf + [|s.a.endOf|],
                  endOf := s.a.endOf + [Some(|s.a.peer.objs|)],
                  wire := s.a.wire + [Tagged(OpenRequest(c), |s.a.endOf|)]),
             s.b.(endOf := s.b.endOf + [None]))
    case Accepts => s.(a := Accepting(s.a))
    case _ =>
      s.(a := AppHost(Caller(s.a, i), i.obj, AppEffect(s.a.peer.objs[i.obj], i)))
  }

  // ---- The invariant ----

  /** Openings and channel objects correspond, one to one on each side. */
  predicate Indexed(h: Host) {
    && |h.linkOf| == |h.peer.objs|
    && (forall o :: 0 <= o < |h.linkOf| ==> h.linkOf[o] < |h.endOf| && h.endOf[h.linkOf[o]] == Some(o))
    && (forall k :: 0 <= k < |h.endOf| && h.endOf[k].Some? ==>
          h.endOf[k].value < |h.linkOf| && h.linkOf[h.endOf[k].value] == k)
  }

  /** A channel is in the table, at its id, exactly until it has received Close. */
  predicate Slotted(objs: seq<Chan>, table: Table<nat>) {
    && |table| < TWO_32
    && (forall i :: 0 <= i < |table| && table[i].Some? ==>
          table[i].value < |objs| && objs[table[i].value].localId == i && !objs[table[i].value].credit.closed)
    && (forall o :: 0 <= o < |objs| && !objs[o].credit.closed ==>
          objs[o].localId < |table| && table[objs[o].localId] == Some(o))
  }

  predicate AppsOK(h: Host) {
    && (forall o :: o in h.held ==> o < |h.peer.objs| && Established(h.peer.objs[o]))
    && (forall i :: 0 <= i < |h.peer.inbox| ==>
          h.peer.inbox[i] < |h.peer.objs| && Established(h.peer.objs[h.peer.inbox[i]]))
    && (forall o :: 0 <= o < |h.peer.objs| && o !in h.held ==> Answered(h.peer.objs[o]))
    && |h.peer.inbox| <= CHAN_SIZE
  }

  /** The loop reads, or waits to put into the full inbox a channel that nobody else has. */
  predicate LoopOK(h: Host) {
    match h.loop
    case Reading => true
    case Queueing(o) =>
      && o < |h.peer.objs| && Established(h.peer.objs[o])
      && o !in h.held && o !in h.peer.inbox && |h.peer.inbox| == CHAN_SIZE
    case _ => false
  }

  predicate WireOK(w: seq<Tagged>, links: nat) {
    forall i :: 0 <= i < |w| ==> w[i].link < links
  }

  predicate HostOK(h: Host) {
    Indexed(h) && Slotted(h.peer.objs, h.peer.table) && AppsOK(h) && LoopOK(h) && WireOK(h.wire, |h.endOf|)
  }

  function EndAt(h: Host, k: nat): Option<Chan>
    requires Indexed(h)
  {
    if k < |h.endOf| && h.endOf[k].Some? then Some(h.peer.objs[h.endOf[k].value]) else None
  }

  /** The loop waits for room for this opening's channel. */
  predicate WaitsOn(h: Host, k: nat) {
    h.loop.Queueing? && k < |h.endOf| && h.endOf[k] == Some(h.loop.obj)
  }

  predicate LinkAt(s: System, k: nat)
    requires Indexed(s.a) && Indexed(s.b)
  {
    var x, y, xy, yx := EndAt(s.a, k), EndAt(s.b, k), Flow(s.a.wire, k), Flow(s.b.wire, k);
    if WaitsOn(s.a, k) then Unconfirmed(y, x, yx, xy)
    else if WaitsOn(s.b, k) then Unconfirmed(x, y, xy, yx)
    else LinkOK(x, y, xy, yx)
  }

  predicate Inv(s: System) {
    && HostOK(s.a) && HostOK(s.b) && |s.a.endOf| == |s.b.endOf|
    && forall k :: 0 <= k < |s.a.endOf| ==> LinkAt(s, k)
  }

  /** The grant in a confirm that its side waits to send. */
  function Waiting(h: Host, k: nat): nat {
    if WaitsOn(h, k) then WINDOW_SIZE else 0
  }

  /** What holds of an opening both of whose ends exist, confirmed or not. */
  lemma BothEnds(s: System, k: nat)
    requires Inv(s) && k < |s.a.endOf| && EndAt(s.a, k).Some? && EndAt(s.b, k).Some?
    ensures var x, y := EndAt(s.a, k).value, EndAt(s.b, k).value;
            var xy, yx := Flow(s.a.wire, k), Flow(s.b.wire, k);
            && EndOK(x) && Closing(x, y, xy) && StreamOK(x, y, xy)
            && CreditAround(x, y, xy, yx) + Waiting(s.b, k) <= WINDOW_SIZE
            && (!y.sentClose ==> CreditAround(x, y, xy, yx) + Waiting(s.b, k) == WINDOW_SIZE)
  {
    assert LinkAt(s, k);
    FirstGrant(WINDOW_SIZE);
  }

  /** An open that has not arrived carries the whole grant. */
  lemma NotArrived(s: System, k: nat)
    requires Inv(s) && k < |s.a.endOf| && EndAt(s.b, k).None?
    ensures EndAt(s.a, k).Some? && Grants(Flow(s.a.wire, k)) == WINDOW_SIZE
  {
    assert LinkAt(s, k);
    var open := OpenRequest(EndAt(s.a, k).value);
    PayloadSnoc([], open);
    assert [] + [open] == Flow(s.a.wire, k);
  }

  /** The tables have not run out of 32-bit ids. */
  predicate Fits(s: System) {
    |s.a.peer.table| < TWO_32 && |s.b.peer.table| < TWO_32
  }

  lemma SwapInv(s: System)
    requires Inv(s)
    ensures Inv(Swap(s))
  {
    forall k | 0 <= k < |s.a.endOf| ensures LinkAt(Swap(s), k) {
      assert LinkAt(s, k);
    }
  }

  lemma {:induction false} FlowAppend(w: seq<Tagged>, v: seq<Tagged>, k: nat)
    ensures Flow(w + v, k) == Flow(w, k) + Flow(v, k)
  {
    if w == [] {
      assert w + v == v;
    } else {
      assert (w + v)[1..] == w[1..] + v;
      FlowAppend(w[1..], v, k);
      Assoc(if w[0].link == k then [w[0].msg] else [], Flow(w[1..], k), Flow(v, k));
    }
  }

  lemma {:induction false} FlowTag(ms: seq<Message>, k: nat, j: nat)
    ensures Flow(Tag(ms, k), j) == if j == k then ms else []
  {
    if ms != [] {
      assert Tag(ms, k)[1..] == Tag(ms[1..], k);
      FlowTag(ms[1..], k, j);
    }
  }

  lemma FlowSent(w: seq<Tagged>, ms: seq<Message>, k: nat, j: nat)
    ensures Flow(w + Tag(ms, k), j) == if j == k then Flow(w, j) + ms else Flow(w, j)
  {
    FlowAppend(w, Tag(ms, k), j);
    FlowTag(ms, k, j);
    assert Flow(w, j) + [] == Flow(w, j);
  }

  lemma {:induction false} FlowFresh(w: seq<Tagged>, k: nat)
    requires WireOK(w, k)
    ensures Flow(w, k) == []
  {
    if w != [] { FlowFresh(w[1..], k); }
  }

  // ---- Every step keeps it ----

  lemma AppHostOK(h: Host, obj: nat, e: Effect)
    requires HostOK(h) && obj < |h.peer.objs|
    requires var c := h.peer.objs[obj];
             e.ch.localId == c.localId && e.ch.credit.closed == c.credit.closed
             && (Established(c) ==> Established(e.ch)) && (obj !in h.held ==> Answered(e.ch))
    ensures HostOK(AppHost(h, obj, e))
    ensures forall j: nat :: EndAt(AppHost(h, obj, e), j) == if j == h.linkOf[obj] then Some(e.ch) else EndAt(h, j)
  {
    var h1 := AppHost(h, obj, e);
    assert Slotted(h1.peer.objs, h1.peer.table);
    forall j: nat ensures EndAt(h1, j) == if j == h.linkOf[obj] then Some(e.ch) else EndAt(h, j) {
      if j != h.linkOf[obj] && j < |h.endOf| { assert h.endOf[j] != Some(obj); }
    }
  }

  /** A step of one channel of side a that stays in its slot. */
  lemma AppHostKeeps(s: System, obj: nat, e: Effect)
    requires Inv(s) && obj < |s.a.peer.objs|
    requires var c := s.a.peer.objs[obj];
             e.ch.localId == c.localId && e.ch.credit.closed == c.credit.closed
             && (Established(c) ==> Established(e.ch)) && (obj !in s.a.held ==> Answered(e.ch))
    requires var k := s.a.linkOf[obj];
             && !WaitsOn(s.a, k) && !WaitsOn(s.b, k)
             && LinkOK(Some(e.ch), EndAt(s.b, k), Flow(s.a.wire, k) + e.out, Flow(s.b.wire, k))
    ensures Inv(s.(a := AppHost(s.a, obj, e)))
  {
    var s1 := s.(a := AppHost(s.a, obj, e));
    AppHostOK(s.a, obj, e);
    forall j | 0 <= j < |s.a.endOf| ensures LinkAt(s1, j) {
      assert LinkAt(s, j);
      FlowSent(s.a.wire, e.out, s.a.linkOf[obj], j);
    }
  }

  /** The channel named by an application's call, and the far end of its link. */
  lemma Called(s: System, i: Input)
    requires Inv(s) && OfApp(i) && Enabled(s, i)
    ensures var k := s.a.linkOf[i.obj];
            && k < |s.a.endOf| && EndAt(s.a, k) == Some(s.a.peer.objs[i.obj])
            && Established(s.a.peer.objs[i.obj]) && EndAt(s.b, k).Some?
            && !WaitsOn(s.a, k) && !WaitsOn(s.b, k)
            && Joined(s.a.peer.objs[i.obj], EndAt(s.b, k).value, Flow(s.a.wire, k), Flow(s.b.wire, k))
  {
    EndShape(s, s.a.linkOf[i.obj]);
    assert LinkAt(s, s.a.linkOf[i.obj]);
  }

  /** Holding one more established channel changes nothing else. */
  lemma HoldKeeps(s: System, o: nat)
    requires Inv(s) && o < |s.a.peer.objs| && Established(s.a.peer.objs[o]) && s.a.loop != Queueing(o)
    ensures Inv(s.(a := Holding(s.a, o)))
  {
    var s1 := s.(a := Holding(s.a, o));
    forall j | 0 <= j < |s.a.endOf| ensures LinkAt(s1, j) {
      assert LinkAt(s, j);
    }
  }

  /** A host making a call is as sound as before, and holds the channel it calls. */
  lemma CallerKeeps(s: System, i: Input)
    requires Inv(s) && OfApp(i) && Enabled(s, i)
    ensures Inv(s.(a := Caller(s.a, i))) && i.obj in Caller(s.a, i).held
    ensures forall j: nat :: EndAt(Caller(s.a, i), j) == EndAt(s.a, j)
  {
    if i.Takes? {
      Called(s, i);
      HoldKeeps(s, i.obj);
    }
  }

  /** What a call of side a makes of its host. */
  lemma CallingHost(s: System, i: Input)
    requires Inv(s) && OfApp(i) && Enabled(s, i)
    ensures var h1 := ActA(s, i).a; var k := s.a.linkOf[i.obj];
            && HostOK(h1) && |h1.endOf| == |s.a.endOf| && ActA(s, i).b == s.b && k < |s.a.endOf|
            && EndAt(s.a, k) == Some(s.a.peer.objs[i.obj])
            && forall j: nat ::
                 EndAt(h1, j) == if j == k then Some(AppEffect(s.a.peer.objs[i.obj], i).ch) else EndAt(s.a, j)
  {
    var c := s.a.peer.objs[i.obj];
    Called(s, i);
    CalledEnd(c, i);
    CallerKeeps(s, i);
    AppHostOK(Caller(s.a, i), i.obj, AppEffect(c, i));
  }

  lemma AppKeeps(s: System, i: Input)
    requires Inv(s) && OfApp(i) && Enabled(s, i) && Usage(s, i)
    ensures Inv(ActA(s, i))
  {
    var k := s.a.linkOf[i.obj];
    var c := s.a.peer.objs[i.obj];
    Called(s, i);
    AppStep(c, EndAt(s.b, k).value, Flow(s.a.wire, k), Flow(s.b.wire, k), i);
    CalledEnd(c, i);
    CallerKeeps(s, i);
    AppHostKeeps(s.(a := Caller(s.a, i)), i.obj, AppEffect(c, i));
  }

  lemma EndShape(s: System, k: nat)
    requires Inv(s) && k < |s.a.endOf| && EndAt(s.a, k).Some?
    ensures var c := EndAt(s.a, k).value; !Established(c) ==> c == OpenedChannel(c.localId)
    ensures Established(EndAt(s.a, k).value) ==> EndAt(s.b, k).Some?
  {
    assert LinkAt(s, k);
  }

  lemma AcceptingOK(h: Host)
    requires HostOK(h) && h.peer.inbox != []
    ensures HostOK(Accepting(h)) && Accepting(h).loop.Reading?
    ensures Accepting(h).endOf == h.endOf
    ensures forall j: nat :: EndAt(Accepting(h), j) == EndAt(h, j)
    ensures Accepting(h).wire
            == if h.loop.Queueing?
               then h.wire + Tag([OpenReply(h.peer.objs[h.loop.obj])], h.linkOf[h.loop.obj]) else h.wire
  {
  }

  /** The channel that waited joins its opener. */
  lemma ConfirmedLink(s: System)
    requires Inv(s) && s.a.peer.inbox != [] && s.a.loop.Queueing?
    ensures LinkAt(ActA(s, Accepts), s.a.linkOf[s.a.loop.obj])
  {
    var o := s.a.loop.obj;
    var j := s.a.linkOf[o];
    assert LinkAt(s, j);
    AcceptingOK(s.a);
    FlowSent(s.a.wire, [OpenReply(s.a.peer.objs[o])], j, j);
    assert [] + [OpenReply(s.a.peer.objs[o])] == [OpenReply(s.a.peer.objs[o])];
    OpenArrives(EndAt(s.b, j).value, s.a.peer.objs[o].localId);
  }

  lemma UntouchedLink(s: System, j: nat)
    requires Inv(s) && s.a.peer.inbox != [] && j < |s.a.endOf| && !WaitsOn(s.a, j)
    ensures LinkAt(ActA(s, Accepts), j)
  {
    assert LinkAt(s, j);
    AcceptingOK(s.a);
    if s.a.loop.Queueing? {
      FlowSent(s.a.wire, [OpenReply(s.a.peer.objs[s.a.loop.obj])], s.a.linkOf[s.a.loop.obj], j);
    }
  }

  /** Accept, and with it the end of a wait. */
  lemma AcceptKeeps(s: System)
    requires Inv(s) && s.a.peer.inbox != []
    ensures Inv(ActA(s, Accepts))
  {
    AcceptingOK(s.a);
    forall j | 0 <= j < |s.a.endOf| ensures LinkAt(ActA(s, Accepts), j) {
      if WaitsOn(s.a, j) { ConfirmedLink(s); } else { UntouchedLink(s, j); }
    }
  }

  /** A new channel in the least free slot. */
  lemma RegisterSlotted(p: Peer, c: Chan)
    requires Slotted(p.objs, p.table) && c.localId == NextId(p) && !c.credit.closed
    requires |Register(p, c).table| < TWO_32
    ensures Slotted(Register(p, c).objs, Register(p, c).table)
  {
    var i := LeastFree<nat>(p.table);
    var t := AddTo<nat>(p.table, |p.objs|);
    assert forall j :: 0 <= j < |t| && j != i ==> j < |p.table| && t[j] == p.table[j];
  }

  lemma OpenHostOK(h: Host, b: Host)
    requires HostOK(h) && |StartOpen(h.peer).table| < TWO_32
    ensures var h1 := ActA(System(h, b), Opens).a;
            && HostOK(h1) && |h1.endOf| == |h.endOf| + 1
            && (forall j: nat :: j < |h.endOf| ==> EndAt(h1, j) == EndAt(h, j) && WaitsOn(h1, j) == WaitsOn(h, j))
            && EndAt(h1, |h.endOf|) == Some(OpenedChannel(NextId(h.peer))) && !WaitsOn(h1, |h.endOf|)
  {
    RegisterSlotted(h.peer, OpenedChannel(NextId(h.peer)));
  }

  lemma NewLinkHostOK(h: Host)
    requires HostOK(h)
    ensures var h1 := h.(endOf := h.endOf + [None]);
            && HostOK(h1)
            && (forall j: nat :: j < |h.endOf| ==> EndAt(h1, j) == EndAt(h, j) && WaitsOn(h1, j) == WaitsOn(h, j))
            && EndAt(h1, |h.endOf|) == None && !WaitsOn(h1, |h.endOf|)
  {
  }

  lemma OpenKeeps(s: System)
    requires Inv(s) && Fits(ActA(s, Opens))
    ensures Inv(ActA(s, Opens))
  {
    var k := |s.a.endOf|;
    var s1 := ActA(s, Opens);
    var c := OpenedChannel(NextId(s.a.peer));
    OpenHostOK(s.a, s.b);
    NewLinkHostOK(s.b);
    assert Tag([OpenRequest(c)], k) == [Tagged(OpenRequest(c), k)];
    forall j | 0 <= j < k ensures LinkAt(s1, j) {
      FlowSent(s.a.wire, [OpenRequest(c)], k, j);
      assert LinkAt(s, j);
    }
    FlowSent(s.a.wire, [OpenRequest(c)], k, k);
    FlowFresh(s.a.wire, k);
    FlowFresh(s.b.wire, k);
    assert LinkAt(s1, k);
  }

  /** What the packet at the head of b's wire finds at side a. */
  lemma HeadOfWire(s: System)
    requires Inv(s) && s.b.wire != []
    ensures var k := s.b.wire[0].link; k < |s.a.endOf| && EndAt(s.b, k).Some?
    ensures var k := s.b.wire[0].link; Flow(s.b.wire, k) == [s.b.wire[0].msg] + Flow(s.b.wire[1..], k)
    ensures var k := s.b.wire[0].link; var d := EndAt(s.b, k).value;
            if s.b.wire[0].msg.OpenMessage?
            then EndAt(s.a, k).None? && Opening(d, Flow(s.b.wire, k), Flow(s.a.wire, k))
            else EndAt(s.a, k).Some? && Joined(EndAt(s.a, k).value, d, Flow(s.a.wire, k), Flow(s.b.wire, k))
    ensures var k := s.b.wire[0].link; !WaitsOn(s.a, k) && !WaitsOn(s.b, k)
  {
    var k := s.b.wire[0].link;
    var m := s.b.wire[0].msg;
    assert LinkAt(s, k) && Flow(s.b.wire, k)[0] == m;
    if EndAt(s.a, k).Some? && EndAt(s.b, k).Some? {
      assert ItemOK(m, EndAt(s.b, k).value, EndAt(s.a, k).value);
    }
  }

  lemma PoppedHostOK(h: Host)
    requires HostOK(h) && h.wire != []
    ensures HostOK(h.(wire := h.wire[1..]))
    ensures forall j: nat :: EndAt(h.(wire := h.wire[1..]), j) == EndAt(h, j)
  {
  }

  lemma FlowPopped(w: seq<Tagged>, j: nat)
    requires w != []
    ensures Flow(w[1..], j) == if w[0].link == j then Flow(w, j)[1..] else Flow(w, j)
  {
    assert Flow(w, j) == (if w[0].link == j then [w[0].msg] else []) + Flow(w[1..], j);
  }

  /** Side a has become h1 by taking the packet at the head of b's wire, which touched only link k. */
  lemma DeliveryKeeps(s: System, h1: Host, k: nat, out: seq<Message>, x: Chan)
    requires Inv(s) && s.a.loop.Reading? && s.b.wire != [] && s.b.wire[0].link == k && !WaitsOn(s.b, k)
    requires HostOK(h1) && |h1.endOf| == |s.a.endOf| && h1.wire == s.a.wire + Tag(out, k)
    requires forall j: nat :: EndAt(h1, j) == if j == k then Some(x) else EndAt(s.a, j)
    requires forall j: nat :: j != k ==> !WaitsOn(h1, j)
    requires if WaitsOn(h1, k) then Unconfirmed(EndAt(s.b, k), Some(x), Flow(s.b.wire, k)[1..], Flow(s.a.wire, k) + out)
             else LinkOK(Some(x), EndAt(s.b, k), Flow(s.a.wire, k) + out, Flow(s.b.wire, k)[1..])
    ensures Inv(System(h1, s.b.(wire := s.b.wire[1..])))
  {
    var b1 := s.b.(wire := s.b.wire[1..]);
    PoppedHostOK(s.b);
    forall j | 0 <= j < |h1.endOf| ensures LinkAt(System(h1, b1), j) {
      assert LinkAt(s, j);
      FlowSent(s.a.wire, out, k, j);
      FlowPopped(s.b.wire, j);
    }
  }

  /** An open that arrives makes a channel, which is confirmed at once if the inbox has room. */
  lemma ArriveOpenKeeps(s: System)
    requires Inv(s) && Enabled(s, PacketArrives) && Fits(ActA(s, PacketArrives)) && s.b.wire[0].msg.OpenMessage?
    ensures Inv(ActA(s, PacketArrives))
    ensures var q := Receive(s.a.peer, s.b.wire[0].msg);
            && q.verdict == (if |s.a.peer.inbox| < CHAN_SIZE then Fine else Blocked)
            && forall i :: 0 <= i < |q.out| ==> !q.out[i].OpenFailureMessage?
  {
    var k := s.b.wire[0].link;
    var m := s.b.wire[0].msg;
    HeadOfWire(s);
    var d := EndAt(s.b, k).value;
    var c := AcceptedChannel(NextId(s.a.peer), m);
    assert Flow(s.b.wire, k)[0] == m == OpenRequest(d);
    AcceptHostOK(s.a, m, k);
    var out := Receive(s.a.peer, m).out;
    assert [] + out == out;
    if |s.a.peer.inbox| < CHAN_SIZE { OpenArrives(d, NextId(s.a.peer)); }
    DeliveryKeeps(s, ActA(s, PacketArrives).a, k, out, c);
  }

  lemma AcceptHostOK(h: Host, m: Message, k: nat)
    requires HostOK(h) && h.loop.Reading? && m.OpenMessage? && ValidMaxPacket(m.maxPacketSize)
    requires k < |h.endOf| && h.endOf[k].None? && |HandleOpen(h.peer, m).p.table| < TWO_32
    ensures var q := HandleOpen(h.peer, m);
            var h1 := Receiving(h, q, k).(loop := LoopAfter(q, m));
            && HostOK(h1) && |h1.endOf| == |h.endOf|
            && (forall j: nat :: j != k ==> EndAt(h1, j) == EndAt(h, j) && !WaitsOn(h1, j))
            && EndAt(h1, k) == Some(AcceptedChannel(NextId(h.peer), m))
            && h1.wire == h.wire + Tag(q.out, k)
            && WaitsOn(h1, k) == (|h.peer.inbox| == CHAN_SIZE)
            && q.out == (if WaitsOn(h1, k) then [] else [OpenReply(AcceptedChannel(NextId(h.peer), m))])
  {
    FirstGrant(m.windowSize);
    RegisterSlotted(h.peer, AcceptedChannel(NextId(h.peer), m));
  }

  /** The table after a channel takes a message: its slot goes if the message closed it. */
  lemma DeliverySlotted(objs: seq<Chan>, table: Table<nat>, o: nat, c: Chan)
    requires Slotted(objs, table) && o < |objs| && !objs[o].credit.closed && c.localId == objs[o].localId
    ensures Slotted(objs[o := c], if c.credit.closed then RemoveFrom<nat>(table, c.localId) else table)
  {
  }

  lemma ReceivingHostOK(h: Host, o: nat, q: Received)
    requires HostOK(h) && o < |h.peer.objs| && q.actor == Some(o)
    requires |q.p.objs| == |h.peer.objs| && q.p.objs == h.peer.objs[o := q.p.objs[o]] && q.p.inbox == h.peer.inbox
    requires Slotted(q.p.objs, q.p.table) && (Established(h.peer.objs[o]) ==> Established(q.p.objs[o]))
    requires Answered(h.peer.objs[o]) ==> Answered(q.p.objs[o])
    ensures var h1 := Receiving(h, q, h.linkOf[o]);
            && HostOK(h1) && |h1.endOf| == |h.endOf|
            && (forall j: nat :: EndAt(h1, j) == if j == h.linkOf[o] then Some(q.p.objs[o]) else EndAt(h, j))
            && h1.wire == h.wire + Tag(q.out, h.linkOf[o])
  {
    var h1 := Receiving(h, q, h.linkOf[o]);
    forall j: nat ensures EndAt(h1, j) == if j == h.linkOf[o] then Some(q.p.objs[o]) else EndAt(h, j) {
      if j != h.linkOf[o] && j < |h.endOf| { assert h.endOf[j] != Some(o); }
    }
  }

  /** Whose the packet at the head of b's wire is: the id it names is held, at side a, by the
      end of the very opening the packet belongs to. */
  lemma HeadFindsItsChannel(s: System)
    requires Inv(s) && s.b.wire != [] && !s.b.wire[0].msg.OpenMessage?
    ensures var k := s.b.wire[0].link;
            && k < |s.a.endOf| && s.a.endOf[k].Some?
            && Holder(s.a.peer, s.b.wire[0].msg.channelId) == s.a.endOf[k]
            && EndAt(s.a, k) == Some(s.a.peer.objs[s.a.endOf[k].value])
            && !EndAt(s.a, k).value.credit.closed
  {
    var k := s.b.wire[0].link;
    HeadOfWire(s);
    Arrives(EndAt(s.b, k).value, EndAt(s.a, k).value, Flow(s.b.wire, k), Flow(s.a.wire, k));
  }

  /** Receiving a message for a channel that is found and handles it without error. */
  lemma Dispatched(p: Peer, m: Message, o: nat)
    requires Slotted(p.objs, p.table) && !m.OpenMessage? && Holder(p, m.channelId) == Some(o)
    requires o < |p.objs| && Handle(p.objs[o], m).verdict.Fine?
    requires Handle(p.objs[o], m).removed == m.CloseMessage?
    ensures var q := Receive(p, m); var h := Handle(p.objs[o], m);
            && q.actor == Some(o) && q.out == h.out && q.verdict.Fine?
            && q.p.objs == p.objs[o := h.ch] && q.p.inbox == p.inbox
            && Slotted(q.p.objs, q.p.table)
  {
    var h := Handle(p.objs[o], m);
    HandledEnd(p.objs[o], m);
    DeliverySlotted(p.objs, p.table, o, h.ch);
  }

  /** What the arrival of a message for a channel makes of its host. */
  lemma ArrivingHost(s: System)
    requires Inv(s) && Enabled(s, PacketArrives) && !s.b.wire[0].msg.OpenMessage?
    ensures var k := s.b.wire[0].link; var m := s.b.wire[0].msg; var h1 := ActA(s, PacketArrives).a;
            && k < |s.a.endOf| && EndAt(s.a, k).Some? && HostOK(h1) && |h1.endOf| == |s.a.endOf| && h1.loop.Reading?
            && Handle(EndAt(s.a, k).value, m).verdict.Fine? && Receive(s.a.peer, m).verdict.Fine?
            && h1.wire == s.a.wire + Tag(Handle(EndAt(s.a, k).value, m).out, k)
            && forall j: nat ::
                 EndAt(h1, j) == if j == k then Some(Handle(EndAt(s.a, k).value, m).ch) else EndAt(s.a, j)
  {
    var k := s.b.wire[0].link;
    var m := s.b.wire[0].msg;
    HeadOfWire(s);
    HeadFindsItsChannel(s);
    var o := s.a.endOf[k].value;
    var c := s.a.peer.objs[o];
    Arrives(EndAt(s.b, k).value, c, Flow(s.b.wire, k), Flow(s.a.wire, k));
    HandledEnd(c, m);
    Dispatched(s.a.peer, m, o);
    ReceivingHostOK(s.a, o, Receive(s.a.peer, m));
    assert ActA(s, PacketArrives).a == Receiving(s.a, Receive(s.a.peer, m), k);
  }

  lemma ArriveChanKeeps(s: System)
    requires Inv(s) && Enabled(s, PacketArrives) && !s.b.wire[0].msg.OpenMessage?
    ensures Inv(ActA(s, PacketArrives))
    ensures Receive(s.a.peer, s.b.wire[0].msg).verdict.Fine?
  {
    var k := s.b.wire[0].link;
    HeadOfWire(s);
    ArrivingHost(s);
    var c := EndAt(s.a, k).value;
    var h := Handle(c, s.b.wire[0].msg);
    Arrives(EndAt(s.b, k).value, c, Flow(s.b.wire, k), Flow(s.a.wire, k));
    DeliveryKeeps(s, ActA(s, PacketArrives).a, k, h.out, h.ch);
  }

  lemma ActKeeps(s: System, i: Input)
    requires Inv(s) && Enabled(s, i) && Usage(s, i) && Fits(ActA(s, i))
    ensures Inv(ActA(s, i))
  {
    match i
    case PacketArrives =>
      if s.b.wire[0].msg.OpenMessage? { ArriveOpenKeeps(s); } else { ArriveChanKeeps(s); }
    case Opens => OpenKeeps(s);
    case Accepts => AcceptKeeps(s);
    case _ => AppKeeps(s, i);
  }
}
