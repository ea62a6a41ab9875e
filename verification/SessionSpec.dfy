/** One end of a session as a value, and what holds of it against any peer whatever. */
module SessionSpec {
  import opened Bytes
  import opened Codec
  import opened ChanTable
  import opened ChannelSpec
  import opened FlowWindow

  /** Every channel object made so far, in order; the id table and the inbox name them by position. */
  datatype Peer = Peer(objs: seq<Chan>, table: Table<nat>, inbox: seq<nat>)

  const NEW_PEER := Peer([], [], [])

  /** The id the next channel gets. */
  function NextId(p: Peer): u32 {
    Truncate32(LeastFree<nat>(p.table))
  }

  function Register(p: Peer, c: Chan): Peer {
    p.(objs := p.objs + [c], table := AddTo<nat>(p.table, |p.objs|))
  }

  /** Open, before it waits: the new channel is the last object. */
  function StartOpen(p: Peer): Peer {
    Register(p, OpenedChannel(NextId(p)))
  }

  function OpenedChannel(id: u32): Chan {
    NewChan(true, id).(maxIncoming := CHANNEL_MAX_PACKET)
  }

  function OpenRequest(c: Chan): Message {
    OpenMessage(c.localId, c.myWindow, c.maxIncoming)
  }

  /** What a packet leaves, sends, and does to the loop; `actor` is the channel that handled it. */
  datatype Received = Received(p: Peer, actor: Option<nat>, out: seq<Message>, verdict: Verdict)

  function AcceptedChannel(id: u32, m: Message): Chan
    requires m.OpenMessage?
  {
    NewChan(false, id).(maxIncoming := CHANNEL_MAX_PACKET, remoteId := m.senderId, maxRemote := m.maxPacketSize,
                        credit := Add(NO_CREDIT, m.windowSize).credit)
  }

  /** The confirm for a channel that was accepted. */
  function OpenReply(c: Chan): Message {
    OpenConfirmMessage(c.remoteId, c.localId, c.myWindow, c.maxIncoming)
  }

  function HandleOpen(p: Peer, m: Message): (q: Received)
    requires m.OpenMessage?
    ensures q.verdict.Blocked? ==> q.actor == Some(|p.objs|) && q.out == [] && q.p.inbox == p.inbox
  {
    if !ValidMaxPacket(m.maxPacketSize) then Received(p, None, [OpenFailureMessage(m.senderId)], Fine)
    else
      var c := AcceptedChannel(NextId(p), m);
      var obj := |p.objs|;
      var p1 := Register(p, c);
      if |p.inbox| >= CHAN_SIZE then Received(p1, Some(obj), [], Blocked)
      else
        Received(p1.(inbox := p.inbox + [obj]), Some(obj), [OpenReply(c)], Fine)
  }

  /** The table names objects that exist. */
  predicate TableInRange(p: Peer) {
    forall i :: 0 <= i < |p.table| && p.table[i].Some? ==> p.table[i].value < |p.objs|
  }

  function Holder(p: Peer, id: u32): Option<nat> {
    Lookup<nat>(p.table, id)
  }

  function Freed(p: Peer, id: u32): Peer {
    p.(table := RemoveFrom<nat>(p.table, id))
  }

  /** The channels close() is run on when the loop exits, in order. */
  function Leftover(p: Peer): seq<nat> {
    Present<nat>(p.table)
  }

  /** A handled message stored back, and the slot freed if the handler freed it. */
  function Delivery(p: Peer, obj: nat, freed: u32, h: Handled): Peer
    requires obj < |p.objs|
  {
    var p1 := p.(objs := p.objs[obj := h.ch]);
    if h.removed then Freed(p1, freed) else p1
  }

  /** The dispatch of onePacket on a decoded message. */
  function Receive(p: Peer, m: Message): (q: Received)
    requires TableInRange(p)
    ensures q.verdict.Blocked? ==> q.actor.Some?
  {
    if m.OpenMessage? then HandleOpen(p, m)
    else
      match Holder(p, m.channelId)
      case None => Received(p, None, [], Failed(InvalidChannel))
      case Some(obj) =>
        var h := Handle(p.objs[obj], m);
        Received(Delivery(p, obj, FreedId(h.ch, m), h), Some(obj), h.out, h.verdict)
  }

  lemma ReceivedBy(p: Peer, m: Message, o: nat)
    requires TableInRange(p) && !m.OpenMessage? && Holder(p, m.channelId) == Some(o)
    ensures var h := Handle(p.objs[o], m);
            Receive(p, m) == Received(Delivery(p, o, FreedId(h.ch, m), h), Some(o), h.out, h.verdict)
  {
  }

  /** close() on each listed channel; None if one was closed before, which panics. */
  function CloseEach(objs: seq<Chan>, todo: seq<nat>): Option<seq<Chan>>
    requires forall i :: 0 <= i < |todo| ==> todo[i] < |objs|
    decreases |todo|
  {
    if todo == [] then Some(objs)
    else if objs[todo[0]].msgsClosed then None
    else CloseEach(objs[todo[0] := Shutdown(objs[todo[0]])], todo[1..])
  }

  /** close() on the next of those listed. */
  lemma CloseEachNext(objs: seq<Chan>, todo: seq<nat>, i: nat)
    requires i < |todo| && (forall k :: i <= k < |todo| ==> todo[k] < |objs|) && !objs[todo[i]].msgsClosed
    ensures CloseEach(objs, todo[i..]) == CloseEach(objs[todo[i] := Shutdown(objs[todo[i]])], todo[i + 1..])
  {
    assert todo[i..][0] == todo[i] && todo[i..][1..] == todo[i + 1..];
  }

  lemma PresentInRange(p: Peer)
    requires TableInRange(p)
    ensures forall i :: 0 <= i < |Leftover(p)| ==> Leftover(p)[i] < |p.objs|
  {
    PresentMembers<nat>(p.table);
    forall i | 0 <= i < |Leftover(p)| ensures Leftover(p)[i] < |p.objs| {
      assert Leftover(p)[i] in Leftover(p);
    }
  }

  // ---- What any peer can cause ----

  /** What the loop is at: it reads packets, waits for room in the inbox or in a channel's message
      queue for what it has to put there, has stopped with an error, or has panicked. */
  datatype LoopState =
    | Reading
    | Queueing(obj: nat)
    | Posting(obj: nat, m: Message)
    | Stopped(f: Failure)
    | Crashed

  /** A session end with its loop, the bytes still to arrive and those sent. */
  datatype Running = Running(p: Peer, stream: seq<byte>, loop: LoopState, sent: seq<byte>)

  datatype Input =
    | PacketArrives
    | Opens
    | Accepts
    | Takes(obj: nat)
    | Writes(obj: nat, data: seq<byte>)
    | Reads(obj: nat, want: nat)
    | GivesBack(obj: nat, n: u32)
    | ClosesWrite(obj: nat)
    | Closes(obj: nat)

  /** Receiving from a channel's message queue, as Open does. */
  function TakeMsg(c: Chan): Chan {
    if c.msgs == [] then c else c.(msgs := c.msgs[1..])
  }

  /** What Open makes of the first message of its channel's queue. */
  datatype OpenOutcome = NoAnswerYet | Opened | ClosedEarly | Refused | UnexpectedAnswer | Canceled

  function OutcomeOf(c: Chan): OpenOutcome {
    if c.msgs == [] then if c.msgsClosed then ClosedEarly else NoAnswerYet
    else if c.msgs[0].OpenConfirmMessage? then Opened
    else if c.msgs[0].OpenFailureMessage? then Refused
    else UnexpectedAnswer
  }

  /** An iteration of Write can run. Only the first checks sentEOF, as Write is entered. */
  predicate WriteRuns(c: Chan, data: seq<byte>) {
    data != [] && (c.credit.win > 0 || c.credit.closed)
  }

  predicate OfApp(i: Input) {
    !i.PacketArrives? && !i.Opens? && !i.Accepts?
  }

  /** What a step of an application's call on a channel does; a call that has to wait does nothing.
      Reads and GivesBack are the two parts of Read. */
  function AppEffect(c: Chan, i: Input): Effect
    requires OfApp(i)
  {
    match i
    case Takes(_) => Effect(TakeMsg(c), [], false)
    case Writes(_, data) => if WriteRuns(c, data) then WriteChunk(c, data) else Effect(c, [], false)
    case Reads(_, want) => TakeOut(c, want)
    case GivesBack(_, n) => if 0 < n <= c.owed then GiveBack(c, n) else Effect(c, [], false)
    case ClosesWrite(_) => CloseWriteOp(c)
    case Closes(_) => CloseOp(c)
  }

  /** The loop's exit: every channel still in the table is closed. */
  function DropAll(r: Running): Running
    requires TableInRange(r.p)
  {
    PresentInRange(r.p);
    match CloseEach(r.p.objs, Leftover(r.p))
    case None => r.(loop := Crashed)
    case Some(objs) => r.(p := r.p.(objs := objs, table := []))
  }

  /** What the loop is at once it has handled m. */
  function LoopAfter(q: Received, m: Message): LoopState
    requires q.verdict.Blocked? ==> q.actor.Some?
  {
    match q.verdict
    case Fine => Reading
    case Failed(f) => Stopped(f)
    case Blocked => if m.OpenMessage? then Queueing(q.actor.value) else Posting(q.actor.value, m)
    case Panicked => Crashed
  }

  /** onePacket: one packet taken off the stream and handled. */
  function AfterPacket(r: Running): Running
    requires TableInRange(r.p)
  {
    match NextMessage(r.stream)
    case Bad(e) => r.(stream := AfterNext(r.stream), loop := Stopped(UndecodablePacket(e)))
    case Got(m, rest) =>
      var q := Receive(r.p, m);
      Running(q.p, rest, LoopAfter(q, m), r.sent + EncodingAll(q.out))
  }

  /** A waiting loop goes on if there is room now: it completes the send it waits for, and, if that
      was into the inbox, confirms the open. */
  function Resumed(r: Running): Running {
    match r.loop
    case Queueing(o) =>
      if o < |r.p.objs| && |r.p.inbox| < CHAN_SIZE then
        r.(p := r.p.(inbox := r.p.inbox + [o]), loop := Reading,
           sent := r.sent + EncodingAll([OpenReply(r.p.objs[o])]))
      else r
    case Posting(o, m) =>
      if o < |r.p.objs| && |r.p.objs[o].msgs| < CHAN_SIZE then
        var h := Post(r.p.objs[o], m, false);
        if h.verdict.Panicked? then r.(loop := Crashed)
        else r.(p := r.p.(objs := r.p.objs[o := h.ch]), loop := Reading)
      else r
    case _ => r
  }

  /** An application's call on a channel. */
  function Call(r: Running, i: Input): Running
    requires OfApp(i) && i.obj < |r.p.objs|
  {
    var e := AppEffect(r.p.objs[i.obj], i);
    r.(p := r.p.(objs := r.p.objs[i.obj := e.ch]), sent := r.sent + EncodingAll(e.out))
  }

  /** A turn of the loop, or a call of the application; a receive that makes room lets a waiting loop go on. */
  function Step(r: Running, i: Input): Running
    requires TableInRange(r.p)
  {
    match i
    case PacketArrives =>
      if !r.loop.Reading? then r
      else
        PacketInRange(r);
        if AfterPacket(r).loop.Stopped? then DropAll(AfterPacket(r)) else AfterPacket(r)
    case Opens =>
      r.(p := StartOpen(r.p), sent := r.sent + EncodingAll([OpenRequest(OpenedChannel(NextId(r.p)))]))
    case Accepts => if r.p.inbox == [] then r else Resumed(r.(p := r.p.(inbox := r.p.inbox[1..])))
    case Takes(_) => if i.obj < |r.p.objs| then Resumed(Call(r, i)) else r
    case _ => if i.obj < |r.p.objs| then Call(r, i) else r
  }

  lemma PacketInRange(r: Running)
    requires TableInRange(r.p)
    ensures TableInRange(AfterPacket(r).p)
  {
  }

  /** Both balances, and a message queue within its capacity. */
  predicate ChanSound(c: Chan) {
    c.WindowBalanced() && c.CreditBalanced() && |c.msgs| <= CHAN_SIZE
  }

  /** Each channel in the table holds one slot, whose number cut to 32 bits is its id, and is not closed. */
  predicate SoundTable(objs: seq<Chan>, table: Table<nat>) {
    && (forall i :: 0 <= i < |table| && table[i].Some? ==>
          && table[i].value < |objs|
          && objs[table[i].value].localId == Truncate32(i) && !objs[table[i].value].msgsClosed)
    && (forall i, j :: 0 <= i < j < |table| && table[i].Some? ==> table[i] != table[j])
  }

  predicate TableSound(p: Peer) {
    SoundTable(p.objs, p.table)
  }

  predicate AllSound(objs: seq<Chan>) {
    forall k :: 0 <= k < |objs| ==> ChanSound(objs[k])
  }

  /** A loop that waits has what it waits for: a full inbox, or the full queue of a channel that is not closed. */
  predicate WaitSound(r: Running) {
    match r.loop
    case Queueing(o) => o < |r.p.objs| && |r.p.inbox| == CHAN_SIZE
    case Posting(o, _) => o < |r.p.objs| && |r.p.objs[o].msgs| == CHAN_SIZE && !r.p.objs[o].msgsClosed
    case Crashed => false
    case _ => true
  }

  predicate PeerSound(p: Peer) {
    TableSound(p) && AllSound(p.objs) && |p.inbox| <= CHAN_SIZE
  }

  predicate Sound(r: Running) {
    PeerSound(r.p) && WaitSound(r)
  }

  lemma RegisterSound(p: Peer, c: Chan)
    requires TableSound(p) && c.localId == NextId(p) && !c.msgsClosed
    ensures TableSound(Register(p, c))
  {
    var i := LeastFree(p.table);
    var t' := AddTo<nat>(p.table, |p.objs|);
    assert forall j :: 0 <= j < |t'| && j != i ==> j < |p.table| && t'[j] == p.table[j];
  }

  lemma LookupSlot(p: Peer, id: u32)
    requires TableSound(p) && Holder(p, id).Some?
    ensures id < |p.table| && p.objs[p.table[id].value].localId == id
  {
  }

  lemma HandleKeepsIdentity(c: Chan, m: Message)
    ensures Handle(c, m).ch.localId == c.localId
    ensures Handle(c, m).ch.msgsClosed && !c.msgsClosed ==> Handle(c, m).removed
    ensures Handle(c, m).verdict.Panicked? ==> c.msgsClosed
  {
    if m.DataMessage? || m.CloseMessage? {
    } else if m.OpenConfirmMessage? {
    }
  }

  /** The message queue never passes its capacity, and a handler waits only when it is full. */
  lemma HandleKeepsQueue(c: Chan, m: Message)
    requires |c.msgs| <= CHAN_SIZE
    ensures |Handle(c, m).ch.msgs| <= CHAN_SIZE
    ensures Handle(c, m).verdict.Blocked? ==> |Handle(c, m).ch.msgs| == CHAN_SIZE && !Handle(c, m).ch.msgsClosed
    ensures !c.msgsClosed && Handle(c, m).ch.msgsClosed ==> Handle(c, m).verdict.Fine?
  {
    if m.DataMessage? || m.CloseMessage? {
    } else if m.OpenConfirmMessage? {
    }
  }

  /** Replacing an object, and freeing its slot if it was closed, keeps the table sound. */
  lemma ReplaceSound(p: Peer, id: u32, c: Chan, removed: bool)
    requires TableSound(p) && Holder(p, id).Some?
    requires c.localId == p.objs[Holder(p, id).value].localId && (c.msgsClosed ==> removed)
    ensures var p1 := p.(objs := p.objs[Holder(p, id).value := c]);
            TableSound(if removed then Freed(p1, id) else p1)
  {
    LookupSlot(p, id);
    var obj := Holder(p, id).value;
    assert p.table[id] == Some(obj);
    var p1 := p.(objs := p.objs[obj := c]);
    var p2 := if removed then Freed(p1, id) else p1;
    forall i | 0 <= i < |p2.table| && p2.table[i].Some?
      ensures p2.table[i] == p.table[i]
      ensures p2.objs[p2.table[i].value].localId == Truncate32(i) && !p2.objs[p2.table[i].value].msgsClosed
    {
    }
  }

  lemma AcceptedBalanced(id: u32, m: Message)
    requires m.OpenMessage?
    ensures ChanSound(AcceptedChannel(id, m))
  {
    FirstGrant(m.windowSize);
  }

  lemma HandleOpenSound(p: Peer, m: Message)
    requires TableSound(p) && AllSound(p.objs) && m.OpenMessage?
    ensures TableSound(HandleOpen(p, m).p) && AllSound(HandleOpen(p, m).p.objs)
    ensures !HandleOpen(p, m).verdict.Panicked?
  {
    if ValidMaxPacket(m.maxPacketSize) {
      var c := AcceptedChannel(NextId(p), m);
      RegisterSound(p, c);
      AcceptedBalanced(NextId(p), m);
    }
  }

  lemma DeliverySound(p: Peer, id: u32, h: Handled)
    requires TableSound(p) && AllSound(p.objs) && Holder(p, id).Some? && ChanSound(h.ch)
    requires h.ch.localId == p.objs[Holder(p, id).value].localId && (h.ch.msgsClosed ==> h.removed)
    ensures var q := Delivery(p, Holder(p, id).value, id, h); TableSound(q) && AllSound(q.objs)
  {
    ReplaceSound(p, id, h.ch, h.removed);
  }

  /** What a handled message leads to, whoever sent it. */
  predicate ReceivedSound(q: Received, m: Message)
    requires q.verdict.Blocked? ==> q.actor.Some?
  {
    PeerSound(q.p) && WaitSound(Running(q.p, [], LoopAfter(q, m), []))
  }

  /** No decoded message whatever makes the handler close a closed channel or send on a
      closed queue, and the balances and the table stay sound. */
  lemma ReceiveSound(p: Peer, m: Message)
    requires PeerSound(p) && m.WellFormed()
    ensures ReceivedSound(Receive(p, m), m)
  {
    if m.OpenMessage? {
      HandleOpenSound(p, m);
    } else if Holder(p, m.channelId).Some? {
      var c := p.objs[Holder(p, m.channelId).value];
      LookupSlot(p, m.channelId);
      HandleKeepsBalances(c, m);
      HandleKeepsIdentity(c, m);
      HandleKeepsQueue(c, m);
      DeliverySound(p, m.channelId, Handle(c, m));
    }
  }

  lemma {:induction false} CloseEachRuns(objs: seq<Chan>, todo: seq<nat>)
    requires forall i :: 0 <= i < |todo| ==> todo[i] < |objs| && !objs[todo[i]].msgsClosed
    requires forall i, j :: 0 <= i < j < |todo| ==> todo[i] != todo[j]
    requires forall k :: 0 <= k < |objs| ==> ChanSound(objs[k])
    ensures CloseEach(objs, todo).Some?
    ensures var after := CloseEach(objs, todo).value;
            && |after| == |objs|
            && (forall k :: 0 <= k < |objs| ==> ChanSound(after[k]))
            && forall k :: 0 <= k < |objs| ==> after[k] == if k in todo then Shutdown(objs[k]) else objs[k]
    decreases |todo|
  {
    if todo != [] {
      var next := objs[todo[0] := Shutdown(objs[todo[0]])];
      CloseEachRuns(next, todo[1..]);
      assert forall k :: k in todo <==> k == todo[0] || k in todo[1..];
    }
  }

  lemma {:induction false} PresentDistinct(t: Table<nat>)
    requires forall i, j :: 0 <= i < j < |t| && t[i].Some? ==> t[i] != t[j]
    ensures forall i, j :: 0 <= i < j < |Present<nat>(t)| ==> Present<nat>(t)[i] != Present<nat>(t)[j]
  {
    if t != [] {
      PresentDistinct(t[1..]);
      PresentMembers<nat>(t[1..]);
      if t[0].Some? {
        assert forall x :: x in Present<nat>(t[1..]) ==> x != t[0].value;
      }
    }
  }

  lemma DropAllSound(r: Running)
    requires PeerSound(r.p) && r.loop.Stopped?
    ensures Sound(DropAll(r)) && DropAll(r).loop == r.loop && DropAll(r).p.table == []
    ensures |DropAll(r).p.objs| == |r.p.objs|
    ensures forall k :: 0 <= k < |r.p.objs| ==>
              DropAll(r).p.objs[k] == if Some(k) in r.p.table then Shutdown(r.p.objs[k]) else r.p.objs[k]
  {
    PresentInRange(r.p);
    PresentDistinct(r.p.table);
    PresentMembers<nat>(r.p.table);
    var todo := Leftover(r.p);
    forall i | 0 <= i < |todo| ensures !r.p.objs[todo[i]].msgsClosed {
      assert todo[i] in todo;
    }
    CloseEachRuns(r.p.objs, todo);
  }

  /** What no call but the taking of an answer changes of a channel. */
  predicate SameIdentity(c: Chan, c1: Chan) {
    && c1.localId == c.localId && c1.remoteId == c.remoteId && c1.outbound == c.outbound
    && c1.maxRemote == c.maxRemote && c1.msgsClosed == c.msgsClosed && c1.msgs == c.msgs
  }

  lemma WriteIdentity(c: Chan, data: seq<byte>)
    requires WriteRuns(c, data)
    ensures SameIdentity(c, WriteChunk(c, data).ch)
  {
  }

  lemma AppEffectIdentity(c: Chan, i: Input)
    requires OfApp(i)
    ensures SameIdentity(if i.Takes? then TakeMsg(c) else c, AppEffect(c, i).ch)
  {
    if i.Writes? && WriteRuns(c, i.data) { WriteIdentity(c, i.data); }
  }

  lemma AppEffectSound(c: Chan, i: Input)
    requires ChanSound(c) && OfApp(i)
    ensures ChanSound(AppEffect(c, i).ch)
  {
    AppEffectIdentity(c, i);
    match i
    case Writes(_, data) => if WriteRuns(c, data) { WriteKeepsBalances(c, data); }
    case Reads(_, want) => TakeKeepsBalances(c, want);
    case GivesBack(_, n) => if 0 < n <= c.owed { GiveKeepsBalances(c, n); }
    case Takes(_) =>
    case ClosesWrite(_) =>
    case Closes(_) =>
  }

  lemma AfterPacketSound(r: Running)
    requires Sound(r)
    ensures Sound(AfterPacket(r))
  {
    if NextMessage(r.stream).Got? {
      NextMessageInverse(r.stream);
      ReceiveSound(r.p, NextMessage(r.stream).message);
    }
  }

  lemma CallSound(r: Running, i: Input)
    requires PeerSound(r.p) && OfApp(i) && i.obj < |r.p.objs|
    ensures PeerSound(Call(r, i).p)
    ensures forall k :: 0 <= k < |r.p.objs| ==>
              && Call(r, i).p.objs[k].msgsClosed == r.p.objs[k].msgsClosed
              && Call(r, i).p.objs[k].msgs == if i.Takes? && k == i.obj then TakeMsg(r.p.objs[k]).msgs
                                              else r.p.objs[k].msgs
  {
    AppEffectIdentity(r.p.objs[i.obj], i);
    AppEffectSound(r.p.objs[i.obj], i);
  }

  /** Going on after a wait keeps everything sound, provided the queue waited for is not closed. */
  lemma ResumedSound(r: Running)
    requires PeerSound(r.p) && !r.loop.Crashed?
    requires r.loop.Queueing? ==> r.loop.obj < |r.p.objs|
    requires r.loop.Posting? ==> r.loop.obj < |r.p.objs| && !r.p.objs[r.loop.obj].msgsClosed
    ensures Sound(Resumed(r))
  {
    if r.loop.Posting? && |r.p.objs[r.loop.obj].msgs| < CHAN_SIZE {
      var c := r.p.objs[r.loop.obj];
      assert ChanSound(c.(msgs := c.msgs + [r.loop.m]));
    }
  }

  lemma StepSound(r: Running, i: Input)
    requires Sound(r)
    ensures Sound(Step(r, i))
  {
    match i
    case PacketArrives =>
      if r.loop.Reading? {
        AfterPacketSound(r);
        if AfterPacket(r).loop.Stopped? { DropAllSound(AfterPacket(r)); }
      }
    case Opens => RegisterSound(r.p, OpenedChannel(NextId(r.p)));
    case Accepts => if r.p.inbox != [] { ResumedSound(r.(p := r.p.(inbox := r.p.inbox[1..]))); }
    case Takes(o) =>
      if o < |r.p.objs| {
        CallSound(r, i);
        ResumedSound(Call(r, i));
      }
    case _ => if i.obj < |r.p.objs| { CallSound(r, i); }
  }

  lemma TurnSound(r: Running)
    requires Sound(r) && r.loop.Reading?
    ensures var r1 := AfterPacket(r);
            Sound(r1) && Step(r, PacketArrives) == if r1.loop.Stopped? then DropAll(r1) else r1
  {
    AfterPacketSound(r);
  }

  function StepAll(r: Running, inputs: seq<Input>): Running
    requires Sound(r)
    decreases |inputs|
  {
    if inputs == [] then r
    else
      StepSound(r, inputs[0]);
      StepAll(Step(r, inputs[0]), inputs[1..])
  }

  lemma {:induction false} StepAllSound(r: Running, inputs: seq<Input>)
    requires Sound(r)
    ensures Sound(StepAll(r, inputs))
    decreases |inputs|
  {
    if inputs != [] {
      StepSound(r, inputs[0]);
      StepAllSound(Step(r, inputs[0]), inputs[1..]);
    }
  }

  lemma {:induction false} StepAllSnoc(r: Running, inputs: seq<Input>, i: Input)
    requires Sound(r)
    ensures Sound(StepAll(r, inputs)) && StepAll(r, inputs + [i]) == Step(StepAll(r, inputs), i)
    decreases |inputs|
  {
    StepAllSound(r, inputs);
    if inputs == [] {
      assert inputs + [i] == [i] && [i][1..] == [];
    } else {
      assert (inputs + [i])[1..] == inputs[1..] + [i];
      StepSound(r, inputs[0]);
      StepAllSnoc(Step(r, inputs[0]), inputs[1..], i);
    }
  }

  /** Each turn of a reading loop takes bytes off the stream, or is its last. */
  lemma TurnShortens(r: Running)
    requires Sound(r) && r.loop.Reading?
    ensures var r1 := Step(r, PacketArrives);
            |r1.stream| < |r.stream| || (r1.stream == r.stream == [] && !r1.loop.Reading?)
  {
    AfterPacketSound(r);
    if AfterPacket(r).loop.Stopped? { DropAllSound(AfterPacket(r)); }
    if NextPacket(r.stream).Packet? {
      assert |NextPacket(r.stream).packet + NextPacket(r.stream).rest| == |r.stream|;
    }
  }

  /** A session whose peer will send these bytes. */
  function NewRunning(stream: seq<byte>): Running {
    Running(NEW_PEER, stream, Reading, [])
  }

  /** Against any byte stream, and whatever the application does meanwhile, waits of the loop
      included: the two balances hold of every channel, so a receive window never exceeds its initial
      value and no more than that is ever buffered; and the session never panics: no channel is
      closed twice, and none is sent a message after it was closed. */
  lemma AnyPeerSafe(stream: seq<byte>, inputs: seq<Input>)
    ensures Sound(NewRunning(stream))
    ensures var r := StepAll(NewRunning(stream), inputs);
            && !r.loop.Crashed?
            && forall k :: 0 <= k < |r.p.objs| ==>
                 var c := r.p.objs[k];
                 && c.myWindow + |c.pending| + c.owed == WINDOW_SIZE
                 && c.credit.granted == |c.written| + c.credit.win + c.credit.forfeited
  {
    StepAllSound(NewRunning(stream), inputs);
  }

  /** The call that makes the room a waiting loop waits for. */
  function Freeing(l: LoopState): Input
    requires l.Queueing? || l.Posting?
  {
    if l.Queueing? then Accepts else Takes(l.obj)
  }

  /** One receive ends a wait: what waited to be queued is queued, last, an open is confirmed, and
      the loop reads on where it was. */
  lemma WaitEnds(r: Running)
    requires Sound(r) && (r.loop.Queueing? || r.loop.Posting?)
    ensures var r1 := Step(r, Freeing(r.loop)); var o := r.loop.obj;
            && r1.loop.Reading? && r1.stream == r.stream && |r1.p.objs| == |r.p.objs|
            && (r.loop.Queueing? ==>
                  && r1.p.inbox == r.p.inbox[1..] + [o]
                  && r1.sent == r.sent + EncodingAll([OpenReply(r.p.objs[o])]))
            && (r.loop.Posting? ==> r1.p.objs[o].msgs == r.p.objs[o].msgs[1..] + [r.loop.m] && r1.sent == r.sent)
  {
    if r.loop.Posting? {
      CallSound(r, Takes(r.loop.obj));
      assert r.sent + EncodingAll([]) == r.sent;
    }
  }

  /** Nothing but such a receive ends it. */
  lemma WaitLasts(r: Running, i: Input)
    requires Sound(r) && (r.loop.Queueing? || r.loop.Posting?) && i != Freeing(r.loop)
    ensures Step(r, i).loop == r.loop && Step(r, i).stream == r.stream
  {
    if OfApp(i) && i.obj < |r.p.objs| { CallSound(r, i); }
  }

  /** The loop's exit with an error: the table is emptied, and each channel left in it is closed. */
  lemma LoopExit(r: Running)
    requires Sound(r) && r.loop.Reading? && AfterPacket(r).loop.Stopped?
    ensures var before := AfterPacket(r).p; var after := Step(r, PacketArrives);
            && after.loop == AfterPacket(r).loop && after.p.table == [] && |after.p.objs| == |before.objs|
            && forall k :: 0 <= k < |before.objs| ==>
                 after.p.objs[k] == if Some(k) in before.table then Shutdown(before.objs[k]) else before.objs[k]
  {
    AfterPacketSound(r);
    DropAllSound(AfterPacket(r));
  }

  // ---- Nothing after close() ----

  /** A channel that was closed stays so, and its queue is only drained. */
  predicate Drained(c: Chan, c1: Chan) {
    c.msgsClosed ==>
      c1.msgsClosed && |c1.msgs| <= |c.msgs| && c1.msgs == c.msgs[|c.msgs| - |c1.msgs|..]
  }

  lemma PacketDrains(r: Running, k: nat)
    requires Sound(r) && r.loop.Reading? && k < |r.p.objs|
    ensures k < |AfterPacket(r).p.objs| && Drained(r.p.objs[k], AfterPacket(r).p.objs[k])
  {
    var next := NextMessage(r.stream);
    if next.Got? && !next.message.OpenMessage? && Holder(r.p, next.message.channelId).Some? {
      LookupSlot(r.p, next.message.channelId);
    }
  }

  lemma TurnDrains(r: Running, k: nat)
    requires Sound(r) && k < |r.p.objs|
    ensures k < |Step(r, PacketArrives).p.objs| && Drained(r.p.objs[k], Step(r, PacketArrives).p.objs[k])
  {
    if r.loop.Reading? {
      PacketDrains(r, k);
      AfterPacketSound(r);
      if AfterPacket(r).loop.Stopped? { DropAllSound(AfterPacket(r)); }
    }
  }

  lemma CallDrains(r: Running, i: Input, k: nat)
    requires Sound(r) && OfApp(i) && k < |r.p.objs|
    ensures k < |Step(r, i).p.objs| && Drained(r.p.objs[k], Step(r, i).p.objs[k])
  {
    if i.obj < |r.p.objs| { CallSound(r, i); }
  }

  lemma StepDrains(r: Running, i: Input, k: nat)
    requires Sound(r) && k < |r.p.objs|
    ensures k < |Step(r, i).p.objs| && Drained(r.p.objs[k], Step(r, i).p.objs[k])
  {
    if i.PacketArrives? { TurnDrains(r, k); }
    if OfApp(i) { CallDrains(r, i, k); }
  }

  /** Over every run each channel is closed at most once, and nothing is put on its message queue
      afterwards: what is left there is the end of what was there. */
  lemma {:induction false} ClosedForGood(r: Running, inputs: seq<Input>, k: nat)
    requires Sound(r) && k < |r.p.objs| && r.p.objs[k].msgsClosed
    ensures var r1 := StepAll(r, inputs);
            !r1.loop.Crashed? && k < |r1.p.objs| && Drained(r.p.objs[k], r1.p.objs[k])
    decreases |inputs|
  {
    if inputs != [] {
      StepSound(r, inputs[0]);
      StepDrains(r, inputs[0], k);
      ClosedForGood(Step(r, inputs[0]), inputs[1..], k);
    }
  }
}
