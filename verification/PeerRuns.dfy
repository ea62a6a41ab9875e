/** What applications get out of Open and Accept, over every run against any peer. */
module PeerRuns {
  import opened Bytes
  import opened Codec
  import opened ChanTable
  import opened FlowWindow
  import opened ChannelSpec
  import opened SessionSpec
  import opened PacketSpec

  // ---- Answers to Open ----

  /** What is known of an object as far as Open goes: the answers it holds, one that the loop waits to put
      there included, what it was told of its peer, and whether it is in the table. */
  datatype Asked = Asked(outbound: bool, answers: seq<Message>, remoteId: u32, maxRemote: u32, inTable: bool)

  function AskedAt(r: Running, o: nat): Asked
    requires o < |r.p.objs|
  {
    var c := r.p.objs[o];
    Asked(c.outbound, c.msgs + (if r.loop.Posting? && r.loop.obj == o then [r.loop.m] else []),
          c.remoteId, c.maxRemote, Some(o) in r.p.table)
  }

  /** Only an opener has answers: confirms, the last of which it took over, and at the end perhaps a failure,
      after which it is in no slot. */
  predicate AnswersOK(a: Asked) {
    && (a.answers != [] ==> a.outbound)
    && (forall i :: 0 <= i < |a.answers| ==>
          if a.answers[i].OpenConfirmMessage? then PacketSizeOK(a.maxRemote)
          else a.answers[i].OpenFailureMessage? && i == |a.answers| - 1 && !a.inTable)
    && (a.answers != [] ==>
          var m := a.answers[|a.answers| - 1];
          m.OpenConfirmMessage? ==> m.senderId == a.remoteId && m.maxPacketSize == a.maxRemote)
  }

  predicate AllAnswersOK(r: Running) {
    forall o :: 0 <= o < |r.p.objs| ==> AnswersOK(AskedAt(r, o))
  }

  /** What a step may do to it: take the first answer, leave the table, or, where it is in the table, add an answer. */
  predicate Progress(a: Asked, b: Asked) {
    && b.outbound == a.outbound
    && (|| (b.remoteId == a.remoteId && b.maxRemote == a.maxRemote && (b.inTable ==> a.inTable)
            && (b.answers == a.answers || (a.answers != [] && b.answers == a.answers[1..])))
        || (&& a.outbound && a.inTable && |b.answers| == |a.answers| + 1 && b.answers[..|a.answers|] == a.answers
            && var m := b.answers[|a.answers|];
               || (m.OpenConfirmMessage? && PacketSizeOK(m.maxPacketSize)
                   && b.remoteId == m.senderId && b.maxRemote == m.maxPacketSize)
               || (m.OpenFailureMessage? && !b.inTable && b.maxRemote == a.maxRemote)))
  }

  lemma ProgressOK(a: Asked, b: Asked)
    requires AnswersOK(a) && Progress(a, b)
    ensures AnswersOK(b)
  {
    forall i | 0 <= i < |b.answers|
      ensures if b.answers[i].OpenConfirmMessage? then PacketSizeOK(b.maxRemote)
              else b.answers[i].OpenFailureMessage? && i == |b.answers| - 1 && !b.inTable
    {
      if |b.answers| == |a.answers| + 1 {
        if i < |a.answers| { assert b.answers[i] == b.answers[..|a.answers|][i] == a.answers[i]; }
      } else if b.answers == a.answers {
        assert b.answers[i] == a.answers[i];
      } else {
        assert b.answers[i] == a.answers[i + 1];
      }
    }
  }

  lemma AddedSlot(t: Table<nat>, x: nat, o: nat)
    requires o != x
    ensures Some(o) in AddTo<nat>(t, x) <==> Some(o) in t
  {
    var i, t1 := LeastFree<nat>(t), AddTo<nat>(t, x);
    if Some(o) in t {
      var j :| 0 <= j < |t| && t[j] == Some(o);
      assert t1[j] == Some(o);
    }
    if Some(o) in t1 {
      var j :| 0 <= j < |t1| && t1[j] == Some(o);
      assert t[j] == Some(o);
    }
  }

  /** The slot through which a channel was found is its only one. */
  lemma RemovedSlot(p: Peer, id: u32, o: nat)
    requires TableSound(p)
    ensures Some(o) in RemoveFrom<nat>(p.table, id) ==> Some(o) in p.table
    ensures Holder(p, id) == Some(o) ==> Some(o) in p.table && Some(o) !in RemoveFrom<nat>(p.table, id)
  {
    var t1 := RemoveFrom<nat>(p.table, id);
    if Some(o) in t1 {
      var j :| 0 <= j < |t1| && t1[j] == Some(o);
      assert p.table[j] == Some(o);
    }
  }

  /** What a handled message leaves of a session. */
  lemma Delivered(r: Running, m: Message, rest: seq<byte>)
    requires Sound(r) && r.loop.Reading? && Comes(r, m, rest) && !m.OpenMessage? && Holder(r.p, m.channelId).Some?
    ensures var o := Holder(r.p, m.channelId).value; var r1 := AfterPacket(r);
            && o < |r.p.objs| && !r.p.objs[o].msgsClosed
            && var h := Handle(r.p.objs[o], m);
               && r1.p.objs == r.p.objs[o := h.ch] && r1.p.inbox == r.p.inbox
               && r1.p.table == (if h.removed then RemoveFrom<nat>(r.p.table, m.channelId) else r.p.table)
               && r1.loop == match h.verdict
                             case Fine => Reading
                             case Failed(f) => Stopped(f)
                             case Blocked => Posting(o, m)
                             case Panicked => Crashed
  {
    NextIs(r, m, rest);
    LookupSlot(r.p, m.channelId);
    HandleKeepsIdentity(r.p.objs[Holder(r.p, m.channelId).value], m);
  }

  /** What a message tells a channel of the answer to its Open. */
  lemma HandledAnswer(c: Chan, m: Message)
    requires m.WellFormed() && !m.OpenMessage? && !c.msgsClosed
    ensures var h := Handle(c, m); var answer := m.OpenConfirmMessage? || m.OpenFailureMessage?;
            && h.ch.outbound == c.outbound && (answer && !h.verdict.Failed? ==> c.outbound)
            && h.ch.msgs == (if answer && h.verdict.Fine? then c.msgs + [m] else c.msgs)
            && (if m.OpenConfirmMessage? && !h.verdict.Failed? then
                  PacketSizeOK(m.maxPacketSize) && h.ch.remoteId == m.senderId && h.ch.maxRemote == m.maxPacketSize
                else h.ch.remoteId == c.remoteId && h.ch.maxRemote == c.maxRemote)
            && h.removed == (m.CloseMessage? || (m.OpenFailureMessage? && !h.verdict.Failed?))
  {
    HandledAs(c, m);
  }

  /** The channel that handles a message. */
  lemma HandlerAsked(r: Running, m: Message, rest: seq<byte>)
    requires Sound(r) && r.loop.Reading? && Comes(r, m, rest) && !m.OpenMessage? && Holder(r.p, m.channelId).Some?
    ensures var o := Holder(r.p, m.channelId).value;
            o < |r.p.objs| == |AfterPacket(r).p.objs| && Progress(AskedAt(r, o), AskedAt(AfterPacket(r), o))
  {
    var o := Holder(r.p, m.channelId).value;
    Delivered(r, m, rest);
    HandledAs(r.p.objs[o], m);
    HandledAnswer(r.p.objs[o], m);
    RemovedSlot(r.p, m.channelId, o);
    HandlerProgress(r.p.objs[o], m, o, AskedAt(r, o), AskedAt(AfterPacket(r), o));
  }

  lemma HandlerProgress(c: Chan, m: Message, o: nat, a: Asked, b: Asked)
    requires m.WellFormed() && !m.OpenMessage? && !c.msgsClosed && (Handle(c, m).verdict.Blocked? ==> |c.msgs| >= 16)
    requires var h := Handle(c, m); var answer := m.OpenConfirmMessage? || m.OpenFailureMessage?;
             && a == Asked(c.outbound, c.msgs, c.remoteId, c.maxRemote, true)
             && b == Asked(h.ch.outbound, h.ch.msgs + (if h.verdict.Blocked? then [m] else []),
                           h.ch.remoteId, h.ch.maxRemote, !h.removed)
             && (h.verdict.Blocked? ==> answer)
    ensures Progress(a, b)
  {
    HandledAs(c, m);
    HandledAnswer(c, m);
  }

  /** The others. */
  lemma OtherAsked(r: Running, o: nat)
    requires Sound(r) && r.loop.Reading? && o < |r.p.objs|
    requires var n := NextMessage(r.stream);
             n.Bad? || n.message.OpenMessage? || Holder(r.p, n.message.channelId) != Some(o)
    ensures o < |AfterPacket(r).p.objs| && Progress(AskedAt(r, o), AskedAt(AfterPacket(r), o))
  {
    var n := NextMessage(r.stream);
    if n.Got? {
      NextMessageInverse(r.stream);
      if n.message.OpenMessage? {
        OpenAsked(r, n.message, n.rest, o);
      } else {
        RemovedSlot(r.p, n.message.channelId, o);
        if Holder(r.p, n.message.channelId).Some? { Delivered(r, n.message, n.rest); }
      }
    }
  }

  lemma OpenAsked(r: Running, m: Message, rest: seq<byte>, o: nat)
    requires Sound(r) && r.loop.Reading? && Comes(r, m, rest) && m.OpenMessage? && o < |r.p.objs|
    ensures o < |AfterPacket(r).p.objs| && AskedAt(AfterPacket(r), o) == AskedAt(r, o)
  {
    NextIs(r, m, rest);
    AddedSlot(r.p.table, |r.p.objs|, o);
  }

  lemma PacketAsked(r: Running, o: nat)
    requires Sound(r) && r.loop.Reading? && o < |r.p.objs|
    ensures o < |AfterPacket(r).p.objs| && Progress(AskedAt(r, o), AskedAt(AfterPacket(r), o))
  {
    var n := NextMessage(r.stream);
    if n.Bad? || n.message.OpenMessage? || Holder(r.p, n.message.channelId) != Some(o) {
      OtherAsked(r, o);
    } else {
      NextMessageInverse(r.stream);
      HandlerAsked(r, n.message, n.rest);
    }
  }

  lemma TurnAsked(r: Running, o: nat)
    requires Sound(r) && o < |r.p.objs|
    ensures o < |Step(r, PacketArrives).p.objs| && Progress(AskedAt(r, o), AskedAt(Step(r, PacketArrives), o))
  {
    if r.loop.Reading? {
      PacketAsked(r, o);
      AfterPacketSound(r);
      if AfterPacket(r).loop.Stopped? { DropAllSound(AfterPacket(r)); }
    }
  }

  lemma CallAsked(r: Running, i: Input, o: nat)
    requires OfApp(i) && !i.Takes? && i.obj < |r.p.objs| && o < |r.p.objs|
    ensures o < |SessionSpec.Call(r, i).p.objs| && AskedAt(SessionSpec.Call(r, i), o) == AskedAt(r, o)
  {
    AppEffectIdentity(r.p.objs[i.obj], i);
  }

  lemma TakeAsked(r: Running, obj: nat, o: nat)
    requires Sound(r) && o < |r.p.objs| && obj < |r.p.objs|
    ensures o < |Step(r, Takes(obj)).p.objs| && Progress(AskedAt(r, o), AskedAt(Step(r, Takes(obj)), o))
  {
    var msgs := r.p.objs[o].msgs;
    if r.loop.Posting? && r.loop.obj == o == obj && msgs != [] {
      assert (msgs + [r.loop.m])[1..] == msgs[1..] + [r.loop.m];
    } else if msgs != [] {
      assert (msgs + [])[1..] == msgs[1..] + [];
    }
  }

  lemma StepAsked(r: Running, i: Input, o: nat)
    requires Sound(r) && o < |r.p.objs|
    ensures o < |Step(r, i).p.objs| && Progress(AskedAt(r, o), AskedAt(Step(r, i), o))
  {
    match i
    case PacketArrives => TurnAsked(r, o);
    case Opens => AddedSlot(r.p.table, |r.p.objs|, o);
    case Accepts =>
    case Takes(obj) => if obj < |r.p.objs| { TakeAsked(r, obj, o); }
    case _ => if i.obj < |r.p.objs| { CallAsked(r, i, o); }
  }

  /** A new channel has no answers. */
  lemma StepNew(r: Running, i: Input, o: nat)
    requires Sound(r) && |r.p.objs| <= o < |Step(r, i).p.objs|
    ensures AskedAt(Step(r, i), o).answers == []
  {
    if i.PacketArrives? { TurnNew(r, o); }
  }

  lemma TurnNew(r: Running, o: nat)
    requires Sound(r) && |r.p.objs| <= o < |Step(r, PacketArrives).p.objs|
    ensures AskedAt(Step(r, PacketArrives), o).answers == []
  {
    var n := NextMessage(r.stream);
    AfterPacketSound(r);
    if AfterPacket(r).loop.Stopped? { DropAllSound(AfterPacket(r)); }
    if n.Got? {
      NextMessageInverse(r.stream);
      if !n.message.OpenMessage? && Holder(r.p, n.message.channelId).Some? { Delivered(r, n.message, n.rest); }
    }
  }

  lemma StepAnswers(r: Running, i: Input)
    requires Sound(r) && AllAnswersOK(r)
    ensures AllAnswersOK(Step(r, i))
  {
    forall o | 0 <= o < |Step(r, i).p.objs| ensures AnswersOK(AskedAt(Step(r, i), o)) {
      if o < |r.p.objs| {
        StepAsked(r, i, o);
        ProgressOK(AskedAt(r, o), AskedAt(Step(r, i), o));
      } else {
        StepNew(r, i, o);
      }
    }
  }

  lemma {:induction false} RunAnswers(r: Running, inputs: seq<Input>)
    requires Sound(r) && AllAnswersOK(r)
    ensures AllAnswersOK(StepAll(r, inputs))
    decreases |inputs|
  {
    if inputs != [] {
      StepSound(r, inputs[0]);
      StepAnswers(r, inputs[0]);
      RunAnswers(Step(r, inputs[0]), inputs[1..]);
    }
  }

  /** Whatever the peer sends: Open returns a channel only if the peer confirmed it, with a packet size in range,
      and, if that was the only answer, the channel speaks to the id and within the size confirmed; the answer
      is never of another kind; and an opener that was refused is in no slot. */
  lemma OpenedIsConfirmed(stream: seq<byte>, inputs: seq<Input>, o: nat)
    requires o < |StepAll(NewRunning(stream), inputs).p.objs|
    ensures var r := StepAll(NewRunning(stream), inputs); var c := r.p.objs[o];
            && OutcomeOf(c) != UnexpectedAnswer
            && (OutcomeOf(c).Opened? ==> c.outbound && 9 <= c.maxRemote <= 0x8000_0000)
            && (OutcomeOf(c).Opened? && |c.msgs| == 1 && !r.loop.Posting? ==>
                  c.msgs[0] == OpenConfirmMessage(c.msgs[0].channelId, c.remoteId, c.msgs[0].windowSize, c.maxRemote))
            && (forall i :: 0 <= i < |c.msgs| && c.msgs[i].OpenFailureMessage? ==>
                  Some(o) !in r.p.table && i == |c.msgs| - 1)
  {
    RunAnswers(NewRunning(stream), inputs);
    OutcomeSound(StepAll(NewRunning(stream), inputs), o);
  }

  lemma OutcomeSound(r: Running, o: nat)
    requires AllAnswersOK(r) && o < |r.p.objs|
    ensures var c := r.p.objs[o];
            && OutcomeOf(c) != UnexpectedAnswer
            && (OutcomeOf(c).Opened? ==> c.outbound && 9 <= c.maxRemote <= 0x8000_0000)
            && (OutcomeOf(c).Opened? && |c.msgs| == 1 && !r.loop.Posting? ==>
                  c.msgs[0] == OpenConfirmMessage(c.msgs[0].channelId, c.remoteId, c.msgs[0].windowSize, c.maxRemote))
            && (forall i :: 0 <= i < |c.msgs| && c.msgs[i].OpenFailureMessage? ==>
                  Some(o) !in r.p.table && i == |c.msgs| - 1)
  {
    var c, a := r.p.objs[o], AskedAt(r, o);
    assert AnswersOK(a);
    assert forall i :: 0 <= i < |c.msgs| ==> a.answers[i] == c.msgs[i];
  }

  /** What the first packet for an opener that has no answer yet makes of its Open: a confirm opens it, to
      what it names; a failure refuses it and frees its slot; a Close, or whatever stops the loop, closes it
      early; anything else leaves Open waiting. */
  lemma AnswerTells(r: Running, m: Message, rest: seq<byte>)
    requires Sound(r) && r.loop.Reading? && Comes(r, m, rest) && !m.OpenMessage? && TableInRange(r.p)
    requires InSlot(r.p, m.channelId).Some?
    requires r.p.objs[InSlot(r.p, m.channelId).value].outbound
    requires r.p.objs[InSlot(r.p, m.channelId).value].msgs == []
    ensures var o := InSlot(r.p, m.channelId).value;
            var r1 := Step(r, PacketArrives);
            && o < |r1.p.objs|
            && var c := r1.p.objs[o];
               if Offends(r.p, m) then OutcomeOf(c).ClosedEarly? && Some(o) !in r1.p.table
               else if m.OpenConfirmMessage? then
                 && OutcomeOf(c).Opened? && Some(o) in r1.p.table
                 && c.remoteId == m.senderId && c.maxRemote == m.maxPacketSize
               else if m.OpenFailureMessage? then OutcomeOf(c).Refused? && Some(o) !in r1.p.table
               else if m.CloseMessage? then OutcomeOf(c).ClosedEarly? && Some(o) !in r1.p.table
               else OutcomeOf(c).NoAnswerYet? && Some(o) in r1.p.table
  {
    var o := InSlot(r.p, m.channelId).value;
    AfterPacketSound(r);
    Delivered(r, m, rest);
    HandledAs(r.p.objs[o], m);
    HandledAnswer(r.p.objs[o], m);
    HandledClose(r.p.objs[o], m);
    RemovedSlot(r.p, m.channelId, o);
    if AfterPacket(r).loop.Stopped? { DropAllSound(AfterPacket(r)); }
  }

  lemma HandledClose(c: Chan, m: Message)
    requires !m.OpenMessage? && !c.msgsClosed
    ensures Handle(c, m).ch.msgsClosed == m.CloseMessage?
  {
    if m.DataMessage? {
    } else if m.OpenConfirmMessage? {
    }
  }

  // ---- Accept ----

  /** The channels that peers opened, in the order in which their opens arrived. */
  function Incoming(objs: seq<Chan>): seq<nat> {
    if objs == [] then []
    else
      var last := |objs| - 1;
      Incoming(objs[..last]) + if objs[last].outbound then [] else [last]
  }

  lemma {:induction false} SameIncoming(objs: seq<Chan>, objs1: seq<Chan>)
    requires |objs1| == |objs| && forall k :: 0 <= k < |objs| ==> objs1[k].outbound == objs[k].outbound
    ensures Incoming(objs1) == Incoming(objs)
  {
    if objs != [] { SameIncoming(objs[..|objs| - 1], objs1[..|objs| - 1]); }
  }

  /** One step hands out this channel, if any. */
  function HandedOut(r: Running, i: Input): seq<nat> {
    if i.Accepts? && r.p.inbox != [] then [r.p.inbox[0]] else []
  }

  function AllHandedOut(r: Running, inputs: seq<Input>): seq<nat>
    requires Sound(r)
    decreases |inputs|
  {
    if inputs == [] then []
    else
      StepSound(r, inputs[0]);
      HandedOut(r, inputs[0]) + AllHandedOut(Step(r, inputs[0]), inputs[1..])
  }

  /** The channels still to be accepted, the one that the loop waits with last. */
  function ToAccept(r: Running): seq<nat> {
    r.p.inbox + if r.loop.Queueing? then [r.loop.obj] else []
  }

  /** What a step adds to the incoming channels it adds to those to be accepted. */
  ghost predicate InOrder(r: Running, i: Input, r1: Running) {
    exists more ::
      Incoming(r1.p.objs) == Incoming(r.p.objs) + more && ToAccept(r) + more == HandedOut(r, i) + ToAccept(r1)
  }

  lemma NoneMore(r: Running, i: Input, r1: Running)
    requires Incoming(r1.p.objs) == Incoming(r.p.objs) && ToAccept(r) == HandedOut(r, i) + ToAccept(r1)
    ensures InOrder(r, i, r1)
  {
    assert Incoming(r1.p.objs) == Incoming(r.p.objs) + [] && ToAccept(r) + [] == HandedOut(r, i) + ToAccept(r1);
  }

  lemma OneMore(r: Running, r1: Running, c: Chan)
    requires r1.p.objs == r.p.objs + [c] && !c.outbound && ToAccept(r1) == ToAccept(r) + [|r.p.objs|]
    ensures InOrder(r, PacketArrives, r1)
  {
    assert r1.p.objs[..|r.p.objs|] == r.p.objs;
    assert Incoming(r1.p.objs) == Incoming(r.p.objs) + [|r.p.objs|];
    assert HandedOut(r, PacketArrives) + ToAccept(r1) == ToAccept(r1);
  }

  lemma HandlingOrder(r: Running, m: Message, rest: seq<byte>)
    requires Sound(r) && r.loop.Reading? && Comes(r, m, rest) && !m.OpenMessage?
    ensures var r1 := AfterPacket(r);
            r1.p.inbox == r.p.inbox && !r1.loop.Queueing? && Incoming(r1.p.objs) == Incoming(r.p.objs)
  {
    NextIs(r, m, rest);
    if Holder(r.p, m.channelId).Some? {
      Delivered(r, m, rest);
      HandledAnswer(r.p.objs[Holder(r.p, m.channelId).value], m);
    }
    SameIncoming(r.p.objs, AfterPacket(r).p.objs);
  }

  lemma OpenOrder(r: Running, m: Message, rest: seq<byte>)
    requires Sound(r) && r.loop.Reading? && Comes(r, m, rest) && m.OpenMessage?
    ensures InOrder(r, PacketArrives, Step(r, PacketArrives))
  {
    if PacketSizeOK(m.maxPacketSize) {
      OpenTaken(r, m.senderId, m.windowSize, m.maxPacketSize, rest);
      OneMore(r, Step(r, PacketArrives), AcceptedChannel(Truncate32(LeastFree(r.p.table)), m));
    } else {
      OpenRefused(r, m.senderId, m.windowSize, m.maxPacketSize, rest);
      NoneMore(r, PacketArrives, Step(r, PacketArrives));
    }
  }

  lemma TurnOrder(r: Running)
    requires Sound(r)
    ensures InOrder(r, PacketArrives, Step(r, PacketArrives))
  {
    var n := NextMessage(r.stream);
    if n.Got? { NextMessageInverse(r.stream); }
    if !r.loop.Reading? {
      NoneMore(r, PacketArrives, r);
    } else if n.Got? && n.message.OpenMessage? {
      OpenOrder(r, n.message, n.rest);
    } else {
      if n.Got? { HandlingOrder(r, n.message, n.rest); }
      ExitOrder(r);
      NoneMore(r, PacketArrives, Step(r, PacketArrives));
    }
  }

  lemma ExitOrder(r: Running)
    requires Sound(r) && r.loop.Reading?
    ensures var r1, r2 := AfterPacket(r), Step(r, PacketArrives);
            r2.p.inbox == r1.p.inbox && r2.loop == r1.loop && Incoming(r2.p.objs) == Incoming(r1.p.objs)
  {
    TurnSound(r);
    if AfterPacket(r).loop.Stopped? {
      DropAllSound(AfterPacket(r));
      SameIncoming(AfterPacket(r).p.objs, DropAll(AfterPacket(r)).p.objs);
    }
  }

  lemma CallOrder(r: Running, i: Input)
    requires Sound(r) && OfApp(i) && i.obj < |r.p.objs|
    ensures Incoming(Step(r, i).p.objs) == Incoming(r.p.objs)
    ensures ToAccept(Step(r, i)) == ToAccept(r)
  {
    forall k | 0 <= k < |r.p.objs| ensures Step(r, i).p.objs[k].outbound == r.p.objs[k].outbound {
      StepAsked(r, i, k);
    }
    SameIncoming(r.p.objs, Step(r, i).p.objs);
  }

  lemma StepOrder(r: Running, i: Input)
    requires Sound(r)
    ensures InOrder(r, i, Step(r, i))
  {
    match i
    case PacketArrives => TurnOrder(r);
    case Opens =>
      assert StartOpen(r.p).objs[..|r.p.objs|] == r.p.objs;
      NoneMore(r, i, Step(r, i));
    case Accepts => NoneMore(r, i, Step(r, i));
    case _ =>
      if i.obj < |r.p.objs| { CallOrder(r, i); }
      NoneMore(r, i, Step(r, i));
  }

  lemma {:induction false} RunOrder(r: Running, inputs: seq<Input>, before: seq<nat>)
    requires Sound(r) && before + ToAccept(r) == Incoming(r.p.objs)
    ensures var r1 := StepAll(r, inputs);
            before + AllHandedOut(r, inputs) + ToAccept(r1) == Incoming(r1.p.objs)
    decreases |inputs|
  {
    if inputs == [] {
      assert before + [] == before;
    } else {
      var r1, first := Step(r, inputs[0]), HandedOut(r, inputs[0]);
      StepSound(r, inputs[0]);
      StepOrder(r, inputs[0]);
      var more :| Incoming(r1.p.objs) == Incoming(r.p.objs) + more && ToAccept(r) + more == first + ToAccept(r1);
      Assoc(before, ToAccept(r), more);
      Assoc(before, first, ToAccept(r1));
      RunOrder(r1, inputs[1..], before + first);
      Assoc(before, first, AllHandedOut(r1, inputs[1..]));
    }
  }

  /** Accept hands out the channels that the peer opened each once, in the order in which their opens
      arrived, whatever the peer sends and whenever the loop has to wait: those handed out so far, those in
      the inbox, and the one that the loop waits with are all there are. */
  lemma AcceptsInOrder(stream: seq<byte>, inputs: seq<Input>)
    ensures Sound(NewRunning(stream))
    ensures var r := StepAll(NewRunning(stream), inputs);
            AllHandedOut(NewRunning(stream), inputs) + ToAccept(r) == Incoming(r.p.objs)
  {
    RunOrder(NewRunning(stream), inputs, []);
    var out := AllHandedOut(NewRunning(stream), inputs);
    assert [] + out == out;
  }
}
