/** The session object: its channel table, its loop, and the opening of channels. */
module Sessions {
  import opened Bytes
  import opened Codec
  import opened ChanTable
  import opened ChannelSpec
  import opened SessionSpec
  import opened Channels
  import PeerRuns

  ghost function Serial(s: Option<Channel>): Option<nat> {
    if s.Some? then Some(s.value.serial) else None
  }

  /** The table of channels as the table of their serial numbers. */
  ghost function Serials(t: Table<Channel>): Table<nat> {
    seq(|t|, i requires 0 <= i < |t| => Serial(t[i]))
  }

  lemma SerialsLookup(t: Table<Channel>, id: u32)
    ensures Lookup<nat>(Serials(t), id) == Serial(Lookup(t, id))
    ensures Serials(RemoveFrom(t, id)) == RemoveFrom<nat>(Serials(t), id)
  {
  }

  lemma {:induction false} SerialsLeastFree(t: Table<Channel>)
    ensures LeastFree<nat>(Serials(t)) == LeastFree(t)
  {
    if t != [] {
      assert Serials(t)[1..] == Serials(t[1..]);
      SerialsLeastFree(t[1..]);
    }
  }

  lemma {:induction false} SerialsPresent(t: Table<Channel>)
    ensures |Present<nat>(Serials(t))| == |Present(t)|
    ensures forall i :: 0 <= i < |Present(t)| ==> Present<nat>(Serials(t))[i] == Present(t)[i].serial
    ensures forall i :: 0 <= i < |Present(t)| ==> Some(Present(t)[i]) in t
  {
    if t != [] {
      assert Serials(t)[1..] == Serials(t[1..]) && t == [t[0]] + t[1..];
      SerialsPresent(t[1..]);
    }
  }

  lemma SerialsAdd(t: Table<Channel>, c: Channel)
    ensures Serials(AddTo(t, c)) == AddTo<nat>(Serials(t), c.serial)
  {
    SerialsLeastFree(t);
  }

  /** A send into a Go channel: of a channel into the inbox, or of a message into a channel's queue. */
  datatype Sending = IntoInbox(c: Channel) | IntoQueue(c: Channel, m: Message)

  class Session {
    const t: Transport
    const enc: Encoder
    const dec: Decoder
    const chans: ChanList<Channel>
    var inbox: seq<Channel>
    var closeCh: bool                 // whether it holds its token
    var err: Option<Failure>          // why the loop has stopped
    var waiting: Option<Sending>      // the send into a Go channel that the loop waits in
    ghost var created: seq<Channel>   // every channel made, in order of serial number
    ghost var Repr: set<object>       // their objects

    ghost predicate Mine(c: Channel)
      reads `created
    {
      c.serial < |created| && created[c.serial] == c
    }

    /** The channels made, and that they share nothing. */
    ghost predicate Objects()
      reads `created, `Repr, Repr
    {
      && enc.w == t && dec.r == t
      && this !in Repr && chans !in Repr && t !in Repr
      && (forall i :: 0 <= i < |created| ==>
            && created[i] in Repr && created[i].Repr <= Repr && created[i].serial == i
            && created[i].enc == enc && created[i].chans == chans && created[i].Valid())
      && (forall i, j :: 0 <= i < j < |created| ==> created[i].Repr !! created[j].Repr)
    }

    ghost predicate TableMine()
      reads `created, chans
    {
      forall k :: 0 <= k < |chans.chans| && chans.chans[k].Some? ==> Mine(chans.chans[k].value)
    }

    ghost predicate InboxMine()
      reads `created, `inbox
    {
      forall k :: 0 <= k < |inbox| ==> Mine(inbox[k])
    }

    ghost predicate Valid()
      reads this, chans, Repr
    {
      Objects() && TableMine() && InboxMine() && (waiting.Some? ==> Mine(waiting.value.c))
    }

    ghost function Models(): seq<Chan>
      requires Objects()
      reads `created, `Repr, Repr
    {
      var cs, r := created, Repr;
      seq(|cs|, i requires 0 <= i < |cs| && cs[i] in r reads r => cs[i].model)
    }

    ghost function InboxSerials(): seq<nat>
      reads `inbox
    {
      var q := inbox;
      seq(|q|, i requires 0 <= i < |q| => q[i].serial)
    }

    /** What the loop is at. It never panics: see the contracts of its methods. */
    ghost function Loop(): LoopState
      reads `err, `waiting
    {
      if err.Some? then Stopped(err.value)
      else if waiting.None? then Reading
      else
        match waiting.value
        case IntoInbox(c) => Queueing(c.serial)
        case IntoQueue(c, m) => Posting(c.serial, m)
    }

    /** The session end, its loop and its transport as a value. */
    ghost function State(): Running
      requires Valid()
      reads this, chans, Repr, t
    {
      Running(Model(), t.incoming, Loop(), t.sent)
    }

    /** The session end as a value. */
    ghost function Model(): Peer
      requires Valid()
      reads this, chans, Repr
    {
      Peer(Models(), Serials(chans.chans), InboxSerials())
    }

    constructor (t: Transport)
      ensures Valid() && Model() == NEW_PEER && Loop() == Reading && this.t == t && fresh(chans)
    {
      this.t := t;
      enc := new Encoder(t);
      dec := new Decoder(t);
      chans := new ChanList();
      inbox, closeCh, err, waiting := [], false, None, None;
      created, Repr := [], {};
    }

    lemma ModelInRange()
      requires Valid()
      ensures TableInRange(Model())
    {
    }

    /** Since the old state one channel's objects changed, the others stayed as they were,
        and no slot of the table was filled. */
    twostate predicate OneChanged(n: nat)
      reads *
    {
      && old(Valid()) && created == old(created) && n < |created|
      && inbox == old(inbox) && waiting == old(waiting)
      && created[n].Valid() && fresh(created[n].Repr - old(created[n].Repr)) && Repr == old(Repr) + created[n].Repr
      && (forall o: object :: o in old(Repr) && o !in old(created[n].Repr) ==> unchanged(o))
      && (forall k :: 0 <= k < |chans.chans| && chans.chans[k].Some? ==>
            k < |old(chans.chans)| && chans.chans[k] == old(chans.chans)[k])
    }

    twostate lemma OthersKept(n: nat)
      requires OneChanged(n)
      ensures forall i :: 0 <= i < |created| && i != n ==>
                && created[i].Valid() && created[i].model == old(created[i].model)
                && created[i].Repr == old(created[i].Repr) && created[i].Repr !! created[n].Repr
    {
      assert forall i :: 0 <= i < |created| && i != n ==> created[i].Repr !! old(created[n].Repr);
    }

    twostate lemma StillValid(n: nat)
      requires OneChanged(n)
      ensures Valid()
    {
      OthersKept(n);
    }

    twostate lemma OneModelChanged(n: nat)
      requires OneChanged(n) && Valid()
      ensures Model().objs == old(Model()).objs[n := created[n].model]
      ensures Model().inbox == old(Model()).inbox
    {
      OthersKept(n);
    }

    /** The channel that a message names handles it. */
    method Deliver(c: Channel, m: Message) returns (verdict: Verdict)
      requires Valid() && Mine(c) && !m.OpenMessage?
      requires TableInRange(Model()) && Holder(Model(), m.channelId) == Some(c.serial)
      modifies this`Repr, chans, t`sent, Repr
      ensures Valid() && fresh(Repr - old(Repr)) && Mine(c)
      ensures var q := Receive(old(Model()), m);
              && Model() == q.p && verdict == q.verdict && q.actor == Some(c.serial)
              && t.sent == old(t.sent) + EncodingAll(q.out)
    {
      ReceivedBy(Model(), m, c.serial);
      ghost var h := ChannelSpec.Handle(c.model, m);
      SerialsLookup(chans.chans, FreedId(h.ch, m));
      verdict := c.Handle(m);
      Repr := Repr + c.Repr;
      StillValid(c.serial);
      OneModelChanged(c.serial);
    }

    /** The loop comes to a wait, or, with None, out of one. */
    method Wait(w: Option<Sending>)
      requires Valid() && (w.Some? ==> Mine(w.value.c))
      modifies this`waiting
      ensures Valid() && Model() == old(Model()) && waiting == w
    {
      waiting := w;
    }

    /** The loop stops reading. */
    method Fail(f: Failure)
      requires Valid()
      modifies this`err
      ensures Valid() && Model() == old(Model()) && err == Some(f)
    {
      err := Some(f);
    }

    /** The dispatch of onePacket; `ch` is the channel found. */
    method Dispatch(m: Message) returns (verdict: Verdict, ch: Option<Channel>)
      requires Valid() && !m.OpenMessage?
      modifies this`Repr, chans, t`sent, Repr
      ensures Valid() && fresh(Repr - old(Repr)) && (ch.Some? ==> Mine(ch.value))
      ensures TableInRange(old(Model()))
      ensures var q := Receive(old(Model()), m);
              && Model() == q.p && verdict == q.verdict && q.actor == Serial(ch)
              && t.sent == old(t.sent) + EncodingAll(q.out)
    {
      ModelInRange();
      SerialsLookup(chans.chans, m.channelId);
      ch := chans.GetChan(m.channelId);
      if ch.None? {
        NothingSent(t.sent);
        verdict := Failed(InvalidChannel);
      } else {
        verdict := Deliver(ch.value, m);
      }
    }

    // ---- Making channels ----

    /** Since the old state one channel was made and put in the table, and nothing else changed. */
    twostate predicate OneAdded()
      reads *
    {
      && old(Valid()) && |created| == |old(created)| + 1 && created[..|old(created)|] == old(created)
      && inbox == old(inbox) && waiting == old(waiting)
      && (var c := created[|old(created)|];
          && c.Valid() && fresh(c.Repr) && c.enc == enc && c.chans == chans && c.serial == |old(created)|
          && Repr == old(Repr) + c.Repr && chans.chans == AddTo(old(chans.chans), c))
      && (forall o: object :: o in old(Repr) ==> unchanged(o))
    }

    twostate lemma OlderKept()
      requires OneAdded()
      ensures forall i :: 0 <= i < |old(created)| ==>
                && created[i] == old(created)[i] && created[i].Valid()
                && created[i].model == old(created[i].model) && created[i].Repr == old(created[i].Repr)
    {
    }

    twostate lemma AddedApart()
      requires OneAdded()
      ensures forall i, j :: 0 <= i < j < |created| ==> created[i].Repr !! created[j].Repr
    {
      OlderKept();
      assert forall i :: 0 <= i < |old(created)| ==> created[i].Repr !! created[|old(created)|].Repr;
    }

    twostate lemma AddedMine()
      requires OneAdded()
      ensures forall k :: 0 <= k < |chans.chans| && chans.chans[k].Some? ==> Mine(chans.chans[k].value)
      ensures forall k :: 0 <= k < |inbox| ==> Mine(inbox[k])
    {
      var c := created[|old(created)|];
      assert Mine(c);
      assert forall k :: 0 <= k < |chans.chans| && chans.chans[k].Some? ==>
               chans.chans[k] == Some(c) || (k < |old(chans.chans)| && chans.chans[k] == old(chans.chans)[k]);
    }

    twostate lemma AddedValid()
      requires OneAdded()
      ensures Valid()
    {
      OlderKept();
      AddedApart();
      AddedMine();
    }

    twostate lemma AddedModel()
      requires OneAdded() && Valid()
      ensures Model() == Register(old(Model()), created[|old(created)|].model)
    {
      OlderKept();
      SerialsAdd(old(chans.chans), created[|old(created)|]);
    }

    /** newChannel, and the payload size both its callers set. */
    method MakeChannel(outbound: bool) returns (c: Channel)
      modifies chans
      ensures c.Valid() && fresh(c.Repr) && c.enc == enc && c.chans == chans && c.serial == |created|
      ensures c.model == NewChan(outbound, Truncate32(LeastFree(old(chans.chans)))).(maxIncoming := CHANNEL_MAX_PACKET)
      ensures chans.chans == AddTo(old(chans.chans), c)
    {
      c := new Channel(outbound, enc, chans, |created|);
      var id := chans.Add(c);
      c.SetUp(id);
    }

    method NewChannel(outbound: bool) returns (c: Channel)
      requires Valid()
      modifies this`created, this`Repr, chans
      ensures OneAdded() && c == created[|old(created)|]
      ensures c.model == NewChan(outbound, NextId(old(Model()))).(maxIncoming := CHANNEL_MAX_PACKET)
    {
      SerialsLeastFree(chans.chans);
      c := MakeChannel(outbound);
      created := created + [c];
      Repr := Repr + c.Repr;
    }

    method Emit(m: Message)
      requires Valid()
      modifies t`sent
      ensures Valid() && Model() == old(Model()) && t.sent == old(t.sent) + EncodingAll([m])
    {
      OneEncoding(m);
      enc.Encode(m);
    }

    /** Open, before it waits. */
    method StartOpen() returns (c: Channel)
      requires Valid()
      modifies this`created, this`Repr, chans, t`sent
      ensures Valid() && fresh(Repr - old(Repr)) && c.serial == |old(created)| && Mine(c)
      ensures TableInRange(old(Model())) && State() == Step(old(State()), Opens)
    {
      ModelInRange();
      c := NewChannel(true);
      AddedValid();
      AddedModel();
      Emit(OpenMessage(c.localId, c.myWindow, c.maxIncoming));
    }

    /** The channel that an acceptable open message makes. */
    method NewIncoming(m: Message) returns (c: Channel)
      requires Valid() && m.OpenMessage?
      modifies this`created, this`Repr, chans
      ensures Valid() && fresh(Repr - old(Repr)) && Mine(c) && c.serial == |old(created)|
      ensures c.model == AcceptedChannel(NextId(old(Model())), m)
      ensures Model() == Register(old(Model()), c.model)
    {
      c := NewChannel(false);
      c.Establish(m.senderId, m.windowSize, m.maxPacketSize);
      AddedValid();
      AddedModel();
    }

    /** handleOpen, up to where it waits if the inbox is full; `c` is the channel made. */
    method HandleOpen(m: Message) returns (verdict: Verdict, c: Option<Channel>)
      requires Valid() && m.OpenMessage?
      modifies this`created, this`Repr, this`inbox, chans, t`sent
      ensures Valid() && fresh(Repr - old(Repr)) && (c.Some? ==> Mine(c.value))
      ensures var q := SessionSpec.HandleOpen(old(Model()), m);
              && Model() == q.p && verdict == q.verdict && q.actor == Serial(c)
              && t.sent == old(t.sent) + EncodingAll(q.out)
    {
      if m.maxPacketSize < MIN_PACKET || m.maxPacketSize > MAX_PACKET {
        Emit(OpenFailureMessage(m.senderId));
        return Fine, None;
      }
      verdict, c := TakeOpen(m);
    }

    method TakeOpen(m: Message) returns (verdict: Verdict, c: Option<Channel>)
      requires Valid() && m.OpenMessage? && ValidMaxPacket(m.maxPacketSize)
      modifies this`created, this`Repr, this`inbox, chans, t`sent
      ensures Valid() && fresh(Repr - old(Repr)) && (c.Some? ==> Mine(c.value))
      ensures var q := SessionSpec.HandleOpen(old(Model()), m);
              && Model() == q.p && verdict == q.verdict && q.actor == Serial(c)
              && t.sent == old(t.sent) + EncodingAll(q.out)
    {
      var made := NewIncoming(m);
      c := Some(made);
      if |inbox| >= CHAN_SIZE {
        NothingSent(t.sent);
        verdict := Blocked;
      } else {
        Admit(made);
        verdict := Fine;
      }
    }

    /** The end of handleOpen: the channel goes into the inbox, which has room, and the open is confirmed. */
    method Admit(c: Channel)
      requires Valid() && Mine(c)
      modifies this`inbox, t`sent
      ensures Valid() && Model() == old(Model()).(inbox := old(Model()).inbox + [c.serial])
      ensures t.sent == old(t.sent) + EncodingAll([OpenReply(c.model)])
    {
      Queue(c);
      Emit(OpenConfirmMessage(c.remoteId, c.localId, c.myWindow, c.maxIncoming));
    }

    /** s.inbox <- c */
    method Queue(c: Channel)
      requires Valid() && Mine(c)
      modifies this`inbox
      ensures Valid() && Model() == old(Model()).(inbox := old(Model()).inbox + [c.serial])
    {
      inbox := inbox + [c];
    }

    // ---- Steps ----

    method NextIn() returns (r: MessageResult)
      requires Valid()
      modifies t`incoming
      ensures Valid() && Model() == old(Model()) && TableInRange(Model())
      ensures r == NextMessage(old(t.incoming)) && t.incoming == AfterNext(old(t.incoming))
      ensures r.Got? ==> t.incoming == r.rest
    {
      r := dec.Decode();
      ModelInRange();
    }

    /** onePacket, up to where its send into a Go channel waits: Resume has the rest. */
    method OnePacket()
      requires Valid() && Sound(State()) && Loop().Reading?
      modifies this, chans, t, Repr
      ensures Valid() && fresh(Repr - old(Repr)) && State() == AfterPacket(old(State())) && closeCh == old(closeCh)
    {
      AfterPacketSound(State());
      var r := NextIn();
      if r.Bad? {
        Fail(UndecodablePacket(r.error));
        return;
      }
      var verdict, c := HandleMessage(r.message);
      Settle(r.message, verdict, c, Receive(old(Model()), r.message));
    }

    /** What the loop is at after a message was handled as q tells. */
    method Settle(m: Message, verdict: Verdict, c: Option<Channel>, ghost q: Received)
      requires Valid() && Loop().Reading? && verdict == q.verdict && !verdict.Panicked?
      requires q.actor == Serial(c) && (c.Some? ==> Mine(c.value)) && (verdict.Blocked? ==> c.Some?)
      modifies this`err, this`waiting
      ensures Valid() && Model() == old(Model()) && Loop() == LoopAfter(q, m)
    {
      if verdict.Failed? { Fail(verdict.f); }
      if verdict.Blocked? { Wait(Some(if m.OpenMessage? then IntoInbox(c.value) else IntoQueue(c.value, m))); }
    }

    method HandleMessage(m: Message) returns (verdict: Verdict, c: Option<Channel>)
      requires Valid()
      modifies this`created, this`Repr, this`inbox, chans, t`sent, Repr
      ensures Valid() && fresh(Repr - old(Repr)) && (c.Some? ==> Mine(c.value))
      ensures TableInRange(old(Model()))
      ensures var q := Receive(old(Model()), m);
              && Model() == q.p && verdict == q.verdict && q.actor == Serial(c)
              && t.sent == old(t.sent) + EncodingAll(q.out)
    {
      ModelInRange();
      if m.OpenMessage? {
        verdict, c := HandleOpen(m);
      } else {
        verdict, c := Dispatch(m);
      }
    }

    /** A turn of the loop: a packet, and the loop's exit if that ends in an error. */
    method Turn()
      requires Valid() && Sound(State()) && Loop().Reading?
      modifies this, chans, t, Repr
      ensures Valid() && fresh(Repr - old(Repr)) && State() == Step(old(State()), PacketArrives)
      ensures closeCh == (old(closeCh) || Loop().Stopped?)
    {
      ghost var r := AfterPacket(State());
      TurnSound(State());
      OnePacket();
      if err.Some? {
        LeaveToken();
        Stop(r);
      }
    }

    /** s.closeCh <- true, which never waits: the loop ends once. */
    method LeaveToken()
      requires Valid()
      modifies this`closeCh
      ensures Valid() && State() == old(State()) && closeCh
    {
      closeCh := true;
    }

    /** loop, until it has stopped or has to wait: a number of turns, and no panic. */
    method LoopOn() returns (ghost turns: seq<Input>)
      requires Valid() && Sound(State())
      modifies this, chans, t, Repr
      ensures Valid() && fresh(Repr - old(Repr)) && !Loop().Reading?
      ensures (forall i :: 0 <= i < |turns| ==> turns[i] == PacketArrives) && State() == StepAll(old(State()), turns)
    {
      turns := [];
      ghost var start := State();
      while err.None? && waiting.None?
        invariant Valid() && fresh(Repr - old(Repr)) && Sound(State())
        invariant (forall i :: 0 <= i < |turns| ==> turns[i] == PacketArrives) && State() == StepAll(start, turns)
        decreases |t.incoming|, Loop().Reading?
      {
        StepAllSnoc(start, turns, PacketArrives);
        StepSound(State(), PacketArrives);
        TurnShortens(State());
        Turn();
        turns := turns + [PacketArrives];
      }
    }

    /** The rest of a send into a Go channel that the loop waits in, if there is room. */
    method Resume()
      requires Valid() && (Loop().Posting? ==> !Model().objs[Loop().obj].msgsClosed)
      modifies this`inbox, this`waiting, this`Repr, t`sent, Repr
      ensures Valid() && fresh(Repr - old(Repr)) && State() == Resumed(old(State()))
    {
      if err.Some? || waiting.None? { return; }
      var c := waiting.value.c;
      if waiting.value.IntoInbox? {
        if |inbox| >= CHAN_SIZE { return; }
        Wait(None);
        Admit(c);
      } else {
        var verdict := Put(c, waiting.value.m);
        if verdict.Fine? { Wait(None); }
      }
    }

    /** c.msg <- m */
    method Put(c: Channel, m: Message) returns (verdict: Verdict)
      requires Valid() && Mine(c)
      modifies this`Repr, Repr
      ensures Valid() && fresh(Repr - old(Repr))
      ensures var h := ChannelSpec.Post(old(c.model), m, false);
              verdict == h.verdict && Model() == old(Model()).(objs := old(Model()).objs[c.serial := h.ch])
    {
      verdict := c.Post(m);
      assert Repr == old(Repr) + c.Repr;
      StillValid(c.serial);
      OneModelChanged(c.serial);
    }

    /** Accept, where it need not wait: the first channel of the inbox, or, where its select takes the
        token that the end of the loop left, an EOF. */
    method Accept(token: bool) returns (c: Option<Channel>, eof: bool)
      requires Valid() && Sound(State())
      modifies this`inbox, this`waiting, this`Repr, this`closeCh, t`sent, Repr
      ensures Valid() && fresh(Repr - old(Repr)) && eof == (token && old(closeCh))
      ensures closeCh == (old(closeCh) && !eof)
      ensures State() == if eof then old(State()) else Step(old(State()), Accepts)
      ensures c == if eof || old(inbox) == [] then None else Some(old(inbox)[0])
      ensures c.Some? ==> Mine(c.value)
    {
      eof := token && closeCh;
      if eof {
        closeCh := false;
        return None, true;
      }
      c := AcceptNext();
    }

    method AcceptNext() returns (c: Option<Channel>)
      requires Valid() && Sound(State())
      modifies this`inbox, this`waiting, this`Repr, t`sent, Repr
      ensures Valid() && fresh(Repr - old(Repr)) && State() == Step(old(State()), Accepts)
      ensures c == if old(inbox) == [] then None else Some(old(inbox)[0])
      ensures c.Some? ==> Mine(c.value)
    {
      c := FromInbox();
      if c.Some? { Resume(); }
    }

    method FromInbox() returns (c: Option<Channel>)
      requires Valid()
      modifies this`inbox
      ensures Valid() && c == (if old(inbox) == [] then None else Some(old(inbox)[0])) && (c.Some? ==> Mine(c.value))
      ensures Model() == if c.None? then old(Model()) else old(Model()).(inbox := old(Model()).inbox[1..])
    {
      if inbox == [] { return None; }
      c := Some(inbox[0]);
      inbox := inbox[1..];
    }

    /** The rest of Open: its context is done, and all stays as it is, the slot included; or the
        answer in the channel's queue, if there is one, tells the outcome. */
    method FinishOpen(c: Channel, done: bool) returns (r: OpenOutcome)
      requires Valid() && Sound(State()) && Mine(c)
      modifies this`inbox, this`waiting, this`Repr, t`sent, Repr
      ensures Valid() && fresh(Repr - old(Repr)) && r == if done then Canceled else OutcomeOf(old(c.model))
      ensures State() == if done then old(State()) else Step(old(State()), Takes(c.serial))
      ensures PeerRuns.AllAnswersOK(old(State())) ==>
                && r != UnexpectedAnswer
                && (r.Opened? ==> old(c.model).outbound && 9 <= old(c.model).maxRemote <= 0x8000_0000)
    {
      if done { return Canceled; }
      if PeerRuns.AllAnswersOK(State()) { PeerRuns.OutcomeSound(State(), c.serial); }
      r := Outcome(c);
    }

    /** What the queue of an opener tells. */
    method Outcome(c: Channel) returns (r: OpenOutcome)
      requires Valid() && Sound(State()) && Mine(c)
      modifies this`inbox, this`waiting, this`Repr, t`sent, Repr
      ensures Valid() && fresh(Repr - old(Repr)) && r == OutcomeOf(old(c.model))
      ensures State() == Step(old(State()), Takes(c.serial))
    {
      var closed := c.msgClosed;
      ghost var r1 := SessionSpec.Call(State(), Takes(c.serial));
      CallSound(State(), Takes(c.serial));
      NothingSent(t.sent);
      var m := TakeAnswer(c);
      assert State() == r1;
      Resume();
      if m.None? { return if closed then ClosedEarly else NoAnswerYet; }
      if m.value.OpenConfirmMessage? { return Opened; }
      if m.value.OpenFailureMessage? { return Refused; }
      return UnexpectedAnswer;
    }

    method TakeAnswer(c: Channel) returns (m: Option<Message>)
      requires Valid() && Mine(c)
      modifies c
      ensures Valid() && Model() == old(Model()).(objs := old(Model()).objs[c.serial := TakeMsg(old(c.model))])
      ensures m == if old(c.model).msgs == [] then None else Some(old(c.model).msgs[0])
    {
      m := c.Receive();
      assert Repr == old(Repr) + c.Repr;
      StillValid(c.serial);
      OneModelChanged(c.serial);
    }

    /** An application's other calls on a channel: an iteration of Write, a part of Read, CloseWrite, Close. */
    method Call(c: Channel, i: Input)
      requires Valid() && Mine(c) && OfApp(i) && !i.Takes? && i.obj == c.serial
      requires i.GivesBack? ==> 0 < i.n <= c.model.owed
      modifies this`Repr, t`sent, Repr
      ensures Valid() && fresh(Repr - old(Repr)) && State() == SessionSpec.Call(old(State()), i)
    {
      assert Model().objs[i.obj] == c.model;
      CallOn(c, i);
    }

    method CallOn(c: Channel, i: Input)
      requires Valid() && Mine(c) && OfApp(i) && !i.Takes? && (i.GivesBack? ==> 0 < i.n <= c.model.owed)
      modifies this`Repr, t`sent, Repr
      ensures Valid() && fresh(Repr - old(Repr))
      ensures var e := AppEffect(old(c.model), i);
              && Model() == old(Model()).(objs := old(Model()).objs[c.serial := e.ch])
              && t.sent == old(t.sent) + EncodingAll(e.out)
    {
      c.Apply(i);
      Repr := Repr + c.Repr;
      StillValid(c.serial);
      OneModelChanged(c.serial);
    }

    // ---- The loop's exit ----

    /** close() on one channel. */
    method CloseOne(c: Channel)
      requires Valid() && Mine(c) && !c.model.msgsClosed
      modifies Repr
      ensures Valid() && Model() == old(Model()).(objs := old(Model()).objs[c.serial := Shutdown(old(c.model))])
    {
      c.Shut();
      assert Repr == old(Repr) + c.Repr;
      StillValid(c.serial);
      OneModelChanged(c.serial);
    }

    ghost predicate AllMine(left: seq<Channel>)
      reads `created
    {
      forall i :: 0 <= i < |left| ==> Mine(left[i])
    }

    /** close() on each of the channels that were in the table. */
    method CloseLeft(left: seq<Channel>, ghost todo: seq<nat>)
      requires Valid() && AllMine(left)
      requires |todo| == |left| && (forall i :: 0 <= i < |left| ==> todo[i] == left[i].serial)
      requires forall i :: 0 <= i < |todo| ==> todo[i] < |Model().objs| && !Model().objs[todo[i]].msgsClosed
      requires forall i, j :: 0 <= i < j < |todo| ==> todo[i] != todo[j]
      modifies Repr
      ensures Valid() && Model() == old(Model()).(objs := Model().objs)
      ensures CloseEach(old(Model()).objs, todo) == Some(Model().objs)
    {
      ghost var p := Model();
      ghost var objs := p.objs;
      var i := 0;
      while i < |left|
        invariant 0 <= i <= |left| && Valid() && AllMine(left) && Model() == p.(objs := objs) && |objs| == |p.objs|
        invariant forall k :: i <= k < |todo| ==> todo[k] < |objs| && !objs[todo[k]].msgsClosed
        invariant CloseEach(objs, todo[i..]) == CloseEach(p.objs, todo)
      {
        CloseEachNext(objs, todo, i);
        CloseNext(left[i], todo[i]);
        objs := objs[todo[i] := Shutdown(objs[todo[i]])];
        i := i + 1;
      }
    }

    method CloseNext(c: Channel, ghost n: nat)
      requires Valid() && Mine(c) && n == c.serial && n < |Model().objs| && !Model().objs[n].msgsClosed
      modifies Repr
      ensures Valid() && Model() == old(Model()).(objs := old(Model()).objs[n := Shutdown(old(Model()).objs[n])])
    {
      assert Model().objs[n] == c.model;
      CloseOne(c);
    }

    /** The end of loop: the table is emptied and its channels closed. */
    method Stop(ghost r: Running)
      requires Valid() && r == State() && PeerSound(r.p)
      modifies chans, Repr
      ensures Valid() && State() == DropAll(r)
    {
      ghost var todo := Leftover(Model());
      SerialsPresent(chans.chans);
      PresentDistinct(Model().table);
      PresentInRange(Model());
      var left := TakeAll();
      forall i | 0 <= i < |left| ensures Mine(left[i]) && !r.p.objs[left[i].serial].msgsClosed {
        var k :| 0 <= k < |old(chans.chans)| && old(chans.chans)[k] == Some(left[i]);
        assert r.p.table[k] == Some(left[i].serial);
      }
      CloseLeft(left, todo);
    }

    method TakeAll() returns (left: seq<Channel>)
      requires Valid()
      modifies chans
      ensures Valid() && Model() == old(Model()).(table := [])
      ensures left == Present(old(chans.chans))
    {
      left := chans.DropAll();
    }
  }
}
