/** Why the rule of Close and CloseWrite is needed: Write never looks at whether Close was sent, and only
    as it is entered at whether the write side was ended. */
module CloseRule {
  import opened Bytes
  import opened Codec
  import opened ChanTable
  import opened FlowWindow
  import opened ChannelSpec
  import opened SessionSpec
  import opened PacketSpec
  import opened LinkSpec
  import opened SystemSpec
  import opened WriteSpec
  import opened Runs

  /** "No data may be sent after this call" holds of a Write begun after Close was sent, whatever
      credit arrives while it waits, exactly when it finds the write side ended or its window closed. */
  lemma WriteAfterClose(c: Chan, data: seq<byte>)
    requires c.sentClose && data != []
    ensures (forall schedule :: WriteCall(c, data, schedule).out == []) <==> c.sentEOF || c.credit.closed
  {
    if c.sentEOF || c.credit.closed {
      forall schedule ensures WriteCall(c, data, schedule).out == [] {
        if !c.sentEOF { ClosedSendsNothing(c, data, schedule); }
      }
    } else {
      var schedule := [Refill(c)];
      RefillGrants(c, data, schedule);
      Iteration(c, data, schedule);
      assert WriteCall(c, data, schedule).out != [];
    }
  }

  /** Neither of Close nor of CloseWrite does "no data after this call" hold of a Write already under
      way: what is left of it sends nothing, whatever credit arrives, exactly when the window is closed. */
  lemma WriteUnderWay(c: Chan, left: seq<byte>)
    requires (c.sentClose || c.sentEOF) && left != []
    ensures (forall schedule :: WriteLoop(c, left, schedule).out == []) <==> c.credit.closed
  {
    if c.credit.closed {
      forall schedule ensures WriteLoop(c, left, schedule).out == [] {
        ClosedSendsNothing(c, left, schedule);
      }
    } else {
      var schedule := [Refill(c)];
      RefillGrants(c, left, schedule);
      Iteration(c, left, schedule);
      assert WriteLoop(c, left, schedule).out != [];
    }
  }

  /** A Close, and then a Write before the peer's own Close has come back. */
  const LATE_WRITE: seq<Move> := [
    Move(true, Opens), Move(false, PacketArrives), Move(true, PacketArrives), Move(true, Takes(0)),
    Move(true, Closes(0)), Move(true, Writes(0, [7])), Move(false, PacketArrives)]

  const CONFIRM := OpenConfirmMessage(0, 0, WINDOW_SIZE, CHANNEL_MAX_PACKET)
  const LATE_DATA := DataMessage(0, 1, [7])

  // The opener's end after each of its moves, and the other end.
  const OPENED := OpenedChannel(0)
  const CONFIRMED := OPENED.(maxRemote := CHANNEL_MAX_PACKET, credit := Credit(WINDOW_SIZE, false, WINDOW_SIZE, 0, 0),
                             msgs := [CONFIRM])
  const TAKEN := CONFIRMED.(msgs := [])
  const CLOSED := TAKEN.(appClosed := true, sentClose := true)
  const LATE := CLOSED.(credit := Credit(WINDOW_SIZE - 1, false, WINDOW_SIZE, 1, 0), written := [7])
  const ACCEPTED := AcceptedChannel(0, OpenRequest(OPENED))

  function OneChannel(c: Chan, inbox: seq<nat>, held: set<nat>, wire: seq<Message>): Host {
    Host(Peer([c], [Some(0)], inbox), Reading, held, [0], [Some(0)], Tag(wire, 0))
  }

  const S1 := System(OneChannel(OPENED, [], {}, [OpenRequest(OPENED)]), NEW_HOST.(endOf := [None]))
  const S2 := System(OneChannel(OPENED, [], {}, []), OneChannel(ACCEPTED, [0], {}, [CONFIRM]))
  const S3 := System(OneChannel(CONFIRMED, [], {}, []), OneChannel(ACCEPTED, [0], {}, []))
  const S4 := System(OneChannel(TAKEN, [], {0}, []), S3.b)
  const S5 := System(OneChannel(CLOSED, [], {0}, [CloseMessage(0)]), S3.b)
  const S6 := System(OneChannel(LATE, [], {0}, [CloseMessage(0), LATE_DATA]), S3.b)
  const S7 := System(OneChannel(LATE, [], {0}, [LATE_DATA]),
                     Host(Peer([Shutdown(ACCEPTED)], [None], [0]), Reading, {}, [0], [Some(0)],
                          Tag([CloseMessage(0)], 0)))

  lemma Move1()
    ensures Possible(NEW_SYSTEM, LATE_WRITE[0]) && Runs.Do(NEW_SYSTEM, LATE_WRITE[0]) == S1
  {
    assert AddTo<nat>([], 0) == [Some(0)];
    assert Tag([OpenRequest(OPENED)], 0) == [Tagged(OpenRequest(OPENED), 0)];
  }

  lemma Move2()
    ensures Possible(S1, LATE_WRITE[1]) && Runs.Do(S1, LATE_WRITE[1]) == S2
  {
    assert AddTo<nat>([], 0) == [Some(0)];
    assert Tag([], 0) == Tag([OpenRequest(OPENED)], 0)[1..];
    FirstGrant(WINDOW_SIZE);
  }

  lemma Move3()
    ensures Possible(S2, LATE_WRITE[2]) && Runs.Do(S2, LATE_WRITE[2]) == S3
  {
    assert Tag([], 0) == Tag([CONFIRM], 0)[1..];
    FirstGrant(WINDOW_SIZE);
    assert OPENED.msgs + [CONFIRM] == [CONFIRM];
    assert Handle(OPENED, CONFIRM) == Handled(CONFIRMED, [], Fine, false);
    assert [OPENED][0 := CONFIRMED] == [CONFIRMED];
  }

  lemma Move4()
    ensures Possible(S3, LATE_WRITE[3]) && Runs.Do(S3, LATE_WRITE[3]) == S4
  {
    assert CONFIRMED.msgs[1..] == [];
  }

  lemma Move5()
    ensures Possible(S4, LATE_WRITE[4]) && Runs.Do(S4, LATE_WRITE[4]) == S5
  {
    assert Tag([], 0) + Tag([CloseMessage(0)], 0) == Tag([CloseMessage(0)], 0);
  }

  lemma Move6()
    ensures Possible(S5, LATE_WRITE[5]) && Runs.Do(S5, LATE_WRITE[5]) == S6
  {
    assert Tag([CloseMessage(0)], 0) + Tag([LATE_DATA], 0) == Tag([CloseMessage(0), LATE_DATA], 0);
    assert [7][..1] == [7] && CLOSED.written + [7] == [7];
    assert AppEffect(CLOSED, Writes(0, [7])) == Effect(LATE, [LATE_DATA], false);
    assert [CLOSED][0 := LATE] == [LATE];
  }

  lemma Move7()
    ensures Possible(S6, LATE_WRITE[6]) && Runs.Do(S6, LATE_WRITE[6]) == S7
  {
    assert Tag([CloseMessage(0), LATE_DATA], 0)[1..] == Tag([LATE_DATA], 0);
    assert Tag([], 0) + Tag([CloseMessage(0)], 0) == Tag([CloseMessage(0)], 0);
    FirstGrant(WINDOW_SIZE);
    assert Handle(ACCEPTED, CloseMessage(0)) == Handled(Shutdown(ACCEPTED), [CloseMessage(0)], Fine, true);
    assert [ACCEPTED][0 := Shutdown(ACCEPTED)] == [Shutdown(ACCEPTED)];
    assert RemoveFrom<nat>([Some(0)], 0) == [None];
  }

  lemma LastMoves()
    ensures IsRun(S4, LATE_WRITE[4..]) && After(S4, LATE_WRITE[4..]) == S7 && !Disciplined(S4, LATE_WRITE[4..])
  {
    assert IsRun(S7, LATE_WRITE[7..]) && After(S7, LATE_WRITE[7..]) == S7;
    Move7();
    Extend(LATE_WRITE, S6, 6, S7);
    Move6();
    Extend(LATE_WRITE, S5, 5, S6);
    assert !Usage(View(S5, LATE_WRITE[5].left), LATE_WRITE[5].input);
    Move5();
    Extend(LATE_WRITE, S4, 4, S5);
  }

  lemma FromS2(ms: seq<Move>)
    requires |ms| >= 4 && ms[2] == LATE_WRITE[2] && ms[3] == LATE_WRITE[3] && IsRun(S4, ms[4..])
    ensures IsRun(S2, ms[2..]) && After(S2, ms[2..]) == After(S4, ms[4..])
    ensures !Disciplined(S4, ms[4..]) ==> !Disciplined(S2, ms[2..])
  {
    Move4();
    Extend(ms, S3, 3, S4);
    Move3();
    Extend(ms, S2, 2, S3);
  }

  lemma FromStart(ms: seq<Move>)
    requires |ms| >= 2 && ms[0] == LATE_WRITE[0] && ms[1] == LATE_WRITE[1] && IsRun(S2, ms[2..])
    ensures IsRun(NEW_SYSTEM, ms) && After(NEW_SYSTEM, ms) == After(S2, ms[2..])
    ensures !Disciplined(S2, ms[2..]) ==> !Disciplined(NEW_SYSTEM, ms)
  {
    Move2();
    Extend(ms, S1, 1, S2);
    Move1();
    Extend(ms, NEW_SYSTEM, 0, S1);
    assert ms[0..] == ms;
  }

  /** A run that begins by opening a channel goes on as it would from there. */
  lemma FromS4(ms: seq<Move>)
    requires |ms| >= 4 && ms[..4] == LATE_WRITE[..4] && IsRun(S4, ms[4..])
    ensures IsRun(NEW_SYSTEM, ms) && After(NEW_SYSTEM, ms) == After(S4, ms[4..])
    ensures !Disciplined(S4, ms[4..]) ==> !Disciplined(NEW_SYSTEM, ms)
  {
    SamePrefix(ms, LATE_WRITE);
    FromS2(ms);
    FromStart(ms);
  }

  lemma SamePrefix(ms: seq<Move>, ns: seq<Move>)
    requires |ms| >= 4 && |ns| >= 4 && ms[..4] == ns[..4]
    ensures ms[0] == ns[0] && ms[1] == ns[1] && ms[2] == ns[2] && ms[3] == ns[3]
  {
    assert forall i :: 0 <= i < 4 ==> ms[i] == ms[..4][i] == ns[..4][i];
  }

  /** What the acceptor's session does with the late packet. */
  lemma LatePacket(sent: seq<byte>)
    ensures var r := AsRunning(View(S7, false), sent);
            && Sound(r)
            && Step(r, PacketArrives).loop == Stopped(InvalidChannel) && Step(r, PacketArrives).p.table == []
  {
    AcceptorGone(sent);
    NoSlotLeft(AsRunning(View(S7, false), sent));
  }

  lemma AcceptorGone(sent: seq<byte>)
    ensures var r := AsRunning(View(S7, false), sent);
            Sound(r) && r.p.table == [None] && r.loop.Reading? && r.stream == Encoding(LATE_DATA) + []
  {
    FirstGrant(WINDOW_SIZE);
    assert Messages(Tag([LATE_DATA], 0)) == [LATE_DATA];
    assert EncodingAll([LATE_DATA][1..]) == [];
  }

  lemma NoSlotLeft(r: Running)
    requires Sound(r) && r.p.table == [None] && r.loop.Reading? && r.stream == Encoding(LATE_DATA) + []
    ensures Step(r, PacketArrives).loop == Stopped(InvalidChannel) && Step(r, PacketArrives).p.table == []
  {
    StopsExactly(r, LATE_DATA, []);
  }

  /** Without the rule the promise of no errors fails: this run of the two sides ends with a
      packet at the head of a wire on which its receiver's loop stops with "invalid channel",
      and with it the whole session. */
  lemma LateWriteBreaksSession(sent: seq<byte>)
    ensures IsRun(NEW_SYSTEM, LATE_WRITE) && !Disciplined(NEW_SYSTEM, LATE_WRITE)
    ensures var r := AsRunning(View(After(NEW_SYSTEM, LATE_WRITE), false), sent);
            && Sound(r)
            && Step(r, PacketArrives).loop == Stopped(InvalidChannel) && Step(r, PacketArrives).p.table == []
  {
    LastMoves();
    FromS4(LATE_WRITE);
    LatePacket(sent);
  }

  lemma Extend(ms: seq<Move>, s: System, i: nat, s1: System)
    requires i < |ms| && Possible(s, ms[i]) && Runs.Do(s, ms[i]) == s1
    requires IsRun(s1, ms[i + 1..])
    ensures IsRun(s, ms[i..]) && After(s, ms[i..]) == After(s1, ms[i + 1..])
    ensures !Disciplined(s1, ms[i + 1..]) ==> !Disciplined(s, ms[i..])
    ensures !Usage(View(s, ms[i].left), ms[i].input) ==> !Disciplined(s, ms[i..])
  {
    assert ms[i..][1..] == ms[i + 1..];
  }

  // ---- Data after EOF ----

  /** A CloseWrite once a Write has been entered, which then sends its byte. */
  const LATE_DATA_RUN: seq<Move> := [
    Move(true, Opens), Move(false, PacketArrives), Move(true, PacketArrives), Move(true, Takes(0)),
    Move(true, ClosesWrite(0)), Move(true, Writes(0, [7])), Move(false, PacketArrives)]

  const ENDED := TAKEN.(sentEOF := true)
  const WROTE := ENDED.(credit := Credit(WINDOW_SIZE - 1, false, WINDOW_SIZE, 1, 0), written := [7])
  const AT_EOF := ACCEPTED.(pendingClosed := true)

  const E5 := System(OneChannel(ENDED, [], {0}, [EOFMessage(0)]), S3.b)
  const E6 := System(OneChannel(WROTE, [], {0}, [EOFMessage(0), LATE_DATA]), S3.b)
  const E7 := System(OneChannel(WROTE, [], {0}, [LATE_DATA]), OneChannel(AT_EOF, [0], {}, []))
  const E8 := System(OneChannel(WROTE, [], {0}, []),
                     OneChannel(AT_EOF.(pending := [7], myWindow := WINDOW_SIZE - 1), [0], {}, []))

  lemma Ending()
    ensures Possible(S4, LATE_DATA_RUN[4]) && Runs.Do(S4, LATE_DATA_RUN[4]) == E5
  {
    assert Tag([], 0) + Tag([EOFMessage(0)], 0) == Tag([EOFMessage(0)], 0);
    assert AppEffect(TAKEN, ClosesWrite(0)) == Effect(ENDED, [EOFMessage(0)], false);
    assert [TAKEN][0 := ENDED] == [ENDED];
  }

  lemma WritingOn()
    ensures Possible(E5, LATE_DATA_RUN[5]) && Runs.Do(E5, LATE_DATA_RUN[5]) == E6
    ensures !Usage(View(E5, LATE_DATA_RUN[5].left), LATE_DATA_RUN[5].input)
  {
    assert Tag([EOFMessage(0)], 0) + Tag([LATE_DATA], 0) == Tag([EOFMessage(0), LATE_DATA], 0);
    assert [7][..1] == [7] && ENDED.written + [7] == [7];
    assert AppEffect(ENDED, Writes(0, [7])) == Effect(WROTE, [LATE_DATA], false);
    assert [ENDED][0 := WROTE] == [WROTE];
  }

  lemma EofComes()
    ensures Possible(E6, LATE_DATA_RUN[6]) && Runs.Do(E6, LATE_DATA_RUN[6]) == E7
  {
    assert Tag([EOFMessage(0), LATE_DATA], 0)[1..] == Tag([LATE_DATA], 0);
    assert Tag([], 0) + Tag([], 0) == Tag([], 0);
    FirstGrant(WINDOW_SIZE);
    assert Handle(ACCEPTED, EOFMessage(0)) == Handled(AT_EOF, [], Fine, false);
    assert [ACCEPTED][0 := AT_EOF] == [AT_EOF];
  }

  lemma DataComes()
    ensures Possible(E7, Move(false, PacketArrives)) && Runs.Do(E7, Move(false, PacketArrives)) == E8
  {
    var got := AT_EOF.(pending := [7], myWindow := WINDOW_SIZE - 1);
    assert Tag([LATE_DATA], 0)[1..] == Tag([], 0);
    assert Tag([], 0) + Tag([], 0) == Tag([], 0);
    FirstGrant(WINDOW_SIZE);
    assert AT_EOF.pending + [7] == [7];
    assert Handle(AT_EOF, LATE_DATA) == Handled(got, [], Fine, false);
    assert [AT_EOF][0 := got] == [got];
  }

  lemma LateMoves()
    ensures IsRun(S4, LATE_DATA_RUN[4..]) && After(S4, LATE_DATA_RUN[4..]) == E7
    ensures !Disciplined(S4, LATE_DATA_RUN[4..])
  {
    assert IsRun(E7, LATE_DATA_RUN[7..]) && After(E7, LATE_DATA_RUN[7..]) == E7;
    EofComes();
    Extend(LATE_DATA_RUN, E6, 6, E7);
    WritingOn();
    Extend(LATE_DATA_RUN, E5, 5, E6);
    Ending();
    Extend(LATE_DATA_RUN, S4, 4, E5);
  }

  lemma EofThenData()
    ensures E7.b.peer.objs != [] && ReadOp(E7.b.peer.objs[0], 1).eof
    ensures E8.b.peer.objs != [] && ReadOp(E8.b.peer.objs[0], 1).ch.read == [7]
  {
    assert [] + [7][..1] == [7];
  }

  /** Without the rule for CloseWrite, EOF is not final: this run ends where a Read at the other side
      returns EOF, and after the next packet a Read there returns a byte. */
  lemma DataAfterEof()
    ensures IsRun(NEW_SYSTEM, LATE_DATA_RUN) && !Disciplined(NEW_SYSTEM, LATE_DATA_RUN)
    ensures var s := After(NEW_SYSTEM, LATE_DATA_RUN); var next := Move(false, PacketArrives);
            && s.b.peer.objs != [] && ReadOp(s.b.peer.objs[0], 1).eof
            && Possible(s, next) && Runs.Do(s, next).b.peer.objs != []
            && ReadOp(Runs.Do(s, next).b.peer.objs[0], 1).ch.read == [7]
  {
    LateMoves();
    assert LATE_DATA_RUN[..4] == LATE_WRITE[..4];
    FromS4(LATE_DATA_RUN);
    DataComes();
    EofThenData();
  }
}
