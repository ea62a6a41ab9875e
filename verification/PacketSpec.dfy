/** What one packet from any peer leads to, told from the stream's bytes, the table and the channels' fields. */
module PacketSpec {
  import opened Bytes
  import opened Codec
  import opened ChanTable
  import opened FlowWindow
  import opened ChannelSpec
  import opened SessionSpec

  /** The object in the slot of an id, if there is one. */
  function InSlot(p: Peer, id: u32): Option<nat> {
    if id < Truncate32(|p.table|) then p.table[id] else None
  }

  predicate PacketSizeOK(n: u32) {
    9 <= n <= 0x8000_0000
  }

  /** What a channel's peer may not send: data over its limit or its window, or with a length that does not count
      it, credit past 32 bits, an answer to an open that this side did not make, a confirm of an impossible
      packet size. */
  predicate Breaks(c: Chan, m: Message)
    requires !m.OpenMessage?
  {
    match m
    case DataMessage(_, n, data) => n > c.maxIncoming || n > c.myWindow || n != |data| % 0x1_0000_0000
    case WindowAdjustMessage(_, n) => c.credit.win + n >= 0x1_0000_0000
    case OpenConfirmMessage(_, _, _, size) => !c.outbound || !PacketSizeOK(size)
    case OpenFailureMessage(_) => !c.outbound
    case EOFMessage(_) => false
    case CloseMessage(_) => false
  }

  /** What breaks the protocol: that, or a message to an id in no slot. */
  predicate Offends(p: Peer, m: Message)
    requires TableInRange(p) && !m.OpenMessage?
  {
    var o := InSlot(p, m.channelId);
    o.None? || Breaks(p.objs[o.value], m)
  }

  predicate Comes(r: Running, m: Message, rest: seq<byte>) {
    m.WellFormed() && r.stream == Encoding(m) + rest
  }

  lemma NextIs(r: Running, m: Message, rest: seq<byte>)
    requires Comes(r, m, rest)
    ensures NextMessage(r.stream) == Got(m, rest)
  {
    FramingOne(m, rest);
  }

  /** Which verdict a channel's handler comes to. */
  lemma HandledAs(c: Chan, m: Message)
    requires !m.OpenMessage? && !c.msgsClosed
    ensures var v := Handle(c, m).verdict;
            && !v.Panicked?
            && (v.Failed? <==> Breaks(c, m))
            && (v.Failed? ==> v.f != InvalidChannel)
            && (v.Blocked? <==> !v.Failed? && (m.OpenConfirmMessage? || m.OpenFailureMessage?) && |c.msgs| >= 16)
  {
    if m.WindowAdjustMessage? { AddRejectsExactlyOverflow(c.credit, m.additionalBytes); }
  }

  /** A packet that is not an open stops the loop, with every channel dropped, exactly if it breaks the
      protocol; it makes the loop wait exactly if it is an answer to an open whose queue is full; otherwise
      the loop reads on. */
  lemma StopsExactly(r: Running, m: Message, rest: seq<byte>)
    requires Sound(r) && r.loop.Reading? && Comes(r, m, rest) && !m.OpenMessage?
    ensures TableInRange(r.p)
    ensures var r1 := Step(r, PacketArrives);
            && r1.stream == rest
            && (r1.loop.Stopped? <==> Offends(r.p, m))
            && (r1.loop.Stopped? ==> r1.p.table == [])
            && (r1.loop == Stopped(InvalidChannel) <==> InSlot(r.p, m.channelId).None?)
            && (!Offends(r.p, m) ==>
                  var o := InSlot(r.p, m.channelId).value;
                  r1.loop == if (m.OpenConfirmMessage? || m.OpenFailureMessage?) && |r.p.objs[o].msgs| == 16
                             then Posting(o, m) else Reading)
  {
    NextIs(r, m, rest);
    AfterPacketSound(r);
    if InSlot(r.p, m.channelId).Some? { HandledAs(r.p.objs[InSlot(r.p, m.channelId).value], m); }
    if AfterPacket(r).loop.Stopped? { DropAllSound(AfterPacket(r)); }
  }

  /** No open stops the loop. It is refused exactly if its packet size is below 9 or above 2^31, by a failure
      that names the id its sender gave. Otherwise there is one more channel, in the least free
      slot, which speaks to that id within that size and credit; it goes last into the inbox and is
      confirmed, unless the inbox is full, where the loop waits with it. */
  lemma OpenIsAnswered(r: Running, senderId: u32, window: u32, size: u32, rest: seq<byte>)
    requires Sound(r) && r.loop.Reading? && Comes(r, OpenMessage(senderId, window, size), rest)
    ensures TableInRange(r.p)
    ensures var r1 := Step(r, PacketArrives); var o := |r.p.objs|; var slot := LeastFree(r.p.table);
            if size < 9 || size > 0x8000_0000 then
              r1 == r.(stream := rest, sent := r.sent + Encoding(OpenFailureMessage(senderId)))
            else
              && r1.stream == rest && |r1.p.objs| == o + 1 && r1.p.objs[..o] == r.p.objs
              && r1.p.table == AddTo(r.p.table, o)
              && var c := r1.p.objs[o];
                 && c.localId == Truncate32(slot) && !c.outbound && c.remoteId == senderId && c.maxRemote == size
                 && c.credit.win == window && !c.credit.closed && c.myWindow == 0x20_0000 && c.maxIncoming == 0x8000
                 && if |r.p.inbox| == 16 then
                      r1.loop == Queueing(o) && r1.p.inbox == r.p.inbox && r1.sent == r.sent
                    else
                      && r1.loop.Reading? && r1.p.inbox == r.p.inbox + [o]
                      && r1.sent == r.sent + Encoding(OpenConfirmMessage(senderId, c.localId, 0x20_0000, 0x8000))
  {
    if !PacketSizeOK(size) { OpenRefused(r, senderId, window, size, rest); }
    else { OpenTaken(r, senderId, window, size, rest); }
  }

  lemma SentOne(sent: seq<byte>, m: Message)
    ensures sent + EncodingAll([m]) == sent + Encoding(m) && sent + EncodingAll([]) == sent
  {
    assert EncodingAll([m][1..]) == [];
  }

  lemma OpenRefused(r: Running, senderId: u32, window: u32, size: u32, rest: seq<byte>)
    requires Sound(r) && r.loop.Reading? && Comes(r, OpenMessage(senderId, window, size), rest)
    requires !PacketSizeOK(size)
    ensures Step(r, PacketArrives) == r.(stream := rest, sent := r.sent + Encoding(OpenFailureMessage(senderId)))
  {
    NextIs(r, OpenMessage(senderId, window, size), rest);
    SentOne(r.sent, OpenFailureMessage(senderId));
  }

  lemma OpenTaken(r: Running, senderId: u32, window: u32, size: u32, rest: seq<byte>)
    requires Sound(r) && r.loop.Reading? && Comes(r, OpenMessage(senderId, window, size), rest) && PacketSizeOK(size)
    ensures var r1 := Step(r, PacketArrives); var o := |r.p.objs|;
            var c := AcceptedChannel(Truncate32(LeastFree(r.p.table)), OpenMessage(senderId, window, size));
            && r1.stream == rest && r1.p.objs == r.p.objs + [c] && r1.p.table == AddTo(r.p.table, o)
            && c.credit.win == window && !c.credit.closed
            && if |r.p.inbox| == 16 then
                 r1.loop == Queueing(o) && r1.p.inbox == r.p.inbox && r1.sent == r.sent
               else
                 && r1.loop.Reading? && r1.p.inbox == r.p.inbox + [o]
                 && r1.sent == r.sent + Encoding(OpenConfirmMessage(senderId, c.localId, 0x20_0000, 0x8000))
  {
    NextIs(r, OpenMessage(senderId, window, size), rest);
    FirstGrant(window);
    SentOne(r.sent, OpenReply(AcceptedChannel(NextId(r.p), OpenMessage(senderId, window, size))));
  }

  /** The loop stops at the end of the stream, or at what is no packet. */
  lemma StopsAtEnd(r: Running)
    requires Sound(r) && r.loop.Reading? && forall m, rest :: !Comes(r, m, rest)
    ensures TableInRange(r.p)
    ensures Step(r, PacketArrives).loop.Stopped? && Step(r, PacketArrives).p.table == []
  {
    AfterPacketSound(r);
    if NextMessage(r.stream).Got? {
      NextMessageInverse(r.stream);
      assert Comes(r, NextMessage(r.stream).message, NextMessage(r.stream).rest);
    }
    DropAllSound(AfterPacket(r));
  }
}
