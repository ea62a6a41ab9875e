/** A channel end as the session holds it: an object whose methods update its fields. */
module Channels {
  import opened Bytes
  import opened Codec
  import opened FlowWindow
  import opened ByteQueue
  import opened ChanTable
  import opened ChannelSpec
  import SessionSpec
  import opened WriteSpec

  class Channel {
    const outbound: bool
    const enc: Encoder              // of the session
    const chans: ChanList<Channel>  // of the session
    const remoteWin: Window
    const pending: Buffer
    ghost const serial: nat         // position among the session's channels
    var localId: u32
    var remoteId: u32
    var maxIncoming: u32
    var maxRemote: u32
    var msg: seq<Message>
    var msgClosed: bool
    var sentEOF: bool
    var sentClose: bool
    var myWindow: u32
    ghost var written: seq<byte>
    ghost var read: seq<byte>
    ghost var owed: nat
    ghost var appClosed: bool
    ghost var model: Chan           // the channel as a value
    ghost var Repr: set<object>

    ghost predicate Valid()
      reads this, Repr
      ensures Valid() ==> this in Repr
    {
      && this in Repr && remoteWin in Repr && pending in Repr && pending.cells <= Repr
      && chans !in Repr && enc.w !in Repr
      && pending.Valid() && model == Actual()
    }

    ghost function Actual(): Chan
      reads this, remoteWin, pending
    {
      Chan(localId, remoteId, maxIncoming, maxRemote, outbound, msg, msgClosed, sentEOF, sentClose,
           remoteWin.Model(), pending.Queue(), pending.closed, myWindow, written, read, owed, appClosed)
    }

    constructor (outbound: bool, enc: Encoder, chans: ChanList<Channel>, ghost serial: nat)
      ensures Valid() && fresh(Repr) && model == NewChan(outbound, 0)
      ensures this.enc == enc && this.chans == chans && this.serial == serial
    {
      this.outbound, this.enc, this.chans, this.serial := outbound, enc, chans, serial;
      remoteWin := new Window();
      pending := new Buffer();
      localId, remoteId, maxIncoming, maxRemote := 0, 0, 0, 0;
      msg, msgClosed, sentEOF, sentClose := [], false, false, false;
      myWindow := WINDOW_SIZE;
      written, read, owed, appClosed := [], [], 0, false;
      new;
      Repr := {this, remoteWin, pending} + pending.cells;
      model := Actual();
    }

    /** What Open tells a channel it has just made. */
    method SetUp(id: u32)
      requires Valid()
      modifies this`localId, this`maxIncoming, this`model
      ensures Valid() && Repr == old(Repr)
      ensures model == old(model).(localId := id, maxIncoming := CHANNEL_MAX_PACKET)
    {
      localId := id;
      maxIncoming := CHANNEL_MAX_PACKET;
      model := Actual();
    }

    method Send(m: Message) returns (eof: bool)
      requires Valid()
      modifies this`sentClose, this`model, enc.w`sent
      ensures Valid() && Repr == old(Repr)
      ensures var e := ChannelSpec.Send(old(model), m);
              model == e.ch && eof == e.eof && enc.w.sent == old(enc.w.sent) + EncodingAll(e.out)
    {
      if sentClose { return true; }
      if m.CloseMessage? { sentClose := true; }
      model := Actual();
      enc.Encode(m);
      OneEncoding(m);
      return false;
    }

    method CloseWrite() returns (eof: bool)
      requires Valid()
      modifies this, enc.w`sent
      ensures Valid() && Repr == old(Repr) && eof == old(model).sentClose
      ensures var e := CloseWriteOp(old(model));
              model == e.ch && eof == e.eof && enc.w.sent == old(enc.w.sent) + EncodingAll(e.out)
    {
      sentEOF := true;
      model := Actual();
      eof := Send(EOFMessage(remoteId));
    }

    method Close() returns (eof: bool)
      requires Valid()
      modifies this, enc.w`sent
      ensures Valid() && Repr == old(Repr) && eof == old(model).sentClose
      ensures var e := CloseOp(old(model));
              model == e.ch && eof == e.eof && enc.w.sent == old(enc.w.sent) + EncodingAll(e.out)
    {
      appClosed := true;
      model := Actual();
      eof := Send(CloseMessage(remoteId));
    }

    method AdjustWindow(n: u32) returns (eof: bool)
      requires Valid() && n <= model.owed
      modifies this`myWindow, this`owed, this`sentClose, this`model, enc.w`sent
      ensures Valid() && Repr == old(Repr)
      ensures var e := GiveBack(old(model), n);
              model == e.ch && eof == e.eof && enc.w.sent == old(enc.w.sent) + EncodingAll(e.out)
    {
      Widen(n);
      eof := Send(WindowAdjustMessage(remoteId, n));
    }

    /** The receive window grows by bytes that were owed. */
    method Widen(n: u32)
      requires Valid() && n <= model.owed
      modifies this`myWindow, this`owed, this`model
      ensures Valid() && Repr == old(Repr)
      ensures model == old(model).(myWindow := Add32(old(model).myWindow, n), owed := old(model).owed - n)
    {
      myWindow := Add32(myWindow, n);
      owed := owed - n;
      model := Actual();
    }

    /** Read into p; `ready` is false where the source waits, with nothing changed. */
    method Read(p: array<byte>) returns (n: nat, eof: bool, ready: bool)
      requires Valid()
      modifies Repr, p, enc.w`sent
      ensures Valid() && fresh(Repr - old(Repr))
      ensures n == Least(p.Length, |old(model).pending|)
      ensures p[..] == old(model).pending[..n] + old(p[..])[n..]
      ensures ready == (p.Length == 0 || n > 0 || old(model).pendingClosed)
      ensures eof == (p.Length > 0 && old(model).pending == [] && old(model).pendingClosed)
      ensures var e := ReadOp(old(model), p.Length);
              model == e.ch && eof == e.eof && enc.w.sent == old(enc.w.sent) + EncodingAll(e.out)
    {
      n, eof, ready := TakeFromQueue(p);
      if n == 0 {
        NothingSent(enc.w.sent);
        return n, eof, ready;
      }
      // An EOF from the adjustment is not passed on when bytes were read.
      var _ := AdjustWindow(Truncate32(n));
    }

    /** pending.Read, recorded in the history of bytes read and owed. */
    method TakeFromQueue(p: array<byte>) returns (n: nat, eof: bool, ready: bool)
      requires Valid()
      modifies Repr, p
      ensures Valid() && Repr == old(Repr)
      ensures n == Least(p.Length, |old(model).pending|)
      ensures p[..] == old(model).pending[..n] + old(p[..])[n..]
      ensures ready == (p.Length == 0 || n > 0 || old(model).pendingClosed)
      ensures var e := TakeOut(old(model), p.Length); model == e.ch && eof == e.eof
    {
      ghost var queue := pending.Queue();
      n, eof, ready := pending.Read(p);
      read := read + queue[..n];
      owed := owed + n;
      model := Actual();
    }

    /** Write, with the arrivals at the window that its iterations meet as a parameter. */
    method Write(data: seq<byte>, schedule: seq<seq<Arrival>>) returns (n: nat, end: WriteEnd)
      requires Valid()
      modifies this, remoteWin, enc.w`sent
      ensures Valid() && Repr == old(Repr)
      ensures var w := WriteCall(old(model), data, schedule);
              && model == w.ch && n == w.n && end == w.end
              && enc.w.sent == old(enc.w.sent) + EncodingAll(w.out)
    {
      if sentEOF { return 0, Ended; }
      n, end := SendAll(data, schedule);
    }

    /** Write's loop. */
    method SendAll(data: seq<byte>, schedule: seq<seq<Arrival>>) returns (n: nat, end: WriteEnd)
      requires Valid()
      modifies this, remoteWin, enc.w`sent
      ensures Valid() && Repr == old(Repr)
      ensures var w := WriteLoop(old(model), data, schedule);
              && model == w.ch && n == w.n && end == w.end
              && enc.w.sent == old(enc.w.sent) + EncodingAll(w.out)
    {
      n, end := 0, Done;
      ghost var out: seq<Message> := [];
      ghost var goal := WriteLoop(model, data, schedule);
      var i := 0;
      var left := data;
      while left != [] && end.Done?
        invariant 0 <= i <= |schedule| && Valid() && Repr == old(Repr)
        invariant enc.w.sent == old(enc.w.sent) + EncodingAll(out)
        invariant OnCourse(goal, out, n, end, model, left, schedule, i)
        decreases |schedule| - i, end.Done?
      {
        if i == |schedule| {
          LoopEnds(goal, out, n, model, left, schedule, i);
          end := Waiting;
        } else {
          n, left, end, out := Iterate(left, schedule, i, n, goal, out, old(enc.w.sent));
          i := i + 1;
        }
      }
      if end.Done? { LoopEnds(goal, out, n, model, left, schedule, i); }
    }

    method Iterate(left: seq<byte>, schedule: seq<seq<Arrival>>, i: nat, n: nat,
                   ghost goal: Written, ghost out: seq<Message>, ghost sent: seq<byte>)
      returns (n': nat, left': seq<byte>, end: WriteEnd, ghost out': seq<Message>)
      requires Valid() && left != [] && i < |schedule|
      requires InLoop(goal, out, n, model, left, schedule, i) && enc.w.sent == sent + EncodingAll(out)
      modifies this, remoteWin, enc.w`sent
      ensures Valid() && Repr == old(Repr) && enc.w.sent == sent + EncodingAll(out')
      ensures OnCourse(goal, out', n', end, model, left', schedule, i + 1)
    {
      ghost var e := OneEffect(model, left, schedule[i]);
      LoopGoesOn(goal, out, n, model, left, schedule, i);
      SentMore(sent, out, e.out);
      var k, eof, ready := WriteOne(left, schedule[i]);
      out' := out + e.out;
      if !ready { return n, left, Waiting, out'; }
      if eof { return n, left, Ended, out'; }
      return n + k, left[k..], Done, out';
    }

    /** One iteration of Write's loop: k bytes of `left` go out, unless it waits or the window is closed. */
    method WriteOne(left: seq<byte>, during: seq<Arrival>) returns (k: nat, eof: bool, ready: bool)
      requires Valid()
      modifies this, remoteWin, enc.w`sent
      ensures Valid() && Repr == old(Repr)
      ensures ready == Ready(old(model), during)
      ensures var e := OneEffect(old(model), left, during);
              && model == e.ch && (ready ==> eof == e.eof)
              && enc.w.sent == old(enc.w.sent) + EncodingAll(e.out)
              && (ready && !eof ==> |e.out| == 1 && e.out[0].DataMessage? && k == |e.out[0].data| <= |left|)
    {
      var got;
      OneEffectParts(model, left, during);
      NothingSent(enc.w.sent);
      got, eof, ready := TakeCredit(Min32(maxRemote, |left|), during);
      k := 0;
      if ready && !eof {
        SendChunk(left[..got]);
        k := got;
      }
    }

    /** reserve, on the channel's window. */
    method TakeCredit(want: u32, during: seq<Arrival>) returns (got: u32, eof: bool, ready: bool)
      requires Valid()
      modifies this`model, remoteWin
      ensures Valid() && Repr == old(Repr)
      ensures var c := ArriveAll(old(model).credit, during);
              && ready == (c.win > 0 || c.closed)
              && (ready ==> var r := Reserve(c, want);
                    model == old(model).(credit := r.credit) && got == r.got && eof == r.eof)
              && (!ready ==> model == old(model).(credit := c))
    {
      got, eof, ready := remoteWin.ReserveCredit(want, during);
      model := Actual();
    }

    /** A data packet goes out, and into the history of bytes written. */
    method SendChunk(toSend: seq<byte>)
      requires Valid()
      modifies this`written, this`model, enc.w`sent
      ensures Valid() && Repr == old(Repr) && model == old(model).(written := old(model).written + toSend)
      ensures enc.w.sent
              == old(enc.w.sent) + EncodingAll([DataMessage(old(model).remoteId, Truncate32(|toSend|), toSend)])
    {
      var m := DataMessage(remoteId, Truncate32(|toSend|), toSend);
      enc.Encode(m);
      OneEncoding(m);
      written := written + toSend;
      model := Actual();
    }

    /** A step of an application's call: for Write one iteration, for Read one of its two parts. */
    method Apply(i: SessionSpec.Input)
      requires Valid() && SessionSpec.OfApp(i) && !i.Takes? && (i.GivesBack? ==> 0 < i.n <= model.owed)
      modifies Repr, enc.w`sent
      ensures Valid() && fresh(Repr - old(Repr))
      ensures var e := SessionSpec.AppEffect(old(model), i);
              model == e.ch && enc.w.sent == old(enc.w.sent) + EncodingAll(e.out)
    {
      if i.Writes? {
        Chunk(i.data);
      } else if i.Reads? {
        NothingSent(enc.w.sent);
        var p := new byte[i.want];
        var _, _, _ := TakeFromQueue(p);
      } else if i.GivesBack? {
        var _ := AdjustWindow(i.n);
      } else if i.ClosesWrite? {
        var _ := CloseWrite();
      } else {
        var _ := Close();
      }
    }

    /** An iteration of a Write that has been entered, with no arrivals while it waits. */
    method Chunk(data: seq<byte>)
      requires Valid()
      modifies this, remoteWin, enc.w`sent
      ensures Valid() && Repr == old(Repr)
      ensures var e := SessionSpec.AppEffect(old(model), SessionSpec.Writes(0, data));
              model == e.ch && enc.w.sent == old(enc.w.sent) + EncodingAll(e.out)
    {
      NothingSent(enc.w.sent);
      if data != [] { var _, _, _ := WriteOne(data, []); }
    }

    /** close(): the end of the channel, from its peer's Close or the session's end. */
    method Shut()
      requires Valid()
      requires !msgClosed // closing a closed Go channel panics
      modifies this`msgClosed, this`sentClose, this`model, pending`closed, remoteWin
      ensures Valid() && Repr == old(Repr) && model == Shutdown(old(model))
    {
      pending.Eof();
      msgClosed := true;
      sentClose := true;
      remoteWin.Close();
      model := Actual();
    }

    method HandleData(m: Message) returns (verdict: Verdict)
      requires Valid() && m.DataMessage?
      modifies Repr
      ensures Valid() && fresh(Repr - old(Repr))
      ensures var h := ChannelSpec.HandleData(old(model), m); model == h.ch && verdict == h.verdict
    {
      if m.length > maxIncoming { return Failed(PacketTooLarge); }
      if m.length != Truncate32(|m.data|) { return Failed(WrongLength); }
      if myWindow < m.length { return Failed(WroteTooMuch); }
      TakeIn(m.data, m.length);
      return Fine;
    }

    /** Queue data, at the cost of n bytes of window. */
    method TakeIn(data: seq<byte>, n: u32)
      requires Valid() && n <= myWindow
      modifies Repr
      ensures Valid() && fresh(Repr - old(Repr))
      ensures model == old(model).(myWindow := old(model).myWindow - n, pending := old(model).pending + data)
    {
      Enqueue(data);
      myWindow := myWindow - n;
      model := Actual();
    }

    method Enqueue(data: seq<byte>)
      requires Valid()
      modifies Repr
      ensures Valid() && fresh(Repr - old(Repr)) && myWindow == old(myWindow)
      ensures model == old(model).(pending := old(model).pending + data)
    {
      pending.Write(data);
      Repr := Repr + pending.cells;
      model := Actual();
    }

    method HandleClose() returns (verdict: Verdict)
      requires Valid()
      modifies Repr, chans, enc.w`sent
      ensures Valid() && Repr == old(Repr)
      ensures var h := ChannelSpec.HandleClose(old(model));
              && model == h.ch && verdict == h.verdict
              && enc.w.sent == old(enc.w.sent) + EncodingAll(h.out)
              && chans.chans == RemoveFrom(old(chans.chans), localId)
    {
      var _ := Send(CloseMessage(remoteId));
      chans.Remove(localId);
      verdict := Finish();
    }

    /** close(), called as it may be: on a channel closed before it panics. */
    method Finish() returns (verdict: Verdict)
      requires Valid()
      modifies this`msgClosed, this`sentClose, this`model, pending`closed, remoteWin
      ensures Valid() && Repr == old(Repr)
      ensures verdict == if old(model).msgsClosed then Panicked else Fine
      ensures model == if old(model).msgsClosed then old(model).(pendingClosed := true) else Shutdown(old(model))
    {
      if msgClosed {
        // close() ends the queue and then panics on the closed message channel.
        pending.Eof();
        model := Actual();
        return Panicked;
      }
      Shut();
      return Fine;
    }

    /** ch.msg <- m */
    method Post(m: Message) returns (verdict: Verdict)
      requires Valid()
      modifies this`msg, this`model
      ensures Valid() && Repr == old(Repr)
      ensures var h := ChannelSpec.Post(old(model), m, false); model == h.ch && verdict == h.verdict
    {
      if msgClosed { return Panicked; }
      if |msg| >= CHAN_SIZE { return Blocked; }
      msg := msg + [m];
      model := Actual();
      return Fine;
    }

    /** <-ch.msg, where it need not wait; None where the queue is empty. */
    method Receive() returns (m: Option<Message>)
      requires Valid()
      modifies this`msg, this`model
      ensures Valid() && Repr == old(Repr) && model == SessionSpec.TakeMsg(old(model))
      ensures m == if old(model).msgs == [] then None else Some(old(model).msgs[0])
    {
      if msg == [] { return None; }
      m := Some(msg[0]);
      msg := msg[1..];
      model := Actual();
    }

    /** What an open message or a valid confirm tells about the peer's end. */
    method Establish(senderId: u32, windowSize: u32, maxPacketSize: u32)
      requires Valid()
      modifies this, remoteWin
      ensures Valid() && Repr == old(Repr)
      ensures model == old(model).(remoteId := senderId, maxRemote := maxPacketSize,
                                   credit := Add(old(model).credit, windowSize).credit)
    {
      remoteId := senderId;
      maxRemote := maxPacketSize;
      var _ := remoteWin.AddCredit(windowSize);
      model := Actual();
    }

    method HandleConfirm(m: Message) returns (verdict: Verdict)
      requires Valid() && m.OpenConfirmMessage?
      modifies this, remoteWin
      ensures Valid() && Repr == old(Repr)
      ensures var h := ChannelSpec.HandleConfirm(old(model), m);
              model == h.ch && verdict == h.verdict && h.out == [] && !h.removed
    {
      if !outbound { return Failed(ResponseOnInbound); }
      if m.maxPacketSize < MIN_PACKET || m.maxPacketSize > MAX_PACKET { return Failed(InvalidMaxPacketSize); }
      Establish(m.senderId, m.windowSize, m.maxPacketSize);
      verdict := Post(m);
    }

    method HandleFailure(m: Message) returns (verdict: Verdict)
      requires Valid() && m.OpenFailureMessage?
      modifies this`msg, this`model, chans
      ensures Valid() && Repr == old(Repr)
      ensures var h := ChannelSpec.HandleFailure(old(model), m);
              && model == h.ch && verdict == h.verdict && h.out == []
              && chans.chans == if h.removed then RemoveFrom(old(chans.chans), m.channelId) else old(chans.chans)
    {
      if !outbound { return Failed(ResponseOnInbound); }
      chans.Remove(m.channelId);
      verdict := Post(m);
    }

    /** The messages of an open channel, which send and free nothing. */
    method HandleOpenChannel(m: Message) returns (verdict: Verdict)
      requires Valid() && (m.DataMessage? || m.EOFMessage? || m.WindowAdjustMessage?)
      modifies Repr
      ensures Valid() && fresh(Repr - old(Repr))
      ensures var h := ChannelSpec.Handle(old(model), m); model == h.ch && verdict == h.verdict
      ensures var h := ChannelSpec.Handle(old(model), m); h.out == [] && !h.removed
    {
      if m.DataMessage? {
        verdict := HandleData(m);
      } else if m.EOFMessage? {
        pending.Eof();
        model := Actual();
        verdict := Fine;
      } else {
        var ok := remoteWin.AddCredit(m.additionalBytes);
        model := Actual();
        verdict := if ok then Fine else Failed(InvalidWindowUpdate);
      }
    }

    /** Every message but Close; none is answered. */
    method HandleOther(m: Message) returns (verdict: Verdict)
      requires Valid() && !m.CloseMessage?
      modifies Repr, chans
      ensures Valid() && fresh(Repr - old(Repr))
      ensures var h := ChannelSpec.Handle(old(model), m);
              && model == h.ch && verdict == h.verdict && h.out == []
              && chans.chans == (if h.removed then RemoveFrom(old(chans.chans), m.channelId) else old(chans.chans))
    {
      if m.OpenConfirmMessage? {
        verdict := HandleConfirm(m);
      } else if m.OpenFailureMessage? {
        verdict := HandleFailure(m);
      } else if m.OpenMessage? {
        verdict := Failed(InvalidMessage);
      } else {
        verdict := HandleOpenChannel(m);
      }
    }

    /** handle */
    method Handle(m: Message) returns (verdict: Verdict)
      requires Valid()
      modifies Repr, chans, enc.w`sent
      ensures Valid() && fresh(Repr - old(Repr))
      ensures var h := ChannelSpec.Handle(old(model), m);
              && model == h.ch && verdict == h.verdict
              && enc.w.sent == old(enc.w.sent) + EncodingAll(h.out)
              && chans.chans == (if h.removed then RemoveFrom(old(chans.chans), FreedId(h.ch, m)) else old(chans.chans))
    {
      if m.CloseMessage? {
        verdict := HandleClose();
      } else {
        NothingSent(enc.w.sent);
        verdict := HandleOther(m);
      }
    }
  }

  lemma NothingSent(sent: seq<byte>)
    ensures sent + EncodingAll([]) == sent
  {
  }

  lemma SentMore(sent: seq<byte>, out: seq<Message>, more: seq<Message>)
    ensures sent + EncodingAll(out) + EncodingAll(more) == sent + EncodingAll(out + more)
  {
    EncodingAllAppend(out, more);
    Assoc(sent, EncodingAll(out), EncodingAll(more));
  }

  lemma OneEncoding(m: Message)
    ensures EncodingAll([m]) == Encoding(m)
  {
    assert EncodingAll([m][1..]) == [];
  }
}
