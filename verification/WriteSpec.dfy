/** A whole Write call: its loop of chunks, between which credit arrives or the window closes. */
module WriteSpec {
  import opened Bytes
  import opened Codec
  import opened FlowWindow
  import opened ChannelSpec
  import opened LinkSpec

  datatype WriteEnd = Done | Ended | Waiting

  /** What a Write leaves, sends and returns. */
  datatype Written = Written(ch: Chan, out: seq<Message>, n: nat, end: WriteEnd)

  /** The loop. Each iteration has its own list of what arrives at the window before it may
      reserve; the call is left waiting when that runs out or brings no credit. */
  function WriteLoop(c: Chan, data: seq<byte>, schedule: seq<seq<Arrival>>): Written
    decreases |schedule|
  {
    if data == [] then Written(c, [], 0, Done)
    else if schedule == [] then Written(c, [], 0, Waiting)
    else
      var c1 := c.(credit := ArriveAll(c.credit, schedule[0]));
      if c1.credit.win == 0 && !c1.credit.closed then Written(c1, [], 0, Waiting)
      else
        var e := WriteChunk(c1, data);
        if e.eof then Written(e.ch, [], 0, Ended)
        else
          var k := |e.out[0].data|;
          var w := WriteLoop(e.ch, data[k..], schedule[1..]);
          Written(w.ch, e.out + w.out, k + w.n, w.end)
  }

  /** Whether an iteration's reserve can return. */
  predicate Ready(c: Chan, during: seq<Arrival>) {
    ArriveAll(c.credit, during).win > 0 || ArriveAll(c.credit, during).closed
  }

  /** What one iteration does; nothing but the arrivals if it is left waiting. */
  function OneEffect(c: Chan, left: seq<byte>, during: seq<Arrival>): Effect {
    var c1 := c.(credit := ArriveAll(c.credit, during));
    if Ready(c, during) then WriteChunk(c1, left) else Effect(c1, [], false)
  }

  /** One iteration in its two parts: reserving credit, and a packet with that many bytes. */
  lemma OneEffectParts(c: Chan, left: seq<byte>, during: seq<Arrival>)
    ensures var w := ArriveAll(c.credit, during);
            var e := OneEffect(c, left, during);
            if !Ready(c, during) then e == Effect(c.(credit := w), [], false)
            else
              var r := Reserve(w, Min32(c.maxRemote, |left|));
              var c1 := c.(credit := r.credit);
              if r.eof then e == Effect(c1, [], true)
              else
                && r.got <= |left|
                && var toSend := left[..r.got];
                   e == Effect(c1.(written := c1.written + toSend),
                               [DataMessage(c1.remoteId, Truncate32(|toSend|), toSend)], false)
  {
    MinExact(c.maxRemote, |left|);
  }

  /** A call that will end as `goal` has sent n bytes in `out` and is at iteration i with `left` to go. */
  ghost predicate InLoop(goal: Written, out: seq<Message>, n: nat, c: Chan, left: seq<byte>,
                         schedule: seq<seq<Arrival>>, i: nat)
  {
    && i <= |schedule|
    && var w := WriteLoop(c, left, schedule[i..]);
       goal == Written(w.ch, out + w.out, n + w.n, w.end)
  }

  /** The same for a call that may have just ended as `end`, not Done meaning that it has. */
  ghost predicate OnCourse(goal: Written, out: seq<Message>, n: nat, end: WriteEnd, c: Chan, left: seq<byte>,
                           schedule: seq<seq<Arrival>>, i: nat)
  {
    if end.Done? then InLoop(goal, out, n, c, left, schedule, i) else goal == Written(c, out, n, end)
  }

  lemma LoopEnds(goal: Written, out: seq<Message>, n: nat, c: Chan, left: seq<byte>,
        schedule: seq<seq<Arrival>>, i: nat)
    requires InLoop(goal, out, n, c, left, schedule, i) && (left == [] || i == |schedule|)
    ensures goal == Written(c, out, n, if left == [] then Done else Waiting)
  {
    assert out + [] == out;
  }

  /** The loop one iteration on. */
  lemma LoopGoesOn(goal: Written, out: seq<Message>, n: nat, c: Chan, left: seq<byte>,
        schedule: seq<seq<Arrival>>, i: nat)
    requires InLoop(goal, out, n, c, left, schedule, i) && left != [] && i < |schedule|
    ensures var e := OneEffect(c, left, schedule[i]);
            if !Ready(c, schedule[i]) then OnCourse(goal, out + e.out, n, Waiting, e.ch, left, schedule, i + 1)
            else if e.eof then OnCourse(goal, out + e.out, n, Ended, e.ch, left, schedule, i + 1)
            else
              && |e.out| == 1 && e.out[0].DataMessage? && |e.out[0].data| <= |left|
              && OnCourse(goal, out + e.out, n + |e.out[0].data|, Done, e.ch, left[|e.out[0].data|..], schedule, i + 1)
  {
    assert schedule[i..][0] == schedule[i] && schedule[i..][1..] == schedule[i + 1..];
    assert out + [] == out;
    var e := OneEffect(c, left, schedule[i]);
    if e.out != [] {
      var w := WriteLoop(e.ch, left[|e.out[0].data|..], schedule[i + 1..]);
      assert out + (e.out + w.out) == (out + e.out) + w.out;
    }
  }

  function WriteCall(c: Chan, data: seq<byte>, schedule: seq<seq<Arrival>>): Written {
    if c.sentEOF then Written(c, [], 0, Ended) else WriteLoop(c, data, schedule)
  }

  /** The channel when the first iteration of the loop reserves. */
  function AtReserve(c: Chan, schedule: seq<seq<Arrival>>): Chan
    requires schedule != []
  {
    c.(credit := ArriveAll(c.credit, schedule[0]))
  }

  /** The first iteration sends a packet. */
  predicate CanSend(c: Chan, data: seq<byte>, schedule: seq<seq<Arrival>>) {
    data != [] && schedule != [] && var c1 := AtReserve(c, schedule); c1.credit.win > 0 && !c1.credit.closed
  }

  /** An iteration that sends: one packet, whose data is a prefix of what is left, and then the rest of the loop. */
  lemma Iteration(c: Chan, data: seq<byte>, schedule: seq<seq<Arrival>>)
    requires CanSend(c, data, schedule)
    ensures var e := WriteChunk(AtReserve(c, schedule), data);
            && |e.out| == 1 && e.out[0].DataMessage? && e.out[0].WellFormed() && e.out[0].channelId == c.remoteId
            && |e.out[0].data| <= |data| && e.out[0].data == data[..|e.out[0].data|]
            && |e.out[0].data| <= c.maxRemote
            && (|e.out[0].data| >= 1 <==> |data| % 0x1_0000_0000 != 0 && c.maxRemote > 0)
            && e.ch.written == c.written + e.out[0].data
            && e.ch.maxRemote == c.maxRemote && e.ch.remoteId == c.remoteId
    ensures var e := WriteChunk(AtReserve(c, schedule), data);
            var k := |e.out[0].data|;
            var w := WriteLoop(e.ch, data[k..], schedule[1..]);
            WriteLoop(c, data, schedule) == Written(w.ch, [e.out[0]] + w.out, k + w.n, w.end)
  {
    ChunkProgress(AtReserve(c, schedule), data);
    var e := WriteChunk(AtReserve(c, schedule), data);
    assert e.out == [e.out[0]];
  }

  lemma NoIteration(c: Chan, data: seq<byte>, schedule: seq<seq<Arrival>>)
    requires !CanSend(c, data, schedule)
    ensures var w := WriteLoop(c, data, schedule);
            w.out == [] && w.n == 0 && w.ch.written == c.written && (w.end.Done? <==> data == [])
  {
  }

  lemma PayloadCons(m: Message, ms: seq<Message>)
    requires m.DataMessage?
    ensures Payload([m] + ms) == m.data + Payload(ms)
  {
    assert ([m] + ms)[1..] == ms;
  }

  lemma SplitPrefix(data: seq<byte>, k: nat, n: nat)
    requires k + n <= |data|
    ensures data[..k + n] == data[..k] + data[k..][..n]
  {
  }

  /** The payloads sent are data[:n], in order, and the call is done exactly with the whole of data. */
  lemma {:induction false} WriteSendsPrefix(c: Chan, data: seq<byte>, schedule: seq<seq<Arrival>>)
    ensures var w := WriteLoop(c, data, schedule);
            w.n <= |data| && Payload(w.out) == data[..w.n] && (w.end.Done? <==> w.n == |data|)
    decreases |schedule|
  {
    if CanSend(c, data, schedule) {
      Iteration(c, data, schedule);
      var e := WriteChunk(AtReserve(c, schedule), data);
      var k := |e.out[0].data|;
      var w := WriteLoop(e.ch, data[k..], schedule[1..]);
      WriteSendsPrefix(e.ch, data[k..], schedule[1..]);
      PayloadCons(e.out[0], w.out);
      SplitPrefix(data, k, w.n);
    } else {
      NoIteration(c, data, schedule);
    }
  }

  /** How a Write ends. On a write side that was ended it returns EOF at once. Otherwise it is done exactly when all
      is written; it returns EOF only on a window that is closed; and it is left waiting only without credit on
      a window that is open, unless no iteration is left for it. */
  lemma {:induction false} WriteEnds(c: Chan, data: seq<byte>, schedule: seq<seq<Arrival>>)
    ensures c.sentEOF ==> WriteCall(c, data, schedule) == Written(c, [], 0, Ended)
    ensures var w := WriteLoop(c, data, schedule);
            match w.end
            case Done => w.n == |data|
            case Ended => w.n < |data| && w.ch.credit.closed
            case Waiting =>
              w.n < |data| && (|w.out| == |schedule| || (w.ch.credit.win == 0 && !w.ch.credit.closed))
    decreases |schedule|
  {
    WriteSendsPrefix(c, data, schedule);
    if CanSend(c, data, schedule) {
      Iteration(c, data, schedule);
      var e := WriteChunk(AtReserve(c, schedule), data);
      WriteEnds(e.ch, data[|e.out[0].data|..], schedule[1..]);
    }
  }

  /** The history of bytes written grows by exactly what was sent. */
  lemma {:induction false} WriteRecords(c: Chan, data: seq<byte>, schedule: seq<seq<Arrival>>)
    ensures var w := WriteLoop(c, data, schedule); w.ch.written == c.written + Payload(w.out)
    decreases |schedule|
  {
    if CanSend(c, data, schedule) {
      Iteration(c, data, schedule);
      var e := WriteChunk(AtReserve(c, schedule), data);
      var k := |e.out[0].data|;
      var w := WriteLoop(e.ch, data[k..], schedule[1..]);
      WriteRecords(e.ch, data[k..], schedule[1..]);
      PayloadCons(e.out[0], w.out);
      Assoc(c.written, e.out[0].data, Payload(w.out));
    } else {
      NoIteration(c, data, schedule);
    }
  }

  /** Every packet is well-formed, names the peer's channel and is within the peer's limit. */
  lemma {:induction false} WritePackets(c: Chan, data: seq<byte>, schedule: seq<seq<Arrival>>)
    ensures var out := WriteLoop(c, data, schedule).out;
            forall i :: 0 <= i < |out| ==>
              out[i].DataMessage? && out[i].WellFormed() && |out[i].data| <= c.maxRemote
              && out[i].channelId == c.remoteId
    decreases |schedule|
  {
    if CanSend(c, data, schedule) {
      Iteration(c, data, schedule);
      var e := WriteChunk(AtReserve(c, schedule), data);
      WritePackets(e.ch, data[|e.out[0].data|..], schedule[1..]);
    } else {
      NoIteration(c, data, schedule);
    }
  }

  /** For data shorter than 2^32 bytes, to a peer that takes at least one byte a packet, every
      packet carries data, so the loop sends at most len(data) of them. */
  lemma {:induction false} WriteBounded(c: Chan, data: seq<byte>, schedule: seq<seq<Arrival>>)
    requires |data| < TWO_32 && c.maxRemote >= 1
    ensures var w := WriteLoop(c, data, schedule);
            |w.out| <= w.n && forall i :: 0 <= i < |w.out| ==> w.out[i].DataMessage? && 1 <= |w.out[i].data|
    decreases |schedule|
  {
    if CanSend(c, data, schedule) {
      Iteration(c, data, schedule);
      var e := WriteChunk(AtReserve(c, schedule), data);
      WriteBounded(e.ch, data[|e.out[0].data|..], schedule[1..]);
    } else {
      NoIteration(c, data, schedule);
    }
  }

  // ---- When a Write can do its whole work ----

  /** An arrival that lets the next iteration send, where the window is open. */
  function Refill(c: Chan): seq<Arrival> {
    if c.credit.win == 0 then [Granted(1)] else []
  }

  lemma RefillGrants(c: Chan, data: seq<byte>, schedule: seq<seq<Arrival>>)
    requires data != [] && !c.credit.closed && schedule != [] && schedule[0] == Refill(c)
    ensures CanSend(c, data, schedule)
  {
    if c.credit.win == 0 { assert [Granted(1)][1..] == []; }
  }

  lemma {:induction false} ArrivalsKeepClosed(c: Credit, arrivals: seq<Arrival>)
    requires c.closed
    ensures ArriveAll(c, arrivals).closed
    decreases |arrivals|
  {
    if arrivals != [] { ArrivalsKeepClosed(Arrive(c, arrivals[0]), arrivals[1..]); }
  }

  /** Once the window is closed nothing is sent and the call does not succeed. */
  lemma ClosedSendsNothing(c: Chan, data: seq<byte>, schedule: seq<seq<Arrival>>)
    requires c.credit.closed && data != []
    ensures WriteLoop(c, data, schedule).out == [] && !WriteLoop(c, data, schedule).end.Done?
  {
    if schedule != [] { ArrivalsKeepClosed(c.credit, schedule[0]); }
    NoIteration(c, data, schedule);
  }

  /** Data of 2^32 bytes or more is never written whole: the length passed to min is truncated to
      32 bits, and when a multiple of 2^32 bytes is left every packet is empty. */
  lemma {:induction false} LongWriteStalls(c: Chan, data: seq<byte>, schedule: seq<seq<Arrival>>)
    requires |data| >= TWO_32
    ensures WriteLoop(c, data, schedule).n <= Truncate32(|data|)
    ensures !WriteLoop(c, data, schedule).end.Done?
    decreases |schedule|
  {
    if CanSend(c, data, schedule) {
      Iteration(c, data, schedule);
      var e := WriteChunk(AtReserve(c, schedule), data);
      var k := |e.out[0].data|;
      ChunkTruncated(AtReserve(c, schedule), data);
      RemainderDrops(|data|, k);
      assert |data[k..]| == |data| - k;
      LongWriteStalls(e.ch, data[k..], schedule[1..]);
    } else {
      NoIteration(c, data, schedule);
    }
  }

  lemma ChunkTruncated(c: Chan, data: seq<byte>)
    requires c.credit.win > 0 && !c.credit.closed
    ensures |WriteChunk(c, data).out[0].data| <= Truncate32(|data|)
  {
  }

  lemma RemainderDrops(n: nat, k: nat)
    requires n >= TWO_32 && k <= Truncate32(n)
    ensures n - k >= TWO_32 && Truncate32(n - k) == Truncate32(n) - k
  {
  }

  /** Where the peer's limit is zero every packet is empty. */
  lemma {:induction false} NoLimitStalls(c: Chan, data: seq<byte>, schedule: seq<seq<Arrival>>)
    requires data != [] && c.maxRemote == 0
    ensures !WriteLoop(c, data, schedule).end.Done?
    decreases |schedule|
  {
    if CanSend(c, data, schedule) {
      Iteration(c, data, schedule);
      var e := WriteChunk(AtReserve(c, schedule), data);
      NoLimitStalls(e.ch, data[|e.out[0].data|..], schedule[1..]);
    } else {
      NoIteration(c, data, schedule);
    }
  }

  /** Arrivals that see a Write through, a byte at a time if need be. */
  lemma {:induction false} ShortWriteEnds(c: Chan, data: seq<byte>) returns (schedule: seq<seq<Arrival>>)
    requires |data| < TWO_32 && (data == [] || (c.maxRemote > 0 && !c.credit.closed))
    ensures WriteLoop(c, data, schedule).end.Done?
    decreases |data|
  {
    if data == [] { return []; }
    schedule := [Refill(c)];
    RefillGrants(c, data, schedule);
    Iteration(c, data, schedule);
    var e := WriteChunk(AtReserve(c, schedule), data);
    var k := |e.out[0].data|;
    var later := ShortWriteEnds(e.ch, data[k..]);
    schedule := [Refill(c)] + later;
    assert schedule[1..] == later;
    RefillGrants(c, data, schedule);
    Iteration(c, data, schedule);
  }

  /** "Write writes len(data) bytes": it can, with the credit it waits for arriving in time, if and
      only if the write side is open and, unless there is nothing to write, the length fits 32 bits,
      the peer takes at least a byte a packet, and the window is not closed. */
  lemma WritesAll(c: Chan, data: seq<byte>)
    ensures (exists schedule :: WriteCall(c, data, schedule).end.Done?)
            <==> !c.sentEOF && (data == [] || (|data| < TWO_32 && c.maxRemote > 0 && !c.credit.closed))
  {
    if !c.sentEOF {
      if data == [] || (|data| < TWO_32 && c.maxRemote > 0 && !c.credit.closed) {
        var schedule := ShortWriteEnds(c, data);
        assert WriteCall(c, data, schedule).end.Done?;
      } else {
        forall schedule ensures !WriteCall(c, data, schedule).end.Done? {
          if c.credit.closed { ClosedSendsNothing(c, data, schedule); }
          else if c.maxRemote == 0 { NoLimitStalls(c, data, schedule); }
          else { LongWriteStalls(c, data, schedule); }
        }
      }
    }
  }
}
