/** The receiver's byte queue: a linked list of payloads in order of arrival. */
module ByteQueue {
  import opened Bytes

  class Element {
    var buf: seq<byte>
    var next: Element?

    constructor (buf: seq<byte>)
      ensures this.buf == buf && next == null
    {
      this.buf, next := buf, null;
    }
  }

  class Buffer {
    var head: Element
    var tail: Element
    var closed: bool
    ghost var spine: seq<Element>        // the elements from head to tail
    ghost var payloads: seq<seq<byte>>   // what each of them still holds
    ghost var cells: set<Element>        // them, and elements the list has let go

    /** The list runs from head to tail without repeating an element. */
    ghost predicate Valid()
      reads this, cells
    {
      && (forall i :: 0 <= i < |spine| ==> spine[i] in cells)
      && |spine| == |payloads| > 0
      && head == spine[0] && tail == spine[|spine| - 1] && tail.next == null
      && (forall i :: 0 <= i < |spine| ==> spine[i].buf == payloads[i])
      && (forall i :: 0 <= i < |spine| - 1 ==> spine[i].next == spine[i + 1])
      && (forall i, j :: 0 <= i < j < |spine| ==> spine[i] != spine[j])
    }

    /** The queue the list represents. */
    ghost function Queue(): seq<byte>
      reads this
    {
      Concat(payloads)
    }

    constructor ()
      ensures Valid() && fresh(cells) && Queue() == [] && !closed
    {
      var e := new Element([]);
      head, tail, closed := e, e, false;
      spine, payloads, cells := [e], [[]], {e};
      new;
      assert Concat(payloads[1..]) == [];
    }

    method Write(buf: seq<byte>)
      requires Valid()
      modifies this, cells
      ensures Valid() && fresh(cells - old(cells))
      ensures Queue() == old(Queue()) + buf && closed == old(closed)
    {
      var e := new Element(buf);
      tail.next := e;
      tail := e;
      ConcatAppend(payloads, [buf]);
      assert Concat([buf]) == buf + Concat([buf][1..]) == buf;
      spine, payloads, cells := spine + [e], payloads + [buf], cells + {e};
    }

    method Eof()
      requires Valid()
      modifies this`closed
      ensures Valid() && cells == old(cells) && Queue() == old(Queue()) && closed
    {
      closed := true;
    }

    /** Copy what fits from the head element into p[at:]. */
    method TakeFromHead(p: array<byte>, at: nat) returns (r: nat)
      requires Valid() && at < p.Length && |head.buf| > 0
      modifies this, cells, p
      ensures Valid() && spine == old(spine) && cells == old(cells) && closed == old(closed)
      ensures 0 < r <= |old(Queue())| && at + r <= p.Length
      ensures p[..] == old(p[..at]) + old(Queue())[..r] + old(p[at + r..])
      ensures Queue() == old(Queue())[r..]
    {
      r := if p.Length - at < |head.buf| then p.Length - at else |head.buf|;
      ghost var later := Concat(payloads[1..]);
      assert (head.buf + later)[..r] == head.buf[..r];
      CopyInto(p, at, head.buf[..r]);
      assert (head.buf + later)[r..] == head.buf[r..] + later;
      head.buf := head.buf[r..];
      payloads := payloads[0 := payloads[0][r..]];
    }

    /** The same, seen from the bytes read before. */
    method ReadSome(p: array<byte>, n: nat, ghost got: seq<byte>, ghost dest: seq<byte>)
      returns (n': nat, ghost got': seq<byte>)
      requires Valid() && |head.buf| > 0 && n == |got| < p.Length == |dest| && p[..] == got + dest[n..]
      modifies this, cells, p
      ensures Valid() && spine == old(spine) && cells == old(cells) && closed == old(closed)
      ensures n < n' == |got'| <= p.Length && p[..] == got' + dest[n'..]
      ensures got' + Queue() == got + old(Queue())
    {
      var r := TakeFromHead(p, n);
      Filled(got, old(Queue()), dest, r);
      n', got' := n + r, got + old(Queue())[..r];
    }

    /** Make the next element the head. */
    method Advance()
      requires Valid() && head != tail && head.buf == []
      modifies this`head, this`spine, this`payloads
      ensures Valid() && spine == old(spine)[1..] && Queue() == old(Queue())
    {
      assert head.next == spine[1];
      head := head.next;
      spine, payloads := spine[1..], payloads[1..];
    }

    lemma Exhausted()
      requires Valid() && head == tail && head.buf == []
      ensures Queue() == []
    {
      assert payloads[0] == head.buf == [] && payloads[1..] == [];
      assert Queue() == payloads[0] + Concat(payloads[1..]);
    }

    /** Read into p, up to the point where the source would wait for a producer:
        `ready` is false there, with nothing consumed. */
    method Read(p: array<byte>) returns (n: nat, eof: bool, ready: bool)
      requires Valid()
      modifies this, cells, p
      ensures Valid() && cells == old(cells) && closed == old(closed)
      ensures n == Least(p.Length, |old(Queue())|)
      ensures p[..] == old(Queue())[..n] + old(p[..])[n..]
      ensures Queue() == old(Queue())[n..]
      ensures eof == (p.Length > 0 && n == 0 && closed)
      ensures ready == (p.Length == 0 || n > 0 || closed)
    {
      n, eof, ready := 0, false, true;
      ghost var queue, dest, got: seq<byte> := Queue(), p[..], [];
      while n < p.Length
        invariant n == |got| <= p.Length == |dest| && Valid() && cells == old(cells) && closed == old(closed)
        invariant got + Queue() == queue
        invariant p[..] == got + dest[n..]
        decreases p.Length - n, |spine|
      {
        if |head.buf| > 0 {
          n, got := ReadSome(p, n, got, dest);
          continue;
        }
        if head != tail {
          Advance();
          continue;
        }
        Exhausted();
        if n > 0 { break; }
        if closed { eof := true; } else { ready := false; }
        break;
      }
      Parts(queue, got, Queue());
    }
  }

  /** Overwriting the next r places of a destination filled with `got` so far. */
  lemma Filled(got: seq<byte>, left: seq<byte>, dest: seq<byte>, r: nat)
    requires r <= |left| && |got| + r <= |dest|
    ensures var p := got + dest[|got|..];
            p[..|got|] + left[..r] + p[|got| + r..] == (got + left[..r]) + dest[|got| + r..]
    ensures (got + left[..r]) + left[r..] == got + left
  {
    var p := got + dest[|got|..];
    assert p[..|got|] == got && p[|got| + r..] == dest[|got| + r..];
    assert left[..r] + left[r..] == left;
  }

  /** copy(p[at:], src) where src fits. */
  method CopyInto(p: array<byte>, at: nat, src: seq<byte>)
    requires at + |src| <= p.Length
    modifies p
    ensures p[..] == old(p[..at]) + src + old(p[at + |src|..])
  {
    forall i | 0 <= i < |src| { p[at + i] := src[i]; }
  }
}
