/** The table that gives channels their ids and reuses the ids of removed channels. */
module ChanTable {
  import opened Bytes

  type Table<T> = seq<Option<T>>

  /** The least slot that is free; the length of the table if none is. */
  function LeastFree<T>(t: Table<T>): (i: nat)
    ensures i <= |t| && (i < |t| ==> t[i].None?)
    ensures forall j :: 0 <= j < i ==> t[j].Some?
  {
    if t == [] || t[0].None? then 0 else 1 + LeastFree(t[1..])
  }

  function AddTo<T>(t: Table<T>, x: T): Table<T> {
    var i := LeastFree(t);
    if i < |t| then t[i := Some(x)] else t + [Some(x)]
  }

  /** getChan: the comparison is with the length truncated to 32 bits. */
  function Lookup<T>(t: Table<T>, id: u32): Option<T> {
    if id < Truncate32(|t|) then t[id] else None
  }

  function RemoveFrom<T>(t: Table<T>, id: u32): Table<T> {
    if id < Truncate32(|t|) then t[id := None] else t
  }

  /** The channels still in the table, in order of slot. */
  function Present<T>(t: Table<T>): seq<T> {
    if t == [] then []
    else (if t[0].Some? then [t[0].value] else []) + Present(t[1..])
  }

  lemma {:induction false} PresentAppend<T>(t: Table<T>, s: Option<T>)
    ensures Present(t + [s]) == Present(t) + if s.Some? then [s.value] else []
  {
    if t == [] {
      assert t + [s] == [s];
    } else {
      assert (t + [s])[1..] == t[1..] + [s];
      PresentAppend(t[1..], s);
      Assoc(if t[0].Some? then [t[0].value] else [], Present(t[1..]), if s.Some? then [s.value] else []);
    }
  }

  lemma {:induction false} PresentMembers<T>(t: Table<T>)
    ensures forall x :: x in Present(t) <==> Some(x) in t
  {
    if t != [] {
      PresentMembers(t[1..]);
      assert t == [t[0]] + t[1..];
    }
  }

  // ---- Refinement of a finite map ----

  function Slots<T>(t: Table<T>): map<nat, T> {
    map i: nat | i < |t| && t[i].Some? :: t[i].value
  }

  /** Adding binds exactly the least unbound id. */
  lemma AddRefinesMap<T>(t: Table<T>, x: T)
    ensures var i: nat := LeastFree(t);
            && i !in Slots(t) && (forall j: nat :: j < i ==> j in Slots(t))
            && Slots(AddTo(t, x)) == Slots(t)[i := x]
  {
    var i := LeastFree(t);
    var t' := AddTo(t, x);
    assert forall j: nat :: j < |t'| && j != i ==> j < |t| && t'[j] == t[j];
  }

  lemma RemoveRefinesMap<T>(t: Table<T>, id: u32)
    requires |t| < TWO_32
    ensures Slots(RemoveFrom(t, id)) == Slots(t) - {id}
    ensures |RemoveFrom(t, id)| == |t|
  {
  }

  /** Ids are slots cut to 32 bits, so every slot of a full table answers to its own
      id exactly when the table is shorter than 2^32. */
  lemma IdsResolve<T>(t: Table<T>)
    requires forall i :: 0 <= i < |t| ==> t[i].Some?
    requires forall i, j :: 0 <= i < j < |t| ==> t[i] != t[j]
    ensures (forall i: nat :: i < |t| ==> Lookup(t, Truncate32(i)) == t[i]) <==> |t| < TWO_32
  {
    if |t| >= TWO_32 {
      var last: nat := |t| - 1;
      assert Lookup(t, Truncate32(last)) != t[last] by {
        if last < TWO_32 { assert Truncate32(|t|) == 0; }
      }
    } else {
      forall i: nat | i < |t| ensures Lookup(t, Truncate32(i)) == t[i] {
      }
    }
  }

  // ---- The table never outgrows the peak number of live channels ----

  datatype Op<T> = Adding(x: T) | Removing(id: u32)

  function Do<T>(t: Table<T>, op: Op<T>): Table<T> {
    match op
    case Adding(x) => AddTo(t, x)
    case Removing(id) => RemoveFrom(t, id)
  }

  function DoAll<T>(t: Table<T>, ops: seq<Op<T>>): Table<T>
    decreases |ops|
  {
    if ops == [] then t else DoAll(Do(t, ops[0]), ops[1..])
  }

  function Live<T>(t: Table<T>): nat {
    |Present(t)|
  }

  function Max(a: nat, b: nat): nat {
    if a < b then b else a
  }

  function PeakLive<T>(t: Table<T>, ops: seq<Op<T>>): nat
    decreases |ops|
  {
    if ops == [] then Live(t) else Max(Live(t), PeakLive(Do(t, ops[0]), ops[1..]))
  }

  lemma {:induction false} LiveBound<T>(t: Table<T>)
    ensures Live(t) <= |t|
    ensures LeastFree(t) == |t| ==> Live(t) == |t|
  {
    if t != [] { LiveBound(t[1..]); }
  }

  lemma {:induction false} LengthIsPeakFrom<T>(t: Table<T>, ops: seq<Op<T>>)
    ensures |DoAll(t, ops)| == Max(|t|, PeakLive(t, ops))
    decreases |ops|
  {
    LiveBound(t);
    if ops != [] {
      var t' := Do(t, ops[0]);
      LengthIsPeakFrom(t', ops[1..]);
      LiveBound(t');
      if ops[0].Adding? && LeastFree(t) == |t| { PresentAppend(t, Some(ops[0].x)); }
    }
  }

  /** The length of the table is exactly the most channels that were ever live at once. */
  lemma LengthIsPeak<T>(ops: seq<Op<T>>)
    ensures |DoAll([], ops)| == PeakLive([], ops)
  {
    LengthIsPeakFrom([], ops);
  }

  class ChanList<T> {
    var chans: Table<T>

    constructor ()
      ensures chans == []
    {
      chans := [];
    }

    method Add(x: T) returns (id: u32)
      modifies this
      ensures chans == AddTo(old(chans), x)
      ensures id == Truncate32(LeastFree(old(chans)))
    {
      var i := 0;
      while i < |chans|
        invariant 0 <= i <= |chans| && chans == old(chans)
        invariant forall j :: 0 <= j < i ==> chans[j].Some?
      {
        if chans[i].None? {
          assert i == LeastFree(chans);
          chans := chans[i := Some(x)];
          return Truncate32(i);
        }
        i := i + 1;
      }
      assert LeastFree(chans) == |chans|;
      chans := chans + [Some(x)];
      return Truncate32(|chans| - 1);
    }

    function GetChan(id: u32): Option<T>
      reads this
    {
      Lookup(chans, id)
    }

    method Remove(id: u32)
      modifies this
      ensures chans == RemoveFrom(old(chans), id)
    {
      if id < Truncate32(|chans|) { chans := chans[id := None]; }
    }

    method DropAll() returns (r: seq<T>)
      modifies this
      ensures r == Present(old(chans)) && chans == []
    {
      r := [];
      var i := 0;
      assert chans[..|chans|] == chans;
      while i < |chans|
        invariant 0 <= i <= |chans| && chans == old(chans)
        invariant r == Present(chans[..i])
      {
        assert chans[..i + 1] == chans[..i] + [chans[i]];
        PresentAppend(chans[..i], chans[i]);
        if chans[i].Some? { r := r + [chans[i].value]; }
        i := i + 1;
      }
      assert chans[..i] == chans;
      chans := [];
    }
  }
}
