/** The registry of virtual host names, over all runs of Listen and Close. */
module Registry {
  import opened Bytes
  import opened HostNames

  // ---- As values ----

  /** A listener's name, and whether it is still open. */
  datatype Entry = Entry(name: string, open: bool)

  /** The bindings, and every listener made so far; bindings name them by position. */
  datatype Names = Names(bound: map<string, nat>, made: seq<Entry>)

  const NO_NAMES := Names(map[], [])

  /** Listen on a normalized name; None if it is bound. */
  function ListenOp(r: Names, name: string): Option<Names> {
    if name in r.bound then None
    else Some(Names(r.bound[name := |r.made|], r.made + [Entry(name, true)]))
  }

  function CloseOp(r: Names, i: nat): Names
    requires i < |r.made|
  {
    if r.made[i].open then Names(r.bound - {r.made[i].name}, r.made[i := Entry(r.made[i].name, false)]) else r
  }

  /** Exactly the open listeners are bound, each to its own name. */
  predicate Sound(r: Names) {
    && (forall n :: n in r.bound ==> r.bound[n] < |r.made| && r.made[r.bound[n]] == Entry(n, true))
    && (forall i :: 0 <= i < |r.made| && r.made[i].open ==> r.made[i].name in r.bound && r.bound[r.made[i].name] == i)
  }

  datatype Call = Listen(name: string) | Close(i: nat)

  function After(r: Names, calls: seq<Call>): Names
    decreases |calls|
  {
    if calls == [] then r
    else
      var r1 :=
        match calls[0]
        case Listen(name) => (match ListenOp(r, name) case None => r case Some(next) => next)
        case Close(i) => if i < |r.made| then CloseOp(r, i) else r;
      After(r1, calls[1..])
  }

  lemma CloseKeeps(r: Names, i: nat)
    requires Sound(r) && i < |r.made|
    ensures Sound(CloseOp(r, i))
    ensures forall n :: n in r.bound && r.bound[n] != i ==>
              n in CloseOp(r, i).bound && CloseOp(r, i).bound[n] == r.bound[n]
    ensures forall n :: n in CloseOp(r, i).bound ==> CloseOp(r, i).bound[n] != i
  {
    var r1 := CloseOp(r, i);
    if r.made[i].open {
      forall k | 0 <= k < |r1.made| && r1.made[k].open
        ensures r1.made[k].name in r1.bound && r1.bound[r1.made[k].name] == k
      {
        assert k != i && r.made[k] == r1.made[k];
        assert r.bound[r.made[i].name] == i && r.bound[r.made[k].name] == k;
      }
    }
  }

  lemma ListenKeeps(r: Names, name: string)
    requires Sound(r) && name !in r.bound
    ensures Sound(ListenOp(r, name).value)
  {
    var r1 := ListenOp(r, name).value;
    forall i | 0 <= i < |r1.made| && r1.made[i].open
      ensures r1.made[i].name in r1.bound && r1.bound[r1.made[i].name] == i
    {
      if i < |r.made| { assert r1.made[i] == r.made[i]; }
    }
  }

  lemma {:induction false} RunSound(r: Names, calls: seq<Call>)
    requires Sound(r)
    ensures Sound(After(r, calls))
    decreases |calls|
  {
    if calls != [] {
      match calls[0]
      case Listen(name) =>
        if name !in r.bound { ListenKeeps(r, name); }
        RunSound(match ListenOp(r, name) case None => r case Some(next) => next, calls[1..]);
      case Close(i) =>
        if i < |r.made| { CloseKeeps(r, i); }
        RunSound(if i < |r.made| then CloseOp(r, i) else r, calls[1..]);
    }
  }

  /** After any run the lookup finds only open listeners, and finds the open listener of a
      name by that name. */
  lemma FindsOpenListeners(calls: seq<Call>, host: string)
    ensures var r := After(NO_NAMES, calls);
            && (Lookup(r.bound, host).Some? ==>
                  var i := Lookup(r.bound, host).value;
                  && i < |r.made| && r.made[i].open
                  && (r.made[i].name == host || exists s: string :: Covers(s, host) && r.made[i].name == "*." + s))
            && (forall i: nat :: i < |r.made| && r.made[i] == Entry(host, true) ==> Lookup(r.bound, host) == Some(i))
  {
    var r := After(NO_NAMES, calls);
    RunSound(NO_NAMES, calls);
    if host !in r.bound && Lookup(r.bound, host).Some? {
      WildcardFinds(r.bound, host);
      var s: string :| Longest(r.bound, host, s);
      assert "*." + s in r.bound;
    }
  }

  /** Closing a listener unbinds that listener and no other; closing it once more, at any later
      time, changes nothing, whoever has bound its name since. */
  lemma CloseOnce(before: seq<Call>, between: seq<Call>, i: nat)
    requires i < |After(NO_NAMES, before).made|
    ensures var r := CloseOp(After(NO_NAMES, before), i);
            var later := After(r, between);
            i < |later.made| && CloseOp(later, i) == later
    ensures var r := After(NO_NAMES, before);
            forall n :: n in r.bound && r.bound[n] != i ==>
              n in CloseOp(r, i).bound && CloseOp(r, i).bound[n] == r.bound[n]
  {
    RunSound(NO_NAMES, before);
    CloseKeeps(After(NO_NAMES, before), i);
    StaysClosed(CloseOp(After(NO_NAMES, before), i), between, i);
  }

  /** After any run Listen fails exactly if an open listener has the name. Otherwise there is one more
      listener, open, which a lookup of the name finds, and no other binding changes. */
  lemma ListenExactly(calls: seq<Call>, name: string)
    ensures var r := After(NO_NAMES, calls);
            && (ListenOp(r, name).None? <==> Entry(name, true) in r.made)
            && (ListenOp(r, name).Some? ==>
                  var r1 := ListenOp(r, name).value;
                  && r1.made == r.made + [Entry(name, true)] && Lookup(r1.bound, name) == Some(|r.made|)
                  && r1.bound - {name} == r.bound)
  {
    var r := After(NO_NAMES, calls);
    RunSound(NO_NAMES, calls);
    if name in r.bound { assert r.made[r.bound[name]] == Entry(name, true); }
  }

  /** A listener that was closed is found by no lookup, then and at any later time, and its name is free at once. */
  lemma ClosedIsGone(before: seq<Call>, between: seq<Call>, i: nat, host: string)
    requires i < |After(NO_NAMES, before).made|
    ensures var r := CloseOp(After(NO_NAMES, before), i); var later := After(r, between);
            && i < |later.made| && !later.made[i].open && Lookup(later.bound, host) != Some(i)
    ensures var r := After(NO_NAMES, before);
            r.made[i].open ==> ListenOp(CloseOp(r, i), r.made[i].name).Some?
  {
    var r := CloseOp(After(NO_NAMES, before), i);
    RunSound(NO_NAMES, before);
    CloseKeeps(After(NO_NAMES, before), i);
    RunSound(r, between);
    StaysClosed(r, between, i);
    FindsBound(After(r, between), host);
  }

  lemma FindsBound(r: Names, host: string)
    requires Sound(r)
    ensures Lookup(r.bound, host).Some? ==>
              var i := Lookup(r.bound, host).value; i < |r.made| && r.made[i].open
  {
    if host !in r.bound && Lookup(r.bound, host).Some? {
      WildcardFinds(r.bound, host);
      var s: string :| Longest(r.bound, host, s);
      assert "*." + s in r.bound;
    }
  }

  lemma {:induction false} StaysClosed(r: Names, calls: seq<Call>, i: nat)
    requires i < |r.made| && !r.made[i].open
    ensures i < |After(r, calls).made| && !After(r, calls).made[i].open
    decreases |calls|
  {
    if calls != [] {
      match calls[0]
      case Listen(name) => StaysClosed(match ListenOp(r, name) case None => r case Some(next) => next, calls[1..], i);
      case Close(k) => StaysClosed(if k < |r.made| then CloseOp(r, k) else r, calls[1..], i);
    }
  }

  // ---- As objects ----

  ghost function Serials(registry: map<string, Listener>): map<string, nat> {
    map n | n in registry :: registry[n].serial
  }

  ghost function Entries(ls: seq<Listener>): seq<Entry>
    reads ls
  {
    seq(|ls|, i requires 0 <= i < |ls| reads ls => Entry(ls[i].name, !ls[i].closed))
  }

  lemma SerialsPut(registry: map<string, Listener>, n: string, l: Listener)
    ensures Serials(registry[n := l]) == Serials(registry)[n := l.serial]
    ensures Serials(registry).Keys == registry.Keys
  {
  }

  lemma SerialsDelete(registry: map<string, Listener>, n: string)
    ensures Serials(registry - {n}) == Serials(registry) - {n}
  {
  }

  lemma EntriesAppend(ls: seq<Listener>, l: Listener)
    ensures Entries(ls + [l]) == Entries(ls) + [Entry(l.name, !l.closed)]
  {
  }

  class VhostMuxer {
    const normalize: string -> string
    var registry: map<string, Listener>
    ghost var made: seq<Listener>    // every listener Listen returned

    ghost predicate Valid()
      reads this, made
    {
      && (forall i :: 0 <= i < |made| ==> made[i].mux == this && made[i].serial == i)
      && (forall n :: n in registry ==> registry[n].serial < |made| && made[registry[n].serial] == registry[n])
      && Sound(Model())
    }

    ghost function Model(): Names
      reads this, made
    {
      Names(Serials(registry), Entries(made))
    }

    constructor (normalize: string -> string)
      ensures Valid() && Model() == NO_NAMES && this.normalize == normalize
    {
      this.normalize, registry, made := normalize, map[], [];
    }

    /** None where the source returns an error: the name is already bound. */
    method Listen(name0: string) returns (l: Option<Listener>)
      requires Valid()
      modifies this
      ensures Valid() && (l.None? <==> ListenOp(old(Model()), normalize(name0)).None?)
      ensures l.None? ==> Model() == old(Model())
      ensures l.Some? ==> && fresh(l.value) && made == old(made) + [l.value]
                          && Some(Model()) == ListenOp(old(Model()), normalize(name0))
    {
      var name := normalize(name0);
      var vhost := new Listener(name, this, |made|);
      var bound := Set(name, vhost);
      l := if bound then Some(vhost) else None;
    }

    method Set(name: string, l: Listener) returns (bound: bool)
      requires Valid() && l.name == name && l.mux == this && l.serial == |made| && !l.closed
      modifies this
      ensures Valid() && bound == ListenOp(old(Model()), name).Some?
      ensures made == old(made) + (if bound then [l] else [])
      ensures Model() == if bound then ListenOp(old(Model()), name).value else old(Model())
    {
      SerialsPut(registry, name, l);
      EntriesAppend(made, l);
      if name in registry { return false; }
      ListenKeeps(Model(), name);
      registry := registry[name := l];
      made := made + [l];
      assert Model() == ListenOp(old(Model()), name).value;
      return true;
    }

    method Del(name: string)
      modifies this`registry
      ensures registry == old(registry) - {name}
    {
      registry := registry - {name};
    }

    /** get, on the normalized host of a connection. */
    method Find(host: string) returns (l: Option<Listener>)
      requires Valid()
      ensures l == Lookup(registry, normalize(host))
      ensures l.Some? ==> !l.value.closed && l.value.mux == this
    {
      l := Get(registry, normalize(host));
      MostSpecific(registry, normalize(host));
      if normalize(host) !in registry && l.Some? {
        WildcardFinds(registry, normalize(host));
        ghost var s: string :| Longest(registry, normalize(host), s);
        assert registry["*." + s].serial == Model().bound["*." + s];
      }
      if normalize(host) in registry {
        assert registry[normalize(host)].serial == Model().bound[normalize(host)];
      }
    }
  }

  class Listener {
    const name: string
    const mux: VhostMuxer
    ghost const serial: nat
    var closed: bool         // whether closeOnce has run, and the accept channel is closed

    constructor (name: string, mux: VhostMuxer, ghost serial: nat)
      ensures this.name == name && this.mux == mux && this.serial == serial && !closed
    {
      this.name, this.mux, this.serial, closed := name, mux, serial, false;
    }

    method Close()
      requires mux.Valid() && serial < |mux.made| && mux.made[serial] == this
      modifies this, mux`registry
      ensures mux.Valid() && mux.Model() == CloseOp(old(mux.Model()), serial) && closed
    {
      if closed { return; }
      CloseKeeps(mux.Model(), serial);
      SerialsDelete(mux.registry, name);
      mux.Del(name);
      closed := true;
      assert Entries(mux.made) == old(Entries(mux.made))[serial := Entry(name, false)];
    }
  }
}
