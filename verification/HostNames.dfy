/** Host names as dotted strings, and the most specific binding for one. */
module HostNames {
  import opened Bytes

  // ---- strings.Split and strings.Join at dots ----

  /** The position of the first dot; the length if there is none. */
  function FirstDot(s: string): (d: nat)
    ensures d <= |s| && (d < |s| ==> s[d] == '.')
    ensures forall i :: 0 <= i < d ==> s[i] != '.'
  {
    if s == [] || s[0] == '.' then 0 else 1 + FirstDot(s[1..])
  }

  function Split(s: string): (parts: seq<string>)
    ensures parts != [] && (forall i :: 0 <= i < |parts| ==> '.' !in parts[i])
    decreases |s|
  {
    var d := FirstDot(s);
    if d == |s| then [s] else [s[..d]] + Split(s[d + 1..])
  }

  function Join(parts: seq<string>): string
    requires parts != []
  {
    if |parts| == 1 then parts[0] else parts[0] + "." + Join(parts[1..])
  }

  lemma AroundDot(s: string, d: nat)
    requires d < |s| && s[d] == '.'
    ensures s == s[..d] + "." + s[d + 1..]
  {
  }

  lemma {:induction false} JoinSplit(s: string)
    ensures Join(Split(s)) == s
    decreases |s|
  {
    var d := FirstDot(s);
    if d < |s| {
      JoinSplit(s[d + 1..]);
      assert Split(s)[1..] == Split(s[d + 1..]);
      AroundDot(s, d);
    }
  }

  /** What is left of a name after its first dot. */
  function Parent(s: string): string
    requires FirstDot(s) < |s|
  {
    s[FirstDot(s) + 1..]
  }

  lemma JoinParent(parts: seq<string>)
    requires parts != [] && '.' !in parts[0]
    ensures FirstDot(Join(parts)) == |Join(parts)| <==> |parts| == 1
    ensures |parts| > 1 ==> Parent(Join(parts)) == Join(parts[1..])
  {
    var s := Join(parts);
    if |parts| > 1 {
      assert s[|parts[0]|] == '.' && s[..|parts[0]|] == parts[0];
      assert forall i :: 0 <= i < |parts[0]| ==> s[i] == parts[0][i];
      assert FirstDot(s) == |parts[0]|;
    }
  }

  // ---- The lookup ----

  /** A wildcard that covers the name, dropping one leading label after another. */
  function Wildcard<T>(reg: map<string, T>, name: string): Option<T>
    decreases |name|
  {
    if FirstDot(name) == |name| then None
    else if "*." + Parent(name) in reg then Some(reg["*." + Parent(name)])
    else Wildcard(reg, Parent(name))
  }

  function Lookup<T>(reg: map<string, T>, name: string): Option<T> {
    if name in reg then Some(reg[name]) else Wildcard(reg, name)
  }

  /** get */
  method Get<T>(reg: map<string, T>, host: string) returns (r: Option<T>)
    ensures r == Lookup(reg, host)
  {
    if host in reg { return Some(reg[host]); }
    var parts, i := Split(host), 0;
    JoinSplit(host);
    assert parts[0..] == parts;
    while i < |parts| - 1
      invariant 0 <= i < |parts| && (forall k :: i <= k < |parts| ==> '.' !in parts[k])
      invariant Wildcard(reg, host) == Wildcard(reg, Join(parts[i..]))
    {
      StarredTail(parts, i);
      parts := parts[i := "*"];
      var name := Join(parts[i..]);
      if name in reg { return Some(reg[name]); }
      i := i + 1;
    }
    JoinParent(parts[i..]);
    return None;
  }

  /** Dropping the label at i, and a star in its place. */
  lemma StarredTail(parts: seq<string>, i: nat)
    requires i < |parts| - 1 && '.' !in parts[i]
    ensures FirstDot(Join(parts[i..])) < |Join(parts[i..])|
    ensures Parent(Join(parts[i..])) == Join(parts[i + 1..])
    ensures var starred := parts[i := "*"];
            starred[i + 1..] == parts[i + 1..] && Join(starred[i..]) == "*." + Join(parts[i + 1..])
  {
    JoinParent(parts[i..]);
    assert parts[i..][1..] == parts[i + 1..];
    var starred := parts[i := "*"];
    assert starred[i..][1..] == starred[i + 1..] == parts[i + 1..];
    Assoc("*", ".", Join(parts[i + 1..]));
  }

  // ---- Most specific match ----

  /** s is what follows some dot of the host. */
  predicate Covers(s: string, host: string) {
    |s| < |host| && host[|host| - |s| - 1] == '.' && host[|host| - |s|..] == s
  }

  predicate Bound<T>(reg: map<string, T>, s: string) {
    "*." + s in reg
  }

  /** The longest s with a binding of "*."+s among those that cover the host. */
  ghost predicate Longest<T>(reg: map<string, T>, host: string, s: string) {
    && Covers(s, host) && Bound(reg, s)
    && forall t: string :: Covers(t, host) && Bound(reg, t) ==> |t| <= |s|
  }

  /** A suffix shorter than the parent lies in the parent. */
  lemma ShorterCovers(s: string, host: string)
    requires FirstDot(host) < |host| && |s| < |Parent(host)|
    ensures Covers(s, host) <==> Covers(s, Parent(host))
  {
    var d := FirstDot(host);
    var p := Parent(host);
    var k: nat := |p| - |s|;
    assert |host| - |s| == d + 1 + k;
    assert p[k - 1] == host[d + k];
    assert p[k..] == host[d + 1 + k..];
  }

  /** A suffix as long as the parent is the parent. */
  lemma ParentCovers(s: string, host: string)
    requires FirstDot(host) < |host| && |s| == |Parent(host)|
    ensures Covers(s, host) <==> s == Parent(host)
    ensures !Covers(s, Parent(host))
  {
    assert |host| - |s| == FirstDot(host) + 1;
  }

  /** A suffix longer than the parent follows no dot. */
  lemma LongerNeverCovers(s: string, host: string)
    requires FirstDot(host) == |host| || |s| > |Parent(host)|
    ensures !Covers(s, host)
  {
    var d := FirstDot(host);
    if |s| < |host| { assert |host| - |s| - 1 < d; }
  }

  /** The suffixes that cover a name are its parent and those that cover its parent. */
  lemma CoversParent(s: string, host: string)
    ensures FirstDot(host) == |host| ==> !Covers(s, host)
    ensures FirstDot(host) < |host| ==> (Covers(s, host) <==> s == Parent(host) || Covers(s, Parent(host)))
  {
    if FirstDot(host) == |host| || |s| > |Parent(host)| {
      LongerNeverCovers(s, host);
    } else if |s| == |Parent(host)| {
      ParentCovers(s, host);
    } else {
      ShorterCovers(s, host);
    }
  }

  lemma {:induction false} WildcardFinds<T>(reg: map<string, T>, host: string)
    ensures forall s: string :: Longest(reg, host, s) ==> Wildcard(reg, host) == Some(reg["*." + s])
    ensures Wildcard(reg, host).Some? ==> exists s: string :: Longest(reg, host, s)
    ensures Wildcard(reg, host).None? ==> forall s: string :: Covers(s, host) ==> !Bound(reg, s)
    decreases |host|
  {
    forall s: string ensures FirstDot(host) == |host| ==> !Covers(s, host) { CoversParent(s, host); }
    if FirstDot(host) < |host| {
      var p := Parent(host);
      forall s: string ensures Covers(s, host) <==> s == p || Covers(s, p) { CoversParent(s, host); }
      if Bound(reg, p) {
        assert Longest(reg, host, p);
        forall s: string | Longest(reg, host, s) ensures s == p {
          assert |p| <= |s|;
        }
      } else {
        WildcardFinds(reg, p);
        forall s: string ensures Longest(reg, host, s) <==> Longest(reg, p, s) {
        }
      }
    }
  }

  /** get returns the exact binding if there is one, otherwise the wildcard binding with the
      longest suffix that covers the host, and nothing only if there is neither. */
  lemma MostSpecific<T>(reg: map<string, T>, host: string)
    ensures host in reg ==> Lookup(reg, host) == Some(reg[host])
    ensures host !in reg ==>
              && (forall s: string :: Longest(reg, host, s) ==> Lookup(reg, host) == Some(reg["*." + s]))
              && (Lookup(reg, host).Some? <==> exists s: string :: Covers(s, host) && Bound(reg, s))
  {
    WildcardFinds(reg, host);
  }
}
