/** The sender's side of flow control: credit granted by the peer. */
module FlowWindow {
  import opened Bytes

  /** A window's value, with the history of what became of its credit:
      all of it accepted, the part handed to writers, the part lost by reserving on a closed window. */
  datatype Credit = Credit(win: u32, closed: bool, granted: nat, spent: nat, forfeited: nat) {
    predicate Balanced() {
      granted == win + spent + forfeited
    }
  }

  const NO_CREDIT := Credit(0, false, 0, 0, 0)

  datatype Grant = Grant(credit: Credit, ok: bool)

  /** add, with the 32-bit addition and the overflow test as the code performs them. */
  function Add(c: Credit, n: u32): Grant {
    if n == 0 then Grant(c, true)
    else if Add32(c.win, n) < n then Grant(c, false)
    else Grant(c.(win := Add32(c.win, n), granted := c.granted + n), true)
  }

  datatype Reservation = Reservation(credit: Credit, got: u32, eof: bool)

  /** reserve once it stops waiting; a waiting reserve changes nothing. */
  function Reserve(c: Credit, want: u32): Reservation
    requires c.win > 0 || c.closed
  {
    var got := if c.win < want then c.win else want;
    var left := c.(win := c.win - got);
    if c.closed then Reservation(left.(forfeited := c.forfeited + got), got, true)
    else Reservation(left.(spent := c.spent + got), got, false)
  }

  /** The wrapping test rejects exactly the grants whose true sum does not fit, and
      an accepted grant is never truncated. */
  lemma AddRejectsExactlyOverflow(c: Credit, n: u32)
    ensures Add(c, n).ok <==> c.win + n < TWO_32
    ensures Add(c, n).ok ==> Add(c, n).credit.win == c.win + n
    ensures !Add(c, n).ok ==> Add(c, n).credit == c
    ensures c.Balanced() ==> Add(c, n).credit.Balanced()
  {
  }

  /** reserve hands out as much as it can: all that is wanted, or all there is. */
  lemma ReservesMost(c: Credit, want: u32)
    requires c.win > 0 || c.closed
    ensures var r := Reserve(c, want);
            && r.got <= want && r.got + r.credit.win == c.win && (r.got == want || r.credit.win == 0)
            && r.eof == c.closed && (!r.eof ==> r.credit.spent == c.spent + r.got)
  {
  }

  lemma FirstGrant(n: u32)
    ensures Add(NO_CREDIT, n) == Grant(Credit(n, false, n, 0, 0), true)
  {
  }

  /** What other parties do to a window: the peer's grants, and closing. */
  datatype Arrival = Granted(n: u32) | Shut

  function Arrive(c: Credit, a: Arrival): Credit {
    match a
    case Granted(n) => Add(c, n).credit
    case Shut => c.(closed := true)
  }

  function ArriveAll(c: Credit, arrivals: seq<Arrival>): Credit
    decreases |arrivals|
  {
    if arrivals == [] then c else ArriveAll(Arrive(c, arrivals[0]), arrivals[1..])
  }

  /** Events over the life of a window; a reservation with no credit waits, and changes nothing. */
  datatype Event = Arrived(a: Arrival) | Reserved(want: u32)

  function Apply(c: Credit, e: Event): Credit {
    match e
    case Arrived(a) => Arrive(c, a)
    case Reserved(want) => if c.win > 0 || c.closed then Reserve(c, want).credit else c
  }

  function ApplyAll(c: Credit, es: seq<Event>): Credit
    decreases |es|
  {
    if es == [] then c else ApplyAll(Apply(c, es[0]), es[1..])
  }

  /** Credit is neither created nor lost, whatever the peer grants and however
      writers reserve; credit is forfeited only after the window closed. */
  lemma {:induction false} CreditConserved(c: Credit, es: seq<Event>)
    requires c.Balanced() && (c.forfeited > 0 ==> c.closed)
    ensures ApplyAll(c, es).Balanced()
    ensures ApplyAll(c, es).forfeited > 0 ==> ApplyAll(c, es).closed
    decreases |es|
  {
    if es != [] {
      if es[0].Arrived? && es[0].a.Granted? { AddRejectsExactlyOverflow(c, es[0].a.n); }
      CreditConserved(Apply(c, es[0]), es[1..]);
    }
  }

  class Window {
    var win: u32
    var closed: bool
    ghost var granted: nat
    ghost var spent: nat
    ghost var forfeited: nat

    ghost function Model(): Credit
      reads this
    {
      Credit(win, closed, granted, spent, forfeited)
    }

    constructor ()
      ensures Model() == NO_CREDIT
    {
      win, closed, granted, spent, forfeited := 0, false, 0, 0, 0;
    }

    method AddCredit(n: u32) returns (ok: bool)
      modifies this
      ensures Model() == Add(old(Model()), n).credit && ok == Add(old(Model()), n).ok
    {
      // A zero-sized adjustment is a no-op.
      if n == 0 { return true; }
      if Add32(win, n) < n { return false; }
      win := Add32(win, n);
      granted := granted + n;
      return true;
    }

    method Close()
      modifies this
      ensures Model() == old(Model()).(closed := true)
    {
      closed := true;
    }

    /** reserve. While there is no credit the source waits on its condition; what
        arrives meanwhile is the parameter `during`, and `ready` is false when
        that leaves the caller still waiting. */
    method ReserveCredit(want: u32, during: seq<Arrival>) returns (got: u32, eof: bool, ready: bool)
      modifies this
      ensures var c := ArriveAll(old(Model()), during);
              && ready == (c.win > 0 || c.closed)
              && (ready ==> var r := Reserve(c, want); Model() == r.credit && got == r.got && eof == r.eof)
              && (!ready ==> Model() == c && got == 0 && !eof)
    {
      ghost var start := Model();
      var i := 0;
      while i < |during|
        invariant 0 <= i <= |during|
        invariant ArriveAll(Model(), during[i..]) == ArriveAll(start, during)
      {
        assert during[i..][1..] == during[i + 1..];
        match during[i] {
          case Granted(n) => var _ := AddCredit(n);
          case Shut => Close();
        }
        i := i + 1;
      }
      ready := win > 0 || closed;
      got, eof := 0, false;
      if ready { got, eof := Take(want); }
    }

    /** The part of reserve after its wait loop. */
    method Take(want: u32) returns (got: u32, eof: bool)
      requires win > 0 || closed
      modifies this
      ensures var r := Reserve(old(Model()), want); Model() == r.credit && got == r.got && eof == r.eof
    {
      got := want;
      if win < got { got := win; }
      win := win - got;
      eof := closed;
      if closed { forfeited := forfeited + got; } else { spent := spent + got; }
    }
  }
}
