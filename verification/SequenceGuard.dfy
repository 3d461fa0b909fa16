/** Per-connection ordering of inbound messages (apps/server/src/models/SequenceGuard.ts). */
module SequenceGuards {
  import opened Wrappers
  import Ordering

  const MAX_TRACKED_GAP_SPAN: int := 10000

  /** The numbers `accept` may be given: whole ones, and NaN or an infinity. */
  datatype Offer = Whole(n: int) | NotFinite

  datatype GuardState = GuardState(lastSeen: Option<int>, gaps: set<int>)

  const NEW_GUARD := GuardState(None, {})

  /** The whole numbers strictly between `a` and `b`. */
  function Between(a: int, b: int): (r: set<int>)
    ensures forall m :: m in r <==> a < m < b
    ensures |r| == if a < b then b - a - 1 else 0
    decreases b - a
  {
    if b <= a + 1 then {} else Between(a, b - 1) + {b - 1}
  }

  predicate Accepts(g: GuardState, x: Offer) {
    x.Whole? && (g.lastSeen.None? || x.n > g.lastSeen.value)
  }

  function After(g: GuardState, x: Offer): GuardState {
    if x.NotFinite? then g
    else if g.lastSeen.None? then g.(lastSeen := Some(x.n))
    else if x.n <= g.lastSeen.value then g.(gaps := g.gaps - {x.n})
    else
      var missed := if x.n - g.lastSeen.value <= MAX_TRACKED_GAP_SPAN then Between(g.lastSeen.value, x.n) else {};
      GuardState(Some(x.n), g.gaps + missed)
  }

  class SequenceGuard {
    var lastSeen: Option<int>
    var gaps: set<int>

    constructor ()
      ensures State() == NEW_GUARD
    {
      lastSeen := None;
      gaps := {};
    }

    function State(): GuardState
      reads this
    {
      GuardState(lastSeen, gaps)
    }

    method Accept(x: Offer) returns (accepted: bool)
      modifies this
      ensures State() == After(old(State()), x)
      ensures accepted <==> Accepts(old(State()), x)
    {
      if x.NotFinite? { return false; }
      if lastSeen.None? {
        lastSeen := Some(x.n);
        return true;
      }
      if x.n <= lastSeen.value {
        gaps := gaps - {x.n};
        return false;
      }
      var span := x.n - lastSeen.value;
      if span <= MAX_TRACKED_GAP_SPAN {
        var missed := lastSeen.value + 1;
        while missed < x.n
          invariant lastSeen == old(lastSeen) && lastSeen.value < missed <= x.n
          invariant gaps == old(gaps) + Between(lastSeen.value, missed)
        {
          gaps := gaps + {missed};
          missed := missed + 1;
        }
      }
      lastSeen := Some(x.n);
      return true;
    }

    /** The gaps, ascending. */
    method ObservedGaps() returns (r: seq<int>)
      ensures Ordering.Ascending(Ordering.INT_LESS, r)
      ensures forall n :: n in r <==> n in gaps
    {
      var items := Ordering.Elements(gaps);
      Ordering.IntLessIsTotal();
      Ordering.SortAscending(Ordering.INT_LESS, items);
      r := Ordering.Sort(Ordering.INT_LESS, items);
    }
  }

  // ---- histories ----

  function Run(offers: seq<Offer>): GuardState {
    if |offers| == 0 then NEW_GUARD else After(Run(offers[..|offers| - 1]), offers[|offers| - 1])
  }

  /** The largest whole number offered. */
  function MaxOf(offers: seq<Offer>): (r: Option<int>)
    ensures r.Some? ==> Whole(r.value) in offers
    ensures forall n | Whole(n) in offers :: r.Some? && n <= r.value
  {
    if |offers| == 0 then None else
    var r, x := MaxOf(offers[..|offers| - 1]), offers[|offers| - 1];
    assert forall o :: o in offers <==> o in offers[..|offers| - 1] || o == x;
    if x.Whole? && (r.None? || x.n > r.value) then Some(x.n) else r
  }

  lemma {:induction false} LastSeenIsMaximum(offers: seq<Offer>)
    ensures Run(offers).lastSeen == MaxOf(offers)
  {
    if |offers| > 0 { LastSeenIsMaximum(offers[..|offers| - 1]); }
  }

  /** Offer `i` jumps forward over `n`, and by no more than the tracked span. */
  predicate JumpsOver(offers: seq<Offer>, i: nat, n: int)
    requires i < |offers|
  {
    var m := MaxOf(offers[..i]);
    && offers[i].Whole? && m.Some?
    && m.value < n < offers[i].n && offers[i].n - m.value <= 10000
  }

  predicate JumpedOver(offers: seq<Offer>, n: int) {
    exists i :: 0 <= i < |offers| && JumpsOver(offers, i, n)
  }

  lemma JumpedOverPrefix(offers: seq<Offer>, n: int)
    requires |offers| > 0
    ensures JumpedOver(offers, n) <==>
              JumpedOver(offers[..|offers| - 1], n) || JumpsOver(offers, |offers| - 1, n)
    ensures JumpedOver(offers[..|offers| - 1], n) ==>
              MaxOf(offers[..|offers| - 1]).Some? && n < MaxOf(offers[..|offers| - 1]).value
  {
    var k := |offers| - 1;
    var init := offers[..k];
    forall i | 0 <= i < k ensures JumpsOver(init, i, n) <==> JumpsOver(offers, i, n) {
      assert init[..i] == offers[..i];
    }
    if i :| 0 <= i < k && JumpsOver(init, i, n) {
      assert init[i] in init;
      assert Whole(init[i].n) in init;
    }
    if JumpedOver(offers, n) {
      var i :| 0 <= i < |offers| && JumpsOver(offers, i, n);
      assert i < k ==> JumpsOver(init, i, n);
    }
  }

  /** One more offer: what it passes over becomes a gap, itself no longer is one. */
  lemma GapStep(offers: seq<Offer>, n: int)
    requires |offers| > 0
    ensures var init, x := offers[..|offers| - 1], offers[|offers| - 1];
            n in Run(offers).gaps <==>
              (n in Run(init).gaps && x != Whole(n)) || JumpsOver(offers, |offers| - 1, n)
  {
    var init, x := offers[..|offers| - 1], offers[|offers| - 1];
    LastSeenIsMaximum(init);
    var g := Run(init);
    assert Run(offers) == After(g, x);
    GapsAreSeen(init, n);
  }

  /** A gap lies below what was last seen. */
  lemma {:induction false} GapsAreSeen(offers: seq<Offer>, n: int)
    ensures n in Run(offers).gaps ==> Run(offers).lastSeen.Some? && n < Run(offers).lastSeen.value
  {
    if |offers| > 0 { GapsAreSeen(offers[..|offers| - 1], n); }
  }

  /** A number passed over and offered later is passed over before it is offered, or not at all. */
  lemma JumpedIsNotAbove(offers: seq<Offer>, n: int)
    requires |offers| > 0 && JumpsOver(offers, |offers| - 1, n)
    ensures Whole(n) !in offers
  {
    var k := |offers| - 1;
    assert forall o :: o in offers <==> o in offers[..k] || o == offers[k];
  }

  /** The recorded gaps are exactly the numbers some tracked jump passed over and nobody
      has offered since. */
  lemma {:induction false} GapExactness(offers: seq<Offer>, n: int)
    ensures n in Run(offers).gaps <==> Whole(n) !in offers && JumpedOver(offers, n)
  {
    if |offers| > 0 {
      var k := |offers| - 1;
      GapExactness(offers[..k], n);
      GapStep(offers, n);
      JumpedOverPrefix(offers, n);
      if JumpsOver(offers, k, n) { JumpedIsNotAbove(offers, n); }
      assert Whole(n) in offers <==> Whole(n) in offers[..k] || offers[k] == Whole(n);
    }
  }

  /** Offering a number again is refused and changes nothing. */
  lemma RepeatsAreRefused(offers: seq<Offer>, x: Offer)
    requires x in offers
    ensures !Accepts(Run(offers), x) && After(Run(offers), x) == Run(offers)
  {
    LastSeenIsMaximum(offers);
    if x.Whole? { GapExactness(offers, x.n); }
  }

  /** One call records at most 9999 new gaps, however far it jumps. */
  lemma GapsPerCall(g: GuardState, x: Offer)
    ensures |After(g, x).gaps - g.gaps| <= MAX_TRACKED_GAP_SPAN - 1
  {
    var added := After(g, x).gaps - g.gaps;
    if x.Whole? && g.lastSeen.Some? && g.lastSeen.value < x.n && x.n - g.lastSeen.value <= MAX_TRACKED_GAP_SPAN {
      var missed := Between(g.lastSeen.value, x.n);
      Ordering.SubsetSize(added, missed);
    } else {
      assert added == {};
    }
  }
}
