/** The client's outbound buffer (packages/client/src/transport/outboundQueue.ts). */
module ClientQueue {
  import opened Wrappers
  import opened Protocol

  predicate IsLossy(m: InboundMessage) { Classify(TypeOf(m)).Lossy? }

  function SlotOf(items: seq<InboundMessage>, t: MessageType): (r: Option<nat>)
    ensures r.Some? ==> r.value < |items| && TypeOf(items[r.value]) == t
    ensures r.None? ==> forall i | 0 <= i < |items| :: TypeOf(items[i]) != t
  {
    if |items| == 0 then None
    else if TypeOf(items[|items| - 1]) == t then Some(|items| - 1)
    else SlotOf(items[..|items| - 1], t)
  }

  /** A lossy message takes the place of the queued one of its type; anything else queues. */
  function Enqueued(items: seq<InboundMessage>, m: InboundMessage): seq<InboundMessage> {
    var slot := SlotOf(items, TypeOf(m));
    if IsLossy(m) && slot.Some? then items[slot.value := m] else items + [m]
  }

  /** At most one queued item of each lossy type. */
  predicate OneOfEachLossy(items: seq<InboundMessage>) {
    forall i, j | 0 <= i < j < |items| && IsLossy(items[i]) :: TypeOf(items[i]) != TypeOf(items[j])
  }

  class OutboundQueue {
    var items: seq<InboundMessage>
    var lossySlot: map<MessageType, nat>

    /** The index map points at exactly the queued lossy items. */
    predicate Valid()
      reads this
    {
      && (forall t | t in lossySlot ::
            Classify(t).Lossy? && lossySlot[t] < |items| && TypeOf(items[lossySlot[t]]) == t)
      && (forall i | 0 <= i < |items| && IsLossy(items[i]) ::
            TypeOf(items[i]) in lossySlot && lossySlot[TypeOf(items[i])] == i)
    }

    constructor ()
      ensures Valid() && items == []
    {
      items, lossySlot := [], map[];
    }

    method Enqueue(m: InboundMessage)
      requires Valid()
      modifies this
      ensures Valid() && items == Enqueued(old(items), m)
    {
      var t := TypeOf(m);
      if !Classify(t).Lossy? {
        items := items + [m];
        return;
      }
      if t in lossySlot {
        var existing := lossySlot[t];
        assert SlotOf(items, t) == Some(existing);
        items := items[existing := m];
        return;
      }
      lossySlot := lossySlot[t := |items|];
      items := items + [m];
    }

    method Drain() returns (drained: seq<InboundMessage>)
      requires Valid()
      modifies this
      ensures Valid() && drained == old(items) && items == []
      ensures OneOfEachLossy(drained)
    {
      drained := items;
      items, lossySlot := [], map[];
    }
  }

  // ---- filtering ----

  function Filter(s: seq<InboundMessage>, p: InboundMessage -> bool): seq<InboundMessage> {
    if |s| == 0 then [] else
    var rest := Filter(s[..|s| - 1], p);
    if p(s[|s| - 1]) then rest + [s[|s| - 1]] else rest
  }

  const NON_LOSSY: InboundMessage -> bool := (m: InboundMessage) => !IsLossy(m)

  function OfType(t: MessageType): InboundMessage -> bool { (m: InboundMessage) => TypeOf(m) == t }

  lemma {:induction false} FilterConcat(a: seq<InboundMessage>, b: seq<InboundMessage>, p: InboundMessage -> bool)
    ensures Filter(a + b, p) == Filter(a, p) + Filter(b, p)
  {
    if |b| == 0 {
      assert a + b == a;
    } else {
      FilterConcat(a, b[..|b| - 1], p);
      assert (a + b)[..|a + b| - 1] == a + b[..|b| - 1];
    }
  }

  lemma FilterAround(a: seq<InboundMessage>, x: InboundMessage, b: seq<InboundMessage>, p: InboundMessage -> bool)
    ensures Filter(a + [x] + b, p) == Filter(a, p) + (if p(x) then [x] else []) + Filter(b, p)
  {
    FilterConcat(a + [x], b, p);
    assert (a + [x])[..|a|] == a;
  }

  lemma {:induction false} FilterNone(s: seq<InboundMessage>, p: InboundMessage -> bool)
    requires forall i | 0 <= i < |s| :: !p(s[i])
    ensures Filter(s, p) == []
  {
    if |s| > 0 { FilterNone(s[..|s| - 1], p); }
  }

  lemma {:induction false} FilterAll(s: seq<InboundMessage>, p: InboundMessage -> bool)
    requires forall i | 0 <= i < |s| :: p(s[i])
    ensures Filter(s, p) == s
  {
    if |s| > 0 { FilterAll(s[..|s| - 1], p); }
  }

  lemma {:induction false} FilterSatisfies(s: seq<InboundMessage>, p: InboundMessage -> bool)
    ensures forall i | 0 <= i < |Filter(s, p)| :: p(Filter(s, p)[i])
  {
    if |s| > 0 { FilterSatisfies(s[..|s| - 1], p); }
  }

  /** Enqueuing keeps at most one item per lossy type and leaves every other type alone. */
  lemma EnqueueKeepsOne(items: seq<InboundMessage>, m: InboundMessage)
    requires OneOfEachLossy(items)
    ensures OneOfEachLossy(Enqueued(items, m))
  {
  }

  /** Enqueuing a lossy message leaves exactly it queued of its type. */
  lemma EnqueuedOfItsType(items: seq<InboundMessage>, m: InboundMessage)
    requires OneOfEachLossy(items) && IsLossy(m)
    ensures Filter(Enqueued(items, m), OfType(TypeOf(m))) == [m]
  {
    var p := OfType(TypeOf(m));
    var slot := SlotOf(items, TypeOf(m));
    if slot.Some? {
      var i := slot.value;
      FilterAround(items[..i], m, items[i + 1..], p);
      assert items[i := m] == items[..i] + [m] + items[i + 1..];
      FilterNone(items[..i], p);
      FilterNone(items[i + 1..], p);
    } else {
      assert (items + [m])[..|items|] == items;
      FilterNone(items, p);
    }
  }

  /** Seen through a filter that ignores lossy messages of its type, a message is appended. */
  lemma EnqueuedThrough(items: seq<InboundMessage>, m: InboundMessage, p: InboundMessage -> bool)
    requires forall x :: IsLossy(x) && TypeOf(x) == TypeOf(m) ==> !p(x)
    ensures Filter(Enqueued(items, m), p) == Filter(items, p) + if p(m) then [m] else []
  {
    var slot := SlotOf(items, TypeOf(m));
    if IsLossy(m) && slot.Some? {
      var i := slot.value;
      FilterAround(items[..i], items[i], items[i + 1..], p);
      FilterAround(items[..i], m, items[i + 1..], p);
      assert items == items[..i] + [items[i]] + items[i + 1..];
      assert items[i := m] == items[..i] + [m] + items[i + 1..];
      assert !p(items[i]) && !p(m);
    } else {
      assert (items + [m])[..|items|] == items;
    }
  }

  // ---- subsequences ----

  /** `at` embeds `a` in `b`, in order. */
  predicate Embeds(at: seq<nat>, a: seq<InboundMessage>, b: seq<InboundMessage>) {
    && |at| == |a|
    && (forall k | 0 <= k < |a| :: at[k] < |b| && b[at[k]] == a[k])
    && (forall j, k | 0 <= j < k < |a| :: at[j] < at[k])
  }

  ghost predicate InOrderWithin(a: seq<InboundMessage>, b: seq<InboundMessage>) {
    exists at: seq<nat> :: Embeds(at, a, b)
  }

  lemma NothingWithin(b: seq<InboundMessage>)
    ensures InOrderWithin([], b)
  {
    var at: seq<nat> := [];
    assert Embeds(at, [], b);
  }

  lemma PrefixWithin(a: seq<InboundMessage>, n: nat, b: seq<InboundMessage>)
    requires InOrderWithin(a, b) && n <= |a|
    ensures InOrderWithin(a[..n], b)
  {
    var at: seq<nat> :| Embeds(at, a, b);
    assert Embeds(at[..n], a[..n], b);
  }

  lemma ExtendWithin(a: seq<InboundMessage>, b: seq<InboundMessage>, m: InboundMessage)
    requires InOrderWithin(a, b)
    ensures InOrderWithin(a + [m], b + [m])
  {
    var at: seq<nat> :| Embeds(at, a, b);
    assert Embeds(at + [|b|], a + [m], b + [m]);
  }

  lemma WholeWithin(s: seq<InboundMessage>)
    ensures InOrderWithin(s, s)
  {
    var at: seq<nat> := seq(|s|, i => i);
    assert Embeds(at, s, s);
  }

  lemma WithinWithin(a: seq<InboundMessage>, b: seq<InboundMessage>, c: seq<InboundMessage>)
    requires InOrderWithin(a, b) && InOrderWithin(b, c)
    ensures InOrderWithin(a, c)
  {
    var inB: seq<nat> :| Embeds(inB, a, b);
    var inC: seq<nat> :| Embeds(inC, b, c);
    var at: seq<nat> := seq(|a|, i requires 0 <= i < |a| => inC[inB[i]]);
    assert Embeds(at, a, c);
  }

  lemma ConcatWithin(
    a: seq<InboundMessage>, b: seq<InboundMessage>, c: seq<InboundMessage>, d: seq<InboundMessage>)
    requires InOrderWithin(a, c) && InOrderWithin(b, d)
    ensures InOrderWithin(a + b, c + d)
  {
    var inC: seq<nat> :| Embeds(inC, a, c);
    var inD: seq<nat> :| Embeds(inD, b, d);
    var at: seq<nat> := inC + seq(|b|, i requires 0 <= i < |b| => |c| + inD[i]);
    assert Embeds(at, a + b, c + d);
  }

  lemma {:induction false} FilterWithin(s: seq<InboundMessage>, p: InboundMessage -> bool)
    ensures InOrderWithin(Filter(s, p), s)
  {
    if |s| == 0 {
      NothingWithin(s);
    } else {
      var n := |s| - 1;
      FilterWithin(s[..n], p);
      var init := Filter(s[..n], p);
      assert s == s[..n] + [s[n]];
      ExtendWithin(init, s[..n], s[n]);
      PrefixWithin(init + [s[n]], |init|, s);
      assert (init + [s[n]])[..|init|] == init;
    }
  }

  /** Dropping some of what follows position `n` keeps the order of the rest. */
  lemma ShedWithin(s: seq<InboundMessage>, n: nat, p: InboundMessage -> bool)
    requires n <= |s|
    ensures InOrderWithin(s[..n] + Filter(s[n..], p), s)
  {
    WholeWithin(s[..n]);
    FilterWithin(s[n..], p);
    ConcatWithin(s[..n], Filter(s[n..], p), s[..n], s[n..]);
    assert s == s[..n] + s[n..];
  }

  // ---- ranks ----

  /** A selected element stands in the selection where as many selected ones precede it. */
  lemma RankOf(s: seq<InboundMessage>, p: InboundMessage -> bool, i: nat)
    requires i < |s| && p(s[i])
    ensures |Filter(s[..i], p)| < |Filter(s, p)| && Filter(s, p)[|Filter(s[..i], p)|] == s[i]
  {
    FilterAround(s[..i], s[i], s[i + 1..], p);
    assert s == s[..i] + [s[i]] + s[i + 1..];
  }

  lemma RankGrows(s: seq<InboundMessage>, p: InboundMessage -> bool, i: nat, k: nat)
    requires i < k <= |s| && p(s[i])
    ensures |Filter(s[..i], p)| < |Filter(s[..k], p)|
  {
    RankOf(s[..k], p, i);
    assert s[..k][..i] == s[..i];
  }

  lemma RankNeverFalls(s: seq<InboundMessage>, p: InboundMessage -> bool, i: nat, k: nat)
    requires i <= k <= |s|
    ensures |Filter(s[..i], p)| <= |Filter(s[..k], p)|
  {
    FilterConcat(s[..i], s[i..k], p);
    assert s[..k] == s[..i] + s[i..k];
  }

  lemma {:induction false} AtRank(s: seq<InboundMessage>, p: InboundMessage -> bool, n: nat) returns (i: nat)
    requires n < |Filter(s, p)|
    ensures i < |s| && p(s[i]) && |Filter(s[..i], p)| == n && s[i] == Filter(s, p)[n]
  {
    var k := |s| - 1;
    if n < |Filter(s[..k], p)| {
      i := AtRank(s[..k], p, n);
      assert s[..k][..i] == s[..i];
    } else {
      i := k;
    }
  }

  // ---- numbering ----

  predicate SeqnosAscend(items: seq<InboundMessage>) {
    forall i, j | 0 <= i < j < |items| :: items[i].seqno < items[j].seqno
  }

  lemma WithinAscends(a: seq<InboundMessage>, b: seq<InboundMessage>)
    requires InOrderWithin(a, b) && SeqnosAscend(b)
    ensures SeqnosAscend(a)
  {
    var at: seq<nat> :| Embeds(at, a, b);
  }

  lemma {:induction false} FilterMembers(s: seq<InboundMessage>, p: InboundMessage -> bool)
    ensures forall m :: m in Filter(s, p) <==> m in s && p(m)
  {
    if |s| > 0 {
      var n := |s| - 1;
      FilterMembers(s[..n], p);
      assert forall m :: m in s <==> m in s[..n] || m == s[n];
    }
  }
}
