/** The patches a view accepts form an in-order history, whatever the network does. */
module PatchHistory {
  import opened Wrappers
  import opened Protocol
  import opened Receiver

  predicate AllPatches(msgs: seq<OutboundMessage>) {
    forall m | m in msgs :: m.Patch?
  }

  /** Delivery `i` is a strict left-to-right maximum of the sequence numbers. */
  predicate IsRecord(last: Option<int>, msgs: seq<OutboundMessage>, i: nat)
    requires AllPatches(msgs) && i < |msgs|
  {
    Fresh(last, msgs[i].seqno) && forall j | 0 <= j < i :: msgs[j].seqno < msgs[i].seqno
  }

  /** The left-to-right maxima, in order. */
  function Records(last: Option<int>, msgs: seq<OutboundMessage>): (r: seq<OutboundMessage>)
    requires AllPatches(msgs)
    ensures AllPatches(r)
  {
    if |msgs| == 0 then [] else
      var n := |msgs| - 1;
      var r := Records(last, msgs[..n]);
      if IsRecord(last, msgs, n) then r + [msgs[n]] else r
  }

  /** Plain application in order, no guard. */
  function ApplyEach(ps: Roster, msgs: seq<OutboundMessage>): Roster
    requires AllPatches(msgs)
  {
    if |msgs| == 0 then ps
    else ApplyPatches(ApplyEach(ps, msgs[..|msgs| - 1]), msgs[|msgs| - 1].patches)
  }

  /** The guard's memory is the largest sequence number delivered so far. */
  lemma {:induction false} GuardHoldsMaximum(v: View, msgs: seq<OutboundMessage>)
    requires AllPatches(msgs)
    ensures var last := DeliverAll(v, msgs).lastPatchSeq;
            && (forall m | m in msgs :: !Fresh(last, m.seqno))
            && (v.lastPatchSeq.Some? ==> !Fresh(last, v.lastPatchSeq.value))
            && (last == v.lastPatchSeq || exists m :: m in msgs && last == Some(m.seqno))
  {
    if |msgs| > 0 {
      var init, m := msgs[..|msgs| - 1], msgs[|msgs| - 1];
      GuardHoldsMaximum(v, init);
      assert forall x :: x in msgs <==> x in init || x == m;
    }
  }

  /** A delivery is accepted exactly when it is a left-to-right maximum. */
  lemma AcceptedIffRecord(v: View, msgs: seq<OutboundMessage>, i: nat)
    requires AllPatches(msgs) && i < |msgs|
    ensures Fresh(DeliverAll(v, msgs[..i]).lastPatchSeq, msgs[i].seqno) <==> IsRecord(v.lastPatchSeq, msgs, i)
  {
    GuardHoldsMaximum(v, msgs[..i]);
    assert forall j | 0 <= j < i :: msgs[j] in msgs[..i];
  }

  /** Any delivery sequence of patches -- losses, repeats, any order -- leaves the view
      that plain application of its left-to-right maxima leaves. */
  lemma {:induction false} InOrderHistory(v: View, msgs: seq<OutboundMessage>)
    requires AllPatches(msgs)
    ensures DeliverAll(v, msgs).participants == ApplyEach(v.participants, Records(v.lastPatchSeq, msgs))
  {
    if |msgs| > 0 {
      var n := |msgs| - 1;
      InOrderHistory(v, msgs[..n]);
      AcceptedIffRecord(v, msgs, n);
      var r := Records(v.lastPatchSeq, msgs[..n]);
      var w := DeliverAll(v, msgs[..n]);
      assert DeliverAll(v, msgs) == Deliver(w, msgs[n]);
      assert msgs[n].Patch?;
      if IsRecord(v.lastPatchSeq, msgs, n) {
        assert Records(v.lastPatchSeq, msgs) == r + [msgs[n]];
        assert (r + [msgs[n]])[..|r|] == r;
      } else {
        assert Deliver(w, msgs[n]) == w;
        assert Records(v.lastPatchSeq, msgs) == r;
      }
    }
  }

  predicate RecordMentions(last: Option<int>, msgs: seq<OutboundMessage>, i: nat, pid: ParticipantId, f: Field)
    requires AllPatches(msgs) && i < |msgs|
  {
    IsRecord(last, msgs, i) && Mention(msgs[i].patches, pid, f).Some?
  }

  lemma RecordMentionsPrefix(
    last: Option<int>, msgs: seq<OutboundMessage>, n: nat, i: nat, pid: ParticipantId, f: Field)
    requires AllPatches(msgs) && i < n <= |msgs|
    ensures AllPatches(msgs[..n]) && msgs[..n][i] == msgs[i]
    ensures RecordMentions(last, msgs[..n], i, pid, f) <==> RecordMentions(last, msgs, i, pid, f)
  {
  }

  /** `r` is the accepted delivery with the highest number among those mentioning the field. */
  predicate IsNewest(last: Option<int>, msgs: seq<OutboundMessage>, pid: ParticipantId, f: Field, r: Option<nat>)
    requires AllPatches(msgs)
  {
    && (r.Some? ==> r.value < |msgs| && RecordMentions(last, msgs, r.value, pid, f))
    && forall k | 0 <= k < |msgs| && RecordMentions(last, msgs, k, pid, f) ::
         r.Some? && msgs[k].seqno <= msgs[r.value].seqno
  }

  lemma NewestIsLast(last: Option<int>, msgs: seq<OutboundMessage>, pid: ParticipantId, f: Field)
    requires AllPatches(msgs) && |msgs| > 0 && RecordMentions(last, msgs, |msgs| - 1, pid, f)
    ensures IsNewest(last, msgs, pid, f, Some(|msgs| - 1))
  {
  }

  lemma NewestStays(last: Option<int>, msgs: seq<OutboundMessage>, pid: ParticipantId, f: Field, r: Option<nat>)
    requires AllPatches(msgs) && |msgs| > 0 && !RecordMentions(last, msgs, |msgs| - 1, pid, f)
    requires IsNewest(last, msgs[..|msgs| - 1], pid, f, r)
    ensures IsNewest(last, msgs, pid, f, r)
  {
    var n := |msgs| - 1;
    if r.Some? { RecordMentionsPrefix(last, msgs, n, r.value, pid, f); }
    forall k | 0 <= k < |msgs| && RecordMentions(last, msgs, k, pid, f)
      ensures r.Some? && msgs[k].seqno <= msgs[r.value].seqno
    {
      RecordMentionsPrefix(last, msgs, n, k, pid, f);
    }
  }

  /** The accepted delivery with the highest number among those mentioning (`pid`, `f`). */
  function NewestMention(last: Option<int>, msgs: seq<OutboundMessage>, pid: ParticipantId, f: Field): (r: Option<nat>)
    requires AllPatches(msgs)
    ensures IsNewest(last, msgs, pid, f, r)
  {
    if |msgs| == 0 then None else
    var n := |msgs| - 1;
    if RecordMentions(last, msgs, n, pid, f) then
      NewestIsLast(last, msgs, pid, f);
      Some(n)
    else
      var r := NewestMention(last, msgs[..n], pid, f);
      NewestStays(last, msgs, pid, f, r);
      r
  }

  /** Each field holds what the highest-numbered accepted patch mentioning it carries,
      and its old value when none mentions it. */
  lemma {:induction false} FieldFromNewestMention(v: View, msgs: seq<OutboundMessage>, pid: ParticipantId, f: Field)
    requires AllPatches(msgs)
    ensures Held(DeliverAll(v, msgs).participants, pid, f) ==
            match NewestMention(v.lastPatchSeq, msgs, pid, f)
            case None => Held(v.participants, pid, f)
            case Some(i) => Mention(msgs[i].patches, pid, f)
  {
    if |msgs| > 0 {
      var n := |msgs| - 1;
      FieldFromNewestMention(v, msgs[..n], pid, f);
      AcceptedIffRecord(v, msgs, n);
      ApplyPatchesHeld(DeliverAll(v, msgs[..n]).participants, msgs[n].patches, pid, f);
    }
  }

  lemma RecordsOfPrefix(last: Option<int>, msgs: seq<OutboundMessage>, n: nat)
    requires AllPatches(msgs) && n <= |msgs|
    ensures forall i | 0 <= i < n ::
              msgs[..n][i] == msgs[i] && (IsRecord(last, msgs[..n], i) <==> IsRecord(last, msgs, i))
  {
  }

  /** Whoever the view held stays, and whoever an accepted patch names is in it: no one else. */
  lemma {:induction false} PresentIffNamed(v: View, msgs: seq<OutboundMessage>, pid: ParticipantId)
    requires AllPatches(msgs)
    ensures pid in DeliverAll(v, msgs).participants <==>
              || pid in v.participants
              || exists i :: 0 <= i < |msgs| && IsRecord(v.lastPatchSeq, msgs, i) && Names(msgs[i].patches, pid)
  {
    if |msgs| > 0 {
      var n := |msgs| - 1;
      PresentIffNamed(v, msgs[..n], pid);
      AcceptedIffRecord(v, msgs, n);
      PatchedPids(DeliverAll(v, msgs[..n]).participants, msgs[n].patches, pid);
      RecordsOfPrefix(v.lastPatchSeq, msgs, n);
    }
  }

  lemma {:induction false} DeliverAllConcat(v: View, a: seq<OutboundMessage>, b: seq<OutboundMessage>)
    ensures DeliverAll(v, a + b) == DeliverAll(DeliverAll(v, a), b)
  {
    if |b| == 0 {
      assert a + b == a;
    } else {
      DeliverAllConcat(v, a, b[..|b| - 1]);
      assert (a + b)[..|a + b| - 1] == a + b[..|b| - 1];
    }
  }

  /** Inserting a duplicate or already overtaken patch anywhere after its overtaker
      changes nothing at all. */
  lemma OvertakenInsertion(v: View, a: seq<OutboundMessage>, m: OutboundMessage, b: seq<OutboundMessage>)
    requires AllPatches(a) && m.Patch?
    requires !Fresh(v.lastPatchSeq, m.seqno) || exists o :: o in a && o.seqno >= m.seqno
    ensures DeliverAll(v, a + [m] + b) == DeliverAll(v, a + b)
  {
    GuardHoldsMaximum(v, a);
    assert Deliver(DeliverAll(v, a), m) == DeliverAll(v, a);
    assert (a + [m])[..|a|] == a;
    DeliverAllConcat(v, a + [m], b);
    DeliverAllConcat(v, a, b);
  }

  /** Delivering any one message twice in a row is delivering it once. */
  lemma DeliverTwice(v: View, m: OutboundMessage)
    ensures Deliver(Deliver(v, m), m) == Deliver(v, m)
  {
    if m.Join? {
      var s := m.participant;
      var ps := Upsert(v.participants, s);
      assert Upsert(ps, s) == ps;
    }
  }
}
