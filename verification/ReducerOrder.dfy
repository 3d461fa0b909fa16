/** The reducer forgets the order of cursor and scroll events: what it stores is a
    function of the set of events alone. */
module ReducerOrder {
  import opened Wrappers
  import opened Protocol
  import opened Presence

  predicate PresenceEvents(evs: seq<InboundMessage>) {
    forall e | e in evs :: e.Cursor? || e.Scroll?
  }

  function Fold(s: Session, evs: seq<InboundMessage>): Session
    requires PresenceEvents(evs)
  {
    if |evs| == 0 then s
    else ApplyEvent(Fold(s, evs[..|evs| - 1]), evs[|evs| - 1]).state
  }

  /** Sequence numbers are distinct per participant and field. */
  predicate DistinctSeqs(evs: seq<InboundMessage>)
    requires PresenceEvents(evs)
  {
    forall d, e | d in evs && e in evs && d.Cursor? == e.Cursor? && d.pid == e.pid && d.seqno == e.seqno :: d == e
  }

  predicate HasNewer(p: PresenceState, evs: seq<InboundMessage>, pid: ParticipantId, f: Field)
    requires PresenceEvents(evs)
  {
    exists e :: e in evs && Observes(e, pid, f) && Newer(p.SeqOf(f), e.seqno)
  }

  ghost predicate SameEvents(evs1: seq<InboundMessage>, evs2: seq<InboundMessage>) {
    forall e :: e in evs1 <==> e in evs2
  }

  /** `q` holds in field `f` the highest-numbered observation among `evs` newer than what
      `p` held, and what `p` held when there is none. */
  ghost predicate HoldsNewest(
    p: PresenceState, evs: seq<InboundMessage>, pid: ParticipantId, f: Field, q: PresenceState)
    requires PresenceEvents(evs)
  {
    if HasNewer(p, evs, pid, f) then
      && (exists e :: e in evs && Observes(e, pid, f) && Newer(p.SeqOf(f), e.seqno)
                   && q.Get(f) == Some(e.point) && q.SeqOf(f) == Some(e.seqno))
      && (forall e | e in evs && Observes(e, pid, f) :: !Newer(q.SeqOf(f), e.seqno))
    else
      q.Get(f) == p.Get(f) && q.SeqOf(f) == p.SeqOf(f)
  }

  /** One more event at the end: a newer observation of the field replaces what was newest. */
  lemma HoldsNewestStep(
    p: PresenceState, init: seq<InboundMessage>, last: InboundMessage, pid: ParticipantId, f: Field,
    q: PresenceState, r: PresenceState)
    requires PresenceEvents(init) && (last.Cursor? || last.Scroll?) && HoldsNewest(p, init, pid, f, q)
    requires if Observes(last, pid, f) && Newer(q.SeqOf(f), last.seqno)
             then r.Get(f) == Some(last.point) && r.SeqOf(f) == Some(last.seqno)
             else r.Get(f) == q.Get(f) && r.SeqOf(f) == q.SeqOf(f)
    ensures PresenceEvents(init + [last]) && HoldsNewest(p, init + [last], pid, f, r)
    ensures HasNewer(p, init + [last], pid, f) <==>
              HasNewer(p, init, pid, f) || (Observes(last, pid, f) && Newer(q.SeqOf(f), last.seqno))
  {
    var evs := init + [last];
    assert forall e :: e in evs <==> e in init || e == last;
    if HasNewer(p, init, pid, f) {
      assert HasNewer(p, evs, pid, f);
    } else if Observes(last, pid, f) && Newer(q.SeqOf(f), last.seqno) {
      assert last in evs && Newer(p.SeqOf(f), last.seqno);
    }
  }

  /** Folding keeps the roster, sets each field of each participant to its newest
      observation, and marks exactly the fields that received a newer one. */
  lemma {:induction false} FoldHoldsNewest(s: Session, evs: seq<InboundMessage>, pid: ParticipantId, f: Field)
    requires PresenceEvents(evs)
    ensures var t := Fold(s, evs);
            && t.participants.Keys == s.participants.Keys
            && (pid in s.participants ==>
                  && t.participants[pid] == s.participants[pid].(presence := t.participants[pid].presence)
                  && HoldsNewest(s.participants[pid].presence, evs, pid, f, t.participants[pid].presence)
                  && (t.IsDirty(pid, f) <==>
                        s.IsDirty(pid, f) || HasNewer(s.participants[pid].presence, evs, pid, f)))
  {
    if |evs| > 0 {
      var init, last := evs[..|evs| - 1], evs[|evs| - 1];
      FoldHoldsNewest(s, init, pid, f);
      assert last in evs && evs == init + [last];
      var t := Fold(s, init);
      if pid in s.participants {
        ApplyPresenceEvent(t, last, pid, f);
        HoldsNewestStep(s.participants[pid].presence, init, last, pid, f,
                        t.participants[pid].presence, Fold(s, evs).participants[pid].presence);
      }
    }
  }

  /** What one event never touches, and which participant gets a dirty entry. */
  lemma ApplyFrame(s: Session, e: InboundMessage, pid: ParticipantId)
    requires e.Cursor? || e.Scroll?
    ensures var t := ApplyEvent(s, e).state;
            && t.sid == s.sid && t.createdAt == s.createdAt && t.participants.Keys == s.participants.Keys
            && (pid !in s.participants ==>
                  (pid in t.dirty <==> pid in s.dirty) && (pid in s.dirty ==> t.dirty[pid] == s.dirty[pid]))
            && (pid in s.participants ==>
                  (pid in t.dirty <==>
                     || pid in s.dirty
                     || exists f :: Observes(e, pid, f) && Newer(s.participants[pid].presence.SeqOf(f), e.seqno)))
  {
    if pid in s.participants && e.pid == pid {
      var p := s.participants[pid].presence;
      assert p.SeqOf(CursorField) == p.cursorSeq && p.SeqOf(ScrollField) == p.scrollSeq;
      assert e.Cursor? ==> Observes(e, pid, CursorField);
      assert e.Scroll? ==> Observes(e, pid, ScrollField);
    }
  }

  /** When one more event makes a field newer than it was at the start. */
  lemma HasNewerStep(s: Session, init: seq<InboundMessage>, last: InboundMessage, pid: ParticipantId, f: Field)
    requires PresenceEvents(init) && (last.Cursor? || last.Scroll?) && pid in s.participants
    ensures var evs := init + [last];
            && PresenceEvents(evs) && pid in Fold(s, init).participants
            && (HasNewer(s.participants[pid].presence, evs, pid, f) <==>
                  || HasNewer(s.participants[pid].presence, init, pid, f)
                  || (Observes(last, pid, f)
                      && Newer(Fold(s, init).participants[pid].presence.SeqOf(f), last.seqno)))
  {
    FoldHoldsNewest(s, init, pid, f);
    var t := Fold(s, init);
    ApplyPresenceEvent(t, last, pid, f);
    HoldsNewestStep(s.participants[pid].presence, init, last, pid, f,
                    t.participants[pid].presence, ApplyEvent(t, last).state.participants[pid].presence);
  }

  /** What folding never touches, and which participants get a dirty entry. */
  lemma {:induction false} FoldFrame(s: Session, evs: seq<InboundMessage>, pid: ParticipantId)
    requires PresenceEvents(evs)
    ensures var t := Fold(s, evs);
            && t.sid == s.sid && t.createdAt == s.createdAt && (pid in t.participants <==> pid in s.participants)
            && (pid !in s.participants ==>
                  (pid in t.dirty <==> pid in s.dirty) && (pid in s.dirty ==> t.dirty[pid] == s.dirty[pid]))
            && (pid in s.participants ==>
                  (pid in t.dirty <==>
                      pid in s.dirty || exists f :: HasNewer(s.participants[pid].presence, evs, pid, f)))
  {
    if |evs| > 0 {
      var init, last := evs[..|evs| - 1], evs[|evs| - 1];
      assert last in evs && evs == init + [last];
      FoldFrame(s, init, pid);
      ApplyFrame(Fold(s, init), last, pid);
      if pid in s.participants {
        forall f { HasNewerStep(s, init, last, pid, f); }
      }
    }
  }

  /** The two field characterisations pin the stored field down. */
  lemma NewestIsUnique(
    p: PresenceState, evs1: seq<InboundMessage>, evs2: seq<InboundMessage>,
    pid: ParticipantId, f: Field, q1: PresenceState, q2: PresenceState)
    requires PresenceEvents(evs1) && PresenceEvents(evs2) && DistinctSeqs(evs1)
    requires SameEvents(evs1, evs2)
    requires HoldsNewest(p, evs1, pid, f, q1) && HoldsNewest(p, evs2, pid, f, q2)
    ensures q1.Get(f) == q2.Get(f) && q1.SeqOf(f) == q2.SeqOf(f)
  {
    if HasNewer(p, evs1, pid, f) {
      var e1 :| e1 in evs1 && Observes(e1, pid, f) && Newer(p.SeqOf(f), e1.seqno)
                && q1.Get(f) == Some(e1.point) && q1.SeqOf(f) == Some(e1.seqno);
      assert HasNewer(p, evs2, pid, f);
      var e2 :| e2 in evs2 && Observes(e2, pid, f) && Newer(p.SeqOf(f), e2.seqno)
                && q2.Get(f) == Some(e2.point) && q2.SeqOf(f) == Some(e2.seqno);
      assert e1.seqno == e2.seqno;
    } else {
      assert !HasNewer(p, evs2, pid, f);
    }
  }

  /** Both folds agree on one field of one present participant. */
  lemma SameField(
    s: Session, evs1: seq<InboundMessage>, evs2: seq<InboundMessage>, pid: ParticipantId, f: Field)
    requires PresenceEvents(evs1) && PresenceEvents(evs2) && DistinctSeqs(evs1)
    requires SameEvents(evs1, evs2) && pid in s.participants
    ensures var t1, t2 := Fold(s, evs1), Fold(s, evs2);
            && pid in t1.participants && pid in t2.participants
            && t1.participants[pid] == s.participants[pid].(presence := t1.participants[pid].presence)
            && t2.participants[pid] == s.participants[pid].(presence := t2.participants[pid].presence)
            && t1.participants[pid].presence.Get(f) == t2.participants[pid].presence.Get(f)
            && t1.participants[pid].presence.SeqOf(f) == t2.participants[pid].presence.SeqOf(f)
            && (t1.IsDirty(pid, f) <==> t2.IsDirty(pid, f))
    ensures HasNewer(s.participants[pid].presence, evs1, pid, f) <==>
        HasNewer(s.participants[pid].presence, evs2, pid, f)
  {
    FoldHoldsNewest(s, evs1, pid, f);
    FoldHoldsNewest(s, evs2, pid, f);
    NewestIsUnique(s.participants[pid].presence, evs1, evs2, pid, f,
                   Fold(s, evs1).participants[pid].presence, Fold(s, evs2).participants[pid].presence);
  }

  /** Both folds agree on what they hold for one participant. */
  lemma SameAt(s: Session, evs1: seq<InboundMessage>, evs2: seq<InboundMessage>, pid: ParticipantId)
    requires PresenceEvents(evs1) && PresenceEvents(evs2) && DistinctSeqs(evs1)
    requires SameEvents(evs1, evs2)
    ensures var t1, t2 := Fold(s, evs1), Fold(s, evs2);
            && (pid in t1.participants <==> pid in t2.participants)
            && (pid in t1.participants ==> t1.participants[pid] == t2.participants[pid])
            && (pid in t1.dirty <==> pid in t2.dirty)
            && (pid in t1.dirty ==> t1.dirty[pid] == t2.dirty[pid])
  {
    FoldFrame(s, evs1, pid);
    FoldFrame(s, evs2, pid);
    FoldHoldsNewest(s, evs1, pid, CursorField);
    FoldHoldsNewest(s, evs2, pid, CursorField);
    if pid in s.participants {
      SameField(s, evs1, evs2, pid, CursorField);
      SameField(s, evs1, evs2, pid, ScrollField);
    }
  }

  /** Any two sequences with the same events -- a permutation, or the same events with
      repeats -- fold to the same session: participants, dirty map and all. */
  lemma OrderIndependence(s: Session, evs1: seq<InboundMessage>, evs2: seq<InboundMessage>)
    requires PresenceEvents(evs1) && PresenceEvents(evs2) && DistinctSeqs(evs1)
    requires SameEvents(evs1, evs2)
    ensures Fold(s, evs1) == Fold(s, evs2)
  {
    FoldFrame(s, evs1, "");
    FoldFrame(s, evs2, "");
    forall pid: ParticipantId { SameAt(s, evs1, evs2, pid); }
    assert Fold(s, evs1).participants == Fold(s, evs2).participants;
    assert Fold(s, evs1).dirty == Fold(s, evs2).dirty;
  }
}
