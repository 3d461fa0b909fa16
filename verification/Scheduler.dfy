/** One tick of one session: coalesce what is dirty, otherwise resend what is settling
    (apps/server/src/services/TickScheduler.ts, apps/server/src/views/presenters.ts). */
module Scheduler {
  import opened Wrappers
  import opened Protocol
  import opened Presence

  // ---- presenters ----

  function ToParticipantSnapshot(p: Participant): ParticipantSnapshot {
    ParticipantSnapshot(p.pid, p.color, p.lastSeenAt, p.presence.cursor, p.presence.scroll)
  }

  /** The announcement of a new participant: its identity, and no values. */
  function JoinOf(p: Participant): OutboundMessage {
    Join(ParticipantSnapshot(p.pid, p.color, p.lastSeenAt, None, None))
  }

  /** `snaps` lists the roster, each participant once, in some order. */
  ghost predicate ListsRoster(session: Session, snaps: seq<ParticipantSnapshot>) {
    && (forall i, j | 0 <= i < j < |snaps| :: snaps[i].pid != snaps[j].pid)
    && (forall s | s in snaps ::
        s.pid in session.participants && s == ToParticipantSnapshot(session.participants[s.pid]))
    && (forall pid | pid in session.participants :: exists s :: s in snaps && s.pid == pid)
  }

  /** A list of the roster says of everyone in it what is stored: colour, last sighting, values. */
  lemma ListedAsStored(session: Session, snaps: seq<ParticipantSnapshot>, pid: ParticipantId)
    requires ListsRoster(session, snaps) && pid in session.participants
    ensures var p := session.participants[pid];
            exists s :: s in snaps && s.pid == pid && s.color == p.color && s.lastSeenAt == p.lastSeenAt
                && forall f: Field :: s.Get(f) == p.presence.Get(f)
  {
    var s :| s in snaps && s.pid == pid;
  }

  /** `toParticipantSnapshots`. */
  method ToParticipantSnapshots(session: Session) returns (snaps: seq<ParticipantSnapshot>)
    requires forall pid | pid in session.participants :: session.participants[pid].pid == pid
    ensures ListsRoster(session, snaps)
  {
    snaps := [];
    var rest := session.participants.Keys;
    while rest != {}
      invariant rest <= session.participants.Keys
      invariant forall i, j | 0 <= i < j < |snaps| :: snaps[i].pid != snaps[j].pid
      invariant forall s | s in snaps ::
                  s.pid in session.participants && s.pid !in rest
                      && s == ToParticipantSnapshot(session.participants[s.pid])
      invariant forall pid | pid in session.participants :: pid in rest || exists s :: s in snaps && s.pid == pid
      decreases rest
    {
      var pid :| pid in rest;
      ghost var before := snaps;
      rest := rest - {pid};
      snaps := snaps + [ToParticipantSnapshot(session.participants[pid])];
      assert forall s :: s in snaps <==> s in before || s == ToParticipantSnapshot(session.participants[pid]);
    }
  }

  /** The dirty fields of one participant. */
  function PatchFor(session: Session, pid: ParticipantId): ParticipantPatch
    requires pid in session.dirty && pid in session.participants
  {
    var presence, dirty := session.participants[pid].presence, session.dirty[pid];
    ParticipantPatch(pid, if dirty.cursor then presence.cursor else None,
                     if dirty.scroll then presence.scroll else None)
  }

  /** `patches` has one entry for each present participant with a dirty entry, in some order. */
  ghost predicate Coalesces(session: Session, patches: seq<ParticipantPatch>) {
    && (forall i, j | 0 <= i < j < |patches| :: patches[i].pid != patches[j].pid)
    && (forall p | p in patches ::
        p.pid in session.dirty && p.pid in session.participants && p == PatchFor(session, p.pid))
    && (forall pid | pid in session.dirty && pid in session.participants :: exists p :: p in patches && p.pid == pid)
  }

  /** `toPatch`'s loop; an empty result is the source's `undefined`. */
  method ToPatch(session: Session) returns (patches: seq<ParticipantPatch>)
    ensures Coalesces(session, patches)
  {
    patches := [];
    var rest := session.dirty.Keys;
    while rest != {}
      invariant rest <= session.dirty.Keys
      invariant forall i, j | 0 <= i < j < |patches| :: patches[i].pid != patches[j].pid
      invariant forall p | p in patches ::
                  p.pid in session.dirty && p.pid !in rest && p.pid in session.participants
                      && p == PatchFor(session, p.pid)
      invariant forall pid | pid in session.dirty && pid in session.participants ::
                  pid in rest || exists p :: p in patches && p.pid == pid
      decreases rest
    {
      var pid :| pid in rest;
      ghost var before := patches;
      rest := rest - {pid};
      if pid in session.participants {
        patches := patches + [PatchFor(session, pid)];
        assert forall p :: p in patches <==> p in before || p == PatchFor(session, pid);
      }
    }
  }

  // ---- tick ----

  datatype SettleEntry = SettleEntry(patches: seq<ParticipantPatch>, settleUntil: int)

  datatype TickResult = TickResult(session: Session, settle: Option<SettleEntry>, out: Option<OutboundMessage>)

  /** What tick `seqno` at `now` does to a session whose dirty fields coalesce to `order`. */
  function TickSession(
    session: Session, settle: Option<SettleEntry>, seqno: nat, now: int, order: seq<ParticipantPatch>): TickResult
  {
    if |order| > 0 then
      TickResult(ClearDirty(session), Some(SettleEntry(order, now + PATCH_SETTLE_WINDOW_MS)), Some(Patch(seqno, order)))
    else if settle.None? then TickResult(session, None, None)
    else if now >= settle.value.settleUntil then TickResult(session, None, None)
    else TickResult(session, settle, Some(Patch(seqno, settle.value.patches)))
  }

  // ---- invariants of a session ----

  /** Dirty marks belong to present participants and to fields that have a value. */
  predicate WellFormed(session: Session) {
    && (forall pid | pid in session.participants :: session.participants[pid].pid == pid)
    && (forall pid | pid in session.dirty ::
          && pid in session.participants
          && (session.dirty[pid].cursor ==> session.participants[pid].presence.cursor.Some?)
          && (session.dirty[pid].scroll ==> session.participants[pid].presence.scroll.Some?))
  }

  /** The server's value for field `f` of `pid`. */
  function ServerValue(session: Session, pid: ParticipantId, f: Field): Option<Point> {
    if pid in session.participants then session.participants[pid].presence.Get(f) else None
  }

  /** Each value in a settle entry is the server's current one, unless that field is dirty
      again, has no value, or its participant is gone. */
  ghost predicate SettleSound(session: Session, settle: Option<SettleEntry>) {
    settle.Some? ==> forall p, f: Field | p in settle.value.patches && p.Get(f).Some? ::
      || ServerValue(session, p.pid, f) == p.Get(f)
      || ServerValue(session, p.pid, f) == None
      || session.IsDirty(p.pid, f)
  }

  lemma EventKeepsWellFormed(s: Session, e: InboundMessage)
    requires IsSessionEvent(e) && WellFormed(s)
    ensures WellFormed(ApplyEvent(s, e).state)
  {
  }

  /** A settle entry stays sound across any event. */
  lemma EventKeepsSettleSound(s: Session, settle: Option<SettleEntry>, e: InboundMessage)
    requires IsSessionEvent(e) && SettleSound(s, settle)
    ensures SettleSound(ApplyEvent(s, e).state, settle)
  {
    var t := ApplyEvent(s, e).state;
    if settle.Some? {
      forall p, f: Field | p in settle.value.patches && p.Get(f).Some?
        ensures || ServerValue(t, p.pid, f) == p.Get(f) || ServerValue(t, p.pid, f) == None || t.IsDirty(p.pid, f)
      {
        assert ServerValue(s, p.pid, f) == p.Get(f) || ServerValue(s, p.pid, f) == None || s.IsDirty(p.pid, f);
        if (e.Cursor? || e.Scroll?) && p.pid in s.participants { ApplyPresenceEvent(s, e, p.pid, f); }
      }
    }
  }

  /** A tick keeps both invariants and leaves nothing dirty. */
  lemma TickKeepsInvariants(s: Session, settle: Option<SettleEntry>, seqno: nat, now: int, order: seq<ParticipantPatch>)
    requires WellFormed(s) && SettleSound(s, settle) && Coalesces(s, order)
    ensures var r := TickSession(s, settle, seqno, now, order);
            && WellFormed(r.session) && SettleSound(r.session, r.settle)
            && r.session.participants == s.participants && r.session.dirty == map[]
  {
    if |order| == 0 {
      assert forall pid | pid in s.dirty :: false;
      assert s.dirty == map[];
    }
  }

  // ---- quiet sessions: bounded resends ----

  /** The messages sent at the given tick times once nothing is dirty; every tick has the next
      number, from `first` on. */
  ghost function QuietTicks(
    s: Session, settle: Option<SettleEntry>, times: seq<int>, first: nat): seq<Option<OutboundMessage>>
    requires Coalesces(s, [])
    decreases |times|
  {
    if |times| == 0 then [] else
    var r := TickSession(s, settle, first, times[0], []);
    [r.out] + QuietTicks(r.session, r.settle, times[1..], first + 1)
  }

  predicate SpacedBy(last: int, times: seq<int>, d: nat) {
    && (|times| > 0 ==> times[0] >= last + d)
    && forall i | 0 <= i < |times| - 1 :: times[i + 1] >= times[i] + d
  }

  /** A quiet session resends at each tick inside the window and at none after it, always
      the same patches, under numbers that go up by one from tick to tick. */
  lemma {:induction false} QuietResends(s: Session, entry: SettleEntry, last: int, times: seq<int>, first: nat)
    requires SpacedBy(last, times, 0) && Coalesces(s, [])
    ensures var outs := QuietTicks(s, Some(entry), times, first);
            && |outs| == |times|
            && forall i | 0 <= i < |times| ::
                 outs[i] == if times[i] < entry.settleUntil then Some(Patch(first + i, entry.patches)) else None
    decreases |times|
  {
    if |times| > 0 {
      if times[0] < entry.settleUntil {
        QuietResends(s, entry, times[0], times[1..], first + 1);
      } else {
        QuietSilence(s, times[1..], first + 1);
        LaterStays(last, times, 0);
      }
    }
  }

  lemma {:induction false} QuietSilence(s: Session, times: seq<int>, first: nat)
    requires Coalesces(s, [])
    decreases |times|
    ensures var outs := QuietTicks(s, None, times, first);
            |outs| == |times| && forall i | 0 <= i < |times| :: outs[i] == None
  {
    if |times| > 0 { QuietSilence(s, times[1..], first + 1); }
  }

  lemma {:induction false} LaterStays(last: int, times: seq<int>, d: nat)
    requires SpacedBy(last, times, d)
    ensures forall i | 0 <= i < |times| :: times[i] >= last + (i + 1) * d
    ensures |times| > 0 ==> forall i | 0 <= i < |times| :: times[i] >= times[0]
    decreases |times|
  {
    if |times| > 0 {
      LaterStays(times[0], times[1..], d);
      assert forall i | 1 <= i < |times| :: times[i] == times[1..][i - 1];
    }
  }

  function CountSent(outs: seq<Option<OutboundMessage>>): nat {
    if |outs| == 0 then 0 else CountSent(outs[1..]) + if outs[0].Some? then 1 else 0
  }

  lemma {:induction false} CountBefore(outs: seq<Option<OutboundMessage>>, n: nat)
    requires n <= |outs| && forall i | n <= i < |outs| :: outs[i].None?
    ensures CountSent(outs) <= n
  {
    if |outs| > 0 { CountBefore(outs[1..], if n == 0 then 0 else n - 1); }
  }

  /** ceil(n / d), as whole numbers. */
  function CeilDiv(n: nat, d: nat): (q: int)
    requires d > 0
    ensures q * d >= n
  {
    (n + d - 1) / d
  }

  lemma Multiples(i: int, q: int, d: nat)
    requires i >= q
    ensures i * d >= q * d
  {
  }

  /** With ticks at least `d` ms apart, a session that stays quiet after a flush at `t0`
      gets at most ceil(750 / d) - 1 resends. */
  lemma ResendsAreBounded(s: Session, patches: seq<ParticipantPatch>, t0: int, times: seq<int>, first: nat, d: nat)
    requires d > 0 && SpacedBy(t0, times, d) && Coalesces(s, [])
    ensures var entry := SettleEntry(patches, t0 + PATCH_SETTLE_WINDOW_MS);
            CountSent(QuietTicks(s, Some(entry), times, first)) <= CeilDiv(PATCH_SETTLE_WINDOW_MS, d) - 1
  {
    var entry := SettleEntry(patches, t0 + PATCH_SETTLE_WINDOW_MS);
    var outs := QuietTicks(s, Some(entry), times, first);
    var q := CeilDiv(PATCH_SETTLE_WINDOW_MS, d);
    LaterStays(t0, times, d);
    QuietResends(s, entry, t0, times, first);
    forall i | q - 1 <= i < |outs| && 0 <= i ensures outs[i].None? {
      Multiples(i + 1, q, d);
    }
    CountBefore(outs, if q - 1 < |outs| then q - 1 else |outs|);
  }
}
