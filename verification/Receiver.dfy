/** What a recipient rebuilds from the messages delivered to it
    (apps/server/src/services/ConvergenceTracker.ts). */
module Receiver {
  import opened Wrappers
  import opened Protocol

  datatype SimulatedParticipant = SimulatedParticipant(
    color: string, cursor: Option<Point>, scroll: Option<Point>)
  {
    function Get(f: Field): Option<Point> { if f.CursorField? then cursor else scroll }
  }

  type Roster = map<ParticipantId, SimulatedParticipant>

  /** `lastPatchSeq` is None for the source's -Infinity. */
  datatype View = View(participants: Roster, lastPatchSeq: Option<int>)

  const EMPTY_VIEW := View(map[], None)
  const DEFAULT_COLOR := "#888888"

  function Overlay(before: Option<Point>, update: Option<Point>): Option<Point> {
    if update.Some? then update else before
  }

  function Upsert(ps: Roster, s: ParticipantSnapshot): Roster {
    var existing := if s.pid in ps then ps[s.pid] else SimulatedParticipant(s.color, None, None);
    ps[s.pid := SimulatedParticipant(s.color, Overlay(existing.cursor, s.cursor), Overlay(existing.scroll, s.scroll))]
  }

  function ApplyPatch(ps: Roster, p: ParticipantPatch): Roster {
    var existing := if p.pid in ps then ps[p.pid] else SimulatedParticipant(DEFAULT_COLOR, None, None);
    ps[p.pid := existing.(cursor := Overlay(existing.cursor, p.cursor), scroll := Overlay(existing.scroll, p.scroll))]
  }

  function UpsertAll(ps: Roster, snaps: seq<ParticipantSnapshot>): Roster {
    if |snaps| == 0 then ps else Upsert(UpsertAll(ps, snaps[..|snaps| - 1]), snaps[|snaps| - 1])
  }

  function ApplyPatches(ps: Roster, patches: seq<ParticipantPatch>): Roster {
    if |patches| == 0 then ps else ApplyPatch(ApplyPatches(ps, patches[..|patches| - 1]), patches[|patches| - 1])
  }

  predicate Fresh(last: Option<int>, seqno: int) {
    last.None? || seqno > last.value
  }

  /** The effect of one delivered message on a view. */
  function Deliver(v: View, m: OutboundMessage): View {
    match m
    case Welcome(snaps) => v.(participants := UpsertAll(map[], snaps))
    case Snapshot(snaps) => v.(participants := UpsertAll(map[], snaps))
    case Join(s) => v.(participants := Upsert(v.participants, s))
    case Leave(pid) => v.(participants := v.participants - {pid})
    case Patch(seqno, patches) =>
      if !Fresh(v.lastPatchSeq, seqno) then v
      else View(ApplyPatches(v.participants, patches), Some(seqno))
    case _ => v
  }

  function DeliverAll(v: View, msgs: seq<OutboundMessage>): View {
    if |msgs| == 0 then v else Deliver(DeliverAll(v, msgs[..|msgs| - 1]), msgs[|msgs| - 1])
  }

  // ---- reading a view field by field ----

  /** The value a roster holds for field `f` of `pid`, if any. */
  function Held(ps: Roster, pid: ParticipantId, f: Field): Option<Point> {
    if pid in ps then ps[pid].Get(f) else None
  }

  /** The value the last entry of `patches` about (`pid`, `f`) carries, if any does. */
  function Mention(patches: seq<ParticipantPatch>, pid: ParticipantId, f: Field): Option<Point> {
    if |patches| == 0 then None else
    var p := patches[|patches| - 1];
    if p.pid == pid && p.Get(f).Some? then p.Get(f) else Mention(patches[..|patches| - 1], pid, f)
  }

  function SnapshotMention(snaps: seq<ParticipantSnapshot>, pid: ParticipantId, f: Field): Option<Point> {
    if |snaps| == 0 then None else
    var s := snaps[|snaps| - 1];
    if s.pid == pid && s.Get(f).Some? then s.Get(f) else SnapshotMention(snaps[..|snaps| - 1], pid, f)
  }

  lemma {:induction false} ApplyPatchesHeld(ps: Roster, patches: seq<ParticipantPatch>, pid: ParticipantId, f: Field)
    ensures Held(ApplyPatches(ps, patches), pid, f) == Overlay(Held(ps, pid, f), Mention(patches, pid, f))
  {
    if |patches| > 0 { ApplyPatchesHeld(ps, patches[..|patches| - 1], pid, f); }
  }

  lemma {:induction false} UpsertAllHeld(ps: Roster, snaps: seq<ParticipantSnapshot>, pid: ParticipantId, f: Field)
    ensures Held(UpsertAll(ps, snaps), pid, f) == Overlay(Held(ps, pid, f), SnapshotMention(snaps, pid, f))
    ensures pid in UpsertAll(ps, snaps) <==> pid in ps || exists i :: 0 <= i < |snaps| && snaps[i].pid == pid
  {
    if |snaps| > 0 {
      var init := snaps[..|snaps| - 1];
      UpsertAllHeld(ps, init, pid, f);
      assert (exists i :: 0 <= i < |snaps| && snaps[i].pid == pid) <==>
             snaps[|snaps| - 1].pid == pid || (exists i :: 0 <= i < |init| && init[i].pid == pid) by {
        if exists i :: 0 <= i < |init| && init[i].pid == pid {
          var i :| 0 <= i < |init| && init[i].pid == pid;
          assert snaps[i].pid == pid;
        }
        if i :| 0 <= i < |snaps| && snaps[i].pid == pid {
          assert i < |init| ==> init[i].pid == pid;
        }
      }
    }
  }

  lemma {:induction false} MentionIn(patches: seq<ParticipantPatch>, pid: ParticipantId, f: Field)
    ensures Mention(patches, pid, f).Some? ==>
              exists p :: p in patches && p.pid == pid && p.Get(f) == Mention(patches, pid, f)
    ensures (exists p :: p in patches && p.pid == pid && p.Get(f).Some?) ==> Mention(patches, pid, f).Some?
  {
    if |patches| > 0 {
      var init, last := patches[..|patches| - 1], patches[|patches| - 1];
      MentionIn(init, pid, f);
      assert forall p :: p in patches <==> p in init || p == last;
    }
  }

  lemma {:induction false} SnapshotMentionIn(snaps: seq<ParticipantSnapshot>, pid: ParticipantId, f: Field)
    ensures SnapshotMention(snaps, pid, f).Some? ==>
              exists s :: s in snaps && s.pid == pid && s.Get(f) == SnapshotMention(snaps, pid, f)
    ensures (exists s :: s in snaps && s.pid == pid && s.Get(f).Some?) ==> SnapshotMention(snaps, pid, f).Some?
  {
    if |snaps| > 0 {
      var init, last := snaps[..|snaps| - 1], snaps[|snaps| - 1];
      SnapshotMentionIn(init, pid, f);
      assert forall s :: s in snaps <==> s in init || s == last;
    }
  }

  predicate Names(patches: seq<ParticipantPatch>, pid: ParticipantId) {
    exists p :: p in patches && p.pid == pid
  }

  /** A patch adds whoever it names, in the default colour, and changes no other colour. */
  lemma {:induction false} PatchedPids(ps: Roster, patches: seq<ParticipantPatch>, pid: ParticipantId)
    ensures pid in ApplyPatches(ps, patches) <==> pid in ps || Names(patches, pid)
    ensures pid in ApplyPatches(ps, patches) ==>
              ApplyPatches(ps, patches)[pid].color == if pid in ps then ps[pid].color else DEFAULT_COLOR
  {
    if |patches| > 0 {
      var init, last := patches[..|patches| - 1], patches[|patches| - 1];
      PatchedPids(ps, init, pid);
      assert forall p :: p in patches <==> p in init || p == last;
    }
  }
}
