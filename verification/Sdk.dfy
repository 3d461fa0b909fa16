/** The browser SDK's own view of the roster (packages/client/src/index.ts), and its
    relation to the server-side simulation of it. */
module Sdk {
  import opened Wrappers
  import opened Protocol
  import opened Receiver

  datatype RemoteCursorPoint = RemoteCursorPoint(point: Point, t: int)

  datatype RemoteParticipant = RemoteParticipant(
    color: string,
    lastSeenAt: int,
    cursorPrev: Option<RemoteCursorPoint>,
    cursorLatest: Option<RemoteCursorPoint>,
    scroll: Option<Point>)
  {
    function Get(f: Field): Option<Point> {
      if f.ScrollField? then scroll
      else if cursorLatest.Some? then Some(cursorLatest.value.point) else None
    }
  }

  type Remotes = map<ParticipantId, RemoteParticipant>

  datatype ClientState = ClientState(remotes: Remotes, lastPatchSeq: Option<int>)

  /** A new cursor value pushes the latest one into `cursorPrev`; no value changes nothing. */
  function Moved(r: RemoteParticipant, cursor: Option<Point>, scroll: Option<Point>, now: int): RemoteParticipant {
    var r1 := r.(lastSeenAt := now);
    var r2 := if cursor.Some?
              then r1.(cursorPrev := r1.cursorLatest, cursorLatest := Some(RemoteCursorPoint(cursor.value, now)))
              else r1;
    r2.(scroll := Overlay(r2.scroll, scroll))
  }

  function UpsertRemote(remotes: Remotes, self: ParticipantId, s: ParticipantSnapshot, now: int): Remotes {
    if s.pid == self then remotes else
    var existing := if s.pid in remotes then remotes[s.pid] else RemoteParticipant(s.color, now, None, None, None);
    remotes[s.pid := Moved(existing.(color := s.color), s.cursor, s.scroll, now)]
  }

  function ApplyRemotePatch(remotes: Remotes, self: ParticipantId, p: ParticipantPatch, now: int): Remotes {
    if p.pid == self then remotes else
    var existing := if p.pid in remotes then remotes[p.pid]
        else RemoteParticipant(DEFAULT_COLOR, now, None, None, None);
    remotes[p.pid := Moved(existing, p.cursor, p.scroll, now)]
  }

  /** The readings of `Date.now()` while one message is handled, one per entry. */
  type Clock = nat -> int

  function UpsertRemotes(
    remotes: Remotes, self: ParticipantId, snaps: seq<ParticipantSnapshot>, clock: Clock): Remotes
  {
    if |snaps| == 0 then remotes else
    var n := |snaps| - 1;
    UpsertRemote(UpsertRemotes(remotes, self, snaps[..n], clock), self, snaps[n], clock(n))
  }

  function ApplyRemotePatches(
    remotes: Remotes, self: ParticipantId, patches: seq<ParticipantPatch>, clock: Clock): Remotes
  {
    if |patches| == 0 then remotes else
    var n := |patches| - 1;
    ApplyRemotePatch(ApplyRemotePatches(remotes, self, patches[..n], clock), self, patches[n], clock(n))
  }

  function PidsOf(snaps: seq<ParticipantSnapshot>): set<ParticipantId> {
    set s | s in snaps :: s.pid
  }

  /** Keeps whoever is listed, unlike the simulation, which starts over. */
  function SeedRoster(remotes: Remotes, self: ParticipantId, snaps: seq<ParticipantSnapshot>, clock: Clock): Remotes {
    UpsertRemotes(map pid | pid in remotes && pid in PidsOf(snaps) :: remotes[pid], self, snaps, clock)
  }

  function Route(c: ClientState, self: ParticipantId, m: OutboundMessage, clock: Clock): ClientState {
    match m
    case Welcome(snaps) => c.(remotes := SeedRoster(c.remotes, self, snaps, clock))
    case Snapshot(snaps) => c.(remotes := SeedRoster(c.remotes, self, snaps, clock))
    case Join(s) => c.(remotes := UpsertRemote(c.remotes, self, s, clock(0)))
    case Leave(pid) => c.(remotes := c.remotes - {pid})
    case Patch(seqno, patches) =>
      if !Fresh(c.lastPatchSeq, seqno) then c
      else ClientState(ApplyRemotePatches(c.remotes, self, patches, clock), Some(seqno))
    case _ => c
  }

  class CopresenceClient {
    const self: ParticipantId
    var remotes: Remotes
    var lastPatchSeq: Option<int>

    constructor (pid: ParticipantId)
      ensures self == pid && State() == ClientState(map[], None)
    {
      self := pid;
      remotes := map[];
      lastPatchSeq := None;
    }

    function State(): ClientState
      reads this
    {
      ClientState(remotes, lastPatchSeq)
    }

    method RouteMessage(message: OutboundMessage, clock: Clock)
      modifies this
      ensures State() == Route(old(State()), self, message, clock)
    {
      match message {
        case Welcome(snaps) => Seed(snaps, clock);
        case Snapshot(snaps) => Seed(snaps, clock);
        case Join(participant) => remotes := UpsertRemote(remotes, self, participant, clock(0));
        case Leave(pid) => remotes := remotes - {pid};
        case Patch(seqno, patches) =>
          if !Fresh(lastPatchSeq, seqno) { return; }
          lastPatchSeq := Some(seqno);
          ghost var before := remotes;
          var i := 0;
          while i < |patches|
            invariant 0 <= i <= |patches| && lastPatchSeq == Some(seqno)
            invariant remotes == ApplyRemotePatches(before, self, patches[..i], clock)
          {
            assert patches[..i + 1][..i] == patches[..i];
            remotes := ApplyRemotePatch(remotes, self, patches[i], clock(i));
            i := i + 1;
          }
          assert patches[..i] == patches;
        case _ =>
      }
    }

    method Seed(participants: seq<ParticipantSnapshot>, clock: Clock)
      modifies this`remotes
      ensures remotes == SeedRoster(old(remotes), self, participants, clock)
    {
      var seen := PidsOf(participants);
      remotes := map pid | pid in remotes && pid in seen :: remotes[pid];
      ghost var kept := remotes;
      var i := 0;
      while i < |participants|
        invariant 0 <= i <= |participants|
        invariant remotes == UpsertRemotes(kept, self, participants[..i], clock)
      {
        assert participants[..i + 1][..i] == participants[..i];
        remotes := UpsertRemote(remotes, self, participants[i], clock(i));
        i := i + 1;
      }
      assert participants[..i] == participants;
    }
  }

  // ---- the simulation relation ----

  ghost predicate SameParticipant(r: RemoteParticipant, s: SimulatedParticipant) {
    r.color == s.color && forall f: Field :: r.Get(f) == s.Get(f)
  }

  /** The SDK's remotes are the simulated roster without the SDK's own participant. */
  ghost predicate MirrorsRoster(remotes: Remotes, self: ParticipantId, ps: Roster) {
    && remotes.Keys == ps.Keys - {self}
    && forall pid | pid in remotes :: SameParticipant(remotes[pid], ps[pid])
  }

  ghost predicate Mirrors(c: ClientState, self: ParticipantId, v: View) {
    MirrorsRoster(c.remotes, self, v.participants) && c.lastPatchSeq == v.lastPatchSeq
  }

  lemma UpsertMirrors(remotes: Remotes, self: ParticipantId, ps: Roster, s: ParticipantSnapshot, now: int)
    requires MirrorsRoster(remotes, self, ps)
    ensures MirrorsRoster(UpsertRemote(remotes, self, s, now), self, Upsert(ps, s))
  {
    if s.pid in remotes {
      assert remotes[s.pid].Get(CursorField) == ps[s.pid].cursor;
      assert remotes[s.pid].Get(ScrollField) == ps[s.pid].scroll;
    }
  }

  lemma PatchMirrors(remotes: Remotes, self: ParticipantId, ps: Roster, p: ParticipantPatch, now: int)
    requires MirrorsRoster(remotes, self, ps)
    ensures MirrorsRoster(ApplyRemotePatch(remotes, self, p, now), self, ApplyPatch(ps, p))
  {
    if p.pid in remotes {
      assert remotes[p.pid].Get(CursorField) == ps[p.pid].cursor;
      assert remotes[p.pid].Get(ScrollField) == ps[p.pid].scroll;
    }
  }

  lemma {:induction false} PatchesMirror(
    remotes: Remotes, self: ParticipantId, ps: Roster, patches: seq<ParticipantPatch>, clock: Clock)
    requires MirrorsRoster(remotes, self, ps)
    ensures MirrorsRoster(ApplyRemotePatches(remotes, self, patches, clock), self, ApplyPatches(ps, patches))
  {
    if |patches| > 0 {
      var n := |patches| - 1;
      PatchesMirror(remotes, self, ps, patches[..n], clock);
      PatchMirrors(ApplyRemotePatches(remotes, self, patches[..n], clock), self, ApplyPatches(ps, patches[..n]),
          patches[n], clock(n));
    }
  }

  /** The part of a roster that a reseed keeps. */
  function Kept(ps: Roster, snaps: seq<ParticipantSnapshot>): Roster {
    map pid | pid in ps && pid in PidsOf(snaps) :: ps[pid]
  }

  lemma {:induction false} UpsertsMirror(
    remotes: Remotes, self: ParticipantId, ps: Roster, snaps: seq<ParticipantSnapshot>, clock: Clock)
    requires MirrorsRoster(remotes, self, ps)
    ensures MirrorsRoster(UpsertRemotes(remotes, self, snaps, clock), self, UpsertAll(ps, snaps))
  {
    if |snaps| > 0 {
      var n := |snaps| - 1;
      UpsertsMirror(remotes, self, ps, snaps[..n], clock);
      UpsertMirrors(UpsertRemotes(remotes, self, snaps[..n], clock), self, UpsertAll(ps, snaps[..n]), snaps[n],
          clock(n));
    }
  }

  /** Every value the view holds for a listed participant is carried by the list. */
  ghost predicate Carries(v: View, self: ParticipantId, snaps: seq<ParticipantSnapshot>) {
    forall pid, f: Field | pid in PidsOf(snaps) && pid != self && Held(v.participants, pid, f).Some? ::
      SnapshotMention(snaps, pid, f).Some?
  }

  /** Colours come from the list alone, so what was kept before makes no difference to them. */
  lemma {:induction false} ColorsFromList(ps: Roster, qs: Roster, snaps: seq<ParticipantSnapshot>, pid: ParticipantId)
    requires pid in PidsOf(snaps)
    ensures pid in UpsertAll(ps, snaps) && pid in UpsertAll(qs, snaps)
    ensures UpsertAll(ps, snaps)[pid].color == UpsertAll(qs, snaps)[pid].color
  {
    var n := |snaps| - 1;
    if snaps[n].pid != pid { ColorsFromList(ps, qs, snaps[..n], pid); }
  }

  /** Keeping listed participants and starting over give the same roster, apart from
      `self`, exactly when the list carries every value held. */
  lemma ReseedAgreesIffCarries(v: View, self: ParticipantId, snaps: seq<ParticipantSnapshot>)
    ensures UpsertAll(Kept(v.participants, snaps), snaps).Keys == UpsertAll(map[], snaps).Keys
    ensures (forall pid | pid in UpsertAll(map[], snaps) && pid != self ::
               UpsertAll(Kept(v.participants, snaps), snaps)[pid] == UpsertAll(map[], snaps)[pid])
            <==> Carries(v, self, snaps)
  {
    var kept := Kept(v.participants, snaps);
    var a, b := UpsertAll(kept, snaps), UpsertAll(map[], snaps);
    forall pid: ParticipantId
      ensures (pid in a <==> pid in PidsOf(snaps)) && (pid in b <==> pid in PidsOf(snaps))
      ensures pid in a ==> a[pid].color == b[pid].color
    {
      UpsertAllHeld(kept, snaps, pid, CursorField);
      UpsertAllHeld(map[], snaps, pid, CursorField);
      if pid in PidsOf(snaps) { ColorsFromList(kept, map[], snaps, pid); }
    }
    forall pid: ParticipantId, f: Field
      ensures Held(a, pid, f) == Overlay(Held(kept, pid, f), SnapshotMention(snaps, pid, f))
      ensures Held(b, pid, f) == SnapshotMention(snaps, pid, f)
    {
      UpsertAllHeld(kept, snaps, pid, f);
      UpsertAllHeld(map[], snaps, pid, f);
    }
    if Carries(v, self, snaps) {
      forall pid | pid in b && pid != self ensures a[pid] == b[pid] {
        assert Held(a, pid, CursorField) == Held(b, pid, CursorField);
        assert Held(a, pid, ScrollField) == Held(b, pid, ScrollField);
      }
    } else {
      var pid, f: Field :| pid in PidsOf(snaps) && pid != self && Held(v.participants, pid, f).Some?
                           && SnapshotMention(snaps, pid, f).None?;
      assert Held(a, pid, f) != Held(b, pid, f);
    }
  }

  predicate IsReseed(m: OutboundMessage) { m.Welcome? || m.Snapshot? }

  /** One message keeps the two views in step -- always, except that a welcome or snapshot
      does so exactly when it carries every value held for the participants it lists. */
  lemma StepMirrors(c: ClientState, self: ParticipantId, v: View, m: OutboundMessage, clock: Clock)
    requires Mirrors(c, self, v)
    ensures Mirrors(Route(c, self, m, clock), self, Deliver(v, m))
            <==> (IsReseed(m) ==> Carries(v, self, m.participants))
  {
    if IsReseed(m) {
      var snaps := m.participants;
      var keptRemotes := map pid | pid in c.remotes && pid in PidsOf(snaps) :: c.remotes[pid];
      var kept := Kept(v.participants, snaps);
      assert MirrorsRoster(keptRemotes, self, kept);
      UpsertsMirror(keptRemotes, self, kept, snaps, clock);
      ReseedAgreesIffCarries(v, self, snaps);
      ReseedMirrors(UpsertRemotes(keptRemotes, self, snaps, clock), self, UpsertAll(kept, snaps),
          UpsertAll(map[], snaps));
    } else if m.Join? {
      UpsertMirrors(c.remotes, self, v.participants, m.participant, clock(0));
    } else if m.Patch? {
      PatchesMirror(c.remotes, self, v.participants, m.patches, clock);
    }
  }

  /** Remotes mirroring `a` mirror `b` exactly when `a` and `b` agree outside `self`. */
  lemma ReseedMirrors(remotes: Remotes, self: ParticipantId, a: Roster, b: Roster)
    requires MirrorsRoster(remotes, self, a) && a.Keys == b.Keys
    ensures MirrorsRoster(remotes, self, b) <==> forall pid | pid in b && pid != self :: a[pid] == b[pid]
  {
    if MirrorsRoster(remotes, self, b) {
      forall pid | pid in b && pid != self ensures a[pid] == b[pid] {
        assert pid in remotes;
        assert remotes[pid].Get(CursorField) == a[pid].Get(CursorField) == b[pid].Get(CursorField);
        assert remotes[pid].Get(ScrollField) == a[pid].Get(ScrollField) == b[pid].Get(ScrollField);
      }
    }
  }

  function RouteAll(c: ClientState, self: ParticipantId, msgs: seq<OutboundMessage>, clocks: seq<Clock>): ClientState
    requires |clocks| == |msgs|
  {
    if |msgs| == 0 then c
    else Route(RouteAll(c, self, msgs[..|msgs| - 1], clocks[..|msgs| - 1]), self, msgs[|msgs| - 1], clocks[|msgs| - 1])
  }

  /** Over any message sequence whose reseeds carry what the view holds when they arrive,
      the simulation is the real client's view. */
  lemma {:induction false} TrackerSimulatesClient(self: ParticipantId, msgs: seq<OutboundMessage>, clocks: seq<Clock>)
    requires |clocks| == |msgs|
    requires forall i | 0 <= i < |msgs| && IsReseed(msgs[i]) ::
               Carries(DeliverAll(EMPTY_VIEW, msgs[..i]), self, msgs[i].participants)
    ensures Mirrors(RouteAll(ClientState(map[], None), self, msgs, clocks), self, DeliverAll(EMPTY_VIEW, msgs))
  {
    if |msgs| > 0 {
      var n := |msgs| - 1;
      forall i | 0 <= i < n && IsReseed(msgs[..n][i])
        ensures Carries(DeliverAll(EMPTY_VIEW, msgs[..n][..i]), self, msgs[..n][i].participants)
      {
        assert msgs[..n][..i] == msgs[..i];
      }
      TrackerSimulatesClient(self, msgs[..n], clocks[..n]);
      StepMirrors(RouteAll(ClientState(map[], None), self, msgs[..n], clocks[..n]), self,
                  DeliverAll(EMPTY_VIEW, msgs[..n]), msgs[n], clocks[n]);
    }
  }

  // ---- what is known of a remote participant ----

  /** One entry about a participant, as it was handled. */
  datatype Sighting = Sighting(cursor: Option<Point>, scroll: Option<Point>, at: int)

  function InSnaps(snaps: seq<ParticipantSnapshot>, pid: ParticipantId, clock: Clock): seq<Sighting> {
    if |snaps| == 0 then [] else
    var n := |snaps| - 1;
    InSnaps(snaps[..n], pid, clock)
      + if snaps[n].pid == pid then [Sighting(snaps[n].cursor, snaps[n].scroll, clock(n))] else []
  }

  function InPatches(patches: seq<ParticipantPatch>, pid: ParticipantId, clock: Clock): seq<Sighting> {
    if |patches| == 0 then [] else
    var n := |patches| - 1;
    InPatches(patches[..n], pid, clock)
      + if patches[n].pid == pid then [Sighting(patches[n].cursor, patches[n].scroll, clock(n))] else []
  }

  /** Nothing counts from before the participant last left or went unlisted. */
  function SightingsAfter(
    before: seq<Sighting>, last: Option<int>, m: OutboundMessage, pid: ParticipantId, clock: Clock): seq<Sighting>
  {
    match m
    case Welcome(snaps) => if pid in PidsOf(snaps) then before + InSnaps(snaps, pid, clock) else []
    case Snapshot(snaps) => if pid in PidsOf(snaps) then before + InSnaps(snaps, pid, clock) else []
    case Join(s) => if s.pid == pid then before + [Sighting(s.cursor, s.scroll, clock(0))] else before
    case Leave(p) => if p == pid then [] else before
    case Patch(seqno, patches) => if Fresh(last, seqno) then before + InPatches(patches, pid, clock) else before
    case _ => before
  }

  /** All sightings that count after `msgs`. */
  function Sightings(self: ParticipantId, msgs: seq<OutboundMessage>, clocks: seq<Clock>, pid: ParticipantId)
    : seq<Sighting>
    requires |clocks| == |msgs|
  {
    if |msgs| == 0 then [] else
    var n := |msgs| - 1;
    var last := RouteAll(ClientState(map[], None), self, msgs[..n], clocks[..n]).lastPatchSeq;
    SightingsAfter(Sightings(self, msgs[..n], clocks[..n], pid), last, msgs[n], pid, clocks[n])
  }

  /** Those that carry a cursor. */
  function WithCursor(seen: seq<Sighting>): seq<Sighting> {
    if |seen| == 0 then [] else
    var n := |seen| - 1;
    WithCursor(seen[..n]) + if seen[n].cursor.Some? then [seen[n]] else []
  }

  function LastScroll(seen: seq<Sighting>): Option<Point> {
    if |seen| == 0 then None
    else if seen[|seen| - 1].scroll.Some? then seen[|seen| - 1].scroll
    else LastScroll(seen[..|seen| - 1])
  }

  /** The point and the time of the cursor seen `back` cursors ago. */
  function CursorAgo(seen: seq<Sighting>, back: nat): Option<RemoteCursorPoint> {
    var cursors := WithCursor(seen);
    if back < |cursors| then
      var s := cursors[|cursors| - 1 - back];
      Some(RemoteCursorPoint(if s.cursor.Some? then s.cursor.value else Point(0.0, 0.0), s.at))
    else None
  }

  /** The participant is known exactly if it was seen; the last two cursors and the last scroll are
      what was last seen of them, with their times, and `lastSeenAt` is the time of the last sighting. */
  predicate Remembers(remotes: Remotes, pid: ParticipantId, seen: seq<Sighting>) {
    && (pid in remotes <==> seen != [])
    && (pid in remotes ==>
          var r := remotes[pid];
          && r.lastSeenAt == seen[|seen| - 1].at
          && r.cursorLatest == CursorAgo(seen, 0) && r.cursorPrev == CursorAgo(seen, 1)
          && r.scroll == LastScroll(seen))
  }

  lemma OneMoreSeen(seen: seq<Sighting>, s: Sighting)
    ensures CursorAgo(seen + [s], 0) ==
            if s.cursor.Some? then Some(RemoteCursorPoint(s.cursor.value, s.at)) else CursorAgo(seen, 0)
    ensures CursorAgo(seen + [s], 1) == if s.cursor.Some? then CursorAgo(seen, 0) else CursorAgo(seen, 1)
    ensures LastScroll(seen + [s]) == Overlay(LastScroll(seen), s.scroll)
  {
    assert (seen + [s])[..|seen|] == seen;
  }

  lemma MovedRemembers(remotes: Remotes, r: RemoteParticipant, pid: ParticipantId, seen: seq<Sighting>, s: Sighting)
    requires Remembers(remotes, pid, seen)
    requires if pid in remotes then r == remotes[pid].(color := r.color)
             else r.cursorPrev.None? && r.cursorLatest.None? && r.scroll.None?
    ensures Remembers(remotes[pid := Moved(r, s.cursor, s.scroll, s.at)], pid, seen + [s])
  {
    hide CursorAgo, LastScroll;
    OneMoreSeen(seen, s);
    NothingSeen();
  }

  lemma NothingSeen()
    ensures CursorAgo([], 0) == None && CursorAgo([], 1) == None && LastScroll([]) == None
  {
  }

  lemma UpsertRemembers(
    remotes: Remotes, self: ParticipantId, s: ParticipantSnapshot, now: int, pid: ParticipantId, seen: seq<Sighting>)
    requires Remembers(remotes, pid, seen) && pid != self
    ensures Remembers(UpsertRemote(remotes, self, s, now), pid,
                      if s.pid == pid then seen + [Sighting(s.cursor, s.scroll, now)] else seen)
  {
    if s.pid == pid {
      var existing := if s.pid in remotes then remotes[s.pid] else RemoteParticipant(s.color, now, None, None, None);
      MovedRemembers(remotes, existing.(color := s.color), pid, seen, Sighting(s.cursor, s.scroll, now));
    }
  }

  lemma PatchRemembers(
    remotes: Remotes, self: ParticipantId, p: ParticipantPatch, now: int, pid: ParticipantId, seen: seq<Sighting>)
    requires Remembers(remotes, pid, seen) && pid != self
    ensures Remembers(ApplyRemotePatch(remotes, self, p, now), pid,
                      if p.pid == pid then seen + [Sighting(p.cursor, p.scroll, now)] else seen)
  {
    if p.pid == pid {
      var existing := if p.pid in remotes then remotes[p.pid]
          else RemoteParticipant(DEFAULT_COLOR, now, None, None, None);
      MovedRemembers(remotes, existing, pid, seen, Sighting(p.cursor, p.scroll, now));
    }
  }

  lemma {:induction false} UpsertsRemember(
    remotes: Remotes, self: ParticipantId, snaps: seq<ParticipantSnapshot>, clock: Clock, pid: ParticipantId,
    seen: seq<Sighting>)
    requires Remembers(remotes, pid, seen) && pid != self
    ensures Remembers(UpsertRemotes(remotes, self, snaps, clock), pid, seen + InSnaps(snaps, pid, clock))
  {
    hide Remembers;
    if |snaps| == 0 {
      assert seen + [] == seen;
    } else {
      var n := |snaps| - 1;
      var before := seen + InSnaps(snaps[..n], pid, clock);
      UpsertsRemember(remotes, self, snaps[..n], clock, pid, seen);
      UpsertRemembers(UpsertRemotes(remotes, self, snaps[..n], clock), self, snaps[n], clock(n), pid, before);
      assert seen + InSnaps(snaps, pid, clock) ==
             if snaps[n].pid == pid then before + [Sighting(snaps[n].cursor, snaps[n].scroll, clock(n))] else before;
    }
  }

  lemma {:induction false} PatchesRemember(
    remotes: Remotes, self: ParticipantId, patches: seq<ParticipantPatch>, clock: Clock, pid: ParticipantId,
    seen: seq<Sighting>)
    requires Remembers(remotes, pid, seen) && pid != self
    ensures Remembers(ApplyRemotePatches(remotes, self, patches, clock), pid, seen + InPatches(patches, pid, clock))
  {
    hide Remembers;
    if |patches| == 0 {
      assert seen + [] == seen;
    } else {
      var n := |patches| - 1;
      var before := seen + InPatches(patches[..n], pid, clock);
      PatchesRemember(remotes, self, patches[..n], clock, pid, seen);
      PatchRemembers(ApplyRemotePatches(remotes, self, patches[..n], clock), self, patches[n], clock(n), pid, before);
      assert seen + InPatches(patches, pid, clock) ==
             if patches[n].pid == pid then before + [Sighting(patches[n].cursor, patches[n].scroll, clock(n))]
             else before;
    }
  }

  lemma {:induction false} UnlistedUnseen(snaps: seq<ParticipantSnapshot>, pid: ParticipantId, clock: Clock)
    requires pid !in PidsOf(snaps)
    ensures InSnaps(snaps, pid, clock) == []
  {
    if |snaps| > 0 {
      assert snaps[|snaps| - 1] in snaps;
      UnlistedUnseen(snaps[..|snaps| - 1], pid, clock);
    }
  }

  lemma SeedRemembers(
    remotes: Remotes, self: ParticipantId, snaps: seq<ParticipantSnapshot>, clock: Clock, pid: ParticipantId,
    seen: seq<Sighting>)
    requires Remembers(remotes, pid, seen) && pid != self
    ensures Remembers(SeedRoster(remotes, self, snaps, clock), pid,
                      if pid in PidsOf(snaps) then seen + InSnaps(snaps, pid, clock) else [])
  {
    var kept := map p | p in remotes && p in PidsOf(snaps) :: remotes[p];
    if pid in PidsOf(snaps) {
      UpsertsRemember(kept, self, snaps, clock, pid, seen);
    } else {
      UpsertsRemember(kept, self, snaps, clock, pid, []);
      UnlistedUnseen(snaps, pid, clock);
    }
  }

  lemma RouteRemembers(
    c: ClientState, self: ParticipantId, m: OutboundMessage, clock: Clock, pid: ParticipantId, seen: seq<Sighting>)
    requires Remembers(c.remotes, pid, seen) && pid != self
    ensures Remembers(Route(c, self, m, clock).remotes, pid, SightingsAfter(seen, c.lastPatchSeq, m, pid, clock))
  {
    hide UpsertRemote, ApplyRemotePatches, SeedRoster, CursorAgo, LastScroll;
    match m {
      case Welcome(snaps) => SeedRemembers(c.remotes, self, snaps, clock, pid, seen);
      case Snapshot(snaps) => SeedRemembers(c.remotes, self, snaps, clock, pid, seen);
      case Join(s) => UpsertRemembers(c.remotes, self, s, clock(0), pid, seen);
      case Patch(seqno, patches) => PatchesRemember(c.remotes, self, patches, clock, pid, seen);
      case _ =>
    }
  }

  /** Over any message sequence the client remembers of every other participant exactly what it has
      last seen of it since it last came. */
  lemma {:induction false} ClientRemembers(
    self: ParticipantId, msgs: seq<OutboundMessage>, clocks: seq<Clock>, pid: ParticipantId)
    requires |clocks| == |msgs| && pid != self
    ensures Remembers(RouteAll(ClientState(map[], None), self, msgs, clocks).remotes, pid,
                      Sightings(self, msgs, clocks, pid))
  {
    if |msgs| > 0 {
      var n := |msgs| - 1;
      ClientRemembers(self, msgs[..n], clocks[..n], pid);
      RouteRemembers(RouteAll(ClientState(map[], None), self, msgs[..n], clocks[..n]), self, msgs[n], clocks[n], pid,
                     Sightings(self, msgs[..n], clocks[..n], pid));
    }
  }
}
