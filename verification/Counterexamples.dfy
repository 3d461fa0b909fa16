/** Reachable runs on which the tempting statements fail: one for each. */
module Counterexamples {
  import opened Wrappers
  import opened Protocol
  import opened Presence
  import opened Receiver
  import opened PatchHistory
  import opened Scheduler
  import opened Coalescing
  import opened Convergence
  import Sdk

  // ---- the steps the runs are made of, all at time 0 until a tick says otherwise ----

  function Person(pid: ParticipantId, presence: PresenceState): Participant {
    Participant(pid, ColorForParticipant(pid), presence, 0)
  }

  function At(point: Point, seqno: int): PresenceState { PresenceState(Some(point), Some(seqno), None, None) }

  /** One participant alone in the session. */
  function Alone(pid: ParticipantId, presence: PresenceState, dirty: map<ParticipantId, PresenceDirty>): Session {
    Session("s", map[pid := Person(pid, presence)], 0, dirty)
  }

  function Listed(pid: ParticipantId, cursor: Option<Point>): ParticipantSnapshot {
    ParticipantSnapshot(pid, ColorForParticipant(pid), 0, cursor, None)
  }

  function Arrives(pid: ParticipantId, seqno: int, snaps: seq<ParticipantSnapshot>): Step {
    HelloStep(Hello(pid, seqno, 0), "s", 0, snaps)
  }

  function MovesTo(pid: ParticipantId, point: Point): ParticipantPatch { ParticipantPatch(pid, Some(point), None) }

  /** A run so far: its steps and worlds. */
  datatype Trace = Trace(steps: seq<(Step, nat)>, worlds: seq<World>) {
    ghost predicate Valid(viewer: ParticipantId) { IsRun(viewer, steps, worlds) }

    function Last(): World
      requires |worlds| > 0
    {
      worlds[|worlds| - 1]
    }
  }

  /** `u` is `t` and one more step. */
  ghost predicate Extends(t: Trace, u: Trace, step: Step) {
    && |u.steps| == |t.steps| + 1 && |u.worlds| == |t.worlds| + 1
    && u.steps[..|t.steps|] == t.steps && u.steps[|t.steps|] == (step, 0)
    && u.worlds[..|t.worlds|] == t.worlds
  }

  /** Where the server is at the end of a trace. */
  ghost predicate Now(t: Trace, session: Session, settle: Option<SettleEntry>, seqno: nat) {
    && |t.worlds| == |t.steps| + 1
    && t.Last().session == Some(session) && t.Last().settle == settle && t.Last().seqno == seqno
    && t.Last().connected
  }

  ghost predicate Emits(t: Trace, i: nat, m: OutboundMessage) {
    i < |t.steps| && |t.worlds| == |t.steps| + 1 && Emission(t.steps, t.worlds, i) == Some(m)
  }

  lemma StepStays(t: Trace, u: Trace, step: Step, i: nat)
    requires Extends(t, u, step) && i < |t.steps|
    ensures u.steps[i] == t.steps[i]
  {
    assert u.steps[..|t.steps|][i] == t.steps[i];
  }

  lemma StillEmits(t: Trace, u: Trace, step: Step, i: nat, m: OutboundMessage)
    requires Emits(t, i, m) && Extends(t, u, step)
    ensures Emits(u, i, m)
  {
    assert u.steps[i] == t.steps[i] && u.worlds[i] == t.worlds[i];
  }

  const NO_STEPS := Trace([], [INITIAL])

  /** One more step, every message delivered once. */
  lemma Then(viewer: ParticipantId, t: Trace, step: Step) returns (u: Trace)
    requires t.Valid(viewer) && Enabled(t.Last(), step)
    ensures u.Valid(viewer) && u.Last() == Next(t.Last(), viewer, step, 0)
    ensures Extends(t, u, step)
  {
    u := Trace(t.steps + [(step, 0)], t.worlds + [Next(t.Last(), viewer, step, 0)]);
  }

  /** A cursor or scroll event. */
  lemma ThenObserves(
    viewer: ParticipantId, t: Trace, e: InboundMessage, s: Session, settle: Option<SettleEntry>, seqno: nat)
    returns (u: Trace)
    requires t.Valid(viewer) && Now(t, s, settle, seqno) && (e.Cursor? || e.Scroll?)
    ensures u.Valid(viewer) && Extends(t, u, PresenceStep(e)) && Now(u, ApplyEvent(s, e).state, settle, seqno)
    ensures u.Last().view == t.Last().view
  {
    u := Then(viewer, t, PresenceStep(e));
  }

  /** A tick that flushes. */
  lemma ThenFlushes(
    viewer: ParticipantId, t: Trace, now: int, patch: ParticipantPatch, s: Session, settle: Option<SettleEntry>,
    seqno: nat)
    returns (u: Trace)
    requires t.Valid(viewer) && Now(t, s, settle, seqno) && Coalesces(s, [patch])
    ensures u.Valid(viewer) && Extends(t, u, TickStep(now, [patch]))
    ensures Now(u, s.(dirty := map[]), Some(SettleEntry([patch], now + PATCH_SETTLE_WINDOW_MS)), seqno + 1)
    ensures Emits(u, |t.steps|, Patch(seqno + 1, [patch]))
    ensures u.Last().view == Deliver(t.Last().view, Patch(seqno + 1, [patch]))
  {
    u := Then(viewer, t, TickStep(now, [patch]));
  }

  lemma CoalescesOne(s: Session, pid: ParticipantId)
    requires s.dirty.Keys == {pid} && pid in s.participants
    ensures Coalesces(s, [PatchFor(s, pid)])
  {
    assert [PatchFor(s, pid)][0] in [PatchFor(s, pid)];
  }

  lemma JoinsAlone(a: ParticipantId)
    ensures ApplyEvent(CreateSession("s", 0), Hello(a, 1, 0)).state == Alone(a, EMPTY_PRESENCE, map[])
  {
    var s := AddParticipant(CreateSession("s", 0), a, 0);
    assert s.participants == map[a := Person(a, EMPTY_PRESENCE)];
    assert ApplyEvent(CreateSession("s", 0), Hello(a, 1, 0)).state.participants == map[a := Person(a, EMPTY_PRESENCE)];
  }

  lemma MovesAlone(a: ParticipantId, point: Point, seqno: int)
    ensures ApplyEvent(Alone(a, EMPTY_PRESENCE, map[]), Cursor(a, seqno, point)).state ==
            Alone(a, At(point, seqno), map[a := PresenceDirty(true, false)])
  {
    var t := ApplyEvent(Alone(a, EMPTY_PRESENCE, map[]), Cursor(a, seqno, point)).state;
    assert t.participants == map[a := Person(a, At(point, seqno))];
    assert t.dirty == map[a := PresenceDirty(true, false)];
  }

  lemma ScrollsAlone(a: ParticipantId, p: PresenceState, point: Point, seqno: int)
    requires p.scrollSeq.None?
    ensures ApplyEvent(Alone(a, p, map[]), Scroll(a, seqno, point)).state ==
            Alone(a, p.(scroll := Some(point), scrollSeq := Some(seqno)), map[a := PresenceDirty(false, true)])
  {
    var t := ApplyEvent(Alone(a, p, map[]), Scroll(a, seqno, point)).state;
    assert t.participants == map[a := Person(a, p.(scroll := Some(point), scrollSeq := Some(seqno)))];
    assert t.dirty == map[a := PresenceDirty(false, true)];
  }

  /** The first participant, who is also the viewer, has joined. */
  lemma Started(a: ParticipantId) returns (t: Trace)
    ensures t.Valid(a) && t.steps == [(Arrives(a, 1, [Listed(a, None)]), 0)] && |t.worlds| == 2
    ensures Now(t, Alone(a, EMPTY_PRESENCE, map[]), None, 0)
  {
    var snaps := [Listed(a, None)];
    assert snaps[0] in snaps;
    JoinsAlone(a);
    t := Then(a, NO_STEPS, Arrives(a, 1, snaps));
  }

  // ---- a field overtaken by another is lost ----

  /** The run: join, move, tick, scroll, tick. Delivered in order its two patches teach a view
      both fields; delivered the other way round the first is refused, and the view never
      learns the cursor the server holds. */
  lemma OvertakenFieldIsLost(a: ParticipantId, cursor: Point, scroll: Point)
    returns (t: Trace, first: OutboundMessage, second: OutboundMessage)
    ensures t.Valid(a)
    ensures DeliveryOf(t.steps, t.worlds, [first, second]) && DeliveryOf(t.steps, t.worlds, [second, first])
    ensures t.Last().session.Some? && ServerValue(t.Last().session.value, a, CursorField) == Some(cursor)
    ensures Held(DeliverAll(EMPTY_VIEW, [first, second]).participants, a, CursorField) == Some(cursor)
    ensures Held(DeliverAll(EMPTY_VIEW, [second, first]).participants, a, CursorField) == None
  {
    t, first := Moved(a, cursor);
    t, second := ThenScrolled(a, cursor, scroll, t, first);
    BothDelivered(t, 2, first, 4, second);
    TwoDeliveries(EMPTY_VIEW, first, second, a, CursorField);
    TwoDeliveries(EMPTY_VIEW, second, first, a, CursorField);
  }

  lemma BothDelivered(t: Trace, i: nat, m1: OutboundMessage, j: nat, m2: OutboundMessage)
    requires Emits(t, i, m1) && Emits(t, j, m2)
    ensures DeliveryOf(t.steps, t.worlds, [m1, m2]) && DeliveryOf(t.steps, t.worlds, [m2, m1])
  {
    assert m1.Patch? && m2.Patch?;
  }

  lemma OneDelivered(t: Trace, i: nat, m: OutboundMessage)
    requires Emits(t, i, m)
    ensures DeliveryOf(t.steps, t.worlds, [m])
  {
    assert m.Patch?;
  }

  /** Join, move, tick. */
  lemma Moved(a: ParticipantId, cursor: Point) returns (t: Trace, m: OutboundMessage)
    ensures t.Valid(a) && |t.steps| == 3 && Emits(t, 2, m) && m == Patch(1, [MovesTo(a, cursor)])
    ensures Now(t, Alone(a, At(cursor, 2), map[]), Some(SettleEntry([MovesTo(a, cursor)], 750)), 1)
  {
    var one := Started(a);
    MovesAlone(a, cursor, 2);
    var two := ThenObserves(a, one, Cursor(a, 2, cursor), Alone(a, EMPTY_PRESENCE, map[]), None, 0);
    var s := Alone(a, At(cursor, 2), map[a := PresenceDirty(true, false)]);
    CoalescesOne(s, a);
    t := ThenFlushes(a, two, 0, MovesTo(a, cursor), s, None, 0);
    m := Patch(1, [MovesTo(a, cursor)]);
  }

  /** ... scroll, tick. */
  lemma ThenScrolled(a: ParticipantId, cursor: Point, scroll: Point, t: Trace, first: OutboundMessage)
    returns (u: Trace, m: OutboundMessage)
    requires t.Valid(a) && |t.steps| == 3 && Emits(t, 2, first)
    requires Now(t, Alone(a, At(cursor, 2), map[]), Some(SettleEntry([MovesTo(a, cursor)], 750)), 1)
    ensures u.Valid(a) && |u.steps| == 5 && Emits(u, 2, first) && Emits(u, 4, m)
    ensures m == Patch(2, [ParticipantPatch(a, None, Some(scroll))])
    ensures u.Last().session.Some? && ServerValue(u.Last().session.value, a, CursorField) == Some(cursor)
  {
    var settle := Some(SettleEntry([MovesTo(a, cursor)], 750));
    ScrollsAlone(a, At(cursor, 2), scroll, 3);
    var v := ThenObserves(a, t, Scroll(a, 3, scroll), Alone(a, At(cursor, 2), map[]), settle, 1);
    var both := PresenceState(Some(cursor), Some(2), Some(scroll), Some(3));
    var s := Alone(a, both, map[a := PresenceDirty(false, true)]);
    CoalescesOne(s, a);
    u := ThenFlushes(a, v, 50, ParticipantPatch(a, None, Some(scroll)), s, settle, 1);
    m := Patch(2, [ParticipantPatch(a, None, Some(scroll))]);
    StillEmits(t, v, PresenceStep(Scroll(a, 3, scroll)), 2, first);
    StillEmits(v, u, TickStep(50, m.patches), 2, first);
  }

  /** What two patches leave of a field in a view that has accepted none before. */
  lemma TwoDeliveries(v: View, m1: OutboundMessage, m2: OutboundMessage, pid: ParticipantId, f: Field)
    requires m1.Patch? && m2.Patch? && v.lastPatchSeq.None?
    ensures var one := Overlay(Held(v.participants, pid, f), Mention(m1.patches, pid, f));
            Held(DeliverAll(v, [m1, m2]).participants, pid, f) ==
            if m2.seqno > m1.seqno then Overlay(one, Mention(m2.patches, pid, f)) else one
  {
    DeliverTwo(v, m1, m2);
    ApplyPatchesHeld(v.participants, m1.patches, pid, f);
    ApplyPatchesHeld(Deliver(v, m1).participants, m2.patches, pid, f);
  }

  // ---- a late welcome takes a view back ----

  /** The session of `a`, who has moved, and `b`, who has not. */
  function Pair(
    a: ParticipantId, p: PresenceState, b: ParticipantId, dirty: map<ParticipantId, PresenceDirty>): Session
  {
    Session("s", map[a := Person(a, p), b := Person(b, EMPTY_PRESENCE)], 0, dirty)
  }

  lemma JoinsPair(a: ParticipantId, p: PresenceState, b: ParticipantId, dirty: map<ParticipantId, PresenceDirty>)
    requires a != b
    ensures ApplyEvent(Alone(a, p, dirty), Hello(b, 1, 0)).state == Pair(a, p, b, dirty)
  {
    var t := ApplyEvent(Alone(a, p, dirty), Hello(b, 1, 0)).state;
    assert t.participants == Pair(a, p, b, dirty).participants;
  }

  lemma MovesInPair(
    a: ParticipantId, p: PresenceState, b: ParticipantId, dirty: map<ParticipantId, PresenceDirty>,
    point: Point, seqno: int)
    requires a != b && Newer(p.cursorSeq, seqno) && dirty.Keys <= {a} && (a in dirty ==> !dirty[a].scroll)
    ensures ApplyEvent(Pair(a, p, b, dirty), Cursor(a, seqno, point)).state ==
            Pair(a, p.(cursor := Some(point), cursorSeq := Some(seqno)), b, map[a := PresenceDirty(true, false)])
  {
    var t := ApplyEvent(Pair(a, p, b, dirty), Cursor(a, seqno, point)).state;
    assert t.participants[a].presence == p.(cursor := Some(point), cursorSeq := Some(seqno));
    assert t.participants == map[a := t.participants[a], b := Person(b, EMPTY_PRESENCE)];
    assert t.dirty == map[a := PresenceDirty(true, false)];
  }

  /** `a` joins and moves. */
  lemma MovesUnseen(a: ParticipantId, b: ParticipantId, point: Point) returns (t: Trace)
    requires a != b
    ensures t.Valid(b) && |t.steps| == 2 && |t.worlds| == 3 && t.Last().view == EMPTY_VIEW
    ensures t.Last().session == Some(Alone(a, At(point, 2), map[a := PresenceDirty(true, false)]))
    ensures t.Last().settle == None && t.Last().seqno == 0
  {
    var alone := [Listed(a, None)];
    assert alone[0] in alone;
    JoinsAlone(a);
    t := Then(b, NO_STEPS, Arrives(a, 1, alone));
    MovesAlone(a, point, 2);
    t := Then(b, t, PresenceStep(Cursor(a, 2, point)));
  }

  lemma PairListed(a: ParticipantId, p: PresenceState, b: ParticipantId, dirty: map<ParticipantId, PresenceDirty>)
    requires a != b && p.scroll.None?
    ensures ListsRoster(Pair(a, p, b, dirty), [Listed(a, p.cursor), Listed(b, None)])
  {
    var snaps := [Listed(a, p.cursor), Listed(b, None)];
    assert snaps[0] in snaps && snaps[1] in snaps;
  }

  /** `a` joins and moves, and `b` joins and is sent a welcome. */
  lemma MovedAndWelcomed(a: ParticipantId, b: ParticipantId, point: Point) returns (t: Trace)
    requires a != b
    ensures t.Valid(b) && |t.steps| == 3 && |t.worlds| == 4
    ensures t.steps[2].0 == Arrives(b, 1, [Listed(a, Some(point)), Listed(b, None)])
    ensures Now(t, Pair(a, At(point, 2), b, map[a := PresenceDirty(true, false)]), None, 0)
    ensures t.Last().view == Deliver(EMPTY_VIEW, Welcome([Listed(a, Some(point)), Listed(b, None)]))
  {
    var dirty := map[a := PresenceDirty(true, false)];
    var one := MovesUnseen(a, b, point);
    JoinsPair(a, At(point, 2), b, dirty);
    PairListed(a, At(point, 2), b, dirty);
    t := Then(b, one, Arrives(b, 1, [Listed(a, Some(point)), Listed(b, None)]));
  }

  /** The run: `a` joins and moves, `b` joins and is sent a welcome, `a` moves on, tick. When the
      patch arrives first and the welcome after it, `b` goes back from where `a` is to where it
      was. */
  lemma LateWelcomeOverwrites(a: ParticipantId, b: ParticipantId, was: Point, now: Point)
    returns (t: Trace, m: OutboundMessage)
    requires a != b
    ensures t.Valid(b) && |t.steps| == 5 && t.steps[2].0.HelloStep? && DeliveryOf(t.steps, t.worlds, [m])
    ensures t.Last().session.Some? && ServerValue(t.Last().session.value, a, CursorField) == Some(now)
    ensures var welcome := Welcome(t.steps[2].0.snaps);
            && Held(DeliverAll(EMPTY_VIEW, [m]).participants, a, CursorField) == Some(now)
            && Held(DeliverAll(EMPTY_VIEW, [m, welcome]).participants, a, CursorField) == Some(was)
  {
    var one := MovedAndWelcomed(a, b, was);
    t, m := MovesOn(a, b, was, now, one);
    OneDelivered(t, 4, m);
    assert t.steps[2] == one.steps[2];
    PatchThenWelcome(a, was, now, [Listed(a, Some(was)), Listed(b, None)]);
  }

  lemma MovesOnUnsent(a: ParticipantId, b: ParticipantId, was: Point, now: Point, t: Trace) returns (u: Trace)
    requires a != b && t.Valid(b) && |t.steps| == 3
    requires Now(t, Pair(a, At(was, 2), b, map[a := PresenceDirty(true, false)]), None, 0)
    ensures u.Valid(b) && |u.steps| == 4 && u.steps[2] == t.steps[2]
    ensures Now(u, Pair(a, At(now, 3), b, map[a := PresenceDirty(true, false)]), None, 0)
  {
    var dirty, move := map[a := PresenceDirty(true, false)], Cursor(a, 3, now);
    MovesInPair(a, At(was, 2), b, dirty, now, 3);
    u := ThenObserves(b, t, move, Pair(a, At(was, 2), b, dirty), None, 0);
    StepStays(t, u, PresenceStep(move), 2);
  }

  /** What a tick sends of a pair when one of them has moved. */
  lemma MoveInPair(a: ParticipantId, p: PresenceState, b: ParticipantId, point: Point)
    requires a != b && p.cursor == Some(point)
    ensures Coalesces(Pair(a, p, b, map[a := PresenceDirty(true, false)]), [MovesTo(a, point)])
  {
    CoalescesOne(Pair(a, p, b, map[a := PresenceDirty(true, false)]), a);
  }

  lemma MovesOn(a: ParticipantId, b: ParticipantId, was: Point, now: Point, t: Trace)
    returns (u: Trace, m: OutboundMessage)
    requires a != b && t.Valid(b) && |t.steps| == 3
    requires Now(t, Pair(a, At(was, 2), b, map[a := PresenceDirty(true, false)]), None, 0)
    ensures u.Valid(b) && |u.steps| == 5 && u.steps[2] == t.steps[2]
    ensures m == Patch(1, [MovesTo(a, now)]) && Emits(u, 4, m)
    ensures u.Last().session == Some(Pair(a, At(now, 3), b, map[a := PresenceDirty(true, false)]).(dirty := map[]))
  {
    hide Enabled, Next, ApplyEvent, ListsRoster, IsRun, TickSession, Emission;
    var v := MovesOnUnsent(a, b, was, now, t);
    var s := Pair(a, At(now, 3), b, map[a := PresenceDirty(true, false)]);
    MoveInPair(a, At(now, 3), b, now);
    u := ThenFlushes(b, v, 0, MovesTo(a, now), s, None, 0);
    m := Patch(1, [MovesTo(a, now)]);
    StepStays(v, u, TickStep(0, [MovesTo(a, now)]), 2);
  }

  lemma PatchThenWelcome(a: ParticipantId, was: Point, now: Point, snaps: seq<ParticipantSnapshot>)
    requires |snaps| == 2 && snaps[0] == Listed(a, Some(was)) && snaps[1].pid != a
    ensures var m := Patch(1, [MovesTo(a, now)]);
            && Held(DeliverAll(EMPTY_VIEW, [m]).participants, a, CursorField) == Some(now)
            && Held(DeliverAll(EMPTY_VIEW, [m, Welcome(snaps)]).participants, a, CursorField) == Some(was)
  {
    var m := Patch(1, [MovesTo(a, now)]);
    DeliverTwo(EMPTY_VIEW, m, Welcome(snaps));
    ApplyPatchesHeld(map[], m.patches, a, CursorField);
    UpsertAllHeld(map[], snaps, a, CursorField);
    assert snaps[..1] == [Listed(a, Some(was))];
  }

  // ---- a resend brings back the departed ----

  lemma GoneAgain(a: ParticipantId, b: ParticipantId, point: Point) returns (t: Trace)
    requires a != b
    ensures t.Valid(b) && |t.steps| == 5 && |t.worlds| == 6 && t.steps[4].0 == DepartStep(a)
    ensures a !in t.Last().view.participants && t.Last().connected && t.Last().session.Some?
    ensures a !in t.Last().session.value.participants && t.Last().session.value.dirty == map[]
    ensures t.Last().settle == Some(SettleEntry([MovesTo(a, point)], 750))
  {
    var one := MovedAndWelcomed(a, b, point);
    var s := Pair(a, At(point, 2), b, map[a := PresenceDirty(true, false)]);
    CoalescesOne(s, a);
    var two := ThenFlushes(b, one, 0, MovesTo(a, point), s, None, 0);
    t := ThenDeparts(a, b, two, s.(dirty := map[]), Some(SettleEntry([MovesTo(a, point)], 750)), 1);
  }

  /** The run: `a` joins and moves, `b` joins, tick, `a` leaves, tick within 750 ms. The view of
      `b` has let `a` go, and holds it again: in the default colour, and not in the session. */
  lemma DepartedReappears(a: ParticipantId, b: ParticipantId, point: Point) returns (t: Trace)
    requires a != b
    ensures t.Valid(b) && |t.steps| == 6 && t.steps[4].0 == DepartStep(a) && t.steps[5].0.TickStep?
    ensures a !in t.worlds[5].view.participants
    ensures t.Last().session.Some? && a !in t.Last().session.value.participants
    ensures a in t.Last().view.participants && t.Last().view.participants[a].color == DEFAULT_COLOR
  {
    var three := GoneAgain(a, b, point);
    t := Then(b, three, TickStep(50, []));
    assert t.worlds[5] == three.Last();
    assert Names([MovesTo(a, point)], a) by { assert [MovesTo(a, point)][0] in [MovesTo(a, point)]; }
    DepartedReappearsIff(b, t.steps, t.worlds, 5, a);
  }

  lemma ThenDeparts(
    a: ParticipantId, b: ParticipantId, t: Trace, s: Session, settle: Option<SettleEntry>, seqno: nat)
    returns (u: Trace)
    requires a != b && t.Valid(b) && Now(t, s, settle, seqno) && a in s.participants
    ensures u.Valid(b) && Extends(t, u, DepartStep(a))
    ensures Now(u, RemoveParticipant(s, a), settle, seqno) && a !in u.Last().view.participants
  {
    u := Then(b, t, DepartStep(a));
    RepeatsChangeNothing(t.Last().view, Leave(a), 0);
    RemovalKeepsAgreement(s, a, map[]);
  }

  // ---- SDK and simulation part at a reseed ----

  /** Someone not in the session, or in it already and seen at 0, says hello. */
  lemma ThenArrives(
    viewer: ParticipantId, t: Trace, pid: ParticipantId, seqno: int, snaps: seq<ParticipantSnapshot>, s: Session,
    s': Session,
    settle: Option<SettleEntry>, ticks: nat)
    returns (u: Trace)
    requires t.Valid(viewer) && Now(t, s, settle, ticks)
    requires ApplyEvent(s, Hello(pid, seqno, 0)).state == s' && ListsRoster(s', snaps)
    ensures u.Valid(viewer) && Extends(t, u, Arrives(pid, seqno, snaps)) && Now(u, s', settle, ticks)
  {
    u := Then(viewer, t, Arrives(pid, seqno, snaps));
  }

  lemma RejoinsPair(a: ParticipantId, p: PresenceState, b: ParticipantId)
    requires a != b
    ensures var gone := RemoveParticipant(Pair(a, p, b, map[a := PresenceDirty(true, false)]), a);
            && ApplyEvent(gone, Hello(a, 4, 0)).state == Pair(a, EMPTY_PRESENCE, b, map[])
            && ApplyEvent(Pair(a, EMPTY_PRESENCE, b, map[]), Hello(b, 5, 0)).state == Pair(a, EMPTY_PRESENCE, b, map[])
            && ListsRoster(Pair(a, EMPTY_PRESENCE, b, map[]), [Listed(a, None), Listed(b, None)])
  {
    var gone := RemoveParticipant(Pair(a, p, b, map[a := PresenceDirty(true, false)]), a);
    assert gone.participants == map[b := Person(b, EMPTY_PRESENCE)] && gone.dirty == map[];
    assert ApplyEvent(gone, Hello(a, 4, 0)).state.participants == Pair(a, EMPTY_PRESENCE, b, map[]).participants;
    var again := ApplyEvent(Pair(a, EMPTY_PRESENCE, b, map[]), Hello(b, 5, 0)).state;
    assert again.participants == Pair(a, EMPTY_PRESENCE, b, map[]).participants;
    var snaps := [Listed(a, None), Listed(b, None)];
    assert snaps[0] in snaps && snaps[1] in snaps;
  }

  /** The run: `a` joins and moves, `b` is welcomed; `a` leaves and joins again, unheard by `b`,
      who says hello again and is sent a second welcome. The SDK of `b` keeps the old cursor of
      `a`; the simulation has none, like the server. */
  lemma ReseedParts(a: ParticipantId, b: ParticipantId, point: Point, clocks: seq<Sdk.Clock>) returns (t: Trace)
    requires a != b && |clocks| == 2
    ensures t.Valid(b) && |t.steps| == 6 && t.steps[2].0.HelloStep? && t.steps[5].0.HelloStep?
    ensures t.Last().session.Some? && ServerValue(t.Last().session.value, a, CursorField) == None
    ensures var msgs := [Welcome(t.steps[2].0.snaps), Welcome(t.steps[5].0.snaps)];
            var client := Sdk.RouteAll(Sdk.ClientState(map[], None), b, msgs, clocks);
            && a in client.remotes && client.remotes[a].Get(CursorField) == Some(point)
            && Held(DeliverAll(EMPTY_VIEW, msgs).participants, a, CursorField) == None
  {
    var one := MovedAndWelcomed(a, b, point);
    var s := Pair(a, At(point, 2), b, map[a := PresenceDirty(true, false)]);
    var two := ThenDeparts(a, b, one, s, None, 0);
    RejoinsPair(a, At(point, 2), b);
    var snaps := [Listed(a, None), Listed(b, None)];
    var back := Pair(a, EMPTY_PRESENCE, b, map[]);
    var three := ThenArrives(b, two, a, 4, snaps, RemoveParticipant(s, a), back, None, 0);
    t := ThenArrives(b, three, b, 5, snaps, back, back, None, 0);
    assert t.steps[2] == three.steps[2] == two.steps[2] == one.steps[2];
    TwoWelcomes(a, b, point, clocks);
  }

  lemma TwoWelcomes(a: ParticipantId, b: ParticipantId, point: Point, clocks: seq<Sdk.Clock>)
    requires a != b && |clocks| == 2
    ensures var msgs := [Welcome([Listed(a, Some(point)), Listed(b, None)]),
        Welcome([Listed(a, None), Listed(b, None)])];
            var client := Sdk.RouteAll(Sdk.ClientState(map[], None), b, msgs, clocks);
            && a in client.remotes && client.remotes[a].Get(CursorField) == Some(point)
            && Held(DeliverAll(EMPTY_VIEW, msgs).participants, a, CursorField) == None
  {
    var first, second := [Listed(a, Some(point)), Listed(b, None)], [Listed(a, None), Listed(b, None)];
    var c0 := Sdk.ClientState(map[], None);
    var c1 := Sdk.Route(c0, b, Welcome(first), clocks[0]);
    RouteTwo(c0, b, Welcome(first), Welcome(second), clocks);
    RemoteSeeded(map[], a, b, Some(point), clocks[0]);
    RemoteSeeded(c1.remotes, a, b, None, clocks[1]);
    DeliverTwo(EMPTY_VIEW, Welcome(first), Welcome(second));
    UpsertAllHeld(map[], second, a, CursorField);
    SnapshotMentionIn(second, a, CursorField);
  }

  lemma DeliverTwo(v: View, m1: OutboundMessage, m2: OutboundMessage)
    ensures DeliverAll(v, [m1]) == Deliver(v, m1) && DeliverAll(v, [m1, m2]) == Deliver(Deliver(v, m1), m2)
  {
    assert [m1, m2][..1] == [m1] && [m1][..0] == [];
  }

  lemma RouteTwo(
    c: Sdk.ClientState, self: ParticipantId, m1: OutboundMessage, m2: OutboundMessage, clocks: seq<Sdk.Clock>)
    requires |clocks| == 2
    ensures Sdk.RouteAll(c, self, [m1, m2], clocks) == Sdk.Route(Sdk.Route(c, self, m1, clocks[0]), self, m2, clocks[1])
  {
    assert [m1, m2][..1] == [m1] && [m1][..0] == [];
    assert Sdk.RouteAll(c, self, [m1], clocks[..1]) == Sdk.Route(c, self, m1, clocks[0]);
  }

  /** What a reseed leaves of `a` in the remotes of `b`. */
  lemma RemoteSeeded(remotes: Sdk.Remotes, a: ParticipantId, b: ParticipantId, cursor: Option<Point>, clock: Sdk.Clock)
    requires a != b && b !in remotes
    ensures var after := Sdk.SeedRoster(remotes, b, [Listed(a, cursor), Listed(b, None)], clock);
            && a in after && b !in after
            && after[a].Get(CursorField) ==
               if cursor.Some? then cursor else if a in remotes then remotes[a].Get(CursorField) else None
  {
    var snaps := [Listed(a, cursor), Listed(b, None)];
    assert snaps[0] in snaps && snaps[1] in snaps;
    assert snaps[..1] == [snaps[0]] && [snaps[0]][..0] == [];
    var kept := map pid | pid in remotes && pid in Sdk.PidsOf(snaps) :: remotes[pid];
    assert Sdk.UpsertRemotes(kept, b, snaps[..1], clock) == Sdk.UpsertRemote(kept, b, snaps[0], clock(0));
  }
}
