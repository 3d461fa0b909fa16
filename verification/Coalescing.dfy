/** Coalescing refines forwarding: over every run of one session on a network that loses
    and reorders nothing, a view fed by ticks agrees with one fed event by event. */
module Coalescing {
  import opened Wrappers
  import opened Protocol
  import opened Presence
  import opened Receiver
  import opened Scheduler
  import PatchHistory

  /** One session as the server holds it, and one of its participants, `viewer`, as a
      recipient: what it rebuilds from welcome, join, leave and patch messages, and what it
      would rebuild if each accepted event were forwarded on its own instead. */
  datatype World = World(
    session: Option<Session>,
    settle: Option<SettleEntry>,
    seqno: nat,
    connected: bool,
    view: View,
    forwarded: Roster)

  const INITIAL := World(None, None, 0, false, EMPTY_VIEW, map[])

  /** `snaps`, `patches` and `gone` are the orders in which the server's Maps iterate. */
  datatype Step =
    | HelloStep(e: InboundMessage, sid: SessionId, now: int, snaps: seq<ParticipantSnapshot>)
    | PresenceStep(e: InboundMessage)
    | DepartStep(pid: ParticipantId)
    | ReapStep(gone: seq<ParticipantId>)
    | TickStep(now: int, patches: seq<ParticipantPatch>)

  /** Every message is delivered 1 + `repeats` times, in order. */
  function DeliverRepeated(v: View, m: OutboundMessage, repeats: nat): View {
    if repeats == 0 then Deliver(v, m) else Deliver(DeliverRepeated(v, m, repeats - 1), m)
  }

  lemma {:induction false} RepeatsChangeNothing(v: View, m: OutboundMessage, repeats: nat)
    ensures DeliverRepeated(v, m, repeats) == Deliver(v, m)
  {
    if repeats > 0 {
      RepeatsChangeNothing(v, m, repeats - 1);
      PatchHistory.DeliverTwice(v, m);
    }
  }

  function BeforeHello(w: World, sid: SessionId, now: int): Session {
    if w.session.Some? then w.session.value else CreateSession(sid, now)
  }

  function AfterHello(w: World, e: InboundMessage, sid: SessionId, now: int): Session
    requires e.Hello?
  {
    ApplyEvent(BeforeHello(w, sid, now), e).state
  }

  ghost predicate Enabled(w: World, step: Step) {
    match step
    case HelloStep(e, sid, now, snaps) => e.Hello? && ListsRoster(AfterHello(w, e, sid, now), snaps)
    case PresenceStep(e) => e.Cursor? || e.Scroll?
    case DepartStep(_) => true
    case ReapStep(_) => true
    case TickStep(_, patches) => w.session.Some? ==> Coalesces(w.session.value, patches)
  }

  function Depart(w: World, viewer: ParticipantId, pid: ParticipantId, repeats: nat): World {
    var gone := if w.session.Some? && pid in w.session.value.participants
                then w.(session := Some(RemoveParticipant(w.session.value, pid))) else w;
    if pid == viewer then gone.(connected := false)
    else if w.connected && gone.session != w.session then
      gone.(view := DeliverRepeated(w.view, Leave(pid), repeats), forwarded := w.forwarded - {pid})
    else gone
  }

  function DepartEach(w: World, viewer: ParticipantId, gone: seq<ParticipantId>, repeats: nat): World {
    if |gone| == 0 then w
    else Depart(DepartEach(w, viewer, gone[..|gone| - 1], repeats), viewer, gone[|gone| - 1], repeats)
  }

  /** The event as a patch of its own. */
  function Forward(ps: Roster, e: InboundMessage): Roster
    requires e.Cursor? || e.Scroll?
  {
    ApplyPatch(ps, if e.Cursor? then ParticipantPatch(e.pid, Some(e.point), None)
        else ParticipantPatch(e.pid, None, Some(e.point)))
  }

  function Next(w: World, viewer: ParticipantId, step: Step, repeats: nat): World
    requires step.HelloStep? ==> step.e.Hello?
    requires step.PresenceStep? ==> step.e.Cursor? || step.e.Scroll?
  {
    match step
    case HelloStep(e, sid, now, snaps) =>
      var s := AfterHello(w, e, sid, now);
      var isNew := w.session.None? || e.pid !in w.session.value.participants;
      if e.pid == viewer then
        w.(session := Some(s), connected := true,
           view := DeliverRepeated(w.view, Welcome(snaps), repeats), forwarded := UpsertAll(map[], snaps))
      else if w.connected && isNew then
        var join := JoinOf(s.participants[e.pid]);
        w.(session := Some(s),
           view := DeliverRepeated(w.view, join, repeats), forwarded := Upsert(w.forwarded, join.participant))
      else w.(session := Some(s))
    case PresenceStep(e) =>
      if w.session.None? then w else
      var r := ApplyEvent(w.session.value, e);
      w.(session := Some(r.state),
         forwarded := if w.connected && (r.changed.cursor || r.changed.scroll) then Forward(w.forwarded, e)
                      else w.forwarded)
    case DepartStep(pid) => Depart(w, viewer, pid, repeats)
    case ReapStep(gone) =>
      var after := DepartEach(w, viewer, gone, repeats);
      if after.session.Some? && after.session != w.session && IsEmpty(after.session.value)
      then after.(session := None) else after
    case TickStep(now, patches) =>
      if w.session.None? then w.(seqno := w.seqno + 1) else
      var r := TickSession(w.session.value, w.settle, w.seqno + 1, now, patches);
      w.(session := Some(r.session), settle := r.settle, seqno := w.seqno + 1,
         view := if w.connected && r.out.Some? then DeliverRepeated(w.view, r.out.value, repeats) else w.view)
  }

  /** What a step broadcasts to the session's participants: a tick's patch, if it has one. */
  function Broadcasts(w: World, step: Step): Option<OutboundMessage> {
    if step.TickStep? && w.session.Some?
    then TickSession(w.session.value, w.settle, w.seqno + 1, step.now, step.patches).out else None
  }

  // ---- the invariant ----

  /** The view holds every value the server has and is not about to send. */
  ghost predicate Agrees(s: Session, ps: Roster) {
    forall pid, f: Field | ServerValue(s, pid, f).Some? && !s.IsDirty(pid, f) ::
      Held(ps, pid, f) == ServerValue(s, pid, f)
  }

  /** The event-by-event view holds every value the server has. */
  ghost predicate AgreesFully(s: Session, ps: Roster) {
    forall pid, f: Field | ServerValue(s, pid, f).Some? :: Held(ps, pid, f) == ServerValue(s, pid, f)
  }

  ghost predicate Invariant(w: World) {
    && (w.view.lastPatchSeq.Some? ==> w.view.lastPatchSeq.value <= w.seqno)
    && (w.session.Some? ==>
          && WellFormed(w.session.value)
          && SettleSound(w.session.value, w.settle)
          && (w.connected ==>
              Agrees(w.session.value, w.view.participants) && AgreesFully(w.session.value, w.forwarded)))
  }

  /** A welcome leaves for each field what the roster holds. */
  lemma WelcomeCarries(s: Session, snaps: seq<ParticipantSnapshot>, pid: ParticipantId, f: Field)
    requires ListsRoster(s, snaps)
    ensures Held(UpsertAll(map[], snaps), pid, f) == ServerValue(s, pid, f)
  {
    UpsertAllHeld(map[], snaps, pid, f);
    SnapshotMentionIn(snaps, pid, f);
    if pid in s.participants {
      var snap :| snap in snaps && snap.pid == pid;
      assert snap.Get(f) == ServerValue(s, pid, f);
    }
  }

  lemma WelcomeAgrees(s: Session, snaps: seq<ParticipantSnapshot>)
    requires ListsRoster(s, snaps)
    ensures AgreesFully(s, UpsertAll(map[], snaps))
  {
    forall pid, f: Field { WelcomeCarries(s, snaps, pid, f); }
  }

  /** A hello changes no value and no dirty mark. */
  lemma HelloKeepsValues(s: Session, e: InboundMessage)
    requires e.Hello?
    ensures var t := ApplyEvent(s, e).state;
            forall pid, f: Field ::
                ServerValue(t, pid, f) == ServerValue(s, pid, f) && (t.IsDirty(pid, f) <==> s.IsDirty(pid, f))
  {
  }

  /** A join carries no values, so what a view holds stays. */
  lemma JoinKeepsHeld(ps: Roster, join: ParticipantSnapshot)
    requires join.cursor.None? && join.scroll.None?
    ensures forall pid, f: Field :: Held(Upsert(ps, join), pid, f) == Held(ps, pid, f)
  {
  }

  lemma HelloKeeps(w: World, viewer: ParticipantId, step: Step, repeats: nat)
    requires Invariant(w) && Enabled(w, step) && step.HelloStep?
    ensures Invariant(Next(w, viewer, step, repeats))
  {
    var before := BeforeHello(w, step.sid, step.now);
    var s := AfterHello(w, step.e, step.sid, step.now);
    EventKeepsWellFormed(before, step.e);
    EventKeepsSettleSound(before, w.settle, step.e);
    if step.e.pid == viewer {
      RepeatsChangeNothing(w.view, Welcome(step.snaps), repeats);
      WelcomeAgrees(s, step.snaps);
    } else {
      HelloKeepsValues(before, step.e);
      if w.connected && step.e.pid !in before.participants {
        var join := JoinOf(s.participants[step.e.pid]);
        RepeatsChangeNothing(w.view, join, repeats);
        JoinKeepsHeld(w.view.participants, join.participant);
        JoinKeepsHeld(w.forwarded, join.participant);
      }
    }
  }

  /** One event, forwarded on its own, keeps the event-by-event view full; the coalesced view
      lacks only what the event has just made dirty. */
  lemma EventKeepsAgreement(
    s: Session, e: InboundMessage, view: Roster, forwarded: Roster, pid: ParticipantId, f: Field)
    requires (e.Cursor? || e.Scroll?) && Agrees(s, view) && AgreesFully(s, forwarded)
    requires ServerValue(ApplyEvent(s, e).state, pid, f).Some?
    ensures var r := ApplyEvent(s, e);
            && (!r.state.IsDirty(pid, f) ==> Held(view, pid, f) == ServerValue(r.state, pid, f))
            && Held(if r.changed.cursor || r.changed.scroll then Forward(forwarded, e) else forwarded, pid, f)
               == ServerValue(r.state, pid, f)
  {
    if pid in s.participants { ApplyPresenceEvent(s, e, pid, f); }
    if ServerValue(s, pid, f).Some? { assert Held(forwarded, pid, f) == ServerValue(s, pid, f); }
  }

  lemma PresenceKeeps(w: World, viewer: ParticipantId, step: Step, repeats: nat)
    requires Invariant(w) && Enabled(w, step) && step.PresenceStep?
    ensures Invariant(Next(w, viewer, step, repeats))
  {
    if w.session.Some? {
      var s, e := w.session.value, step.e;
      EventKeepsWellFormed(s, e);
      EventKeepsSettleSound(s, w.settle, e);
      if w.connected {
        forall pid, f: Field | ServerValue(ApplyEvent(s, e).state, pid, f).Some? {
          EventKeepsAgreement(s, e, w.view.participants, w.forwarded, pid, f);
        }
      }
    }
  }

  /** Server and view lose the same participant and nothing else. */
  lemma RemovalKeepsAgreement(s: Session, pid: ParticipantId, ps: Roster)
    ensures Agrees(s, ps) ==> Agrees(RemoveParticipant(s, pid), ps - {pid})
    ensures AgreesFully(s, ps) ==> AgreesFully(RemoveParticipant(s, pid), ps - {pid})
    ensures pid in s.participants ==> RemoveParticipant(s, pid) != s
  {
    var t := RemoveParticipant(s, pid);
    forall q, f: Field | q != pid
      ensures ServerValue(t, q, f) == ServerValue(s, q, f) && (t.IsDirty(q, f) <==> s.IsDirty(q, f))
      ensures Held(ps - {pid}, q, f) == Held(ps, q, f)
    {
    }
    assert pid !in t.participants;
  }

  lemma DepartKeeps(w: World, viewer: ParticipantId, pid: ParticipantId, repeats: nat)
    requires Invariant(w)
    ensures Invariant(Depart(w, viewer, pid, repeats))
  {
    if w.session.Some? && pid in w.session.value.participants {
      var s := w.session.value;
      assert ApplyEvent(s, Bye(pid, 0)).state == RemoveParticipant(s, pid);
      EventKeepsWellFormed(s, Bye(pid, 0));
      EventKeepsSettleSound(s, w.settle, Bye(pid, 0));
      RemovalKeepsAgreement(s, pid, w.view.participants);
      RemovalKeepsAgreement(s, pid, w.forwarded);
      RepeatsChangeNothing(w.view, Leave(pid), repeats);
    }
  }

  lemma {:induction false} DepartEachKeeps(w: World, viewer: ParticipantId, gone: seq<ParticipantId>, repeats: nat)
    requires Invariant(w)
    ensures Invariant(DepartEach(w, viewer, gone, repeats))
  {
    if |gone| > 0 {
      DepartEachKeeps(w, viewer, gone[..|gone| - 1], repeats);
      DepartKeeps(DepartEach(w, viewer, gone[..|gone| - 1], repeats), viewer, gone[|gone| - 1], repeats);
    }
  }

  /** The message of a tick moves the view to the server's values: a flush carries what was
      dirty, and a resend carries nothing the view should not already hold. */
  lemma TickAgrees(w: World, now: int, patches: seq<ParticipantPatch>, pid: ParticipantId, f: Field)
    requires Invariant(w) && w.connected && w.session.Some? && Coalesces(w.session.value, patches)
    requires ServerValue(w.session.value, pid, f).Some?
    ensures var r := TickSession(w.session.value, w.settle, w.seqno + 1, now, patches);
            var view := if r.out.Some? then Deliver(w.view, r.out.value) else w.view;
            Held(view.participants, pid, f) == ServerValue(w.session.value, pid, f)
  {
    var s := w.session.value;
    if |patches| > 0 {
      ApplyPatchesHeld(w.view.participants, patches, pid, f);
      MentionIn(patches, pid, f);
      if s.IsDirty(pid, f) {
        var p :| p in patches && p.pid == pid;
        assert p.Get(f) == ServerValue(s, pid, f);
      }
    } else {
      assert forall p | p in s.dirty :: false;
      if w.settle.Some? {
        ApplyPatchesHeld(w.view.participants, w.settle.value.patches, pid, f);
        MentionIn(w.settle.value.patches, pid, f);
      }
    }
  }

  /** The four fields a tick leaves. */
  lemma TickFields(w: World, viewer: ParticipantId, step: Step, repeats: nat)
    requires Invariant(w) && Enabled(w, step) && step.TickStep? && w.connected && w.session.Some?
    ensures var r := TickSession(w.session.value, w.settle, w.seqno + 1, step.now, step.patches);
            var after := Next(w, viewer, step, repeats);
            && after.session == Some(r.session) && r.session.participants == w.session.value.participants
            && after.connected && after.forwarded == w.forwarded
            && after.view == (if r.out.Some? then Deliver(w.view, r.out.value) else w.view)
            && after.view.participants == if r.out.Some? then ApplyPatches(w.view.participants, r.out.value.patches)
                                          else w.view.participants
  {
    var r := TickSession(w.session.value, w.settle, w.seqno + 1, step.now, step.patches);
    if r.out.Some? { RepeatsChangeNothing(w.view, r.out.value, repeats); }
  }

  /** After a tick the view of a connected participant lacks nothing. */
  lemma TickFills(w: World, now: int, patches: seq<ParticipantPatch>)
    requires Invariant(w) && w.connected && w.session.Some? && Coalesces(w.session.value, patches)
    ensures var r := TickSession(w.session.value, w.settle, w.seqno + 1, now, patches);
            var view := if r.out.Some? then Deliver(w.view, r.out.value) else w.view;
            AgreesFully(r.session, view.participants)
  {
    var r := TickSession(w.session.value, w.settle, w.seqno + 1, now, patches);
    var view := if r.out.Some? then Deliver(w.view, r.out.value) else w.view;
    forall pid, f: Field | ServerValue(r.session, pid, f).Some?
      ensures Held(view.participants, pid, f) == ServerValue(r.session, pid, f)
    {
      assert ServerValue(r.session, pid, f) == ServerValue(w.session.value, pid, f);
      TickAgrees(w, now, patches, pid, f);
    }
  }

  lemma SameValuesAgree(s: Session, t: Session, ps: Roster)
    requires AgreesFully(s, ps) && t.participants == s.participants
    ensures AgreesFully(t, ps)
  {
    assert forall pid, f: Field :: ServerValue(t, pid, f) == ServerValue(s, pid, f);
  }

  lemma TickKeepsConnected(w: World, viewer: ParticipantId, step: Step, repeats: nat)
    requires Invariant(w) && Enabled(w, step) && step.TickStep? && w.connected && w.session.Some?
    ensures var after := Next(w, viewer, step, repeats);
            && after.session.Some?
            && AgreesFully(after.session.value, after.view.participants)
            && AgreesFully(after.session.value, after.forwarded)
  {
    TickFields(w, viewer, step, repeats);
    TickFills(w, step.now, step.patches);
    SameValuesAgree(w.session.value, Next(w, viewer, step, repeats).session.value, w.forwarded);
  }

  lemma TickKeeps(w: World, viewer: ParticipantId, step: Step, repeats: nat)
    requires Invariant(w) && Enabled(w, step) && step.TickStep?
    ensures var w' := Next(w, viewer, step, repeats);
            Invariant(w') && (w'.connected && w'.session.Some? ==> AgreesFully(w'.session.value, w'.view.participants))
  {
    if w.session.Some? {
      TickKeepsInvariants(w.session.value, w.settle, w.seqno + 1, step.now, step.patches);
      if w.connected {
        TickKeepsConnected(w, viewer, step, repeats);
        TickFields(w, viewer, step, repeats);
      }
    }
  }

  lemma StepKeeps(w: World, viewer: ParticipantId, step: Step, repeats: nat)
    requires Invariant(w) && Enabled(w, step)
    ensures Invariant(Next(w, viewer, step, repeats))
  {
    match step {
      case HelloStep(_, _, _, _) => HelloKeeps(w, viewer, step, repeats);
      case PresenceStep(_) => PresenceKeeps(w, viewer, step, repeats);
      case DepartStep(pid) => DepartKeeps(w, viewer, pid, repeats);
      case ReapStep(gone) => DepartEachKeeps(w, viewer, gone, repeats);
      case TickStep(_, _) => TickKeeps(w, viewer, step, repeats);
    }
  }

  // ---- runs ----

  /** `worlds` are the states of a run, each message delivered at least once and in order. */
  ghost predicate IsRun(viewer: ParticipantId, steps: seq<(Step, nat)>, worlds: seq<World>) {
    && |worlds| == |steps| + 1
    && worlds[0] == INITIAL
    && forall i {:trigger steps[i]} | 0 <= i < |steps| ::
         Enabled(worlds[i], steps[i].0) && worlds[i + 1] == Next(worlds[i], viewer, steps[i].0, steps[i].1)
  }

  lemma {:induction false} RunKeepsInvariant(viewer: ParticipantId, steps: seq<(Step, nat)>, worlds: seq<World>, i: nat)
    requires IsRun(viewer, steps, worlds) && i <= |steps|
    ensures Invariant(worlds[i])
  {
    if i > 0 {
      RunKeepsInvariant(viewer, steps, worlds, i - 1);
      StepKeeps(worlds[i - 1], viewer, steps[i - 1].0, steps[i - 1].1);
    }
  }

  /** At every point of every run the coalesced view of a connected participant holds each
      cursor and scroll value of each present participant, except those still dirty, and
      the event-by-event view holds them all. */
  lemma CoalescedViewLagsOnlyDirty(viewer: ParticipantId, steps: seq<(Step, nat)>, worlds: seq<World>, i: nat)
    requires IsRun(viewer, steps, worlds) && i <= |steps|
    requires worlds[i].connected && worlds[i].session.Some?
    ensures Agrees(worlds[i].session.value, worlds[i].view.participants)
    ensures AgreesFully(worlds[i].session.value, worlds[i].forwarded)
  {
    RunKeepsInvariant(viewer, steps, worlds, i);
  }

  /** After every tick of every run the two views agree on every value the server holds:
      between ticks coalescing may lag, at a tick it has caught up with plain forwarding. */
  lemma CoalescingRefinesForwarding(
    viewer: ParticipantId, steps: seq<(Step, nat)>, worlds: seq<World>, i: nat, pid: ParticipantId, f: Field)
    requires IsRun(viewer, steps, worlds) && i < |steps| && steps[i].0.TickStep?
    requires var w := worlds[i + 1];
             w.connected && w.session.Some? && ServerValue(w.session.value, pid, f).Some?
    ensures var w := worlds[i + 1];
            Held(w.view.participants, pid, f) == ServerValue(w.session.value, pid, f) == Held(w.forwarded, pid, f)
  {
    RunKeepsInvariant(viewer, steps, worlds, i);
    RunKeepsInvariant(viewer, steps, worlds, i + 1);
    TickKeeps(worlds[i], viewer, steps[i].0, steps[i].1);
  }

  /** At every point of every run each value waiting to be resent is the server's current one,
      unless its field is dirty again, has no value, or its participant is gone. */
  lemma SettleEntriesAreSound(viewer: ParticipantId, steps: seq<(Step, nat)>, worlds: seq<World>, i: nat)
    requires IsRun(viewer, steps, worlds) && i <= |steps| && worlds[i].session.Some?
    ensures SettleSound(worlds[i].session.value, worlds[i].settle)
  {
    RunKeepsInvariant(viewer, steps, worlds, i);
  }

  /** So a resend never moves a value backwards: an up-to-date view keeps every value the
      server holds. */
  lemma ResendMovesNothing(
    viewer: ParticipantId, steps: seq<(Step, nat)>, worlds: seq<World>, i: nat, pid: ParticipantId, f: Field)
    requires IsRun(viewer, steps, worlds) && i < |steps| && steps[i].0.TickStep? && steps[i].0.patches == []
    requires worlds[i].connected && worlds[i].session.Some? && ServerValue(worlds[i].session.value, pid, f).Some?
    ensures Held(worlds[i + 1].view.participants, pid, f) == Held(worlds[i].view.participants, pid, f)
  {
    var w := worlds[i];
    RunKeepsInvariant(viewer, steps, worlds, i);
    TickKeepsInvariants(w.session.value, w.settle, w.seqno + 1, steps[i].0.now, []);
    TickAgrees(w, steps[i].0.now, [], pid, f);
    var r := TickSession(w.session.value, w.settle, w.seqno + 1, steps[i].0.now, []);
    if r.out.Some? { RepeatsChangeNothing(w.view, r.out.value, steps[i].1); }
    assert Coalesces(w.session.value, []);
    assert !w.session.value.IsDirty(pid, f);
  }

  /** A flush names no one who has left; a resend may. */
  lemma FlushNamesPresent(s: Session, patches: seq<ParticipantPatch>, pid: ParticipantId)
    requires WellFormed(s) && Coalesces(s, patches) && pid !in s.participants
    ensures !Names(patches, pid)
    ensures patches == [] <==> s.dirty == map[]
  {
    if |patches| > 0 {
      assert patches[0] in patches;
      assert patches[0].pid in s.dirty;
    } else {
      assert forall p | p in s.dirty :: false;
    }
  }

  lemma TickReappears(w: World, viewer: ParticipantId, step: Step, repeats: nat, pid: ParticipantId)
    requires Invariant(w) && Enabled(w, step) && step.TickStep? && w.connected && w.session.Some?
    requires pid !in w.session.value.participants && pid !in w.view.participants
    ensures var after := Next(w, viewer, step, repeats).view.participants;
            && (pid in after <==>
                  && w.session.value.dirty == map[]
                  && w.settle.Some? && step.now < w.settle.value.settleUntil
                  && Names(w.settle.value.patches, pid))
            && (pid in after ==> after[pid].color == DEFAULT_COLOR)
  {
    hide Next, Invariant;
    var r := TickSession(w.session.value, w.settle, w.seqno + 1, step.now, step.patches);
    TickFields(w, viewer, step, repeats);
    InvariantWellFormed(w);
    FlushNamesPresent(w.session.value, step.patches, pid);
    if r.out.Some? { PatchedPids(w.view.participants, r.out.value.patches, pid); }
  }

  lemma InvariantWellFormed(w: World)
    requires Invariant(w) && w.session.Some?
    ensures WellFormed(w.session.value)
  {
  }

  /** At every point of every run: a departed participant missing from the view reappears at
      the next tick exactly when that tick is a resend, inside the settle window, of a patch
      that still names it; and it comes back in the default colour. */
  lemma DepartedReappearsIff(
    viewer: ParticipantId, steps: seq<(Step, nat)>, worlds: seq<World>, i: nat, pid: ParticipantId)
    requires IsRun(viewer, steps, worlds) && i < |steps| && steps[i].0.TickStep?
    requires worlds[i].connected && worlds[i].session.Some?
    requires pid !in worlds[i].session.value.participants && pid !in worlds[i].view.participants
    ensures var w, after := worlds[i], worlds[i + 1].view.participants;
            && (pid in after <==>
                  && w.session.value.dirty == map[]
                  && w.settle.Some? && steps[i].0.now < w.settle.value.settleUntil
                  && Names(w.settle.value.patches, pid))
            && (pid in after ==> after[pid].color == DEFAULT_COLOR)
  {
    RunKeepsInvariant(viewer, steps, worlds, i);
    TickReappears(worlds[i], viewer, steps[i].0, steps[i].1, pid);
  }

  // ---- who is in the view ----

  /** The departed participants that `patches` names. */
  function NamedGone(s: Session, patches: seq<ParticipantPatch>): set<ParticipantId> {
    set p | p in patches && p.pid !in s.participants :: p.pid
  }

  lemma NamedGoneAre(s: Session, patches: seq<ParticipantPatch>, pid: ParticipantId)
    ensures pid in NamedGone(s, patches) <==> Names(patches, pid) && pid !in s.participants
  {
  }

  /** How one step changes the set of departed participants that a view shows. */
  function GhostsAfter(w: World, viewer: ParticipantId, step: Step, ghosts: set<ParticipantId>): set<ParticipantId> {
    match step
    case HelloStep(e, _, _, _) => if e.pid == viewer then {} else ghosts - {e.pid}
    case TickStep(now, patches) =>
      if w.session.None? then ghosts else
      var out := TickSession(w.session.value, w.settle, w.seqno + 1, now, patches).out;
      if out.None? then ghosts else ghosts + NamedGone(w.session.value, out.value.patches)
    case _ => ghosts
  }

  /** The departed participants a resend has put back in the viewer's view since its last
      welcome, less those who have joined again. */
  function Ghosts(viewer: ParticipantId, steps: seq<(Step, nat)>, worlds: seq<World>, i: nat): set<ParticipantId>
    requires i <= |steps| && |worlds| == |steps| + 1
  {
    if i == 0 then {}
    else GhostsAfter(worlds[i - 1], viewer, steps[i - 1].0, Ghosts(viewer, steps, worlds, i - 1))
  }

  /** A connected viewer is in the session, and sees its roster and `ghosts`, who are not in it. */
  ghost predicate Sees(w: World, viewer: ParticipantId, ghosts: set<ParticipantId>) {
    w.connected ==>
      && w.session.Some? && viewer in w.session.value.participants
      && w.view.participants.Keys == w.session.value.participants.Keys + ghosts
      && ghosts !! w.session.value.participants.Keys
  }

  lemma DepartSees(w: World, viewer: ParticipantId, pid: ParticipantId, repeats: nat, ghosts: set<ParticipantId>)
    requires Sees(w, viewer, ghosts)
    ensures Sees(Depart(w, viewer, pid, repeats), viewer, ghosts)
  {
    RepeatsChangeNothing(w.view, Leave(pid), repeats);
    if w.connected && pid in w.session.value.participants {
      RemovalKeepsAgreement(w.session.value, pid, map[]);
      assert (w.view.participants - {pid}).Keys == w.view.participants.Keys - {pid};
    }
  }

  lemma {:induction false} DepartEachSees(
    w: World, viewer: ParticipantId, gone: seq<ParticipantId>, repeats: nat, ghosts: set<ParticipantId>)
    requires Sees(w, viewer, ghosts)
    ensures Sees(DepartEach(w, viewer, gone, repeats), viewer, ghosts)
  {
    if |gone| > 0 {
      var n := |gone| - 1;
      DepartEachSees(w, viewer, gone[..n], repeats, ghosts);
      DepartSees(DepartEach(w, viewer, gone[..n], repeats), viewer, gone[n], repeats, ghosts);
    }
  }

  /** A welcome shows the roster and no one else. */
  lemma WelcomeSees(s: Session, snaps: seq<ParticipantSnapshot>)
    requires ListsRoster(s, snaps)
    ensures UpsertAll(map[], snaps).Keys == s.participants.Keys
  {
    forall pid ensures pid in UpsertAll(map[], snaps) <==> pid in s.participants {
      UpsertAllHeld(map[], snaps, pid, CursorField);
    }
  }

  lemma HelloKeys(s: Session, e: InboundMessage)
    requires e.Hello?
    ensures ApplyEvent(s, e).state.participants.Keys == s.participants.Keys + {e.pid}
    ensures WellFormed(s) ==> ApplyEvent(s, e).state.participants[e.pid].pid == e.pid
  {
  }

  /** What a hello leaves: the viewer's own, and anyone else's. */
  lemma HelloFields(w: World, viewer: ParticipantId, step: Step, repeats: nat)
    requires Enabled(w, step) && step.HelloStep?
    ensures var s := AfterHello(w, step.e, step.sid, step.now);
            var after := Next(w, viewer, step, repeats);
            && after.session == Some(s) && after.connected == (w.connected || step.e.pid == viewer)
            && after.view.participants ==
               if step.e.pid == viewer then UpsertAll(map[], step.snaps)
               else if w.connected && step.e.pid !in BeforeHello(w, step.sid, step.now).participants
               then Upsert(w.view.participants, JoinOf(s.participants[step.e.pid]).participant)
               else w.view.participants
  {
    var s := AfterHello(w, step.e, step.sid, step.now);
    RepeatsChangeNothing(w.view, Welcome(step.snaps), repeats);
    RepeatsChangeNothing(w.view, JoinOf(s.participants[step.e.pid]), repeats);
  }

  lemma JoinedSets(v: set<ParticipantId>, p: set<ParticipantId>, ghosts: set<ParticipantId>, pid: ParticipantId)
    requires v == p + ghosts && ghosts !! p
    ensures v + (if pid in p then {} else {pid}) == (p + {pid}) + (ghosts - {pid})
    ensures (ghosts - {pid}) !! (p + {pid})
  {
  }

  /** Another's hello: whoever it is joins the view if it is new. */
  lemma OtherHelloSees(w: World, viewer: ParticipantId, step: Step, repeats: nat, ghosts: set<ParticipantId>)
    requires Invariant(w) && Sees(w, viewer, ghosts) && Enabled(w, step) && step.HelloStep?
    requires step.e.pid != viewer && w.connected
    ensures Sees(Next(w, viewer, step, repeats), viewer, ghosts - {step.e.pid})
  {
    var before, pid := w.session.value.participants.Keys, step.e.pid;
    var after := Next(w, viewer, step, repeats);
    HelloKeys(w.session.value, step.e);
    HelloFields(w, viewer, step, repeats);
    assert after.session.value.participants.Keys == before + {pid};
    assert after.view.participants.Keys == w.view.participants.Keys + if pid in before then {} else {pid};
    JoinedSets(w.view.participants.Keys, before, ghosts, pid);
  }

  lemma HelloSees(w: World, viewer: ParticipantId, step: Step, repeats: nat, ghosts: set<ParticipantId>)
    requires Invariant(w) && Sees(w, viewer, ghosts) && Enabled(w, step) && step.HelloStep?
    ensures Sees(Next(w, viewer, step, repeats), viewer, GhostsAfter(w, viewer, step, ghosts))
  {
    if step.e.pid == viewer {
      HelloFields(w, viewer, step, repeats);
      HelloKeys(BeforeHello(w, step.sid, step.now), step.e);
      WelcomeSees(AfterHello(w, step.e, step.sid, step.now), step.snaps);
    } else if w.connected {
      OtherHelloSees(w, viewer, step, repeats, ghosts);
    }
  }

  lemma PatchSees(s: Session, ps: Roster, patches: seq<ParticipantPatch>, ghosts: set<ParticipantId>)
    requires ps.Keys == s.participants.Keys + ghosts
    ensures ApplyPatches(ps, patches).Keys == s.participants.Keys + (ghosts + NamedGone(s, patches))
  {
    forall pid
      ensures pid in ApplyPatches(ps, patches).Keys <==> pid in s.participants.Keys + (ghosts + NamedGone(s, patches))
    {
      PatchedPids(ps, patches, pid);
      NamedGoneAre(s, patches, pid);
      assert pid in ps.Keys <==> pid in s.participants.Keys + ghosts;
    }
  }

  lemma TickSees(w: World, viewer: ParticipantId, step: Step, repeats: nat, ghosts: set<ParticipantId>)
    requires Invariant(w) && Sees(w, viewer, ghosts) && Enabled(w, step) && step.TickStep?
    ensures Sees(Next(w, viewer, step, repeats), viewer, GhostsAfter(w, viewer, step, ghosts))
  {
    if w.connected {
      var s := w.session.value;
      var r := TickSession(s, w.settle, w.seqno + 1, step.now, step.patches);
      TickFields(w, viewer, step, repeats);
      if r.out.Some? { PatchSees(s, w.view.participants, r.out.value.patches, ghosts); }
    }
  }

  lemma PresenceSees(w: World, viewer: ParticipantId, step: Step, repeats: nat, ghosts: set<ParticipantId>)
    requires Sees(w, viewer, ghosts) && Enabled(w, step) && step.PresenceStep?
    ensures Sees(Next(w, viewer, step, repeats), viewer, ghosts)
  {
    if w.connected {
      assert ApplyEvent(w.session.value, step.e).state.participants.Keys == w.session.value.participants.Keys;
    }
  }

  lemma ReapSees(w: World, viewer: ParticipantId, step: Step, repeats: nat, ghosts: set<ParticipantId>)
    requires Sees(w, viewer, ghosts) && step.ReapStep?
    ensures Sees(Next(w, viewer, step, repeats), viewer, ghosts)
  {
    DepartEachSees(w, viewer, step.gone, repeats, ghosts);
  }

  lemma StepSees(w: World, viewer: ParticipantId, step: Step, repeats: nat, ghosts: set<ParticipantId>)
    requires Invariant(w) && Sees(w, viewer, ghosts) && Enabled(w, step)
    ensures Sees(Next(w, viewer, step, repeats), viewer, GhostsAfter(w, viewer, step, ghosts))
  {
    match step {
      case HelloStep(_, _, _, _) => HelloSees(w, viewer, step, repeats, ghosts);
      case PresenceStep(e) => PresenceSees(w, viewer, step, repeats, ghosts);
      case DepartStep(pid) => DepartSees(w, viewer, pid, repeats, ghosts);
      case ReapStep(gone) => ReapSees(w, viewer, step, repeats, ghosts);
      case TickStep(_, _) => TickSees(w, viewer, step, repeats, ghosts);
    }
  }

  /** At every point of every run a connected participant sees everyone in the session, and
      besides them exactly the departed whom a resend has brought back. So its roster is the
      server's exactly when there are none. */
  lemma {:induction false} SeesRosterAndGhosts(
    viewer: ParticipantId, steps: seq<(Step, nat)>, worlds: seq<World>, i: nat)
    requires IsRun(viewer, steps, worlds) && i <= |steps|
    ensures Sees(worlds[i], viewer, Ghosts(viewer, steps, worlds, i))
  {
    hide Invariant, Enabled;
    if i > 0 {
      SeesRosterAndGhosts(viewer, steps, worlds, i - 1);
      RunKeepsInvariant(viewer, steps, worlds, i - 1);
      StepSees(worlds[i - 1], viewer, steps[i - 1].0, steps[i - 1].1, Ghosts(viewer, steps, worlds, i - 1));
    }
  }

  // ---- colours ----

  /** The server gives everyone the colour of its id, and the view shows it. */
  ghost predicate ShowsColours(w: World) {
    w.session.Some? ==>
      && (forall pid | pid in w.session.value.participants ::
            w.session.value.participants[pid].color == ColorForParticipant(pid))
      && (w.connected ==> ViewColours(w.session.value, w.view.participants))
  }

  ghost predicate ViewColours(s: Session, ps: Roster) {
    forall pid | pid in s.participants :: pid in ps && ps[pid].color == ColorForParticipant(pid)
  }

  lemma {:induction false} ListedColours(ps: Roster, snaps: seq<ParticipantSnapshot>, pid: ParticipantId, color: string)
    requires forall s | s in snaps && s.pid == pid :: s.color == color
    requires pid in ps ==> ps[pid].color == color
    ensures pid in UpsertAll(ps, snaps) ==> UpsertAll(ps, snaps)[pid].color == color
  {
    if |snaps| > 0 {
      assert snaps[|snaps| - 1] in snaps && forall s | s in snaps[..|snaps| - 1] :: s in snaps;
      ListedColours(ps, snaps[..|snaps| - 1], pid, color);
    }
  }

  lemma HelloColours(w: World, viewer: ParticipantId, step: Step, repeats: nat)
    requires ShowsColours(w) && Enabled(w, step) && step.HelloStep? && (w.connected ==> w.session.Some?)
    ensures ShowsColours(Next(w, viewer, step, repeats))
  {
    var s := AfterHello(w, step.e, step.sid, step.now);
    HelloFields(w, viewer, step, repeats);
    assert forall pid | pid in s.participants :: s.participants[pid].color == ColorForParticipant(pid);
    if step.e.pid == viewer {
      forall pid | pid in s.participants
        ensures var ps := UpsertAll(map[], step.snaps); pid in ps && ps[pid].color == ColorForParticipant(pid)
      {
        UpsertAllHeld(map[], step.snaps, pid, CursorField);
        ListedColours(map[], step.snaps, pid, s.participants[pid].color);
      }
    }
  }

  lemma TickColours(w: World, viewer: ParticipantId, step: Step, repeats: nat)
    requires Invariant(w) && ShowsColours(w) && Enabled(w, step) && step.TickStep?
    ensures ShowsColours(Next(w, viewer, step, repeats))
  {
    if w.session.Some? && w.connected {
      var r := TickSession(w.session.value, w.settle, w.seqno + 1, step.now, step.patches);
      TickFields(w, viewer, step, repeats);
      if r.out.Some? {
        forall pid { PatchedPids(w.view.participants, r.out.value.patches, pid); }
      }
    }
  }

  lemma PresenceColours(w: World, viewer: ParticipantId, step: Step, repeats: nat)
    requires ShowsColours(w) && Enabled(w, step) && step.PresenceStep?
    ensures ShowsColours(Next(w, viewer, step, repeats))
  {
  }

  lemma DepartColours(w: World, viewer: ParticipantId, pid: ParticipantId, repeats: nat)
    requires ShowsColours(w)
    ensures ShowsColours(Depart(w, viewer, pid, repeats))
  {
    RepeatsChangeNothing(w.view, Leave(pid), repeats);
  }

  lemma {:induction false} ReapColours(w: World, viewer: ParticipantId, gone: seq<ParticipantId>, repeats: nat)
    requires ShowsColours(w)
    ensures ShowsColours(DepartEach(w, viewer, gone, repeats))
  {
    if |gone| > 0 {
      var n := |gone| - 1;
      ReapColours(w, viewer, gone[..n], repeats);
      DepartColours(DepartEach(w, viewer, gone[..n], repeats), viewer, gone[n], repeats);
    }
  }

  /** At every point of every run a connected view shows everyone in the session in the colour of
      its id, on the server and in the view; so the default colour is the mark of a participant
      whom a resend brought back. */
  lemma {:induction false} ColoursAreShown(
    viewer: ParticipantId, steps: seq<(Step, nat)>, worlds: seq<World>, i: nat)
    requires IsRun(viewer, steps, worlds) && i <= |steps|
    ensures ShowsColours(worlds[i])
  {
    hide ShowsColours;
    if i == 0 {
      StartColours();
    } else {
      ColoursAreShown(viewer, steps, worlds, i - 1);
      SeesRosterAndGhosts(viewer, steps, worlds, i - 1);
      RunKeepsInvariant(viewer, steps, worlds, i - 1);
      var w, step, repeats := worlds[i - 1], steps[i - 1].0, steps[i - 1].1;
      assert Enabled(w, step) && worlds[i] == Next(w, viewer, step, repeats);
      hide Enabled, Next, Invariant;
      StepColours(w, viewer, step, repeats);
    }
  }

  lemma StartColours()
    ensures ShowsColours(INITIAL)
  {
  }

  lemma StepColours(w: World, viewer: ParticipantId, step: Step, repeats: nat)
    requires Invariant(w) && ShowsColours(w) && Enabled(w, step) && (w.connected ==> w.session.Some?)
    ensures ShowsColours(Next(w, viewer, step, repeats))
  {
    hide ShowsColours, Enabled, Invariant;
    match step {
      case HelloStep(_, _, _, _) => HelloColours(w, viewer, step, repeats);
      case PresenceStep(_) => PresenceColours(w, viewer, step, repeats);
      case DepartStep(pid) => DepartColours(w, viewer, pid, repeats);
      case ReapStep(gone) => ReapColoursEnd(w, viewer, gone, repeats);
      case TickStep(_, _) => TickColours(w, viewer, step, repeats);
    }
  }

  lemma ReapColoursEnd(w: World, viewer: ParticipantId, gone: seq<ParticipantId>, repeats: nat)
    requires ShowsColours(w)
    ensures ShowsColours(Next(w, viewer, ReapStep(gone), repeats))
  {
    ReapColours(w, viewer, gone, repeats);
  }

  // ---- concrete runs ----

  lemma RunExtends(viewer: ParticipantId, steps: seq<(Step, nat)>, worlds: seq<World>, step: Step)
    requires IsRun(viewer, steps, worlds) && Enabled(worlds[|steps|], step)
    ensures IsRun(viewer, steps + [(step, 0)], worlds + [Next(worlds[|steps|], viewer, step, 0)])
  {
    var n, next := |steps|, Next(worlds[|steps|], viewer, step, 0);
    var more, after := steps + [(step, 0)], worlds + [next];
    forall i | 0 <= i < n + 1
      ensures Enabled(after[i], more[i].0) && after[i + 1] == Next(after[i], viewer, more[i].0, more[i].1)
    {
      if i < n {
        assert after[i] == worlds[i] && after[i + 1] == worlds[i + 1] && more[i] == steps[i];
      } else {
        assert after[i] == worlds[n] && after[i + 1] == next && more[i] == (step, 0);
      }
    }
  }
}
