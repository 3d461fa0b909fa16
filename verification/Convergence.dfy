/** Agreement under any delivery schedule: what a network that loses, repeats and reorders
    patches can and cannot do to the views of one session. */
module Convergence {
  import opened Wrappers
  import opened Protocol
  import opened Presence
  import opened Receiver
  import opened Scheduler
  import opened Coalescing
  import opened PatchHistory

  /** The patch step `i` of a run broadcasts, if it is a tick that broadcasts one. */
  function Emission(steps: seq<(Step, nat)>, worlds: seq<World>, i: nat): (m: Option<OutboundMessage>)
    requires i < |steps| && |worlds| == |steps| + 1
    ensures m.Some? ==> m.value.Patch? && m.value.seqno == worlds[i].seqno + 1
    ensures m.Some? ==> steps[i].0.TickStep? && worlds[i].session.Some?
  {
    Broadcasts(worlds[i], steps[i].0)
  }

  /** Step `i` is a tick that finds something dirty. */
  predicate IsFlush(steps: seq<(Step, nat)>, worlds: seq<World>, i: nat) {
    i < |steps| && i < |worlds| && worlds[i].session.Some? && steps[i].0.TickStep? && |steps[i].0.patches| > 0
  }

  /** The last of these before step `i`. */
  function LastFlush(steps: seq<(Step, nat)>, worlds: seq<World>, i: nat): (s: Option<nat>)
    requires i <= |steps| && |worlds| == |steps| + 1
    ensures s.Some? ==> s.value < i && IsFlush(steps, worlds, s.value)
    ensures forall k | 0 <= k < i && IsFlush(steps, worlds, k) :: s.Some? && k <= s.value
  {
    if i == 0 then None
    else if IsFlush(steps, worlds, i - 1) then Some(i - 1)
    else LastFlush(steps, worlds, i - 1)
  }

  /** Step `k` is the last dirty tick of the run. */
  predicate LastDirtyTick(steps: seq<(Step, nat)>, worlds: seq<World>, k: nat) {
    |worlds| == |steps| + 1 && LastFlush(steps, worlds, |steps|) == Some(k)
  }

  /** A delivery: any finite sequence of patches the run broadcast. */
  ghost predicate DeliveryOf(steps: seq<(Step, nat)>, worlds: seq<World>, msgs: seq<OutboundMessage>)
    requires |worlds| == |steps| + 1
  {
    && AllPatches(msgs)
    && forall m | m in msgs :: exists i :: 0 <= i < |steps| && Emission(steps, worlds, i) == Some(m)
  }

  lemma {:induction false} DepartEachKeepsSeqno(w: World, viewer: ParticipantId, gone: seq<ParticipantId>, repeats: nat)
    ensures DepartEach(w, viewer, gone, repeats).seqno == w.seqno
  {
    if |gone| > 0 { DepartEachKeepsSeqno(w, viewer, gone[..|gone| - 1], repeats); }
  }

  lemma StepSeqno(w: World, viewer: ParticipantId, step: Step, repeats: nat)
    requires Enabled(w, step)
    ensures Next(w, viewer, step, repeats).seqno == w.seqno + if step.TickStep? then 1 else 0
  {
    if step.ReapStep? { DepartEachKeepsSeqno(w, viewer, step.gone, repeats); }
  }

  lemma RunStepSeqno(viewer: ParticipantId, steps: seq<(Step, nat)>, worlds: seq<World>, i: nat)
    requires IsRun(viewer, steps, worlds) && i < |steps|
    ensures worlds[i + 1].seqno == worlds[i].seqno + if steps[i].0.TickStep? then 1 else 0
  {
    assert Enabled(worlds[i], steps[i].0) && worlds[i + 1] == Next(worlds[i], viewer, steps[i].0, steps[i].1);
    StepSeqno(worlds[i], viewer, steps[i].0, steps[i].1);
  }

  lemma {:induction false} SeqnosNeverFall(
    viewer: ParticipantId, steps: seq<(Step, nat)>, worlds: seq<World>, i: nat, j: nat)
    requires IsRun(viewer, steps, worlds) && i <= j <= |steps|
    ensures worlds[i].seqno <= worlds[j].seqno
  {
    hide Enabled, Next;
    if i < j {
      SeqnosNeverFall(viewer, steps, worlds, i, j - 1);
      RunStepSeqno(viewer, steps, worlds, j - 1);
    }
  }

  lemma SeqnosGrow(viewer: ParticipantId, steps: seq<(Step, nat)>, worlds: seq<World>, i: nat, j: nat)
    requires IsRun(viewer, steps, worlds) && i < j <= |steps| && steps[i].0.TickStep?
    ensures worlds[i].seqno < worlds[j].seqno
  {
    RunStepSeqno(viewer, steps, worlds, i);
    SeqnosNeverFall(viewer, steps, worlds, i + 1, j);
  }

  /** Only a tick changes what is settling. */
  lemma StepSettle(w: World, viewer: ParticipantId, step: Step, repeats: nat)
    requires Enabled(w, step)
    ensures Next(w, viewer, step, repeats).settle ==
            if step.TickStep? && w.session.Some?
            then TickSession(w.session.value, w.settle, w.seqno + 1, step.now, step.patches).settle else w.settle
  {
    if step.ReapStep? { DepartEachKeepsSettle(w, viewer, step.gone, repeats); }
  }

  lemma RunStepSettle(viewer: ParticipantId, steps: seq<(Step, nat)>, worlds: seq<World>, i: nat)
    requires IsRun(viewer, steps, worlds) && i < |steps|
    ensures var w, step := worlds[i], steps[i].0;
            worlds[i + 1].settle ==
            if step.TickStep? && w.session.Some?
            then TickSession(w.session.value, w.settle, w.seqno + 1, step.now, step.patches).settle else w.settle
  {
    assert Enabled(worlds[i], steps[i].0) && worlds[i + 1] == Next(worlds[i], viewer, steps[i].0, steps[i].1);
    hide Enabled, Next, TickSession;
    StepSettle(worlds[i], viewer, steps[i].0, steps[i].1);
  }

  /** Whatever is settling is the content of the last flush. */
  lemma {:induction false} SettleRepeats(viewer: ParticipantId, steps: seq<(Step, nat)>, worlds: seq<World>, i: nat)
    requires IsRun(viewer, steps, worlds) && |worlds| == |steps| + 1 && i <= |steps|
    ensures var s := LastFlush(steps, worlds, i);
            worlds[i].settle.Some? ==> s.Some? && worlds[i].settle.value.patches == steps[s.value].0.patches
  {
    if i > 0 {
      hide IsRun;
      SettleRepeats(viewer, steps, worlds, i - 1);
      RunStepSettle(viewer, steps, worlds, i - 1);
    }
  }

  lemma {:induction false} DepartEachKeepsSettle(
    w: World, viewer: ParticipantId, gone: seq<ParticipantId>, repeats: nat)
    ensures DepartEach(w, viewer, gone, repeats).settle == w.settle
  {
    if |gone| > 0 { DepartEachKeepsSettle(w, viewer, gone[..|gone| - 1], repeats); }
  }

  /** Every broadcast repeats the last flush, its own step's included. */
  lemma EmissionRepeats(viewer: ParticipantId, steps: seq<(Step, nat)>, worlds: seq<World>, i: nat)
    requires IsRun(viewer, steps, worlds) && i < |steps| && Emission(steps, worlds, i).Some?
    ensures var s := LastFlush(steps, worlds, i + 1);
            s.Some? && Emission(steps, worlds, i).value.patches == steps[s.value].0.patches
  {
    SettleRepeats(viewer, steps, worlds, i);
  }

  // ---- which ticks broadcast what ----

  /** The clock the ticks read never goes back. */
  predicate ClockRuns(steps: seq<(Step, nat)>) {
    forall i, j | 0 <= i < j < |steps| && steps[i].0.TickStep? && steps[j].0.TickStep? ::
      steps[i].0.now <= steps[j].0.now
  }

  /** How many of the first `i` steps are ticks. */
  function TicksBefore(steps: seq<(Step, nat)>, i: nat): nat
    requires i <= |steps|
  {
    if i == 0 then 0 else TicksBefore(steps, i - 1) + if steps[i - 1].0.TickStep? then 1 else 0
  }

  lemma {:induction false} TicksAreNumbered(
    viewer: ParticipantId, steps: seq<(Step, nat)>, worlds: seq<World>, i: nat)
    requires IsRun(viewer, steps, worlds) && i <= |steps|
    ensures worlds[i].seqno == TicksBefore(steps, i)
  {
    hide Enabled, Next;
    if i > 0 {
      TicksAreNumbered(viewer, steps, worlds, i - 1);
      RunStepSeqno(viewer, steps, worlds, i - 1);
    }
  }

  /** What settles does so for 750 ms from the last flush on, and if nothing does, a tick has come
      that late. */
  lemma {:induction false} SettleLasts(viewer: ParticipantId, steps: seq<(Step, nat)>, worlds: seq<World>, i: nat)
    requires IsRun(viewer, steps, worlds) && |worlds| == |steps| + 1 && i <= |steps|
    ensures var s := LastFlush(steps, worlds, i);
            && (worlds[i].settle.Some? ==>
                  s.Some? && worlds[i].settle.value.settleUntil == steps[s.value].0.now + 750)
            && (worlds[i].settle.None? && s.Some? ==>
                  exists u :: s.value < u < i && steps[u].0.TickStep? && steps[u].0.now >= steps[s.value].0.now + 750)
  {
    if i > 0 {
      hide IsRun;
      SettleLasts(viewer, steps, worlds, i - 1);
      RunStepSettle(viewer, steps, worlds, i - 1);
    }
  }

  /** A tick that finds something dirty says of each field what is dirty of it, and nothing of
      the others. */
  ghost predicate SaysDirty(session: Session, patches: seq<ParticipantPatch>) {
    forall pid, f: Field ::
      Mention(patches, pid, f) == if session.IsDirty(pid, f) then ServerValue(session, pid, f) else None
  }

  /** What a tick broadcasts, over any run whose clock never goes back: whatever is dirty, if
      anything is; if not, once more the last flush, exactly if that was less than 750 ms ago; and
      each time under the tick's own number. */
  lemma TickBroadcasts(viewer: ParticipantId, steps: seq<(Step, nat)>, worlds: seq<World>, i: nat)
    requires IsRun(viewer, steps, worlds) && ClockRuns(steps) && i < |steps|
    requires steps[i].0.TickStep? && worlds[i].session.Some?
    ensures var out, session := Emission(steps, worlds, i), worlds[i].session.value;
            var last := LastFlush(steps, worlds, i);
            && (out.Some? ==> out.value.seqno == TicksBefore(steps, i) + 1)
            && if session.dirty != map[] then out.Some? && SaysDirty(session, out.value.patches)
               else
                 && (out.Some? <==> last.Some? && steps[i].0.now < steps[last.value].0.now + 750)
                 && (out.Some? ==> out.value.patches == steps[last.value].0.patches)
  {
    RunKeepsInvariant(viewer, steps, worlds, i);
    TicksAreNumbered(viewer, steps, worlds, i);
    SettleRepeats(viewer, steps, worlds, i);
    SettleLasts(viewer, steps, worlds, i);
    var session, patches := worlds[i].session.value, steps[i].0.patches;
    assert Enabled(worlds[i], steps[i].0);
    hide IsRun, Enabled, Agrees, AgreesFully, SettleSound;
    SomethingToSay(session, patches);
    if session.dirty != map[] { FlushSaysDirty(session, patches); }
  }

  lemma SomethingToSay(session: Session, patches: seq<ParticipantPatch>)
    requires WellFormed(session) && Coalesces(session, patches)
    ensures |patches| > 0 <==> session.dirty != map[]
  {
    if |patches| > 0 { assert patches[0] in patches; }
    if session.dirty != map[] {
      var pid :| pid in session.dirty;
      var p :| p in patches && p.pid == pid;
    }
  }

  lemma FlushSaysDirty(session: Session, patches: seq<ParticipantPatch>)
    requires WellFormed(session) && Coalesces(session, patches)
    ensures SaysDirty(session, patches)
  {
    forall pid, f: Field
      ensures Mention(patches, pid, f) == if session.IsDirty(pid, f) then ServerValue(session, pid, f) else None
    {
      MentionIn(patches, pid, f);
      if pid in session.dirty {
        var p :| p in patches && p.pid == pid;
        assert p.Get(f) == if session.IsDirty(pid, f) then ServerValue(session, pid, f) else None;
      }
    }
  }

  /** Every patch broadcast from the last dirty tick on repeats that tick's content. */
  lemma LaterEmissionsRepeat(viewer: ParticipantId, steps: seq<(Step, nat)>, worlds: seq<World>, k: nat, i: nat)
    requires IsRun(viewer, steps, worlds) && LastDirtyTick(steps, worlds, k) && i < |steps|
    requires Emission(steps, worlds, i).Some? && Emission(steps, worlds, i).value.seqno >= worlds[k].seqno + 1
    ensures Emission(steps, worlds, i).value.patches == steps[k].0.patches
  {
    hide IsRun;
    if i < k { SeqnosGrow(viewer, steps, worlds, i, k); }
    EmissionRepeats(viewer, steps, worlds, i);
  }

  /** A flush carries the server's current value for every field it mentions. */
  lemma FlushIsCurrent(s: Session, patches: seq<ParticipantPatch>, pid: ParticipantId, f: Field)
    requires Coalesces(s, patches) && Mention(patches, pid, f).Some?
    ensures Mention(patches, pid, f) == ServerValue(s, pid, f)
  {
    MentionIn(patches, pid, f);
  }

  /** What the last dirty tick carries is what the server held then. */
  lemma LastFlushIsCurrent(
    viewer: ParticipantId, steps: seq<(Step, nat)>, worlds: seq<World>, k: nat, pid: ParticipantId, f: Field)
    requires IsRun(viewer, steps, worlds) && LastDirtyTick(steps, worlds, k)
    requires Mention(steps[k].0.patches, pid, f).Some?
    ensures ServerValue(worlds[k].session.value, pid, f) == Mention(steps[k].0.patches, pid, f)
  {
    assert Enabled(worlds[k], steps[k].0);
    FlushIsCurrent(worlds[k].session.value, steps[k].0.patches, pid, f);
  }

  /** Delivering `m` leaves the field as it is, or at `value`. */
  predicate Harmless(m: OutboundMessage, pid: ParticipantId, f: Field, value: Point) {
    match m
    case Welcome(snaps) => SnapshotMention(snaps, pid, f) == Some(value)
    case Snapshot(snaps) => SnapshotMention(snaps, pid, f) == Some(value)
    case Join(s) => s.pid == pid && s.Get(f).Some? ==> s.Get(f) == Some(value)
    case Leave(p) => p != pid
    case _ => true
  }

  /** `m` is a patch numbered `floor` or later. */
  predicate IsPatchFrom(m: OutboundMessage, floor: int) { m.Patch? && m.seqno >= floor }

  /** Every patch numbered `floor` or later is one the run broadcast, and every other message but
      an older patch leaves the field as it is, or at `value`. */
  ghost predicate Undisturbed(
    steps: seq<(Step, nat)>, worlds: seq<World>, msgs: seq<OutboundMessage>, floor: int,
    pid: ParticipantId, f: Field, value: Point)
    requires |worlds| == |steps| + 1
  {
    forall m | m in msgs ::
      if m.Patch? then m.seqno >= floor ==> exists i :: 0 <= i < |steps| && Emission(steps, worlds, i) == Some(m)
      else Harmless(m, pid, f, value)
  }

  lemma HarmlessKeeps(v: View, m: OutboundMessage, pid: ParticipantId, f: Field, value: Point)
    requires !m.Patch? && Harmless(m, pid, f, value)
    ensures Deliver(v, m).lastPatchSeq == v.lastPatchSeq
    ensures var after := Held(Deliver(v, m).participants, pid, f);
            after == Held(v.participants, pid, f) || after == Some(value)
  {
    match m {
      case Welcome(snaps) => UpsertAllHeld(map[], snaps, pid, f);
      case Snapshot(snaps) => UpsertAllHeld(map[], snaps, pid, f);
      case _ =>
    }
  }

  /** Once a view has accepted a patch numbered `floor` or later, it holds `value`. */
  predicate Settled(v: View, floor: int, pid: ParticipantId, f: Field, value: Point) {
    !Fresh(v.lastPatchSeq, floor) ==> Held(v.participants, pid, f) == Some(value)
  }

  lemma OneSettles(
    viewer: ParticipantId, steps: seq<(Step, nat)>, worlds: seq<World>, k: nat,
    v: View, m: OutboundMessage, pid: ParticipantId, f: Field, value: Point)
    requires IsRun(viewer, steps, worlds) && LastDirtyTick(steps, worlds, k)
    requires Mention(steps[k].0.patches, pid, f) == Some(value)
    requires Undisturbed(steps, worlds, [m], worlds[k].seqno + 1, pid, f, value)
    requires Settled(v, worlds[k].seqno + 1, pid, f, value)
    ensures var w, floor := Deliver(v, m), worlds[k].seqno + 1;
            && Settled(w, floor, pid, f, value)
            && (IsPatchFrom(m, floor) || !Fresh(v.lastPatchSeq, floor) ==> !Fresh(w.lastPatchSeq, floor))
  {
    hide IsRun, Emission, ApplyPatches, Mention, Held, UpsertAll;
    assert m in [m];
    if !m.Patch? {
      HarmlessKeeps(v, m, pid, f, value);
    } else {
      ApplyPatchesHeld(v.participants, m.patches, pid, f);
      if m.seqno >= worlds[k].seqno + 1 {
        var i :| 0 <= i < |steps| && Emission(steps, worlds, i) == Some(m);
        LaterEmissionsRepeat(viewer, steps, worlds, k, i);
      }
    }
  }

  lemma {:induction false} AllSettle(
    viewer: ParticipantId, steps: seq<(Step, nat)>, worlds: seq<World>, k: nat,
    v: View, msgs: seq<OutboundMessage>, pid: ParticipantId, f: Field, value: Point)
    requires IsRun(viewer, steps, worlds) && LastDirtyTick(steps, worlds, k)
    requires Mention(steps[k].0.patches, pid, f) == Some(value)
    requires Undisturbed(steps, worlds, msgs, worlds[k].seqno + 1, pid, f, value)
    requires Settled(v, worlds[k].seqno + 1, pid, f, value)
    ensures var w, floor := DeliverAll(v, msgs), worlds[k].seqno + 1;
            && Settled(w, floor, pid, f, value)
            && ((exists m :: m in msgs && IsPatchFrom(m, floor)) ==> !Fresh(w.lastPatchSeq, floor))
  {
    hide IsRun, LastDirtyTick, Deliver, Settled, IsPatchFrom, Fresh;
    if |msgs| > 0 {
      var init, last := msgs[..|msgs| - 1], msgs[|msgs| - 1];
      assert forall m :: m in msgs <==> m in init || m == last;
      AllSettle(viewer, steps, worlds, k, v, init, pid, f, value);
      OneSettles(viewer, steps, worlds, k, DeliverAll(v, init), last, pid, f, value);
    }
  }

  /** While no patch numbered `floor` or later arrives, one is still new. */
  lemma {:induction false} StillFresh(v: View, msgs: seq<OutboundMessage>, floor: int)
    requires Fresh(v.lastPatchSeq, floor) && forall m | m in msgs :: !IsPatchFrom(m, floor)
    ensures Fresh(DeliverAll(v, msgs).lastPatchSeq, floor)
  {
    if |msgs| > 0 {
      var init, last := msgs[..|msgs| - 1], msgs[|msgs| - 1];
      assert last in msgs && forall m | m in init :: m in msgs;
      StillFresh(v, init, floor);
    }
  }

  /** Let `k` be the last dirty tick, whatever happened since. A view first processes any messages
      `a` but patches numbered `k` or later; then `b`, any mixture of the session's patches -- in
      any order, with repeats and losses -- and of messages that leave the field alone. It ends
      with what the server held at that tick of every field the tick mentions, as soon as one
      patch of `b` is numbered `k` or later. */
  lemma ConvergesAmidOthers(
    viewer: ParticipantId, steps: seq<(Step, nat)>, worlds: seq<World>, k: nat,
    v: View, a: seq<OutboundMessage>, b: seq<OutboundMessage>, pid: ParticipantId, f: Field, value: Point)
    requires IsRun(viewer, steps, worlds) && LastDirtyTick(steps, worlds, k)
    requires Mention(steps[k].0.patches, pid, f) == Some(value)
    requires Fresh(v.lastPatchSeq, worlds[k].seqno + 1) && forall m | m in a :: !IsPatchFrom(m, worlds[k].seqno + 1)
    requires Undisturbed(steps, worlds, b, worlds[k].seqno + 1, pid, f, value)
    requires exists m :: m in b && IsPatchFrom(m, worlds[k].seqno + 1)
    ensures ServerValue(worlds[k].session.value, pid, f) == Some(value)
    ensures Held(DeliverAll(v, a + b).participants, pid, f) == Some(value)
  {
    hide IsRun, Undisturbed, IsPatchFrom;
    StillFresh(v, a, worlds[k].seqno + 1);
    AllSettle(viewer, steps, worlds, k, DeliverAll(v, a), b, pid, f, value);
    DeliverAllConcat(v, a, b);
    LastFlushIsCurrent(viewer, steps, worlds, k, pid, f);
  }

  /** Any view that processes any finite sequence of the session's patches ends with what the
      server held at the last dirty tick `k`, for every field that tick mentions, as soon as one
      of them is numbered `k` or later. Hence any two such views agree there. */
  lemma ConvergesUnderAnySchedule(
    viewer: ParticipantId, steps: seq<(Step, nat)>, worlds: seq<World>, k: nat,
    v: View, msgs: seq<OutboundMessage>, pid: ParticipantId, f: Field)
    requires IsRun(viewer, steps, worlds) && LastDirtyTick(steps, worlds, k)
    requires DeliveryOf(steps, worlds, msgs) && Fresh(v.lastPatchSeq, worlds[k].seqno + 1)
    requires exists m :: m in msgs && m.seqno >= worlds[k].seqno + 1
    requires Mention(steps[k].0.patches, pid, f).Some?
    ensures Held(DeliverAll(v, msgs).participants, pid, f) == ServerValue(worlds[k].session.value, pid, f)
  {
    hide IsRun;
    var value := Mention(steps[k].0.patches, pid, f).value;
    var m :| m in msgs && m.seqno >= worlds[k].seqno + 1;
    assert IsPatchFrom(m, worlds[k].seqno + 1);
    assert [] + msgs == msgs;
    ConvergesAmidOthers(viewer, steps, worlds, k, v, [], msgs, pid, f, value);
  }

  /** Nothing but ticks follows step `k`. */
  predicate QuietSince(steps: seq<(Step, nat)>, k: nat) {
    forall i | k < i < |steps| :: steps[i].0.TickStep?
  }

  /** From then on the roster stands still. */
  lemma {:induction false} QuietKeepsRoster(
    viewer: ParticipantId, steps: seq<(Step, nat)>, worlds: seq<World>, k: nat, i: nat)
    requires IsRun(viewer, steps, worlds) && LastDirtyTick(steps, worlds, k) && QuietSince(steps, k)
    requires k < i <= |steps|
    ensures worlds[i].session.Some? && worlds[i].session.value.participants == worlds[k].session.value.participants
  {
    var j := i - 1;
    assert Enabled(worlds[j], steps[j].0) && worlds[i] == Next(worlds[j], viewer, steps[j].0, steps[j].1);
    if j > k { QuietKeepsRoster(viewer, steps, worlds, k, j); }
  }

  /** If only ticks follow it, such a view is equal to the server from then on. */
  lemma QuietSessionConverges(
    viewer: ParticipantId, steps: seq<(Step, nat)>, worlds: seq<World>, k: nat,
    v: View, msgs: seq<OutboundMessage>, pid: ParticipantId, f: Field)
    requires IsRun(viewer, steps, worlds) && LastDirtyTick(steps, worlds, k) && QuietSince(steps, k)
    requires DeliveryOf(steps, worlds, msgs) && Fresh(v.lastPatchSeq, worlds[k].seqno + 1)
    requires exists m :: m in msgs && m.seqno >= worlds[k].seqno + 1
    requires Mention(steps[k].0.patches, pid, f).Some?
    ensures worlds[|steps|].session.Some?
    ensures Held(DeliverAll(v, msgs).participants, pid, f) == ServerValue(worlds[|steps|].session.value, pid, f)
  {
    ConvergesUnderAnySchedule(viewer, steps, worlds, k, v, msgs, pid, f);
    QuietKeepsRoster(viewer, steps, worlds, k, |steps|);
  }

  /** Two recipients of whatever part of the traffic agree on every field the last dirty tick
      mentions, once each has been reached by one patch of that tick or later. */
  lemma AnyTwoViewsAgree(
    viewer: ParticipantId, steps: seq<(Step, nat)>, worlds: seq<World>, k: nat,
    v1: View, msgs1: seq<OutboundMessage>, v2: View, msgs2: seq<OutboundMessage>, pid: ParticipantId, f: Field)
    requires IsRun(viewer, steps, worlds) && LastDirtyTick(steps, worlds, k)
    requires DeliveryOf(steps, worlds, msgs1) && Fresh(v1.lastPatchSeq, worlds[k].seqno + 1)
    requires DeliveryOf(steps, worlds, msgs2) && Fresh(v2.lastPatchSeq, worlds[k].seqno + 1)
    requires exists m :: m in msgs1 && m.seqno >= worlds[k].seqno + 1
    requires exists m :: m in msgs2 && m.seqno >= worlds[k].seqno + 1
    requires Mention(steps[k].0.patches, pid, f).Some?
    ensures Held(DeliverAll(v1, msgs1).participants, pid, f) == Held(DeliverAll(v2, msgs2).participants, pid, f)
  {
    ConvergesUnderAnySchedule(viewer, steps, worlds, k, v1, msgs1, pid, f);
    ConvergesUnderAnySchedule(viewer, steps, worlds, k, v2, msgs2, pid, f);
  }

  // ---- one field, any delivery ----

  /** Whatever a broadcast says about a field, it is what the server holds at that step, if it
      holds anything. */
  lemma EmissionIsCurrent(
    viewer: ParticipantId, steps: seq<(Step, nat)>, worlds: seq<World>, i: nat, pid: ParticipantId, f: Field)
    requires IsRun(viewer, steps, worlds) && i < |steps| && Emission(steps, worlds, i).Some?
    requires Mention(Emission(steps, worlds, i).value.patches, pid, f).Some?
    requires ServerValue(worlds[i].session.value, pid, f).Some?
    ensures Mention(Emission(steps, worlds, i).value.patches, pid, f) == ServerValue(worlds[i].session.value, pid, f)
  {
    var w, patches := worlds[i], steps[i].0.patches;
    RunKeepsInvariant(viewer, steps, worlds, i);
    assert Enabled(w, steps[i].0);
    if |patches| > 0 {
      FlushIsCurrent(w.session.value, patches, pid, f);
    } else {
      assert !w.session.value.IsDirty(pid, f);
      MentionIn(w.settle.value.patches, pid, f);
    }
  }

  /** From step `k` to the end the server's value for the field is `value`. */
  ghost predicate HeldSince(worlds: seq<World>, k: nat, pid: ParticipantId, f: Field, value: Point) {
    k < |worlds| && forall i | k <= i < |worlds| ::
      worlds[i].session.Some? && ServerValue(worlds[i].session.value, pid, f) == Some(value)
  }

  /** Broadcasts numbered from step `k` on carry `value` if they mention the field. */
  lemma WindowCarries(
    viewer: ParticipantId, steps: seq<(Step, nat)>, worlds: seq<World>, k: nat,
    msgs: seq<OutboundMessage>, m: OutboundMessage, pid: ParticipantId, f: Field, value: Point)
    requires IsRun(viewer, steps, worlds) && HeldSince(worlds, k, pid, f, value)
    requires DeliveryOf(steps, worlds, msgs) && m in msgs && m.seqno > worlds[k].seqno
    requires Mention(m.patches, pid, f).Some?
    ensures Mention(m.patches, pid, f) == Some(value)
  {
    var i :| 0 <= i < |steps| && Emission(steps, worlds, i) == Some(m);
    if i < k { SeqnosGrow(viewer, steps, worlds, i, k); }
    EmissionIsCurrent(viewer, steps, worlds, i, pid, f);
  }

  /** How many deliveries come before the first one numbered above `n`. */
  function Before(msgs: seq<OutboundMessage>, n: int): (j: nat)
    requires AllPatches(msgs)
    ensures j <= |msgs| && (forall i | 0 <= i < j :: msgs[i].seqno <= n) && (j < |msgs| ==> msgs[j].seqno > n)
  {
    if |msgs| == 0 || msgs[0].seqno > n then 0
    else
      assert forall m | m in msgs[1..] :: m in msgs;
      1 + Before(msgs[1..], n)
  }

  /** Two records with the same number are the same delivery. */
  lemma RecordsDiffer(last: Option<int>, msgs: seq<OutboundMessage>, i: nat, j: nat)
    requires AllPatches(msgs) && i < |msgs| && j < |msgs|
    requires IsRecord(last, msgs, i) && IsRecord(last, msgs, j) && msgs[i].seqno == msgs[j].seqno
    ensures i == j
  {
  }

  /** A newest mention numbered at most `n` is already the newest of the deliveries before the
      first one above `n`. */
  lemma NewestIsEarly(last: Option<int>, msgs: seq<OutboundMessage>, n: int, pid: ParticipantId, f: Field)
    requires AllPatches(msgs)
    requires var newest := NewestMention(last, msgs, pid, f); newest.Some? ==> msgs[newest.value].seqno <= n
    ensures NewestMention(last, msgs[..Before(msgs, n)], pid, f) == NewestMention(last, msgs, pid, f)
  {
    var j := Before(msgs, n);
    var newest, early := NewestMention(last, msgs, pid, f), NewestMention(last, msgs[..j], pid, f);
    if early.Some? {
      RecordMentionsPrefix(last, msgs, j, early.value, pid, f);
    }
    if newest.Some? {
      assert newest.value < j;
      RecordMentionsPrefix(last, msgs, j, newest.value, pid, f);
      RecordsDiffer(last, msgs, early.value, newest.value);
    }
  }

  /** Unless a newer delivery that mentions the field is accepted, the view ends with what it
      had before the first newer delivery. */
  lemma OnlyNewerMatter(v: View, msgs: seq<OutboundMessage>, n: int, pid: ParticipantId, f: Field)
    requires AllPatches(msgs)
    requires forall i | 0 <= i < |msgs| && RecordMentions(v.lastPatchSeq, msgs, i, pid, f) :: msgs[i].seqno <= n
    ensures Held(DeliverAll(v, msgs).participants, pid, f) ==
            Held(DeliverAll(v, msgs[..Before(msgs, n)]).participants, pid, f)
  {
    NewestIsEarly(v.lastPatchSeq, msgs, n, pid, f);
    FieldFromNewestMention(v, msgs, pid, f);
    FieldFromNewestMention(v, msgs[..Before(msgs, n)], pid, f);
  }

  /** When exactly a view learns a field that later patches need not mention. Let the server's
      value be the same from step `k` on. Whatever part of the run's patches is delivered, in
      whatever order, the view ends with that value if and only if it accepts a patch that was
      broadcast from step `k` on and mentions the field, or it already held the value when the
      first patch of that time arrived. */
  lemma FieldConvergesIffAccepted(
    viewer: ParticipantId, steps: seq<(Step, nat)>, worlds: seq<World>, k: nat,
    v: View, msgs: seq<OutboundMessage>, pid: ParticipantId, f: Field, value: Point)
    requires IsRun(viewer, steps, worlds) && HeldSince(worlds, k, pid, f, value) && DeliveryOf(steps, worlds, msgs)
    ensures var n := worlds[k].seqno;
            Held(DeliverAll(v, msgs).participants, pid, f) == ServerValue(worlds[|steps|].session.value, pid, f) <==>
              || (exists i :: 0 <= i < |msgs| && RecordMentions(v.lastPatchSeq, msgs, i, pid, f) && msgs[i].seqno > n)
              || Held(DeliverAll(v, msgs[..Before(msgs, n)]).participants, pid, f) == Some(value)
  {
    var n := worlds[k].seqno;
    FieldFromNewestMention(v, msgs, pid, f);
    if i :| 0 <= i < |msgs| && RecordMentions(v.lastPatchSeq, msgs, i, pid, f) && msgs[i].seqno > n {
      var newest := NewestMention(v.lastPatchSeq, msgs, pid, f).value;
      assert msgs[newest] in msgs && msgs[newest].seqno > n;
      WindowCarries(viewer, steps, worlds, k, msgs, msgs[newest], pid, f, value);
    } else {
      OnlyNewerMatter(v, msgs, n, pid, f);
    }
  }

  // ---- a welcome in between ----

  /** The step that broadcast `m`. */
  ghost function EmittedAt(steps: seq<(Step, nat)>, worlds: seq<World>, m: OutboundMessage): (i: nat)
    requires |worlds| == |steps| + 1
    requires exists i :: 0 <= i < |steps| && Emission(steps, worlds, i) == Some(m)
    ensures i < |steps| && Emission(steps, worlds, i) == Some(m)
  {
    var i: nat :| i < |steps| && Emission(steps, worlds, i) == Some(m);
    i
  }

  /** The flush whose content `m` carries: its own, or the one it resends. */
  ghost function FlushOf(steps: seq<(Step, nat)>, worlds: seq<World>, m: OutboundMessage): (s: Option<nat>)
    requires |worlds| == |steps| + 1
    ensures s.Some? ==> IsFlush(steps, worlds, s.value)
  {
    if exists i :: 0 <= i < |steps| && Emission(steps, worlds, i) == Some(m)
    then LastFlush(steps, worlds, EmittedAt(steps, worlds, m) + 1) else None
  }

  /** What a broadcast says of a field is the server's value at the flush it repeats. */
  lemma BroadcastSaysFlush(
    viewer: ParticipantId, steps: seq<(Step, nat)>, worlds: seq<World>, m: OutboundMessage,
    pid: ParticipantId, f: Field)
    requires IsRun(viewer, steps, worlds)
    requires exists i :: 0 <= i < |steps| && Emission(steps, worlds, i) == Some(m)
    requires Mention(m.patches, pid, f).Some?
    ensures var s := FlushOf(steps, worlds, m);
            s.Some? && ServerValue(worlds[s.value].session.value, pid, f) == Mention(m.patches, pid, f)
  {
    EmissionRepeats(viewer, steps, worlds, EmittedAt(steps, worlds, m));
    var s := FlushOf(steps, worlds, m).value;
    assert m.patches == steps[s].0.patches;
    assert Enabled(worlds[s], steps[s].0);
    FlushIsCurrent(worlds[s].session.value, steps[s].0.patches, pid, f);
  }

  /** The welcome of step `h` reaches a view after the messages `a`, of whatever kind and
      however new, and before the patches `b`. In the end the view agrees with the server on a
      field if and only if the newest patch accepted from `b` that mentions it repeats a flush at
      which the server already held today's value; or none mentions it and the server held that
      value at step `h`. What `a` brought does not count, except that `b` must still be newer
      than it to be accepted. */
  lemma LateWelcomeIff(
    viewer: ParticipantId, steps: seq<(Step, nat)>, worlds: seq<World>, h: nat, v: View,
    a: seq<OutboundMessage>, b: seq<OutboundMessage>, pid: ParticipantId, f: Field)
    requires IsRun(viewer, steps, worlds) && h < |steps| && steps[h].0.HelloStep? && DeliveryOf(steps, worlds, b)
    requires worlds[|steps|].session.Some?
    ensures var last := DeliverAll(v, a).lastPatchSeq;
            var after := DeliverAll(v, a + [Welcome(steps[h].0.snaps)] + b).participants;
            var today := ServerValue(worlds[|steps|].session.value, pid, f);
            Held(after, pid, f) == today <==>
              match NewestMention(last, b, pid, f)
              case Some(i) =>
                var s := FlushOf(steps, worlds, b[i]);
                s.Some? && ServerValue(worlds[s.value].session.value, pid, f) == today
              case None => ServerValue(worlds[h + 1].session.value, pid, f) == today
  {
    var snaps := steps[h].0.snaps;
    var welcomed := Deliver(DeliverAll(v, a), Welcome(snaps));
    assert (a + [Welcome(snaps)])[..|a|] == a;
    DeliverAllConcat(v, a + [Welcome(snaps)], b);
    FieldFromNewestMention(welcomed, b, pid, f);
    assert Enabled(worlds[h], steps[h].0) && worlds[h + 1] == Next(worlds[h], viewer, steps[h].0, steps[h].1);
    WelcomeCarries(worlds[h + 1].session.value, snaps, pid, f);
    var newest := NewestMention(welcomed.lastPatchSeq, b, pid, f);
    if newest.Some? {
      assert b[newest.value] in b;
      BroadcastSaysFlush(viewer, steps, worlds, b[newest.value], pid, f);
    }
  }
}
