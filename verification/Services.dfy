/** The two server timers: the presence tick (TickScheduler.ts) and the TTL reaper (Reaper.ts). */
module Services {
  import opened Wrappers
  import opened Protocol
  import opened Presence
  import opened Registry
  import opened Hub
  import opened Scheduler
  import opened Server
  import opened Audit
  import Ordering

  ghost function StateOf(registry: SessionRegistry, hub: BroadcastHub): ServerState
    reads registry, hub
  {
    ServerState(registry.sessions, hub.State(), hub.broadcasts)
  }

  type Settling = map<SessionId, SettleEntry>

  function Lookup(settling: Settling, sid: SessionId): Option<SettleEntry> {
    if sid in settling then Some(settling[sid]) else None
  }

  function Announce(sid: SessionId, out: Option<OutboundMessage>): seq<Broadcast> {
    if out.Some? then [Broadcast(sid, out.value, None)] else []
  }

  /** What the tick does to one session of the registry. */
  function ResultOf(
    before: Sessions, settled: Settling, sid: SessionId, order: seq<ParticipantPatch>, seqno: nat, now: int): TickResult
    requires sid in before
  {
    TickSession(before[sid], Lookup(settled, sid), seqno, now, order)
  }

  /** `sid` has been ticked: `sessions` and `settling` hold what `ResultOf` says. */
  ghost predicate TickedAt(
    sessions: Sessions, settling: Settling, before: Sessions, settled: Settling,
    sid: SessionId, order: seq<ParticipantPatch>, seqno: nat, now: int)
  {
    && sid in before && sid in sessions
    && sessions[sid] == ResultOf(before, settled, sid, order, seqno, now).session
    && Lookup(settling, sid) == ResultOf(before, settled, sid, order, seqno, now).settle
  }

  /** One announcement for each of the first |orders| sessions that has a patch to send. */
  function AnnounceEach(
    before: Sessions, settled: Settling, sids: seq<SessionId>, orders: seq<seq<ParticipantPatch>>, seqno: nat,
    now: int): seq<Broadcast>
    requires |orders| <= |sids| && forall sid | sid in sids :: sid in before
  {
    if |orders| == 0 then [] else
    var n := |orders| - 1;
    AnnounceEach(before, settled, sids, orders[..n], seqno, now)
      + Announce(sids[n], ResultOf(before, settled, sids[n], orders[n], seqno, now).out)
  }

  lemma {:induction false} AnnouncementsArePatches(
    before: Sessions, settled: Settling, sids: seq<SessionId>, orders: seq<seq<ParticipantPatch>>, seqno: nat, now: int)
    requires |orders| <= |sids| && forall sid | sid in sids :: sid in before
    ensures PatchesOnly(AnnounceEach(before, settled, sids, orders, seqno, now))
  {
    if |orders| > 0 { AnnouncementsArePatches(before, settled, sids, orders[..|orders| - 1], seqno, now); }
  }

  /** The sessions a tick flushes. */
  function Flushed(sids: seq<SessionId>, orders: seq<seq<ParticipantPatch>>): set<SessionId>
    requires |orders| == |sids|
  {
    set i | 0 <= i < |sids| && |orders[i]| > 0 :: sids[i]
  }

  lemma FlushedIff(sids: seq<SessionId>, orders: seq<seq<ParticipantPatch>>, i: nat)
    requires Ordering.NoDup(sids) && |orders| == |sids| && i < |sids|
    ensures sids[i] in Flushed(sids, orders) <==> |orders[i]| > 0
  {
  }

  lemma TickedSession(
    sessions: Sessions, settling: Settling, before: Sessions, settled: Settling,
    sids: seq<SessionId>, orders: seq<seq<ParticipantPatch>>, seqno: nat, now: int, i: nat)
    requires Progress(sessions, settling, before, settled, sids, orders, seqno, now) && i < |orders|
    ensures sids[i] in before && sids[i] in sessions
    ensures sessions[sids[i]] == if |orders[i]| > 0 then ClearDirty(before[sids[i]]) else before[sids[i]]
  {
    hide Coalesces, ClearDirty;
    assert TickedAt(sessions, settling, before, settled, sids[i], orders[i], seqno, now);
  }

  /** A finished tick's registry is that of the server step. */
  lemma TickedIsTickState(
    st: ServerState, sessions: Sessions, settling: Settling, settled: Settling,
    sids: seq<SessionId>, orders: seq<seq<ParticipantPatch>>, seqno: nat, now: int, batch: seq<Broadcast>)
    requires Ordering.NoDup(sids) && |orders| == |sids| && sessions.Keys == st.sessions.Keys
    requires forall sid :: sid in sids <==> sid in st.sessions
    requires Progress(sessions, settling, st.sessions, settled, sids, orders, seqno, now)
    ensures TickState(st, Flushed(sids, orders), batch) == ServerState(sessions, st.hub, st.broadcasts + batch)
  {
    hide Coalesces, ClearDirty;
    var after := TickState(st, Flushed(sids, orders), batch).sessions;
    forall sid | sid in st.sessions ensures after[sid] == sessions[sid] {
      var i :| 0 <= i < |sids| && sids[i] == sid;
      FlushedIff(sids, orders, i);
      TickedSession(sessions, settling, st.sessions, settled, sids, orders, seqno, now, i);
    }
    assert after == sessions;
  }

  /** A tick in progress: the first |orders| of `sids` have been ticked. */
  ghost predicate Progress(
    sessions: Sessions, settling: Settling, before: Sessions, settled: Settling,
    sids: seq<SessionId>, orders: seq<seq<ParticipantPatch>>, seqno: nat, now: int)
  {
    && |orders| <= |sids| && sessions.Keys == before.Keys
    && (forall k | 0 <= k < |sids| :: sids[k] in before)
    && (forall k | 0 <= k < |orders| :: Coalesces(before[sids[k]], orders[k]))
    && (forall k | 0 <= k < |orders| :: TickedAt(sessions, settling, before, settled, sids[k], orders[k], seqno, now))
    && (forall k | |orders| <= k < |sids| ::
          sessions[sids[k]] == before[sids[k]] && Lookup(settling, sids[k]) == Lookup(settled, sids[k]))
    && (forall sid | sid !in before :: Lookup(settling, sid) == Lookup(settled, sid))
  }

  lemma ProgressStep(
    sessions: Sessions, settling: Settling, next: Settling, before: Sessions, settled: Settling,
    sids: seq<SessionId>, orders: seq<seq<ParticipantPatch>>, order: seq<ParticipantPatch>, seqno: nat, now: int)
    requires Progress(sessions, settling, before, settled, sids, orders, seqno, now)
    requires |orders| < |sids| && Ordering.NoDup(sids)
    requires var sid := sids[|orders|];
             && Coalesces(sessions[sid], order)
             && Lookup(next, sid) == ResultOf(sessions, settling, sid, order, seqno, now).settle
             && forall other | other != sid :: Lookup(next, other) == Lookup(settling, other)
    ensures var sid := sids[|orders|];
            var r := ResultOf(before, settled, sid, order, seqno, now);
            && r == ResultOf(sessions, settling, sid, order, seqno, now)
            && Progress(sessions[sid := r.session], next, before, settled, sids, orders + [order], seqno, now)
  {
    var n := |orders|;
    var r := ResultOf(before, settled, sids[n], order, seqno, now);
    assert sessions[sids[n]] == before[sids[n]];
    var after := sessions[sids[n] := r.session];
    forall k | 0 <= k < n + 1
      ensures TickedAt(after, next, before, settled, sids[k], (orders + [order])[k], seqno, now)
    {
      if k < n { assert TickedAt(sessions, settling, before, settled, sids[k], orders[k], seqno, now); }
    }
  }

  class TickScheduler {
    const registry: SessionRegistry
    const hub: BroadcastHub
    var seqno: nat
    var settling: Settling

    constructor (registry: SessionRegistry, hub: BroadcastHub)
      ensures this.registry == registry && this.hub == hub && seqno == 0 && settling == map[]
    {
      this.registry, this.hub, seqno, settling := registry, hub, 0, map[];
    }

    /** One tick of every session, each as `TickSession` says, under one fresh seqno; `sids`
        and `orders` are the iteration orders, `batches` what each announcement hands over. As
        a step of the server it is `TickState`. */
    method Tick(now: int)
      returns (ghost sids: seq<SessionId>, ghost orders: seq<seq<ParticipantPatch>>, ghost batches: seq<seq<Handoff>>)
      requires Keyed(registry.sessions)
      modifies this, registry, hub
      ensures seqno == old(seqno) + 1
      ensures Ordering.NoDup(sids) && (forall sid :: sid in sids <==> sid in old(registry.sessions))
          && |orders| == |sids|
      ensures Progress(registry.sessions, settling, old(registry.sessions), old(settling), sids, orders, seqno, now)
      ensures StateOf(registry, hub) ==
              TickState(old(StateOf(registry, hub)), Flushed(sids, orders),
                        AnnounceEach(old(registry.sessions), old(settling), sids, orders, seqno, now))
      ensures hub.openSockets == old(hub.openSockets) && hub.handed == old(hub.handed) + Ordering.Flat(batches)
      ensures HandsEach(hub.State(), hub.openSockets,
                        AnnounceEach(old(registry.sessions), old(settling), sids, orders, seqno, now), batches)
    {
      seqno := seqno + 1;
      var all := Ordering.Elements(registry.sessions.Keys);
      sids := all;
      orders, batches := TickEach(all, now);
      TickedIsTickState(old(StateOf(registry, hub)), registry.sessions, settling, old(settling), sids, orders, seqno,
          now,
                        AnnounceEach(old(registry.sessions), old(settling), sids, orders, seqno, now));
    }

    /** The tick's loop over `registry.all()`. */
    method TickEach(all: seq<SessionId>, now: int)
      returns (ghost orders: seq<seq<ParticipantPatch>>, ghost batches: seq<seq<Handoff>>)
      requires Keyed(registry.sessions) && Ordering.NoDup(all)
      requires forall sid | sid in all :: sid in registry.sessions
      modifies this`settling, registry, hub
      ensures |orders| == |all|
      ensures Progress(registry.sessions, settling, old(registry.sessions), old(settling), all, orders, seqno, now)
      ensures hub.broadcasts ==
              old(hub.broadcasts) + AnnounceEach(old(registry.sessions), old(settling), all, orders, seqno, now)
      ensures hub.State() == old(hub.State()) && hub.openSockets == old(hub.openSockets)
      ensures hub.handed == old(hub.handed) + Ordering.Flat(batches)
      ensures HandsEach(hub.State(), hub.openSockets,
                        AnnounceEach(old(registry.sessions), old(settling), all, orders, seqno, now), batches)
    {
      ghost var before, settled := registry.sessions, settling;
      orders, batches := [], [];
      var i := 0;
      while i < |all|
        invariant 0 <= i <= |all| && |orders| == i
        invariant Progress(registry.sessions, settling, before, settled, all, orders, seqno, now)
        invariant hub.broadcasts == old(hub.broadcasts) + AnnounceEach(before, settled, all, orders, seqno, now)
        invariant hub.State() == old(hub.State()) && hub.openSockets == old(hub.openSockets)
        invariant hub.handed == old(hub.handed) + Ordering.Flat(batches)
        invariant HandsEach(hub.State(), hub.openSockets, AnnounceEach(before, settled, all, orders, seqno, now),
            batches)
      {
        ghost var sofar := AnnounceEach(before, settled, all, orders, seqno, now);
        ghost var order, more, moreBatches := TickNext(all, i, orders, before, settled, now);
        Ordering.ConcatAssociative(old(hub.broadcasts), sofar, more);
        Ordering.ConcatAssociative(old(hub.handed), Ordering.Flat(batches), Ordering.Flat(moreBatches));
        HandsMore(hub.State(), hub.openSockets, sofar, batches, more, moreBatches);
        orders, batches := orders + [order], batches + moreBatches;
        i := i + 1;
      }
    }

    /** One iteration, with what it does to the tick in progress. */
    method TickNext(
      all: seq<SessionId>, i: nat, ghost orders: seq<seq<ParticipantPatch>>, ghost before: Sessions,
      ghost settled: Settling,
      now: int)
      returns (ghost order: seq<ParticipantPatch>, ghost more: seq<Broadcast>, ghost batches: seq<seq<Handoff>>)
      requires Keyed(before) && Ordering.NoDup(all) && i == |orders| < |all|
      requires forall sid | sid in all :: sid in before
      requires Progress(registry.sessions, settling, before, settled, all, orders, seqno, now)
      modifies this`settling, registry, hub
      ensures Progress(registry.sessions, settling, before, settled, all, orders + [order], seqno, now)
      ensures hub.broadcasts == old(hub.broadcasts) + more
      ensures AnnounceEach(before, settled, all, orders + [order], seqno, now) ==
              AnnounceEach(before, settled, all, orders, seqno, now) + more
      ensures hub.State() == old(hub.State()) && hub.openSockets == old(hub.openSockets)
      ensures hub.handed == old(hub.handed) + Ordering.Flat(batches)
      ensures HandsEach(hub.State(), hub.openSockets, more, batches)
    {
      ghost var was, waiting := registry.sessions, settling;
      assert was[all[i]] == before[all[i]];
      order, batches := TickOne(all[i], now);
      more := Announce(all[i], ResultOf(was, waiting, all[i], order, seqno, now).out);
      ProgressStep(was, waiting, settling, before, settled, all, orders, order, seqno, now);
      assert (orders + [order])[..i] == orders;
    }

    /** The body of the tick's loop. */
    method TickOne(sid: SessionId, now: int)
      returns (ghost order: seq<ParticipantPatch>, ghost batches: seq<seq<Handoff>>)
      requires sid in registry.sessions && registry.sessions[sid].sid == sid
      modifies this`settling, registry, hub
      ensures Coalesces(old(registry.sessions)[sid], order)
      ensures var r := TickSession(old(registry.sessions)[sid], Lookup(old(settling), sid), seqno, now, order);
              && registry.sessions == old(registry.sessions)[sid := r.session]
              && Lookup(settling, sid) == r.settle
              && hub.broadcasts == old(hub.broadcasts) + Announce(sid, r.out)
              && HandsEach(hub.State(), hub.openSockets, Announce(sid, r.out), batches)
      ensures forall other | other != sid :: Lookup(settling, other) == Lookup(old(settling), other)
      ensures hub.State() == old(hub.State()) && hub.openSockets == old(hub.openSockets)
      ensures hub.handed == old(hub.handed) + Ordering.Flat(batches)
    {
      hide FanOut, Recipients, Coalesces, HandsEach, Ordering.Flat;
      var session := registry.sessions[sid];
      var patches := ToPatch(session);
      order, batches := patches, [];
      HandsNone(hub.State(), hub.openSockets);
      assert registry.sessions == registry.sessions[sid := session];
      if |patches| > 0 {
        ghost var batch := hub.BroadcastToSession(session.sid, Patch(seqno, patches), None);
        registry.Save(ClearDirty(session));
        settling := settling[session.sid := SettleEntry(patches, now + PATCH_SETTLE_WINDOW_MS)];
        batches := [batch];
        HandsOne(hub.State(), hub.openSockets, Broadcast(session.sid, Patch(seqno, patches), None), batch);
        return;
      }
      if session.sid !in settling { return; }
      var settle := settling[session.sid];
      if now >= settle.settleUntil {
        settling := settling - {session.sid};
        return;
      }
      ghost var batch := hub.BroadcastToSession(session.sid, Patch(seqno, settle.patches), None);
      batches := [batch];
      HandsOne(hub.State(), hub.openSockets, Broadcast(session.sid, Patch(seqno, settle.patches), None), batch);
    }
  }

  // ---- Reaper.ts ----

  function RecordReaped(log: Log, reaped: seq<ReapedParticipant>, ids: nat -> string, now: int): Log {
    if |reaped| == 0 then log else
    var n := |reaped| - 1;
    RecordEntry(RecordReaped(log, reaped[..n], ids, now), InferredEnd(reaped[n].sid, reaped[n].pid, ids(n), now))
  }

  /** `r` is an inferred end for one of `reaped`, made at `now`. */
  predicate IsReapersEnd(r: AuditRecord, reaped: seq<ReapedParticipant>, now: int) {
    && r.input.kind.SessionEnd? && r.input.source.Inferred? && r.input.recordedAt == now
    && exists i :: 0 <= i < |reaped| && r.input.sid == reaped[i].sid && r.input.pid == reaped[i].pid
  }

  /** Every participant reaped ends up with a standing end that the reaper has reported, and all
      the log gains is such ends; what was stored stays, apart from reports. */
  lemma {:induction false} ReapedAreClosed(log: Log, reaped: seq<ReapedParticipant>, ids: nat -> string, now: int)
    requires DistinctIds(log) && NoLaterThan(log, now)
    requires (forall i: nat, j: nat | i < j :: ids(i) != ids(j)) && forall i: nat :: !KnowsId(log, ids(i))
    ensures var later := RecordReaped(log, reaped, ids, now);
            && DistinctIds(later) && NoLaterThan(later, now) && Extends(log, later)
            && (forall i: nat | i >= |reaped| :: !KnowsId(later, ids(i)))
            && (forall i | 0 <= i < |reaped| :: EndsWith(later, reaped[i].sid, reaped[i].pid, Inferred, now))
            && (forall k | |log| <= k < |later| :: IsReapersEnd(later[k], reaped, now))
  {
    if |reaped| > 0 {
      var n := |reaped| - 1;
      var init, sofar := reaped[..n], RecordReaped(log, reaped[..n], ids, now);
      ReapedAreClosed(log, init, ids, now);
      ReapOneMore(log, sofar, reaped, ids, now);
    }
  }

  lemma ReapOneMore(log: Log, sofar: Log, reaped: seq<ReapedParticipant>, ids: nat -> string, now: int)
    requires |reaped| > 0 && DistinctIds(sofar) && NoLaterThan(sofar, now) && Extends(log, sofar)
    requires forall i: nat, j: nat | i < j :: ids(i) != ids(j)
    requires var n := |reaped| - 1;
             && (forall i: nat | i >= n :: !KnowsId(sofar, ids(i)))
             && (forall i | 0 <= i < n :: EndsWith(sofar, reaped[..n][i].sid, reaped[..n][i].pid, Inferred, now))
             && (forall k | |log| <= k < |sofar| :: IsReapersEnd(sofar[k], reaped[..n], now))
    ensures var n := |reaped| - 1;
            var later := RecordEntry(sofar, InferredEnd(reaped[n].sid, reaped[n].pid, ids(n), now));
            && DistinctIds(later) && NoLaterThan(later, now) && Extends(log, later)
            && (forall i: nat | i >= |reaped| :: !KnowsId(later, ids(i)))
            && (forall i | 0 <= i < |reaped| :: EndsWith(later, reaped[i].sid, reaped[i].pid, Inferred, now))
            && (forall k | |log| <= k < |later| :: IsReapersEnd(later[k], reaped, now))
  {
    hide RecordEntry, FoldsInto, RecordedIn, EndsWith, IsStandingEnd;
    var n := |reaped| - 1;
    var entry := InferredEnd(reaped[n].sid, reaped[n].pid, ids(n), now);
    var later := RecordEntry(sofar, entry);
    assert !KnowsId(sofar, ids(n));
    RecordsAsPromised(sofar, entry);
    RecordExtends(sofar, entry);
    EndIsRecorded(sofar, entry);
    forall i | 0 <= i < n ensures EndsWith(later, reaped[i].sid, reaped[i].pid, Inferred, now) {
      assert reaped[..n][i] == reaped[i] && EndsWith(sofar, reaped[..n][i].sid, reaped[..n][i].pid, Inferred, now);
      EndsWithStays(sofar, entry, reaped[i].sid, reaped[i].pid, Inferred, now);
    }
    ExtendsOn(log, sofar, later);
    forall k | |log| <= k < |later| ensures IsReapersEnd(later[k], reaped, now) {
      if k < |sofar| { assert IsReapersEnd(sofar[k], reaped[..n], now) && later[k].input == sofar[k].input; }
    }
  }

  class Reaper {
    const registry: SessionRegistry
    const hub: BroadcastHub
    const auditLog: AuditLog
    const ttlMs: int

    constructor (registry: SessionRegistry, hub: BroadcastHub, auditLog: AuditLog, ttlMs: int)
      ensures this.registry == registry && this.hub == hub && this.auditLog == auditLog && this.ttlMs == ttlMs
    {
      this.registry, this.hub, this.auditLog, this.ttlMs := registry, hub, auditLog, ttlMs;
    }

    /** Everyone stale leaves the registry and the hub, is announced as gone, and gets an
        inferred end. `ids` stands for the generated event ids. */
    method Sweep(now: int, ids: nat -> string)
      returns (reaped: seq<ReapedParticipant>, ghost batches: seq<seq<Handoff>>)
      requires Keyed(registry.sessions)
      modifies registry, hub, auditLog
      ensures ReportsStale(reaped, old(registry.sessions), old(registry.sessions).Keys, ttlMs, now)
      ensures StateOf(registry, hub) == ReapState(old(StateOf(registry, hub)), reaped, ttlMs, now)
      ensures auditLog.records == RecordReaped(old(auditLog.records), reaped, ids, now)
      ensures hub.openSockets == old(hub.openSockets) && hub.handed == old(hub.handed) + Ordering.Flat(batches)
      ensures ReapHands(old(StateOf(registry, hub)), hub.openSockets, reaped, batches)
    {
      hide FanOut, Recipients, RecordEntry, Unregister, ReportsStale, Keyed;
      ghost var before := StateOf(registry, hub);
      reaped := registry.ReapStale(ttlMs, now);
      batches := [];
      var i := 0;
      while i < |reaped|
        invariant 0 <= i <= |reaped|
        invariant registry.sessions == ReapedSessions(old(registry.sessions), ttlMs, now)
        invariant hub.State() == UnregisterEach(before.hub, reaped[..i])
        invariant hub.broadcasts == old(hub.broadcasts) + LeaveBroadcasts(reaped[..i])
        invariant auditLog.records == RecordReaped(old(auditLog.records), reaped[..i], ids, now)
        invariant hub.openSockets == old(hub.openSockets) && hub.handed == old(hub.handed) + Ordering.Flat(batches)
        invariant ReapHands(before, hub.openSockets, reaped[..i], batches)
      {
        assert reaped[..i + 1][..i] == reaped[..i];
        ghost var batch := SweepOne(reaped[i], ids(i), now);
        ReapHandsMore(before, hub.openSockets, reaped, i, batches, batch);
        Ordering.ConcatAssociative(old(hub.handed), Ordering.Flat(batches), batch);
        batches := batches + [batch];
        i := i + 1;
      }
      assert reaped[..i] == reaped;
    }

    /** The body of the sweep's loop. */
    method SweepOne(participant: ReapedParticipant, id: string, now: int) returns (ghost batch: seq<Handoff>)
      modifies hub, auditLog
      ensures hub.State() == Unregister(old(hub.State()), participant.pid) && hub.openSockets == old(hub.openSockets)
      ensures hub.broadcasts ==
              old(hub.broadcasts) + [Broadcast(participant.sid, Leave(participant.pid), Some(participant.pid))]
      ensures hub.handed == old(hub.handed) + batch
      ensures FanOut(batch, Recipients(hub.State(), hub.openSockets, participant.sid, Some(participant.pid)),
                     Leave(participant.pid))
      ensures auditLog.records ==
              RecordEntry(old(auditLog.records), InferredEnd(participant.sid, participant.pid, id, now))
    {
      hub.UnregisterPid(participant.pid);
      var created := auditLog.Record(InferredEnd(participant.sid, participant.pid, id, now));
      batch := hub.BroadcastToSession(participant.sid, Leave(participant.pid), Some(participant.pid));
    }
  }

  lemma ReapHandsMore(
    st: ServerState, open: set<nat>, reaped: seq<ReapedParticipant>, i: nat, batches: seq<seq<Handoff>>,
    batch: seq<Handoff>)
    requires i < |reaped| && ReapHands(st, open, reaped[..i], batches)
    requires FanOut(batch,
        Recipients(UnregisterEach(st.hub, reaped[..i + 1]), open, reaped[i].sid, Some(reaped[i].pid)),
                    Leave(reaped[i].pid))
    ensures ReapHands(st, open, reaped[..i + 1], batches + [batch])
    ensures Ordering.Flat(batches + [batch]) == Ordering.Flat(batches) + batch
  {
    var sofar, next := reaped[..i], reaped[..i + 1];
    assert (batches + [batch])[..i] == batches;
    forall k | 0 <= k < i + 1
      ensures FanOut((batches + [batch])[k],
                     Recipients(UnregisterEach(st.hub, next[..k + 1]), open, next[k].sid, Some(next[k].pid)),
                         Leave(next[k].pid))
    {
      assert next[..k + 1] == reaped[..k + 1] && next[k] == reaped[k];
      if k < i { assert sofar[..k + 1] == reaped[..k + 1] && sofar[k] == reaped[k]; }
    }
  }
}
