/** The server's roster in two places -- the registry's sessions and the hub's index -- and
    what keeps them in step (ConnectionController.ts, Reaper.ts, TickScheduler.ts). */
module Server {
  import opened Wrappers
  import opened Protocol
  import opened Presence
  import opened Registry
  import opened Hub
  import opened Scheduler

  datatype ServerState = ServerState(sessions: Sessions, hub: HubState, broadcasts: seq<Broadcast>)

  const STARTED := ServerState(map[], EMPTY_HUB, [])

  function RosterOf(st: ServerState, sid: SessionId): set<ParticipantId> {
    if sid in st.sessions then st.sessions[sid].participants.Keys else {}
  }

  // ---- what each handler does ----

  function SessionAfterHello(st: ServerState, sid: SessionId, m: InboundMessage, now: int): Session
    requires m.Hello?
  {
    ApplyEvent(GetOrCreateSession(st.sessions, sid, now), m).state
  }

  function HelloState(st: ServerState, sid: SessionId, socket: nat, m: InboundMessage, now: int): ServerState
    requires m.Hello?
  {
    var session := GetOrCreateSession(st.sessions, sid, now);
    var next := SessionAfterHello(st, sid, m, now);
    ServerState(
      st.sessions[sid := session][next.sid := next],
      Register(st.hub, Connection(m.pid, sid, socket)),
      if m.pid in session.participants then st.broadcasts
      else st.broadcasts + [Broadcast(sid, JoinOf(next.participants[m.pid]), Some(m.pid))])
  }

  /** `removeFromSession`: a bye, or a closed socket. */
  function LeaveState(st: ServerState, sid: SessionId, pid: ParticipantId): ServerState {
    var hub := Unregister(st.hub, pid);
    if sid !in st.sessions || pid !in st.sessions[sid].participants then st.(hub := hub)
    else
      var next := RemoveParticipant(st.sessions[sid], pid);
      ServerState(st.sessions[next.sid := next], hub, st.broadcasts + [Broadcast(sid, Leave(pid), Some(pid))])
  }

  function PresenceEventState(st: ServerState, sid: SessionId, m: InboundMessage): ServerState
    requires m.Cursor? || m.Scroll?
  {
    if sid !in st.sessions then st else
    var next := ApplyEvent(st.sessions[sid], m).state;
    st.(sessions := st.sessions[next.sid := next])
  }

  function UnregisterEach(h: HubState, reaped: seq<ReapedParticipant>): HubState {
    if |reaped| == 0 then h else Unregister(UnregisterEach(h, reaped[..|reaped| - 1]), reaped[|reaped| - 1].pid)
  }

  function LeaveBroadcasts(reaped: seq<ReapedParticipant>): seq<Broadcast> {
    if |reaped| == 0 then [] else
    var r := reaped[|reaped| - 1];
    LeaveBroadcasts(reaped[..|reaped| - 1]) + [Broadcast(r.sid, Leave(r.pid), Some(r.pid))]
  }

  /** A reaper sweep that finds `reaped`, in the order it finds them. */
  function ReapState(st: ServerState, reaped: seq<ReapedParticipant>, ttl: int, now: int): ServerState {
    ServerState(ReapedSessions(st.sessions, ttl, now), UnregisterEach(st.hub, reaped),
        st.broadcasts + LeaveBroadcasts(reaped))
  }

  /** A tick clears dirty marks and broadcasts patches; `flushed` are the sessions it cleared. */
  function TickState(st: ServerState, flushed: set<SessionId>, patches: seq<Broadcast>): ServerState {
    st.(sessions := map sid | sid in st.sessions ::
                      if sid in flushed then ClearDirty(st.sessions[sid]) else st.sessions[sid],
        broadcasts := st.broadcasts + patches)
  }

  // ---- what each handler hands over ----

  /** A hello: a welcome listing the roster to its sender, and a join to the others if it is new. */
  ghost predicate HelloHands(
    st: ServerState, open: set<nat>, sid: SessionId, socket: nat, m: InboundMessage, now: int,
    snaps: seq<ParticipantSnapshot>, batch: seq<Handoff>)
    requires m.Hello? && Keyed(st.sessions)
  {
    var next, hub := SessionAfterHello(st, sid, m, now), Register(st.hub, Connection(m.pid, sid, socket));
    var greeting := if socket in open then [Handoff(m.pid, Welcome(snaps))] else [];
    && ListsRoster(next, snaps)
    && greeting <= batch
    && var others := batch[|greeting|..];
       if m.pid in RosterOf(st, sid) then others == []
       else FanOut(others, Recipients(hub, open, sid, Some(m.pid)), JoinOf(next.participants[m.pid]))
  }

  /** A bye or a close: a leave to whoever stays, if the participant was there. */
  ghost predicate LeaveHands(
    st: ServerState, open: set<nat>, sid: SessionId, pid: ParticipantId, batch: seq<Handoff>)
  {
    if pid !in RosterOf(st, sid) then batch == []
    else FanOut(batch, Recipients(Unregister(st.hub, pid), open, sid, Some(pid)), Leave(pid))
  }

  /** A sweep: one leave for each participant reaped, to whoever is still registered by then. */
  ghost predicate ReapHands(
    st: ServerState, open: set<nat>, reaped: seq<ReapedParticipant>, batches: seq<seq<Handoff>>)
  {
    && |batches| == |reaped|
    && forall i | 0 <= i < |reaped| ::
         FanOut(batches[i],
             Recipients(UnregisterEach(st.hub, reaped[..i + 1]), open, reaped[i].sid, Some(reaped[i].pid)),
                Leave(reaped[i].pid))
  }

  /** What a hello announces is what it hands over: a join, to everyone reached in the session but
      the newcomer, who is now registered on its own socket. */
  lemma HelloIsAnnounced(
    st: ServerState, open: set<nat>, sid: SessionId, socket: nat, m: InboundMessage, now: int,
    snaps: seq<ParticipantSnapshot>, batch: seq<Handoff>)
    requires m.Hello? && Keyed(st.sessions) && HelloHands(st, open, sid, socket, m, now, snaps, batch)
    requires m.pid !in RosterOf(st, sid)
    ensures var after := HelloState(st, sid, socket, m, now);
            && m.pid in after.hub.connections && after.hub.connections[m.pid] == Connection(m.pid, sid, socket)
            && |after.broadcasts| == |st.broadcasts| + 1 && after.broadcasts[..|st.broadcasts|] == st.broadcasts
            && var b := after.broadcasts[|st.broadcasts|];
               && b.sid == sid && b.message.Join? && b.exclude == Some(m.pid)
               && FanOut(batch[if socket in open then 1 else 0..], Recipients(after.hub, open, sid, Some(m.pid)),
                         b.message)
  {
  }

  /** Likewise a leave. */
  lemma LeaveIsAnnounced(
    st: ServerState, open: set<nat>, sid: SessionId, pid: ParticipantId, batch: seq<Handoff>)
    requires Keyed(st.sessions) && LeaveHands(st, open, sid, pid, batch) && pid in RosterOf(st, sid)
    ensures var after := LeaveState(st, sid, pid);
            && |after.broadcasts| == |st.broadcasts| + 1 && after.broadcasts[..|st.broadcasts|] == st.broadcasts
            && var b := after.broadcasts[|st.broadcasts|];
               && b.sid == sid && b.message == Leave(pid) && b.exclude == Some(pid)
               && FanOut(batch, Recipients(after.hub, open, sid, Some(pid)), b.message)
  {
  }

  // ---- the invariant ----

  /** The hub's two maps say the same thing, and no bucket is left empty. */
  ghost predicate HubAgrees(h: HubState) {
    && (forall pid | pid in h.connections :: h.connections[pid].pid == pid)
    && (forall sid, pid :: pid in h.ParticipantsOf(sid) <==> pid in h.connections && h.connections[pid].sid == sid)
    && (forall sid | sid in h.bySession :: h.bySession[sid] != {})
  }

  /** Registering keeps the maps in agreement exactly when the pid is not already
      registered under another session: its entry there would be left behind. */
  lemma RegisterKeepsAgreementIff(h: HubState, c: Connection)
    requires HubAgrees(h)
    ensures HubAgrees(Register(h, c)) <==> c.pid !in h.connections || h.connections[c.pid].sid == c.sid
  {
    var after := Register(h, c);
    if c.pid in h.connections && h.connections[c.pid].sid != c.sid {
      var left := h.connections[c.pid].sid;
      assert c.pid in h.ParticipantsOf(left);
      assert c.pid in after.ParticipantsOf(left) && after.connections[c.pid].sid != left;
    } else {
      forall sid, pid
        ensures pid in after.ParticipantsOf(sid) <==> pid in after.connections && after.connections[pid].sid == sid
      {
        assert pid in h.ParticipantsOf(sid) <==> pid in h.connections && h.connections[pid].sid == sid;
      }
    }
  }

  lemma UnregisterKeepsAgreement(h: HubState, pid: ParticipantId)
    requires HubAgrees(h)
    ensures HubAgrees(Unregister(h, pid))
    ensures forall sid :: Unregister(h, pid).ParticipantsOf(sid) == h.ParticipantsOf(sid) - {pid}
  {
    var after := Unregister(h, pid);
    forall sid ensures after.ParticipantsOf(sid) == h.ParticipantsOf(sid) - {pid} {
      assert pid in h.ParticipantsOf(sid) <==> pid in h.connections && h.connections[pid].sid == sid;
    }
    forall sid, p ensures p in after.ParticipantsOf(sid) <==>
        p in after.connections && after.connections[p].sid == sid {
      assert p in h.ParticipantsOf(sid) <==> p in h.connections && h.connections[p].sid == sid;
    }
  }

  /** Join broadcasts minus leave broadcasts of a session. */
  function Net(bs: seq<Broadcast>, sid: SessionId): int {
    if |bs| == 0 then 0 else
    var b := bs[|bs| - 1];
    Net(bs[..|bs| - 1], sid)
      + if b.sid != sid then 0 else if b.message.Join? then 1 else if b.message.Leave? then -1 else 0
  }

  lemma {:induction false} NetConcat(a: seq<Broadcast>, b: seq<Broadcast>, sid: SessionId)
    ensures Net(a + b, sid) == Net(a, sid) + Net(b, sid)
  {
    if |b| == 0 {
      assert a + b == a;
    } else {
      NetConcat(a, b[..|b| - 1], sid);
      assert (a + b)[..|a + b| - 1] == a + b[..|b| - 1];
    }
  }

  /** The hub indexes exactly each session's roster, under the ids they were registered with,
      and the announcements so far add up to it. */
  ghost predicate Lockstep(st: ServerState) {
    && Keyed(st.sessions)
    && HubAgrees(st.hub)
    && (forall sid :: st.hub.ParticipantsOf(sid) == RosterOf(st, sid))
    && (forall sid :: Net(st.broadcasts, sid) == |RosterOf(st, sid)|)
  }

  /** Whoever uses this pid now uses it with this session. */
  predicate SameSession(h: HubState, sid: SessionId, pid: ParticipantId) {
    pid !in h.connections || h.connections[pid].sid == sid
  }

  lemma HelloRoster(st: ServerState, sid: SessionId, socket: nat, m: InboundMessage, now: int)
    requires Keyed(st.sessions) && m.Hello?
    ensures var after := HelloState(st, sid, socket, m, now);
            && Keyed(after.sessions)
            && forall s :: RosterOf(after, s) == if s == sid then RosterOf(st, s) + {m.pid} else RosterOf(st, s)
  {
  }

  lemma HelloNet(st: ServerState, sid: SessionId, socket: nat, m: InboundMessage, now: int, s: SessionId)
    requires m.Hello?
    ensures Net(HelloState(st, sid, socket, m, now).broadcasts, s) ==
            Net(st.broadcasts, s) + if s == sid && m.pid !in RosterOf(st, sid) then 1 else 0
  {
    var after := HelloState(st, sid, socket, m, now);
    if m.pid !in RosterOf(st, sid) { assert after.broadcasts[..|st.broadcasts|] == st.broadcasts; }
  }

  lemma HelloInStep(st: ServerState, sid: SessionId, socket: nat, m: InboundMessage, now: int, s: SessionId)
    requires Lockstep(st) && m.Hello? && SameSession(st.hub, sid, m.pid)
    ensures var after := HelloState(st, sid, socket, m, now);
            && after.hub.ParticipantsOf(s) == RosterOf(after, s)
            && Net(after.broadcasts, s) == |RosterOf(after, s)|
  {
    HelloRoster(st, sid, socket, m, now);
    HelloNet(st, sid, socket, m, now, s);
    assert st.hub.ParticipantsOf(s) == RosterOf(st, s) && Net(st.broadcasts, s) == |RosterOf(st, s)|;
  }

  /** A hello keeps lockstep exactly when its pid is not live in another session. */
  lemma HelloKeepsLockstepIff(st: ServerState, sid: SessionId, socket: nat, m: InboundMessage, now: int)
    requires Lockstep(st) && m.Hello?
    ensures Lockstep(HelloState(st, sid, socket, m, now)) <==> SameSession(st.hub, sid, m.pid)
  {
    RegisterKeepsAgreementIff(st.hub, Connection(m.pid, sid, socket));
    if SameSession(st.hub, sid, m.pid) {
      HelloRoster(st, sid, socket, m, now);
      forall s { HelloInStep(st, sid, socket, m, now, s); }
    }
  }

  lemma LeaveRoster(st: ServerState, sid: SessionId, pid: ParticipantId)
    requires Lockstep(st) && SameSession(st.hub, sid, pid)
    ensures var after := LeaveState(st, sid, pid);
            Keyed(after.sessions) && forall s :: RosterOf(after, s) == RosterOf(st, s) - {pid}
  {
    forall s ensures pid in RosterOf(st, s) ==> s == sid {
      assert st.hub.ParticipantsOf(s) == RosterOf(st, s);
      assert pid in st.hub.ParticipantsOf(s) <==> pid in st.hub.connections && st.hub.connections[pid].sid == s;
    }
  }

  lemma LeaveNet(st: ServerState, sid: SessionId, pid: ParticipantId, s: SessionId)
    ensures Net(LeaveState(st, sid, pid).broadcasts, s) ==
            Net(st.broadcasts, s) - if s == sid && pid in RosterOf(st, sid) then 1 else 0
  {
    var after := LeaveState(st, sid, pid);
    if pid in RosterOf(st, sid) { assert after.broadcasts[..|st.broadcasts|] == st.broadcasts; }
  }

  lemma LeaveInStep(st: ServerState, sid: SessionId, pid: ParticipantId)
    requires Lockstep(st) && SameSession(st.hub, sid, pid)
    ensures Lockstep(LeaveState(st, sid, pid))
  {
    var after := LeaveState(st, sid, pid);
    UnregisterKeepsAgreement(st.hub, pid);
    LeaveRoster(st, sid, pid);
    forall s
      ensures after.hub.ParticipantsOf(s) == RosterOf(after, s)
      ensures Net(after.broadcasts, s) == |RosterOf(after, s)|
    {
      assert st.hub.ParticipantsOf(s) == RosterOf(st, s) && st.hub.ParticipantsOf(sid) == RosterOf(st, sid);
      assert pid in st.hub.ParticipantsOf(s) <==> pid in st.hub.connections && st.hub.connections[pid].sid == s;
      LeaveNet(st, sid, pid, s);
    }
  }

  /** A bye or close in one session takes the pid out of the hub wherever it is live now. So it
      keeps lockstep exactly when the pid is not live in another session. */
  lemma LeaveKeepsLockstepIff(st: ServerState, sid: SessionId, pid: ParticipantId)
    requires Lockstep(st)
    ensures Lockstep(LeaveState(st, sid, pid)) <==> SameSession(st.hub, sid, pid)
  {
    if SameSession(st.hub, sid, pid) {
      LeaveInStep(st, sid, pid);
    } else {
      var home, after := st.hub.connections[pid].sid, LeaveState(st, sid, pid);
      UnregisterKeepsAgreement(st.hub, pid);
      assert pid in st.hub.ParticipantsOf(home) && st.hub.ParticipantsOf(home) == RosterOf(st, home);
      assert pid in RosterOf(after, home) && pid !in after.hub.ParticipantsOf(home);
    }
  }

  lemma PresenceKeepsLockstep(st: ServerState, sid: SessionId, m: InboundMessage)
    requires Lockstep(st) && (m.Cursor? || m.Scroll?)
    ensures Lockstep(PresenceEventState(st, sid, m))
  {
    var after := PresenceEventState(st, sid, m);
    forall s ensures RosterOf(after, s) == RosterOf(st, s) {
      if s == sid && sid in st.sessions {
        forall pid | pid in st.sessions[sid].participants { ApplyPresenceEvent(st.sessions[sid], m, pid, CursorField); }
      }
    }
  }

  lemma {:induction false} UnregisterEachAgrees(h: HubState, reaped: seq<ReapedParticipant>)
    requires HubAgrees(h)
    ensures HubAgrees(UnregisterEach(h, reaped))
    ensures forall sid, pid :: pid in UnregisterEach(h, reaped).ParticipantsOf(sid) <==>
              pid in h.ParticipantsOf(sid) && forall i | 0 <= i < |reaped| :: reaped[i].pid != pid
  {
    if |reaped| > 0 {
      var n := |reaped| - 1;
      UnregisterEachAgrees(h, reaped[..n]);
      UnregisterKeepsAgreement(UnregisterEach(h, reaped[..n]), reaped[n].pid);
    }
  }

  /** The reported pids of one session. */
  function ReportedIn(reaped: seq<ReapedParticipant>, sid: SessionId): set<ParticipantId> {
    set r | r in reaped && r.sid == sid :: r.pid
  }

  /** One more participant reported. */
  lemma ReportedMore(reaped: seq<ReapedParticipant>, i: nat, sid: SessionId)
    requires i < |reaped|
    ensures ReportedIn(reaped[..i + 1], sid) ==
            ReportedIn(reaped[..i], sid) + if reaped[i].sid == sid then {reaped[i].pid} else {}
  {
    assert forall r :: r in reaped[..i + 1] <==> r in reaped[..i] || r == reaped[i];
  }

  lemma NetLast(bs: seq<Broadcast>, b: Broadcast, sid: SessionId)
    requires b.message.Leave?
    ensures Net(bs + [b], sid) == Net(bs, sid) - if b.sid == sid then 1 else 0
  {
    assert (bs + [b])[..|bs|] == bs;
  }

  lemma {:induction false} LeaveBroadcastsCount(reaped: seq<ReapedParticipant>, sid: SessionId)
    requires forall i, j | 0 <= i < j < |reaped| :: reaped[i].sid != reaped[j].sid || reaped[i].pid != reaped[j].pid
    ensures Net(LeaveBroadcasts(reaped), sid) == -|ReportedIn(reaped, sid)|
  {
    if |reaped| > 0 {
      var n := |reaped| - 1;
      var last := reaped[n];
      LeaveBroadcastsCount(reaped[..n], sid);
      NetLast(LeaveBroadcasts(reaped[..n]), Broadcast(last.sid, Leave(last.pid), Some(last.pid)), sid);
      assert reaped[..n + 1] == reaped;
      ReportedMore(reaped, n, sid);
      if last.sid == sid { assert last.pid !in ReportedIn(reaped[..n], sid); }
    }
  }

  lemma ReportedAreStale(reaped: seq<ReapedParticipant>, sessions: Sessions, sid: SessionId, ttl: int, now: int)
    requires ReportsStale(reaped, sessions, sessions.Keys, ttl, now)
    ensures ReportedIn(reaped, sid) == if sid in sessions then StalePids(sessions[sid], ttl, now) else {}
  {
    forall pid ensures pid in ReportedIn(reaped, sid) <==> IsStale(sessions, sid, pid, ttl, now) {
      assert Reports(reaped, sid, pid) <==> sid in sessions.Keys && IsStale(sessions, sid, pid, ttl, now);
      if Reports(reaped, sid, pid) {
        var i :| 0 <= i < |reaped| && reaped[i].sid == sid && reaped[i].pid == pid;
        assert reaped[i] in reaped;
      }
    }
  }

  /** A live pid is reported in no session but its own. */
  lemma ReportedOnlyAtHome(
    st: ServerState, reaped: seq<ReapedParticipant>, sid: SessionId, pid: ParticipantId, ttl: int, now: int)
    requires Lockstep(st) && ReportsStale(reaped, st.sessions, st.sessions.Keys, ttl, now) && pid in RosterOf(st, sid)
    ensures (forall i | 0 <= i < |reaped| :: reaped[i].pid != pid) <==> pid !in ReportedIn(reaped, sid)
  {
    assert pid in st.hub.ParticipantsOf(sid);
    forall i | 0 <= i < |reaped| && reaped[i].pid == pid ensures reaped[i].sid == sid && reaped[i] in reaped {
      var other := reaped[i].sid;
      assert Reports(reaped, other, pid);
      assert IsStale(st.sessions, other, pid, ttl, now);
      assert st.hub.ParticipantsOf(other) == RosterOf(st, other);
      OneSession(st.hub, pid, sid, other);
    }
  }

  lemma OneSession(h: HubState, pid: ParticipantId, s1: SessionId, s2: SessionId)
    requires HubAgrees(h) && pid in h.ParticipantsOf(s1) && pid in h.ParticipantsOf(s2)
    ensures s1 == s2
  {
    assert pid in h.connections && h.connections[pid].sid == s1;
    assert pid in h.connections && h.connections[pid].sid == s2;
  }

  lemma ReapedRoster(st: ServerState, reaped: seq<ReapedParticipant>, sid: SessionId, ttl: int, now: int)
    requires ReportsStale(reaped, st.sessions, st.sessions.Keys, ttl, now)
    ensures ReportedIn(reaped, sid) <= RosterOf(st, sid)
    ensures RosterOf(ReapState(st, reaped, ttl, now), sid) == RosterOf(st, sid) - ReportedIn(reaped, sid)
  {
    ReportedAreStale(reaped, st.sessions, sid, ttl, now);
  }

  lemma ReapedNet(st: ServerState, reaped: seq<ReapedParticipant>, sid: SessionId, ttl: int, now: int)
    requires ReportsStale(reaped, st.sessions, st.sessions.Keys, ttl, now)
    ensures Net(ReapState(st, reaped, ttl, now).broadcasts, sid) == Net(st.broadcasts, sid) - |ReportedIn(reaped, sid)|
  {
    LeaveBroadcastsCount(reaped, sid);
    NetConcat(st.broadcasts, LeaveBroadcasts(reaped), sid);
  }

  lemma ReapedIndex(st: ServerState, reaped: seq<ReapedParticipant>, sid: SessionId, ttl: int, now: int)
    requires Lockstep(st) && ReportsStale(reaped, st.sessions, st.sessions.Keys, ttl, now)
    ensures UnregisterEach(st.hub, reaped).ParticipantsOf(sid) == RosterOf(st, sid) - ReportedIn(reaped, sid)
  {
    UnregisterEachAgrees(st.hub, reaped);
    assert st.hub.ParticipantsOf(sid) == RosterOf(st, sid);
    forall pid | pid in RosterOf(st, sid) { ReportedOnlyAtHome(st, reaped, sid, pid, ttl, now); }
  }

  lemma ReapKeepsLockstep(st: ServerState, reaped: seq<ReapedParticipant>, ttl: int, now: int)
    requires Lockstep(st) && ReportsStale(reaped, st.sessions, st.sessions.Keys, ttl, now)
    ensures Lockstep(ReapState(st, reaped, ttl, now))
  {
    UnregisterEachAgrees(st.hub, reaped);
    var after := ReapState(st, reaped, ttl, now);
    forall sid
      ensures after.hub.ParticipantsOf(sid) == RosterOf(after, sid)
      ensures Net(after.broadcasts, sid) == |RosterOf(after, sid)|
    {
      assert Net(st.broadcasts, sid) == |RosterOf(st, sid)|;
      ReapedRoster(st, reaped, sid, ttl, now);
      ReapedNet(st, reaped, sid, ttl, now);
      ReapedIndex(st, reaped, sid, ttl, now);
    }
  }

  predicate PatchesOnly(bs: seq<Broadcast>) {
    forall b | b in bs :: b.message.Patch?
  }

  lemma {:induction false} PatchesDoNotCount(bs: seq<Broadcast>, sid: SessionId)
    requires PatchesOnly(bs)
    ensures Net(bs, sid) == 0
  {
    if |bs| > 0 {
      assert bs[|bs| - 1] in bs;
      PatchesDoNotCount(bs[..|bs| - 1], sid);
    }
  }

  lemma TickKeepsLockstep(st: ServerState, flushed: set<SessionId>, patches: seq<Broadcast>)
    requires Lockstep(st) && PatchesOnly(patches)
    ensures Lockstep(TickState(st, flushed, patches))
  {
    var after := TickState(st, flushed, patches);
    forall sid
      ensures RosterOf(after, sid) == RosterOf(st, sid)
      ensures Net(after.broadcasts, sid) == Net(st.broadcasts, sid)
    {
      NetConcat(st.broadcasts, patches, sid);
      PatchesDoNotCount(patches, sid);
    }
  }

  // ---- runs ----

  datatype ServerStep =
    | OnHello(sid: SessionId, socket: nat, m: InboundMessage, now: int)
    | OnLeave(sid: SessionId, pid: ParticipantId)
    | OnPresence(sid: SessionId, m: InboundMessage)
    | OnReap(reaped: seq<ReapedParticipant>, ttl: int, now: int)
    | OnTick(flushed: set<SessionId>, patches: seq<Broadcast>)

  ghost predicate StepEnabled(st: ServerState, step: ServerStep) {
    match step
    case OnHello(_, _, m, _) => m.Hello?
    case OnLeave(_, _) => true
    case OnPresence(_, m) => m.Cursor? || m.Scroll?
    case OnReap(reaped, ttl, now) => ReportsStale(reaped, st.sessions, st.sessions.Keys, ttl, now)
    case OnTick(_, patches) => PatchesOnly(patches)
  }

  ghost function Apply(st: ServerState, step: ServerStep): ServerState
    requires StepEnabled(st, step)
  {
    match step
    case OnHello(sid, socket, m, now) => HelloState(st, sid, socket, m, now)
    case OnLeave(sid, pid) => LeaveState(st, sid, pid)
    case OnPresence(sid, m) => PresenceEventState(st, sid, m)
    case OnReap(reaped, ttl, now) => ReapState(st, reaped, ttl, now)
    case OnTick(flushed, patches) => TickState(st, flushed, patches)
  }

  /** Every hello, bye and close uses its pid with the session `home` assigns it. */
  predicate AtHome(step: ServerStep, home: ParticipantId -> SessionId) {
    match step
    case OnHello(sid, _, m, _) => m.Hello? ==> sid == home(m.pid)
    case OnLeave(sid, pid) => sid == home(pid)
    case _ => true
  }

  ghost predicate IsServerRun(steps: seq<ServerStep>, states: seq<ServerState>) {
    && |states| == |steps| + 1 && states[0] == STARTED
    && forall i {:trigger steps[i]} | 0 <= i < |steps| ::
        StepEnabled(states[i], steps[i]) && states[i + 1] == Apply(states[i], steps[i])
  }

  ghost predicate LivesAtHome(st: ServerState, home: ParticipantId -> SessionId) {
    forall pid | pid in st.hub.connections :: st.hub.connections[pid].sid == home(pid)
  }

  lemma {:induction false} UnregisterEachShrinks(h: HubState, reaped: seq<ReapedParticipant>)
    ensures var after := UnregisterEach(h, reaped);
            forall pid | pid in after.connections ::
                pid in h.connections && after.connections[pid] == h.connections[pid]
  {
    if |reaped| > 0 { UnregisterEachShrinks(h, reaped[..|reaped| - 1]); }
  }

  lemma StepKeepsLockstep(st: ServerState, step: ServerStep, home: ParticipantId -> SessionId)
    requires Lockstep(st) && LivesAtHome(st, home) && StepEnabled(st, step) && AtHome(step, home)
    ensures Lockstep(Apply(st, step)) && LivesAtHome(Apply(st, step), home)
  {
    match step {
      case OnHello(sid, socket, m, now) => HelloKeepsLockstepIff(st, sid, socket, m, now);
      case OnLeave(sid, pid) => LeaveInStep(st, sid, pid);
      case OnPresence(sid, m) => PresenceKeepsLockstep(st, sid, m);
      case OnReap(reaped, ttl, now) =>
        ReapKeepsLockstep(st, reaped, ttl, now);
        UnregisterEachShrinks(st.hub, reaped);
      case OnTick(flushed, patches) => TickKeepsLockstep(st, flushed, patches);
    }
  }

  /** When each pid is used with one session id, the hub's index and the registry's rosters
      agree after every hello, bye, close, presence event, sweep and tick of every run; no
      bucket is empty; and joins minus leaves announced is the size of the roster. */
  lemma {:induction false} RosterLockstep(
    steps: seq<ServerStep>, states: seq<ServerState>, home: ParticipantId -> SessionId, i: nat)
    requires IsServerRun(steps, states) && i <= |steps|
    requires forall k | 0 <= k < |steps| :: AtHome(steps[k], home)
    ensures Lockstep(states[i]) && LivesAtHome(states[i], home)
  {
    if i > 0 {
      RosterLockstep(steps, states, home, i - 1);
      StepKeepsLockstep(states[i - 1], steps[i - 1], home);
    }
  }

  // ---- who is stale ----

  /** The timestamp a participant's last hello in a session carried. */
  function LastHello(steps: seq<ServerStep>, sid: SessionId, pid: ParticipantId): Option<int> {
    if |steps| == 0 then None else
    var step := steps[|steps| - 1];
    if step.OnHello? && step.m.Hello? && step.sid == sid && step.m.pid == pid then Some(step.m.ts)
    else LastHello(steps[..|steps| - 1], sid, pid)
  }

  /** When the server last saw a participant, by its own record. */
  function SeenAt(st: ServerState, sid: SessionId, pid: ParticipantId): Option<int> {
    if pid in RosterOf(st, sid) then Some(st.sessions[sid].participants[pid].lastSeenAt) else None
  }

  lemma HelloSeen(
    st: ServerState, at: SessionId, socket: nat, m: InboundMessage, now: int, sid: SessionId, pid: ParticipantId)
    requires Keyed(st.sessions) && m.Hello?
    ensures SeenAt(HelloState(st, at, socket, m, now), sid, pid) ==
            if sid == at && pid == m.pid then Some(m.ts) else SeenAt(st, sid, pid)
  {
  }

  lemma PresenceSeen(st: ServerState, at: SessionId, m: InboundMessage, sid: SessionId, pid: ParticipantId)
    requires Keyed(st.sessions) && (m.Cursor? || m.Scroll?)
    ensures Keyed(PresenceEventState(st, at, m).sessions)
    ensures SeenAt(PresenceEventState(st, at, m), sid, pid) == SeenAt(st, sid, pid)
  {
    if at in st.sessions {
      forall p | p in st.sessions[at].participants { ApplyPresenceEvent(st.sessions[at], m, p, CursorField); }
    }
  }

  /** Only a participant's own hello moves its record; everything else keeps it or removes it. */
  lemma StepSeen(st: ServerState, step: ServerStep, sid: SessionId, pid: ParticipantId)
    requires Keyed(st.sessions) && StepEnabled(st, step)
    ensures Keyed(Apply(st, step).sessions)
    ensures var seen := SeenAt(Apply(st, step), sid, pid);
            seen.Some? ==>
              if step.OnHello? && step.sid == sid && step.m.pid == pid then seen == Some(step.m.ts)
              else seen == SeenAt(st, sid, pid)
  {
    match step {
      case OnHello(at, socket, m, now) =>
        HelloRoster(st, at, socket, m, now);
        HelloSeen(st, at, socket, m, now, sid, pid);
      case OnPresence(at, m) => PresenceSeen(st, at, m, sid, pid);
      case _ =>
    }
  }

  /** In every run the server's record of a present participant is the timestamp of its last
      hello, however much cursor and scroll traffic it has sent since. */
  lemma {:induction false} SeenAtLastHello(
    steps: seq<ServerStep>, states: seq<ServerState>, i: nat, sid: SessionId, pid: ParticipantId)
    requires IsServerRun(steps, states) && i <= |steps|
    ensures Keyed(states[i].sessions)
    ensures pid in RosterOf(states[i], sid) ==> SeenAt(states[i], sid, pid) == LastHello(steps[..i], sid, pid)
  {
    if i > 0 {
      SeenAtLastHello(steps, states, i - 1, sid, pid);
      assert steps[..i][..i - 1] == steps[..i - 1];
      StepSeen(states[i - 1], steps[i - 1], sid, pid);
    }
  }

  /** So a sweep removes a present participant if and only if more than `ttl` has passed since
      the timestamp of its last hello. */
  lemma ReapedIffLastHelloOld(
    steps: seq<ServerStep>, states: seq<ServerState>, i: nat, sid: SessionId, pid: ParticipantId)
    requires IsServerRun(steps, states) && i < |steps| && steps[i].OnReap? && pid in RosterOf(states[i], sid)
    ensures LastHello(steps[..i], sid, pid).Some?
    ensures pid !in RosterOf(states[i + 1], sid) <==>
              steps[i].now - LastHello(steps[..i], sid, pid).value > steps[i].ttl
  {
    SeenAtLastHello(steps, states, i, sid, pid);
    assert states[i + 1] == Apply(states[i], steps[i]);
  }

  /** When the session as it stands was created: the hello that found none. */
  function CreatedBy(steps: seq<ServerStep>, states: seq<ServerState>, i: nat, sid: SessionId): Option<int>
    requires i <= |steps| < |states|
  {
    if i == 0 then None
    else if steps[i - 1].OnHello? && steps[i - 1].sid == sid && sid !in states[i - 1].sessions
    then Some(steps[i - 1].now)
    else CreatedBy(steps, states, i - 1, sid)
  }

  lemma StepCreated(st: ServerState, step: ServerStep, sid: SessionId)
    requires Keyed(st.sessions) && StepEnabled(st, step) && sid in Apply(st, step).sessions
    ensures sid !in st.sessions ==> step.OnHello? && step.sid == sid
    ensures Apply(st, step).sessions[sid].createdAt ==
            if sid in st.sessions then st.sessions[sid].createdAt else step.now
  {
  }

  /** In every run a session's creation time is that of the hello that created it, whatever has
      happened in it since. */
  lemma {:induction false} CreatedWhenFirstNeeded(
    steps: seq<ServerStep>, states: seq<ServerState>, i: nat, sid: SessionId)
    requires IsServerRun(steps, states) && i <= |steps| && sid in states[i].sessions
    ensures CreatedBy(steps, states, i, sid) == Some(states[i].sessions[sid].createdAt)
  {
    if i > 0 {
      var st, step := states[i - 1], steps[i - 1];
      SeenAtLastHello(steps, states, i - 1, sid, "");
      StepCreated(st, step, sid);
      if sid in st.sessions { CreatedWhenFirstNeeded(steps, states, i - 1, sid); }
    }
  }

  // ---- concrete runs ----

  /** A run so far. */
  datatype Trace = Trace(steps: seq<ServerStep>, states: seq<ServerState>) {
    ghost predicate Valid() { IsServerRun(steps, states) }

    function Last(): ServerState
      requires |states| > 0
    {
      states[|states| - 1]
    }
  }

  const NO_STEPS := Trace([], [STARTED])

  lemma Then(t: Trace, step: ServerStep, next: ServerState) returns (u: Trace)
    requires t.Valid() && StepEnabled(t.Last(), step) && next == Apply(t.Last(), step)
    ensures u == Trace(t.steps + [step], t.states + [next]) && u.Valid() && u.Last() == next
  {
    u := Trace(t.steps + [step], t.states + [next]);
  }

  lemma OneReported(sessions: Sessions, sid: SessionId, pid: ParticipantId, ttl: nat)
    requires sessions.Keys == {sid} && sessions[sid].participants.Keys == {pid}
    requires sessions[sid].participants[pid].lastSeenAt == 0
    ensures ReportsStale([ReapedParticipant(sid, pid, 0)], sessions, sessions.Keys, ttl, ttl + 1)
    ensures ReportedIn([ReapedParticipant(sid, pid, 0)], sid) == {pid}
  {
    var reaped := [ReapedParticipant(sid, pid, 0)];
    assert reaped[0] in reaped;
    forall s, p ensures Reports(reaped, s, p) <==> s in sessions.Keys && IsStale(sessions, s, p, ttl, ttl + 1) {
      if s == sid && p == pid { assert reaped[0].sid == s && reaped[0].pid == p; }
    }
  }

  /** Someone joins at time 0 and moves. */
  lemma JoinsAndMoves(sid: SessionId, pid: ParticipantId, point: Point) returns (t: Trace)
    ensures t.Valid() && t.steps == [OnHello(sid, 0, Hello(pid, 1, 0), 0), OnPresence(sid, Cursor(pid, 2, point))]
    ensures t.Last().sessions.Keys == {sid} && t.Last().sessions[sid].participants.Keys == {pid}
    ensures t.Last().sessions[sid].participants[pid].lastSeenAt == 0
    ensures t.Last().sessions[sid].participants[pid].presence.cursor == Some(point)
  {
    var hello, move := OnHello(sid, 0, Hello(pid, 1, 0), 0), OnPresence(sid, Cursor(pid, 2, point));
    var s1 := Apply(STARTED, hello);
    t := Then(NO_STEPS, hello, s1);
    t := Then(t, move, Apply(s1, move));
  }

  /** An active participant is reaped: it joins, moves, and the next sweep removes it although
      its cursor was handled just before. */
  lemma ActiveIsReaped(sid: SessionId, pid: ParticipantId, point: Point, ttl: nat) returns (t: Trace)
    ensures t.Valid() && |t.steps| == 3 && |t.states| == 4
    ensures t.steps[1] == OnPresence(sid, Cursor(pid, 2, point)) && t.steps[2].OnReap? && t.steps[2].ttl == ttl
    ensures pid in RosterOf(t.states[2], sid)
    ensures t.states[2].sessions[sid].participants[pid].presence.cursor == Some(point)
    ensures pid !in RosterOf(t.states[3], sid)
  {
    var before := JoinsAndMoves(sid, pid, point);
    var st, reaped := before.Last(), [ReapedParticipant(sid, pid, 0)];
    OneReported(st.sessions, sid, pid, ttl);
    ReapedRoster(st, reaped, sid, ttl, ttl + 1);
    t := Then(before, OnReap(reaped, ttl, ttl + 1), ReapState(st, reaped, ttl, ttl + 1));
  }

  lemma StartedInStep()
    ensures Lockstep(STARTED)
  {
  }

  lemma FirstHelloInStep(st: ServerState, sid: SessionId, socket: nat, m: InboundMessage, now: int)
    requires Lockstep(st) && m.Hello? && m.pid !in st.hub.connections
    ensures var after := HelloState(st, sid, socket, m, now);
            && Lockstep(after) && m.pid in RosterOf(after, sid)
            && m.pid in after.hub.connections && after.hub.connections[m.pid].sid == sid
  {
    HelloKeepsLockstepIff(st, sid, socket, m, now);
    HelloRoster(st, sid, socket, m, now);
  }

  lemma LeaveUnregisters(st: ServerState, sid: SessionId, pid: ParticipantId)
    ensures pid !in LeaveState(st, sid, pid).hub.connections
  {
  }

  /** A run in step so far goes on with a first hello. */
  lemma ThenJoins(t: Trace, sid: SessionId, socket: nat, m: InboundMessage) returns (u: Trace)
    requires t.Valid() && Lockstep(t.Last()) && m.Hello? && m.pid !in t.Last().hub.connections
    ensures u.Valid() && u.steps == t.steps + [OnHello(sid, socket, m, 0)]
    ensures Lockstep(u.Last()) && m.pid in RosterOf(u.Last(), sid)
    ensures m.pid in u.Last().hub.connections && u.Last().hub.connections[m.pid].sid == sid
  {
    var next := HelloState(t.Last(), sid, socket, m, 0);
    FirstHelloInStep(t.Last(), sid, socket, m, 0);
    u := Then(t, OnHello(sid, socket, m, 0), next);
  }

  /** ... or with a bye. */
  lemma ThenLeaves(t: Trace, sid: SessionId, pid: ParticipantId) returns (u: Trace)
    requires t.Valid() && Lockstep(t.Last()) && SameSession(t.Last().hub, sid, pid)
    ensures u.Valid() && u.steps == t.steps + [OnLeave(sid, pid)]
    ensures Lockstep(u.Last()) && pid !in u.Last().hub.connections
  {
    var next := LeaveState(t.Last(), sid, pid);
    LeaveInStep(t.Last(), sid, pid);
    LeaveUnregisters(t.Last(), sid, pid);
    u := Then(t, OnLeave(sid, pid), next);
  }

  /** Join one session, say bye, join another. */
  lemma MovesHouse(a: SessionId, b: SessionId, pid: ParticipantId) returns (t: Trace)
    ensures t.Valid() && Lockstep(t.Last())
    ensures t.steps ==
        [] + [OnHello(a, 0, Hello(pid, 1, 0), 0)] + [OnLeave(a, pid)] + [OnHello(b, 1, Hello(pid, 1, 0), 0)]
    ensures pid in RosterOf(t.Last(), b)
    ensures pid in t.Last().hub.connections && t.Last().hub.connections[pid].sid == b
  {
    StartedInStep();
    t := ThenJoins(NO_STEPS, a, 0, Hello(pid, 1, 0));
    t := ThenLeaves(t, a, pid);
    t := ThenJoins(t, b, 1, Hello(pid, 1, 0));
  }

  /** What a close of an old connection does to a participant live elsewhere. */
  lemma LateClose(st: ServerState, a: SessionId, b: SessionId, pid: ParticipantId)
    requires Lockstep(st) && a != b && pid in RosterOf(st, b)
    requires pid in st.hub.connections && st.hub.connections[pid].sid == b
    ensures var after := LeaveState(st, a, pid);
            pid in RosterOf(after, b) && pid !in after.hub.ParticipantsOf(b) && !Lockstep(after)
  {
    LeaveKeepsLockstepIff(st, a, pid);
    UnregisterKeepsAgreement(st.hub, pid);
  }

  /** A late close unregisters its participant elsewhere: it joins one session, says bye, joins
      another, and only then the first socket closes. It is in the second session's roster, but
      no longer in the hub's index of it. */
  lemma LateCloseUnregistersElsewhere(a: SessionId, b: SessionId, pid: ParticipantId) returns (t: Trace, u: Trace)
    requires a != b
    ensures t.Valid() && Lockstep(t.Last()) && u.Valid() && u.steps == t.steps + [OnLeave(a, pid)]
    ensures t.steps ==
        [] + [OnHello(a, 0, Hello(pid, 1, 0), 0)] + [OnLeave(a, pid)] + [OnHello(b, 1, Hello(pid, 1, 0), 0)]
    ensures pid in RosterOf(u.Last(), b) && pid !in u.Last().hub.ParticipantsOf(b) && !Lockstep(u.Last())
  {
    t := MovesHouse(a, b, pid);
    LateClose(t.Last(), a, b, pid);
    u := Then(t, OnLeave(a, pid), LeaveState(t.Last(), a, pid));
  }
}
