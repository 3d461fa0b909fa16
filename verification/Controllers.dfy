/** From a decoded message to its handler (realtimeRouter.ts, ConnectionController.ts,
    PresenceController.ts, AuditController.ts). */
module Controllers {
  import opened Wrappers
  import opened Protocol
  import opened Presence
  import opened SequenceGuards
  import opened Registry
  import opened Hub
  import opened Scheduler
  import opened Server
  import opened Audit
  import opened Services
  import Ordering
  import Reconciler

  class ControllerDeps {
    const registry: SessionRegistry
    const hub: BroadcastHub
    const auditLog: AuditLog

    constructor (registry: SessionRegistry, hub: BroadcastHub, auditLog: AuditLog)
      ensures this.registry == registry && this.hub == hub && this.auditLog == auditLog
    {
      this.registry, this.hub, this.auditLog := registry, hub, auditLog;
    }

    ghost function State(): ServerState
      reads registry, hub
    {
      StateOf(registry, hub)
    }
  }

  /** One live socket. */
  class ConnectionContext {
    const sid: SessionId
    const socket: nat
    const sequenceGuard: SequenceGuard
    var pid: Option<ParticipantId>
    var leftExplicitly: bool
    /** What this socket was sent past the hub. */
    var errors: seq<OutboundMessage>

    constructor (sid: SessionId, socket: nat)
      ensures this.sid == sid && this.socket == socket && pid == None && !leftExplicitly && errors == []
      ensures fresh(sequenceGuard) && sequenceGuard.State() == NEW_GUARD
    {
      this.sid, this.socket, pid, leftExplicitly, errors := sid, socket, None, false, [];
      sequenceGuard := new SequenceGuard();
    }
  }

  // ---- the router's decision ----

  datatype ConnectionState = ConnectionState(pid: Option<ParticipantId>, guard: GuardState)

  datatype Verdict = Unauthorized | Stale | Dispatched

  function Judge(c: ConnectionState, m: InboundMessage): Verdict {
    if c.pid.None? && !m.Hello? then Unauthorized
    else if c.pid.Some? && m.pid != c.pid.value then Unauthorized
    else if !Accepts(c.guard, Whole(m.seqno)) then Stale
    else Dispatched
  }

  function ConnectionAfter(c: ConnectionState, m: InboundMessage): ConnectionState {
    var v := Judge(c, m);
    if v.Unauthorized? then c
    else ConnectionState(if v.Dispatched? && m.Hello? then Some(m.pid) else c.pid, After(c.guard, Whole(m.seqno)))
  }

  /** What a dispatched message does to the roster. */
  function EffectOf(st: ServerState, sid: SessionId, socket: nat, m: InboundMessage, now: int): ServerState {
    match m
    case Hello(_, _, _) => HelloState(st, sid, socket, m, now)
    case Bye(pid, _) => LeaveState(st, sid, pid)
    case Cursor(_, _, _) => PresenceEventState(st, sid, m)
    case Scroll(_, _, _) => PresenceEventState(st, sid, m)
    case _ => st
  }

  /** What a dispatched message does to the audit log; see `DispatchedAuditIsStored`. */
  function LogAfter(log: Log, sid: SessionId, m: InboundMessage, now: int): Log {
    if m.Audit? then RecordEntry(log, AuditInput(m.eventId, sid, m.pid, m.kind, Client, now)) else log
  }

  /** The one message a ping or an audit report is answered with. */
  function ReplyTo(m: InboundMessage): seq<Handoff> {
    match m
    case Ping(pid, _, ts) => [Handoff(pid, Pong(ts))]
    case Audit(pid, _, _, eventId) => [Handoff(pid, AuditAck(eventId))]
    case _ => []
  }

  /** What handling a dispatched message hands over, and to whom. */
  ghost predicate Hands(
    st: ServerState, open: set<nat>, sid: SessionId, socket: nat, m: InboundMessage, now: int, batch: seq<Handoff>)
    requires Keyed(st.sessions)
  {
    match m
    case Hello(_, _, _) => exists snaps :: HelloHands(st, open, sid, socket, m, now, snaps, batch)
    case Bye(pid, _) => LeaveHands(st, open, sid, pid, batch)
    case _ => batch == if Reaches(st.hub, open, m.pid) then ReplyTo(m) else []
  }

  // ---- handlers ----

  lemma GreetingHands(
    st: ServerState, open: set<nat>, sid: SessionId, socket: nat, m: InboundMessage, now: int,
    snaps: seq<ParticipantSnapshot>, others: seq<Handoff>)
    requires m.Hello? && Keyed(st.sessions) && ListsRoster(SessionAfterHello(st, sid, m, now), snaps)
    requires if m.pid in RosterOf(st, sid) then others == []
             else FanOut(others, Recipients(Register(st.hub, Connection(m.pid, sid, socket)), open, sid, Some(m.pid)),
                         JoinOf(SessionAfterHello(st, sid, m, now).participants[m.pid]))
    ensures HelloHands(st, open, sid, socket, m, now, snaps,
                       (if socket in open then [Handoff(m.pid, Welcome(snaps))] else []) + others)
  {
    var greeting := if socket in open then [Handoff(m.pid, Welcome(snaps))] else [];
    assert (greeting + others)[|greeting|..] == others;
  }

  /** The part of a hello before anything is sent: save, bind, register. */
  method Enter(ctx: ConnectionContext, m: InboundMessage, deps: ControllerDeps, now: int)
    returns (next: Session, isNew: bool)
    requires m.Hello? && Keyed(deps.registry.sessions)
    modifies ctx`pid, deps.registry, deps.hub`connections, deps.hub`bySession
    ensures ctx.pid == Some(m.pid)
    ensures next == SessionAfterHello(old(deps.State()), ctx.sid, m, now)
    ensures isNew <==> m.pid !in RosterOf(old(deps.State()), ctx.sid)
    ensures FiledOwn(next) && m.pid in next.participants && m.pid in deps.hub.connections
    ensures deps.hub.connections[m.pid].socket == ctx.socket
    ensures deps.registry.sessions == HelloState(old(deps.State()), ctx.sid, ctx.socket, m, now).sessions
    ensures deps.hub.State() == Register(old(deps.hub.State()), Connection(m.pid, ctx.sid, ctx.socket))
  {
    var session := deps.registry.GetOrCreate(ctx.sid, now);
    isNew := m.pid !in session.participants;
    next := ApplyEvent(session, m).state;
    deps.registry.Save(next);
    ctx.pid := Some(m.pid);
    deps.hub.RegisterConnection(Connection(m.pid, ctx.sid, ctx.socket));
  }

  /** Joins or refreshes the participant, answers with a welcome carrying the whole roster,
      and announces a join to the others only if the participant is new. */
  method HandleHello(ctx: ConnectionContext, m: InboundMessage, deps: ControllerDeps, now: int)
    returns (ghost snaps: seq<ParticipantSnapshot>, ghost batch: seq<Handoff>)
    requires m.Hello? && Keyed(deps.registry.sessions)
    modifies ctx`pid, deps.registry, deps.hub
    ensures ctx.pid == Some(m.pid)
    ensures deps.State() == HelloState(old(deps.State()), ctx.sid, ctx.socket, m, now)
    ensures deps.hub.openSockets == old(deps.hub.openSockets) && deps.hub.handed == old(deps.hub.handed) + batch
    ensures HelloHands(old(deps.State()), deps.hub.openSockets, ctx.sid, ctx.socket, m, now, snaps, batch)
  {
    ghost var before := deps.State();
    var next, isNew := Enter(ctx, m, deps, now);
    ghost var others;
    snaps, others := Greet(next, m.pid, ctx.sid, isNew, deps.hub);
    ghost var greeting := if ctx.socket in deps.hub.openSockets then [Handoff(m.pid, Welcome(snaps))] else [];
    batch := greeting + others;
    Ordering.ConcatAssociative(old(deps.hub.handed), greeting, others);
    GreetingHands(before, deps.hub.openSockets, ctx.sid, ctx.socket, m, now, snaps, others);
  }

  /** The messages of a hello: a welcome to the sender, and a join to the others if it is new. */
  method Greet(session: Session, pid: ParticipantId, sid: SessionId, isNew: bool, hub: BroadcastHub)
    returns (ghost snaps: seq<ParticipantSnapshot>, ghost batch: seq<Handoff>)
    requires FiledOwn(session) && pid in session.participants && pid in hub.connections
    modifies hub
    ensures hub.State() == old(hub.State()) && hub.openSockets == old(hub.openSockets)
    ensures ListsRoster(session, snaps)
    ensures hub.broadcasts ==
            if isNew then old(hub.broadcasts) + [Broadcast(sid, JoinOf(session.participants[pid]), Some(pid))]
            else old(hub.broadcasts)
    ensures hub.handed == old(hub.handed)
              + (if hub.connections[pid].socket in hub.openSockets then [Handoff(pid, Welcome(snaps))] else []) + batch
    ensures if isNew
            then FanOut(batch, Recipients(hub.State(), hub.openSockets, sid, Some(pid)),
                        JoinOf(session.participants[pid]))
            else batch == []
  {
    var roster := ToParticipantSnapshots(session);
    snaps, batch := roster, [];
    var sent := hub.SendTo(pid, Welcome(roster));
    if isNew {
      batch := hub.BroadcastToSession(sid, JoinOf(session.participants[pid]), Some(pid));
    }
  }

  /** The two ways a connection leaves share this. */
  method RemoveFromSession(sid: SessionId, pid: ParticipantId, deps: ControllerDeps) returns (ghost batch: seq<Handoff>)
    modifies deps.registry, deps.hub
    ensures deps.State() == LeaveState(old(deps.State()), sid, pid)
    ensures deps.hub.openSockets == old(deps.hub.openSockets) && deps.hub.handed == old(deps.hub.handed) + batch
    ensures LeaveHands(old(deps.State()), deps.hub.openSockets, sid, pid, batch)
  {
    batch := [];
    deps.hub.UnregisterPid(pid);
    if sid !in deps.registry.sessions { return; }
    var session := deps.registry.sessions[sid];
    if pid !in session.participants { return; }
    deps.registry.Save(RemoveParticipant(session, pid));
    batch := deps.hub.BroadcastToSession(sid, Leave(pid), Some(pid));
  }

  method HandleBye(ctx: ConnectionContext, m: InboundMessage, deps: ControllerDeps) returns (ghost batch: seq<Handoff>)
    requires m.Bye?
    modifies ctx`leftExplicitly, deps.registry, deps.hub
    ensures ctx.leftExplicitly && deps.State() == LeaveState(old(deps.State()), ctx.sid, m.pid)
    ensures deps.hub.openSockets == old(deps.hub.openSockets) && deps.hub.handed == old(deps.hub.handed) + batch
    ensures LeaveHands(old(deps.State()), deps.hub.openSockets, ctx.sid, m.pid, batch)
  {
    ctx.leftExplicitly := true;
    batch := RemoveFromSession(ctx.sid, m.pid, deps);
  }

  /** A closed socket: an observed end unless a bye was handled, then the same removal. */
  method HandleDisconnect(ctx: ConnectionContext, deps: ControllerDeps, now: int, id: string)
    returns (ghost batch: seq<Handoff>)
    modifies deps.registry, deps.hub, deps.auditLog
    ensures deps.State() ==
            if ctx.pid.None? then old(deps.State()) else LeaveState(old(deps.State()), ctx.sid, ctx.pid.value)
    ensures deps.hub.openSockets == old(deps.hub.openSockets) && deps.hub.handed == old(deps.hub.handed) + batch
    ensures if ctx.pid.None? then batch == []
            else LeaveHands(old(deps.State()), deps.hub.openSockets, ctx.sid, ctx.pid.value, batch)
    ensures deps.auditLog.records ==
            if ctx.pid.None? || ctx.leftExplicitly then old(deps.auditLog.records)
            else RecordEntry(old(deps.auditLog.records),
                AuditInput(id, ctx.sid, ctx.pid.value, SessionEnd, Socket, now))
  {
    batch := [];
    if ctx.pid.None? { return; }
    var pid := ctx.pid.value;
    if !ctx.leftExplicitly {
      var created := deps.auditLog.Record(AuditInput(id, ctx.sid, pid, SessionEnd, Socket, now));
    }
    batch := RemoveFromSession(ctx.sid, pid, deps);
  }

  /** Cursor and scroll alike: fold into the session, broadcast nothing. */
  method HandlePresence(ctx: ConnectionContext, m: InboundMessage, deps: ControllerDeps)
    requires m.Cursor? || m.Scroll?
    modifies deps.registry
    ensures deps.State() == PresenceEventState(old(deps.State()), ctx.sid, m)
  {
    if ctx.sid !in deps.registry.sessions { return; }
    deps.registry.Save(ApplyEvent(deps.registry.sessions[ctx.sid], m).state);
  }

  /** The dispatch table: each message to exactly its handler. */
  method DispatchMessage(ctx: ConnectionContext, m: InboundMessage, deps: ControllerDeps, now: int)
    returns (ghost batch: seq<Handoff>)
    requires Keyed(deps.registry.sessions) && (m.Hello? || ctx.pid == Some(m.pid))
    modifies ctx`pid, ctx`leftExplicitly, deps.registry, deps.hub, deps.auditLog
    ensures ctx.pid == if m.Hello? then Some(m.pid) else old(ctx.pid)
    ensures ctx.leftExplicitly == (old(ctx.leftExplicitly) || m.Bye?)
    ensures deps.State() == EffectOf(old(deps.State()), ctx.sid, ctx.socket, m, now)
    ensures deps.auditLog.records == LogAfter(old(deps.auditLog.records), ctx.sid, m, now)
    ensures deps.hub.openSockets == old(deps.hub.openSockets) && deps.hub.handed == old(deps.hub.handed) + batch
    ensures Hands(old(deps.State()), deps.hub.openSockets, ctx.sid, ctx.socket, m, now, batch)
  {
    batch := [];
    match m {
      case Audit(pid, _, _, eventId) =>
        var created := deps.auditLog.Record(AuditInput(m.eventId, ctx.sid, pid, m.kind, Client, now));
        var acked := deps.hub.SendTo(pid, AuditAck(eventId));
        batch := if acked then ReplyTo(m) else [];
      case Hello(_, _, _) =>
        ghost var snaps;
        snaps, batch := HandleHello(ctx, m, deps, now);
      case Bye(_, _) => batch := HandleBye(ctx, m, deps);
      case Ping(_, _, ts) =>
        var ponged := deps.hub.SendTo(ctx.pid.value, Pong(ts));
        batch := if ponged then ReplyTo(m) else [];
      case Cursor(_, _, _) => HandlePresence(ctx, m, deps);
      case Scroll(_, _, _) => HandlePresence(ctx, m, deps);
      case Ack(_, _) =>
    }
  }

  method SendError(ctx: ConnectionContext, code: string, deps: ControllerDeps)
    modifies ctx`errors
    ensures ctx.errors == old(ctx.errors) + if ctx.socket in deps.hub.openSockets then [ErrorFrame(code)] else []
  {
    if ctx.socket in deps.hub.openSockets { ctx.errors := ctx.errors + [ErrorFrame(code)]; }
  }

  /** One decoded frame: rejected with an error to its own socket, dropped as stale, or
      dispatched to exactly its handler. */
  method HandleRealtimeMessage(ctx: ConnectionContext, m: InboundMessage, deps: ControllerDeps, now: int)
    returns (verdict: Verdict, ghost batch: seq<Handoff>)
    requires Keyed(deps.registry.sessions)
    modifies ctx, ctx.sequenceGuard, deps.registry, deps.hub, deps.auditLog
    ensures var c := old(ConnectionState(ctx.pid, ctx.sequenceGuard.State()));
            && verdict == Judge(c, m)
            && ConnectionState(ctx.pid, ctx.sequenceGuard.State()) == ConnectionAfter(c, m)
    ensures deps.State() == if verdict.Dispatched? then EffectOf(old(deps.State()), ctx.sid, ctx.socket, m, now)
                            else old(deps.State())
    ensures deps.auditLog.records == if verdict.Dispatched? then LogAfter(old(deps.auditLog.records), ctx.sid, m, now)
                                     else old(deps.auditLog.records)
    ensures ctx.leftExplicitly == (old(ctx.leftExplicitly) || (verdict.Dispatched? && m.Bye?))
    ensures deps.hub.openSockets == old(deps.hub.openSockets) && deps.hub.handed == old(deps.hub.handed) + batch
    ensures if verdict.Dispatched?
            then Hands(old(deps.State()), deps.hub.openSockets, ctx.sid, ctx.socket, m, now, batch) else batch == []
    ensures ctx.errors == old(ctx.errors) + if verdict.Unauthorized? && ctx.socket in deps.hub.openSockets
                                            then [ErrorFrame("unauthorized")] else []
  {
    hide Hands, EffectOf, Keyed, LogAfter, RecordEntry;
    batch := [];
    if ctx.pid.None? && !m.Hello? {
      SendError(ctx, "unauthorized", deps);
      return Unauthorized, [];
    }
    if ctx.pid.Some? && m.pid != ctx.pid.value {
      SendError(ctx, "unauthorized", deps);
      return Unauthorized, [];
    }
    var accepted := ctx.sequenceGuard.Accept(Whole(m.seqno));
    if !accepted { return Stale, []; }
    batch := DispatchMessage(ctx, m, deps, now);
    return Dispatched, batch;
  }

  /** A ping is answered with its own time and an audit message, repeated or not, with its own event
      id, to its sender alone, if the sender's socket is open; an ack, a cursor and a scroll are not
      answered. */
  lemma AnsweredOnce(
    st: ServerState, open: set<nat>, sid: SessionId, socket: nat, m: InboundMessage, now: int, batch: seq<Handoff>)
    requires Keyed(st.sessions) && Hands(st, open, sid, socket, m, now, batch) && !m.Hello? && !m.Bye?
    ensures var reached := m.pid in st.hub.connections && st.hub.connections[m.pid].socket in open;
            && (m.Ping? && reached ==> batch == [Handoff(m.pid, Pong(m.ts))])
            && (m.Audit? && reached ==> batch == [Handoff(m.pid, AuditAck(m.eventId))])
            && (!reached || !(m.Ping? || m.Audit?) ==> batch == [])
  {
  }

  // ---- what a dispatched audit message stores ----

  /** `r` is this message as the client reported it on a connection of session `sid`. */
  predicate IsReportOf(r: AuditRecord, sid: SessionId, m: InboundMessage, now: int)
    requires m.Audit?
  {
    && r.input.eventId == m.eventId && r.input.sid == sid && r.input.pid == m.pid && r.input.kind == m.kind
    && r.input.source.Client? && r.input.recordedAt == now
    && |r.reports| == 1 && r.reports[0].source.Client? && r.reports[0].recordedAt == now
  }

  /** Record `k` has one more report, by the client, at `now`; nothing else changes. */
  predicate AgainReported(log: Log, later: Log, k: nat, now: int) {
    && k < |log| == |later| && later[k].input == log[k].input && |later[k].reports| == |log[k].reports| + 1
    && (forall i | 0 <= i < |log[k].reports| :: later[k].reports[i] == log[k].reports[i])
    && later[k].reports[|log[k].reports|] == AuditReport(Client, now)
    && forall i | 0 <= i < |log| && i != k :: later[i] == log[i]
  }

  /** A message under a new id is stored as it stands, unless it ends a pair whose end stands;
      then, or under a known id, the record it repeats gets one more report. */
  lemma DispatchedAuditIsStored(log: Log, sid: SessionId, m: InboundMessage, now: int)
    requires m.Audit? && DistinctIds(log)
    ensures var later := LogAfter(log, sid, m, now);
            && (forall k: nat | k < |log| && log[k].input.eventId == m.eventId :: AgainReported(log, later, k, now))
            && (!KnowsId(log, m.eventId) && m.kind.SessionEnd? ==>
                  forall k: nat | IsStandingEnd(log, sid, m.pid, k) :: AgainReported(log, later, k, now))
            && (!KnowsId(log, m.eventId)
                && (m.kind.SessionEnd? ==> forall k: nat :: !IsStandingEnd(log, sid, m.pid, k)) ==>
                  |later| == |log| + 1 && later[..|log|] == log && IsReportOf(later[|log|], sid, m, now))
  {
    hide RecordEntry, IsStandingEnd;
    RecordsAsPromised(log, AuditInput(m.eventId, sid, m.pid, m.kind, Client, now));
  }

  /** After a session start later than the pair's ends the pair is open: no end stands, the sweep's
      notion of closed does not hold, and the next end of the pair is a record of its own. */
  lemma DispatchedStartOpens(log: Log, sid: SessionId, m: InboundMessage, now: int, end: AuditInput)
    requires m.Audit? && m.kind.SessionStart? && DistinctIds(log) && !KnowsId(log, m.eventId)
    requires forall i | 0 <= i < |log| && IsOfPair(log[i].input, sid, m.pid, SessionEnd) ::
               log[i].input.recordedAt < now
    requires IsOfPair(end, sid, m.pid, SessionEnd) && !KnowsId(LogAfter(log, sid, m, now), end.eventId)
    ensures var later := LogAfter(log, sid, m, now);
            && !Reconciler.Closed(later, sid, m.pid) && (forall k: nat :: !IsStandingEnd(later, sid, m.pid, k))
            && RecordEntry(later, end) == later + [AuditRecord(end, [AuditReport(end.source, end.recordedAt)])]
  {
    hide RecordEntry, IsStandingEnd, Reconciler.Closed;
    var later := LogAfter(log, sid, m, now);
    DispatchedAuditIsStored(log, sid, m, now);
    RecordsAsPromised(log, AuditInput(m.eventId, sid, m.pid, m.kind, Client, now));
    assert forall i | 0 <= i < |log| :: later[i] == later[..|log|][i];
    hide LogAfter;
    StartKeepsOpen(later, sid, m.pid, |log|);
    RecordsAsPromised(later, end);
  }

  lemma StartKeepsOpen(log: Log, sid: SessionId, pid: ParticipantId, k: nat)
    requires k < |log| && IsOfPair(log[k].input, sid, pid, SessionStart)
    requires forall i | 0 <= i < |log| && IsOfPair(log[i].input, sid, pid, SessionEnd) ::
               log[i].input.recordedAt < log[k].input.recordedAt
    ensures !Reconciler.Closed(log, sid, pid) && forall e: nat :: !IsStandingEnd(log, sid, pid, e)
  {
    assert Of(sid, pid, SessionStart)(log[k].input);
  }

  // ---- the guard and last-writer-wins compose ----

  /** The last observation of field `f` in a history of messages. */
  function LastObserved(history: seq<InboundMessage>, pid: ParticipantId, f: Field): Option<Point> {
    if |history| == 0 then None else
    var m := history[|history| - 1];
    if Observes(m, pid, f) then Some(m.point) else LastObserved(history[..|history| - 1], pid, f)
  }

  /** One connection serving `pid` in session `sid`, the server, and what the connection has
      had dispatched since `pid` last joined. */
  datatype Served = Served(c: ConnectionState, st: ServerState, since: seq<InboundMessage>)

  datatype ServedStep =
    | Own(m: InboundMessage, now: int)
    | Elsewhere(step: ServerStep)

  /** No other connection speaks for `pid`; sweeps and ticks may do anything. */
  predicate Concerns(step: ServerStep, pid: ParticipantId) {
    match step
    case OnHello(_, _, m, _) => m.pid == pid
    case OnLeave(_, p) => p == pid
    case OnPresence(_, m) => m.pid == pid
    case _ => false
  }

  ghost predicate ServedEnabled(w: Served, pid: ParticipantId, step: ServedStep) {
    match step
    case Own(m, _) => w.c.pid.None? && m.Hello? ==> m.pid == pid
    case Elsewhere(s) => StepEnabled(w.st, s) && !Concerns(s, pid)
  }

  ghost function ServedNext(w: Served, sid: SessionId, socket: nat, pid: ParticipantId, step: ServedStep): Served
    requires ServedEnabled(w, pid, step)
  {
    match step
    case Own(m, now) =>
      if Judge(w.c, m).Dispatched? then
        Served(ConnectionAfter(w.c, m), EffectOf(w.st, sid, socket, m, now),
               if m.Hello? && pid !in RosterOf(w.st, sid) then [m] else w.since + [m])
      else w.(c := ConnectionAfter(w.c, m))
    case Elsewhere(s) => w.(st := Apply(w.st, s))
  }

  /** What is stored for `pid` is its connection's last word on each field, under a number
      the guard has seen. */
  ghost predicate ServedInvariant(w: Served, sid: SessionId, pid: ParticipantId) {
    && Keyed(w.st.sessions)
    && (w.c.pid.Some? ==> w.c.pid.value == pid)
    && (pid in RosterOf(w.st, sid) ==>
          var presence := w.st.sessions[sid].participants[pid].presence;
          forall f: Field ::
            && presence.Get(f) == LastObserved(w.since, pid, f)
            && (presence.SeqOf(f).Some? ==>
                w.c.guard.lastSeen.Some? && presence.SeqOf(f).value <= w.c.guard.lastSeen.value))
  }

  /** `after` files its entries under their own ids and holds for `pid` what `before` did, or nothing. */
  ghost predicate KeepsPresence(before: ServerState, after: ServerState, sid: SessionId, pid: ParticipantId) {
    && Keyed(after.sessions)
    && (pid in RosterOf(after, sid) ==>
          pid in RosterOf(before, sid)
          && after.sessions[sid].participants[pid].presence == before.sessions[sid].participants[pid].presence)
  }

  lemma HelloElsewhere(
    st: ServerState, at: SessionId, socket: nat, m: InboundMessage, now: int, sid: SessionId, pid: ParticipantId)
    requires Keyed(st.sessions) && m.Hello? && m.pid != pid
    ensures KeepsPresence(st, HelloState(st, at, socket, m, now), sid, pid)
  {
  }

  lemma LeaveElsewhere(st: ServerState, at: SessionId, gone: ParticipantId, sid: SessionId, pid: ParticipantId)
    requires Keyed(st.sessions) && gone != pid
    ensures KeepsPresence(st, LeaveState(st, at, gone), sid, pid)
  {
  }

  lemma PresenceElsewhere(st: ServerState, at: SessionId, m: InboundMessage, sid: SessionId, pid: ParticipantId)
    requires Keyed(st.sessions) && (m.Cursor? || m.Scroll?) && m.pid != pid
    ensures KeepsPresence(st, PresenceEventState(st, at, m), sid, pid)
  {
  }

  /** Steps that do not concern `pid` leave its presence alone, or remove it. */
  lemma ElsewhereKeepsPresence(st: ServerState, step: ServerStep, sid: SessionId, pid: ParticipantId)
    requires Keyed(st.sessions) && StepEnabled(st, step) && !Concerns(step, pid)
    ensures KeepsPresence(st, Apply(st, step), sid, pid)
  {
    match step {
      case OnHello(at, socket, m, now) => HelloElsewhere(st, at, socket, m, now, sid, pid);
      case OnLeave(at, gone) => LeaveElsewhere(st, at, gone, sid, pid);
      case OnPresence(at, m) => PresenceElsewhere(st, at, m, sid, pid);
      case OnReap(_, _, _) =>
      case OnTick(_, _) =>
    }
  }

  lemma PresenceKeepsRoster(s: Session, m: InboundMessage)
    requires (m.Cursor? || m.Scroll?) && FiledOwn(s)
    ensures var t := ApplyEvent(s, m).state;
            t.sid == s.sid && FiledOwn(t) && t.participants.Keys == s.participants.Keys
  {
  }

  lemma OwnKeepsKeyed(st: ServerState, sid: SessionId, socket: nat, m: InboundMessage, now: int)
    requires Keyed(st.sessions)
    ensures Keyed(EffectOf(st, sid, socket, m, now).sessions)
    ensures m.pid in RosterOf(EffectOf(st, sid, socket, m, now), sid) <==>
        m.Hello? || (m.pid in RosterOf(st, sid) && !m.Bye?)
  {
    if m.Hello? {
      HelloRoster(st, sid, socket, m, now);
    } else if (m.Cursor? || m.Scroll?) && sid in st.sessions {
      PresenceKeepsRoster(st.sessions[sid], m);
    }
  }

  /** The effect of its own message on the presence of a participant that stays. */
  lemma OwnPresence(st: ServerState, sid: SessionId, socket: nat, m: InboundMessage, now: int, f: Field)
    requires Keyed(st.sessions) && m.pid in RosterOf(st, sid) && !m.Bye?
    ensures var after := EffectOf(st, sid, socket, m, now);
            var before := st.sessions[sid].participants[m.pid].presence;
            && m.pid in RosterOf(after, sid)
            && var p := after.sessions[sid].participants[m.pid].presence;
               if Observes(m, m.pid, f) && Newer(before.SeqOf(f), m.seqno) then
                 p.Get(f) == Some(m.point) && p.SeqOf(f) == Some(m.seqno)
               else p.Get(f) == before.Get(f) && p.SeqOf(f) == before.SeqOf(f)
  {
    if m.Cursor? || m.Scroll? { ApplyPresenceEvent(st.sessions[sid], m, m.pid, f); }
  }

  lemma OwnJoin(st: ServerState, sid: SessionId, socket: nat, m: InboundMessage, now: int)
    requires Keyed(st.sessions) && m.pid !in RosterOf(st, sid) && m.Hello?
    ensures var after := EffectOf(st, sid, socket, m, now);
            m.pid in RosterOf(after, sid) && after.sessions[sid].participants[m.pid].presence == EMPTY_PRESENCE
  {
  }

  /** Field by field: after its own message, what is stored is the last observation. */
  lemma OwnKeepsField(
    w: Served, sid: SessionId, socket: nat, pid: ParticipantId, m: InboundMessage, now: int, f: Field)
    requires ServedInvariant(w, sid, pid) && ServedEnabled(w, pid, Own(m, now)) && Judge(w.c, m).Dispatched?
    requires pid in RosterOf(ServedNext(w, sid, socket, pid, Own(m, now)).st, sid)
    ensures var next := ServedNext(w, sid, socket, pid, Own(m, now));
            var p := next.st.sessions[sid].participants[pid].presence;
            && p.Get(f) == LastObserved(next.since, pid, f)
            && (p.SeqOf(f).Some? ==> p.SeqOf(f).value <= m.seqno)
  {
    OwnKeepsKeyed(w.st, sid, socket, m, now);
    assert (w.since + [m])[..|w.since|] == w.since && [m][..0] == [];
    if pid in RosterOf(w.st, sid) {
      assert w.st.sessions[sid].participants[pid].presence.Get(f) == LastObserved(w.since, pid, f);
      OwnPresence(w.st, sid, socket, m, now, f);
    } else {
      OwnJoin(w.st, sid, socket, m, now);
    }
  }

  lemma OwnKeepsInvariant(w: Served, sid: SessionId, socket: nat, pid: ParticipantId, m: InboundMessage, now: int)
    requires ServedInvariant(w, sid, pid) && ServedEnabled(w, pid, Own(m, now)) && Judge(w.c, m).Dispatched?
    ensures ServedInvariant(ServedNext(w, sid, socket, pid, Own(m, now)), sid, pid)
  {
    hide EffectOf, LastObserved;
    OwnKeepsKeyed(w.st, sid, socket, m, now);
    if pid in RosterOf(ServedNext(w, sid, socket, pid, Own(m, now)).st, sid) {
      forall f: Field { OwnKeepsField(w, sid, socket, pid, m, now, f); }
    }
  }

  lemma ServedStepKeeps(w: Served, sid: SessionId, socket: nat, pid: ParticipantId, step: ServedStep)
    requires ServedInvariant(w, sid, pid) && ServedEnabled(w, pid, step)
    ensures ServedInvariant(ServedNext(w, sid, socket, pid, step), sid, pid)
  {
    match step {
      case Own(m, now) => if Judge(w.c, m).Dispatched? { OwnKeepsInvariant(w, sid, socket, pid, m, now); }
      case Elsewhere(s) => ElsewhereKeepsPresence(w.st, s, sid, pid);
    }
  }

  ghost predicate IsServedRun(
    sid: SessionId, socket: nat, pid: ParticipantId, steps: seq<ServedStep>, states: seq<Served>)
  {
    && |states| == |steps| + 1
    && states[0].c == ConnectionState(None, NEW_GUARD) && Keyed(states[0].st.sessions)
        && pid !in RosterOf(states[0].st, sid)
    && forall i {:trigger steps[i]} | 0 <= i < |steps| ::
         ServedEnabled(states[i], pid, steps[i]) && states[i + 1] == ServedNext(states[i], sid, socket, pid, steps[i])
  }

  /** Over every run of one connection serving `pid`, among any other traffic, sweeps and
      ticks: what is stored for `pid` is the last dispatched message of each kind since it
      joined, and no stored number exceeds what the guard has seen. */
  lemma {:induction false} StoredIsLastAdmitted(
    sid: SessionId, socket: nat, pid: ParticipantId, steps: seq<ServedStep>, states: seq<Served>, i: nat)
    requires IsServedRun(sid, socket, pid, steps, states) && i <= |steps|
    ensures ServedInvariant(states[i], sid, pid)
  {
    if i > 0 {
      StoredIsLastAdmitted(sid, socket, pid, steps, states, i - 1);
      ServedStepKeeps(states[i - 1], sid, socket, pid, steps[i - 1]);
    }
  }

  /** Hence the reducer never rejects what the guard admits. */
  lemma ReducerTakesWhatGuardAdmits(
    sid: SessionId, socket: nat, pid: ParticipantId, steps: seq<ServedStep>, states: seq<Served>, i: nat)
    requires IsServedRun(sid, socket, pid, steps, states) && i < |steps| && steps[i].Own?
    requires Judge(states[i].c, steps[i].m).Dispatched? && (steps[i].m.Cursor? || steps[i].m.Scroll?)
    requires pid in RosterOf(states[i].st, sid)
    ensures var r := ApplyEvent(states[i].st.sessions[sid], steps[i].m);
            && (r.changed.cursor <==> steps[i].m.Cursor?) && (r.changed.scroll <==> steps[i].m.Scroll?)
            && states[i + 1].st.sessions[sid] == r.state
  {
    StoredIsLastAdmitted(sid, socket, pid, steps, states, i);
    var p := states[i].st.sessions[sid].participants[pid].presence;
    var m := steps[i].m;
    assert p.SeqOf(CursorField) == p.cursorSeq && p.SeqOf(ScrollField) == p.scrollSeq;
  }
}
