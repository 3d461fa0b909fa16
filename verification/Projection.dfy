/** The whole server, every session and every handoff, seen from one participant: each of its
    steps is a step of the one-session model in Coalescing, or does not concern it. */
module Projection {
  import opened Wrappers
  import opened Protocol
  import opened Presence
  import opened Receiver
  import opened Scheduler
  import opened Registry
  import opened Hub
  import opened Server
  import opened Services
  import opened Ordering
  import PatchHistory
  import Coalescing
  import Convergence

  // ---- the whole server ----

  /** The registry, hub and announcements, the scheduler's two fields, and everything handed
      to a transport so far. */
  datatype Site = Site(st: ServerState, settling: Settling, seqno: nat, handed: seq<Handoff>)

  const NEW_SITE := Site(STARTED, map[], 0, [])

  /** What each method of the server may do, as its contract says: `batch` and `batches` are
      what it hands over, `sids` and `orders` the orders in which its Maps iterate. */
  datatype SiteStep =
    | HelloAt(sid: SessionId, socket: nat, m: InboundMessage, now: int, snaps: seq<ParticipantSnapshot>,
        batch: seq<Handoff>)
    | LeaveAt(sid: SessionId, pid: ParticipantId, batch: seq<Handoff>)
    | PresenceAt(sid: SessionId, m: InboundMessage)
    | ReapAt(reaped: seq<ReapedParticipant>, ttl: int, now: int, batches: seq<seq<Handoff>>)
    | TickAt(now: int, sids: seq<SessionId>, orders: seq<seq<ParticipantPatch>>, settling: Settling,
        batches: seq<seq<Handoff>>)

  function Announced(site: Site, step: SiteStep): seq<Broadcast>
    requires step.TickAt? && |step.orders| <= |step.sids| && forall sid | sid in step.sids :: sid in site.st.sessions
  {
    AnnounceEach(site.st.sessions, site.settling, step.sids, step.orders, site.seqno + 1, step.now)
  }

  /** A tick lists sessions that exist, each with the order in which its patch was built. */
  predicate Shaped(site: Site, step: SiteStep) {
    step.TickAt? ==> |step.orders| == |step.sids| && forall sid | sid in step.sids :: sid in site.st.sessions
  }

  function Underlying(site: Site, step: SiteStep): ServerStep
    requires Shaped(site, step)
  {
    match step
    case HelloAt(sid, socket, m, now, _, _) => OnHello(sid, socket, m, now)
    case LeaveAt(sid, pid, _) => OnLeave(sid, pid)
    case PresenceAt(sid, m) => OnPresence(sid, m)
    case ReapAt(reaped, ttl, now, _) => OnReap(reaped, ttl, now)
    case TickAt(_, sids, orders, _, _) => OnTick(Flushed(sids, orders), Announced(site, step))
  }

  /** The tick's own conditions, as `Tick` ensures them. */
  ghost predicate TickEnabled(site: Site, open: set<nat>, step: SiteStep)
    requires step.TickAt?
  {
    && NoDup(step.sids) && (forall sid :: sid in step.sids <==> sid in site.st.sessions)
    && |step.orders| == |step.sids|
    && Progress(TickState(site.st, Flushed(step.sids, step.orders), []).sessions, step.settling,
                site.st.sessions, site.settling, step.sids, step.orders, site.seqno + 1, step.now)
    && HandsEach(site.st.hub, open, Announced(site, step), step.batches)
  }

  /** `open` are the sockets open at this step. */
  ghost predicate SiteEnabled(site: Site, open: set<nat>, step: SiteStep) {
    Keyed(site.st.sessions) &&
    match step
    case HelloAt(sid, socket, m, now, snaps, batch) =>
      m.Hello? && HelloHands(site.st, open, sid, socket, m, now, snaps, batch)
    case LeaveAt(sid, pid, batch) => LeaveHands(site.st, open, sid, pid, batch)
    case PresenceAt(_, m) => m.Cursor? || m.Scroll?
    case ReapAt(reaped, ttl, now, batches) =>
      ReportsStale(reaped, site.st.sessions, site.st.sessions.Keys, ttl, now)
          && ReapHands(site.st, open, reaped, batches)
    case TickAt(_, _, _, _, _) => TickEnabled(site, open, step)
  }

  function HandedBy(step: SiteStep): seq<Handoff> {
    match step
    case HelloAt(_, _, _, _, _, batch) => batch
    case LeaveAt(_, _, batch) => batch
    case PresenceAt(_, _) => []
    case ReapAt(_, _, _, batches) => Flat(batches)
    case TickAt(_, _, _, _, batches) => Flat(batches)
  }

  lemma AnnouncedArePatches(site: Site, open: set<nat>, step: SiteStep)
    requires step.TickAt? && TickEnabled(site, open, step)
    ensures PatchesOnly(Announced(site, step))
  {
    AnnouncementsArePatches(site.st.sessions, site.settling, step.sids, step.orders, site.seqno + 1, step.now);
  }

  lemma StepIsServerStep(site: Site, open: set<nat>, step: SiteStep)
    requires SiteEnabled(site, open, step)
    ensures Shaped(site, step) && StepEnabled(site.st, Underlying(site, step))
  {
    if step.TickAt? { AnnouncedArePatches(site, open, step); }
  }

  ghost function SiteNext(site: Site, open: set<nat>, step: SiteStep): Site
    requires SiteEnabled(site, open, step)
  {
    StepIsServerStep(site, open, step);
    Site(Apply(site.st, Underlying(site, step)),
         if step.TickAt? then step.settling else site.settling,
         if step.TickAt? then site.seqno + 1 else site.seqno,
         site.handed + HandedBy(step))
  }

  // ---- one participant's part ----

  /** The messages handed over for one participant. */
  function Inbox(handed: seq<Handoff>, pid: ParticipantId): seq<OutboundMessage> {
    if |handed| == 0 then [] else
    var last := handed[|handed| - 1];
    Inbox(handed[..|handed| - 1], pid) + if last.pid == pid then [last.message] else []
  }

  lemma {:induction false} InboxConcat(a: seq<Handoff>, b: seq<Handoff>, pid: ParticipantId)
    ensures Inbox(a + b, pid) == Inbox(a, pid) + Inbox(b, pid)
  {
    if |b| == 0 {
      assert a + b == a;
    } else {
      InboxConcat(a, b[..|b| - 1], pid);
      assert (a + b)[..|a + b| - 1] == a + b[..|b| - 1];
    }
  }

  lemma {:induction false} NotInInbox(batch: seq<Handoff>, pid: ParticipantId)
    requires forall h | h in batch :: h.pid != pid
    ensures Inbox(batch, pid) == []
  {
    if |batch| > 0 {
      assert batch[|batch| - 1] in batch;
      NotInInbox(batch[..|batch| - 1], pid);
    }
  }

  /** A recipient gets a broadcast once, and no one else gets it. */
  lemma {:induction false} InboxOfFanOut(
    batch: seq<Handoff>, to: set<ParticipantId>, m: OutboundMessage, pid: ParticipantId)
    requires FanOut(batch, to, m)
    ensures Inbox(batch, pid) == if pid in to then [m] else []
  {
    if pid in to {
      var h :| h in batch && h.pid == pid;
      var k :| 0 <= k < |batch| && batch[k] == h;
      var a, b := batch[..k], batch[k + 1..];
      assert batch == a + [h] + b;
      assert forall x | x in a :: x.pid != pid;
      assert forall x | x in b :: x.pid != pid;
      NotInInbox(a, pid);
      NotInInbox(b, pid);
      InboxConcat(a + [h], b, pid);
      InboxConcat(a, [h], pid);
      assert Inbox([h], pid) == [m] by { assert [h][..0] == []; }
    } else {
      NotInInbox(batch, pid);
    }
  }

  /** What a participant of session `sid` has rebuilt from everything handed over for it. */
  function ViewOf(site: Site, pid: ParticipantId): View { DeliverAll(EMPTY_VIEW, Inbox(site.handed, pid)) }

  function SessionOf(st: ServerState, sid: SessionId): Option<Session> {
    if sid in st.sessions then Some(st.sessions[sid]) else None
  }

  /** `w` is what the site looks like from `viewer` in session `sid`. */
  ghost predicate Shows(site: Site, sid: SessionId, viewer: ParticipantId, w: Coalescing.World) {
    && w.session == SessionOf(site.st, sid) && w.settle == Lookup(site.settling, sid) && w.seqno == site.seqno
    && (w.connected <==> viewer in site.st.hub.ParticipantsOf(sid))
    && w.view == ViewOf(site, viewer)
  }

  /** In step, and everyone in the session it belongs to. */
  ghost predicate Homed(site: Site, home: ParticipantId -> SessionId) {
    Lockstep(site.st) && LivesAtHome(site.st, home)
  }

  /** ... and if the viewer is registered its socket is open; about the others' nothing is said. */
  ghost predicate InOrder(site: Site, open: set<nat>, home: ParticipantId -> SessionId, viewer: ParticipantId) {
    && Homed(site, home)
    && (viewer in site.st.hub.connections ==> site.st.hub.connections[viewer].socket in open)
  }

  /** The viewer says hello over a socket that is open. */
  predicate GreetsOpen(step: SiteStep, open: set<nat>, viewer: ParticipantId) {
    step.HelloAt? && step.m.pid == viewer ==> step.socket in open
  }

  predicate SiteAtHome(step: SiteStep, home: ParticipantId -> SessionId) {
    match step
    case HelloAt(sid, _, m, _, _, _) => sid == home(m.pid)
    case LeaveAt(sid, pid, _) => sid == home(pid)
    case _ => true
  }

  lemma SiteStaysHomed(site: Site, open: set<nat>, step: SiteStep, home: ParticipantId -> SessionId)
    requires Homed(site, home) && SiteEnabled(site, open, step) && SiteAtHome(step, home)
    ensures Homed(SiteNext(site, open, step), home)
  {
    hide Lockstep, LivesAtHome, SiteEnabled, Apply;
    StepIsServerStep(site, open, step);
    StepKeepsLockstep(site.st, Underlying(site, step), home);
  }

  /** A participant is in its own session, if it is anywhere. */
  lemma OnlyAtHome(site: Site, home: ParticipantId -> SessionId, pid: ParticipantId, sid: SessionId)
    requires Homed(site, home)
    ensures pid in site.st.hub.ParticipantsOf(sid) ==> sid == home(pid)
    ensures pid in site.st.hub.ParticipantsOf(sid) <==>
            pid in site.st.hub.connections && site.st.hub.connections[pid].sid == sid
  {
  }

  /** The viewer is reached in its own session, if it is there, and nowhere else. */
  lemma ReachedAtHome(
    site: Site, open: set<nat>, home: ParticipantId -> SessionId, viewer: ParticipantId, sid: SessionId)
    requires InOrder(site, open, home, viewer)
    ensures viewer in site.st.hub.ParticipantsOf(sid) ==> sid == home(viewer) && Reaches(site.st.hub, open, viewer)
  {
    OnlyAtHome(site, home, viewer, sid);
  }

  /** Messages that arrive extend the view. */
  lemma ViewGrows(site: Site, open: set<nat>, step: SiteStep, pid: ParticipantId)
    requires SiteEnabled(site, open, step)
    ensures ViewOf(SiteNext(site, open, step), pid) == DeliverAll(ViewOf(site, pid), Inbox(HandedBy(step), pid))
  {
    InboxConcat(site.handed, HandedBy(step), pid);
    PatchHistory.DeliverAllConcat(EMPTY_VIEW, Inbox(site.handed, pid), Inbox(HandedBy(step), pid));
  }

  lemma DeliverOne(v: View, m: OutboundMessage)
    ensures DeliverAll(v, [m]) == Deliver(v, m)
  {
    assert [m][..0] == [];
  }

  // ---- each step, seen from the participant ----

  /** After `site` takes `step` the view is `w` advanced by `seen`, or `w` itself. */
  ghost predicate Follows(
    site: Site, open: set<nat>, step: SiteStep, sid: SessionId, viewer: ParticipantId,
    w: Coalescing.World, seen: Option<Coalescing.Step>)
    requires SiteEnabled(site, open, step)
  {
    match seen
    case None => Shows(SiteNext(site, open, step), sid, viewer, w)
    case Some(own) =>
      && Coalescing.Enabled(w, own)
      && Shows(SiteNext(site, open, step), sid, viewer, Coalescing.Next(w, viewer, own, 0))
  }

  lemma GreetingInbox(pid: ParticipantId, m: OutboundMessage, others: seq<Handoff>, viewer: ParticipantId)
    ensures Inbox([Handoff(pid, m)] + others, viewer) == (if viewer == pid then [m] else []) + Inbox(others, viewer)
  {
    InboxConcat([Handoff(pid, m)], others, viewer);
    assert [Handoff(pid, m)][..0] == [];
  }

  /** A viewer of another session, or the new participant itself, is not told. */
  lemma JoinedRecipients(
    site: Site, open: set<nat>, home: ParticipantId -> SessionId, c: Connection, viewer: ParticipantId)
    requires InOrder(site, open, home, viewer)
    ensures viewer in Recipients(Register(site.st.hub, c), open, c.sid, Some(c.pid)) <==>
              viewer != c.pid && viewer in site.st.hub.ParticipantsOf(c.sid)
  {
    ReachedAtHome(site, open, home, viewer, c.sid);
  }

  /** The state after a step, component by component. */
  ghost predicate Becomes(
    site: Site, open: set<nat>, step: SiteStep, viewer: ParticipantId, st: ServerState, settling: Settling, seqno: nat)
    requires SiteEnabled(site, open, step)
  {
    var next := SiteNext(site, open, step);
    && next.st == st && next.settling == settling && next.seqno == seqno
    && ViewOf(next, viewer) == DeliverAll(ViewOf(site, viewer), Inbox(HandedBy(step), viewer))
  }

  /** A world with the right five fields shows the next state. */
  lemma FollowsBy(
    site: Site, open: set<nat>, step: SiteStep, sid: SessionId, viewer: ParticipantId, w: Coalescing.World,
    own: Coalescing.Step, st: ServerState, settling: Settling, seqno: nat)
    requires SiteEnabled(site, open, step) && Becomes(site, open, step, viewer, st, settling, seqno)
    requires Coalescing.Enabled(w, own) && w.view == ViewOf(site, viewer)
    requires var after := Coalescing.Next(w, viewer, own, 0);
             && after.session == SessionOf(st, sid) && after.settle == Lookup(settling, sid) && after.seqno == seqno
             && (after.connected <==> viewer in st.hub.ParticipantsOf(sid))
             && after.view == DeliverAll(w.view, Inbox(HandedBy(step), viewer))
    ensures Follows(site, open, step, sid, viewer, w, Some(own))
  {
  }

  lemma LeaveBecomes(site: Site, open: set<nat>, step: SiteStep, viewer: ParticipantId)
    requires SiteEnabled(site, open, step) && step.LeaveAt?
    ensures Becomes(site, open, step, viewer, LeaveState(site.st, step.sid, step.pid), site.settling, site.seqno)
  {
    ViewGrows(site, open, step, viewer);
  }

  lemma ReapBecomes(site: Site, open: set<nat>, step: SiteStep, viewer: ParticipantId)
    requires SiteEnabled(site, open, step) && step.ReapAt?
    ensures Becomes(site, open, step, viewer, ReapState(site.st, step.reaped, step.ttl, step.now), site.settling,
        site.seqno)
  {
    ViewGrows(site, open, step, viewer);
  }

  lemma TickBecomes(site: Site, open: set<nat>, step: SiteStep, viewer: ParticipantId)
    requires SiteEnabled(site, open, step) && step.TickAt?
    ensures Becomes(site, open, step, viewer,
                    TickState(site.st, Flushed(step.sids, step.orders), Announced(site, step)), step.settling,
                        site.seqno + 1)
  {
    hide TickState, Flushed, AnnounceEach, TickEnabled, ViewOf, Inbox;
    ViewGrows(site, open, step, viewer);
  }

  lemma HelloInbox(
    site: Site, open: set<nat>, step: SiteStep, home: ParticipantId -> SessionId, viewer: ParticipantId)
    requires InOrder(site, open, home, viewer) && SiteEnabled(site, open, step) && step.HelloAt?
    requires GreetsOpen(step, open, viewer)
    ensures Inbox(step.batch, viewer) ==
            if viewer == step.m.pid then [Welcome(step.snaps)]
            else if step.m.pid !in RosterOf(site.st, step.sid) && viewer in site.st.hub.ParticipantsOf(step.sid)
            then [JoinOf(SessionAfterHello(site.st, step.sid, step.m, step.now).participants[step.m.pid])]
            else []
  {
    hide InOrder, JoinOf, Recipients, FanOut, Register, ListsRoster;
    var greeted := step.socket in open;
    var others := if greeted then step.batch[1..] else step.batch;
    if greeted {
      assert step.batch == [Handoff(step.m.pid, Welcome(step.snaps))] + others;
      GreetingInbox(step.m.pid, Welcome(step.snaps), others, viewer);
    }
    if step.m.pid !in RosterOf(site.st, step.sid) {
      var c := Connection(step.m.pid, step.sid, step.socket);
      JoinedRecipients(site, open, home, c, viewer);
      InboxOfFanOut(others, Recipients(Register(site.st.hub, c), open, step.sid, Some(step.m.pid)),
                    JoinOf(SessionAfterHello(site.st, step.sid, step.m, step.now).participants[step.m.pid]), viewer);
    }
  }

  lemma HelloFields(st: ServerState, sid: SessionId, socket: nat, m: InboundMessage, now: int, s: SessionId)
    requires Keyed(st.sessions) && m.Hello?
    ensures var after := HelloState(st, sid, socket, m, now);
            && SessionOf(after, s) == (if s == sid then Some(SessionAfterHello(st, sid, m, now)) else SessionOf(st, s))
            && after.hub.ParticipantsOf(s) == st.hub.ParticipantsOf(s) + if s == sid then {m.pid} else {}
  {
  }

  lemma HelloBecomes(site: Site, open: set<nat>, step: SiteStep, viewer: ParticipantId)
    requires SiteEnabled(site, open, step) && step.HelloAt?
    ensures Becomes(site, open, step, viewer,
                    HelloState(site.st, step.sid, step.socket, step.m, step.now), site.settling, site.seqno)
    ensures Keyed(site.st.sessions) && ListsRoster(SessionAfterHello(site.st, step.sid, step.m, step.now), step.snaps)
  {
    ViewGrows(site, open, step, viewer);
  }

  lemma HelloFollowsOwn(
    site: Site, open: set<nat>, step: SiteStep, home: ParticipantId -> SessionId,
    sid: SessionId, viewer: ParticipantId, w: Coalescing.World)
    requires InOrder(site, open, home, viewer) && SiteEnabled(site, open, step)
    requires step.HelloAt? && step.sid == sid
    requires GreetsOpen(step, open, viewer)
    requires Shows(site, sid, viewer, w)
    ensures Follows(site, open, step, sid, viewer, w, Some(Coalescing.HelloStep(step.m, sid, step.now, step.snaps)))
  {
    hide InOrder, HelloHands, ListsRoster, HelloState, SessionAfterHello, Coalescing.Next, Coalescing.Enabled, Becomes;
    HelloInbox(site, open, step, home, viewer);
    HelloBecomes(site, open, step, viewer);
    HelloFields(site.st, sid, step.socket, step.m, step.now, sid);
    HelloSeen(site, step, sid, viewer, w);
    FollowsBy(site, open, step, sid, viewer, w, Coalescing.HelloStep(step.m, sid, step.now, step.snaps),
              HelloState(site.st, sid, step.socket, step.m, step.now), site.settling, site.seqno);
  }

  lemma HelloFollows(
    site: Site, open: set<nat>, step: SiteStep, home: ParticipantId -> SessionId,
    sid: SessionId, viewer: ParticipantId, w: Coalescing.World)
    returns (seen: Option<Coalescing.Step>)
    requires InOrder(site, open, home, viewer) && SiteEnabled(site, open, step)
    requires step.HelloAt? && SiteAtHome(step, home)
    requires GreetsOpen(step, open, viewer)
    requires Shows(site, sid, viewer, w) && home(viewer) == sid
    ensures Follows(site, open, step, sid, viewer, w, seen)
  {
    HelloInbox(site, open, step, home, viewer);
    HelloBecomes(site, open, step, viewer);
    HelloFields(site.st, step.sid, step.socket, step.m, step.now, sid);
    if step.sid == sid {
      HelloFollowsOwn(site, open, step, home, sid, viewer, w);
      seen := Some(Coalescing.HelloStep(step.m, sid, step.now, step.snaps));
    } else {
      hide HelloHands, HelloState, SessionAfterHello;
      seen := None;
      ReachedAtHome(site, open, home, viewer, step.sid);
    }
  }

  /** A hello in the viewer's own session. */
  lemma HelloSeen(site: Site, step: SiteStep, sid: SessionId, viewer: ParticipantId, w: Coalescing.World)
    requires step.HelloAt? && step.m.Hello? && step.sid == sid && Keyed(site.st.sessions) && Shows(site, sid, viewer, w)
    requires ListsRoster(SessionAfterHello(site.st, sid, step.m, step.now), step.snaps)
    requires Inbox(step.batch, viewer) ==
             if viewer == step.m.pid then [Welcome(step.snaps)]
             else if step.m.pid !in RosterOf(site.st, sid) && viewer in site.st.hub.ParticipantsOf(sid)
             then [JoinOf(SessionAfterHello(site.st, sid, step.m, step.now).participants[step.m.pid])]
             else []
    ensures var own := Coalescing.HelloStep(step.m, sid, step.now, step.snaps);
            var after := Coalescing.Next(w, viewer, own, 0);
            && Coalescing.Enabled(w, own)
            && after.session == Some(SessionAfterHello(site.st, sid, step.m, step.now))
            && after.settle == w.settle && after.seqno == w.seqno
            && (after.connected <==> w.connected || viewer == step.m.pid)
            && after.view == DeliverAll(w.view, Inbox(step.batch, viewer))
  {
    assert Coalescing.BeforeHello(w, sid, step.now) == GetOrCreateSession(site.st.sessions, sid, step.now);
    if Inbox(step.batch, viewer) != [] { DeliverOne(w.view, Inbox(step.batch, viewer)[0]); }
  }

  /** Of those still registered, the viewer is told if it is in the session. */
  lemma LeaveRecipients(
    site: Site, open: set<nat>, home: ParticipantId -> SessionId, sid: SessionId, pid: ParticipantId,
    viewer: ParticipantId)
    requires InOrder(site, open, home, viewer)
    ensures viewer in Recipients(Unregister(site.st.hub, pid), open, sid, Some(pid)) <==>
              viewer != pid && viewer in site.st.hub.ParticipantsOf(sid)
  {
    UnregisterKeepsAgreement(site.st.hub, pid);
    ReachedAtHome(site, open, home, viewer, sid);
  }

  lemma LeaveInbox(
    site: Site, open: set<nat>, step: SiteStep, home: ParticipantId -> SessionId, viewer: ParticipantId)
    requires InOrder(site, open, home, viewer) && SiteEnabled(site, open, step)
    requires step.LeaveAt? && SiteAtHome(step, home)
    ensures Inbox(step.batch, viewer) ==
            if && step.pid in RosterOf(site.st, step.sid) && viewer != step.pid
               && viewer in site.st.hub.ParticipantsOf(step.sid)
            then [Leave(step.pid)] else []
  {
    hide InOrder, Unregister, Recipients, FanOut;
    if step.pid in RosterOf(site.st, step.sid) {
      LeaveRecipients(site, open, home, step.sid, step.pid, viewer);
      var hub := Unregister(site.st.hub, step.pid);
      InboxOfFanOut(step.batch, Recipients(hub, open, step.sid, Some(step.pid)), Leave(step.pid), viewer);
    }
  }

  lemma LeaveFields(st: ServerState, sid: SessionId, pid: ParticipantId, s: SessionId)
    requires Keyed(st.sessions) && HubAgrees(st.hub)
    ensures var after := LeaveState(st, sid, pid);
            && SessionOf(after, s) == (if s == sid && pid in RosterOf(st, sid)
                                       then Some(RemoveParticipant(st.sessions[sid], pid)) else SessionOf(st, s))
            && after.hub.ParticipantsOf(s) == st.hub.ParticipantsOf(s) - {pid}
  {
    UnregisterKeepsAgreement(st.hub, pid);
  }

  /** One participant of the viewer's session goes, and the viewer is told if it stays. */
  lemma DepartSeen(w: Coalescing.World, viewer: ParticipantId, pid: ParticipantId, inbox: seq<OutboundMessage>)
    requires inbox == if && w.session.Some? && pid in w.session.value.participants && viewer != pid && w.connected
                      then [Leave(pid)] else []
    ensures var after := Coalescing.Depart(w, viewer, pid, 0);
            && after.session == (if w.session.Some? && pid in w.session.value.participants
                                 then Some(RemoveParticipant(w.session.value, pid)) else w.session)
            && after.settle == w.settle && after.seqno == w.seqno
            && (after.connected <==> w.connected && viewer != pid)
            && after.view == DeliverAll(w.view, inbox)
  {
    if w.session.Some? { Coalescing.RemovalKeepsAgreement(w.session.value, pid, map[]); }
    DeliverOne(w.view, Leave(pid));
  }

  lemma LeaveFollows(
    site: Site, open: set<nat>, step: SiteStep, home: ParticipantId -> SessionId,
    sid: SessionId, viewer: ParticipantId, w: Coalescing.World)
    returns (seen: Option<Coalescing.Step>)
    requires InOrder(site, open, home, viewer) && SiteEnabled(site, open, step)
    requires step.LeaveAt? && SiteAtHome(step, home)
    requires Shows(site, sid, viewer, w) && home(viewer) == sid
    ensures Follows(site, open, step, sid, viewer, w, seen)
  {
    LeaveInbox(site, open, step, home, viewer);
    LeaveBecomes(site, open, step, viewer);
    LeaveFields(site.st, step.sid, step.pid, sid);
    if step.sid == sid {
      seen := Some(Coalescing.DepartStep(step.pid));
      DepartSeen(w, viewer, step.pid, Inbox(step.batch, viewer));
      FollowsBy(site, open, step, sid, viewer, w, Coalescing.DepartStep(step.pid),
                LeaveState(site.st, sid, step.pid), site.settling, site.seqno);
    } else {
      seen := None;
      ReachedAtHome(site, open, home, viewer, step.sid);
    }
  }

  lemma PresenceFollows(
    site: Site, open: set<nat>, step: SiteStep, sid: SessionId, viewer: ParticipantId, w: Coalescing.World)
    returns (seen: Option<Coalescing.Step>)
    requires SiteEnabled(site, open, step) && step.PresenceAt? && Shows(site, sid, viewer, w)
    ensures Follows(site, open, step, sid, viewer, w, seen)
  {
    hide Lockstep;
    seen := if step.sid == sid then Some(Coalescing.PresenceStep(step.m)) else None;
    ViewGrows(site, open, step, viewer);
    if step.sid in site.st.sessions {
      assert ApplyEvent(site.st.sessions[step.sid], step.m).state.sid == step.sid by {
        if step.m.pid in site.st.sessions[step.sid].participants {
          ApplyPresenceEvent(site.st.sessions[step.sid], step.m, step.m.pid, CursorField);
        }
      }
    }
  }

  // ---- a sweep ----

  /** The pids reported in one session, in order. */
  function GoneFrom(reaped: seq<ReapedParticipant>, sid: SessionId): seq<ParticipantId> {
    if |reaped| == 0 then [] else
    var last := reaped[|reaped| - 1];
    GoneFrom(reaped[..|reaped| - 1], sid) + if last.sid == sid then [last.pid] else []
  }

  /** A sweep that has got through the first `i` reaped, seen from the viewer: `s` was its session. */
  ghost predicate Reaping(
    w: Coalescing.World, was: Coalescing.World, h: HubState, reaped: seq<ReapedParticipant>, sid: SessionId,
    viewer: ParticipantId, inbox: seq<OutboundMessage>)
  {
    && w.settle == was.settle && w.seqno == was.seqno
    && (w.connected <==> viewer in UnregisterEach(h, reaped).ParticipantsOf(sid))
    && w.view == DeliverAll(was.view, inbox)
    && w.session == match was.session
                    case None => None
                    case Some(s) => Some(Without(s, ReportedIn(reaped, sid)))
  }

  /** The `i`th participant reaped was in its session, which is its own. */
  lemma ReapedIsHome(
    site: Site, open: set<nat>, step: SiteStep, home: ParticipantId -> SessionId, i: nat)
    requires Homed(site, home) && SiteEnabled(site, open, step) && step.ReapAt? && i < |step.reaped|
    ensures var r := step.reaped[i];
            r.pid in RosterOf(site.st, r.sid) && r.sid == home(r.pid)
  {
    hide ReapHands;
    var r := step.reaped[i];
    assert Reports(step.reaped, r.sid, r.pid);
    assert IsStale(site.st.sessions, r.sid, r.pid, step.ttl, step.now);
    assert site.st.hub.ParticipantsOf(r.sid) == RosterOf(site.st, r.sid);
    OnlyAtHome(site, home, r.pid, r.sid);
  }

  /** Of those registered mid-sweep, everyone in the session but the one reaped is reached. */
  lemma ReapRecipients(
    site: Site, open: set<nat>, home: ParticipantId -> SessionId, reaped: seq<ReapedParticipant>,
    sid: SessionId, pid: ParticipantId, viewer: ParticipantId)
    requires InOrder(site, open, home, viewer) && exists k :: 0 <= k < |reaped| && reaped[k].pid == pid
    ensures var hub := UnregisterEach(site.st.hub, reaped);
            viewer in Recipients(hub, open, sid, Some(pid)) <==> viewer in hub.ParticipantsOf(sid)
  {
    UnregisterEachAgrees(site.st.hub, reaped);
    UnregisterEachShrinks(site.st.hub, reaped);
    var hub := UnregisterEach(site.st.hub, reaped);
    assert viewer in hub.ParticipantsOf(sid) <==> viewer in hub.connections && hub.connections[viewer].sid == sid;
  }

  /** Who is told of the `i`th participant reaped. */
  lemma ReapInbox(
    site: Site, open: set<nat>, step: SiteStep, home: ParticipantId -> SessionId, i: nat, viewer: ParticipantId)
    requires InOrder(site, open, home, viewer) && SiteEnabled(site, open, step) && step.ReapAt? && i < |step.reaped|
    ensures var r := step.reaped[i];
            Inbox(step.batches[i], viewer) ==
            if viewer in UnregisterEach(site.st.hub, step.reaped[..i + 1]).ParticipantsOf(r.sid)
            then [Leave(r.pid)] else []
  {
    hide InOrder, ReportsStale, Recipients, FanOut, Inbox;
    var r := step.reaped[i];
    var hub := UnregisterEach(site.st.hub, step.reaped[..i + 1]);
    assert step.reaped[..i + 1][i].pid == r.pid;
    ReapRecipients(site, open, home, step.reaped[..i + 1], r.sid, r.pid, viewer);
    InboxOfFanOut(step.batches[i], Recipients(hub, open, r.sid, Some(r.pid)), Leave(r.pid), viewer);
  }

  lemma ReapHub(h: HubState, reaped: seq<ReapedParticipant>, i: nat, sid: SessionId)
    requires HubAgrees(h) && i < |reaped|
    ensures UnregisterEach(h, reaped[..i + 1]).ParticipantsOf(sid) ==
            UnregisterEach(h, reaped[..i]).ParticipantsOf(sid) - {reaped[i].pid}
    ensures UnregisterEach(h, reaped[..i + 1]).ParticipantsOf(sid) <= h.ParticipantsOf(sid)
  {
    assert reaped[..i + 1][..i] == reaped[..i];
    UnregisterEachAgrees(h, reaped[..i]);
    UnregisterEachAgrees(h, reaped[..i + 1]);
    UnregisterKeepsAgreement(UnregisterEach(h, reaped[..i]), reaped[i].pid);
  }

  /** The next one reaped is still there. */
  lemma NotYetReported(reaped: seq<ReapedParticipant>, i: nat, sid: SessionId, sessions: Sessions, ttl: int, now: int)
    requires i < |reaped| && reaped[i].sid == sid && ReportsStale(reaped, sessions, sessions.Keys, ttl, now)
    ensures reaped[i].pid !in ReportedIn(reaped[..i], sid)
    ensures sid in sessions && reaped[i].pid in sessions[sid].participants
  {
    assert Reports(reaped, sid, reaped[i].pid);
    assert IsStale(sessions, sid, reaped[i].pid, ttl, now);
  }

  lemma ReapElsewhere(
    site: Site, open: set<nat>, step: SiteStep, home: ParticipantId -> SessionId,
    sid: SessionId, viewer: ParticipantId, i: nat)
    requires InOrder(site, open, home, viewer) && SiteEnabled(site, open, step) && step.ReapAt?
    requires home(viewer) == sid && i < |step.reaped| && step.reaped[i].sid != sid
    ensures Inbox(step.batches[i], viewer) == [] && viewer != step.reaped[i].pid
  {
    ReapInbox(site, open, step, home, i, viewer);
    ReapedIsHome(site, open, step, home, i);
    ReapHub(site.st.hub, step.reaped, i, step.reaped[i].sid);
    ReachedAtHome(site, open, home, viewer, step.reaped[i].sid);
  }

  /** One more of the viewer's session goes. */
  lemma ReapingOwn(
    mid: Coalescing.World, was: Coalescing.World, h: HubState, reaped: seq<ReapedParticipant>, i: nat,
    sid: SessionId, viewer: ParticipantId, before: seq<OutboundMessage>, now: seq<OutboundMessage>)
    requires HubAgrees(h) && i < |reaped| && reaped[i].sid == sid
    requires Reaping(mid, was, h, reaped[..i], sid, viewer, before)
    requires was.session.Some? && reaped[i].pid in was.session.value.participants
    requires reaped[i].pid !in ReportedIn(reaped[..i], sid)
    requires now == if viewer in UnregisterEach(h, reaped[..i + 1]).ParticipantsOf(sid) then [Leave(reaped[i].pid)]
        else []
    ensures Reaping(Coalescing.Depart(mid, viewer, reaped[i].pid, 0), was, h, reaped[..i + 1], sid, viewer,
        before + now)
  {
    ReportedMore(reaped, i, sid);
    ReapHub(h, reaped, i, sid);
    DepartSeen(mid, viewer, reaped[i].pid, now);
    WithoutOneMore(was.session.value, ReportedIn(reaped[..i], sid), reaped[i].pid);
    PatchHistory.DeliverAllConcat(was.view, before, now);
  }

  /** One more of another session goes. */
  lemma ReapingOther(
    mid: Coalescing.World, was: Coalescing.World, h: HubState, reaped: seq<ReapedParticipant>, i: nat,
    sid: SessionId, viewer: ParticipantId, before: seq<OutboundMessage>)
    requires HubAgrees(h) && i < |reaped| && reaped[i].sid != sid && reaped[i].pid != viewer
    requires Reaping(mid, was, h, reaped[..i], sid, viewer, before)
    ensures Reaping(mid, was, h, reaped[..i + 1], sid, viewer, before)
  {
    ReportedMore(reaped, i, sid);
    ReapHub(h, reaped, i, sid);
    assert ReportedIn(reaped[..i + 1], sid) == ReportedIn(reaped[..i], sid);
  }

  /** How the lists of a sweep grow. */
  lemma ReapLists(step: SiteStep, i: nat, sid: SessionId, viewer: ParticipantId)
    requires step.ReapAt? && i < |step.reaped| == |step.batches|
    ensures GoneFrom(step.reaped[..i + 1], sid) ==
            GoneFrom(step.reaped[..i], sid) + if step.reaped[i].sid == sid then [step.reaped[i].pid] else []
    ensures Inbox(Flat(step.batches[..i + 1]), viewer) ==
            Inbox(Flat(step.batches[..i]), viewer) + Inbox(step.batches[i], viewer)
  {
    assert step.reaped[..i + 1][..i] == step.reaped[..i] && step.batches[..i + 1][..i] == step.batches[..i];
    InboxConcat(Flat(step.batches[..i]), step.batches[i], viewer);
  }

  lemma DepartOneMore(w: Coalescing.World, viewer: ParticipantId, gone: seq<ParticipantId>, pid: ParticipantId)
    ensures Coalescing.DepartEach(w, viewer, gone + [pid], 0) ==
            Coalescing.Depart(Coalescing.DepartEach(w, viewer, gone, 0), viewer, pid, 0)
  {
    assert (gone + [pid])[..|gone|] == gone;
  }

  lemma ReapStepSeen(
    site: Site, open: set<nat>, step: SiteStep, home: ParticipantId -> SessionId,
    sid: SessionId, viewer: ParticipantId, w: Coalescing.World, i: nat)
    requires InOrder(site, open, home, viewer) && SiteEnabled(site, open, step) && step.ReapAt?
    requires Shows(site, sid, viewer, w) && home(viewer) == sid && i < |step.reaped|
    requires Reaping(Coalescing.DepartEach(w, viewer, GoneFrom(step.reaped[..i], sid), 0), w, site.st.hub,
                     step.reaped[..i], sid, viewer, Inbox(Flat(step.batches[..i]), viewer))
    ensures Reaping(Coalescing.DepartEach(w, viewer, GoneFrom(step.reaped[..i + 1], sid), 0), w, site.st.hub,
                    step.reaped[..i + 1], sid, viewer, Inbox(Flat(step.batches[..i + 1]), viewer))
  {
    var gone, r := GoneFrom(step.reaped[..i], sid), step.reaped[i];
    var mid := Coalescing.DepartEach(w, viewer, gone, 0);
    var before, now := Inbox(Flat(step.batches[..i]), viewer), Inbox(step.batches[i], viewer);
    ReapLists(step, i, sid, viewer);
    if r.sid == sid {
      ReapInbox(site, open, step, home, i, viewer);
      NotYetReported(step.reaped, i, sid, site.st.sessions, step.ttl, step.now);
      ReapingOwn(mid, w, site.st.hub, step.reaped, i, sid, viewer, before, now);
      DepartOneMore(w, viewer, gone, r.pid);
    } else {
      ReapElsewhere(site, open, step, home, sid, viewer, i);
      ReapingOther(mid, w, site.st.hub, step.reaped, i, sid, viewer, before);
      assert before + [] == before && gone + [] == gone;
    }
  }

  lemma {:induction false} ReapSeen(
    site: Site, open: set<nat>, step: SiteStep, home: ParticipantId -> SessionId,
    sid: SessionId, viewer: ParticipantId, w: Coalescing.World, i: nat)
    requires InOrder(site, open, home, viewer) && SiteEnabled(site, open, step) && step.ReapAt?
    requires Shows(site, sid, viewer, w) && home(viewer) == sid && i <= |step.reaped|
    ensures Reaping(Coalescing.DepartEach(w, viewer, GoneFrom(step.reaped[..i], sid), 0), w, site.st.hub,
                    step.reaped[..i], sid, viewer, Inbox(Flat(step.batches[..i]), viewer))
  {
    hide SiteEnabled, InOrder;
    if i == 0 {
      if w.session.Some? { EmptyIff(w.session.value, {}); }
      assert ReportedIn([], sid) == {};
    } else {
      ReapSeen(site, open, step, home, sid, viewer, w, i - 1);
      ReapStepSeen(site, open, step, home, sid, viewer, w, i - 1);
    }
  }

  /** What a sweep leaves of one session, and when it drops it. */
  lemma ReapedSession(st: ServerState, reaped: seq<ReapedParticipant>, ttl: int, now: int, sid: SessionId)
    requires ReportsStale(reaped, st.sessions, st.sessions.Keys, ttl, now) && sid in st.sessions
    ensures var next := Without(st.sessions[sid], ReportedIn(reaped, sid));
            SessionOf(ReapState(st, reaped, ttl, now), sid) ==
            if next != st.sessions[sid] && IsEmpty(next) then None else Some(next)
  {
    ReportedAreStale(reaped, st.sessions, sid, ttl, now);
    EmptyIff(st.sessions[sid], ReportedIn(reaped, sid));
  }

  /** The end of a sweep: an emptied session is dropped. */
  lemma ReapEnds(
    w: Coalescing.World, viewer: ParticipantId, gone: seq<ParticipantId>, st: ServerState,
    reaped: seq<ReapedParticipant>, ttl: int, now: int, sid: SessionId, inbox: seq<OutboundMessage>)
    requires ReportsStale(reaped, st.sessions, st.sessions.Keys, ttl, now) && w.session == SessionOf(st, sid)
    requires Reaping(Coalescing.DepartEach(w, viewer, gone, 0), w, st.hub, reaped, sid, viewer, inbox)
    ensures var after := Coalescing.Next(w, viewer, Coalescing.ReapStep(gone), 0);
            && after.session == SessionOf(ReapState(st, reaped, ttl, now), sid)
            && after.settle == w.settle && after.seqno == w.seqno && after.view == DeliverAll(w.view, inbox)
            && (after.connected <==> viewer in ReapState(st, reaped, ttl, now).hub.ParticipantsOf(sid))
  {
    if sid in st.sessions { ReapedSession(st, reaped, ttl, now, sid); }
  }

  lemma ReapFollows(
    site: Site, open: set<nat>, step: SiteStep, home: ParticipantId -> SessionId,
    sid: SessionId, viewer: ParticipantId, w: Coalescing.World)
    returns (seen: Option<Coalescing.Step>)
    requires InOrder(site, open, home, viewer) && SiteEnabled(site, open, step) && step.ReapAt?
    requires Shows(site, sid, viewer, w) && home(viewer) == sid
    ensures Follows(site, open, step, sid, viewer, w, seen)
  {
    var gone := GoneFrom(step.reaped, sid);
    seen := Some(Coalescing.ReapStep(gone));
    ReapSeen(site, open, step, home, sid, viewer, w, |step.reaped|);
    assert step.reaped[..|step.reaped|] == step.reaped && step.batches[..|step.reaped|] == step.batches;
    ReapEnds(w, viewer, gone, site.st, step.reaped, step.ttl, step.now, sid, Inbox(Flat(step.batches), viewer));
    ReapBecomes(site, open, step, viewer);
    FollowsBy(site, open, step, sid, viewer, w, Coalescing.ReapStep(gone),
              ReapState(site.st, step.reaped, step.ttl, step.now), site.settling, site.seqno);
  }

  // ---- a tick ----

  /** What the broadcasts `bs` say to one participant. */
  function Told(h: HubState, bs: seq<Broadcast>, pid: ParticipantId): seq<OutboundMessage> {
    if |bs| == 0 then [] else
    var last := bs[|bs| - 1];
    Told(h, bs[..|bs| - 1], pid) + if pid in h.ParticipantsOf(last.sid) then [last.message] else []
  }

  lemma ToldConcat(h: HubState, bs: seq<Broadcast>, b: Broadcast, pid: ParticipantId)
    ensures Told(h, bs + [b], pid) == Told(h, bs, pid) + if pid in h.ParticipantsOf(b.sid) then [b.message] else []
  {
    assert (bs + [b])[..|bs|] == bs;
  }

  lemma {:induction false} InboxOfBroadcasts(
    site: Site, open: set<nat>, home: ParticipantId -> SessionId, bs: seq<Broadcast>, batches: seq<seq<Handoff>>,
    viewer: ParticipantId)
    requires InOrder(site, open, home, viewer) && HandsEach(site.st.hub, open, bs, batches)
    requires forall b | b in bs :: b.exclude.None?
    ensures Inbox(Flat(batches), viewer) == Told(site.st.hub, bs, viewer)
  {
    if |bs| > 0 {
      var n := |bs| - 1;
      InboxOfBroadcasts(site, open, home, bs[..n], batches[..n], viewer);
      InboxConcat(Flat(batches[..n]), batches[n], viewer);
      assert bs[n] in bs;
      InboxOfFanOut(batches[n], Recipients(site.st.hub, open, bs[n].sid, bs[n].exclude), bs[n].message, viewer);
      ReachedAtHome(site, open, home, viewer, bs[n].sid);
    }
  }

  function Sent(out: Option<OutboundMessage>): seq<OutboundMessage> { if out.Some? then [out.value] else [] }

  /** A participant is in session `sid` or nowhere. */
  ghost predicate OnlyIn(h: HubState, pid: ParticipantId, sid: SessionId) {
    forall s | pid in h.ParticipantsOf(s) :: s == sid
  }

  lemma ToldMore(
    h: HubState, before: Sessions, settled: Settling, sids: seq<SessionId>, orders: seq<seq<ParticipantPatch>>,
    seqno: nat, now: int, pid: ParticipantId)
    requires 0 < |orders| <= |sids| && forall s | s in sids :: s in before
    ensures var n := |orders| - 1;
            Told(h, AnnounceEach(before, settled, sids, orders, seqno, now), pid) ==
            Told(h, AnnounceEach(before, settled, sids, orders[..n], seqno, now), pid)
              + if pid in h.ParticipantsOf(sids[n])
                  then Sent(ResultOf(before, settled, sids[n], orders[n], seqno, now).out)
                else []
  {
    hide ResultOf;
    var n := |orders| - 1;
    var r := ResultOf(before, settled, sids[n], orders[n], seqno, now);
    var sofar := AnnounceEach(before, settled, sids, orders[..n], seqno, now);
    if r.out.Some? {
      ToldConcat(h, sofar, Broadcast(sids[n], r.out.value, None), pid);
    } else {
      assert sofar + [] == sofar;
    }
  }

  /** A tick has nothing to say to a participant until it gets to its session ... */
  lemma {:induction false} TickTellsNothing(
    h: HubState, before: Sessions, settled: Settling, sids: seq<SessionId>, orders: seq<seq<ParticipantPatch>>,
    seqno: nat, now: int, sid: SessionId, pid: ParticipantId)
    requires |orders| <= |sids| && OnlyIn(h, pid, sid) && forall s | s in sids :: s in before
    requires pid !in h.ParticipantsOf(sid) || forall k | 0 <= k < |orders| :: sids[k] != sid
    ensures Told(h, AnnounceEach(before, settled, sids, orders, seqno, now), pid) == []
  {
    hide ResultOf;
    if |orders| > 0 {
      TickTellsNothing(h, before, settled, sids, orders[..|orders| - 1], seqno, now, sid, pid);
      ToldMore(h, before, settled, sids, orders, seqno, now, pid);
    }
  }

  /** ... and then what it has to say about it, once. */
  lemma {:induction false} TickTells(
    h: HubState, before: Sessions, settled: Settling, sids: seq<SessionId>, orders: seq<seq<ParticipantPatch>>,
    seqno: nat, now: int, pid: ParticipantId, k: nat)
    requires k < |orders| <= |sids| && NoDup(sids) && forall s | s in sids :: s in before
    requires OnlyIn(h, pid, sids[k]) && pid in h.ParticipantsOf(sids[k])
    ensures Told(h, AnnounceEach(before, settled, sids, orders, seqno, now), pid) ==
            Sent(ResultOf(before, settled, sids[k], orders[k], seqno, now).out)
    decreases |orders|
  {
    hide ResultOf;
    var n := |orders| - 1;
    ToldMore(h, before, settled, sids, orders, seqno, now, pid);
    if k == n {
      TickTellsNothing(h, before, settled, sids, orders[..n], seqno, now, sids[k], pid);
    } else {
      TickTells(h, before, settled, sids, orders[..n], seqno, now, pid, k);
    }
  }

  lemma {:induction false} AnnouncedToAll(
    before: Sessions, settled: Settling, sids: seq<SessionId>, orders: seq<seq<ParticipantPatch>>, seqno: nat, now: int)
    requires |orders| <= |sids| && forall s | s in sids :: s in before
    ensures forall b | b in AnnounceEach(before, settled, sids, orders, seqno, now) :: b.exclude.None?
  {
    if |orders| > 0 { AnnouncedToAll(before, settled, sids, orders[..|orders| - 1], seqno, now); }
  }

  /** The orders of a tick, and what it hands over. */
  ghost predicate TickHands(site: Site, open: set<nat>, step: SiteStep)
    requires step.TickAt?
  {
    && NoDup(step.sids) && |step.orders| == |step.sids| && (forall sid :: sid in step.sids <==> sid in site.st.sessions)
    && HandsEach(site.st.hub, open, Announced(site, step), step.batches)
  }

  lemma TickToTold(
    site: Site, open: set<nat>, step: SiteStep, home: ParticipantId -> SessionId, sid: SessionId, viewer: ParticipantId)
    requires InOrder(site, open, home, viewer) && step.TickAt? && TickHands(site, open, step) && home(viewer) == sid
    ensures Inbox(Flat(step.batches), viewer) == Told(site.st.hub, Announced(site, step), viewer)
    ensures OnlyIn(site.st.hub, viewer, sid)
  {
    hide HandsEach, ResultOf, InOrder;
    AnnouncedToAll(site.st.sessions, site.settling, step.sids, step.orders, site.seqno + 1, step.now);
    InboxOfBroadcasts(site, open, home, Announced(site, step), step.batches, viewer);
    forall s | viewer in site.st.hub.ParticipantsOf(s) ensures s == sid { ReachedAtHome(site, open, home, viewer, s); }
  }

  /** What a tick hands to the viewer: nothing, if it is not there or its session does not exist. */
  lemma TickInboxNone(
    site: Site, open: set<nat>, step: SiteStep, home: ParticipantId -> SessionId, sid: SessionId, viewer: ParticipantId)
    requires InOrder(site, open, home, viewer) && step.TickAt? && TickHands(site, open, step) && home(viewer) == sid
    requires viewer !in site.st.hub.ParticipantsOf(sid) || sid !in site.st.sessions
    ensures Inbox(Flat(step.batches), viewer) == []
  {
    hide HandsEach, ResultOf;
    TickToTold(site, open, step, home, sid, viewer);
    if sid !in site.st.sessions {
      forall k | 0 <= k < |step.orders| ensures step.sids[k] != sid { assert step.sids[k] in step.sids; }
    }
    TickTellsNothing(site.st.hub, site.st.sessions, site.settling, step.sids, step.orders,
                     site.seqno + 1, step.now, sid, viewer);
  }

  /** ... and what the tick says of its session otherwise. */
  lemma TickInboxAt(
    site: Site, open: set<nat>, step: SiteStep, home: ParticipantId -> SessionId, viewer: ParticipantId, k: nat)
    requires InOrder(site, open, home, viewer) && step.TickAt? && TickHands(site, open, step)
    requires k < |step.sids| && home(viewer) == step.sids[k] && viewer in site.st.hub.ParticipantsOf(step.sids[k])
    ensures step.sids[k] in site.st.sessions
    ensures Inbox(Flat(step.batches), viewer) ==
            Sent(ResultOf(site.st.sessions, site.settling, step.sids[k], step.orders[k], site.seqno + 1, step.now).out)
  {
    hide HandsEach, ResultOf, InOrder;
    TickToTold(site, open, step, home, step.sids[k], viewer);
    TickTells(site.st.hub, site.st.sessions, site.settling, step.sids, step.orders, site.seqno + 1, step.now, viewer,
        k);
  }

  /** What a tick does to session number `k`. */
  lemma TickOf(site: Site, open: set<nat>, step: SiteStep, k: nat)
    requires step.TickAt? && TickEnabled(site, open, step) && k < |step.sids|
    ensures var sid := step.sids[k];
            var st := TickState(site.st, Flushed(step.sids, step.orders), Announced(site, step));
            && sid in site.st.sessions && Coalesces(site.st.sessions[sid], step.orders[k])
            && var r := ResultOf(site.st.sessions, site.settling, sid, step.orders[k], site.seqno + 1, step.now);
               st.hub == site.st.hub && SessionOf(st, sid) == Some(r.session) && Lookup(step.settling, sid) == r.settle
  {
    hide HandsEach, AnnounceEach;
    assert step.sids[k] in step.sids;
    assert TickedAt(TickState(site.st, Flushed(step.sids, step.orders), []).sessions, step.settling,
                    site.st.sessions, site.settling, step.sids[k], step.orders[k], site.seqno + 1, step.now);
  }

  /** ... and to a session that does not exist: nothing. */
  lemma TickOfNone(site: Site, open: set<nat>, step: SiteStep, sid: SessionId)
    requires step.TickAt? && TickEnabled(site, open, step) && sid !in site.st.sessions
    ensures var st := TickState(site.st, Flushed(step.sids, step.orders), Announced(site, step));
            && st.hub == site.st.hub && SessionOf(st, sid) == None
            && Lookup(step.settling, sid) == Lookup(site.settling, sid)
  {
    hide HandsEach;
  }

  /** The order in which a tick built the patch of session `sid`; empty if it had none. */
  function OrderIn(sids: seq<SessionId>, orders: seq<seq<ParticipantPatch>>, sid: SessionId): seq<ParticipantPatch>
    requires |orders| == |sids|
  {
    if |sids| == 0 then [] else
    var n := |sids| - 1;
    if sids[n] == sid then orders[n] else OrderIn(sids[..n], orders[..n], sid)
  }

  lemma {:induction false} OrderAt(sids: seq<SessionId>, orders: seq<seq<ParticipantPatch>>, k: nat)
    requires NoDup(sids) && k < |sids| == |orders|
    ensures OrderIn(sids, orders, sids[k]) == orders[k]
  {
    var n := |sids| - 1;
    if k < n { OrderAt(sids[..n], orders[..n], k); }
  }

  lemma {:induction false} OrderNone(sids: seq<SessionId>, orders: seq<seq<ParticipantPatch>>, sid: SessionId)
    requires |orders| == |sids| && sid !in sids
    ensures OrderIn(sids, orders, sid) == []
  {
    if |sids| > 0 { OrderNone(sids[..|sids| - 1], orders[..|sids| - 1], sid); }
  }

  /** What a step flushes of session `sid`. */
  function OrderFor(step: SiteStep, sid: SessionId): seq<ParticipantPatch> {
    if step.TickAt? && |step.orders| == |step.sids| then OrderIn(step.sids, step.orders, sid) else []
  }

  /** Every patch in `inbox` is what the own step broadcasts. */
  ghost predicate Says(inbox: seq<OutboundMessage>, w: Coalescing.World, seen: Option<Coalescing.Step>) {
    forall m | m in inbox && m.Patch? :: seen.Some? && Coalescing.Broadcasts(w, seen.value) == Some(m)
  }

  /** A tick of the viewer's session. */
  lemma TickSeen(
    w: Coalescing.World, viewer: ParticipantId, now: int, order: seq<ParticipantPatch>, inbox: seq<OutboundMessage>)
    requires w.session.Some? && Coalesces(w.session.value, order)
    requires inbox == if w.connected then Sent(TickSession(w.session.value, w.settle, w.seqno + 1, now, order).out)
        else []
    ensures var own := Coalescing.TickStep(now, order);
            var after := Coalescing.Next(w, viewer, own, 0);
            var r := TickSession(w.session.value, w.settle, w.seqno + 1, now, order);
            && Coalescing.Enabled(w, own)
            && after.session == Some(r.session) && after.settle == r.settle
            && after.seqno == w.seqno + 1 && after.connected == w.connected
            && after.view == DeliverAll(w.view, inbox)
  {
    var r := TickSession(w.session.value, w.settle, w.seqno + 1, now, order);
    if r.out.Some? { DeliverOne(w.view, r.out.value); }
  }

  lemma TickFollowsAt(
    site: Site, open: set<nat>, step: SiteStep, home: ParticipantId -> SessionId,
    sid: SessionId, viewer: ParticipantId, w: Coalescing.World, k: nat)
    requires InOrder(site, open, home, viewer) && SiteEnabled(site, open, step) && step.TickAt?
    requires Shows(site, sid, viewer, w) && home(viewer) == sid && k < |step.sids| && step.sids[k] == sid
    ensures Follows(site, open, step, sid, viewer, w, Some(Coalescing.TickStep(step.now, step.orders[k])))
    ensures Says(Inbox(Flat(step.batches), viewer), w, Some(Coalescing.TickStep(step.now, step.orders[k])))
  {
    hide InOrder, Becomes, Follows, SiteNext, Coalescing.Enabled, Coalescing.Next, TickState, TickSession;
    hide Progress, HandsEach, Inbox, Lookup, Flushed, Told, AnnounceEach;
    TickOf(site, open, step, k);
    if w.connected {
      TickInboxAt(site, open, step, home, viewer, k);
    } else {
      TickInboxNone(site, open, step, home, sid, viewer);
    }
    TickSeen(w, viewer, step.now, step.orders[k], Inbox(Flat(step.batches), viewer));
    TickBecomes(site, open, step, viewer);
    FollowsBy(site, open, step, sid, viewer, w, Coalescing.TickStep(step.now, step.orders[k]),
              TickState(site.st, Flushed(step.sids, step.orders), Announced(site, step)), step.settling,
                  site.seqno + 1);
  }

  /** A tick when the viewer's session does not exist. */
  lemma TickFollowsNone(
    site: Site, open: set<nat>, step: SiteStep, home: ParticipantId -> SessionId,
    sid: SessionId, viewer: ParticipantId, w: Coalescing.World)
    requires InOrder(site, open, home, viewer) && SiteEnabled(site, open, step) && step.TickAt?
    requires Shows(site, sid, viewer, w) && home(viewer) == sid && sid !in site.st.sessions
    ensures Follows(site, open, step, sid, viewer, w, Some(Coalescing.TickStep(step.now, [])))
    ensures Says(Inbox(Flat(step.batches), viewer), w, Some(Coalescing.TickStep(step.now, [])))
  {
    hide InOrder, Becomes, Follows, SiteNext, Progress, HandsEach, Inbox, TickState, Flushed, TickSession, Told;
    TickOfNone(site, open, step, sid);
    TickInboxNone(site, open, step, home, sid, viewer);
    TickBecomes(site, open, step, viewer);
    FollowsBy(site, open, step, sid, viewer, w, Coalescing.TickStep(step.now, []),
              TickState(site.st, Flushed(step.sids, step.orders), Announced(site, step)), step.settling,
                  site.seqno + 1);
  }

  lemma TickFollows(
    site: Site, open: set<nat>, step: SiteStep, home: ParticipantId -> SessionId,
    sid: SessionId, viewer: ParticipantId, w: Coalescing.World)
    returns (seen: Option<Coalescing.Step>)
    requires InOrder(site, open, home, viewer) && SiteEnabled(site, open, step) && step.TickAt?
    requires Shows(site, sid, viewer, w) && home(viewer) == sid
    ensures Follows(site, open, step, sid, viewer, w, seen)
    ensures seen == Some(Coalescing.TickStep(step.now, OrderFor(step, sid)))
    ensures Says(Inbox(HandedBy(step), viewer), w, seen)
  {
    if sid in site.st.sessions {
      assert sid in step.sids;
      var k: nat :| k < |step.sids| && step.sids[k] == sid;
      OrderAt(step.sids, step.orders, k);
      TickFollowsAt(site, open, step, home, sid, viewer, w, k);
      seen := Some(Coalescing.TickStep(step.now, step.orders[k]));
    } else {
      OrderNone(step.sids, step.orders, sid);
      TickFollowsNone(site, open, step, home, sid, viewer, w);
      seen := Some(Coalescing.TickStep(step.now, []));
    }
  }

  // ---- runs ----

  lemma {:induction false} InboxIsHanded(handed: seq<Handoff>, pid: ParticipantId, m: OutboundMessage)
    requires m in Inbox(handed, pid)
    ensures Handoff(pid, m) in handed
  {
    var n := |handed| - 1;
    if handed[n].pid != pid || handed[n].message != m { InboxIsHanded(handed[..n], pid, m); }
  }

  lemma {:induction false} FlatIsOfOne<T>(batches: seq<seq<T>>, x: T) returns (i: nat)
    requires x in Flat(batches)
    ensures i < |batches| && x in batches[i]
  {
    var n := |batches| - 1;
    if x in batches[n] { i := n; } else { i := FlatIsOfOne(batches[..n], x); }
  }

  /** `h` goes to a participant registered on a socket that is open. */
  predicate OnOpenSocket(h: Handoff, hub: HubState, open: set<nat>) {
    h.pid in hub.connections && hub.connections[h.pid].socket in open
  }

  /** Nothing is handed to a socket that is not open, or to anyone not registered. */
  lemma OnlyOpenSocketsAreHanded(site: Site, open: set<nat>, step: SiteStep, h: Handoff)
    requires SiteEnabled(site, open, step) && h in HandedBy(step)
    ensures OnOpenSocket(h, site.st.hub, open)
            || (step.HelloAt? && h.pid == step.m.pid && step.socket in open && h.message == Welcome(step.snaps))
  {
    hide Progress, ReportsStale, HelloHands;
    match step {
      case HelloAt(_, _, _, _, _, _) => HelloReaches(site, open, step, h);
      case LeaveAt(_, _, _) =>
      case ReapAt(reaped, _, _, batches) =>
        var i := FlatIsOfOne(batches, h);
        UnregisterEachShrinks(site.st.hub, reaped[..i + 1]);
      case TickAt(_, _, _, _, batches) => var i := FlatIsOfOne(batches, h);
      case PresenceAt(_, _) =>
    }
  }

  lemma HelloReaches(site: Site, open: set<nat>, step: SiteStep, h: Handoff)
    requires SiteEnabled(site, open, step) && step.HelloAt? && h in step.batch
    ensures OnOpenSocket(h, site.st.hub, open)
            || (h.pid == step.m.pid && step.socket in open && h.message == Welcome(step.snaps))
  {
    hide ListsRoster, SessionAfterHello, Keyed;
    var greeting := if step.socket in open then [Handoff(step.m.pid, Welcome(step.snaps))] else [];
    assert step.batch == greeting + step.batch[|greeting|..];
  }

  /** Only a tick hands over patches. */
  lemma OthersHandNoPatch(site: Site, open: set<nat>, step: SiteStep, h: Handoff)
    requires SiteEnabled(site, open, step) && !step.TickAt? && h in HandedBy(step)
    ensures !h.message.Patch?
  {
    match step {
      case HelloAt(_, socket, m, _, snaps, batch) =>
        var greeting := if socket in open then [Handoff(m.pid, Welcome(snaps))] else [];
        assert batch == greeting + batch[|greeting|..];
      case ReapAt(_, _, _, batches) => var i := FlatIsOfOne(batches, h);
      case _ =>
    }
  }

  lemma OthersSayNothing(
    site: Site, open: set<nat>, step: SiteStep, viewer: ParticipantId, w: Coalescing.World,
    seen: Option<Coalescing.Step>)
    requires SiteEnabled(site, open, step) && !step.TickAt?
    ensures Says(Inbox(HandedBy(step), viewer), w, seen)
  {
    forall m | m in Inbox(HandedBy(step), viewer) ensures !m.Patch? {
      InboxIsHanded(HandedBy(step), viewer, m);
      OthersHandNoPatch(site, open, step, Handoff(viewer, m));
    }
  }

  /** Every step of the server is a step of the one-session model, or changes nothing in it. */
  lemma StepProjects(
    site: Site, open: set<nat>, step: SiteStep, home: ParticipantId -> SessionId,
    sid: SessionId, viewer: ParticipantId, w: Coalescing.World)
    returns (seen: Option<Coalescing.Step>)
    requires InOrder(site, open, home, viewer) && SiteEnabled(site, open, step) && SiteAtHome(step, home)
    requires GreetsOpen(step, open, viewer) && Shows(site, sid, viewer, w) && home(viewer) == sid
    ensures Follows(site, open, step, sid, viewer, w, seen)
    ensures if step.TickAt? then seen == Some(Coalescing.TickStep(step.now, OrderFor(step, sid)))
            else seen.None? || !seen.value.TickStep?
    ensures Says(Inbox(HandedBy(step), viewer), w, seen)
  {
    match step {
      case HelloAt(_, _, _, _, _, _) => seen := HelloFollows(site, open, step, home, sid, viewer, w);
      case LeaveAt(_, _, _) => seen := LeaveFollows(site, open, step, home, sid, viewer, w);
      case PresenceAt(_, _) => seen := PresenceFollows(site, open, step, sid, viewer, w);
      case ReapAt(_, _, _, _) => seen := ReapFollows(site, open, step, home, sid, viewer, w);
      case TickAt(_, _, _, _, _) => seen := TickFollows(site, open, step, home, sid, viewer, w);
    }
    if !step.TickAt? { OthersSayNothing(site, open, step, viewer, w, seen); }
  }

  /** `opens[i]` are the sockets open at step `i`; they come and go as they please. */
  ghost predicate IsSiteRun(steps: seq<SiteStep>, sites: seq<Site>, opens: seq<set<nat>>) {
    && |sites| == |steps| + 1 && |opens| == |steps| && sites[0] == NEW_SITE
    && forall i {:trigger steps[i]} | 0 <= i < |steps| ::
         SiteEnabled(sites[i], opens[i], steps[i]) && sites[i + 1] == SiteNext(sites[i], opens[i], steps[i])
  }

  /** What is asked of the first `i` steps: everyone keeps to one session, and whenever the viewer
      is registered its own socket is open. */
  ghost predicate Keeps(
    steps: seq<SiteStep>, sites: seq<Site>, opens: seq<set<nat>>, home: ParticipantId -> SessionId,
    viewer: ParticipantId, i: nat)
    requires i <= |steps| == |opens| && |sites| == |steps| + 1
  {
    forall k {:trigger steps[k]} | 0 <= k < i ::
      && SiteAtHome(steps[k], home) && GreetsOpen(steps[k], opens[k], viewer)
      && var h := sites[k].st.hub;
         viewer in h.connections ==> h.connections[viewer].socket in opens[k]
  }

  /** The last step before `i` that flushed something of session `sid`. */
  function LastFlushOf(steps: seq<SiteStep>, sid: SessionId, i: nat): (t: Option<nat>)
    requires i <= |steps|
    ensures t.Some? ==> t.value < i && OrderFor(steps[t.value], sid) != []
    ensures forall k | 0 <= k < i && OrderFor(steps[k], sid) != [] :: t.Some? && k <= t.value
  {
    if i == 0 then None
    else if OrderFor(steps[i - 1], sid) != [] then Some(i - 1)
    else LastFlushOf(steps, sid, i - 1)
  }

  /** The one-session run so far, and where it stands. */
  datatype Own = Own(steps: seq<(Coalescing.Step, nat)>, worlds: seq<Coalescing.World>) {
    ghost predicate Valid(viewer: ParticipantId) {
      |worlds| == |steps| + 1 && Coalescing.IsRun(viewer, steps, worlds)
    }

    function Last(): Coalescing.World
      requires |worlds| > 0
    {
      worlds[|worlds| - 1]
    }

    predicate EndsInTick() { |steps| > 0 && steps[|steps| - 1].0.TickStep? }

    function Flush(): Option<nat>
      requires |worlds| == |steps| + 1
    {
      Convergence.LastFlush(steps, worlds, |steps|)
    }

    /** `m` is a patch this run broadcast. */
    ghost predicate Emitted(m: OutboundMessage)
      requires |worlds| == |steps| + 1
    {
      exists x :: 0 <= x < |steps| && Convergence.Emission(steps, worlds, x) == Some(m)
    }
  }

  lemma OwnExtends(own: Own, viewer: ParticipantId, step: Coalescing.Step) returns (more: Own)
    requires own.Valid(viewer) && Coalescing.Enabled(own.Last(), step)
    ensures more.Valid(viewer) && more.steps == own.steps + [(step, 0)]
    ensures more.worlds == own.worlds + [Coalescing.Next(own.Last(), viewer, step, 0)]
  {
    Coalescing.RunExtends(viewer, own.steps, own.worlds, step);
    more := Own(own.steps + [(step, 0)], own.worlds + [Coalescing.Next(own.Last(), viewer, step, 0)]);
  }

  lemma {:induction false} FlushOfPrefix(own: Own, more: Own, i: nat)
    requires |own.worlds| == |own.steps| + 1 && |more.worlds| == |more.steps| + 1
    requires own.steps <= more.steps && own.worlds <= more.worlds && i <= |own.steps|
    ensures Convergence.LastFlush(more.steps, more.worlds, i) == Convergence.LastFlush(own.steps, own.worlds, i)
  {
    if i > 0 { FlushOfPrefix(own, more, i - 1); }
  }

  /** What one more step adds to a run: what it broadcasts, and itself if it flushes. */
  lemma MoreOf(own: Own, more: Own, step: Coalescing.Step, m: OutboundMessage)
    requires |own.worlds| == |own.steps| + 1 && |more.worlds| == |more.steps| + 1
    requires more.steps == own.steps + [(step, 0)] && own.worlds <= more.worlds
    ensures own.Emitted(m) || Coalescing.Broadcasts(own.Last(), step) == Some(m) ==> more.Emitted(m)
    ensures more.Flush() == if step.TickStep? && own.Last().session.Some? && |step.patches| > 0
                            then Some(|own.steps|) else own.Flush()
  {
    FlushOfPrefix(own, more, |own.steps|);
    assert more.worlds[|own.steps|] == own.Last() && more.steps[|own.steps|].0 == step;
    if own.Emitted(m) {
      var x :| 0 <= x < |own.steps| && Convergence.Emission(own.steps, own.worlds, x) == Some(m);
      assert Convergence.Emission(more.steps, more.worlds, x) == Some(m);
    }
    if Coalescing.Broadcasts(own.Last(), step) == Some(m) {
      assert Convergence.Emission(more.steps, more.worlds, |own.steps|) == Some(m);
    }
  }

  /** Every patch handed to the viewer is one its own run broadcast. */
  ghost predicate Emits(own: Own, handed: seq<Handoff>, viewer: ParticipantId)
    requires |own.worlds| == |own.steps| + 1
  {
    forall m | m in Inbox(handed, viewer) && m.Patch? :: own.Emitted(m)
  }

  /** The last flush of the own run is the flush of session `sid` at step `t`. */
  ghost predicate FlushesAt(own: Own, sites: seq<Site>, steps: seq<SiteStep>, sid: SessionId, t: Option<nat>)
    requires |own.worlds| == |own.steps| + 1 && (t.Some? ==> t.value < |steps| <= |sites|)
  {
    match t
    case None => own.Flush().None?
    case Some(t) =>
      && own.Flush().Some?
      && var k := own.Flush().value;
         && own.worlds[k].seqno == sites[t].seqno && own.worlds[k].session == SessionOf(sites[t].st, sid)
         && own.steps[k].0.patches == OrderFor(steps[t], sid)
  }

  /** One more step of the server, and the one-session run keeps up. */
  lemma RunFollows(
    site: Site, open: set<nat>, step: SiteStep, home: ParticipantId -> SessionId, viewer: ParticipantId, own: Own)
    returns (more: Own)
    requires InOrder(site, open, home, viewer) && SiteEnabled(site, open, step) && SiteAtHome(step, home)
    requires GreetsOpen(step, open, viewer)
    requires own.Valid(viewer) && Shows(site, home(viewer), viewer, own.Last()) && Emits(own, site.handed, viewer)
    ensures more.Valid(viewer) && Shows(SiteNext(site, open, step), home(viewer), viewer, more.Last())
    ensures Emits(more, SiteNext(site, open, step).handed, viewer)
    ensures step.TickAt? ==> more.EndsInTick()
    ensures own.steps <= more.steps && own.worlds <= more.worlds
    ensures OrderFor(step, home(viewer)) == [] ==> more.Flush() == own.Flush()
    ensures OrderFor(step, home(viewer)) != [] ==>
              && more.Flush() == Some(|own.steps|)
              && more.worlds[|own.steps|] == own.Last()
              && more.steps[|own.steps|].0.patches == OrderFor(step, home(viewer))
  {
    hide Shows, InOrder, Coalescing.Enabled, Coalescing.Next, Coalescing.Broadcasts, Coalescing.IsRun, SiteEnabled;
    var seen := StepProjects(site, open, step, home, home(viewer), viewer, own.Last());
    more := own;
    if seen.Some? {
      more := OwnExtends(own, viewer, seen.value);
      FlushIn(site, open, step, home, viewer, own.Last());
    }
    forall m | m in Inbox(SiteNext(site, open, step).handed, viewer) && m.Patch? ensures more.Emitted(m) {
      InboxConcat(site.handed, HandedBy(step), viewer);
      if seen.Some? { MoreOf(own, more, seen.value, m); }
    }
    if seen.Some? { MoreOf(own, more, seen.value, Pong(0)); }
  }

  /** What flushes something of a session flushes a session that exists. */
  lemma FlushIn(
    site: Site, open: set<nat>, step: SiteStep, home: ParticipantId -> SessionId, viewer: ParticipantId,
    w: Coalescing.World)
    requires SiteEnabled(site, open, step) && Shows(site, home(viewer), viewer, w)
    ensures OrderFor(step, home(viewer)) != [] ==> w.session.Some?
  {
    if step.TickAt? && home(viewer) !in step.sids { OrderNone(step.sids, step.orders, home(viewer)); }
  }

  lemma FromStart(home: ParticipantId -> SessionId, viewer: ParticipantId) returns (own: Own)
    ensures Homed(NEW_SITE, home)
    ensures own.Valid(viewer) && Shows(NEW_SITE, home(viewer), viewer, own.Last())
    ensures Emits(own, NEW_SITE.handed, viewer) && own.Flush().None?
  {
    StartedInStep();
    own := Own([], [Coalescing.INITIAL]);
  }

  /** Every run of the whole server, as any one participant sees it from its session, is a run of
      the one-session model in which everything is delivered once and in order; the patches handed
      to it are broadcasts of that run, and its last flush is the session's. So whatever Coalescing
      and Convergence prove of their runs holds of the server's own handoffs. */
  lemma {:induction false} ServerRunProjects(
    steps: seq<SiteStep>, sites: seq<Site>, opens: seq<set<nat>>, home: ParticipantId -> SessionId,
    viewer: ParticipantId, i: nat)
    returns (own: Own)
    requires IsSiteRun(steps, sites, opens) && i <= |steps| && Keeps(steps, sites, opens, home, viewer, i)
    ensures Homed(sites[i], home)
    ensures own.Valid(viewer) && Shows(sites[i], home(viewer), viewer, own.Last())
    ensures Emits(own, sites[i].handed, viewer)
    ensures FlushesAt(own, sites, steps, home(viewer), LastFlushOf(steps, home(viewer), i))
    ensures i > 0 && steps[i - 1].TickAt? ==> own.EndsInTick()
  {
    hide SiteEnabled, Homed, Shows, SiteNext, Coalescing.IsRun, OrderFor, Emits, Own.Flush;
    if i == 0 {
      own := FromStart(home, viewer);
    } else {
      var before := ServerRunProjects(steps, sites, opens, home, viewer, i - 1);
      var site, step, open := sites[i - 1], steps[i - 1], opens[i - 1];
      SiteStaysHomed(site, open, step, home);
      own := RunFollows(site, open, step, home, viewer, before);
      FlushKeepsUp(steps, sites, home(viewer), viewer, i, before, own);
    }
  }

  /** The last flushes stay the same one. */
  lemma FlushKeepsUp(
    steps: seq<SiteStep>, sites: seq<Site>, sid: SessionId, viewer: ParticipantId, i: nat, own: Own, more: Own)
    requires 0 < i <= |steps| < |sites| && |own.worlds| == |own.steps| + 1 && |more.worlds| == |more.steps| + 1
    requires FlushesAt(own, sites, steps, sid, LastFlushOf(steps, sid, i - 1))
    requires own.steps <= more.steps && own.worlds <= more.worlds
    requires Shows(sites[i - 1], sid, viewer, own.Last())
    requires OrderFor(steps[i - 1], sid) == [] ==> more.Flush() == own.Flush()
    requires OrderFor(steps[i - 1], sid) != [] ==>
              && more.Flush() == Some(|own.steps|)
              && more.worlds[|own.steps|] == own.Last()
              && more.steps[|own.steps|].0.patches == OrderFor(steps[i - 1], sid)
    ensures FlushesAt(more, sites, steps, sid, LastFlushOf(steps, sid, i))
  {
    hide OrderFor;
  }

  /** End to end over the whole server: after every tick, what a connected participant has
      rebuilt from the messages handed to it is the server's value of every cursor and scroll of
      every participant of its session. */
  lemma HandedViewsAgree(
    steps: seq<SiteStep>, sites: seq<Site>, opens: seq<set<nat>>, home: ParticipantId -> SessionId,
    viewer: ParticipantId, i: nat, pid: ParticipantId, f: Field)
    requires IsSiteRun(steps, sites, opens) && i < |steps| && steps[i].TickAt?
    requires Keeps(steps, sites, opens, home, viewer, i + 1)
    requires var st := sites[i + 1].st;
             && viewer in st.hub.ParticipantsOf(home(viewer)) && home(viewer) in st.sessions
             && ServerValue(st.sessions[home(viewer)], pid, f).Some?
    ensures Held(ViewOf(sites[i + 1], viewer).participants, pid, f) ==
            ServerValue(sites[i + 1].st.sessions[home(viewer)], pid, f)
  {
    hide SiteEnabled, Homed, SiteNext, Coalescing.IsRun, FlushesAt, Emits;
    var own := ServerRunProjects(steps, sites, opens, home, viewer, i + 1);
    Coalescing.CoalescingRefinesForwarding(viewer, own.steps, own.worlds, |own.steps| - 1, pid, f);
  }
}
