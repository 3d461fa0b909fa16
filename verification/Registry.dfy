/** The session store and its TTL reaping (apps/server/src/services/SessionRegistry.ts). */
module Registry {
  import opened Wrappers
  import opened Protocol
  import opened Presence
  import Ordering

  type Sessions = map<SessionId, Session>

  datatype ReapedParticipant = ReapedParticipant(sid: SessionId, pid: ParticipantId, lastSeenAt: int)

  /** Sessions and participants are filed under their own ids. */
  ghost predicate Keyed(sessions: Sessions) {
    forall sid | sid in sessions :: sessions[sid].sid == sid && FiledOwn(sessions[sid])
  }

  ghost predicate FiledOwn(s: Session) {
    forall pid | pid in s.participants :: s.participants[pid].pid == pid
  }

  function GetOrCreateSession(sessions: Sessions, sid: SessionId, now: int): Session {
    if sid in sessions then sessions[sid] else CreateSession(sid, now)
  }

  function StalePids(s: Session, ttl: int, now: int): set<ParticipantId> {
    set pid | pid in s.participants && now - s.participants[pid].lastSeenAt > ttl
  }

  /** Presence traffic does not keep anyone alive: cursor and scroll events leave exactly the
      same participants stale, and a hello counts from the client's own timestamp. */
  lemma OnlyHelloRefreshes(s: Session, e: InboundMessage, ttl: int, now: int)
    requires IsSessionEvent(e)
    ensures var t := ApplyEvent(s, e).state;
            StalePids(t, ttl, now) ==
            if e.Hello? then StalePids(s, ttl, now) - {e.pid} + (if now - e.ts > ttl then {e.pid} else {})
            else if e.Bye? then StalePids(s, ttl, now) - {e.pid}
            else StalePids(s, ttl, now)
  {
    if (e.Cursor? || e.Scroll?) && e.pid in s.participants { ApplyPresenceEvent(s, e, e.pid, CursorField); }
  }

  /** `s` after removing `pids` one by one. */
  function Without(s: Session, pids: set<ParticipantId>): Session {
    s.(participants := s.participants - pids, dirty := s.dirty - pids)
  }

  lemma WithoutOneMore(s: Session, pids: set<ParticipantId>, pid: ParticipantId)
    requires pid in s.participants && pid !in pids
    ensures RemoveParticipant(Without(s, pids), pid) == Without(s, pids + {pid})
  {
    assert s.participants - pids - {pid} == s.participants - (pids + {pid});
    assert s.dirty - pids - {pid} == s.dirty - (pids + {pid});
  }

  /** A session survives unless reaping removed everyone it had. */
  predicate Survives(s: Session, ttl: int, now: int) {
    StalePids(s, ttl, now) == {} || StalePids(s, ttl, now) != s.participants.Keys
  }

  function ReapedSessions(sessions: Sessions, ttl: int, now: int): Sessions {
    map sid | sid in sessions && Survives(sessions[sid], ttl, now) ::
      Without(sessions[sid], StalePids(sessions[sid], ttl, now))
  }

  predicate IsStale(sessions: Sessions, sid: SessionId, pid: ParticipantId, ttl: int, now: int) {
    sid in sessions && pid in StalePids(sessions[sid], ttl, now)
  }

  predicate Reports(reaped: seq<ReapedParticipant>, sid: SessionId, pid: ParticipantId) {
    exists i :: 0 <= i < |reaped| && reaped[i].sid == sid && reaped[i].pid == pid
  }

  /** `reaped` reports the stale participants of the sessions in `sids`, each once. */
  ghost predicate ReportsStale(
    reaped: seq<ReapedParticipant>, sessions: Sessions, sids: set<SessionId>, ttl: int, now: int)
  {
    && (forall i, j | 0 <= i < j < |reaped| :: reaped[i].sid != reaped[j].sid || reaped[i].pid != reaped[j].pid)
    && (forall sid, pid :: Reports(reaped, sid, pid) <==> sid in sids && IsStale(sessions, sid, pid, ttl, now))
  }

  lemma ReportsConcat(a: seq<ReapedParticipant>, b: seq<ReapedParticipant>, sid: SessionId, pid: ParticipantId)
    ensures Reports(a + b, sid, pid) <==> Reports(a, sid, pid) || Reports(b, sid, pid)
  {
    if i :| 0 <= i < |a| && a[i].sid == sid && a[i].pid == pid { assert (a + b)[i] == a[i]; }
    if i :| 0 <= i < |b| && b[i].sid == sid && b[i].pid == pid { assert (a + b)[|a| + i] == b[i]; }
    if i :| 0 <= i < |a + b| && (a + b)[i].sid == sid && (a + b)[i].pid == pid {
      if i >= |a| { assert b[i - |a|] == (a + b)[i]; }
    }
  }

  lemma ReportsMore(
    reaped: seq<ReapedParticipant>, gone: seq<ReapedParticipant>, sessions: Sessions, sids: set<SessionId>,
    sid: SessionId, ttl: int, now: int)
    requires ReportsStale(reaped, sessions, sids, ttl, now) && sid !in sids
    requires ReportsStale(gone, sessions, {sid}, ttl, now)
    ensures ReportsStale(reaped + gone, sessions, sids + {sid}, ttl, now)
  {
    forall s, p ensures Reports(reaped + gone, s, p) <==> s in sids + {sid} && IsStale(sessions, s, p, ttl, now) {
      ReportsConcat(reaped, gone, s, p);
    }
    forall i, j | 0 <= i < |reaped| && 0 <= j < |gone| ensures reaped[i].sid != gone[j].sid {
      assert Reports(reaped, reaped[i].sid, reaped[i].pid) && Reports(gone, gone[j].sid, gone[j].pid);
    }
  }

  class SessionRegistry {
    var sessions: Sessions

    constructor ()
      ensures sessions == map[]
    {
      sessions := map[];
    }

    method GetOrCreate(sid: SessionId, now: int) returns (s: Session)
      modifies this
      ensures s == GetOrCreateSession(old(sessions), sid, now)
      ensures sessions == old(sessions)[sid := s]
    {
      if sid in sessions {
        s := sessions[sid];
        assert sessions == sessions[sid := s];
      } else {
        s := CreateSession(sid, now);
        sessions := sessions[sid := s];
      }
    }

    method Save(s: Session)
      modifies this
      ensures sessions == old(sessions)[s.sid := s]
    {
      sessions := sessions[s.sid := s];
    }

    /** Removes every participant whose lastSeenAt is older than `ttl`, and each session
        this empties. */
    method ReapStale(ttl: int, now: int) returns (reaped: seq<ReapedParticipant>)
      requires Keyed(sessions)
      modifies this
      ensures sessions == ReapedSessions(old(sessions), ttl, now)
      ensures ReportsStale(reaped, old(sessions), old(sessions).Keys, ttl, now)
    {
      var sids := Ordering.Elements(sessions.Keys);
      ghost var parts;
      reaped, parts := ReapInOrder(sids, ttl, now);
      ReapEachIsReaped(old(sessions), sids, ttl, now);
      PartsReport(parts, old(sessions), sids, ttl, now);
      Ordering.FirstsAll(sids, old(sessions).Keys);
    }

    /** The outer loop, in the Map's order. */
    method ReapInOrder(sids: seq<SessionId>, ttl: int, now: int)
      returns (reaped: seq<ReapedParticipant>, ghost parts: seq<seq<ReapedParticipant>>)
      requires Keyed(sessions) && Ordering.NoDup(sids) && forall sid | sid in sids :: sid in sessions
      modifies this
      ensures sessions == ReapEach(old(sessions), sids, ttl, now)
      ensures reaped == Ordering.Flat(parts) && |parts| == |sids| && GoneParts(parts, old(sessions), sids, ttl, now)
    {
      ghost var before := sessions;
      reaped, parts := [], [];
      var i := 0;
      while i < |sids|
        invariant 0 <= i <= |sids| && |parts| == i
        invariant sessions == ReapEach(before, sids[..i], ttl, now)
        invariant reaped == Ordering.Flat(parts)
        invariant GoneParts(parts, before, sids, ttl, now)
      {
        NotYetReaped(before, sids, i, ttl, now);
        var gone := ReapOne(sids[i], ttl, now);
        assert sids[..i + 1][..i] == sids[..i] && (parts + [gone])[..i] == parts;
        GonePartsMore(parts, gone, before, sids, ttl, now);
        parts := parts + [gone];
        reaped := reaped + gone;
        i := i + 1;
      }
      assert sids[..i] == sids;
    }

    /** The outer loop's body: reap one session and store or drop what is left. */
    method ReapOne(sid: SessionId, ttl: int, now: int) returns (gone: seq<ReapedParticipant>)
      requires sid in sessions && sessions[sid].sid == sid
      requires FiledOwn(sessions[sid])
      modifies this
      ensures var s := old(sessions)[sid];
              && sessions == PutBack(old(sessions), s, Without(s, StalePids(s, ttl, now)))
              && Gone(gone, s, StalePids(s, ttl, now))
    {
      var session := sessions[sid];
      var next;
      next, gone := ReapSession(session, ttl, now);
      if next == session { return; }
      if IsEmpty(next) {
        sessions := sessions - {session.sid};
      } else {
        sessions := sessions[session.sid := next];
      }
    }
  }

  /** The store in mid-sweep: the sessions in `done` are reaped, the others untouched. */
  ghost predicate ReapedSoFar(sessions: Sessions, before: Sessions, done: set<SessionId>, ttl: int, now: int) {
    && (forall sid :: sid in sessions <==> sid in before && (sid in done ==> Survives(before[sid], ttl, now)))
    && (forall sid | sid in sessions ::
          sessions[sid] == if sid in done then Without(before[sid], StalePids(before[sid], ttl, now)) else before[sid])
  }

  lemma ReportsNext(
    reaped: seq<ReapedParticipant>, gone: seq<ReapedParticipant>, sessions: Sessions, sids: set<SessionId>,
    sid: SessionId, ttl: int, now: int)
    requires ReportsStale(reaped, sessions, sids, ttl, now) && sid !in sids && sid in sessions
        && sessions[sid].sid == sid
    requires Gone(gone, sessions[sid], StalePids(sessions[sid], ttl, now))
    ensures ReportsStale(reaped + gone, sessions, sids + {sid}, ttl, now)
  {
    GoneReports(gone, sessions[sid], sessions, ttl, now);
    ReportsMore(reaped, gone, sessions, sids, sid, ttl, now);
  }

  /** The store after one session has been reaped down to `next`. */
  function PutBack(sessions: Sessions, s: Session, next: Session): Sessions {
    if next == s then sessions else if IsEmpty(next) then sessions - {s.sid} else sessions[s.sid := next]
  }

  /** The outer loop, session by session. */
  function ReapEach(sessions: Sessions, sids: seq<SessionId>, ttl: int, now: int): Sessions {
    if |sids| == 0 then sessions else
    var t := ReapEach(sessions, sids[..|sids| - 1], ttl, now);
    var sid := sids[|sids| - 1];
    if sid in t then PutBack(t, t[sid], Without(t[sid], StalePids(t[sid], ttl, now))) else t
  }

  lemma ReapedMore(sessions: Sessions, before: Sessions, done: set<SessionId>, sid: SessionId, ttl: int, now: int)
    requires ReapedSoFar(sessions, before, done, ttl, now) && sid in before && sid !in done && before[sid].sid == sid
    ensures sid in sessions && sessions[sid] == before[sid]
    ensures ReapedSoFar(PutBack(sessions, before[sid], Without(before[sid], StalePids(before[sid], ttl, now))),
                        before, done + {sid}, ttl, now)
  {
    var s := before[sid];
    var gone := StalePids(s, ttl, now);
    EmptyIff(s, gone);
    var after := PutBack(sessions, s, Without(s, gone));
    assert sid in after <==> Survives(s, ttl, now);
    assert sid in after ==> after[sid] == Without(s, gone);
  }

  lemma {:induction false} ReapEachSoFar(before: Sessions, sids: seq<SessionId>, i: nat, ttl: int, now: int)
    requires Keyed(before) && Ordering.NoDup(sids) && i <= |sids| && forall sid | sid in sids :: sid in before
    ensures ReapedSoFar(ReapEach(before, sids[..i], ttl, now), before, Ordering.Firsts(sids, i), ttl, now)
  {
    if i > 0 {
      ReapEachSoFar(before, sids, i - 1, ttl, now);
      Ordering.FirstsFresh(sids, i - 1);
      assert sids[..i][..i - 1] == sids[..i - 1] && sids[i - 1] in sids;
      ReapedMore(ReapEach(before, sids[..i - 1], ttl, now), before, Ordering.Firsts(sids, i - 1), sids[i - 1], ttl,
          now);
    }
  }

  lemma ReapEachIsReaped(before: Sessions, sids: seq<SessionId>, ttl: int, now: int)
    requires Keyed(before) && Ordering.NoDup(sids) && forall sid :: sid in sids <==> sid in before
    ensures ReapEach(before, sids, ttl, now) == ReapedSessions(before, ttl, now)
  {
    ReapEachSoFar(before, sids, |sids|, ttl, now);
    assert sids[..|sids|] == sids;
    Ordering.FirstsAll(sids, before.Keys);
  }

  /** Before its turn a session is as it was. */
  lemma NotYetReaped(before: Sessions, sids: seq<SessionId>, i: nat, ttl: int, now: int)
    requires Keyed(before) && Ordering.NoDup(sids) && i < |sids| && forall sid | sid in sids :: sid in before
    ensures var t := ReapEach(before, sids[..i], ttl, now);
            sids[i] in before && sids[i] in t && t[sids[i]] == before[sids[i]]
  {
    ReapEachSoFar(before, sids, i, ttl, now);
    Ordering.FirstsFresh(sids, i);
    assert sids[i] in sids;
  }

  /** Part `k` lists what session `k` lost. */
  ghost predicate GoneParts(
    parts: seq<seq<ReapedParticipant>>, sessions: Sessions, sids: seq<SessionId>, ttl: int, now: int)
  {
    |parts| <= |sids| && forall k | 0 <= k < |parts| ::
      sids[k] in sessions && Gone(parts[k], sessions[sids[k]], StalePids(sessions[sids[k]], ttl, now))
  }

  lemma GonePartsMore(
    parts: seq<seq<ReapedParticipant>>, gone: seq<ReapedParticipant>, sessions: Sessions, sids: seq<SessionId>,
    ttl: int, now: int)
    requires GoneParts(parts, sessions, sids, ttl, now) && |parts| < |sids| && sids[|parts|] in sessions
    requires Gone(gone, sessions[sids[|parts|]], StalePids(sessions[sids[|parts|]], ttl, now))
    ensures GoneParts(parts + [gone], sessions, sids, ttl, now)
  {
  }

  lemma {:induction false} PartsReport(
    parts: seq<seq<ReapedParticipant>>, sessions: Sessions, sids: seq<SessionId>, ttl: int, now: int)
    requires Keyed(sessions) && Ordering.NoDup(sids) && GoneParts(parts, sessions, sids, ttl, now)
    ensures ReportsStale(Ordering.Flat(parts), sessions, Ordering.Firsts(sids, |parts|), ttl, now)
  {
    if |parts| > 0 {
      var n := |parts| - 1;
      PartsReport(parts[..n], sessions, sids, ttl, now);
      Ordering.FirstsFresh(sids, n);
      ReportsNext(Ordering.Flat(parts[..n]), parts[n], sessions, Ordering.Firsts(sids, n), sids[n], ttl, now);
    }
  }

  /** The inner loop: one session's stale participants. */
  method ReapSession(session: Session, ttl: int, now: int) returns (next: Session, gone: seq<ReapedParticipant>)
    requires FiledOwn(session)
    ensures next == Without(session, StalePids(session, ttl, now))
    ensures Gone(gone, session, StalePids(session, ttl, now))
  {
    gone, next := [], session;
    var pids := Ordering.Elements(session.participants.Keys);
    var j := 0;
    while j < |pids|
      invariant 0 <= j <= |pids|
      invariant next == RemoveEach(session, pids[..j], ttl, now)
      invariant gone == GoneEach(session, pids[..j], ttl, now)
    {
      assert pids[j] in pids && pids[..j + 1][..j] == pids[..j];
      var participant := session.participants[pids[j]];
      if now - participant.lastSeenAt > ttl {
        gone := gone + [ReapedParticipant(session.sid, participant.pid, participant.lastSeenAt)];
        next := RemoveParticipant(next, participant.pid);
      }
      j := j + 1;
    }
    assert pids[..j] == pids;
    LoopRemovesStale(session, pids, ttl, now);
  }

  /** The inner loop's two results, participant by participant. */
  function RemoveEach(s: Session, pids: seq<ParticipantId>, ttl: int, now: int): Session {
    if |pids| == 0 then s else
    var t := RemoveEach(s, pids[..|pids| - 1], ttl, now);
    var pid := pids[|pids| - 1];
    if pid in StalePids(s, ttl, now) then RemoveParticipant(t, pid) else t
  }

  function GoneEach(s: Session, pids: seq<ParticipantId>, ttl: int, now: int): seq<ReapedParticipant> {
    if |pids| == 0 then [] else
    var gone := GoneEach(s, pids[..|pids| - 1], ttl, now);
    var pid := pids[|pids| - 1];
    if pid in StalePids(s, ttl, now) then gone + [ReapedParticipant(s.sid, pid, s.participants[pid].lastSeenAt)]
        else gone
  }

  lemma {:induction false} LoopRemovesSome(s: Session, pids: seq<ParticipantId>, i: nat, ttl: int, now: int)
    requires Ordering.NoDup(pids) && i <= |pids|
    ensures var done := Ordering.Firsts(pids, i) * StalePids(s, ttl, now);
            RemoveEach(s, pids[..i], ttl, now) == Without(s, done) && Gone(GoneEach(s, pids[..i], ttl, now), s, done)
  {
    var stale := StalePids(s, ttl, now);
    if i == 0 {
      EmptyIff(s, {});
    } else {
      LoopRemovesSome(s, pids, i - 1, ttl, now);
      Ordering.FirstsFresh(pids, i - 1);
      assert pids[..i][..i - 1] == pids[..i - 1];
      var pid, done := pids[i - 1], Ordering.Firsts(pids, i - 1) * stale;
      if pid in stale {
        assert Ordering.Firsts(pids, i) * stale == done + {pid};
        WithoutOneMore(s, done, pid);
        GoneMore(GoneEach(s, pids[..i - 1], ttl, now), s, done, pid);
      } else {
        assert Ordering.Firsts(pids, i) * stale == done;
      }
    }
  }

  lemma LoopRemovesStale(s: Session, pids: seq<ParticipantId>, ttl: int, now: int)
    requires Ordering.NoDup(pids) && forall pid :: pid in pids <==> pid in s.participants
    ensures var stale := StalePids(s, ttl, now);
            RemoveEach(s, pids, ttl, now) == Without(s, stale) && Gone(GoneEach(s, pids, ttl, now), s, stale)
  {
    LoopRemovesSome(s, pids, |pids|, ttl, now);
    assert pids[..|pids|] == pids;
    Ordering.FirstsAll(pids, s.participants.Keys);
    assert s.participants.Keys * StalePids(s, ttl, now) == StalePids(s, ttl, now);
  }

  /** `gone` lists the participants `pids` of one session, each once, as last seen. */
  ghost predicate Gone(gone: seq<ReapedParticipant>, s: Session, pids: set<ParticipantId>) {
    && (forall i, j | 0 <= i < j < |gone| :: gone[i].pid != gone[j].pid)
    && (forall i | 0 <= i < |gone| ::
          gone[i].pid in pids && gone[i].pid in s.participants
          && gone[i] == ReapedParticipant(s.sid, gone[i].pid, s.participants[gone[i].pid].lastSeenAt))
    && (forall pid | pid in pids :: Reports(gone, s.sid, pid))
  }

  lemma GoneMore(gone: seq<ReapedParticipant>, s: Session, pids: set<ParticipantId>, pid: ParticipantId)
    requires Gone(gone, s, pids) && pid !in pids && pid in s.participants
    ensures Gone(gone + [ReapedParticipant(s.sid, pid, s.participants[pid].lastSeenAt)], s, pids + {pid})
  {
    var more := [ReapedParticipant(s.sid, pid, s.participants[pid].lastSeenAt)];
    assert more[0].sid == s.sid && more[0].pid == pid;
    forall p | p in pids + {pid} ensures Reports(gone + more, s.sid, p) { ReportsConcat(gone, more, s.sid, p); }
  }

  lemma GoneReports(
    gone: seq<ReapedParticipant>, s: Session, sessions: Sessions, ttl: int, now: int)
    requires Gone(gone, s, StalePids(s, ttl, now))
    requires s.sid in sessions && sessions[s.sid] == s
    ensures ReportsStale(gone, sessions, {s.sid}, ttl, now)
  {
  }

  lemma MapMinus<K, V>(m: map<K, V>, s: set<K>)
    requires s <= m.Keys
    ensures |m - s| == 0 <==> s == m.Keys
    ensures s != {} ==> (m - s).Keys != m.Keys
  {
    var left := m - s;
    assert left.Keys == m.Keys - s;
    if |left| == 0 { assert left.Keys == {}; }
    if s != {} {
      var k :| k in s;
      assert k in m && k !in left;
    }
  }

  lemma EmptyIff(s: Session, pids: set<ParticipantId>)
    requires pids <= s.participants.Keys
    ensures IsEmpty(Without(s, pids)) <==> pids == s.participants.Keys
    ensures Without(s, pids) == s <==> pids == {}
  {
    MapMinus(s.participants, pids);
    if pids == {} {
      assert s.participants - pids == s.participants;
      assert s.dirty - pids == s.dirty;
    }
  }
}
