/** The immutable session model and its reducer (apps/server/src/models). */
module Presence {
  import opened Wrappers
  import opened Protocol

  // ---- PresenceState.ts ----

  datatype PresenceState = PresenceState(
    cursor: Option<Point>, cursorSeq: Option<int>, scroll: Option<Point>, scrollSeq: Option<int>)
  {
    function Get(f: Field): Option<Point> { if f.CursorField? then cursor else scroll }
    function SeqOf(f: Field): Option<int> { if f.CursorField? then cursorSeq else scrollSeq }
  }

  const EMPTY_PRESENCE := PresenceState(None, None, None, None)

  predicate Newer(stored: Option<int>, seqno: int) {
    stored.None? || seqno > stored.value
  }

  function WithCursor(state: PresenceState, point: Point, seqno: int): PresenceState {
    if !Newer(state.cursorSeq, seqno) then state
    else state.(cursor := Some(point), cursorSeq := Some(seqno))
  }

  function WithScroll(state: PresenceState, point: Point, seqno: int): PresenceState {
    if !Newer(state.scrollSeq, seqno) then state
    else state.(scroll := Some(point), scrollSeq := Some(seqno))
  }

  // ---- Participant.ts ----

  datatype Participant = Participant(
    pid: ParticipantId, color: string, presence: PresenceState, lastSeenAt: int)

  const PALETTE := ["#e6194b", "#3cb44b", "#4363d8", "#f58231", "#911eb4",
                    "#008080", "#e6a100", "#f032e6", "#469990", "#9a6324"]

  /** The signed 32-bit value of `n`, JavaScript's `n | 0`. */
  function ToInt32(n: int): int {
    var low := n % 0x1_0000_0000;
    if low >= 0x8000_0000 then low - 0x1_0000_0000 else low
  }

  function ColorHash(pid: ParticipantId): int {
    if |pid| == 0 then 0
    else ToInt32(ColorHash(pid[..|pid| - 1]) * 31 + pid[|pid| - 1] as int)
  }

  function ColorForParticipant(pid: ParticipantId): string {
    var h := ColorHash(pid);
    PALETTE[(if h < 0 then -h else h) % 10]
  }

  /** The same sum without wrapping. */
  function PlainHash(pid: ParticipantId): int {
    if |pid| == 0 then 0 else 31 * PlainHash(pid[..|pid| - 1]) + pid[|pid| - 1] as int
  }

  /** The signed 32-bit number congruent to `n`. */
  predicate IsSigned32Of(h: int, n: int) {
    -0x8000_0000 <= h < 0x8000_0000 && (n - h) % 0x1_0000_0000 == 0
  }

  lemma WrapTwice(a: int, b: int, c: int)
    requires (a - b) % 0x1_0000_0000 == 0
    ensures IsSigned32Of(ToInt32(b * 31 + c), 31 * a + c)
  {
    var k := (a - b) / 0x1_0000_0000;
    assert a == b + k * 0x1_0000_0000;
    var n := b * 31 + c;
    assert 31 * a + c == n + (31 * k) * 0x1_0000_0000;
    var m := n / 0x1_0000_0000 + 31 * k + if n % 0x1_0000_0000 >= 0x8000_0000 then 1 else 0;
    assert 31 * a + c - ToInt32(n) == m * 0x1_0000_0000;
  }

  /** Wrapping at every step is wrapping once: the colour is picked by the 32-bit polynomial hash of
      the id. */
  lemma {:induction false} ColorHashWrapsOnce(pid: ParticipantId)
    ensures IsSigned32Of(ColorHash(pid), PlainHash(pid))
  {
    if |pid| > 0 {
      ColorHashWrapsOnce(pid[..|pid| - 1]);
      WrapTwice(PlainHash(pid[..|pid| - 1]), ColorHash(pid[..|pid| - 1]), pid[|pid| - 1] as int);
    }
  }

  /** The colour is the palette's at the size of the hash modulo 10. */
  lemma ColorIsPicked(pid: ParticipantId) returns (k: nat, n: nat)
    ensures k < 10 == |PALETTE| && ColorForParticipant(pid) == PALETTE[k]
    ensures ColorHash(pid) == 10 * n + k || ColorHash(pid) == -(10 * n + k)
  {
    var h := ColorHash(pid);
    var size := if h < 0 then -h else h;
    n, k := size / 10, size % 10;
  }

  function CreateParticipant(pid: ParticipantId, now: int): Participant {
    Participant(pid, ColorForParticipant(pid), EMPTY_PRESENCE, now)
  }

  // ---- Session.ts ----

  datatype PresenceDirty = PresenceDirty(cursor: bool, scroll: bool) {
    predicate Get(f: Field) { if f.CursorField? then cursor else scroll }
  }

  datatype Session = Session(
    sid: SessionId,
    participants: map<ParticipantId, Participant>,
    createdAt: int,
    dirty: map<ParticipantId, PresenceDirty>)
  {
    /** Whether field `f` of `pid` waits to be flushed. */
    predicate IsDirty(pid: ParticipantId, f: Field) { pid in dirty && dirty[pid].Get(f) }
  }

  function CreateSession(sid: SessionId, now: int): Session {
    Session(sid, map[], now, map[])
  }

  function AddParticipant(session: Session, pid: ParticipantId, now: int): Session {
    if pid in session.participants then session
    else session.(participants := session.participants[pid := CreateParticipant(pid, now)])
  }

  function RemoveParticipant(session: Session, pid: ParticipantId): Session {
    if pid !in session.participants then session
    else ClearDirtyFor(session, pid).(participants := session.participants - {pid})
  }

  function UpdateParticipant(
    session: Session, pid: ParticipantId, updater: Participant -> Participant): Session
  {
    if pid !in session.participants then session
    else session.(participants := session.participants[pid := updater(session.participants[pid])])
  }

  predicate IsEmpty(session: Session) { |session.participants| == 0 }

  function MarkPresenceDirty(session: Session, pid: ParticipantId, fields: PresenceDirty): Session {
    var existing := if pid in session.dirty then session.dirty[pid] else PresenceDirty(false, false);
    var merged := PresenceDirty(existing.cursor || fields.cursor, existing.scroll || fields.scroll);
    if merged == existing && pid in session.dirty then session
    else session.(dirty := session.dirty[pid := merged])
  }

  function ClearDirty(session: Session): Session {
    if |session.dirty| == 0 then session else session.(dirty := map[])
  }

  function ClearDirtyFor(session: Session, pid: ParticipantId): Session {
    if pid !in session.dirty then session else session.(dirty := session.dirty - {pid})
  }

  // ---- applyEvent.ts ----

  datatype FieldMask = FieldMask(cursor: bool, scroll: bool, roster: bool)
  datatype ApplyResult = ApplyResult(state: Session, changed: FieldMask)

  const NO_CHANGE := FieldMask(false, false, false)

  predicate IsSessionEvent(m: InboundMessage) { m.Hello? || m.Cursor? || m.Scroll? || m.Bye? }

  function ApplyEvent(session: Session, event: InboundMessage): ApplyResult
    requires IsSessionEvent(event)
  {
    match event
    case Hello(pid, _, ts) =>
      var added := AddParticipant(session, pid, ts);
      ApplyResult(UpdateParticipant(added, pid, (p: Participant) => p.(lastSeenAt := ts)),
                  FieldMask(false, false, true))
    case Cursor(pid, seqno, point) =>
      if pid !in session.participants then ApplyResult(session, NO_CHANGE) else
      var presence := session.participants[pid].presence;
      var updated := WithCursor(presence, point, seqno);
      if updated == presence then ApplyResult(session, NO_CHANGE) else
      var next := UpdateParticipant(session, pid, (p: Participant) => p.(presence := updated));
      ApplyResult(MarkPresenceDirty(next, pid, PresenceDirty(true, false)), FieldMask(true, false, false))
    case Scroll(pid, seqno, point) =>
      if pid !in session.participants then ApplyResult(session, NO_CHANGE) else
      var presence := session.participants[pid].presence;
      var updated := WithScroll(presence, point, seqno);
      if updated == presence then ApplyResult(session, NO_CHANGE) else
      var next := UpdateParticipant(session, pid, (p: Participant) => p.(presence := updated));
      ApplyResult(MarkPresenceDirty(next, pid, PresenceDirty(false, true)), FieldMask(false, true, false))
    case Bye(pid, _) =>
      if pid !in session.participants then ApplyResult(session, NO_CHANGE)
      else ApplyResult(RemoveParticipant(session, pid), FieldMask(false, false, true))
  }

  /** `e` is an observation of field `f` of `pid`. */
  predicate Observes(e: InboundMessage, pid: ParticipantId, f: Field) {
    (if f.CursorField? then e.Cursor? else e.Scroll?) && e.pid == pid
  }

  /** One presence event, stated field by field: exactly the observed field of a
      present participant moves, and only when the event is newer than what is stored. */
  lemma ApplyPresenceEvent(s: Session, e: InboundMessage, pid: ParticipantId, f: Field)
    requires e.Cursor? || e.Scroll?
    requires pid in s.participants
    ensures var s' := ApplyEvent(s, e).state;
            && s'.participants.Keys == s.participants.Keys
            && s'.participants[pid] == s.participants[pid].(presence := s'.participants[pid].presence)
            && var before := s.participants[pid].presence;
               var after := s'.participants[pid].presence;
               if Observes(e, pid, f) && Newer(before.SeqOf(f), e.seqno) then
                 after.Get(f) == Some(e.point) && after.SeqOf(f) == Some(e.seqno) && s'.IsDirty(pid, f)
               else
                 after.Get(f) == before.Get(f) && after.SeqOf(f) == before.SeqOf(f)
                 && (s'.IsDirty(pid, f) <==> s.IsDirty(pid, f))
  {
  }
}
