/** The audit log and its convergence rule (apps/server/src/services/AuditLog.ts). */
module Audit {
  import opened Wrappers
  import opened Protocol

  datatype AuditSource = Client | Socket | Inferred
  datatype AuditReport = AuditReport(source: AuditSource, recordedAt: int)

  datatype AuditInput = AuditInput(
    eventId: string, sid: SessionId, pid: ParticipantId, kind: AuditKind, source: AuditSource, recordedAt: int)

  datatype AuditRecord = AuditRecord(input: AuditInput, reports: seq<AuditReport>)

  /** The records Map: distinct event ids, in insertion order. */
  type Log = seq<AuditRecord>

  // ---- lookups ----

  function FindEvent(log: Log, eventId: string): (r: Option<nat>)
    ensures r.Some? ==> r.value < |log| && log[r.value].input.eventId == eventId
    ensures r.None? ==> forall i | 0 <= i < |log| :: log[i].input.eventId != eventId
  {
    if |log| == 0 then None
    else if log[|log| - 1].input.eventId == eventId then Some(|log| - 1)
    else FindEvent(log[..|log| - 1], eventId)
  }

  /** The first of the latest records satisfying `p`, as a forward scan with `>` finds it. */
  function Latest(log: Log, p: AuditInput -> bool): (r: Option<nat>)
    ensures r.Some? ==> r.value < |log| && p(log[r.value].input)
    ensures forall i | 0 <= i < |log| && p(log[i].input) ::
              r.Some? && log[i].input.recordedAt <= log[r.value].input.recordedAt
              && (i < r.value ==> log[i].input.recordedAt < log[r.value].input.recordedAt)
  {
    if |log| == 0 then None else
    var n := |log| - 1;
    var r := Latest(log[..n], p);
    assert forall i | 0 <= i < n :: log[..n][i] == log[i];
    if p(log[n].input) && (r.None? || log[n].input.recordedAt > log[r.value].input.recordedAt) then Some(n) else r
  }

  function Of(sid: SessionId, pid: ParticipantId, kind: AuditKind): AuditInput -> bool {
    (e: AuditInput) => e.sid == sid && e.pid == pid && e.kind == kind
  }

  function LatestStart(log: Log, sid: SessionId, pid: ParticipantId): (r: Option<nat>) {
    Latest(log, Of(sid, pid, SessionStart))
  }

  function LatestEnd(log: Log, sid: SessionId, pid: ParticipantId): (r: Option<nat>) {
    Latest(log, Of(sid, pid, SessionEnd))
  }

  /** The end record that already closes the pair's current instance, if any. */
  function OpenSessionEnd(log: Log, sid: SessionId, pid: ParticipantId): Option<nat> {
    var s, e := LatestStart(log, sid, pid), LatestEnd(log, sid, pid);
    if e.None? then None
    else if s.Some? && log[s.value].input.recordedAt > log[e.value].input.recordedAt then None
    else e
  }

  // ---- record ----

  function AddReport(log: Log, i: nat, report: AuditReport): Log
    requires i < |log|
  {
    log[i := log[i].(reports := log[i].reports + [report])]
  }

  /** The record a report folds into instead of being stored. */
  function Converges(log: Log, entry: AuditInput): (r: Option<nat>)
    ensures r.Some? ==> r.value < |log|
  {
    var byId := FindEvent(log, entry.eventId);
    if byId.Some? then byId
    else if entry.kind.SessionEnd? then OpenSessionEnd(log, entry.sid, entry.pid)
    else None
  }

  function RecordEntry(log: Log, entry: AuditInput): Log {
    var report := AuditReport(entry.source, entry.recordedAt);
    match Converges(log, entry)
    case Some(i) => AddReport(log, i, report)
    case None => log + [AuditRecord(entry, [report])]
  }

  class AuditLog {
    var records: Log

    constructor ()
      ensures records == []
    {
      records := [];
    }

    method Record(entry: AuditInput) returns (created: bool)
      modifies this
      ensures records == RecordEntry(old(records), entry)
      ensures created <==> |records| == |old(records)| + 1
      ensures !created <==> |records| == |old(records)|
    {
      var report := AuditReport(entry.source, entry.recordedAt);
      var byId := FindEvent(records, entry.eventId);
      if byId.Some? {
        records := AddReport(records, byId.value, report);
        return false;
      }
      if entry.kind.SessionEnd? {
        var convergent := FindOpenEnd(entry.sid, entry.pid);
        if convergent.Some? {
          records := AddReport(records, convergent.value, report);
          return false;
        }
      }
      records := records + [AuditRecord(entry, [report])];
      return true;
    }

    /** The scan of every record with two running latest candidates. */
    method FindOpenEnd(sid: SessionId, pid: ParticipantId) returns (r: Option<nat>)
      ensures r == OpenSessionEnd(records, sid, pid)
    {
      var latestStart: Option<nat>, latestEnd: Option<nat> := None, None;
      var i := 0;
      while i < |records|
        invariant 0 <= i <= |records|
        invariant latestStart == LatestStart(records[..i], sid, pid)
        invariant latestEnd == LatestEnd(records[..i], sid, pid)
      {
        assert records[..i + 1][..i] == records[..i];
        var record := records[i].input;
        if record.sid == sid && record.pid == pid {
          if record.kind.SessionStart? {
            if latestStart.None? || record.recordedAt > records[latestStart.value].input.recordedAt {
              latestStart := Some(i);
            }
          } else if record.kind.SessionEnd? {
            if latestEnd.None? || record.recordedAt > records[latestEnd.value].input.recordedAt {
              latestEnd := Some(i);
            }
          }
        }
        i := i + 1;
      }
      assert records[..i] == records;
      if latestEnd.None? { return None; }
      if latestStart.Some? &&
         records[latestStart.value].input.recordedAt > records[latestEnd.value].input.recordedAt { return None; }
      return latestEnd;
    }
  }

  // ---- idempotency ----

  /** `later` is `log` with one report, `entry`'s own, added to record `k`. */
  predicate FoldsInto(log: Log, later: Log, k: nat, entry: AuditInput) {
    && k < |log| == |later|
    && later[k].input == log[k].input
    && later[k].reports == log[k].reports + [AuditReport(entry.source, entry.recordedAt)]
    && forall i | 0 <= i < |log| && i != k :: later[i] == log[i]
  }

  predicate IsOfPair(e: AuditInput, sid: SessionId, pid: ParticipantId, kind: AuditKind) {
    e.sid == sid && e.pid == pid && e.kind == kind
  }

  /** Record `k` is the pair's latest end, the first of them if several share that time, and no
      start of the pair is later. */
  predicate IsStandingEnd(log: Log, sid: SessionId, pid: ParticipantId, k: nat) {
    && k < |log| && IsOfPair(log[k].input, sid, pid, SessionEnd)
    && (forall i | 0 <= i < |log| && IsOfPair(log[i].input, sid, pid, SessionEnd) ::
          log[i].input.recordedAt <= log[k].input.recordedAt
          && (i < k ==> log[i].input.recordedAt < log[k].input.recordedAt))
    && (forall i | 0 <= i < |log| && IsOfPair(log[i].input, sid, pid, SessionStart) ::
          log[i].input.recordedAt <= log[k].input.recordedAt)
  }

  predicate DistinctIds(log: Log) {
    forall i, j | 0 <= i < j < |log| :: log[i].input.eventId != log[j].input.eventId
  }

  predicate KnowsId(log: Log, eventId: string) {
    exists k :: 0 <= k < |log| && log[k].input.eventId == eventId
  }

  /** What becomes of `entry`: an end for a pair whose end stands is another report of it, like
      any entry under an id that is known; every other entry is a record of its own. */
  ghost predicate RecordedIn(log: Log, later: Log, entry: AuditInput) {
    && (forall k: nat | k < |log| && log[k].input.eventId == entry.eventId :: FoldsInto(log, later, k, entry))
    && (!KnowsId(log, entry.eventId) && entry.kind.SessionEnd? ==>
          forall k: nat | IsStandingEnd(log, entry.sid, entry.pid, k) :: FoldsInto(log, later, k, entry))
    && (!KnowsId(log, entry.eventId)
        && (entry.kind.SessionEnd? ==> forall k: nat :: !IsStandingEnd(log, entry.sid, entry.pid, k)) ==>
          later == log + [AuditRecord(entry, [AuditReport(entry.source, entry.recordedAt)])])
  }

  lemma OpenEndStands(log: Log, sid: SessionId, pid: ParticipantId, k: nat)
    ensures OpenSessionEnd(log, sid, pid) == Some(k) <==> IsStandingEnd(log, sid, pid, k)
  {
    assert forall e :: IsOfPair(e, sid, pid, SessionEnd) <==> Of(sid, pid, SessionEnd)(e);
    assert forall e :: IsOfPair(e, sid, pid, SessionStart) <==> Of(sid, pid, SessionStart)(e);
  }

  lemma RecordsAsPromised(log: Log, entry: AuditInput)
    requires DistinctIds(log)
    ensures RecordedIn(log, RecordEntry(log, entry), entry) && DistinctIds(RecordEntry(log, entry))
  {
    hide OpenSessionEnd, IsStandingEnd;
    forall k: nat
      ensures OpenSessionEnd(log, entry.sid, entry.pid) == Some(k) <==> IsStandingEnd(log, entry.sid, entry.pid, k)
    {
      OpenEndStands(log, entry.sid, entry.pid, k);
    }
  }

  /** Over any run of records: no id is stored twice, and the next entry is stored or folded as
      promised. */
  lemma {:induction false} EachEventOnce(entries: seq<AuditInput>, entry: AuditInput)
    ensures DistinctIds(RecordAll(entries))
    ensures RecordedIn(RecordAll(entries), RecordAll(entries + [entry]), entry)
  {
    if |entries| > 0 {
      var n := |entries| - 1;
      EachEventOnce(entries[..n], entries[n]);
      assert entries[..n] + [entries[n]] == entries;
      RecordsAsPromised(RecordAll(entries[..n]), entries[n]);
    }
    RecordsAsPromised(RecordAll(entries), entry);
    assert (entries + [entry])[..|entries|] == entries;
  }

  /** An end nobody reported: the sweeps make these. */
  function InferredEnd(sid: SessionId, pid: ParticipantId, eventId: string, now: int): AuditInput {
    AuditInput(eventId, sid, pid, SessionEnd, Inferred, now)
  }

  predicate Reports(r: AuditRecord, source: AuditSource, recordedAt: int) {
    AuditReport(source, recordedAt) in r.reports
  }

  /** Some end of the pair stands and has this report. */
  predicate EndsWith(log: Log, sid: SessionId, pid: ParticipantId, source: AuditSource, recordedAt: int) {
    exists k: nat :: k < |log| && IsStandingEnd(log, sid, pid, k) && Reports(log[k], source, recordedAt)
  }

  /** An end under a new id and as late as anything in the log leaves the pair with a standing end
      that has its report, whether it was stored or folded. */
  lemma EndIsRecorded(log: Log, entry: AuditInput)
    requires DistinctIds(log) && !KnowsId(log, entry.eventId) && entry.kind.SessionEnd?
    requires NoLaterThan(log, entry.recordedAt)
    ensures EndsWith(RecordEntry(log, entry), entry.sid, entry.pid, entry.source, entry.recordedAt)
  {
    hide RecordEntry;
    var later, report := RecordEntry(log, entry), AuditReport(entry.source, entry.recordedAt);
    RecordsAsPromised(log, entry);
    if k: nat :| IsStandingEnd(log, entry.sid, entry.pid, k) {
      assert FoldsInto(log, later, k, entry);
      assert later[k].reports[|log[k].reports|] == report;
      assert IsStandingEnd(later, entry.sid, entry.pid, k);
    } else {
      NewEndStands(log, entry);
      assert later[|log|].reports == [report];
    }
  }

  lemma NewEndStands(log: Log, entry: AuditInput)
    requires entry.kind.SessionEnd? && NoLaterThan(log, entry.recordedAt)
    requires forall k: nat :: !IsStandingEnd(log, entry.sid, entry.pid, k)
    ensures IsStandingEnd(
              log + [AuditRecord(entry, [AuditReport(entry.source, entry.recordedAt)])], entry.sid, entry.pid, |log|)
  {
    var e := LatestEnd(log, entry.sid, entry.pid);
    if e.Some? { OpenEndStands(log, entry.sid, entry.pid, e.value); }
  }

  /** A standing end stands until the pair starts again; later ends only add reports. */
  lemma StandingStays(log: Log, entry: AuditInput, sid: SessionId, pid: ParticipantId, k: nat)
    requires DistinctIds(log) && IsStandingEnd(log, sid, pid, k) && entry.kind.SessionEnd?
    ensures IsStandingEnd(RecordEntry(log, entry), sid, pid, k)
    ensures forall source, at | Reports(log[k], source, at) :: Reports(RecordEntry(log, entry)[k], source, at)
  {
    OpenEndStands(log, sid, pid, k);
    RecordExtends(log, entry);
  }

  lemma EndsWithStays(
    log: Log, entry: AuditInput, sid: SessionId, pid: ParticipantId, source: AuditSource, recordedAt: int)
    requires DistinctIds(log) && EndsWith(log, sid, pid, source, recordedAt) && entry.kind.SessionEnd?
    ensures EndsWith(RecordEntry(log, entry), sid, pid, source, recordedAt)
  {
    var k: nat :| k < |log| && IsStandingEnd(log, sid, pid, k) && Reports(log[k], source, recordedAt);
    StandingStays(log, entry, sid, pid, k);
  }

  // ---- runs ----

  predicate Chronological(entries: seq<AuditInput>) {
    forall i, j | 0 <= i < j < |entries| :: entries[i].recordedAt <= entries[j].recordedAt
  }

  function RecordAll(entries: seq<AuditInput>): Log {
    if |entries| == 0 then [] else RecordEntry(RecordAll(entries[..|entries| - 1]), entries[|entries| - 1])
  }

  function TotalReports(log: Log): nat {
    if |log| == 0 then 0 else TotalReports(log[..|log| - 1]) + |log[|log| - 1].reports|
  }

  lemma {:induction false} AddReportTotal(log: Log, i: nat, report: AuditReport)
    requires i < |log|
    ensures TotalReports(AddReport(log, i, report)) == TotalReports(log) + 1
  {
    var n := |log| - 1;
    if i < n {
      AddReportTotal(log[..n], i, report);
      assert AddReport(log, i, report)[..n] == AddReport(log[..n], i, report);
    } else {
      assert AddReport(log, i, report)[..n] == log[..n];
    }
  }

  /** No call is lost and none is counted twice. */
  lemma {:induction false} ReportsAreConserved(entries: seq<AuditInput>)
    ensures TotalReports(RecordAll(entries)) == |entries|
  {
    if |entries| > 0 {
      var n := |entries| - 1;
      ReportsAreConserved(entries[..n]);
      var log, entry := RecordAll(entries[..n]), entries[n];
      match Converges(log, entry) {
        case Some(i) => AddReportTotal(log, i, AuditReport(entry.source, entry.recordedAt));
        case None => assert RecordEntry(log, entry)[..|log|] == log;
      }
    }
  }

  /** `later` keeps every record of `earlier` in place, apart from appended reports. */
  predicate Extends(earlier: Log, later: Log) {
    && |earlier| <= |later|
    && forall i | 0 <= i < |earlier| ::
         earlier[i].input == later[i].input && earlier[i].reports <= later[i].reports
  }

  lemma ExtendsItself(log: Log)
    ensures Extends(log, log)
  {
  }

  lemma ExtendsOn(a: Log, b: Log, c: Log)
    requires Extends(a, b) && Extends(b, c)
    ensures Extends(a, c)
  {
  }

  lemma RecordExtends(log: Log, entry: AuditInput)
    ensures Extends(log, RecordEntry(log, entry))
    ensures |RecordEntry(log, entry)| == |log|
            || (|RecordEntry(log, entry)| == |log| + 1 && RecordEntry(log, entry)[|log|].input == entry)
  {
  }

  /** Stored records change only by appending reports. */
  lemma {:induction false} LogOnlyGrows(entries: seq<AuditInput>, n: nat)
    requires n <= |entries|
    ensures Extends(RecordAll(entries[..n]), RecordAll(entries))
    decreases |entries|
  {
    hide RecordEntry, Extends;
    if n < |entries| {
      var m := |entries| - 1;
      assert entries[..m][..n] == entries[..n];
      LogOnlyGrows(entries[..m], n);
      RecordExtends(RecordAll(entries[..m]), entries[m]);
      ExtendsOn(RecordAll(entries[..n]), RecordAll(entries[..m]), RecordAll(entries));
    } else {
      assert entries[..n] == entries;
      ExtendsItself(RecordAll(entries));
    }
  }

  // ---- alternation ----

  predicate Sorted(log: Log) {
    forall i, j | 0 <= i < j < |log| :: log[i].input.recordedAt <= log[j].input.recordedAt
  }

  /** A start of the pair recorded after `a` and no later than `b`. */
  predicate StartBetween(log: Log, sid: SessionId, pid: ParticipantId, a: int, b: int) {
    exists k :: 0 <= k < |log| && Of(sid, pid, SessionStart)(log[k].input) && a < log[k].input.recordedAt <= b
  }

  /** Between two ends of a pair there is a start, after the first and no later than the second. */
  predicate Alternates(log: Log, sid: SessionId, pid: ParticipantId) {
    forall i, j | 0 <= i < j < |log| && Of(sid, pid, SessionEnd)(log[i].input)
        && Of(sid, pid, SessionEnd)(log[j].input) ::
      StartBetween(log, sid, pid, log[i].input.recordedAt, log[j].input.recordedAt)
  }

  lemma StartBetweenMonotone(log: Log, later: Log, sid: SessionId, pid: ParticipantId, a: int, b: int)
    requires Extends(log, later) && StartBetween(log, sid, pid, a, b)
    ensures StartBetween(later, sid, pid, a, b)
  {
    var k :| 0 <= k < |log| && Of(sid, pid, SessionStart)(log[k].input) && a < log[k].input.recordedAt <= b;
    assert later[k].input == log[k].input;
  }

  /** A second end is stored only after a newer start. */
  lemma NewEndFollowsStart(log: Log, entry: AuditInput, i: nat)
    requires i < |log| && entry.kind.SessionEnd? && Of(entry.sid, entry.pid, SessionEnd)(log[i].input)
    requires Converges(log, entry).None?
    requires forall k | 0 <= k < |log| :: log[k].input.recordedAt <= entry.recordedAt
    ensures StartBetween(log, entry.sid, entry.pid, log[i].input.recordedAt, entry.recordedAt)
  {
    var s, e := LatestStart(log, entry.sid, entry.pid), LatestEnd(log, entry.sid, entry.pid);
    assert e.Some? && s.Some?;
    assert Of(entry.sid, entry.pid, SessionStart)(log[s.value].input);
  }

  lemma {:induction false} AlternationStep(log: Log, entry: AuditInput, sid: SessionId, pid: ParticipantId)
    requires Alternates(log, sid, pid)
    requires forall k | 0 <= k < |log| :: log[k].input.recordedAt <= entry.recordedAt
    ensures Alternates(RecordEntry(log, entry), sid, pid)
  {
    var later := RecordEntry(log, entry);
    RecordExtends(log, entry);
    forall i, j | 0 <= i < j < |later| && Of(sid, pid, SessionEnd)(later[i].input)
        && Of(sid, pid, SessionEnd)(later[j].input)
      ensures StartBetween(later, sid, pid, later[i].input.recordedAt, later[j].input.recordedAt)
    {
      if j < |log| {
        assert later[i].input == log[i].input && later[j].input == log[j].input;
        StartBetweenMonotone(log, later, sid, pid, log[i].input.recordedAt, log[j].input.recordedAt);
      } else {
        assert later[j].input == entry && later[i].input == log[i].input;
        NewEndFollowsStart(log, entry, i);
        StartBetweenMonotone(log, later, sid, pid, log[i].input.recordedAt, entry.recordedAt);
      }
    }
  }

  predicate NoLaterThan(log: Log, t: int) {
    forall k | 0 <= k < |log| :: log[k].input.recordedAt <= t
  }

  lemma RecordKeepsSorted(log: Log, entry: AuditInput)
    requires Sorted(log) && NoLaterThan(log, entry.recordedAt)
    ensures Sorted(RecordEntry(log, entry)) && NoLaterThan(RecordEntry(log, entry), entry.recordedAt)
  {
    var later := RecordEntry(log, entry);
    RecordExtends(log, entry);
    assert forall k | 0 <= k < |log| :: later[k].input == log[k].input;
  }

  lemma {:induction false} LogIsChronological(entries: seq<AuditInput>)
    requires Chronological(entries)
    ensures Sorted(RecordAll(entries))
    ensures if |entries| == 0 then RecordAll(entries) == []
        else NoLaterThan(RecordAll(entries), entries[|entries| - 1].recordedAt)
  {
    if |entries| > 0 {
      var n := |entries| - 1;
      LogIsChronological(entries[..n]);
      RecordKeepsSorted(RecordAll(entries[..n]), entries[n]);
    }
  }

  /** Over any run of records with a clock that never goes back, from any mix of sources,
      two ends of one pair are separated by a start. */
  lemma {:induction false} StartsAndEndsAlternate(entries: seq<AuditInput>, sid: SessionId, pid: ParticipantId)
    requires Chronological(entries)
    ensures Alternates(RecordAll(entries), sid, pid)
  {
    if |entries| > 0 {
      var n := |entries| - 1;
      StartsAndEndsAlternate(entries[..n], sid, pid);
      LogIsChronological(entries[..n]);
      AlternationStep(RecordAll(entries[..n]), entries[n], sid, pid);
    }
  }

  // ---- counting ----

  /** How many records satisfy `p` no later than `t`. */
  function CountUpTo(log: Log, p: AuditInput -> bool, t: int): nat {
    if |log| == 0 then 0 else
    var last := log[|log| - 1].input;
    CountUpTo(log[..|log| - 1], p, t) + if p(last) && last.recordedAt <= t then 1 else 0
  }

  function Count(log: Log, p: AuditInput -> bool): nat {
    if |log| == 0 then 0 else
    Count(log[..|log| - 1], p) + if p(log[|log| - 1].input) then 1 else 0
  }

  lemma {:induction false} CountUpToBounds(log: Log, p: AuditInput -> bool, a: int, b: int)
    requires a <= b
    ensures CountUpTo(log, p, a) <= CountUpTo(log, p, b) <= Count(log, p)
    ensures (exists k :: 0 <= k < |log| && p(log[k].input) && a < log[k].input.recordedAt <= b) ==>
              CountUpTo(log, p, a) < CountUpTo(log, p, b)
  {
    if |log| > 0 {
      var n := |log| - 1;
      CountUpToBounds(log[..n], p, a, b);
      assert forall k | 0 <= k < n :: log[..n][k] == log[k];
    }
  }

  /** What is counted and compared are the inputs. */
  predicate SameInputs(log: Log, later: Log) {
    |later| == |log| && forall i | 0 <= i < |log| :: later[i].input == log[i].input
  }

  lemma {:induction false} InputsDecideCounts(log: Log, later: Log, p: AuditInput -> bool, t: int)
    requires SameInputs(log, later)
    ensures Count(later, p) == Count(log, p) && CountUpTo(later, p, t) == CountUpTo(log, p, t)
  {
    if |log| > 0 { InputsDecideCounts(log[..|log| - 1], later[..|log| - 1], p, t); }
  }

  lemma {:induction false} InputsDecideLatest(log: Log, later: Log, p: AuditInput -> bool)
    requires SameInputs(log, later)
    ensures Latest(later, p) == Latest(log, p)
  {
    if |log| > 0 { InputsDecideLatest(log[..|log| - 1], later[..|log| - 1], p); }
  }

  lemma AddReportKeepsCounts(log: Log, i: nat, report: AuditReport, p: AuditInput -> bool, t: int)
    requires i < |log|
    ensures Count(AddReport(log, i, report), p) == Count(log, p)
    ensures CountUpTo(AddReport(log, i, report), p, t) == CountUpTo(log, p, t)
    ensures Latest(AddReport(log, i, report), p) == Latest(log, p)
  {
    InputsDecideCounts(log, AddReport(log, i, report), p, t);
    InputsDecideLatest(log, AddReport(log, i, report), p);
  }

  /** The counting invariant: every end but the first is paid for by a start no later
      than the latest end. */
  ghost predicate EndsPaidFor(log: Log, sid: SessionId, pid: ParticipantId) {
    var e := LatestEnd(log, sid, pid);
    if e.None? then Count(log, Of(sid, pid, SessionEnd)) == 0
    else Count(log, Of(sid, pid, SessionEnd))
         <= CountUpTo(log, Of(sid, pid, SessionStart), log[e.value].input.recordedAt) + 1
  }

  lemma EndsPaidForStep(log: Log, entry: AuditInput, sid: SessionId, pid: ParticipantId)
    requires EndsPaidFor(log, sid, pid)
    requires forall k | 0 <= k < |log| :: log[k].input.recordedAt <= entry.recordedAt
    ensures EndsPaidFor(RecordEntry(log, entry), sid, pid)
  {
    var ends, starts := Of(sid, pid, SessionEnd), Of(sid, pid, SessionStart);
    var later := RecordEntry(log, entry);
    var e := LatestEnd(log, sid, pid);
    match Converges(log, entry) {
      case Some(i) =>
        var report := AuditReport(entry.source, entry.recordedAt);
        AddReportKeepsCounts(log, i, report, ends, 0);
        AddReportKeepsCounts(log, i, report, starts, if e.Some? then log[e.value].input.recordedAt else 0);
      case None =>
        assert later[..|log|] == log;
        if ends(entry) && e.Some? {
          NewEndFollowsStart(log, entry, e.value);
          CountUpToBounds(log, starts, log[e.value].input.recordedAt, entry.recordedAt);
        }
    }
  }

  /** A pair has at most one more end than starts. */
  lemma {:induction false} EndsNeverOutrunStarts(entries: seq<AuditInput>, sid: SessionId, pid: ParticipantId)
    requires Chronological(entries)
    ensures EndsPaidFor(RecordAll(entries), sid, pid)
    ensures Count(RecordAll(entries), Of(sid, pid, SessionEnd)) <=
            Count(RecordAll(entries), Of(sid, pid, SessionStart)) + 1
  {
    if |entries| > 0 {
      var n := |entries| - 1;
      EndsNeverOutrunStarts(entries[..n], sid, pid);
      LogIsChronological(entries[..n]);
      EndsPaidForStep(RecordAll(entries[..n]), entries[n], sid, pid);
      var log := RecordAll(entries);
      var e := LatestEnd(log, sid, pid);
      if e.Some? {
        var t := log[e.value].input.recordedAt;
        CountUpToBounds(log, Of(sid, pid, SessionStart), t, t);
      }
    }
  }
}
