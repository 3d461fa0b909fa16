/** The periodic sweep that closes overdue sessions
    (apps/server/src/services/AuditReconciler.ts). */
module Reconciler {
  import opened Wrappers
  import opened Protocol
  import opened Audit

  // ---- the sweep's own notion of "open", computed by string key ----

  function Key(sid: SessionId, pid: ParticipantId): string { sid + ":" + pid }

  function KeyOf(e: AuditInput): string { Key(e.sid, e.pid) }

  function WithKey(key: string, kind: AuditKind): AuditInput -> bool {
    (e: AuditInput) => KeyOf(e) == key && e.kind == kind
  }

  /** The keys with a start, in the order the latestStart Map first saw them. */
  function StartKeys(log: Log): seq<string> {
    if |log| == 0 then [] else
    var n := |log| - 1;
    var keys := StartKeys(log[..n]);
    if log[n].input.kind.SessionStart? && KeyOf(log[n].input) !in keys then keys + [KeyOf(log[n].input)] else keys
  }

  function KeyStart(log: Log, key: string): (r: Option<nat>)
    ensures r.Some? ==> r.value < |log| && KeyOf(log[r.value].input) == key
  {
    Latest(log, WithKey(key, SessionStart))
  }

  function KeyEnd(log: Log, key: string): (r: Option<nat>)
    ensures r.Some? ==> r.value < |log| && KeyOf(log[r.value].input) == key
  {
    Latest(log, WithKey(key, SessionEnd))
  }

  lemma {:induction false} StartKeysAreKeysWithStarts(log: Log, key: string)
    ensures key in StartKeys(log) <==> KeyStart(log, key).Some?
  {
    if |log| > 0 { StartKeysAreKeysWithStarts(log[..|log| - 1], key); }
  }

  lemma {:induction false} StartKeysDistinct(log: Log)
    ensures forall i, j | 0 <= i < j < |StartKeys(log)| :: StartKeys(log)[i] != StartKeys(log)[j]
  {
    if |log| > 0 { StartKeysDistinct(log[..|log| - 1]); }
  }

  predicate StartsKey(e: AuditInput, key: string) { e.kind.SessionStart? && KeyOf(e) == key }

  /** The first start under a key. */
  function FirstStart(log: Log, key: string): (r: Option<nat>)
    ensures r.Some? ==> r.value < |log| && StartsKey(log[r.value].input, key)
    ensures forall i | 0 <= i < |log| && StartsKey(log[i].input, key) :: r.Some? && r.value <= i
  {
    if |log| == 0 then None else
    var n := |log| - 1;
    var r := FirstStart(log[..n], key);
    assert forall i | 0 <= i < n :: log[..n][i] == log[i];
    if r.Some? then r else if StartsKey(log[n].input, key) then Some(n) else None
  }

  /** The keys are those with a start, in the order of their first ones. */
  lemma {:induction false} StartKeysInOrder(log: Log)
    ensures forall key :: key in StartKeys(log) <==> FirstStart(log, key).Some?
    ensures forall j, k | 0 <= j < k < |StartKeys(log)| ::
              FirstStart(log, StartKeys(log)[j]).value < FirstStart(log, StartKeys(log)[k]).value
  {
    if |log| > 0 {
      var n := |log| - 1;
      var init := StartKeys(log[..n]);
      StartKeysInOrder(log[..n]);
      assert forall k | 0 <= k < |init| :: init[k] in init;
    }
  }

  lemma KeyNotYetSeen(log: Log, k: nat)
    requires k < |StartKeys(log)|
    ensures StartKeys(log)[k] !in StartKeys(log)[..k]
  {
    StartKeysDistinct(log);
  }

  /** No end at or after the key's latest start, and that start at least `ttl` old. */
  predicate Overdue(log: Log, key: string, now: int, ttl: nat) {
    var start, end := KeyStart(log, key), KeyEnd(log, key);
    && start.Some?
    && (end.None? || log[end.value].input.recordedAt < log[start.value].input.recordedAt)
    && now - log[start.value].input.recordedAt >= ttl
  }

  function ClosureOf(start: AuditInput, id: string, now: int): AuditInput {
    InferredEnd(start.sid, start.pid, id, now)
  }

  /** What a sweep adds: one end per overdue key, in key order. */
  function Closures(log: Log, keys: seq<string>, ids: nat -> string, now: int, ttl: nat): (made: Log)
    ensures |made| <= |keys|
  {
    if |keys| == 0 then [] else
    var n := |keys| - 1;
    var made := Closures(log, keys[..n], ids, now, ttl);
    if Overdue(log, keys[n], now, ttl) then
      var entry := ClosureOf(log[KeyStart(log, keys[n]).value].input, ids(|made|), now);
      made + [AuditRecord(entry, [AuditReport(Inferred, now)])]
    else made
  }

  function SweepLog(log: Log, ids: nat -> string, now: int, ttl: nat): Log
  {
    log + Closures(log, StartKeys(log), ids, now, ttl)
  }

  /** Ids are unique and new to the log, as generated UUIDs are. */
  ghost predicate FreshIds(log: Log, ids: nat -> string) {
    && (forall i: nat, j: nat | i < j :: ids(i) != ids(j))
    && forall i: nat, j: nat | j < |log| :: ids(i) != log[j].input.eventId
  }

  /** `r` is the inferred end of one overdue key among `keys`. */
  predicate IsClosure(log: Log, keys: seq<string>, r: AuditRecord, id: string, now: int, ttl: nat)
  {
    var key := KeyOf(r.input);
    && key in keys && Overdue(log, key, now, ttl)
    && r.input == ClosureOf(log[KeyStart(log, key).value].input, id, now)
    && r.reports == [AuditReport(Inferred, now)]
  }

  /** Everything a sweep makes is the closure of an overdue key. */
  lemma ClosureAmongMore(log: Log, keys: seq<string>, r: AuditRecord, id: string, now: int, ttl: nat)
    requires |keys| > 0 && IsClosure(log, keys[..|keys| - 1], r, id, now, ttl)
    ensures IsClosure(log, keys, r, id, now, ttl)
  {
  }

  lemma {:induction false} ClosuresShape(log: Log, keys: seq<string>, ids: nat -> string, now: int, ttl: nat)
    ensures var made := Closures(log, keys, ids, now, ttl);
            forall i | 0 <= i < |made| :: IsClosure(log, keys, made[i], ids(i), now, ttl)
  {
    hide IsClosure, Overdue;
    if |keys| > 0 {
      var n := |keys| - 1;
      var before, made := Closures(log, keys[..n], ids, now, ttl), Closures(log, keys, ids, now, ttl);
      ClosuresShape(log, keys[..n], ids, now, ttl);
      forall i | 0 <= i < |made| ensures IsClosure(log, keys, made[i], ids(i), now, ttl) {
        if i < |before| {
          assert made[i] == before[i];
          ClosureAmongMore(log, keys, before[i], ids(i), now, ttl);
        } else {
          NewestIsClosure(log, keys, ids(i), now, ttl);
        }
      }
    }
  }

  lemma NewestIsClosure(log: Log, keys: seq<string>, id: string, now: int, ttl: nat)
    requires |keys| > 0 && Overdue(log, keys[|keys| - 1], now, ttl)
    ensures var key := keys[|keys| - 1];
            var entry := ClosureOf(log[KeyStart(log, key).value].input, id, now);
            IsClosure(log, keys, AuditRecord(entry, [AuditReport(Inferred, now)]), id, now, ttl)
  {
    var key := keys[|keys| - 1];
    assert KeyOf(ClosureOf(log[KeyStart(log, key).value].input, id, now)) == key;
  }

  /** What a sweep adds are ends under the ids generated for them, inferred, reported once, made
      now, each for a pair with a start in the log. */
  lemma ClosuresAreInferredEnds(log: Log, keys: seq<string>, ids: nat -> string, now: int, ttl: nat, i: nat)
    requires i < |Closures(log, keys, ids, now, ttl)|
    ensures var r := Closures(log, keys, ids, now, ttl)[i];
            && r.input.eventId == ids(i) && r.input.kind.SessionEnd? && r.input.source.Inferred?
            && r.input.recordedAt == now && r.reports == [AuditReport(Inferred, now)]
            && exists k :: 0 <= k < |log| && IsOfPair(log[k].input, r.input.sid, r.input.pid, SessionStart)
  {
    ClosuresShape(log, keys, ids, now, ttl);
    var r := Closures(log, keys, ids, now, ttl)[i];
    assert IsClosure(log, keys, r, ids(i), now, ttl);
    var k := KeyStart(log, KeyOf(r.input)).value;
    assert IsOfPair(log[k].input, r.input.sid, r.input.pid, SessionStart);
  }

  predicate HasClosure(made: Log, key: string) {
    exists i :: 0 <= i < |made| && KeyOf(made[i].input) == key
  }

  /** Every overdue key gets its closure. */
  lemma {:induction false} ClosuresComplete(
    log: Log, keys: seq<string>, ids: nat -> string, now: int, ttl: nat, key: string)
    requires key in keys && Overdue(log, key, now, ttl)
    ensures HasClosure(Closures(log, keys, ids, now, ttl), key)
  {
    var n := |keys| - 1;
    var before, made := Closures(log, keys[..n], ids, now, ttl), Closures(log, keys, ids, now, ttl);
    if key == keys[n] {
      assert KeyOf(made[|before|].input) == key;
    } else {
      ClosuresComplete(log, keys[..n], ids, now, ttl, key);
      var i :| 0 <= i < |before| && KeyOf(before[i].input) == key;
      assert made[i] == before[i];
    }
  }

  /** Appended records that `p` rejects do not move its latest record. */
  lemma {:induction false} LatestIgnores(log: Log, made: Log, p: AuditInput -> bool)
    requires forall i | 0 <= i < |made| :: !p(made[i].input)
    ensures Latest(log + made, p) == Latest(log, p)
  {
    if |made| == 0 {
      assert log + made == log;
    } else {
      var n := |made| - 1;
      LatestIgnores(log, made[..n], p);
      assert (log + made)[..|log + made| - 1] == log + made[..n];
    }
  }

  /** The pair of an overdue key's latest start has that start as its own latest, and no
      end at or after it. */
  lemma PairEndOlder(log: Log, key: string, now: int, ttl: nat)
    requires Overdue(log, key, now, ttl)
    ensures var start := log[KeyStart(log, key).value].input;
            var s, e := LatestStart(log, start.sid, start.pid), LatestEnd(log, start.sid, start.pid);
            && s.Some? && log[s.value].input.recordedAt == start.recordedAt
            && (e.Some? ==> log[e.value].input.recordedAt < start.recordedAt)
  {
    var i := KeyStart(log, key).value;
    var start := log[i].input;
    assert Of(start.sid, start.pid, SessionStart)(start);
    var s, e := LatestStart(log, start.sid, start.pid), LatestEnd(log, start.sid, start.pid);
    assert WithKey(key, SessionStart)(log[s.value].input);
    if e.Some? { assert WithKey(key, SessionEnd)(log[e.value].input); }
  }

  /** The pair's starts and ends among records made for other keys: none. */
  lemma ClosuresOfOthers(
    log: Log, keys: seq<string>, ids: nat -> string, now: int, ttl: nat, sid: SessionId, pid: ParticipantId)
    requires Key(sid, pid) !in keys
    ensures var made := Closures(log, keys, ids, now, ttl);
            && LatestStart(log + made, sid, pid) == LatestStart(log, sid, pid)
            && LatestEnd(log + made, sid, pid) == LatestEnd(log, sid, pid)
  {
    var made := Closures(log, keys, ids, now, ttl);
    ClosuresShape(log, keys, ids, now, ttl);
    forall i | 0 <= i < |made|
      ensures !Of(sid, pid, SessionStart)(made[i].input) && !Of(sid, pid, SessionEnd)(made[i].input)
    {
      assert IsClosure(log, keys, made[i], ids(i), now, ttl);
    }
    LatestIgnores(log, made, Of(sid, pid, SessionStart));
    LatestIgnores(log, made, Of(sid, pid, SessionEnd));
  }

  lemma NextIdIsNew(log: Log, keys: seq<string>, ids: nat -> string, now: int, ttl: nat)
    requires FreshIds(log, ids)
    ensures var made := Closures(log, keys, ids, now, ttl);
            FindEvent(log + made, ids(|made|)).None?
  {
    var made := Closures(log, keys, ids, now, ttl);
    ClosuresShape(log, keys, ids, now, ttl);
    forall i | 0 <= i < |log + made| ensures (log + made)[i].input.eventId != ids(|made|) {
      if i >= |log| { assert IsClosure(log, keys, made[i - |log|], ids(i - |log|), now, ttl); }
    }
  }

  /** The end for an overdue key is always stored as a new record: `record` finds neither
      its id nor an end to fold it into. No assumption on session ids is needed. */
  lemma ClosureIsCreated(log: Log, keys: seq<string>, ids: nat -> string, now: int, ttl: nat, key: string)
    requires FreshIds(log, ids) && key !in keys && Overdue(log, key, now, ttl)
    ensures var made := Closures(log, keys, ids, now, ttl);
            Converges(log + made, ClosureOf(log[KeyStart(log, key).value].input, ids(|made|), now)).None?
  {
    var made := Closures(log, keys, ids, now, ttl);
    var start := log[KeyStart(log, key).value].input;
    NextIdIsNew(log, keys, ids, now, ttl);
    ClosuresOfOthers(log, keys, ids, now, ttl, start.sid, start.pid);
    PairEndOlder(log, key, now, ttl);
    var s, e := LatestStart(log, start.sid, start.pid), LatestEnd(log, start.sid, start.pid);
    assert forall i | 0 <= i < |log| :: (log + made)[i] == log[i];
  }

  /** One more key of a sweep in progress. */
  lemma SweepStep(log: Log, keys: seq<string>, key: string, ids: nat -> string, now: int, ttl: nat)
    requires FreshIds(log, ids) && key !in keys
    ensures var sofar := Closures(log, keys, ids, now, ttl);
            var next := Closures(log, keys + [key], ids, now, ttl);
            if Overdue(log, key, now, ttl) then
              && |next| == |sofar| + 1
              && RecordEntry(log + sofar, ClosureOf(log[KeyStart(log, key).value].input, ids(|sofar|), now)) ==
                  log + next
            else next == sofar
  {
    assert (keys + [key])[..|keys|] == keys;
    if Overdue(log, key, now, ttl) {
      ClosureIsCreated(log, keys, ids, now, ttl, key);
    }
  }

  /** The scan's maps decide whether a key is overdue, and hold its latest start. */
  lemma ScanDecides(
    log: Log, latestStart: map<string, AuditInput>, latestEnd: map<string, AuditInput>, key: string, now: int, ttl: nat)
    requires ScanOf(log, latestStart, SessionStart) && ScanOf(log, latestEnd, SessionEnd)
    requires key in StartKeys(log)
    ensures key in latestStart && KeyStart(log, key).Some? && latestStart[key] == log[KeyStart(log, key).value].input
    ensures Overdue(log, key, now, ttl) <==>
              && !(key in latestEnd && latestEnd[key].recordedAt >= latestStart[key].recordedAt)
              && !(now - latestStart[key].recordedAt < ttl)
  {
    StartKeysAreKeysWithStarts(log, key);
    assert ScanAt(log, latestStart, SessionStart, key) && ScanAt(log, latestEnd, SessionEnd, key);
  }

  class AuditReconciler {
    const auditLog: AuditLog
    const ttlMs: nat

    constructor (log: AuditLog, ttl: nat)
      ensures auditLog == log && ttlMs == ttl
    {
      auditLog := log;
      ttlMs := ttl;
    }

    /** One pass over the records by key, then one write per overdue key. `ids` stands for
        the generated ids. */
    method Sweep(now: int, ids: nat -> string)
      requires FreshIds(auditLog.records, ids)
      modifies auditLog
      ensures auditLog.records == SweepLog(old(auditLog.records), ids, now, ttlMs)
    {
      hide Overdue, ScanOf, FreshIds;
      ghost var log := auditLog.records;
      var order, latestStart, latestEnd := Scan();
      var made := 0;
      var k := 0;
      while k < |order|
        invariant 0 <= k <= |order|
        invariant auditLog.records == log + Closures(log, order[..k], ids, now, ttlMs)
        invariant made == |Closures(log, order[..k], ids, now, ttlMs)|
      {
        made := SweepKey(log, order, k, latestStart, latestEnd, made, now, ids);
        k := k + 1;
      }
      assert order[..k] == order;
    }

    /** The body of the second loop: close key `k` if it is overdue. */
    method SweepKey(
      ghost log: Log, order: seq<string>, k: nat, latestStart: map<string, AuditInput>,
      latestEnd: map<string, AuditInput>, made: nat, now: int, ids: nat -> string)
      returns (total: nat)
      requires FreshIds(log, ids) && order == StartKeys(log) && k < |order|
      requires ScanOf(log, latestStart, SessionStart) && ScanOf(log, latestEnd, SessionEnd)
      requires auditLog.records == log + Closures(log, order[..k], ids, now, ttlMs)
      requires made == |Closures(log, order[..k], ids, now, ttlMs)|
      modifies auditLog
      ensures auditLog.records == log + Closures(log, order[..k + 1], ids, now, ttlMs)
      ensures total == |Closures(log, order[..k + 1], ids, now, ttlMs)|
    {
      hide ScanOf, FreshIds, RecordEntry;
      ghost var keys := order[..k];
      var key := order[k];
      assert order[..k + 1] == keys + [key];
      KeyNotYetSeen(log, k);
      SweepStep(log, keys, key, ids, now, ttlMs);
      ScanDecides(log, latestStart, latestEnd, key, now, ttlMs);
      var start := latestStart[key];
      if key in latestEnd && latestEnd[key].recordedAt >= start.recordedAt { return made; }
      if now - start.recordedAt < ttlMs { return made; }
      var created := auditLog.Record(ClosureOf(start, ids(made), now));
      return made + 1;
    }

    /** The latest start and end by key, and the order in which starts were first seen. */
    method Scan() returns (order: seq<string>, latestStart: map<string, AuditInput>, latestEnd: map<string, AuditInput>)
      ensures order == StartKeys(auditLog.records)
      ensures ScanOf(auditLog.records, latestStart, SessionStart) && ScanOf(auditLog.records, latestEnd, SessionEnd)
    {
      order, latestStart, latestEnd := [], map[], map[];
      var i := 0;
      var records := auditLog.records;
      while i < |records|
        invariant 0 <= i <= |records|
        invariant order == StartKeys(records[..i])
        invariant ScanOf(records[..i], latestStart, SessionStart)
        invariant ScanOf(records[..i], latestEnd, SessionEnd)
      {
        assert records[..i + 1][..i] == records[..i];
        var record := records[i].input;
        var key := KeyOf(record);
        ScanStep(records[..i + 1], latestStart, SessionStart);
        ScanStep(records[..i + 1], latestEnd, SessionEnd);
        StartKeysAreKeysWithStarts(records[..i], key);
        assert ScanAt(records[..i], latestStart, SessionStart, key);
        order, latestStart, latestEnd := Note(record, order, latestStart, latestEnd);
        i := i + 1;
      }
      assert records[..i] == records;
    }

    /** The body of the scan. */
    static method Note(
      record: AuditInput, order: seq<string>, starts: map<string, AuditInput>, ends: map<string, AuditInput>)
      returns (keys: seq<string>, latestStart: map<string, AuditInput>, latestEnd: map<string, AuditInput>)
      ensures latestStart == Noted(starts, record, SessionStart) && latestEnd == Noted(ends, record, SessionEnd)
      ensures keys == if record.kind.SessionStart? && KeyOf(record) !in starts then order + [KeyOf(record)] else order
    {
      keys, latestStart, latestEnd := order, starts, ends;
      var key := KeyOf(record);
      if record.kind.SessionStart? {
        if key !in latestStart { keys := keys + [key]; }
        if key !in latestStart || record.recordedAt > latestStart[key].recordedAt {
          latestStart := latestStart[key := record];
        }
      } else if record.kind.SessionEnd? {
        if key !in latestEnd || record.recordedAt > latestEnd[key].recordedAt {
          latestEnd := latestEnd[key := record];
        }
      }
    }
  }

  ghost predicate ScanAt(log: Log, m: map<string, AuditInput>, kind: AuditKind, key: string) {
    match Latest(log, WithKey(key, kind))
    case None => key !in m
    case Some(i) => key in m && m[key] == log[i].input
  }

  /** `m` maps each key to its latest record of one kind. */
  ghost predicate ScanOf(log: Log, m: map<string, AuditInput>, kind: AuditKind) {
    forall key :: ScanAt(log, m, kind, key)
  }

  /** The map after one more record. */
  function Noted(m: map<string, AuditInput>, e: AuditInput, kind: AuditKind): map<string, AuditInput> {
    if e.kind == kind && (KeyOf(e) !in m || e.recordedAt > m[KeyOf(e)].recordedAt) then m[KeyOf(e) := e] else m
  }

  lemma ScanStepAt(log: Log, m: map<string, AuditInput>, kind: AuditKind, key: string)
    requires |log| > 0 && ScanAt(log[..|log| - 1], m, kind, key)
    ensures ScanAt(log, Noted(m, log[|log| - 1].input, kind), kind, key)
  {
  }

  lemma ScanStep(log: Log, m: map<string, AuditInput>, kind: AuditKind)
    requires |log| > 0 && ScanOf(log[..|log| - 1], m, kind)
    ensures ScanOf(log, Noted(m, log[|log| - 1].input, kind), kind)
  {
    var next := Noted(m, log[|log| - 1].input, kind);
    forall key ensures ScanAt(log, next, kind, key) {
      assert ScanAt(log[..|log| - 1], m, kind, key);
      ScanStepAt(log, m, kind, key);
    }
  }

  // ---- what a sweep achieves ----

  /** The pair's latest start, if any, has an end at or after it. */
  predicate Closed(log: Log, sid: SessionId, pid: ParticipantId) {
    var s, e := LatestStart(log, sid, pid), LatestEnd(log, sid, pid);
    s.None? || (e.Some? && log[e.value].input.recordedAt >= log[s.value].input.recordedAt)
  }

  /** Some record of another pair with the same key hides the pair's latest start: a start
      the key scan prefers, or an end at or after it. */
  predicate Shadowed(log: Log, sid: SessionId, pid: ParticipantId) {
    var s := LatestStart(log, sid, pid);
    s.Some? && exists i ::
      && 0 <= i < |log| && KeyOf(log[i].input) == Key(sid, pid)
      && (log[i].input.sid != sid || log[i].input.pid != pid)
      && var t, r := log[i].input.recordedAt, log[s.value].input.recordedAt;
         (log[i].input.kind.SessionStart? && (t > r || (t == r && i < s.value)))
             || (log[i].input.kind.SessionEnd? && t >= r)
  }

  lemma SweepMakesOnlyEnds(log: Log, ids: nat -> string, now: int, ttl: nat, sid: SessionId, pid: ParticipantId)
    ensures var made := Closures(log, StartKeys(log), ids, now, ttl);
            && (forall i | 0 <= i < |made| :: made[i].input.kind.SessionEnd? && made[i].input.recordedAt == now)
            && LatestStart(log + made, sid, pid) == LatestStart(log, sid, pid)
  {
    var made := Closures(log, StartKeys(log), ids, now, ttl);
    ClosuresShape(log, StartKeys(log), ids, now, ttl);
    forall i | 0 <= i < |made| ensures made[i].input.kind.SessionEnd? && made[i].input.recordedAt == now {
      assert IsClosure(log, StartKeys(log), made[i], ids(i), now, ttl);
    }
    LatestIgnores(log, made, Of(sid, pid, SessionStart));
  }

  /** An unshadowed pair and its key have the same latest start. */
  lemma UnshadowedStart(log: Log, sid: SessionId, pid: ParticipantId)
    requires LatestStart(log, sid, pid).Some? && !Shadowed(log, sid, pid)
    ensures KeyStart(log, Key(sid, pid)) == LatestStart(log, sid, pid)
    ensures var e := KeyEnd(log, Key(sid, pid));
            e.Some? && log[e.value].input.recordedAt >= log[LatestStart(log, sid, pid).value].input.recordedAt ==>
              Closed(log, sid, pid)
  {
    var s := LatestStart(log, sid, pid).value;
    assert WithKey(Key(sid, pid), SessionStart)(log[s].input);
    var k := KeyStart(log, Key(sid, pid)).value;
    assert WithKey(Key(sid, pid), SessionStart)(log[k].input);
    assert log[k].input.sid == sid && log[k].input.pid == pid;
    assert Of(sid, pid, SessionStart)(log[k].input);
    var e := KeyEnd(log, Key(sid, pid));
    if e.Some? && log[e.value].input.recordedAt >= log[s].input.recordedAt {
      assert WithKey(Key(sid, pid), SessionEnd)(log[e.value].input);
      assert Of(sid, pid, SessionEnd)(log[e.value].input);
    }
  }

  /** When a pair's own start makes its key overdue, nothing shadows it. */
  lemma ClosedKeyIsUnshadowed(log: Log, sid: SessionId, pid: ParticipantId, now: int, ttl: nat)
    ensures var k := KeyStart(log, Key(sid, pid));
            Overdue(log, Key(sid, pid), now, ttl) && log[k.value].input.sid == sid && log[k.value].input.pid == pid ==>
              !Shadowed(log, sid, pid)
  {
    var key := Key(sid, pid);
    var k := KeyStart(log, key);
    if Overdue(log, key, now, ttl) && log[k.value].input.sid == sid && log[k.value].input.pid == pid {
      var s := LatestStart(log, sid, pid).value;
      assert Of(sid, pid, SessionStart)(log[k.value].input);
      assert WithKey(key, SessionStart)(log[s].input);
      assert s == k.value;
      forall i | 0 <= i < |log| && KeyOf(log[i].input) == key
        ensures log[i].input.kind.SessionStart? ==>
                  (log[i].input.recordedAt < log[s].input.recordedAt
                   || (log[i].input.recordedAt == log[s].input.recordedAt && s <= i))
        ensures log[i].input.kind.SessionEnd? ==> log[i].input.recordedAt < log[s].input.recordedAt
      {
        assert WithKey(key, log[i].input.kind)(log[i].input);
      }
    }
  }

  /** An unshadowed open pair's key is overdue when its start is. */
  lemma UnshadowedIsOverdue(log: Log, now: int, ttl: nat, sid: SessionId, pid: ParticipantId)
    requires LatestStart(log, sid, pid).Some? && !Closed(log, sid, pid) && !Shadowed(log, sid, pid)
    requires now - log[LatestStart(log, sid, pid).value].input.recordedAt >= ttl
    ensures Overdue(log, Key(sid, pid), now, ttl)
    ensures KeyStart(log, Key(sid, pid)) == LatestStart(log, sid, pid)
  {
    UnshadowedStart(log, sid, pid);
  }

  /** The two notions of "open" compared. For a started pair whose start is old enough, the
      sweep finds the pair's key overdue by the pair's own start if and only if `record` would
      store a new end for the pair and no other pair's record under the key hides it. */
  lemma OverdueIffOpenAndUnshadowed(log: Log, now: int, ttl: nat, sid: SessionId, pid: ParticipantId)
    requires LatestStart(log, sid, pid).Some?
    requires now - log[LatestStart(log, sid, pid).value].input.recordedAt >= ttl
    ensures Overdue(log, Key(sid, pid), now, ttl) && KeyStart(log, Key(sid, pid)) == LatestStart(log, sid, pid) <==>
              OpenSessionEnd(log, sid, pid).None? && !Shadowed(log, sid, pid)
  {
    var key := Key(sid, pid);
    if Overdue(log, key, now, ttl) && KeyStart(log, key) == LatestStart(log, sid, pid) {
      ClosedKeyIsUnshadowed(log, sid, pid, now, ttl);
      PairEndOlder(log, key, now, ttl);
    } else if OpenSessionEnd(log, sid, pid).None? && !Shadowed(log, sid, pid) {
      UnshadowedIsOverdue(log, now, ttl, sid, pid);
    }
  }

  /** A shadowed open pair is one the sweep closes nothing for. */
  lemma ShadowedIsSkipped(log: Log, ids: nat -> string, now: int, ttl: nat, sid: SessionId, pid: ParticipantId)
    requires !Closed(log, sid, pid) && Shadowed(log, sid, pid)
    ensures !Closed(SweepLog(log, ids, now, ttl), sid, pid)
  {
    var key := Key(sid, pid);
    var s := LatestStart(log, sid, pid).value;
    var made := Closures(log, StartKeys(log), ids, now, ttl);
    SweepMakesOnlyEnds(log, ids, now, ttl, sid, pid);
    ClosuresShape(log, StartKeys(log), ids, now, ttl);
    assert WithKey(key, SessionStart)(log[s].input);
    forall i | 0 <= i < |made| ensures !Of(sid, pid, SessionEnd)(made[i].input) {
      assert IsClosure(log, StartKeys(log), made[i], ids(i), now, ttl);
      ClosedKeyIsUnshadowed(log, sid, pid, now, ttl);
    }
    LatestIgnores(log, made, Of(sid, pid, SessionEnd));
  }

  /** The end made for an overdue key whose latest start is the pair's closes the pair. */
  lemma OverdueIsClosed(log: Log, ids: nat -> string, now: int, ttl: nat, sid: SessionId, pid: ParticipantId)
    requires Overdue(log, Key(sid, pid), now, ttl) && KeyStart(log, Key(sid, pid)) == LatestStart(log, sid, pid)
    ensures Closed(SweepLog(log, ids, now, ttl), sid, pid)
  {
    var key := Key(sid, pid);
    var made := Closures(log, StartKeys(log), ids, now, ttl);
    StartKeysAreKeysWithStarts(log, key);
    ClosuresComplete(log, StartKeys(log), ids, now, ttl, key);
    var i :| 0 <= i < |made| && KeyOf(made[i].input) == key;
    ClosuresShape(log, StartKeys(log), ids, now, ttl);
    assert IsClosure(log, StartKeys(log), made[i], ids(i), now, ttl);
    SweepMakesOnlyEnds(log, ids, now, ttl, sid, pid);
    assert Of(sid, pid, SessionEnd)((log + made)[|log| + i].input);
  }

  /** An open, overdue pair is closed by a sweep exactly when no record of another pair
      shares its key and shadows it. */
  lemma SweepClosesIffNotShadowed(log: Log, ids: nat -> string, now: int, ttl: nat, sid: SessionId, pid: ParticipantId)
    requires LatestStart(log, sid, pid).Some? && !Closed(log, sid, pid)
    requires now - log[LatestStart(log, sid, pid).value].input.recordedAt >= ttl
    ensures Closed(SweepLog(log, ids, now, ttl), sid, pid) <==> !Shadowed(log, sid, pid)
  {
    if Shadowed(log, sid, pid) {
      ShadowedIsSkipped(log, ids, now, ttl, sid, pid);
    } else {
      UnshadowedIsOverdue(log, now, ttl, sid, pid);
      OverdueIsClosed(log, ids, now, ttl, sid, pid);
    }
  }

  /** At most one end is made per key, hence per pair. */
  lemma {:induction false} ClosuresDistinct(log: Log, keys: seq<string>, ids: nat -> string, now: int, ttl: nat)
    requires forall i, j | 0 <= i < j < |keys| :: keys[i] != keys[j]
    ensures var made := Closures(log, keys, ids, now, ttl);
            forall i, j | 0 <= i < j < |made| :: KeyOf(made[i].input) != KeyOf(made[j].input)
  {
    if |keys| > 0 {
      var n := |keys| - 1;
      ClosuresDistinct(log, keys[..n], ids, now, ttl);
      ClosuresShape(log, keys[..n], ids, now, ttl);
      var before, made := Closures(log, keys[..n], ids, now, ttl), Closures(log, keys, ids, now, ttl);
      forall i, j | 0 <= i < j < |made| ensures KeyOf(made[i].input) != KeyOf(made[j].input) {
        assert IsClosure(log, keys[..n], before[i], ids(i), now, ttl);
        assert made[i] == before[i] && KeyOf(made[i].input) in keys[..n];
      }
    }
  }

  lemma SweptKeyHasEnd(log: Log, ids: nat -> string, now: int, ttl: nat, key: string)
    requires Overdue(log, key, now, ttl)
    ensures var e := KeyEnd(SweepLog(log, ids, now, ttl), key);
            e.Some? && SweepLog(log, ids, now, ttl)[e.value].input.recordedAt >= now
  {
    var made := Closures(log, StartKeys(log), ids, now, ttl);
    ClosuresShape(log, StartKeys(log), ids, now, ttl);
    StartKeysAreKeysWithStarts(log, key);
    ClosuresComplete(log, StartKeys(log), ids, now, ttl, key);
    var i :| 0 <= i < |made| && KeyOf(made[i].input) == key;
    assert IsClosure(log, StartKeys(log), made[i], ids(i), now, ttl);
    assert WithKey(key, SessionEnd)((log + made)[|log| + i].input);
  }

  lemma UnsweptKeyIsSame(log: Log, ids: nat -> string, now: int, ttl: nat, key: string)
    ensures KeyStart(SweepLog(log, ids, now, ttl), key) == KeyStart(log, key)
    ensures !Overdue(log, key, now, ttl) ==> KeyEnd(SweepLog(log, ids, now, ttl), key) == KeyEnd(log, key)
  {
    var made := Closures(log, StartKeys(log), ids, now, ttl);
    ClosuresShape(log, StartKeys(log), ids, now, ttl);
    forall i | 0 <= i < |made|
      ensures !WithKey(key, SessionStart)(made[i].input)
      ensures !Overdue(log, key, now, ttl) ==> !WithKey(key, SessionEnd)(made[i].input)
    {
      assert IsClosure(log, StartKeys(log), made[i], ids(i), now, ttl);
    }
    LatestIgnores(log, made, WithKey(key, SessionStart));
    if !Overdue(log, key, now, ttl) { LatestIgnores(log, made, WithKey(key, SessionEnd)); }
  }

  /** After a sweep no key is overdue at that time. */
  lemma NothingOverdueAfterSweep(log: Log, ids: nat -> string, now: int, ttl: nat, key: string)
    ensures !Overdue(SweepLog(log, ids, now, ttl), key, now, ttl)
  {
    UnsweptKeyIsSame(log, ids, now, ttl, key);
    if Overdue(log, key, now, ttl) { SweptKeyHasEnd(log, ids, now, ttl, key); }
  }

  lemma {:induction false} NoClosures(log: Log, keys: seq<string>, ids: nat -> string, now: int, ttl: nat)
    requires forall k | k in keys :: !Overdue(log, k, now, ttl)
    ensures Closures(log, keys, ids, now, ttl) == []
  {
    if |keys| > 0 { NoClosures(log, keys[..|keys| - 1], ids, now, ttl); }
  }

  /** Repeating a sweep at the same time is a no-op. */
  lemma SweepTwice(log: Log, ids: nat -> string, more: nat -> string, now: int, ttl: nat)
    ensures SweepLog(SweepLog(log, ids, now, ttl), more, now, ttl) == SweepLog(log, ids, now, ttl)
  {
    var swept := SweepLog(log, ids, now, ttl);
    forall k | k in StartKeys(swept) { NothingOverdueAfterSweep(log, ids, now, ttl, k); }
    NoClosures(swept, StartKeys(swept), more, now, ttl);
  }

  // ---- colons ----

  predicate ColonFree(s: string) { ':' !in s }

  /** The key determines the pair when session ids carry no colon. */
  lemma KeyDeterminesPair(s1: SessionId, p1: ParticipantId, s2: SessionId, p2: ParticipantId)
    requires ColonFree(s1) && ColonFree(s2) && Key(s1, p1) == Key(s2, p2)
    ensures s1 == s2 && p1 == p2
  {
    var k := Key(s1, p1);
    assert k[|s1|] == ':' && k[|s2|] == ':';
    assert forall i | 0 <= i < |s1| :: s1[i] in s1 && k[i] == s1[i];
    assert forall i | 0 <= i < |s2| :: s2[i] in s2 && k[i] == s2[i];
    assert s1 == k[..|s1|] && s2 == k[..|s2|];
    assert p1 == k[|s1| + 1..] && p2 == k[|s2| + 1..];
  }

  /** A session id with a colon after its first character shares a key with another pair. */
  lemma ColonCollides(sid: SessionId, pid: ParticipantId, c: nat)
    requires 0 < c < |sid| && sid[c] == ':' && |pid| > 0
    ensures var s2, p2 := sid[..c], sid[c + 1..] + ":" + pid;
            |s2| > 0 && |p2| > 0 && s2 != sid && Key(s2, p2) == Key(sid, pid)
  {
    assert sid == sid[..c] + [':'] + sid[c + 1..];
  }

  predicate ColonFreeLog(log: Log) {
    forall r | r in log :: ColonFree(r.input.sid)
  }

  lemma ColonFreeIsUnshadowed(log: Log, sid: SessionId, pid: ParticipantId)
    requires ColonFreeLog(log)
    ensures !Shadowed(log, sid, pid)
  {
    var s := LatestStart(log, sid, pid);
    if s.Some? {
      assert log[s.value] in log && ColonFree(sid);
      forall i | 0 <= i < |log| && KeyOf(log[i].input) == Key(sid, pid)
        ensures log[i].input.sid == sid && log[i].input.pid == pid
      {
        assert log[i] in log;
        KeyDeterminesPair(log[i].input.sid, log[i].input.pid, sid, pid);
      }
    }
  }

  /** With colon-free session ids a sweep closes every overdue pair. */
  lemma SweepClosesOverdue(log: Log, ids: nat -> string, now: int, ttl: nat, sid: SessionId, pid: ParticipantId)
    requires ColonFreeLog(log) && LatestStart(log, sid, pid).Some?
    requires now - log[LatestStart(log, sid, pid).value].input.recordedAt >= ttl
    ensures Closed(SweepLog(log, ids, now, ttl), sid, pid)
  {
    if Closed(log, sid, pid) {
      SweepMakesOnlyEnds(log, ids, now, ttl, sid, pid);
      ClosedStays(log, Closures(log, StartKeys(log), ids, now, ttl), sid, pid);
    } else {
      ColonFreeIsUnshadowed(log, sid, pid);
      SweepClosesIffNotShadowed(log, ids, now, ttl, sid, pid);
    }
  }

  /** The pair's latest start has no end at or after it, and is at least `ttl` old. */
  predicate OpenAndOverdue(log: Log, sid: SessionId, pid: ParticipantId, now: int, ttl: nat) {
    var s := LatestStart(log, sid, pid);
    s.Some? && !Closed(log, sid, pid) && now - log[s.value].input.recordedAt >= ttl
  }

  predicate IsOf(r: AuditRecord, sid: SessionId, pid: ParticipantId) { r.input.sid == sid && r.input.pid == pid }

  lemma MadeWasOverdue(
    log: Log, ids: nat -> string, now: int, ttl: nat, i: nat, sid: SessionId, pid: ParticipantId)
    requires var made := Closures(log, StartKeys(log), ids, now, ttl); i < |made| && IsOf(made[i], sid, pid)
    ensures OpenAndOverdue(log, sid, pid, now, ttl)
  {
    ClosuresShape(log, StartKeys(log), ids, now, ttl);
    assert IsClosure(log, StartKeys(log), Closures(log, StartKeys(log), ids, now, ttl)[i], ids(i), now, ttl);
    PairEndOlder(log, Key(sid, pid), now, ttl);
  }

  lemma OverdueIsMade(log: Log, ids: nat -> string, now: int, ttl: nat, sid: SessionId, pid: ParticipantId)
    requires ColonFreeLog(log) && OpenAndOverdue(log, sid, pid, now, ttl)
    ensures var made := Closures(log, StartKeys(log), ids, now, ttl);
            exists i :: 0 <= i < |made| && IsOf(made[i], sid, pid)
  {
    var key, made := Key(sid, pid), Closures(log, StartKeys(log), ids, now, ttl);
    ColonFreeIsUnshadowed(log, sid, pid);
    UnshadowedIsOverdue(log, now, ttl, sid, pid);
    StartKeysAreKeysWithStarts(log, key);
    ClosuresComplete(log, StartKeys(log), ids, now, ttl, key);
    var i :| 0 <= i < |made| && KeyOf(made[i].input) == key;
    ClosuresShape(log, StartKeys(log), ids, now, ttl);
    assert IsClosure(log, StartKeys(log), made[i], ids(i), now, ttl);
    assert IsOf(made[i], sid, pid);
  }

  /** ... and makes exactly one end for a pair that was open and overdue, none otherwise. */
  lemma OneEndPerOverduePair(log: Log, ids: nat -> string, now: int, ttl: nat, sid: SessionId, pid: ParticipantId)
    requires ColonFreeLog(log)
    ensures var made := Closures(log, StartKeys(log), ids, now, ttl);
            && (forall i, j | 0 <= i < j < |made| :: !IsOf(made[j], made[i].input.sid, made[i].input.pid))
            && ((exists i :: 0 <= i < |made| && IsOf(made[i], sid, pid)) <==> OpenAndOverdue(log, sid, pid, now, ttl))
  {
    var made := Closures(log, StartKeys(log), ids, now, ttl);
    StartKeysDistinct(log);
    ClosuresDistinct(log, StartKeys(log), ids, now, ttl);
    if OpenAndOverdue(log, sid, pid, now, ttl) {
      OverdueIsMade(log, ids, now, ttl, sid, pid);
    } else if i :| 0 <= i < |made| && IsOf(made[i], sid, pid) {
      MadeWasOverdue(log, ids, now, ttl, i, sid, pid);
    }
  }

  function RecordOf(e: AuditInput): AuditRecord { AuditRecord(e, [AuditReport(e.source, e.recordedAt)]) }

  lemma FirstRecord(start: AuditInput)
    requires start.kind.SessionStart?
    ensures RecordAll([start]) == [RecordOf(start)]
  {
    assert [start][..0] == [];
  }

  lemma SecondRecord(start: AuditInput, end: AuditInput)
    requires start.eventId != end.eventId && start.kind.SessionStart? && start.sid != end.sid
    ensures RecordEntry([RecordOf(start)], end) == [RecordOf(start), RecordOf(end)]
  {
    assert FindEvent([RecordOf(start)], end.eventId).None?;
    assert LatestEnd([RecordOf(start)], end.sid, end.pid).None?;
  }

  lemma TwoRecords(start: AuditInput, end: AuditInput)
    requires start.eventId != end.eventId && start.kind.SessionStart? && start.sid != end.sid
    ensures RecordAll([start, end]) == [RecordOf(start), RecordOf(end)]
  {
    FirstRecord(start);
    SecondRecord(start, end);
    assert [start, end][..1] == [start];
  }

  /** One pair has a start and no end, and another with the same key has a later end. */
  lemma HiddenByOther(start: AuditInput, end: AuditInput)
    requires start.kind.SessionStart? && end.kind.SessionEnd? && start.sid != end.sid
    requires KeyOf(start) == KeyOf(end) && end.recordedAt >= start.recordedAt
    ensures var log := [RecordOf(start), RecordOf(end)];
            !Closed(log, start.sid, start.pid) && Shadowed(log, start.sid, start.pid)
  {
    var log := [RecordOf(start), RecordOf(end)];
    assert Of(start.sid, start.pid, SessionStart)(log[0].input);
    assert LatestStart(log, start.sid, start.pid) == Some(0);
    assert LatestEnd(log, start.sid, start.pid) == None;
    assert KeyOf(log[1].input) == Key(start.sid, start.pid);
  }

  /** With a colon in a session id an overdue pair can stay open: the end of another pair
      with the same key hides it. */
  lemma ColonHidesOpenSession(ids: nat -> string)
    ensures var start := AuditInput("e1", "a", "b:c", SessionStart, Client, 0);
            var end := AuditInput("e2", "a:b", "c", SessionEnd, Client, 10);
            var log := RecordAll([start, end]);
            !Closed(log, "a", "b:c") && !Closed(SweepLog(log, ids, 100000, 15000), "a", "b:c")
  {
    var start := AuditInput("e1", "a", "b:c", SessionStart, Client, 0);
    var end := AuditInput("e2", "a:b", "c", SessionEnd, Client, 10);
    assert KeyOf(start) == "a:b:c" == KeyOf(end);
    TwoRecords(start, end);
    HiddenByOther(start, end);
    ShadowedIsSkipped([RecordOf(start), RecordOf(end)], ids, 100000, 15000, "a", "b:c");
  }

  // ---- bounded time to closure ----

  /** Later records other than the pair's starts leave a closed pair closed. */
  lemma ClosedStays(log: Log, made: Log, sid: SessionId, pid: ParticipantId)
    requires Closed(log, sid, pid)
    requires forall i | 0 <= i < |made| :: !Of(sid, pid, SessionStart)(made[i].input)
    ensures Closed(log + made, sid, pid)
  {
    LatestIgnores(log, made, Of(sid, pid, SessionStart));
    var e := LatestEnd(log, sid, pid);
    if e.Some? { assert Of(sid, pid, SessionEnd)((log + made)[e.value].input); }
  }

  datatype AuditOp = Report(entry: AuditInput) | SweepAt(time: int, ids: nat -> string)

  function TimeOf(op: AuditOp): int { if op.Report? then op.entry.recordedAt else op.time }

  function ApplyOp(log: Log, op: AuditOp, ttl: nat): Log {
    match op
    case Report(entry) => RecordEntry(log, entry)
    case SweepAt(now, ids) => SweepLog(log, ids, now, ttl)
  }

  function RunOps(ops: seq<AuditOp>, ttl: nat): Log {
    if |ops| == 0 then [] else ApplyOp(RunOps(ops[..|ops| - 1], ttl), ops[|ops| - 1], ttl)
  }

  predicate ValidOps(ops: seq<AuditOp>) {
    && (forall i, j | 0 <= i < j < |ops| :: TimeOf(ops[i]) <= TimeOf(ops[j]))
    && forall i | 0 <= i < |ops| && ops[i].Report? :: ColonFree(ops[i].entry.sid)
  }

  /** Every pair whose latest start is more than `ttl` older than `w` is closed. */
  ghost predicate ClosedBefore(log: Log, ttl: nat, w: int) {
    forall sid, pid :: ClosedBeforeAt(log, ttl, w, sid, pid)
  }

  lemma {:induction false} RunIsColonFree(ops: seq<AuditOp>, ttl: nat)
    requires ValidOps(ops)
    ensures ColonFreeLog(RunOps(ops, ttl))
  {
    if |ops| > 0 {
      var n := |ops| - 1;
      var log := RunOps(ops[..n], ttl);
      RunIsColonFree(ops[..n], ttl);
      match ops[n] {
        case Report(entry) =>
        case SweepAt(now, ids) =>
          var made := Closures(log, StartKeys(log), ids, now, ttl);
          ClosuresShape(log, StartKeys(log), ids, now, ttl);
          forall i | 0 <= i < |made| ensures ColonFree(made[i].input.sid) {
            assert IsClosure(log, StartKeys(log), made[i], ids(i), now, ttl);
            var k := KeyStart(log, KeyOf(made[i].input)).value;
            assert log[k] in log;
          }
      }
    }
  }

  /** A later report leaves the pair as it was, or is its new start. */
  lemma ReportKeepsClosed(log: Log, entry: AuditInput, sid: SessionId, pid: ParticipantId)
    requires !Of(sid, pid, SessionStart)(entry) || Converges(log, entry).Some?
    ensures LatestStart(RecordEntry(log, entry), sid, pid) == LatestStart(log, sid, pid)
    ensures Closed(log, sid, pid) ==> Closed(RecordEntry(log, entry), sid, pid)
  {
    match Converges(log, entry) {
      case Some(i) =>
        AddReportKeepsCounts(log, i, AuditReport(entry.source, entry.recordedAt), Of(sid, pid, SessionStart), 0);
        AddReportKeepsCounts(log, i, AuditReport(entry.source, entry.recordedAt), Of(sid, pid, SessionEnd), 0);
      case None =>
        var added := [AuditRecord(entry, [AuditReport(entry.source, entry.recordedAt)])];
        assert RecordEntry(log, entry) == log + added;
        LatestIgnores(log, added, Of(sid, pid, SessionStart));
        if Closed(log, sid, pid) { ClosedStays(log, added, sid, pid); }
    }
  }

  /** A new start is the pair's latest no earlier than itself. */
  lemma NewStartIsLate(log: Log, entry: AuditInput, sid: SessionId, pid: ParticipantId)
    requires Of(sid, pid, SessionStart)(entry) && Converges(log, entry).None?
    ensures var later := RecordEntry(log, entry);
            var s := LatestStart(later, sid, pid);
            s.Some? && later[s.value].input.recordedAt >= entry.recordedAt
  {
    var later := RecordEntry(log, entry);
    assert later[|log|].input == entry;
  }

  ghost predicate ClosedBeforeAt(log: Log, ttl: nat, w: int, sid: SessionId, pid: ParticipantId) {
    var s := LatestStart(log, sid, pid);
    s.Some? && log[s.value].input.recordedAt + ttl < w ==> Closed(log, sid, pid)
  }

  lemma ClosedBeforeStepAt(log: Log, op: AuditOp, ttl: nat, w: int, sid: SessionId, pid: ParticipantId)
    requires ClosedBeforeAt(log, ttl, w, sid, pid) && TimeOf(op) >= w
    ensures ClosedBeforeAt(ApplyOp(log, op, ttl), ttl, w, sid, pid)
  {
    match op {
      case Report(entry) =>
        RecordExtends(log, entry);
        if !Of(sid, pid, SessionStart)(entry) || Converges(log, entry).Some? {
          ReportKeepsClosed(log, entry, sid, pid);
        } else {
          NewStartIsLate(log, entry, sid, pid);
        }
      case SweepAt(now, ids) =>
        SweepMakesOnlyEnds(log, ids, now, ttl, sid, pid);
        if Closed(log, sid, pid) { ClosedStays(log, Closures(log, StartKeys(log), ids, now, ttl), sid, pid); }
    }
  }

  lemma ClosedBeforeStep(log: Log, op: AuditOp, ttl: nat, w: int)
    requires ClosedBefore(log, ttl, w) && TimeOf(op) >= w
    ensures ClosedBefore(ApplyOp(log, op, ttl), ttl, w)
  {
    var later := ApplyOp(log, op, ttl);
    forall sid, pid ensures ClosedBeforeAt(later, ttl, w, sid, pid) {
      assert ClosedBeforeAt(log, ttl, w, sid, pid);
      ClosedBeforeStepAt(log, op, ttl, w, sid, pid);
    }
  }

  lemma {:induction false} ClosedBeforeSweep(ops: seq<AuditOp>, k: nat, ttl: nat)
    requires ValidOps(ops) && k < |ops| && ops[k].SweepAt?
    ensures ClosedBefore(RunOps(ops, ttl), ttl, ops[k].time)
    decreases |ops|
  {
    hide SweepLog, ColonFreeLog, Closed;
    var n := |ops| - 1;
    if k < n {
      ClosedBeforeSweep(ops[..n], k, ttl);
      ClosedBeforeStep(RunOps(ops[..n], ttl), ops[n], ttl, ops[k].time);
    } else {
      RunIsColonFree(ops[..n], ttl);
      SweepClosesBefore(RunOps(ops[..n], ttl), ops[n], ttl);
    }
  }

  lemma SweepClosesBefore(log: Log, op: AuditOp, ttl: nat)
    requires op.SweepAt? && ColonFreeLog(log)
    ensures ClosedBefore(SweepLog(log, op.ids, op.time, ttl), ttl, op.time)
  {
    hide SweepLog, ColonFreeLog, ClosedBeforeAt;
    forall sid, pid ensures ClosedBeforeAt(SweepLog(log, op.ids, op.time, ttl), ttl, op.time, sid, pid) {
      SweepClosesBeforeAt(log, op, ttl, sid, pid);
    }
  }

  lemma SweepClosesBeforeAt(log: Log, op: AuditOp, ttl: nat, sid: SessionId, pid: ParticipantId)
    requires op.SweepAt? && ColonFreeLog(log)
    ensures ClosedBeforeAt(SweepLog(log, op.ids, op.time, ttl), ttl, op.time, sid, pid)
  {
    hide ColonFreeLog, Closures, StartKeys, Closed;
    SweepMakesOnlyEnds(log, op.ids, op.time, ttl, sid, pid);
    var s := LatestStart(log, sid, pid);
    if s.Some? && log[s.value].input.recordedAt + ttl < op.time {
      SweepClosesOverdue(log, op.ids, op.time, ttl, sid, pid);
    }
  }

  /** If the latest sweep is at most `interval` ago, no latest start has been unclosed for
      longer than ttl + interval. */
  lemma UnclosedTimeIsBounded(
    ops: seq<AuditOp>, ttl: nat, interval: nat, t: int, sid: SessionId, pid: ParticipantId)
    requires ValidOps(ops)
    requires exists k :: 0 <= k < |ops| && ops[k].SweepAt? && t - interval <= ops[k].time
    ensures var log := RunOps(ops, ttl);
            var s := LatestStart(log, sid, pid);
            s.Some? && !Closed(log, sid, pid) ==> t <= log[s.value].input.recordedAt + ttl + interval
  {
    var k :| 0 <= k < |ops| && ops[k].SweepAt? && t - interval <= ops[k].time;
    ClosedBeforeSweep(ops, k, ttl);
    assert ClosedBeforeAt(RunOps(ops, ttl), ttl, ops[k].time, sid, pid);
  }
}
