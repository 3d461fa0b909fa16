/** The chaos layer between a send and the wire (apps/server/src/services/ChaosMiddleware.ts). */
module Chaos {
  import opened Wrappers
  import opened Protocol
  import opened Arithmetic

  const MAX_DROP_RATE: real := 0.5
  const MAX_DUPLICATE_RATE: real := 0.2
  const MAX_LATENCY_MS: real := 2000.0
  const MAX_JITTER_MS: real := 500.0
  const MAX_REORDER_WINDOW: nat := 10
  const MAX_PARTITION_MS: real := 30000.0
  const REORDER_MAX_HOLD_MS: real := 200.0

  // ---- configuration ----

  datatype Number = Finite(r: real) | NotFinite

  function Clamp(v: Number, min: real, max: real): real {
    if v.NotFinite? then min else if v.r < min then min else if v.r > max then max else v.r
  }

  datatype ChaosConfig = ChaosConfig(
    dropRate: real, duplicateRate: real, latencyMs: real, jitterMs: real, reorderWindow: int)

  const DEFAULT_CHAOS_CONFIG := ChaosConfig(0.0, 0.0, 0.0, 0.0, 0)

  /** The knobs a caller may set; None leaves one as it is. */
  datatype ConfigPatch = ConfigPatch(
    dropRate: Option<Number>, duplicateRate: Option<Number>, latencyMs: Option<Number>,
    jitterMs: Option<Number>, reorderWindow: Option<Number>)

  function OrElse(v: Option<Number>, current: real): Number {
    if v.Some? then v.value else Finite(current)
  }

  function Configured(c: ChaosConfig, p: ConfigPatch): ChaosConfig {
    ChaosConfig(
      Clamp(OrElse(p.dropRate, c.dropRate), 0.0, MAX_DROP_RATE),
      Clamp(OrElse(p.duplicateRate, c.duplicateRate), 0.0, MAX_DUPLICATE_RATE),
      Clamp(OrElse(p.latencyMs, c.latencyMs), 0.0, MAX_LATENCY_MS),
      Clamp(OrElse(p.jitterMs, c.jitterMs), 0.0, MAX_JITTER_MS),
      (Clamp(OrElse(p.reorderWindow, c.reorderWindow as real), 0.0, MAX_REORDER_WINDOW as real) + 0.5).Floor)
  }

  // ---- the state ----

  /** A message is named by the index of its send. */
  datatype SendRecord = SendRecord(pid: ParticipantId, at: real)

  /** A message with a time: a timer due then, or a write made then. */
  datatype Timed = Timed(id: nat, at: real)

  /** The layer's own fields are `config`, `partitionEndsAt` and `buffers`. `now` is the
      clock, `holds` and `flights` are its pending timers, `wire` the raw sends made; the
      rest records what became of each message. */
  datatype ChaosState = ChaosState(
    config: ChaosConfig,
    partitionEndsAt: Option<real>,
    buffers: map<ParticipantId, seq<nat>>,
    now: real,
    holds: seq<Timed>,
    flights: seq<Timed>,
    wire: seq<Timed>,
    sends: seq<SendRecord>,
    dropped: seq<nat>,
    discarded: set<nat>,
    dispatched: seq<nat>,
    rolledOut: seq<nat>)

  const CLEAN := ChaosState(DEFAULT_CHAOS_CONFIG, None, map[], 0.0, [], [], [], [], [], {}, [], [])

  /** The random numbers one dispatch may draw, each in [0, 1). */
  datatype Rolls = Rolls(drop: real, jitter: real, duplicate: real, jitterAgain: real)

  predicate ValidRolls(r: Rolls) { Unit(r.drop) && Unit(r.jitter) && Unit(r.duplicate) && Unit(r.jitterAgain) }

  // ---- what each operation does ----

  /** Uniform between plus and minus `ms`. */
  function Jitter(roll: real, ms: real): real { (roll * 2.0 - 1.0) * ms }

  function Delay(c: ChaosConfig, roll: real): real {
    var jitter := if c.jitterMs > 0.0 then Jitter(roll, c.jitterMs) else 0.0;
    if c.latencyMs + jitter > 0.0 then c.latencyMs + jitter else 0.0
  }

  function Deliver(s: ChaosState, id: nat, roll: real): ChaosState {
    var delay := Delay(s.config, roll);
    if delay <= 0.0 then s.(wire := s.wire + [Timed(id, s.now)])
    else s.(flights := s.flights + [Timed(id, s.now + delay)])
  }

  function Dispatch(s: ChaosState, id: nat, r: Rolls): ChaosState {
    var d := s.(dispatched := s.dispatched + [id]);
    if r.drop < s.config.dropRate then d.(rolledOut := d.rolledOut + [id])
    else
      var once := Deliver(d, id, r.jitter);
      if r.duplicate < s.config.duplicateRate then Deliver(once, id, r.jitterAgain) else once
  }

  predicate IsPartitioned(s: ChaosState) {
    s.partitionEndsAt.Some? && s.now < s.partitionEndsAt.value
  }

  function RemoveAt<T>(s: seq<T>, k: nat): seq<T>
    requires k < |s|
  {
    s[..k] + s[k + 1..]
  }

  function Buffer(s: ChaosState, pid: ParticipantId): seq<nat> {
    if pid in s.buffers then s.buffers[pid] else []
  }

  /** Entry `k` of a buffer is released. */
  function Release(s: ChaosState, pid: ParticipantId, k: nat, r: Rolls): ChaosState
    requires k < |Buffer(s, pid)|
  {
    Dispatch(s.(buffers := s.buffers[pid := RemoveAt(Buffer(s, pid), k)]), Buffer(s, pid)[k], r)
  }

  function Sent(s: ChaosState, pid: ParticipantId): ChaosState {
    s.(sends := s.sends + [SendRecord(pid, s.now)])
  }

  function Pushed(s: ChaosState, pid: ParticipantId): ChaosState {
    Appended(Sent(s, pid), pid, |s.sends|)
  }

  function Appended(s: ChaosState, pid: ParticipantId, id: nat): ChaosState {
    s.(buffers := s.buffers[pid := Buffer(s, pid) + [id]])
  }

  /** Buffers a message, releases one at random on overflow, and arms its fallback timer. */
  function HeldBack(s: ChaosState, pid: ParticipantId, id: nat, pick: real, r: Rolls): ChaosState
    requires Unit(pick)
  {
    var pushed := Appended(s, pid, id);
    var n := |Buffer(pushed, pid)|;
    var t := if n > s.config.reorderWindow then Release(pushed, pid, FloorScaled(pick, n), r) else pushed;
    t.(holds := t.holds + [Timed(id, s.now + REORDER_MAX_HOLD_MS)])
  }

  function Send(s: ChaosState, pid: ParticipantId, pick: real, r: Rolls): ChaosState
    requires Unit(pick)
  {
    var id := |s.sends|;
    if IsPartitioned(s) then Sent(s, pid).(dropped := s.dropped + [id])
    else if s.config.reorderWindow <= 0 then Dispatch(Sent(s, pid), id, r)
    else HeldBack(Sent(s, pid), pid, id, pick, r)
  }

  /** The position of a message in a buffer. */
  function IndexIn(b: seq<nat>, id: nat): (k: Option<nat>)
    ensures k.Some? ==> k.value < |b| && b[k.value] == id
    ensures k.None? ==> id !in b
  {
    if |b| == 0 then None
    else if b[|b| - 1] == id then Some(|b| - 1)
    else IndexIn(b[..|b| - 1], id)
  }

  /** Hold timer `k` fires: a no-op if its message was already released. */
  function HoldFires(s: ChaosState, k: nat, r: Rolls): ChaosState
    requires k < |s.holds| && s.holds[k].id < |s.sends|
  {
    var id := s.holds[k].id;
    var pid := s.sends[id].pid;
    var t := s.(holds := RemoveAt(s.holds, k));
    var at := IndexIn(Buffer(s, pid), id);
    if at.None? then t else Release(t, pid, at.value, r)
  }

  /** Latency timer `k` fires. */
  function Lands(s: ChaosState, k: nat): ChaosState
    requires k < |s.flights|
  {
    s.(flights := RemoveAt(s.flights, k), wire := s.wire + [Timed(s.flights[k].id, s.now)])
  }

  function DispatchEach(s: ChaosState, ids: seq<nat>, rolls: nat -> Rolls): ChaosState {
    if |ids| == 0 then s else Dispatch(DispatchEach(s, ids[..|ids| - 1], rolls), ids[|ids| - 1], rolls(|ids| - 1))
  }

  function FlushOne(s: ChaosState, pid: ParticipantId, rolls: nat -> Rolls): ChaosState {
    DispatchEach(s.(buffers := s.buffers - {pid}), Buffer(s, pid), rolls)
  }

  /** `targets` is one pid, or every key in the Map's order. */
  function Flush(s: ChaosState, targets: seq<ParticipantId>, rolls: nat -> nat -> Rolls): ChaosState {
    if |targets| == 0 then s
    else FlushOne(Flush(s, targets[..|targets| - 1], rolls), targets[|targets| - 1], rolls(|targets| - 1))
  }

  predicate IsBuffered(s: ChaosState, id: nat) {
    id < |s.sends| && id in Buffer(s, s.sends[id].pid)
  }

  function Reset(s: ChaosState): ChaosState {
    s.(config := DEFAULT_CHAOS_CONFIG, partitionEndsAt := None, buffers := map[],
       discarded := s.discarded + set id: nat | 0 <= id < |s.sends| && IsBuffered(s, id))
  }

  function StartPartition(s: ChaosState, duration: Number): ChaosState {
    s.(partitionEndsAt := Some(s.now + Clamp(duration, 0.0, MAX_PARTITION_MS)))
  }

  class ChaosMiddleware {
    var config: ChaosConfig
    var partitionEndsAt: Option<real>
    var reorderBuffers: map<ParticipantId, seq<nat>>
    /** The environment: the clock, the timers pending, the raw sends made. */
    var now: real
    var holds: seq<Timed>
    var flights: seq<Timed>
    var wire: seq<Timed>
    ghost var sends: seq<SendRecord>
    ghost var dropped: seq<nat>
    ghost var discarded: set<nat>
    ghost var dispatched: seq<nat>
    ghost var rolledOut: seq<nat>
    var nextId: nat

    constructor ()
      ensures Valid() && State() == CLEAN
    {
      config, partitionEndsAt, reorderBuffers := DEFAULT_CHAOS_CONFIG, None, map[];
      now, holds, flights, wire, nextId := 0.0, [], [], [], 0;
      sends, dropped, discarded, dispatched, rolledOut := [], [], {}, [], [];
    }

    ghost predicate Valid()
      reads this
    {
      nextId == |sends|
    }

    ghost function State(): ChaosState
      reads this
    {
      ChaosState(config, partitionEndsAt, reorderBuffers, now, holds, flights, wire,
                 sends, dropped, discarded, dispatched, rolledOut)
    }

    /** Whatever is asked for, every knob ends within its ceiling; what each request means is
        `ConfiguredOk` and `ConfiguredMeans`. */
    method Configure(partial: ConfigPatch)
      requires Valid()
      modifies this`config
      ensures Valid() && config == Configured(old(config), partial) && ConfigOk(config)
    {
      config := Configured(config, partial);
      ConfiguredOk(old(config), partial);
    }

    method ResetAll()
      requires Valid()
      modifies this
      ensures Valid() && State() == Reset(old(State()))
    {
      discarded := discarded + set id: nat | 0 <= id < |sends| && IsBuffered(State(), id);
      config := DEFAULT_CHAOS_CONFIG;
      partitionEndsAt := None;
      reorderBuffers := map[];
    }

    method BeginPartition(duration: Number) returns (endsAt: real)
      requires Valid()
      modifies this
      ensures Valid() && State() == StartPartition(old(State()), duration) && partitionEndsAt == Some(endsAt)
    {
      endsAt := now + Clamp(duration, 0.0, MAX_PARTITION_MS);
      partitionEndsAt := Some(endsAt);
    }

    method SendMessage(pid: ParticipantId, pick: real, rolls: Rolls)
      requires Valid() && Unit(pick)
      modifies this
      ensures Valid() && State() == Send(old(State()), pid, pick, rolls)
    {
      var id := nextId;
      nextId := nextId + 1;
      sends := sends + [SendRecord(pid, now)];
      if partitionEndsAt.Some? && now < partitionEndsAt.value {
        dropped := dropped + [id];
        return;
      }
      var window := config.reorderWindow;
      if window <= 0 {
        DispatchMessage(id, rolls);
        return;
      }
      HoldBack(pid, id, pick, rolls);
    }

    /** The reordering half of a send: buffer, release one on overflow, arm the fallback timer. */
    method HoldBack(pid: ParticipantId, id: nat, pick: real, rolls: Rolls)
      requires Valid() && Unit(pick)
      modifies this
      ensures Valid()
      ensures State() == HeldBack(old(State()), pid, id, pick, rolls)
    {
      var buffer := if pid in reorderBuffers then reorderBuffers[pid] else [];
      buffer := buffer + [id];
      reorderBuffers := reorderBuffers[pid := buffer];
      if |buffer| > config.reorderWindow {
        var index := FloorScaled(pick, |buffer|);
        ReleaseAt(pid, index, rolls);
      }
      holds := holds + [Timed(id, now + REORDER_MAX_HOLD_MS)];
    }

    method ReleaseAt(pid: ParticipantId, index: nat, rolls: Rolls)
      requires Valid() && index < |Buffer(State(), pid)|
      modifies this
      ensures Valid() && State() == Release(old(State()), pid, index, rolls) && now == old(now)
    {
      var buffer := reorderBuffers[pid];
      var picked := buffer[index];
      buffer := buffer[..index] + buffer[index + 1..];
      reorderBuffers := reorderBuffers[pid := buffer];
      DispatchMessage(picked, rolls);
    }

    method ReleaseIfStillBuffered(k: nat, pid: ParticipantId, rolls: Rolls)
      requires Valid() && k < |holds| && holds[k].id < |sends| && pid == sends[holds[k].id].pid
      modifies this
      ensures Valid() && State() == HoldFires(old(State()), k, rolls)
    {
      var id := holds[k].id;
      holds := holds[..k] + holds[k + 1..];
      if pid !in reorderBuffers { return; }
      var index := IndexIn(reorderBuffers[pid], id);
      if index.None? { return; }
      ReleaseAt(pid, index.value, rolls);
    }

    method FlushBuffers(targets: seq<ParticipantId>, rolls: nat -> nat -> Rolls)
      requires Valid()
      modifies this
      ensures Valid() && State() == Flush(old(State()), targets, rolls)
    {
      var i := 0;
      while i < |targets|
        invariant 0 <= i <= |targets| && Valid()
        invariant State() == Flush(old(State()), targets[..i], rolls)
      {
        assert targets[..i + 1][..i] == targets[..i];
        FlushTarget(targets[i], rolls(i));
        i := i + 1;
      }
      assert targets[..i] == targets;
    }

    method FlushTarget(target: ParticipantId, rolls: nat -> Rolls)
      requires Valid()
      modifies this
      ensures Valid() && State() == FlushOne(old(State()), target, rolls)
    {
      if target !in reorderBuffers {
        assert reorderBuffers - {target} == reorderBuffers;
        return;
      }
      var buffer := reorderBuffers[target];
      reorderBuffers := reorderBuffers - {target};
      ghost var start := State();
      var i := 0;
      while i < |buffer|
        invariant 0 <= i <= |buffer| && Valid()
        invariant State() == DispatchEach(start, buffer[..i], rolls)
      {
        assert buffer[..i + 1][..i] == buffer[..i];
        DispatchMessage(buffer[i], rolls(i));
        i := i + 1;
      }
      assert buffer[..i] == buffer;
    }

    method DispatchMessage(id: nat, rolls: Rolls)
      requires Valid()
      modifies this`wire, this`flights, this`dispatched, this`rolledOut
      ensures Valid() && State() == Dispatch(old(State()), id, rolls)
    {
      dispatched := dispatched + [id];
      if rolls.drop < config.dropRate {
        rolledOut := rolledOut + [id];
        return;
      }
      DeliverMessage(id, rolls.jitter);
      if rolls.duplicate < config.duplicateRate {
        DeliverMessage(id, rolls.jitterAgain);
      }
    }

    method DeliverMessage(id: nat, roll: real)
      requires Valid()
      modifies this`wire, this`flights
      ensures Valid() && State() == Deliver(old(State()), id, roll)
    {
      var delay := Delay(config, roll);
      if delay <= 0.0 {
        wire := wire + [Timed(id, now)];
        return;
      }
      flights := flights + [Timed(id, now + delay)];
    }

    method LatencyTimerFires(k: nat)
      requires Valid() && k < |flights|
      modifies this
      ensures Valid() && State() == Lands(old(State()), k)
    {
      var flight := flights[k];
      flights := flights[..k] + flights[k + 1..];
      wire := wire + [Timed(flight.id, now)];
    }
  }

  // ---- fates ----

  function Occurrences(ids: seq<nat>, id: nat): nat {
    if |ids| == 0 then 0 else Occurrences(ids[..|ids| - 1], id) + if ids[|ids| - 1] == id then 1 else 0
  }

  function CountTimed(ts: seq<Timed>, id: nat): nat {
    if |ts| == 0 then 0 else CountTimed(ts[..|ts| - 1], id) + if ts[|ts| - 1].id == id then 1 else 0
  }

  lemma OccurrencesAppended(ids: seq<nat>, id: nat, o: nat)
    ensures Occurrences(ids + [id], o) == Occurrences(ids, o) + if o == id then 1 else 0
  {
    assert (ids + [id])[..|ids|] == ids;
  }

  lemma CountTimedAppended(ts: seq<Timed>, x: Timed, o: nat)
    ensures CountTimed(ts + [x], o) == CountTimed(ts, o) + if o == x.id then 1 else 0
  {
    assert (ts + [x])[..|ts|] == ts;
  }

  lemma {:induction false} OccurrencesRemoved(ids: seq<nat>, k: nat, o: nat)
    requires k < |ids|
    ensures Occurrences(ids, o) == Occurrences(RemoveAt(ids, k), o) + if o == ids[k] then 1 else 0
  {
    var n := |ids| - 1;
    if k < n {
      OccurrencesRemoved(ids[..n], k, o);
      assert RemoveAt(ids, k)[..n - 1] == RemoveAt(ids[..n], k);
    } else {
      assert RemoveAt(ids, k) == ids[..n];
    }
  }

  lemma {:induction false} CountTimedRemoved(ts: seq<Timed>, k: nat, o: nat)
    requires k < |ts|
    ensures CountTimed(ts, o) == CountTimed(RemoveAt(ts, k), o) + if o == ts[k].id then 1 else 0
  {
    var n := |ts| - 1;
    if k < n {
      CountTimedRemoved(ts[..n], k, o);
      assert RemoveAt(ts, k)[..n - 1] == RemoveAt(ts[..n], k);
    } else {
      assert RemoveAt(ts, k) == ts[..n];
    }
  }

  lemma {:induction false} OccurrencesMember(ids: seq<nat>, id: nat)
    ensures Occurrences(ids, id) > 0 <==> id in ids
  {
    if |ids| > 0 {
      OccurrencesMember(ids[..|ids| - 1], id);
      assert forall x :: x in ids <==> x in ids[..|ids| - 1] || x == ids[|ids| - 1];
    }
  }

  /** How many times a message sits in its own recipient's buffer. */
  function TimesBuffered(s: ChaosState, id: nat): nat {
    if id < |s.sends| then Occurrences(Buffer(s, s.sends[id].pid), id) else 0
  }

  function Copies(s: ChaosState, id: nat): nat { CountTimed(s.flights, id) + CountTimed(s.wire, id) }

  /** How often a message occurs in each place. */
  datatype Tally = Tally(dropped: nat, buffered: nat, discarded: nat, dispatched: nat, rolledOut: nat, copies: nat)
  {
    /** In exactly one place; dispatched, it was rolled out or has one or two copies. */
    predicate OneFate() {
      && dropped + buffered + discarded + dispatched == 1
      && if dispatched == 0 then rolledOut == 0 && copies == 0
         else (rolledOut == 1 && copies == 0) || (rolledOut == 0 && 1 <= copies <= 2)
    }

    /** Not sent yet, or just taken out of a buffer. */
    predicate Nowhere() { this == Tally(0, 0, 0, 0, 0, 0) }
  }

  function TallyOf(s: ChaosState, id: nat): Tally {
    Tally(Occurrences(s.dropped, id), TimesBuffered(s, id), if id in s.discarded then 1 else 0,
          Occurrences(s.dispatched, id), Occurrences(s.rolledOut, id), Copies(s, id))
  }

  /** Message `id` has one fate if it was sent and is not in limbo, and is nowhere otherwise. */
  predicate FateAt(s: ChaosState, limbo: set<nat>, id: nat) {
    if id < |s.sends| && id !in limbo then TallyOf(s, id).OneFate() else TallyOf(s, id).Nowhere()
  }

  ghost predicate FatesExcept(s: ChaosState, limbo: set<nat>) {
    forall id: nat :: FateAt(s, limbo, id)
  }

  /** Buffers hold only their own recipient's messages. */
  predicate BuffersOwn(s: ChaosState) {
    forall pid, k | pid in s.buffers && 0 <= k < |s.buffers[pid]| ::
      s.buffers[pid][k] < |s.sends| && s.sends[s.buffers[pid][k]].pid == pid
  }

  /** Every message sent has exactly one fate, and waits, if it waits, in its own buffer. */
  ghost predicate Accounted(s: ChaosState) { FatesExcept(s, {}) && BuffersOwn(s) }

  lemma DeliverTally(s: ChaosState, id: nat, roll: real, o: nat)
    ensures TallyOf(Deliver(s, id, roll), o) ==
            TallyOf(s, o).(copies := TallyOf(s, o).copies + if o == id then 1 else 0)
  {
    var delay := Delay(s.config, roll);
    CountTimedAppended(s.wire, Timed(id, s.now), o);
    CountTimedAppended(s.flights, Timed(id, s.now + delay), o);
  }

  lemma MarkTally(s: ChaosState, id: nat, o: nat)
    ensures TallyOf(s.(dispatched := s.dispatched + [id]), o) ==
            TallyOf(s, o).(dispatched := TallyOf(s, o).dispatched + if o == id then 1 else 0)
  {
    OccurrencesAppended(s.dispatched, id, o);
  }

  lemma RollOutTally(s: ChaosState, id: nat, o: nat)
    ensures TallyOf(s.(rolledOut := s.rolledOut + [id]), o) ==
            TallyOf(s, o).(rolledOut := TallyOf(s, o).rolledOut + if o == id then 1 else 0)
  {
    OccurrencesAppended(s.rolledOut, id, o);
  }

  /** One or two deliveries add that many copies. */
  lemma DeliveriesTally(d: ChaosState, id: nat, r: Rolls, o: nat)
    ensures var once := Deliver(d, id, r.jitter);
            && TallyOf(once, o) == TallyOf(d, o).(copies := TallyOf(d, o).copies + if o == id then 1 else 0)
            && TallyOf(Deliver(once, id, r.jitterAgain), o) ==
               TallyOf(d, o).(copies := TallyOf(d, o).copies + if o == id then 2 else 0)
  {
    DeliverTally(d, id, r.jitter, o);
    DeliverTally(Deliver(d, id, r.jitter), id, r.jitterAgain, o);
  }

  /** What a dispatch adds to the tally of a message. */
  function Fated(before: Tally, lost: bool, twice: bool): Tally {
    before.(dispatched := before.dispatched + 1,
            rolledOut := before.rolledOut + if lost then 1 else 0,
            copies := before.copies + if lost then 0 else if twice then 2 else 1)
  }

  lemma RolledOutAdds(s: ChaosState, id: nat, r: Rolls, o: nat)
    requires r.drop < s.config.dropRate
    ensures TallyOf(Dispatch(s, id, r), o) == if o != id then TallyOf(s, o) else Fated(TallyOf(s, o), true, false)
  {
    MarkTally(s, id, o);
    RollOutTally(s.(dispatched := s.dispatched + [id]), id, o);
  }

  /** A dispatch that is not rolled out, one delivery or two. */
  lemma DispatchDelivers(s: ChaosState, id: nat, r: Rolls)
    requires r.drop >= s.config.dropRate
    ensures var once := Deliver(s.(dispatched := s.dispatched + [id]), id, r.jitter);
            Dispatch(s, id, r) == if r.duplicate < s.config.duplicateRate then Deliver(once, id, r.jitterAgain)
                else once
  {
  }

  lemma DeliveredOnceAdds(s: ChaosState, id: nat, r: Rolls, o: nat)
    requires r.drop >= s.config.dropRate && r.duplicate >= s.config.duplicateRate
    ensures TallyOf(Dispatch(s, id, r), o) == if o != id then TallyOf(s, o) else Fated(TallyOf(s, o), false, false)
  {
    var d := s.(dispatched := s.dispatched + [id]);
    MarkTally(s, id, o);
    DeliverTally(d, id, r.jitter, o);
    DispatchDelivers(s, id, r);
  }

  lemma DeliveredTwiceAdds(s: ChaosState, id: nat, r: Rolls, o: nat)
    requires r.drop >= s.config.dropRate && r.duplicate < s.config.duplicateRate
    ensures TallyOf(Dispatch(s, id, r), o) == if o != id then TallyOf(s, o) else Fated(TallyOf(s, o), false, true)
  {
    var d := s.(dispatched := s.dispatched + [id]);
    MarkTally(s, id, o);
    DeliveriesTally(d, id, r, o);
    DispatchDelivers(s, id, r);
  }

  /** Dispatch turns a message that was nowhere into one with a fate, and moves no other. */
  lemma DispatchTally(s: ChaosState, id: nat, r: Rolls, o: nat)
    ensures o != id ==> TallyOf(Dispatch(s, id, r), o) == TallyOf(s, o)
    ensures o == id && TallyOf(s, id).Nowhere() ==> TallyOf(Dispatch(s, id, r), id).OneFate()
  {
    if r.drop < s.config.dropRate {
      RolledOutAdds(s, id, r, o);
    } else if r.duplicate < s.config.duplicateRate {
      DeliveredTwiceAdds(s, id, r, o);
    } else {
      DeliveredOnceAdds(s, id, r, o);
    }
  }

  /** One message of `limbo` finds its fate and no tally but its own moves. */
  lemma FateSettles(s: ChaosState, t: ChaosState, limbo: set<nat>, id: nat, o: nat)
    requires FateAt(s, limbo, o) && t.sends == s.sends && id < |s.sends|
    requires o != id ==> TallyOf(t, o) == TallyOf(s, o)
    requires o == id ==> TallyOf(t, o).OneFate()
    ensures FateAt(t, limbo - {id}, o)
  {
  }

  lemma DispatchFate(s: ChaosState, id: nat, r: Rolls, limbo: set<nat>)
    requires FatesExcept(s, limbo) && id in limbo && id < |s.sends|
    ensures FatesExcept(Dispatch(s, id, r), limbo - {id})
  {
    var t := Dispatch(s, id, r);
    assert t.sends == s.sends;
    var left := limbo - {id};
    forall o: nat ensures FateAt(t, left, o) {
      assert FateAt(s, limbo, o);
      DispatchTally(s, id, r, o);
      FateSettles(s, t, limbo, id, o);
    }
  }

  function WithoutEntry(s: ChaosState, pid: ParticipantId, k: nat): ChaosState
    requires k < |Buffer(s, pid)|
  {
    s.(buffers := s.buffers[pid := RemoveAt(Buffer(s, pid), k)])
  }

  lemma EntryOwn(s: ChaosState, pid: ParticipantId, k: nat)
    requires BuffersOwn(s) && k < |Buffer(s, pid)|
    ensures Buffer(s, pid)[k] < |s.sends| && s.sends[Buffer(s, pid)[k]].pid == pid
  {
    assert s.buffers[pid][k] < |s.sends|;
  }

  lemma TakeOutTally(s: ChaosState, pid: ParticipantId, k: nat, o: nat)
    requires BuffersOwn(s) && k < |Buffer(s, pid)|
    ensures var t := TallyOf(WithoutEntry(s, pid, k), o);
            TallyOf(s, o) == t.(buffered := t.buffered + if o == Buffer(s, pid)[k] then 1 else 0)
  {
    EntryOwn(s, pid, k);
    OccurrencesRemoved(Buffer(s, pid), k, o);
  }

  lemma TakeOutOwn(s: ChaosState, pid: ParticipantId, k: nat)
    requires BuffersOwn(s) && k < |Buffer(s, pid)|
    ensures BuffersOwn(WithoutEntry(s, pid, k))
  {
    var t := WithoutEntry(s, pid, k);
    forall q, i | q in t.buffers && 0 <= i < |t.buffers[q]|
      ensures t.buffers[q][i] < |t.sends| && t.sends[t.buffers[q][i]].pid == q
    {
      var j := if q == pid && i >= k then i + 1 else i;
      assert s.buffers[q][j] == t.buffers[q][i];
    }
  }

  /** Taking entry `k` out of a buffer leaves exactly that message in limbo. */
  lemma TakeOut(s: ChaosState, pid: ParticipantId, k: nat)
    requires Accounted(s) && k < |Buffer(s, pid)|
    ensures Buffer(s, pid)[k] < |s.sends|
    ensures FatesExcept(WithoutEntry(s, pid, k), {Buffer(s, pid)[k]}) && BuffersOwn(WithoutEntry(s, pid, k))
  {
    EntryOwn(s, pid, k);
    TakeOutOwn(s, pid, k);
    var t, limbo := WithoutEntry(s, pid, k), {Buffer(s, pid)[k]};
    forall o: nat ensures FateAt(t, limbo, o) {
      assert FateAt(s, {}, o);
      TakeOutTally(s, pid, k, o);
    }
  }

  lemma ReleaseFates(s: ChaosState, pid: ParticipantId, k: nat, r: Rolls)
    requires Accounted(s) && k < |Buffer(s, pid)|
    ensures Accounted(Release(s, pid, k, r))
  {
    TakeOut(s, pid, k);
    var id := Buffer(s, pid)[k];
    DispatchFate(WithoutEntry(s, pid, k), id, r, {id});
    assert {id} - {id} == {};
  }

  lemma NewIdIsUnbuffered(s: ChaosState, pid: ParticipantId)
    requires BuffersOwn(s)
    ensures |s.sends| !in Buffer(s, pid)
  {
    forall k | 0 <= k < |Buffer(s, pid)|
        ensures Buffer(s, pid)[k] != |s.sends| { assert s.buffers[pid][k] < |s.sends|; }
  }

  lemma SentTally(s: ChaosState, pid: ParticipantId, o: nat)
    requires BuffersOwn(s)
    ensures TallyOf(Sent(s, pid), o) == TallyOf(s, o)
  {
    NewIdIsUnbuffered(s, pid);
    OccurrencesMember(Buffer(s, pid), o);
  }

  lemma SentFates(s: ChaosState, pid: ParticipantId)
    requires Accounted(s)
    ensures FatesExcept(Sent(s, pid), {|s.sends|}) && BuffersOwn(Sent(s, pid))
  {
    var t, limbo := Sent(s, pid), {|s.sends|};
    forall o: nat ensures FateAt(t, limbo, o) {
      assert FateAt(s, {}, o);
      SentTally(s, pid, o);
    }
  }

  lemma PushedTally(s: ChaosState, pid: ParticipantId, o: nat)
    requires BuffersOwn(s)
    ensures TallyOf(Pushed(s, pid), o) ==
        TallyOf(s, o).(buffered := TallyOf(s, o).buffered + if o == |s.sends| then 1 else 0)
  {
    SentTally(s, pid, o);
    OccurrencesAppended(Buffer(s, pid), |s.sends|, o);
  }

  lemma PushedFates(s: ChaosState, pid: ParticipantId)
    requires Accounted(s)
    ensures Accounted(Pushed(s, pid))
  {
    var u := Pushed(s, pid);
    forall o: nat ensures FateAt(u, {}, o) {
      assert FateAt(s, {}, o);
      PushedTally(s, pid, o);
    }
  }

  lemma DropTally(s: ChaosState, id: nat, o: nat)
    ensures TallyOf(s.(dropped := s.dropped + [id]), o) ==
            TallyOf(s, o).(dropped := TallyOf(s, o).dropped + if o == id then 1 else 0)
  {
    OccurrencesAppended(s.dropped, id, o);
  }

  lemma DroppedFates(s: ChaosState, pid: ParticipantId)
    requires Accounted(s)
    ensures Accounted(Sent(s, pid).(dropped := s.dropped + [|s.sends|]))
  {
    var t, limbo := Sent(s, pid), {|s.sends|};
    var u := t.(dropped := t.dropped + [|s.sends|]);
    SentFates(s, pid);
    forall o: nat ensures FateAt(u, {}, o) {
      assert FateAt(t, limbo, o);
      DropTally(t, |s.sends|, o);
    }
  }

  /** Fates do not depend on the hold timers, the clock or the configuration. */
  lemma SameRecords(s: ChaosState, t: ChaosState)
    requires Accounted(s)
    requires t == s.(config := t.config, partitionEndsAt := t.partitionEndsAt, now := t.now, holds := t.holds)
    ensures Accounted(t)
  {
    forall o: nat ensures FateAt(t, {}, o) { assert FateAt(s, {}, o); }
  }

  lemma SendFates(s: ChaosState, pid: ParticipantId, pick: real, r: Rolls)
    requires Accounted(s) && Unit(pick)
    ensures Accounted(Send(s, pid, pick, r))
  {
    var id := |s.sends|;
    if IsPartitioned(s) {
      DroppedFates(s, pid);
    } else if s.config.reorderWindow <= 0 {
      SentFates(s, pid);
      DispatchFate(Sent(s, pid), id, r, {id});
      assert {id} - {id} == {};
    } else {
      PushedFates(s, pid);
      var pushed := Pushed(s, pid);
      var n := |Buffer(pushed, pid)|;
      if n > s.config.reorderWindow { ReleaseFates(pushed, pid, FloorScaled(pick, n), r); }
      var t := if n > s.config.reorderWindow then Release(pushed, pid, FloorScaled(pick, n), r) else pushed;
      SameRecords(t, Send(s, pid, pick, r));
    }
  }

  lemma HoldFates(s: ChaosState, k: nat, r: Rolls)
    requires Accounted(s) && k < |s.holds| && s.holds[k].id < |s.sends|
    ensures Accounted(HoldFires(s, k, r))
  {
    var t := s.(holds := RemoveAt(s.holds, k));
    var pid := s.sends[s.holds[k].id].pid;
    SameRecords(s, t);
    var at := IndexIn(Buffer(s, pid), s.holds[k].id);
    if at.Some? { ReleaseFates(t, pid, at.value, r); }
  }

  lemma LandsFates(s: ChaosState, k: nat)
    requires Accounted(s) && k < |s.flights|
    ensures Accounted(Lands(s, k))
  {
    var t := Lands(s, k);
    forall o: nat ensures FateAt(t, {}, o) {
      assert FateAt(s, {}, o);
      CountTimedRemoved(s.flights, k, o);
      CountTimedAppended(s.wire, Timed(s.flights[k].id, s.now), o);
      assert Copies(t, o) == Copies(s, o);
    }
  }

  lemma ResetFates(s: ChaosState)
    requires Accounted(s)
    ensures Accounted(Reset(s))
  {
    var t := Reset(s);
    forall o: nat ensures FateAt(t, {}, o) {
      assert FateAt(s, {}, o);
      if o < |s.sends| { OccurrencesMember(Buffer(s, s.sends[o].pid), o); }
    }
  }

  function AsSet(ids: seq<nat>): set<nat> { set id | id in ids }

  lemma BufferedOwn(s: ChaosState, pid: ParticipantId, id: nat)
    requires BuffersOwn(s) && id in Buffer(s, pid)
    ensures id < |s.sends| && s.sends[id].pid == pid
  {
    var k :| 0 <= k < |Buffer(s, pid)| && Buffer(s, pid)[k] == id;
    assert s.buffers[pid][k] == id;
  }

  lemma TakeAllTally(s: ChaosState, pid: ParticipantId, o: nat)
    requires BuffersOwn(s)
    ensures TallyOf(s.(buffers := s.buffers - {pid}), o) ==
            if o in Buffer(s, pid) then TallyOf(s, o).(buffered := 0) else TallyOf(s, o)
    ensures o in Buffer(s, pid) ==> TallyOf(s, o).buffered > 0
  {
    if o in Buffer(s, pid) { BufferedOwn(s, pid, o); }
    OccurrencesMember(Buffer(s, pid), o);
  }

  /** A whole buffer taken out at once leaves its messages in limbo. */
  lemma TakeAll(s: ChaosState, pid: ParticipantId)
    requires Accounted(s)
    ensures FatesExcept(s.(buffers := s.buffers - {pid}), AsSet(Buffer(s, pid)))
    ensures BuffersOwn(s.(buffers := s.buffers - {pid}))
  {
    var t := s.(buffers := s.buffers - {pid});
    var limbo := AsSet(Buffer(s, pid));
    forall o: nat ensures FateAt(t, limbo, o) {
      assert FateAt(s, {}, o);
      TakeAllTally(s, pid, o);
      if o in Buffer(s, pid) { BufferedOwn(s, pid, o); }
    }
  }

  lemma BufferDistinct(s: ChaosState, pid: ParticipantId, i: nat, j: nat)
    requires Accounted(s) && i < j < |Buffer(s, pid)|
    ensures Buffer(s, pid)[i] != Buffer(s, pid)[j]
  {
    var b := Buffer(s, pid);
    BufferedOwn(s, pid, b[i]);
    assert FateAt(s, {}, b[i]);
    OccurrencesRemoved(b, j, b[i]);
    assert RemoveAt(b, j)[i] == b[i];
    OccurrencesMember(RemoveAt(b, j), b[i]);
  }

  lemma AsSetLast(ids: seq<nat>)
    requires |ids| > 0
    ensures AsSet(ids) == AsSet(ids[..|ids| - 1]) + {ids[|ids| - 1]}
  {
    var init, last := ids[..|ids| - 1], ids[|ids| - 1];
    assert forall x :: x in ids <==> x in init || x == last;
  }

  lemma {:induction false} DispatchEachKeeps(s: ChaosState, ids: seq<nat>, rolls: nat -> Rolls)
    ensures var t := DispatchEach(s, ids, rolls);
            t.sends == s.sends && t.buffers == s.buffers
  {
    if |ids| > 0 { DispatchEachKeeps(s, ids[..|ids| - 1], rolls); }
  }

  lemma {:induction false} DispatchEachFates(s: ChaosState, ids: seq<nat>, rolls: nat -> Rolls, limbo: set<nat>)
    requires FatesExcept(s, limbo)
    requires forall i, j | 0 <= i < j < |ids| :: ids[i] != ids[j]
    requires forall i | 0 <= i < |ids| :: ids[i] in limbo && ids[i] < |s.sends|
    ensures FatesExcept(DispatchEach(s, ids, rolls), limbo - AsSet(ids))
  {
    if |ids| == 0 {
      assert limbo - AsSet(ids) == limbo;
    } else {
      var n := |ids| - 1;
      var init := ids[..n];
      DispatchEachFates(s, init, rolls, limbo);
      DispatchEachKeeps(s, init, rolls);
      var left := limbo - AsSet(init);
      assert ids[n] in left;
      DispatchFate(DispatchEach(s, init, rolls), ids[n], rolls(n), left);
      AsSetLast(ids);
      assert left - {ids[n]} == limbo - AsSet(ids);
    }
  }

  lemma FlushOneFates(s: ChaosState, pid: ParticipantId, rolls: nat -> Rolls)
    requires Accounted(s)
    ensures Accounted(FlushOne(s, pid, rolls))
  {
    var b := Buffer(s, pid);
    var limbo := AsSet(b);
    TakeAll(s, pid);
    forall i, j | 0 <= i < j < |b| ensures b[i] != b[j] { BufferDistinct(s, pid, i, j); }
    forall k | 0 <= k < |b| ensures b[k] in limbo && b[k] < |s.sends| { BufferedOwn(s, pid, b[k]); }
    var taken := s.(buffers := s.buffers - {pid});
    DispatchEachFates(taken, b, rolls, limbo);
    DispatchEachKeeps(taken, b, rolls);
    assert limbo - AsSet(b) == {};
  }

  lemma {:induction false} FlushFates(s: ChaosState, targets: seq<ParticipantId>, rolls: nat -> nat -> Rolls)
    requires Accounted(s)
    ensures Accounted(Flush(s, targets, rolls))
  {
    if |targets| > 0 {
      var n := |targets| - 1;
      FlushFates(s, targets[..n], rolls);
      FlushOneFates(Flush(s, targets[..n], rolls), targets[n], rolls(n));
    }
  }

  // ---- bounds ----

  predicate ConfigOk(c: ChaosConfig) {
    && 0.0 <= c.dropRate <= MAX_DROP_RATE && 0.0 <= c.duplicateRate <= MAX_DUPLICATE_RATE
    && 0.0 <= c.latencyMs <= MAX_LATENCY_MS && 0.0 <= c.jitterMs <= MAX_JITTER_MS
    && 0 <= c.reorderWindow <= MAX_REORDER_WINDOW
  }

  /** No request puts a knob outside its ceiling. */
  lemma ConfiguredOk(c: ChaosConfig, p: ConfigPatch)
    ensures ConfigOk(Configured(c, p))
  {
  }

  function Distance(a: real, b: real): real { if a < b then b - a else a - b }

  /** `v` is the value within [0, max] nearest to the one requested; 0 for NaN or an infinity,
      and the current one when none is requested. */
  ghost predicate NearestTo(v: real, request: Option<Number>, current: real, max: real) {
    && 0.0 <= v <= max
    && match request
       case None => v == current
       case Some(NotFinite) => v == 0.0
       case Some(Finite(r)) => forall w: real | 0.0 <= w <= max :: Distance(v, r) <= Distance(w, r)
  }

  predicate Rounds(n: int, v: real) { -0.5 < n as real - v <= 0.5 }

  ghost predicate RoundsNearest(n: int, request: Option<Number>, current: real, max: real) {
    exists v: real :: NearestTo(v, request, current, max) && Rounds(n, v)
  }

  /** A knob not mentioned stays, a knob mentioned gets the admissible value nearest to the
      request; the reorder window is then rounded, half upwards. */
  lemma ConfiguredMeans(c: ChaosConfig, p: ConfigPatch)
    requires ConfigOk(c)
    ensures var d := Configured(c, p);
            && NearestTo(d.dropRate, p.dropRate, c.dropRate, 0.5)
            && NearestTo(d.duplicateRate, p.duplicateRate, c.duplicateRate, 0.2)
            && NearestTo(d.latencyMs, p.latencyMs, c.latencyMs, 2000.0)
            && NearestTo(d.jitterMs, p.jitterMs, c.jitterMs, 500.0)
            && (p.reorderWindow.None? ==> d.reorderWindow == c.reorderWindow)
            && RoundsNearest(d.reorderWindow, p.reorderWindow, c.reorderWindow as real, 10.0)
  {
    var w := Clamp(OrElse(p.reorderWindow, c.reorderWindow as real), 0.0, MAX_REORDER_WINDOW as real);
    assert NearestTo(w, p.reorderWindow, c.reorderWindow as real, MAX_REORDER_WINDOW as real);
    var floor := (w + 0.5).Floor;
    assert floor as real <= w + 0.5 < floor as real + 1.0;
    assert Rounds(Configured(c, p).reorderWindow, w);
  }

  predicate HasHold(s: ChaosState, id: nat) {
    id < |s.sends| && Timed(id, s.sends[id].at + REORDER_MAX_HOLD_MS) in s.holds
  }

  /** Every buffered message has its hold timer pending, due 200 ms after its send. */
  predicate Armed(s: ChaosState) {
    forall pid, i | pid in s.buffers && 0 <= i < |s.buffers[pid]| :: HasHold(s, s.buffers[pid][i])
  }

  predicate SmallBuffers(s: ChaosState) {
    forall pid | pid in s.buffers :: |s.buffers[pid]| <= MAX_REORDER_WINDOW
  }

  /** What no run leaves, however late its timers fire. */
  predicate Contained(s: ChaosState) { ConfigOk(s.config) && Armed(s) && SmallBuffers(s) }

  /** Everything but what a dispatch writes. */
  predicate Untouched(s: ChaosState, t: ChaosState) {
    && t.config == s.config && t.buffers == s.buffers && t.holds == s.holds
    && t.sends == s.sends && t.now == s.now
  }

  lemma DispatchUntouched(s: ChaosState, id: nat, r: Rolls)
    ensures Untouched(s, Dispatch(s, id, r))
  {
  }

  lemma {:induction false} DispatchEachUntouched(s: ChaosState, ids: seq<nat>, rolls: nat -> Rolls)
    ensures Untouched(s, DispatchEach(s, ids, rolls))
  {
    if |ids| > 0 {
      DispatchEachUntouched(s, ids[..|ids| - 1], rolls);
      DispatchUntouched(DispatchEach(s, ids[..|ids| - 1], rolls), ids[|ids| - 1], rolls(|ids| - 1));
    }
  }

  /** With its hold timer in place, the push of a send keeps every message armed. */
  function PushedAndArmed(s: ChaosState, pid: ParticipantId): ChaosState {
    Pushed(s, pid).(holds := s.holds + [Timed(|s.sends|, s.now + REORDER_MAX_HOLD_MS)])
  }

  lemma PushedArmed(s: ChaosState, pid: ParticipantId)
    requires Contained(s)
    ensures var t := PushedAndArmed(s, pid);
            && Armed(t) && |Buffer(t, pid)| <= MAX_REORDER_WINDOW + 1
            && (forall q | q in t.buffers && q != pid :: |t.buffers[q]| <= MAX_REORDER_WINDOW)
  {
    var t := PushedAndArmed(s, pid);
    forall q, i | q in t.buffers && 0 <= i < |t.buffers[q]|
      ensures HasHold(t, t.buffers[q][i])
    {
      var id := t.buffers[q][i];
      if id == |s.sends| && q == pid && i == |Buffer(s, pid)| {
        assert t.holds[|s.holds|] == Timed(id, t.sends[id].at + REORDER_MAX_HOLD_MS);
      } else {
        assert s.buffers[q][i] == id;
        assert Timed(id, s.sends[id].at + REORDER_MAX_HOLD_MS) in s.holds;
      }
    }
  }

  lemma FewerArmed(s: ChaosState, pid: ParticipantId, k: nat)
    requires Armed(s) && k < |Buffer(s, pid)|
    ensures Armed(WithoutEntry(s, pid, k))
  {
    var t := WithoutEntry(s, pid, k);
    forall q, i | q in t.buffers && 0 <= i < |t.buffers[q]|
      ensures HasHold(t, t.buffers[q][i])
    {
      var j := if q == pid && i >= k then i + 1 else i;
      assert s.buffers[q][j] == t.buffers[q][i];
    }
  }

  lemma SameArmed(s: ChaosState, t: ChaosState)
    requires Armed(s) && t.buffers == s.buffers && t.holds == s.holds && t.sends == s.sends
    ensures Armed(t)
  {
  }

  /** Recording a send keeps what is buffered armed. */
  lemma SentArmed(s: ChaosState, pid: ParticipantId)
    requires Armed(s)
    ensures Armed(Sent(s, pid))
  {
    var t := Sent(s, pid);
    forall q, i | q in t.buffers && 0 <= i < |t.buffers[q]|
      ensures HasHold(t, t.buffers[q][i])
    {
      assert s.buffers[q][i] < |s.sends|;
    }
  }

  /** The state a buffered send leaves, apart from what its overflow release dispatches. */
  lemma HeldBackFields(s: ChaosState, pid: ParticipantId, pick: real, r: Rolls)
    requires Unit(pick) && !IsPartitioned(s) && s.config.reorderWindow > 0
    ensures var t, waiting := Send(s, pid, pick, r), PushedAndArmed(s, pid);
            var n := |Buffer(waiting, pid)|;
            && n > 0
            && Untouched(if n > s.config.reorderWindow then WithoutEntry(waiting, pid, FloorScaled(pick, n))
                else waiting, t)
  {
    var pushed := Pushed(s, pid);
    var n := |Buffer(pushed, pid)|;
    if n > s.config.reorderWindow {
      var k := FloorScaled(pick, n);
      DispatchUntouched(WithoutEntry(pushed, pid, k), Buffer(pushed, pid)[k], r);
    }
  }

  lemma BufferedSendContained(s: ChaosState, pid: ParticipantId, pick: real, r: Rolls)
    requires Contained(s) && Unit(pick) && !IsPartitioned(s) && s.config.reorderWindow > 0
    ensures Contained(Send(s, pid, pick, r))
  {
    var waiting := PushedAndArmed(s, pid);
    var n := |Buffer(waiting, pid)|;
    PushedArmed(s, pid);
    HeldBackFields(s, pid, pick, r);
    if n > s.config.reorderWindow {
      var k := FloorScaled(pick, n);
      FewerArmed(waiting, pid, k);
      SameArmed(WithoutEntry(waiting, pid, k), Send(s, pid, pick, r));
    } else {
      SameArmed(waiting, Send(s, pid, pick, r));
    }
  }

  lemma SendContained(s: ChaosState, pid: ParticipantId, pick: real, r: Rolls)
    requires Contained(s) && Unit(pick)
    ensures Contained(Send(s, pid, pick, r))
  {
    if !IsPartitioned(s) && s.config.reorderWindow > 0 {
      BufferedSendContained(s, pid, pick, r);
    } else {
      SentArmed(s, pid);
      DispatchUntouched(Sent(s, pid), |s.sends|, r);
      SameArmed(Sent(s, pid), Send(s, pid, pick, r));
    }
  }

  /** Dropping a hold timer whose message is no longer buffered keeps the others armed. */
  lemma DropHold(s: ChaosState, k: nat)
    requires Armed(s) && k < |s.holds|
    requires forall q, j | q in s.buffers && 0 <= j < |s.buffers[q]| :: s.buffers[q][j] != s.holds[k].id
    ensures Armed(s.(holds := RemoveAt(s.holds, k)))
  {
    var t := s.(holds := RemoveAt(s.holds, k));
    forall q, i | q in t.buffers && 0 <= i < |t.buffers[q]|
      ensures HasHold(t, t.buffers[q][i])
    {
      var hold := Timed(s.buffers[q][i], s.sends[s.buffers[q][i]].at + REORDER_MAX_HOLD_MS);
      var h :| 0 <= h < |s.holds| && s.holds[h] == hold;
      assert t.holds[if h < k then h else h - 1] == hold;
    }
  }

  /** Every other buffered entry is another message. */
  lemma NotTheReleased(s: ChaosState, q: ParticipantId, j: nat, id: nat, at: Option<nat>)
    requires Accounted(s) && q in s.buffers && j < |s.buffers[q]| && id < |s.sends|
    requires at == IndexIn(Buffer(s, s.sends[id].pid), id)
    requires q == s.sends[id].pid && at.Some? ==> j != at.value
    ensures s.buffers[q][j] != id
  {
    assert s.buffers[q][j] < |s.sends| && s.sends[s.buffers[q][j]].pid == q;
    if q == s.sends[id].pid && at.Some? {
      if j < at.value { BufferDistinct(s, q, j, at.value); } else { BufferDistinct(s, q, at.value, j); }
    }
  }

  lemma HoldContained(s: ChaosState, k: nat, r: Rolls)
    requires Contained(s) && Accounted(s) && k < |s.holds| && s.holds[k].id < |s.sends|
    ensures Contained(HoldFires(s, k, r))
  {
    var id := s.holds[k].id;
    var pid := s.sends[id].pid;
    var at := IndexIn(Buffer(s, pid), id);
    var released := if at.None? then s else WithoutEntry(s, pid, at.value);
    if at.Some? { FewerArmed(s, pid, at.value); }
    forall q, j | q in released.buffers && 0 <= j < |released.buffers[q]| ensures released.buffers[q][j] != id {
      var j' := if at.Some? && q == pid && j >= at.value then j + 1 else j;
      assert s.buffers[q][j'] == released.buffers[q][j];
      NotTheReleased(s, q, j', id, at);
    }
    DropHold(released, k);
    if at.Some? {
      var taken := released.(holds := RemoveAt(s.holds, k));
      DispatchUntouched(taken, id, r);
      SameArmed(taken, HoldFires(s, k, r));
    }
  }

  lemma FlushOneContained(s: ChaosState, pid: ParticipantId, rolls: nat -> Rolls)
    requires Contained(s)
    ensures Contained(FlushOne(s, pid, rolls))
  {
    var taken := s.(buffers := s.buffers - {pid});
    assert Armed(taken);
    DispatchEachUntouched(taken, Buffer(s, pid), rolls);
    SameArmed(taken, FlushOne(s, pid, rolls));
  }

  lemma {:induction false} FlushContained(s: ChaosState, targets: seq<ParticipantId>, rolls: nat -> nat -> Rolls)
    requires Contained(s)
    ensures Contained(Flush(s, targets, rolls))
  {
    if |targets| > 0 {
      var n := |targets| - 1;
      FlushContained(s, targets[..n], rolls);
      FlushOneContained(Flush(s, targets[..n], rolls), targets[n], rolls(n));
    }
  }

  // ---- deadlines, when no timer fires more than `late` ms after it is due ----

  const MAX_DELAY_MS: real := MAX_LATENCY_MS + MAX_JITTER_MS

  function Deadline(late: real): real { REORDER_MAX_HOLD_MS + MAX_DELAY_MS + 2.0 * late }

  lemma Shrunk(x: real, j: real)
    requires x < 1.0 && j >= 0.0
    ensures x * j <= j
  {
  }

  lemma JitterBounded(roll: real, ms: real)
    requires Unit(roll) && ms >= 0.0
    ensures Jitter(roll, ms) <= ms
  {
    Shrunk(roll * 2.0 - 1.0, ms);
  }

  lemma DelayBounded(c: ChaosConfig, roll: real)
    requires ConfigOk(c) && Unit(roll)
    ensures 0.0 <= Delay(c, roll) <= MAX_DELAY_MS
  {
    JitterBounded(roll, c.jitterMs);
  }

  /** Each of `ts` is of a message sent, and at most `span` ms after its send. */
  predicate SentAndBy(s: ChaosState, ts: seq<Timed>, span: real) {
    forall k | 0 <= k < |ts| ::
      ts[k].id < |s.sends| && s.sends[ts[k].id].at <= ts[k].at <= s.sends[ts[k].id].at + span
  }

  /** No timer is more than `late` ms overdue, and everything stays within its deadline. */
  predicate OnSchedule(s: ChaosState, late: real) {
    && (forall i | 0 <= i < |s.sends| :: s.sends[i].at <= s.now)
    && (forall k | 0 <= k < |s.holds| :: s.holds[k].id < |s.sends| && s.now <= s.holds[k].at + late)
    && (forall k | 0 <= k < |s.flights| :: s.now <= s.flights[k].at + late)
    && SentAndBy(s, s.flights, Deadline(late) - late) && SentAndBy(s, s.wire, Deadline(late))
  }

  /** Message `id` is young enough to be dispatched now. */
  predicate Recent(s: ChaosState, id: nat, late: real) {
    id < |s.sends| && s.now <= s.sends[id].at + REORDER_MAX_HOLD_MS + late
  }

  lemma TransmitOnSchedule(s: ChaosState, id: nat, roll: real, late: real)
    requires OnSchedule(s, late) && ConfigOk(s.config) && Unit(roll) && Recent(s, id, late) && late >= 0.0
    ensures OnSchedule(Deliver(s, id, roll), late)
  {
    DelayBounded(s.config, roll);
  }

  lemma DispatchOnSchedule(s: ChaosState, id: nat, r: Rolls, late: real)
    requires OnSchedule(s, late) && ConfigOk(s.config) && ValidRolls(r) && Recent(s, id, late) && late >= 0.0
    ensures OnSchedule(Dispatch(s, id, r), late)
  {
    var d := s.(dispatched := s.dispatched + [id]);
    if r.drop >= s.config.dropRate {
      TransmitOnSchedule(d, id, r.jitter, late);
      if r.duplicate < s.config.duplicateRate {
        TransmitOnSchedule(Deliver(d, id, r.jitter), id, r.jitterAgain, late);
      }
    }
  }

  /** A buffered message is at most 200 ms old, and what its timer is late. */
  lemma BufferedIsRecent(s: ChaosState, pid: ParticipantId, k: nat, late: real)
    requires Armed(s) && OnSchedule(s, late) && k < |Buffer(s, pid)|
    ensures Recent(s, Buffer(s, pid)[k], late)
  {
    var id := s.buffers[pid][k];
    var hold := Timed(id, s.sends[id].at + REORDER_MAX_HOLD_MS);
    var h :| 0 <= h < |s.holds| && s.holds[h] == hold;
  }

  lemma PushedRecent(s: ChaosState, pid: ParticipantId, k: nat, late: real)
    requires Armed(s) && OnSchedule(s, late) && k < |Buffer(Pushed(s, pid), pid)| && late >= 0.0
    ensures Recent(Pushed(s, pid), Buffer(Pushed(s, pid), pid)[k], late)
  {
    if k < |Buffer(s, pid)| { BufferedIsRecent(s, pid, k, late); }
  }

  lemma AddHold(s: ChaosState, hold: Timed, late: real)
    requires OnSchedule(s, late) && hold.id < |s.sends| && s.now <= hold.at + late
    ensures OnSchedule(s.(holds := s.holds + [hold]), late)
  {
  }

  lemma SameSchedule(s: ChaosState, t: ChaosState, late: real)
    requires OnSchedule(s, late) && t.now == s.now && t.sends == s.sends
    requires t.holds == s.holds && t.flights == s.flights && t.wire == s.wire
    ensures OnSchedule(t, late)
  {
  }

  lemma SentOnSchedule(s: ChaosState, pid: ParticipantId, late: real)
    requires OnSchedule(s, late)
    ensures OnSchedule(Sent(s, pid), late)
  {
  }

  /** The overflow release of a send. */
  lemma OverflowOnSchedule(s: ChaosState, pid: ParticipantId, k: nat, r: Rolls, late: real)
    requires Contained(s) && OnSchedule(s, late) && ValidRolls(r) && k < |Buffer(Pushed(s, pid), pid)| && late >= 0.0
    ensures var t := Release(Pushed(s, pid), pid, k, r);
            OnSchedule(t, late) && t.sends == Sent(s, pid).sends && t.now == s.now
  {
    var left := WithoutEntry(Pushed(s, pid), pid, k);
    var id := Buffer(Pushed(s, pid), pid)[k];
    SentOnSchedule(s, pid, late);
    SameSchedule(Sent(s, pid), left, late);
    PushedRecent(s, pid, k, late);
    DispatchOnSchedule(left, id, r, late);
    DispatchUntouched(left, id, r);
  }

  lemma BufferedSendOnSchedule(s: ChaosState, pid: ParticipantId, pick: real, r: Rolls, late: real)
    requires Contained(s) && OnSchedule(s, late) && Unit(pick) && ValidRolls(r) && late >= 0.0
    requires !IsPartitioned(s) && s.config.reorderWindow > 0
    ensures OnSchedule(Send(s, pid, pick, r), late)
  {
    hide OnSchedule, Contained, Dispatch, Delay;
    var pushed, hold := Pushed(s, pid), Timed(|s.sends|, s.now + REORDER_MAX_HOLD_MS);
    var n := |Buffer(pushed, pid)|;
    if n > s.config.reorderWindow {
      OverflowOnSchedule(s, pid, FloorScaled(pick, n), r, late);
      AddHold(Release(pushed, pid, FloorScaled(pick, n), r), hold, late);
    } else {
      SentOnSchedule(s, pid, late);
      SameSchedule(Sent(s, pid), pushed, late);
      AddHold(pushed, hold, late);
    }
  }

  lemma SendOnSchedule(s: ChaosState, pid: ParticipantId, pick: real, r: Rolls, late: real)
    requires Contained(s) && OnSchedule(s, late) && Unit(pick) && ValidRolls(r) && late >= 0.0
    ensures OnSchedule(Send(s, pid, pick, r), late)
  {
    SentOnSchedule(s, pid, late);
    if IsPartitioned(s) {
      SameSchedule(Sent(s, pid), Send(s, pid, pick, r), late);
    } else if s.config.reorderWindow <= 0 {
      DispatchOnSchedule(Sent(s, pid), |s.sends|, r, late);
    } else {
      BufferedSendOnSchedule(s, pid, pick, r, late);
    }
  }

  lemma HoldOnSchedule(s: ChaosState, k: nat, r: Rolls, late: real)
    requires Contained(s) && OnSchedule(s, late) && k < |s.holds| && ValidRolls(r) && late >= 0.0
    ensures OnSchedule(HoldFires(s, k, r), late)
  {
    var id := s.holds[k].id;
    var pid := s.sends[id].pid;
    var t := s.(holds := RemoveAt(s.holds, k));
    var at := IndexIn(Buffer(s, pid), id);
    if at.Some? {
      BufferedIsRecent(s, pid, at.value, late);
      DispatchOnSchedule(WithoutEntry(t, pid, at.value), id, r, late);
    }
  }

  lemma {:induction false} DispatchEachOnSchedule(s: ChaosState, ids: seq<nat>, rolls: nat -> Rolls, late: real)
    requires OnSchedule(s, late) && ConfigOk(s.config) && late >= 0.0 && forall k: nat :: ValidRolls(rolls(k))
    requires forall k | 0 <= k < |ids| :: Recent(s, ids[k], late)
    ensures OnSchedule(DispatchEach(s, ids, rolls), late)
  {
    if |ids| > 0 {
      var n := |ids| - 1;
      DispatchEachOnSchedule(s, ids[..n], rolls, late);
      DispatchEachUntouched(s, ids[..n], rolls);
      DispatchOnSchedule(DispatchEach(s, ids[..n], rolls), ids[n], rolls(n), late);
    }
  }

  lemma {:induction false} FlushOnSchedule(
    s: ChaosState, targets: seq<ParticipantId>, rolls: nat -> nat -> Rolls, late: real)
    requires Contained(s) && OnSchedule(s, late) && late >= 0.0 && forall j: nat, k: nat :: ValidRolls(rolls(j)(k))
    ensures OnSchedule(Flush(s, targets, rolls), late)
  {
    if |targets| > 0 {
      var n := |targets| - 1;
      FlushOnSchedule(s, targets[..n], rolls, late);
      FlushContained(s, targets[..n], rolls);
      var t := Flush(s, targets[..n], rolls);
      forall k | 0 <= k < |Buffer(t, targets[n])| ensures Recent(t, Buffer(t, targets[n])[k], late) {
        BufferedIsRecent(t, targets[n], k, late);
      }
      DispatchEachOnSchedule(t.(buffers := t.buffers - {targets[n]}), Buffer(t, targets[n]), rolls(n), late);
    }
  }

  // ---- runs ----

  datatype Op =
    | DoSend(pid: ParticipantId, pick: real, rolls: Rolls)
    | DoHold(k: nat, rolls: Rolls)
    | DoLand(k: nat)
    | DoFlush(targets: seq<ParticipantId>, each: nat -> nat -> Rolls)
    | DoReset
    | DoConfigure(patch: ConfigPatch)
    | DoPartition(duration: Number)
    | Advance(to: real)

  /** The clock never goes back; a pending timer may fire at any time, early or late. */
  ghost predicate OpEnabled(s: ChaosState, op: Op) {
    match op
    case DoSend(_, pick, rolls) => Unit(pick) && ValidRolls(rolls)
    case DoHold(k, rolls) => k < |s.holds| && s.holds[k].id < |s.sends| && ValidRolls(rolls)
    case DoLand(k) => k < |s.flights|
    case DoFlush(_, each) => forall j: nat, k: nat :: ValidRolls(each(j)(k))
    case Advance(to) => s.now <= to
    case _ => true
  }

  ghost function Perform(s: ChaosState, op: Op): ChaosState
    requires OpEnabled(s, op)
  {
    match op
    case DoSend(pid, pick, rolls) => Send(s, pid, pick, rolls)
    case DoHold(k, rolls) => HoldFires(s, k, rolls)
    case DoLand(k) => Lands(s, k)
    case DoFlush(targets, each) => Flush(s, targets, each)
    case DoReset => Reset(s)
    case DoConfigure(patch) => s.(config := Configured(s.config, patch))
    case DoPartition(duration) => StartPartition(s, duration)
    case Advance(to) => s.(now := to)
  }

  ghost predicate IsChaosRun(ops: seq<Op>, states: seq<ChaosState>) {
    && |states| == |ops| + 1 && states[0] == CLEAN
    && forall i {:trigger ops[i]} | 0 <= i < |ops| ::
        OpEnabled(states[i], ops[i]) && states[i + 1] == Perform(states[i], ops[i])
  }

  /** No timer is left pending for more than `late` ms after it is due. */
  predicate Punctual(s: ChaosState, op: Op, late: real) {
    match op
    case Advance(to) =>
      && (forall k | 0 <= k < |s.holds| :: to <= s.holds[k].at + late)
      && (forall k | 0 <= k < |s.flights| :: to <= s.flights[k].at + late)
    case _ => true
  }

  predicate PunctualRun(ops: seq<Op>, states: seq<ChaosState>, late: real) {
    && |states| == |ops| + 1 && late >= 0.0
    && forall i {:trigger ops[i]} | 0 <= i < |ops| :: Punctual(states[i], ops[i], late)
  }

  lemma OpKeepsFates(s: ChaosState, op: Op)
    requires Accounted(s) && OpEnabled(s, op)
    ensures Accounted(Perform(s, op))
  {
    match op {
      case DoSend(pid, pick, rolls) => SendFates(s, pid, pick, rolls);
      case DoHold(k, rolls) => HoldFates(s, k, rolls);
      case DoLand(k) => LandsFates(s, k);
      case DoFlush(targets, each) => FlushFates(s, targets, each);
      case DoReset => ResetFates(s);
      case _ => SameRecords(s, Perform(s, op));
    }
  }

  lemma OpKeepsContained(s: ChaosState, op: Op)
    requires Contained(s) && Accounted(s) && OpEnabled(s, op)
    ensures Contained(Perform(s, op))
  {
    match op {
      case DoSend(pid, pick, rolls) => SendContained(s, pid, pick, rolls);
      case DoHold(k, rolls) => HoldContained(s, k, rolls);
      case DoLand(k) => SameArmed(s, Lands(s, k));
      case DoFlush(targets, each) => FlushContained(s, targets, each);
      case DoReset =>
      case DoConfigure(patch) => ConfiguredOk(s.config, patch);
      case _ => SameArmed(s, Perform(s, op));
    }
  }

  lemma OpKeepsSchedule(s: ChaosState, op: Op, late: real)
    requires Contained(s) && OnSchedule(s, late) && OpEnabled(s, op) && Punctual(s, op, late) && late >= 0.0
    ensures OnSchedule(Perform(s, op), late)
  {
    match op {
      case DoSend(pid, pick, rolls) => SendOnSchedule(s, pid, pick, rolls, late);
      case DoHold(k, rolls) => HoldOnSchedule(s, k, rolls, late);
      case DoLand(k) =>
      case DoFlush(targets, each) => FlushOnSchedule(s, targets, each, late);
      case _ =>
    }
  }

  lemma NothingYet()
    ensures Accounted(CLEAN) && Contained(CLEAN)
  {
    forall id: nat ensures FateAt(CLEAN, {}, id) { assert TallyOf(CLEAN, id) == Tally(0, 0, 0, 0, 0, 0); }
  }

  /** Across any interleaving of sends, overflow releases, timers -- early or late -- flush,
      reset and reconfiguration, each message sent is in exactly one of: partition-dropped,
      buffered once in its own recipient's buffer, reset-discarded, dispatched once; and a
      dispatched one is either rolled out or written, or about to be, once or twice. */
  lemma {:induction false} ExactlyOneFate(ops: seq<Op>, states: seq<ChaosState>, i: nat)
    requires IsChaosRun(ops, states) && i <= |ops|
    ensures Accounted(states[i])
  {
    if i == 0 {
      NothingYet();
    } else {
      ExactlyOneFate(ops, states, i - 1);
      OpKeepsFates(states[i - 1], ops[i - 1]);
    }
  }

  /** Whatever the reconfiguration and however late the timers: buffers hold at most 10, every
      buffered message has its 200 ms hold timer pending, and no knob is outside its ceiling. */
  lemma {:induction false} BoundsHold(ops: seq<Op>, states: seq<ChaosState>, i: nat)
    requires IsChaosRun(ops, states) && i <= |ops|
    ensures Contained(states[i])
  {
    if i == 0 {
      NothingYet();
    } else {
      BoundsHold(ops, states, i - 1);
      ExactlyOneFate(ops, states, i - 1);
      OpKeepsContained(states[i - 1], ops[i - 1]);
    }
  }

  /** If no timer fires more than `late` ms after it is due, none is ever overdue by more, and
      everything written was written by its deadline. */
  lemma {:induction false} TimersMeetDeadlines(ops: seq<Op>, states: seq<ChaosState>, late: real, i: nat)
    requires IsChaosRun(ops, states) && PunctualRun(ops, states, late) && i <= |ops|
    ensures OnSchedule(states[i], late)
  {
    if i > 0 {
      TimersMeetDeadlines(ops, states, late, i - 1);
      BoundsHold(ops, states, i - 1);
      OpKeepsSchedule(states[i - 1], ops[i - 1], late);
    }
  }

  // ---- outages ----

  /** A duration as a partition takes it: between 0 and 30000 ms, 0 if it is no number. */
  function OutageMs(duration: Number): real {
    match duration
    case NotFinite => 0.0
    case Finite(ms) => if ms < 0.0 then 0.0 else if ms > 30000.0 then 30000.0 else ms
  }

  /** The last operation before `j` that started or cleared a partition is a start, at `p`. */
  predicate LastStart(ops: seq<Op>, j: nat, p: nat) {
    && p < j <= |ops| && ops[p].DoPartition?
    && forall q | p < q < j :: !ops[q].DoPartition? && !ops[q].DoReset?
  }

  /** Operation `j` falls within the outage that the last start before it began. */
  predicate WithinOutage(ops: seq<Op>, states: seq<ChaosState>, j: nat)
    requires j <= |ops| < |states|
  {
    exists p :: 0 <= p < j && LastStart(ops, j, p) && states[j].now < states[p].now + OutageMs(ops[p].duration)
  }

  predicate Unfaulty(c: ChaosConfig) {
    c.dropRate == 0.0 && c.duplicateRate == 0.0 && c.latencyMs == 0.0 && c.jitterMs == 0.0 && c.reorderWindow == 0
  }

  /** Only a start and a reset touch the outage, and only a send what is sent and dropped. Only a
      reset and a configuration touch the knobs, and only a reset discards. */
  lemma OpOutage(s: ChaosState, op: Op)
    requires OpEnabled(s, op)
    ensures var t := Perform(s, op);
            && t.partitionEndsAt == (match op
                                     case DoPartition(duration) => Some(s.now + OutageMs(duration))
                                     case DoReset => None
                                     case _ => s.partitionEndsAt)
            && (!op.DoSend? ==> t.sends == s.sends && t.dropped == s.dropped)
            && (if op.DoReset? then Unfaulty(t.config) else op.DoConfigure? || t.config == s.config)
            && s.discarded <= t.discarded && (!op.DoReset? ==> t.discarded == s.discarded)
  {
    hide Dispatch;
    match op {
      case DoSend(pid, pick, r) => SendOutage(s, pid, pick, r);
      case DoHold(k, r) =>
        var t, pid := s.(holds := RemoveAt(s.holds, k)), s.sends[s.holds[k].id].pid;
        var at := IndexIn(Buffer(s, pid), s.holds[k].id);
        if at.Some? { DispatchKeepsOutage(WithoutEntry(t, pid, at.value), s.holds[k].id, r); }
      case DoFlush(targets, each) => FlushKeepsOutage(s, targets, each);
      case _ =>
    }
  }

  predicate SameOutage(s: ChaosState, t: ChaosState) {
    && t.partitionEndsAt == s.partitionEndsAt && t.config == s.config && t.now == s.now
    && t.dropped == s.dropped && t.sends == s.sends && t.discarded == s.discarded
  }

  lemma DispatchKeepsOutage(s: ChaosState, id: nat, r: Rolls)
    ensures SameOutage(s, Dispatch(s, id, r))
  {
  }

  lemma {:induction false} DispatchEachKeepsOutage(s: ChaosState, ids: seq<nat>, rolls: nat -> Rolls)
    ensures SameOutage(s, DispatchEach(s, ids, rolls))
  {
    if |ids| > 0 {
      var n := |ids| - 1;
      DispatchEachKeepsOutage(s, ids[..n], rolls);
      DispatchKeepsOutage(DispatchEach(s, ids[..n], rolls), ids[n], rolls(n));
    }
  }

  lemma {:induction false} FlushKeepsOutage(s: ChaosState, targets: seq<ParticipantId>, rolls: nat -> nat -> Rolls)
    ensures SameOutage(s, Flush(s, targets, rolls))
  {
    if |targets| > 0 {
      var n := |targets| - 1;
      FlushKeepsOutage(s, targets[..n], rolls);
      var t := Flush(s, targets[..n], rolls);
      DispatchEachKeepsOutage(t.(buffers := t.buffers - {targets[n]}), Buffer(t, targets[n]), rolls(n));
    }
  }

  /** A send is recorded, and dropped exactly within an outage. */
  lemma SendOutage(s: ChaosState, pid: ParticipantId, pick: real, r: Rolls)
    requires Unit(pick)
    ensures var t := Send(s, pid, pick, r);
            && t.sends == s.sends + [SendRecord(pid, s.now)] && t.partitionEndsAt == s.partitionEndsAt
            && t.config == s.config && t.discarded == s.discarded
            && t.dropped == if s.partitionEndsAt.Some? && s.now < s.partitionEndsAt.value
                            then s.dropped + [|s.sends|] else s.dropped
  {
    hide Dispatch;
    DispatchKeepsOutage(Sent(s, pid), |s.sends|, r);
    var pushed := Pushed(s, pid);
    var n := |Buffer(pushed, pid)|;
    if n > s.config.reorderWindow {
      var k := FloorScaled(pick, n);
      DispatchKeepsOutage(WithoutEntry(pushed, pid, k), Buffer(pushed, pid)[k], r);
    }
  }

  lemma RunOp(ops: seq<Op>, states: seq<ChaosState>, i: nat)
    requires IsChaosRun(ops, states) && i < |ops|
    ensures |states| == |ops| + 1 && OpEnabled(states[i], ops[i]) && states[i + 1] == Perform(states[i], ops[i])
  {
  }

  function LastStartOf(ops: seq<Op>, j: nat): (p: Option<nat>)
    requires j <= |ops|
    ensures forall q: nat :: LastStart(ops, j, q) <==> p == Some(q)
  {
    if j == 0 then None
    else if ops[j - 1].DoPartition? then Some(j - 1)
    else if ops[j - 1].DoReset? then None
    else LastStartOf(ops, j - 1)
  }

  /** The field says when the outage of the last start ends. */
  lemma {:induction false} EndsAtIsLastStart(ops: seq<Op>, states: seq<ChaosState>, j: nat)
    requires IsChaosRun(ops, states) && |states| == |ops| + 1 && j <= |ops|
    ensures var p := LastStartOf(ops, j);
            states[j].partitionEndsAt ==
            if p.Some? then Some(states[p.value].now + OutageMs(ops[p.value].duration)) else None
  {
    hide LastStart, Perform;
    if j > 0 {
      EndsAtIsLastStart(ops, states, j - 1);
      RunOp(ops, states, j - 1);
      OpOutage(states[j - 1], ops[j - 1]);
    }
  }

  /** How a run's sends and drops grow. */
  lemma {:induction false} DropsStay(ops: seq<Op>, states: seq<ChaosState>, i: nat, n: nat)
    requires IsChaosRun(ops, states) && |states| == |ops| + 1 && i <= n <= |ops|
    ensures |states[i].sends| <= |states[n].sends|
    ensures forall id | id < |states[i].sends| :: id in states[n].dropped <==> id in states[i].dropped
  {
    if i < n {
      DropsStay(ops, states, i, n - 1);
      RunOp(ops, states, n - 1);
      var s, op := states[n - 1], ops[n - 1];
      OpOutage(s, op);
      if op.DoSend? { SendOutage(s, op.pid, op.pick, op.rolls); }
    }
  }

  lemma {:induction false} DroppedWereSent(ops: seq<Op>, states: seq<ChaosState>, i: nat)
    requires IsChaosRun(ops, states) && |states| == |ops| + 1 && i <= |ops|
    ensures forall id | id in states[i].dropped :: id < |states[i].sends|
  {
    if i > 0 {
      DroppedWereSent(ops, states, i - 1);
      RunOp(ops, states, i - 1);
      var s, op := states[i - 1], ops[i - 1];
      OpOutage(s, op);
      if op.DoSend? { SendOutage(s, op.pid, op.pick, op.rolls); }
    }
  }

  /** Which messages a partition costs, over every run: the message sent by operation `j` is
      dropped if and only if the last partition started before it has not been cleared by a reset
      and was started less than its duration, clamped to 30 s, before. */
  lemma DroppedIffWithinOutage(ops: seq<Op>, states: seq<ChaosState>, j: nat, n: nat)
    requires IsChaosRun(ops, states) && |states| == |ops| + 1 && j < n <= |ops| && ops[j].DoSend?
    ensures |states[j].sends| in states[n].dropped <==> WithinOutage(ops, states, j)
  {
    hide IsChaosRun, Perform;
    var s, op := states[j], ops[j];
    RunOp(ops, states, j);
    assert states[j + 1] == Send(s, op.pid, op.pick, op.rolls) by { SendIsPerformed(s, op); }
    SendOutage(s, op.pid, op.pick, op.rolls);
    DroppedWereSent(ops, states, j);
    DropsStay(ops, states, j + 1, n);
    EndsAtIsLastStart(ops, states, j);
    hide LastStart;
  }

  lemma SendIsPerformed(s: ChaosState, op: Op)
    requires OpEnabled(s, op) && op.DoSend?
    ensures Perform(s, op) == Send(s, op.pid, op.pick, op.rolls)
  {
  }

  /** Every message was sent by some operation, to its recipient, at its time. */
  lemma {:induction false} SendOf(ops: seq<Op>, states: seq<ChaosState>, n: nat, id: nat) returns (j: nat)
    requires IsChaosRun(ops, states) && |states| == |ops| + 1 && n <= |ops| && id < |states[n].sends|
    ensures j < n && ops[j].DoSend? && |states[j].sends| == id
    ensures states[n].sends[id] == SendRecord(ops[j].pid, states[j].now)
  {
    RunOp(ops, states, n - 1);
    var s, op := states[n - 1], ops[n - 1];
    OpOutage(s, op);
    if op.DoSend? { SendOutage(s, op.pid, op.pick, op.rolls); }
    if id < |s.sends| { j := SendOf(ops, states, n - 1, id); } else { j := n - 1; }
  }

  // ---- after a reset ----

  /** No fault has been asked for since the last reset before `j`, or ever. */
  predicate Undisturbed(ops: seq<Op>, j: nat)
    requires j <= |ops|
  {
    j == 0 || ops[j - 1].DoReset? || (!ops[j - 1].DoConfigure? && !ops[j - 1].DoPartition? && Undisturbed(ops, j - 1))
  }

  lemma {:induction false} UndisturbedIsCalm(ops: seq<Op>, states: seq<ChaosState>, j: nat)
    requires IsChaosRun(ops, states) && |states| == |ops| + 1 && j <= |ops| && Undisturbed(ops, j)
    ensures Unfaulty(states[j].config) && states[j].partitionEndsAt.None?
  {
    hide Perform;
    if j > 0 {
      RunOp(ops, states, j - 1);
      OpOutage(states[j - 1], ops[j - 1]);
      if !ops[j - 1].DoReset? { UndisturbedIsCalm(ops, states, j - 1); }
    }
  }

  /** With no fault asked for since the last reset, a send is written at once, once, and that is
      all that happens, whatever was asked for before the reset. */
  lemma UndisturbedSendIsWritten(ops: seq<Op>, states: seq<ChaosState>, j: nat)
    requires IsChaosRun(ops, states) && |states| == |ops| + 1 && j < |ops| && ops[j].DoSend? && Undisturbed(ops, j)
    ensures var s, t := states[j], states[j + 1];
            && t.wire == s.wire + [Timed(|s.sends|, s.now)] && t.flights == s.flights && t.holds == s.holds
            && t.buffers == s.buffers && t.dropped == s.dropped && t.rolledOut == s.rolledOut
  {
    UndisturbedIsCalm(ops, states, j);
    RunOp(ops, states, j);
  }

  /** What no one had dispatched when a reset came never will be: the buffers are emptied, and
      the hold timers left pending find nothing. */
  lemma ResetForgets(ops: seq<Op>, states: seq<ChaosState>, j: nat, n: nat, id: nat)
    requires IsChaosRun(ops, states) && |states| == |ops| + 1 && j < n <= |ops| && ops[j].DoReset?
    requires id < |states[j].sends| && id !in states[j].dispatched
    ensures id !in states[n].dispatched
  {
    hide Perform, Accounted;
    RunOp(ops, states, j);
    ExactlyOneFate(ops, states, j + 1);
    ExactlyOneFate(ops, states, n);
    DropsStay(ops, states, j + 1, n);
    DiscardsStay(ops, states, j + 1, n);
    ResetEmpties(states[j], ops[j]);
    UndispatchedIsLost(states[j + 1], id);
    LostIsUndispatched(states[n], id);
  }

  lemma ResetEmpties(s: ChaosState, op: Op)
    requires OpEnabled(s, op) && op.DoReset?
    ensures Perform(s, op).buffers == map[]
    ensures Perform(s, op).sends == s.sends && Perform(s, op).dispatched == s.dispatched
  {
  }

  lemma UndispatchedIsLost(s: ChaosState, id: nat)
    requires Accounted(s) && id < |s.sends| && s.buffers == map[] && id !in s.dispatched
    ensures id in s.dropped || id in s.discarded
  {
    assert FateAt(s, {}, id);
    OccurrencesMember(s.dispatched, id);
    OccurrencesMember(s.dropped, id);
  }

  lemma LostIsUndispatched(s: ChaosState, id: nat)
    requires Accounted(s) && id < |s.sends| && (id in s.dropped || id in s.discarded)
    ensures id !in s.dispatched
  {
    assert FateAt(s, {}, id);
    OccurrencesMember(s.dispatched, id);
    OccurrencesMember(s.dropped, id);
  }

  lemma {:induction false} DiscardsStay(ops: seq<Op>, states: seq<ChaosState>, i: nat, n: nat)
    requires IsChaosRun(ops, states) && |states| == |ops| + 1 && i <= n <= |ops|
    ensures states[i].discarded <= states[n].discarded
  {
    hide Perform;
    if i < n {
      DiscardsStay(ops, states, i, n - 1);
      RunOp(ops, states, n - 1);
      OpOutage(states[n - 1], ops[n - 1]);
    }
  }

  // ---- one dispatch ----

  /** What `ts` has on top of `before` is of message `id`, due between `from` and `to`. */
  predicate AddsBetween(before: seq<Timed>, ts: seq<Timed>, id: nat, from: real, to: real) {
    before <= ts && forall k | |before| <= k < |ts| :: ts[k].id == id && from <= ts[k].at <= to
  }

  lemma JitterBetween(roll: real, ms: real)
    requires Unit(roll) && ms >= 0.0
    ensures -ms <= Jitter(roll, ms) <= ms
  {
    JitterBounded(roll, ms);
    Shrunk(-(roll * 2.0 - 1.0) - 0.5, ms);
    assert (roll * 2.0 - 1.0) * ms + ms == roll * 2.0 * ms;
  }

  /** When a copy made now with this roll is due. */
  function DueAt(s: ChaosState, roll: real): real {
    var delay := s.config.latencyMs + (2.0 * roll - 1.0) * s.config.jitterMs;
    if delay < 0.0 then s.now else s.now + delay
  }

  /** Some copy of `id` among the new ones is due then. */
  predicate HasCopyAt(s: ChaosState, t: ChaosState, id: nat, at: real)
    requires |s.flights| <= |t.flights| && |s.wire| <= |t.wire|
  {
    Timed(id, at) in t.flights[|s.flights|..] || Timed(id, at) in t.wire[|s.wire|..]
  }

  /** Each copy has a roll of its own. */
  lemma CopiesRollApart(s: ChaosState, id: nat, r: Rolls)
    requires ConfigOk(s.config) && ValidRolls(r) && r.drop >= s.config.dropRate
    ensures var t := Dispatch(s, id, r);
            && |s.flights| <= |t.flights| && |s.wire| <= |t.wire|
            && HasCopyAt(s, t, id, DueAt(s, r.jitter))
            && (r.duplicate < s.config.duplicateRate ==> HasCopyAt(s, t, id, DueAt(s, r.jitterAgain)))
  {
    var d := s.(dispatched := s.dispatched + [id]);
    hide Delay, Deliver;
    var once := Deliver(d, id, r.jitter);
    DeliverDue(d, id, r.jitter);
    if r.duplicate < s.config.duplicateRate {
      DeliverDue(once, id, r.jitterAgain);
      var t := Deliver(once, id, r.jitterAgain);
      CopyStays(d, once, t, id, DueAt(d, r.jitter));
      CopyLater(d, once, t, id, DueAt(once, r.jitterAgain));
    }
  }

  lemma CopyStays(s: ChaosState, u: ChaosState, t: ChaosState, id: nat, at: real)
    requires s.flights <= u.flights <= t.flights && s.wire <= u.wire <= t.wire && HasCopyAt(s, u, id, at)
    ensures HasCopyAt(s, t, id, at)
  {
    assert t.flights[|s.flights|..] == u.flights[|s.flights|..] + t.flights[|u.flights|..];
    assert t.wire[|s.wire|..] == u.wire[|s.wire|..] + t.wire[|u.wire|..];
  }

  lemma CopyLater(s: ChaosState, u: ChaosState, t: ChaosState, id: nat, at: real)
    requires s.flights <= u.flights <= t.flights && s.wire <= u.wire <= t.wire && HasCopyAt(u, t, id, at)
    ensures HasCopyAt(s, t, id, at)
  {
    assert t.flights[|s.flights|..] == u.flights[|s.flights|..] + t.flights[|u.flights|..];
    assert t.wire[|s.wire|..] == u.wire[|s.wire|..] + t.wire[|u.wire|..];
  }

  lemma DeliverDue(s: ChaosState, id: nat, roll: real)
    requires ConfigOk(s.config) && Unit(roll)
    ensures var t := Deliver(s, id, roll);
            && s.flights <= t.flights && s.wire <= t.wire && t.config == s.config && t.now == s.now
            && HasCopyAt(s, t, id, DueAt(s, roll))
  {
    var delay := Delay(s.config, roll);
    assert (s.flights + [Timed(id, s.now + delay)])[|s.flights|..] == [Timed(id, s.now + delay)];
    assert (s.wire + [Timed(id, s.now)])[|s.wire|..] == [Timed(id, s.now)];
  }

  /** What several targets had buffered, one after the other. */
  function BufferedOf(s: ChaosState, targets: seq<ParticipantId>): seq<nat> {
    if |targets| == 0 then [] else
    var n := |targets| - 1;
    BufferedOf(s, targets[..n]) + Buffer(s, targets[n])
  }

  lemma {:induction false} DispatchEachInOrder(s: ChaosState, ids: seq<nat>, rolls: nat -> Rolls)
    ensures DispatchEach(s, ids, rolls).dispatched == s.dispatched + ids
    ensures DispatchEach(s, ids, rolls).buffers == s.buffers
  {
    if |ids| > 0 {
      var n := |ids| - 1;
      DispatchEachInOrder(s, ids[..n], rolls);
      DispatchUntouched(DispatchEach(s, ids[..n], rolls), ids[n], rolls(n));
      assert s.dispatched + ids[..n] + [ids[n]] == s.dispatched + ids;
    } else {
      assert s.dispatched + ids == s.dispatched;
    }
  }

  lemma FlushOneInOrder(s: ChaosState, pid: ParticipantId, rolls: nat -> Rolls)
    ensures var t := FlushOne(s, pid, rolls);
            && t.dispatched == s.dispatched + Buffer(s, pid)
            && forall q :: Buffer(t, q) == if q == pid then [] else Buffer(s, q)
  {
    DispatchEachInOrder(s.(buffers := s.buffers - {pid}), Buffer(s, pid), rolls);
  }

  /** A flush dispatches what its targets had buffered, in the order it came in, and leaves
      nothing of it behind; the others' buffers stay. */
  lemma {:induction false} FlushInOrder(s: ChaosState, targets: seq<ParticipantId>, rolls: nat -> nat -> Rolls)
    requires forall i, j | 0 <= i < j < |targets| :: targets[i] != targets[j]
    ensures var t := Flush(s, targets, rolls);
            && t.dispatched == s.dispatched + BufferedOf(s, targets)
            && forall pid :: Buffer(t, pid) == if pid in targets then [] else Buffer(s, pid)
  {
    hide FlushOne, Buffer;
    if |targets| > 0 {
      var n := |targets| - 1;
      FlushInOrder(s, targets[..n], rolls);
      FlushOneInOrder(Flush(s, targets[..n], rolls), targets[n], rolls(n));
      assert forall pid :: pid in targets <==> pid in targets[..n] || pid == targets[n];
      assert s.dispatched + BufferedOf(s, targets[..n]) + Buffer(s, targets[n])
          == s.dispatched + BufferedOf(s, targets);
    }
  }

  /** Every copy a dispatch makes is delayed by the latency, give or take the jitter: written now
      only if that may be nothing. A roll below the drop rate makes none, otherwise there is one,
      or two if the other roll is below the duplicate rate. */
  lemma DispatchDelays(s: ChaosState, id: nat, r: Rolls)
    requires ConfigOk(s.config) && ValidRolls(r)
    ensures var t, c := Dispatch(s, id, r), s.config;
            && AddsBetween(s.flights, t.flights, id, s.now + c.latencyMs - c.jitterMs, s.now + c.latencyMs + c.jitterMs)
            && AddsBetween(s.wire, t.wire, id, s.now, s.now)
            && (|t.wire| > |s.wire| ==> c.latencyMs <= c.jitterMs)
            && |t.flights| + |t.wire| - |s.flights| - |s.wire| ==
               (if r.drop < c.dropRate then 0 else if r.duplicate < c.duplicateRate then 2 else 1)
  {
    JitterBetween(r.jitter, s.config.jitterMs);
    JitterBetween(r.jitterAgain, s.config.jitterMs);
  }

  /** Any delay in that range, and none is excluded, is some roll's. */
  lemma DelayReached(c: ChaosConfig, d: real) returns (roll: real)
    requires ConfigOk(c) && c.jitterMs > 0.0 && d >= 0.0
    requires c.latencyMs - c.jitterMs <= d < c.latencyMs + c.jitterMs
    ensures Unit(roll) && Delay(c, roll) == d
  {
    var x := Share(d - c.latencyMs, c.jitterMs);
    roll := (x + 1.0) / 2.0;
    assert roll * 2.0 - 1.0 == x;
  }

  lemma Share(part: real, whole: real) returns (x: real)
    requires whole > 0.0 && -whole <= part < whole
    ensures -1.0 <= x < 1.0 && x * whole == part
  {
    x := part / whole;
  }

  /** A buffered send fills the recipient's buffer up to the window, and past it releases one
      entry, each with the same share of picks (`Arithmetic.FloorIs`): those before it stay in
      place, those behind it move up. */
  lemma BufferedSendReleases(s: ChaosState, pid: ParticipantId, pick: real, r: Rolls)
    requires Unit(pick) && !(s.partitionEndsAt.Some? && s.now < s.partitionEndsAt.value) && s.config.reorderWindow > 0
    ensures var t, id := Send(s, pid, pick, r), |s.sends|;
            var all := Buffer(s, pid) + [id];
            && (|all| <= s.config.reorderWindow ==> Buffer(t, pid) == all && t.dispatched == s.dispatched)
            && (|all| > s.config.reorderWindow ==>
                  var k := FloorScaled(pick, |all|);
                  Buffer(t, pid) == all[..k] + all[k + 1..] && t.dispatched == s.dispatched + [all[k]])
            && (forall q | q != pid :: Buffer(t, q) == Buffer(s, q))
            && t.holds == s.holds + [Timed(id, s.now + 200.0)]
  {
    hide Dispatch, Release, FloorScaled;
    var pushed := Pushed(s, pid);
    var n := |Buffer(pushed, pid)|;
    if n > s.config.reorderWindow {
      ReleasedEntry(pushed, pid, FloorScaled(pick, n), r);
      assert Buffer(pushed, pid) == Buffer(s, pid) + [|s.sends|];
      var t := Send(s, pid, pick, r);
      assert t == Release(pushed, pid, FloorScaled(pick, n), r).(holds := t.holds);
      assert forall q :: Buffer(t, q) == Buffer(Release(pushed, pid, FloorScaled(pick, n), r), q);
    }
  }

  lemma ReleasedEntry(s: ChaosState, pid: ParticipantId, k: nat, r: Rolls)
    requires k < |Buffer(s, pid)|
    ensures var t, all := Release(s, pid, k, r), Buffer(s, pid);
            && Buffer(t, pid) == all[..k] + all[k + 1..] && t.dispatched == s.dispatched + [all[k]]
            && (forall q | q != pid :: Buffer(t, q) == Buffer(s, q)) && t.holds == s.holds
  {
    DispatchUntouched(WithoutEntry(s, pid, k), Buffer(s, pid)[k], r);
  }

  // ---- the order of writes ----

  /** What an operation writes, it writes at the end, now. */
  predicate WritesNow(s: ChaosState, t: ChaosState) {
    && t.now == s.now && s.wire <= t.wire
    && forall k | |s.wire| <= k < |t.wire| :: t.wire[k].at == s.now
  }

  lemma DispatchWrites(s: ChaosState, id: nat, r: Rolls)
    ensures WritesNow(s, Dispatch(s, id, r))
  {
  }

  lemma {:induction false} DispatchEachWrites(s: ChaosState, ids: seq<nat>, rolls: nat -> Rolls)
    ensures WritesNow(s, DispatchEach(s, ids, rolls))
  {
    if |ids| > 0 {
      var n := |ids| - 1;
      DispatchEachWrites(s, ids[..n], rolls);
      DispatchWrites(DispatchEach(s, ids[..n], rolls), ids[n], rolls(n));
    }
  }

  lemma {:induction false} FlushWrites(s: ChaosState, targets: seq<ParticipantId>, rolls: nat -> nat -> Rolls)
    ensures WritesNow(s, Flush(s, targets, rolls))
  {
    if |targets| > 0 {
      var n := |targets| - 1;
      FlushWrites(s, targets[..n], rolls);
      var t := Flush(s, targets[..n], rolls);
      DispatchEachWrites(t.(buffers := t.buffers - {targets[n]}), Buffer(t, targets[n]), rolls(n));
    }
  }

  lemma HeldBackWrites(s: ChaosState, pid: ParticipantId, id: nat, pick: real, r: Rolls)
    requires Unit(pick)
    ensures WritesNow(s, HeldBack(s, pid, id, pick, r))
  {
    hide Dispatch;
    var pushed := Appended(s, pid, id);
    var n := |Buffer(pushed, pid)|;
    if n > s.config.reorderWindow {
      var k := FloorScaled(pick, n);
      DispatchWrites(WithoutEntry(pushed, pid, k), Buffer(pushed, pid)[k], r);
    }
  }

  lemma OpWrites(s: ChaosState, op: Op)
    requires OpEnabled(s, op) && !op.Advance?
    ensures WritesNow(s, Perform(s, op))
  {
    hide Dispatch, HeldBack;
    match op {
      case DoSend(pid, pick, r) =>
        DispatchWrites(Sent(s, pid), |s.sends|, r);
        HeldBackWrites(Sent(s, pid), pid, |s.sends|, pick, r);
      case DoHold(k, r) =>
        var t, pid := s.(holds := RemoveAt(s.holds, k)), s.sends[s.holds[k].id].pid;
        var at := IndexIn(Buffer(s, pid), s.holds[k].id);
        if at.Some? { DispatchWrites(WithoutEntry(t, pid, at.value), s.holds[k].id, r); }
      case DoFlush(targets, each) => FlushWrites(s, targets, each);
      case _ =>
    }
  }

  /** Writes stand in the order of their times, none later than now. */
  predicate InOrderOfTime(s: ChaosState) {
    && (forall k | 0 <= k < |s.wire| :: s.wire[k].at <= s.now)
    && (forall j, k | 0 <= j < k < |s.wire| :: s.wire[j].at <= s.wire[k].at)
  }

  /** In every run, however late its timers, the times of what was written never fall. */
  lemma {:induction false} WireInOrder(ops: seq<Op>, states: seq<ChaosState>, i: nat)
    requires IsChaosRun(ops, states) && i <= |ops|
    ensures InOrderOfTime(states[i])
  {
    hide Perform;
    if i > 0 {
      WireInOrder(ops, states, i - 1);
      if ops[i - 1].Advance? {
        Advances(states[i - 1], ops[i - 1]);
      } else {
        OpWrites(states[i - 1], ops[i - 1]);
      }
    }
  }

  lemma Advances(s: ChaosState, op: Op)
    requires OpEnabled(s, op) && op.Advance?
    ensures Perform(s, op) == s.(now := op.to) && op.to >= s.now
  {
  }

  lemma {:induction false} CountTimedMember(ts: seq<Timed>, id: nat)
    requires forall k | 0 <= k < |ts| :: ts[k].id != id
    ensures CountTimed(ts, id) == 0
  {
    if |ts| > 0 { CountTimedMember(ts[..|ts| - 1], id); }
  }

  /** The message was written once or twice, each time by its deadline, and none of it is pending. */
  predicate WrittenInTime(s: ChaosState, id: nat, late: real)
    requires id < |s.sends|
  {
    && 1 <= CountTimed(s.wire, id) <= 2 && CountTimed(s.flights, id) == 0
    && forall k | 0 <= k < |s.wire| && s.wire[k].id == id :: s.wire[k].at <= s.sends[id].at + Deadline(late)
  }

  /** If no timer fires more than `late` ms after it is due, then 2700 + 2 * late ms after its
      send a message neither dropped nor discarded is on the wire, once or twice, and was
      written in time. */
  lemma OnTheWireInTime(ops: seq<Op>, states: seq<ChaosState>, late: real, i: nat, id: nat)
    requires IsChaosRun(ops, states) && PunctualRun(ops, states, late) && i <= |ops| && id < |states[i].sends|
    requires states[i].now > states[i].sends[id].at + Deadline(late)
    ensures var s := states[i];
            id in s.dropped || id in s.discarded || id in s.rolledOut || WrittenInTime(s, id, late)
  {
    var s := states[i];
    ExactlyOneFate(ops, states, i);
    BoundsHold(ops, states, i);
    TimersMeetDeadlines(ops, states, late, i);
    assert FateAt(s, {}, id);
    var pid := s.sends[id].pid;
    assert id !in Buffer(s, pid) by {
      forall k | 0 <= k < |Buffer(s, pid)| ensures Buffer(s, pid)[k] != id { BufferedIsRecent(s, pid, k, late); }
    }
    CountTimedMember(s.flights, id);
    OccurrencesMember(Buffer(s, pid), id);
    OccurrencesMember(s.dropped, id);
    OccurrencesMember(s.rolledOut, id);
  }
}
