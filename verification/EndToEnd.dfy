/** The tick, the chaos layer and the recipient's view together: what the layer writes to one
    recipient is one of the deliveries Convergence speaks of. */
module EndToEnd {
  import opened Wrappers
  import opened Protocol
  import opened Receiver
  import opened Scheduler
  import opened Coalescing
  import opened Convergence
  import opened PatchHistory
  import opened Hub
  import Chaos
  import Projection

  /** What each send carried, by its index. */
  type Payload = nat -> OutboundMessage

  /** The messages written to one recipient, in the order in which they were. */
  function Received(wire: seq<Chaos.Timed>, sends: seq<Chaos.SendRecord>, pid: ParticipantId, payload: Payload)
    : seq<OutboundMessage>
  {
    if |wire| == 0 then [] else
    var id := wire[|wire| - 1].id;
    Received(wire[..|wire| - 1], sends, pid, payload)
      + if id < |sends| && sends[id].pid == pid then [payload(id)] else []
  }

  /** Nothing is received that was not sent to this recipient, and everything written to it is. */
  lemma {:induction false} ReceivedIffWritten(
    wire: seq<Chaos.Timed>, sends: seq<Chaos.SendRecord>, pid: ParticipantId, payload: Payload, m: OutboundMessage)
    ensures m in Received(wire, sends, pid, payload) <==>
              exists k :: 0 <= k < |wire| && wire[k].id < |sends| && sends[wire[k].id].pid == pid
                  && payload(wire[k].id) == m
  {
    if |wire| > 0 {
      var n := |wire| - 1;
      ReceivedIffWritten(wire[..n], sends, pid, payload, m);
      if k :| 0 <= k < |wire| && wire[k].id < |sends| && sends[wire[k].id].pid == pid && payload(wire[k].id) == m {
        if k < n { assert wire[..n][k] == wire[k]; }
      }
    }
  }

  lemma {:induction false} ReceivedConcat(
    a: seq<Chaos.Timed>, b: seq<Chaos.Timed>, sends: seq<Chaos.SendRecord>, pid: ParticipantId, payload: Payload)
    ensures Received(a + b, sends, pid, payload) == Received(a, sends, pid, payload) + Received(b, sends, pid, payload)
  {
    if |b| == 0 {
      assert a + b == a;
    } else {
      ReceivedConcat(a, b[..|b| - 1], sends, pid, payload);
      assert (a + b)[..|a + b| - 1] == a + b[..|b| - 1];
    }
  }

  // ---- before and after a point of time ----

  /** How many writes come before the first one at `turn` or later. */
  function WrittenBefore(wire: seq<Chaos.Timed>, turn: real): (j: nat)
    ensures j <= |wire| && (forall k | 0 <= k < j :: wire[k].at < turn) && (j < |wire| ==> wire[j].at >= turn)
  {
    if |wire| == 0 || wire[0].at >= turn then 0 else 1 + WrittenBefore(wire[1..], turn)
  }

  predicate IsSentTo(s: Chaos.ChaosState, pid: ParticipantId, id: nat) {
    id < |s.sends| && s.sends[id].pid == pid
  }

  /** What is written before `turn` was sent before it, and what is written from then on was
      sent no more than a deadline before. */
  lemma SplitByTime(ops: seq<Chaos.Op>, states: seq<Chaos.ChaosState>, late: real, n: nat, turn: real)
    requires Chaos.IsChaosRun(ops, states) && Chaos.PunctualRun(ops, states, late) && n <= |ops|
    ensures var s := states[n];
            var j := WrittenBefore(s.wire, turn);
            forall k | 0 <= k < |s.wire| ::
              && s.wire[k].id < |s.sends|
              && if k < j then s.sends[s.wire[k].id].at < turn
                 else s.wire[k].at >= turn && s.sends[s.wire[k].id].at + Chaos.Deadline(late) >= turn
  {
    Chaos.TimersMeetDeadlines(ops, states, late, n);
    Chaos.WireInOrder(ops, states, n);
  }

  /** What is received in the end, in these two parts. */
  function Early(s: Chaos.ChaosState, pid: ParticipantId, payload: Payload, turn: real): seq<OutboundMessage> {
    Received(s.wire[..WrittenBefore(s.wire, turn)], s.sends, pid, payload)
  }

  function Late(s: Chaos.ChaosState, pid: ParticipantId, payload: Payload, turn: real): seq<OutboundMessage> {
    Received(s.wire[WrittenBefore(s.wire, turn)..], s.sends, pid, payload)
  }

  lemma EarlyThenLate(s: Chaos.ChaosState, pid: ParticipantId, payload: Payload, turn: real)
    ensures Received(s.wire, s.sends, pid, payload) == Early(s, pid, payload, turn) + Late(s, pid, payload, turn)
  {
    var j := WrittenBefore(s.wire, turn);
    ReceivedConcat(s.wire[..j], s.wire[j..], s.sends, pid, payload);
    assert s.wire == s.wire[..j] + s.wire[j..];
  }

  /** What is received early was sent before `turn`. */
  lemma EarlyIsSentEarly(
    ops: seq<Chaos.Op>, states: seq<Chaos.ChaosState>, late: real, n: nat, pid: ParticipantId, payload: Payload,
    turn: real, m: OutboundMessage)
    returns (id: nat)
    requires Chaos.IsChaosRun(ops, states) && Chaos.PunctualRun(ops, states, late) && n <= |ops|
    requires m in Early(states[n], pid, payload, turn)
    ensures IsSentTo(states[n], pid, id) && payload(id) == m && states[n].sends[id].at < turn
  {
    var s := states[n];
    var early := s.wire[..WrittenBefore(s.wire, turn)];
    SplitByTime(ops, states, late, n, turn);
    ReceivedIffWritten(early, s.sends, pid, payload, m);
    var k :| 0 <= k < |early| && early[k].id < |s.sends| && s.sends[early[k].id].pid == pid
             && payload(early[k].id) == m;
    assert early[k] == s.wire[k];
    id := early[k].id;
  }

  /** What is received late was not sent long before. */
  lemma LateIsSentLate(
    ops: seq<Chaos.Op>, states: seq<Chaos.ChaosState>, late: real, n: nat, pid: ParticipantId, payload: Payload,
    turn: real, m: OutboundMessage)
    returns (id: nat)
    requires Chaos.IsChaosRun(ops, states) && Chaos.PunctualRun(ops, states, late) && n <= |ops|
    requires m in Late(states[n], pid, payload, turn)
    ensures IsSentTo(states[n], pid, id) && payload(id) == m
    ensures states[n].sends[id].at + Chaos.Deadline(late) >= turn
  {
    var s := states[n];
    var j := WrittenBefore(s.wire, turn);
    var rest := s.wire[j..];
    SplitByTime(ops, states, late, n, turn);
    ReceivedIffWritten(rest, s.sends, pid, payload, m);
    var k :| 0 <= k < |rest| && rest[k].id < |s.sends| && s.sends[rest[k].id].pid == pid && payload(rest[k].id) == m;
    assert rest[k] == s.wire[j + k];
    id := rest[k].id;
  }

  /** Whatever else went through the layer -- welcomes, joins, leaves, pongs -- what it writes to a
      recipient from `turn` on is a delivery of the session's patches, however it drops, repeats,
      delays and reorders, if only patches were sent to the recipient since a deadline before. */
  lemma WireIsDelivery(
    ops: seq<Chaos.Op>, states: seq<Chaos.ChaosState>, late: real, n: nat, pid: ParticipantId, payload: Payload,
    turn: real, steps: seq<(Step, nat)>, worlds: seq<World>)
    requires Chaos.IsChaosRun(ops, states) && Chaos.PunctualRun(ops, states, late) && n <= |ops|
    requires |worlds| == |steps| + 1
    requires forall id: nat | IsSentTo(states[n], pid, id) && states[n].sends[id].at + Chaos.Deadline(late) >= turn ::
               exists i :: 0 <= i < |steps| && Emission(steps, worlds, i) == Some(payload(id))
    ensures DeliveryOf(steps, worlds, Late(states[n], pid, payload, turn))
    ensures Received(states[n].wire, states[n].sends, pid, payload) ==
            Early(states[n], pid, payload, turn) + Late(states[n], pid, payload, turn)
  {
    EarlyThenLate(states[n], pid, payload, turn);
    forall m | m in Late(states[n], pid, payload, turn)
      ensures m.Patch? && exists i :: 0 <= i < |steps| && Emission(steps, worlds, i) == Some(m)
    {
      var id := LateIsSentLate(ops, states, late, n, pid, payload, turn, m);
    }
  }

  // ---- convergence ----

  /** `id` is a send to `pid` of a patch numbered `floor` or later. */
  predicate IsTurn(s: Chaos.ChaosState, pid: ParticipantId, payload: Payload, floor: int, id: nat) {
    IsSentTo(s, pid, id) && IsPatchFrom(payload(id), floor)
  }

  /** Of what was sent to `pid`, each message but a patch leaves the field as it is, or at `value`,
      or was sent more than a deadline before every patch numbered `floor` or later. */
  ghost predicate InTurn(
    s: Chaos.ChaosState, pid: ParticipantId, payload: Payload, late: real, floor: int, of: ParticipantId, f: Field,
    value: Point)
  {
    forall id: nat | IsSentTo(s, pid, id) && !payload(id).Patch? ::
      || Harmless(payload(id), of, f, value)
      || forall x: nat | IsTurn(s, pid, payload, floor, x) :: s.sends[id].at + Chaos.Deadline(late) < s.sends[x].at
  }

  /** Each patch numbered `floor` or later that was sent to `pid` is one the session broadcast. */
  ghost predicate Broadcast(
    s: Chaos.ChaosState, pid: ParticipantId, payload: Payload, floor: int, steps: seq<(Step, nat)>, worlds: seq<World>)
    requires |worlds| == |steps| + 1
  {
    forall id: nat | IsTurn(s, pid, payload, floor, id) ::
      exists i :: 0 <= i < |steps| && Emission(steps, worlds, i) == Some(payload(id))
  }

  /** The first of those sends. */
  lemma FirstTurn(s: Chaos.ChaosState, pid: ParticipantId, payload: Payload, floor: int, id: nat) returns (first: nat)
    requires IsTurn(s, pid, payload, floor, id)
    ensures IsTurn(s, pid, payload, floor, first)
    ensures forall x: nat | IsTurn(s, pid, payload, floor, x) :: s.sends[first].at <= s.sends[x].at
  {
    first := id;
    for n := 0 to |s.sends|
      invariant IsTurn(s, pid, payload, floor, first)
      invariant forall x: nat | x < n && IsTurn(s, pid, payload, floor, x) :: s.sends[first].at <= s.sends[x].at
    {
      if IsTurn(s, pid, payload, floor, n) && s.sends[n].at < s.sends[first].at { first := n; }
    }
  }

  lemma {:induction false} WrittenSomewhere(wire: seq<Chaos.Timed>, id: nat) returns (k: nat)
    requires Chaos.CountTimed(wire, id) > 0
    ensures k < |wire| && wire[k].id == id
  {
    var n := |wire| - 1;
    if wire[n].id == id { k := n; } else { k := WrittenSomewhere(wire[..n], id); }
  }

  /** A message sent from `turn` on that survives is received late. */
  lemma SurvivorIsLate(
    ops: seq<Chaos.Op>, states: seq<Chaos.ChaosState>, late: real, n: nat, pid: ParticipantId, payload: Payload,
    turn: real, id: nat)
    requires Chaos.IsChaosRun(ops, states) && Chaos.PunctualRun(ops, states, late) && n <= |ops|
    requires IsSentTo(states[n], pid, id) && states[n].sends[id].at >= turn
    requires states[n].now > states[n].sends[id].at + Chaos.Deadline(late)
    requires id !in states[n].dropped && id !in states[n].discarded && id !in states[n].rolledOut
    ensures payload(id) in Late(states[n], pid, payload, turn)
  {
    var s := states[n];
    Chaos.OnTheWireInTime(ops, states, late, n, id);
    SplitByTime(ops, states, late, n, turn);
    var k := WrittenSomewhere(s.wire, id);
    var j := WrittenBefore(s.wire, turn);
    assert s.wire[j..][k - j] == s.wire[k];
    ReceivedIffWritten(s.wire[j..], s.sends, pid, payload, payload(id));
  }

  /** What was received before the turn holds no patch that late, and what was received after it
      disturbs nothing. */
  lemma TurnSplits(
    steps: seq<(Step, nat)>, worlds: seq<World>, ops: seq<Chaos.Op>, states: seq<Chaos.ChaosState>, late: real,
    n: nat, pid: ParticipantId, payload: Payload, first: nat, floor: int, of: ParticipantId, f: Field, value: Point)
    requires Chaos.IsChaosRun(ops, states) && Chaos.PunctualRun(ops, states, late) && n <= |ops|
    requires |worlds| == |steps| + 1 && Broadcast(states[n], pid, payload, floor, steps, worlds)
    requires InTurn(states[n], pid, payload, late, floor, of, f, value) && IsTurn(states[n], pid, payload, floor, first)
    requires forall x: nat | IsTurn(states[n], pid, payload, floor, x) ::
               states[n].sends[first].at <= states[n].sends[x].at
    ensures var turn := states[n].sends[first].at;
            && (forall m | m in Early(states[n], pid, payload, turn) :: !IsPatchFrom(m, floor))
            && Undisturbed(steps, worlds, Late(states[n], pid, payload, turn), floor, of, f, value)
  {
    var s, turn := states[n], states[n].sends[first].at;
    hide Chaos.IsChaosRun, Chaos.PunctualRun, Early, Late, Emission, Harmless;
    forall m | m in Early(s, pid, payload, turn) ensures !IsPatchFrom(m, floor) {
      var sent := EarlyIsSentEarly(ops, states, late, n, pid, payload, turn, m);
    }
    forall m | m in Late(s, pid, payload, turn)
      ensures if m.Patch?
              then m.seqno >= floor ==> exists i :: 0 <= i < |steps| && Emission(steps, worlds, i) == Some(m)
              else Harmless(m, of, f, value)
    {
      var sent := LateIsSentLate(ops, states, late, n, pid, payload, turn, m);
      if m.Patch? && m.seqno >= floor { assert IsTurn(s, pid, payload, floor, sent); }
    }
  }

  /** Let tick `k` be the session's last dirty one, and `id` the send to `pid` of a patch numbered
      `k` or later, dropped neither by a partition nor by a roll nor by a reset. If no timer fires
      more than `late` ms after it is due, then 2700 + 2 * late ms after that send the recipient
      holds, of every field that tick mentions, what the server held then -- whatever else the
      layer has lost, repeated, delayed or reordered, however it was reconfigured, and whatever
      else was sent through it: only a message that would change the field must have been sent
      more than 2700 + 2 * late ms before the patches numbered `k` or later. */
  lemma ConvergesThroughChaos(
    viewer: ParticipantId, steps: seq<(Step, nat)>, worlds: seq<World>, k: nat,
    ops: seq<Chaos.Op>, states: seq<Chaos.ChaosState>, late: real, n: nat, pid: ParticipantId, payload: Payload,
    id: nat, v: View, of: ParticipantId, f: Field, value: Point)
    requires IsRun(viewer, steps, worlds) && LastDirtyTick(steps, worlds, k)
    requires Mention(steps[k].0.patches, of, f) == Some(value) && Fresh(v.lastPatchSeq, worlds[k].seqno + 1)
    requires Chaos.IsChaosRun(ops, states) && Chaos.PunctualRun(ops, states, late) && n <= |ops|
    requires Broadcast(states[n], pid, payload, worlds[k].seqno + 1, steps, worlds)
    requires InTurn(states[n], pid, payload, late, worlds[k].seqno + 1, of, f, value)
    requires IsTurn(states[n], pid, payload, worlds[k].seqno + 1, id)
    requires states[n].now > states[n].sends[id].at + Chaos.Deadline(late)
    requires id !in states[n].dropped && id !in states[n].discarded && id !in states[n].rolledOut
    ensures ServerValue(worlds[k].session.value, of, f) == Some(value)
    ensures Held(DeliverAll(v, Received(states[n].wire, states[n].sends, pid, payload)).participants, of, f) ==
            Some(value)
  {
    var s, floor := states[n], worlds[k].seqno + 1;
    hide IsRun, Chaos.IsChaosRun, Chaos.PunctualRun, Early, Late, Received, DeliverAll, Held, ServerValue, InTurn;
    var first := FirstTurn(s, pid, payload, floor, id);
    var turn := s.sends[first].at;
    EarlyThenLate(s, pid, payload, turn);
    SurvivorIsLate(ops, states, late, n, pid, payload, turn, id);
    TurnSplits(steps, worlds, ops, states, late, n, pid, payload, first, floor, of, f, value);
    var a, b := Early(s, pid, payload, turn), Late(s, pid, payload, turn);
    ConvergesAmidOthers(viewer, steps, worlds, k, v, a, b, of, f, value);
  }

  const NO_LUCK := Chaos.Rolls(0.5, 0.5, 0.5, 0.5)

  /** A run the result speaks of: a message of any kind, a welcome say, goes through the layer
      first, and a patch 3 s later. */
  lemma WelcomedThenPatched(
    pid: ParticipantId, first: OutboundMessage, patch: OutboundMessage, of: ParticipantId, f: Field, value: Point)
    returns (ops: seq<Chaos.Op>, states: seq<Chaos.ChaosState>, payload: Payload)
    requires !first.Patch? && patch.Patch?
    ensures Chaos.IsChaosRun(ops, states) && Chaos.PunctualRun(ops, states, 0.0) && |ops| == 4
    ensures payload(0) == first && payload(1) == patch && IsTurn(states[4], pid, payload, patch.seqno, 1)
    ensures InTurn(states[4], pid, payload, 0.0, patch.seqno, of, f, value)
    ensures states[4].now > states[4].sends[1].at + Chaos.Deadline(0.0)
    ensures states[4].dropped == [] && states[4].discarded == {} && states[4].rolledOut == []
    ensures Received(states[4].wire, states[4].sends, pid, payload) == [first, patch]
  {
    hide InTurn, Received, IsTurn, Chaos.Send;
    payload := (id: nat) => if id == 0 then first else patch;
    var send := Chaos.DoSend(pid, 0.5, NO_LUCK);
    ops := [send, Chaos.Advance(3000.0), send, Chaos.Advance(6000.0)];
    var s1 := SentAtOnce(Chaos.CLEAN, pid);
    var s2 := s1.(now := 3000.0);
    var s3 := SentAtOnce(s2, pid);
    states := [Chaos.CLEAN, s1, s2, s3, s3.(now := 6000.0)];
    ReceivedBoth(states[4], pid, payload, of, f, value);
  }

  lemma ReceivedBoth(
    s: Chaos.ChaosState, pid: ParticipantId, payload: Payload, of: ParticipantId, f: Field, value: Point)
    requires s.sends == [Chaos.SendRecord(pid, 0.0), Chaos.SendRecord(pid, 3000.0)]
    requires s.wire == [Chaos.Timed(0, 0.0), Chaos.Timed(1, 3000.0)] && !payload(0).Patch? && payload(1).Patch?
    ensures IsTurn(s, pid, payload, payload(1).seqno, 1)
    ensures InTurn(s, pid, payload, 0.0, payload(1).seqno, of, f, value)
    ensures Received(s.wire, s.sends, pid, payload) == [payload(0), payload(1)]
  {
    var first, second := [Chaos.Timed(0, 0.0)], [Chaos.Timed(1, 3000.0)];
    ReceivedConcat(first, second, s.sends, pid, payload);
    assert s.wire == first + second && first[..0] == second[..0] == [];
    assert Received(first, s.sends, pid, payload) == [payload(0)];
    assert Received(second, s.sends, pid, payload) == [payload(1)];
  }

  /** With no fault configured a send is written at once. */
  lemma SentAtOnce(s: Chaos.ChaosState, pid: ParticipantId) returns (t: Chaos.ChaosState)
    requires s.config == Chaos.DEFAULT_CHAOS_CONFIG && s.partitionEndsAt.None?
    ensures t == Chaos.Send(s, pid, 0.5, NO_LUCK)
    ensures t == s.(sends := s.sends + [Chaos.SendRecord(pid, s.now)],
                    wire := s.wire + [Chaos.Timed(|s.sends|, s.now)], dispatched := s.dispatched + [|s.sends|])
  {
    t := Chaos.Send(s, pid, 0.5, NO_LUCK);
  }

  // ---- the whole server ----

  /** The patches sent to `pid` through the layer are among those handed over for it; of other
      messages nothing is said. */
  ghost predicate SendsHanded(s: Chaos.ChaosState, pid: ParticipantId, payload: Payload, handed: seq<Handoff>) {
    forall id: nat | IsSentTo(s, pid, id) && payload(id).Patch? :: payload(id) in Projection.Inbox(handed, pid)
  }

  lemma HandedIsBroadcast(
    own: Projection.Own, s: Chaos.ChaosState, handed: seq<Handoff>, viewer: ParticipantId, payload: Payload, floor: int)
    requires |own.worlds| == |own.steps| + 1 && Projection.Emits(own, handed, viewer)
    requires SendsHanded(s, viewer, payload, handed)
    ensures Broadcast(s, viewer, payload, floor, own.steps, own.worlds)
  {
    hide Emission;
    forall id: nat | IsTurn(s, viewer, payload, floor, id)
      ensures exists i :: 0 <= i < |own.steps| && Emission(own.steps, own.worlds, i) == Some(payload(id))
    {
      assert own.Emitted(payload(id));
    }
  }

  /** The viewer's own run, and its last dirty tick. */
  lemma OwnRun(
    steps: seq<Projection.SiteStep>, sites: seq<Projection.Site>, opens: seq<set<nat>>,
    home: ParticipantId -> SessionId, viewer: ParticipantId, i: nat, t: nat)
    returns (own: Projection.Own, k: nat)
    requires Projection.IsSiteRun(steps, sites, opens) && i <= |steps|
    requires Projection.Keeps(steps, sites, opens, home, viewer, i)
    requires Projection.LastFlushOf(steps, home(viewer), i) == Some(t)
    ensures |own.worlds| == |own.steps| + 1 && Projection.Emits(own, sites[i].handed, viewer)
    ensures IsRun(viewer, own.steps, own.worlds) && LastDirtyTick(own.steps, own.worlds, k)
    ensures own.worlds[k].seqno == sites[t].seqno
    ensures home(viewer) in sites[t].st.sessions && own.worlds[k].session == Some(sites[t].st.sessions[home(viewer)])
    ensures own.steps[k].0.patches == Projection.OrderFor(steps[t], home(viewer))
  {
    hide Projection.Keeps, Projection.Shows, IsRun, Projection.Homed, Projection.Emits, Projection.OrderFor;
    own := Projection.ServerRunProjects(steps, sites, opens, home, viewer, i);
    k := own.Flush().value;
  }

  lemma OwnThroughChaos(
    own: Projection.Own, k: nat, handed: seq<Handoff>, viewer: ParticipantId,
    ops: seq<Chaos.Op>, states: seq<Chaos.ChaosState>, late: real, n: nat, payload: Payload, id: nat,
    of: ParticipantId, f: Field, value: Point)
    requires |own.worlds| == |own.steps| + 1 && Projection.Emits(own, handed, viewer)
    requires IsRun(viewer, own.steps, own.worlds) && LastDirtyTick(own.steps, own.worlds, k)
    requires Mention(own.steps[k].0.patches, of, f) == Some(value)
    requires Chaos.IsChaosRun(ops, states) && Chaos.PunctualRun(ops, states, late) && n <= |ops|
    requires SendsHanded(states[n], viewer, payload, handed)
    requires InTurn(states[n], viewer, payload, late, own.worlds[k].seqno + 1, of, f, value)
    requires IsTurn(states[n], viewer, payload, own.worlds[k].seqno + 1, id)
    requires states[n].now > states[n].sends[id].at + Chaos.Deadline(late)
    requires id !in states[n].dropped && id !in states[n].discarded && id !in states[n].rolledOut
    ensures ServerValue(own.worlds[k].session.value, of, f) == Some(value)
    ensures var received := Received(states[n].wire, states[n].sends, viewer, payload);
            Held(DeliverAll(EMPTY_VIEW, received).participants, of, f) == Some(value)
  {
    HandedIsBroadcast(own, states[n], handed, viewer, payload, own.worlds[k].seqno + 1);
    hide Projection.Emits, Broadcast, IsRun, Chaos.IsChaosRun, Chaos.PunctualRun, InTurn, IsTurn, Received, SendsHanded;
    ConvergesThroughChaos(
      viewer, own.steps, own.worlds, k, ops, states, late, n, viewer, payload, id, EMPTY_VIEW, of, f, value);
  }

  /** Any run of the whole server, whatever its sessions, participants and sockets, whose patches
      pass through the chaos layer, amid whatever else is sent through it. Let step `t` be the last
      tick at which the viewer's session had something dirty. As soon as one patch sent to the
      viewer from then on has survived and had its 2700 + 2 * late ms, the viewer, rebuilding from
      nothing all that was written to it, holds what the server held at `t` of every field that
      tick mentions, if every other message to it that would change the field was sent more than
      2700 + 2 * late ms before those patches. */
  lemma ServerConvergesThroughChaos(
    steps: seq<Projection.SiteStep>, sites: seq<Projection.Site>, opens: seq<set<nat>>,
    home: ParticipantId -> SessionId, viewer: ParticipantId, i: nat, t: nat,
    ops: seq<Chaos.Op>, states: seq<Chaos.ChaosState>, late: real, n: nat, payload: Payload, id: nat,
    of: ParticipantId, f: Field, value: Point)
    requires Projection.IsSiteRun(steps, sites, opens) && i <= |steps|
    requires Projection.Keeps(steps, sites, opens, home, viewer, i)
    requires Projection.LastFlushOf(steps, home(viewer), i) == Some(t)
    requires Mention(Projection.OrderFor(steps[t], home(viewer)), of, f) == Some(value)
    requires Chaos.IsChaosRun(ops, states) && Chaos.PunctualRun(ops, states, late) && n <= |ops|
    requires SendsHanded(states[n], viewer, payload, sites[i].handed)
    requires InTurn(states[n], viewer, payload, late, sites[t].seqno + 1, of, f, value)
    requires IsTurn(states[n], viewer, payload, sites[t].seqno + 1, id)
    requires states[n].now > states[n].sends[id].at + Chaos.Deadline(late)
    requires id !in states[n].dropped && id !in states[n].discarded && id !in states[n].rolledOut
    ensures home(viewer) in sites[t].st.sessions
    ensures ServerValue(sites[t].st.sessions[home(viewer)], of, f) == Some(value)
    ensures var received := Received(states[n].wire, states[n].sends, viewer, payload);
            Held(DeliverAll(EMPTY_VIEW, received).participants, of, f) == Some(value)
  {
    var own, k := OwnRun(steps, sites, opens, home, viewer, i, t);
    hide Projection.IsSiteRun, Projection.Keeps, Projection.LastFlushOf, Projection.OrderFor, Mention, Held, DeliverAll;
    hide Projection.Emits, LastDirtyTick, IsRun, Chaos.IsChaosRun, Chaos.PunctualRun, InTurn, IsTurn, Received;
    hide SendsHanded;
    OwnThroughChaos(own, k, sites[i].handed, viewer, ops, states, late, n, payload, id, of, f, value);
  }
}
