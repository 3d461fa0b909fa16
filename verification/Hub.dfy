/** Live connections and who they belong to (apps/server/src/services/BroadcastHub.ts). */
module Hub {
  import opened Wrappers
  import opened Protocol
  import Ordering

  datatype Connection = Connection(pid: ParticipantId, sid: SessionId, socket: nat)

  /** The two maps that must agree. */
  datatype HubState = HubState(
    connections: map<ParticipantId, Connection>, bySession: map<SessionId, set<ParticipantId>>)
  {
    function ParticipantsOf(sid: SessionId): set<ParticipantId> {
      if sid in bySession then bySession[sid] else {}
    }
  }

  const EMPTY_HUB := HubState(map[], map[])

  function Register(h: HubState, c: Connection): HubState {
    HubState(h.connections[c.pid := c], h.bySession[c.sid := h.ParticipantsOf(c.sid) + {c.pid}])
  }

  function Unregister(h: HubState, pid: ParticipantId): HubState {
    if pid !in h.connections then h else
    var sid := h.connections[pid].sid;
    var connections := h.connections - {pid};
    if sid !in h.bySession then h.(connections := connections) else
    var peers := h.bySession[sid] - {pid};
    HubState(connections, if peers == {} then h.bySession - {sid} else h.bySession[sid := peers])
  }

  /** `pid` is connected on a socket that is open. */
  predicate Reaches(h: HubState, open: set<nat>, pid: ParticipantId) {
    pid in h.connections && h.connections[pid].socket in open
  }

  /** Whom a broadcast to a session is handed to. */
  function Recipients(
    h: HubState, open: set<nat>, sid: SessionId, exclude: Option<ParticipantId>): set<ParticipantId>
  {
    set pid | pid in h.ParticipantsOf(sid) && Some(pid) != exclude && Reaches(h, open, pid)
  }

  /** One message handed to one recipient's transport. */
  datatype Handoff = Handoff(pid: ParticipantId, message: OutboundMessage)

  /** One call to broadcastToSession. */
  datatype Broadcast = Broadcast(sid: SessionId, message: OutboundMessage, exclude: Option<ParticipantId>)

  /** `batch` hands `m` to each of `to` exactly once. */
  ghost predicate FanOut(batch: seq<Handoff>, to: set<ParticipantId>, m: OutboundMessage) {
    && (forall i, j | 0 <= i < j < |batch| :: batch[i].pid != batch[j].pid)
    && (forall h | h in batch :: h.message == m && h.pid in to)
    && (forall pid | pid in to :: exists h :: h in batch && h.pid == pid)
  }

  lemma FanOutMore(batch: seq<Handoff>, to: set<ParticipantId>, m: OutboundMessage, pid: ParticipantId)
    requires FanOut(batch, to, m) && pid !in to
    ensures FanOut(batch + [Handoff(pid, m)], to + {pid}, m)
  {
    var more := batch + [Handoff(pid, m)];
    assert forall h :: h in more <==> h in batch || h == Handoff(pid, m);
    assert forall i | 0 <= i < |batch| :: batch[i] in batch;
  }

  /** `batches` are what the broadcasts `bs` hand over, one each, over one hub. */
  ghost predicate HandsEach(h: HubState, open: set<nat>, bs: seq<Broadcast>, batches: seq<seq<Handoff>>) {
    && |batches| == |bs|
    && forall i | 0 <= i < |bs| :: FanOut(batches[i], Recipients(h, open, bs[i].sid, bs[i].exclude), bs[i].message)
  }

  lemma HandsNone(h: HubState, open: set<nat>)
    ensures HandsEach(h, open, [], []) && Ordering.Flat<Handoff>([]) == []
  {
  }

  lemma HandsOne(h: HubState, open: set<nat>, b: Broadcast, batch: seq<Handoff>)
    requires FanOut(batch, Recipients(h, open, b.sid, b.exclude), b.message)
    ensures HandsEach(h, open, [b], [batch]) && Ordering.Flat([batch]) == batch
  {
    assert [batch][..0] == [];
  }

  lemma HandsMore(
    h: HubState, open: set<nat>, bs: seq<Broadcast>, batches: seq<seq<Handoff>>,
    more: seq<Broadcast>, moreBatches: seq<seq<Handoff>>)
    requires HandsEach(h, open, bs, batches) && HandsEach(h, open, more, moreBatches)
    ensures HandsEach(h, open, bs + more, batches + moreBatches)
    ensures Ordering.Flat(batches + moreBatches) == Ordering.Flat(batches) + Ordering.Flat(moreBatches)
  {
    Ordering.FlatConcat(batches, moreBatches);
    forall i | 0 <= i < |bs + more|
      ensures var b := (bs + more)[i];
              FanOut((batches + moreBatches)[i], Recipients(h, open, b.sid, b.exclude), b.message)
    {
      if i < |bs| { assert (bs + more)[i] == bs[i]; } else { assert (bs + more)[i] == more[i - |bs|]; }
    }
  }

  class BroadcastHub {
    var connections: map<ParticipantId, Connection>
    var bySession: map<SessionId, set<ParticipantId>>
    /** The sockets whose readyState is OPEN; the environment's to change. */
    var openSockets: set<nat>
    /** Everything handed to the transport so far. */
    var handed: seq<Handoff>
    ghost var broadcasts: seq<Broadcast>

    constructor ()
      ensures State() == EMPTY_HUB && handed == [] && broadcasts == []
    {
      connections, bySession, openSockets, handed, broadcasts := map[], map[], {}, [], [];
    }

    function State(): HubState
      reads this`connections, this`bySession
    {
      HubState(connections, bySession)
    }

    method RegisterConnection(c: Connection)
      modifies this`connections, this`bySession
      ensures State() == Register(old(State()), c)
    {
      connections := connections[c.pid := c];
      var peers := if c.sid in bySession then bySession[c.sid] else {};
      peers := peers + {c.pid};
      bySession := bySession[c.sid := peers];
    }

    method UnregisterPid(pid: ParticipantId)
      modifies this`connections, this`bySession
      ensures State() == Unregister(old(State()), pid)
    {
      if pid !in connections { return; }
      var connection := connections[pid];
      connections := connections - {pid};
      if connection.sid !in bySession { return; }
      var peers := bySession[connection.sid] - {pid};
      if peers == {} {
        bySession := bySession - {connection.sid};
      } else {
        bySession := bySession[connection.sid := peers];
      }
    }

    method SendTo(pid: ParticipantId, message: OutboundMessage) returns (sent: bool)
      modifies this`handed
      ensures sent <==> Reaches(State(), openSockets, pid)
      ensures handed == old(handed) + if sent then [Handoff(pid, message)] else []
    {
      if pid !in connections || connections[pid].socket !in openSockets { return false; }
      handed := handed + [Handoff(pid, message)];
      return true;
    }

    method BroadcastToSession(sid: SessionId, message: OutboundMessage, exclude: Option<ParticipantId>)
      returns (ghost batch: seq<Handoff>)
      modifies this`handed, this`broadcasts
      ensures handed == old(handed) + batch && FanOut(batch, Recipients(State(), openSockets, sid, exclude), message)
      ensures broadcasts == old(broadcasts) + [Broadcast(sid, message, exclude)]
    {
      var members := if sid in bySession then bySession[sid] else {};
      var pids := Ordering.Elements(members);
      batch := [];
      ghost var to: set<ParticipantId> := {};
      var i := 0;
      while i < |pids|
        invariant 0 <= i <= |pids|
        invariant handed == old(handed) + batch && broadcasts == old(broadcasts)
        invariant forall pid :: pid in to <==> pid in pids[..i] && pid in Recipients(State(), openSockets, sid, exclude)
        invariant FanOut(batch, to, message)
      {
        assert pids[i] in pids && pids[i] !in pids[..i];
        if Some(pids[i]) != exclude {
          var sent := SendTo(pids[i], message);
          if sent {
            FanOutMore(batch, to, message, pids[i]);
            batch := batch + [Handoff(pids[i], message)];
            to := to + {pids[i]};
          }
        }
        i := i + 1;
      }
      assert pids[..i] == pids;
      assert to == Recipients(State(), openSockets, sid, exclude);
      broadcasts := broadcasts + [Broadcast(sid, message, exclude)];
    }
  }
}
