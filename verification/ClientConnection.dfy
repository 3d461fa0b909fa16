/** The client's socket lifecycle over its queue (packages/client/src/transport/connection.ts,
    backoff.ts). */
module ClientConnection {
  import opened Wrappers
  import opened Protocol
  import opened ClientQueue
  import opened Arithmetic

  // ---- backoff ----

  const BASE_DELAY_MS: int := 250

  function BackoffCap(attempt: nat): (cap: nat)
    ensures 0 < cap <= RECONNECT_MAX_BACKOFF_MS
  {
    var exponential := BASE_DELAY_MS * Pow2(attempt);
    if exponential < RECONNECT_MAX_BACKOFF_MS then exponential else RECONNECT_MAX_BACKOFF_MS
  }

  /** Full jitter: uniform below the cap, never at it. */
  function BackoffDelay(attempt: nat, random: real): (delay: nat)
    requires Unit(random)
    ensures delay < BackoffCap(attempt)
  {
    FloorScaled(random, BackoffCap(attempt))
  }

  /** ... and anywhere below it: delay `k` comes of an equal part of [0, 1) for each `k`. */
  lemma BackoffDelayIs(attempt: nat, random: real, k: nat)
    requires Unit(random)
    ensures var cap := if 250 * Pow2(attempt) < 10000 then 250 * Pow2(attempt) else 10000;
            BackoffDelay(attempt, random) == k <==> InPart(random, cap, k)
  {
    hide FloorScaled, InPart;
    FloorIs(random, BackoffCap(attempt), k);
  }

  // ---- the machine ----

  datatype Status = Idle | Connecting | Open | Reconnecting | Closed

  /** `socket` and `timer` are the handles held; `wire` is what was written to any socket,
      `created` how many sockets were ever made. */
  datatype ConnectionState = ConnectionState(
    status: Status,
    socket: bool,
    timer: Option<nat>,
    attempt: nat,
    intentional: bool,
    queue: seq<InboundMessage>,
    wire: seq<InboundMessage>,
    created: nat)

  const INITIAL := ConnectionState(Idle, false, None, 0, false, [], [], 0)

  /** bufferedAmount as read at each check of one flush. */
  type Readings = nat -> int

  /** How many of `n` pending messages a flush writes: up to the first check over the limit. */
  function Writable(n: nat, readings: Readings, limit: int, from: nat): (w: nat)
    requires from <= n
    ensures from <= w <= n
    ensures forall i | from <= i < w :: readings(i) <= limit
    ensures w < n ==> readings(w) > limit
    decreases n - from
  {
    if from == n || readings(from) > limit then from else Writable(n, readings, limit, from + 1)
  }

  /** Writes what it can in order; of the rest, lossy messages are dropped and others requeued. */
  function Flush(c: ConnectionState, ready: bool, readings: Readings, limit: int): ConnectionState {
    if !c.socket || !ready then c else
    var w := Writable(|c.queue|, readings, limit, 0);
    c.(wire := c.wire + c.queue[..w], queue := Filter(c.queue[w..], NON_LOSSY))
  }

  function Send(c: ConnectionState, m: InboundMessage, ready: bool, readings: Readings, limit: int): ConnectionState {
    Flush(c.(queue := Enqueued(c.queue, m)), ready, readings, limit)
  }

  function OpenSocket(c: ConnectionState): ConnectionState {
    c.(status := if c.status.Idle? then Connecting else Reconnecting, socket := true, created := c.created + 1)
  }

  predicate Connects(c: ConnectionState) { c.status.Idle? || c.status.Closed? }

  function Connect(c: ConnectionState): ConnectionState {
    if !Connects(c) then c else OpenSocket(c.(intentional := false, attempt := 0))
  }

  function Disconnect(c: ConnectionState): ConnectionState {
    if Connects(c) then c
    else
      var d := c.(intentional := true, timer := None);
      if d.socket then d else d.(status := Closed)
  }

  /** The open event up to the status callback; the callback's sends and the flush follow. */
  function Opened(c: ConnectionState): ConnectionState { c.(attempt := 0, status := Open) }

  /** A close or error event. */
  function SocketClosed(c: ConnectionState, random: real): ConnectionState
    requires Unit(random)
  {
    var d := c.(socket := false);
    if d.intentional then d.(status := Closed)
    else d.(status := Reconnecting, timer := Some(BackoffDelay(d.attempt, random)), attempt := d.attempt + 1)
  }

  function TimerFired(c: ConnectionState): ConnectionState { OpenSocket(c.(timer := None)) }

  function SendEach(
    c: ConnectionState, ms: seq<InboundMessage>, ready: bool, readings: nat -> Readings, limit: int): ConnectionState
  {
    if |ms| == 0 then c
    else Send(SendEach(c, ms[..|ms| - 1], ready, readings, limit), ms[|ms| - 1], ready, readings(|ms| - 1), limit)
  }

  class Connection {
    const queue: OutboundQueue
    const backpressureBytes: int
    var socket: bool
    var currentStatus: Status
    var reconnectAttempt: nat
    var reconnectTimer: Option<nat>
    var intentionalDisconnect: bool
    /** What the sockets of this connection were given to send, and how many there were. */
    var wire: seq<InboundMessage>
    var created: nat

    constructor (limit: int)
      ensures Valid() && fresh(queue) && State() == INITIAL && backpressureBytes == limit
    {
      queue := new OutboundQueue();
      backpressureBytes := limit;
      socket, currentStatus, reconnectAttempt, reconnectTimer, intentionalDisconnect := false, Idle, 0, None, false;
      wire, created := [], 0;
    }

    predicate Valid()
      reads this, queue
    {
      queue.Valid()
    }

    function State(): ConnectionState
      reads this, queue
    {
      ConnectionState(currentStatus, socket, reconnectTimer, reconnectAttempt, intentionalDisconnect, queue.items,
          wire, created)
    }

    method FlushQueue(ready: bool, readings: Readings)
      requires Valid()
      modifies this`wire, queue
      ensures Valid() && State() == Flush(old(State()), ready, readings, backpressureBytes)
    {
      if !socket || !ready { return; }
      var pending := queue.Drain();
      ghost var w := Writable(|pending|, readings, backpressureBytes, 0);
      var i := 0;
      while i < |pending|
        invariant 0 <= i <= w
        invariant Valid() && queue.items == [] && wire == old(wire) + pending[..i]
      {
        WritableFrom(|pending|, readings, backpressureBytes, i);
        if readings(i) > backpressureBytes {
          assert i == w;
          Requeue(pending, i);
          return;
        }
        wire := wire + [pending[i]];
        i := i + 1;
      }
      assert w == |pending|;
      assert pending[..w] == pending && Filter(pending[w..], NON_LOSSY) == [];
    }

    /** Re-queues what a backpressured flush could not write, lossy messages excepted. */
    method Requeue(pending: seq<InboundMessage>, i: nat)
      requires Valid() && queue.items == [] && i <= |pending|
      modifies queue
      ensures Valid() && queue.items == Filter(pending[i..], NON_LOSSY)
    {
      var j := i;
      while j < |pending|
        invariant i <= j <= |pending| && Valid()
        invariant queue.items == Filter(pending[i..j], NON_LOSSY)
      {
        assert pending[i..j + 1][..j - i] == pending[i..j];
        var remaining := pending[j];
        if !Classify(TypeOf(remaining)).Lossy? {
          queue.Enqueue(remaining);
        }
        j := j + 1;
      }
      assert pending[i..j] == pending[i..];
    }

    method SendMessage(m: InboundMessage, ready: bool, readings: Readings)
      requires Valid()
      modifies this`wire, queue
      ensures Valid() && State() == Send(old(State()), m, ready, readings, backpressureBytes)
    {
      queue.Enqueue(m);
      FlushQueue(ready, readings);
    }

    /** `announce` are the messages the status callback sends from within `setStatus('open')`. */
    method HandleOpen(announce: seq<InboundMessage>, ready: bool, readings: nat -> Readings)
      requires Valid()
      modifies this`wire, this`reconnectAttempt, this`currentStatus, queue
      ensures Valid()
      ensures State() == Flush(SendEach(Opened(old(State())), announce, ready, readings, backpressureBytes),
                               ready, readings(|announce|), backpressureBytes)
    {
      reconnectAttempt := 0;
      currentStatus := Open;
      var i := 0;
      while i < |announce|
        invariant 0 <= i <= |announce| && Valid()
        invariant State() == SendEach(Opened(old(State())), announce[..i], ready, readings, backpressureBytes)
      {
        assert announce[..i + 1][..i] == announce[..i];
        SendMessage(announce[i], ready, readings(i));
        i := i + 1;
      }
      assert announce[..i] == announce;
      FlushQueue(ready, readings(|announce|));
    }

    method HandleClose(random: real)
      requires Unit(random)
      modifies this
      ensures State() == SocketClosed(old(State()), random)
    {
      socket := false;
      if intentionalDisconnect {
        currentStatus := Closed;
        return;
      }
      currentStatus := Reconnecting;
      var delay := BackoffDelay(reconnectAttempt, random);
      reconnectAttempt := reconnectAttempt + 1;
      reconnectTimer := Some(delay);
    }

    method HandleTimer()
      modifies this
      ensures State() == TimerFired(old(State()))
    {
      reconnectTimer := None;
      OpenNewSocket();
    }

    method OpenNewSocket()
      modifies this
      ensures State() == OpenSocket(old(State()))
    {
      currentStatus := if currentStatus.Idle? then Connecting else Reconnecting;
      socket := true;
      created := created + 1;
    }

    method ConnectSocket()
      modifies this
      ensures State() == Connect(old(State()))
    {
      if currentStatus.Connecting? || currentStatus.Open? || currentStatus.Reconnecting? { return; }
      intentionalDisconnect := false;
      reconnectAttempt := 0;
      OpenNewSocket();
    }

    method DisconnectSocket()
      modifies this
      ensures State() == Disconnect(old(State()))
    {
      if currentStatus.Closed? || currentStatus.Idle? { return; }
      intentionalDisconnect := true;
      reconnectTimer := None;
      if !socket { currentStatus := Closed; }
    }
  }

  lemma {:induction false} WritableFrom(n: nat, readings: Readings, limit: int, i: nat)
    requires i <= Writable(n, readings, limit, 0)
    ensures Writable(n, readings, limit, i) == Writable(n, readings, limit, 0)
    ensures i < n ==> (readings(i) > limit <==> i == Writable(n, readings, limit, 0))
  {
    if i > 0 { WritableFrom(n, readings, limit, i - 1); }
  }

  // ---- runs ----

  datatype Event =
    | DoConnect
    | DoDisconnect
    | DoSend(m: InboundMessage, ready: bool, readings: Readings)
    | DoFlush(ready: bool, readings: Readings)
    | SocketOpens
    | SocketCloses(random: real)
    | TimerFires

  /** Socket events need a socket, the timer event a timer. */
  predicate Possible(c: ConnectionState, e: Event) {
    match e
    case SocketOpens => c.socket
    case SocketCloses(random) => c.socket && Unit(random)
    case TimerFires => c.timer.Some?
    case _ => true
  }

  function Step(c: ConnectionState, e: Event, limit: int): ConnectionState
    requires Possible(c, e)
  {
    match e
    case DoConnect => Connect(c)
    case DoDisconnect => Disconnect(c)
    case DoSend(m, ready, readings) => Send(c, m, ready, readings, limit)
    case DoFlush(ready, readings) => Flush(c, ready, readings, limit)
    case SocketOpens => Opened(c)
    case SocketCloses(random) => SocketClosed(c, random)
    case TimerFires => TimerFired(c)
  }

  predicate IsRun(events: seq<Event>, states: seq<ConnectionState>, limit: int) {
    && |states| == |events| + 1 && states[0] == INITIAL
    && forall i {:trigger events[i]} | 0 <= i < |events| ::
        Possible(states[i], events[i]) && states[i + 1] == Step(states[i], events[i], limit)
  }

  /** The events that the handling of one open event amounts to. */
  function OpenEvents(announce: seq<InboundMessage>, ready: bool, readings: nat -> Readings): seq<Event> {
    if |announce| == 0 then [SocketOpens] else
    var n := |announce| - 1;
    OpenEvents(announce[..n], ready, readings) + [DoSend(announce[n], ready, readings(n))]
  }

  /** `states` are those of the events from `c` on. */
  ghost predicate Plays(c: ConnectionState, events: seq<Event>, states: seq<ConnectionState>, limit: int) {
    && |states| == |events| + 1 && states[0] == c
    && forall i {:trigger events[i]} | 0 <= i < |events| ::
        Possible(states[i], events[i]) && states[i + 1] == Step(states[i], events[i], limit)
  }

  lemma PlaysOn(c: ConnectionState, events: seq<Event>, states: seq<ConnectionState>, limit: int, e: Event)
    requires Plays(c, events, states, limit) && Possible(states[|events|], e)
    ensures Plays(c, events + [e], states + [Step(states[|events|], e, limit)], limit)
  {
  }

  /** Handling an open event is a stretch of a run: what its status callback sends are sends
      like any other. */
  lemma {:induction false} OpeningIsARun(
    c: ConnectionState, announce: seq<InboundMessage>, ready: bool, readings: nat -> Readings, limit: int)
    returns (states: seq<ConnectionState>)
    requires c.socket
    ensures Plays(c, OpenEvents(announce, ready, readings), states, limit)
    ensures states[|states| - 1] == SendEach(Opened(c), announce, ready, readings, limit)
  {
    if |announce| == 0 {
      states := [c, Opened(c)];
    } else {
      var n := |announce| - 1;
      var early := OpenEvents(announce[..n], ready, readings);
      states := OpeningIsARun(c, announce[..n], ready, readings, limit);
      PlaysOn(c, early, states, limit, DoSend(announce[n], ready, readings(n)));
      states := states + [Send(states[|early|], announce[n], ready, readings(n), limit)];
    }
  }

  // ---- conservation ----

  function Sent(events: seq<Event>): seq<InboundMessage> {
    if |events| == 0 then [] else
    var e := events[|events| - 1];
    Sent(events[..|events| - 1]) + if e.DoSend? then [e.m] else []
  }

  /** Non-lossy messages are conserved; each lossy type has at most its newest message
      queued and is otherwise written in order, with gaps. */
  ghost predicate Conserves(c: ConnectionState, sent: seq<InboundMessage>) {
    && Filter(c.wire, NON_LOSSY) + Filter(c.queue, NON_LOSSY) == Filter(sent, NON_LOSSY)
    && OneOfEachLossy(c.queue)
    && (forall t | Classify(t).Lossy? :: LossyInOrder(c, sent, t))
  }

  ghost predicate LossyInOrder(c: ConnectionState, sent: seq<InboundMessage>, t: MessageType) {
    var queued, all := Filter(c.queue, OfType(t)), Filter(sent, OfType(t));
    && InOrderWithin(Filter(c.wire, OfType(t)) + queued, all)
    && (queued == [] || (|all| > 0 && queued == [all[|all| - 1]]))
  }

  /** A flush seen through the filter for one lossy type: part of what was queued is written,
      the rest is gone. */
  lemma FlushLossy(
    c: ConnectionState, sent: seq<InboundMessage>, ready: bool, readings: Readings, limit: int, t: MessageType)
    requires LossyInOrder(c, sent, t) && Classify(t).Lossy? && c.socket && ready
    ensures LossyInOrder(Flush(c, ready, readings, limit), sent, t)
  {
    var w := Writable(|c.queue|, readings, limit, 0);
    NothingOfType(c.queue[w..], t);
    hide Filter, InOrderWithin;
    var p, written, rest := OfType(t), c.queue[..w], c.queue[w..];
    assert c.queue == written + rest;
    FilterConcat(written, rest, p);
    FilterConcat(c.wire, written, p);
    var before := Filter(c.wire, p) + Filter(c.queue, p);
    var after := Filter(c.wire, p) + Filter(written, p);
    PrefixWithin(before, |after|, Filter(sent, p));
    assert before[..|after|] == after == after + [];
  }

  lemma NothingOfType(rest: seq<InboundMessage>, t: MessageType)
    requires Classify(t).Lossy?
    ensures Filter(Filter(rest, NON_LOSSY), OfType(t)) == []
  {
    FilterSatisfies(rest, NON_LOSSY);
    hide Filter;
    FilterNone(Filter(rest, NON_LOSSY), OfType(t));
  }

  /** Writing the first `w` queued messages and keeping the others' non-lossy ones moves
      non-lossy messages from the queue to the wire and loses none. */
  lemma SplitNonLossy(wire: seq<InboundMessage>, queue: seq<InboundMessage>, w: nat)
    requires w <= |queue|
    ensures Filter(wire + queue[..w], NON_LOSSY) + Filter(Filter(queue[w..], NON_LOSSY), NON_LOSSY)
            == Filter(wire, NON_LOSSY) + Filter(queue, NON_LOSSY)
  {
    var a, b, d := Filter(wire, NON_LOSSY), Filter(queue[..w], NON_LOSSY), Filter(queue[w..], NON_LOSSY);
    NonLossyAgain(queue[w..]);
    FilterConcat(queue[..w], queue[w..], NON_LOSSY);
    FilterConcat(wire, queue[..w], NON_LOSSY);
    assert queue[..w] + queue[w..] == queue;
    assert (a + b) + d == a + (b + d);
  }

  lemma NonLossyAgain(s: seq<InboundMessage>)
    ensures Filter(Filter(s, NON_LOSSY), NON_LOSSY) == Filter(s, NON_LOSSY)
    ensures OneOfEachLossy(Filter(s, NON_LOSSY))
  {
    FilterSatisfies(s, NON_LOSSY);
    FilterAll(Filter(s, NON_LOSSY), NON_LOSSY);
  }

  lemma FlushConserves(c: ConnectionState, sent: seq<InboundMessage>, ready: bool, readings: Readings, limit: int)
    requires Conserves(c, sent)
    ensures Conserves(Flush(c, ready, readings, limit), sent)
  {
    if c.socket && ready {
      var w := Writable(|c.queue|, readings, limit, 0);
      SplitNonLossy(c.wire, c.queue, w);
      NonLossyAgain(c.queue[w..]);
      var d := Flush(c, ready, readings, limit);
      forall t | Classify(t).Lossy? ensures LossyInOrder(d, sent, t) {
        FlushLossy(c, sent, ready, readings, limit, t);
      }
    }
  }

  /** Another lossy type is left alone. */
  lemma EnqueueOther(c: ConnectionState, sent: seq<InboundMessage>, m: InboundMessage, t: MessageType)
    requires LossyInOrder(c, sent, t) && t != TypeOf(m)
    ensures LossyInOrder(c.(queue := Enqueued(c.queue, m)), sent + [m], t)
  {
    assert (sent + [m])[..|sent|] == sent;
    EnqueuedThrough(c.queue, m, OfType(t));
    assert Filter(sent + [m], OfType(t)) == Filter(sent, OfType(t));
    assert Filter(Enqueued(c.queue, m), OfType(t)) == Filter(c.queue, OfType(t));
  }

  /** The type's own newest message takes over. */
  lemma EnqueueOwn(c: ConnectionState, sent: seq<InboundMessage>, m: InboundMessage)
    requires OneOfEachLossy(c.queue) && LossyInOrder(c, sent, TypeOf(m)) && IsLossy(m)
    ensures LossyInOrder(c.(queue := Enqueued(c.queue, m)), sent + [m], TypeOf(m))
  {
    var p := OfType(TypeOf(m));
    var wire, queued, all := Filter(c.wire, p), Filter(c.queue, p), Filter(sent, p);
    assert (sent + [m])[..|sent|] == sent;
    assert Filter(sent + [m], p) == all + [m];
    EnqueuedOfItsType(c.queue, m);
    PrefixWithin(wire + queued, |wire|, all);
    assert (wire + queued)[..|wire|] == wire;
    ExtendWithin(wire, all, m);
  }

  lemma EnqueueLossy(c: ConnectionState, sent: seq<InboundMessage>, m: InboundMessage, t: MessageType)
    requires OneOfEachLossy(c.queue) && LossyInOrder(c, sent, t) && Classify(t).Lossy?
    ensures LossyInOrder(c.(queue := Enqueued(c.queue, m)), sent + [m], t)
  {
    if t != TypeOf(m) { EnqueueOther(c, sent, m, t); } else { EnqueueOwn(c, sent, m); }
  }

  lemma EnqueueNonLossy(c: ConnectionState, sent: seq<InboundMessage>, m: InboundMessage)
    requires Filter(c.wire, NON_LOSSY) + Filter(c.queue, NON_LOSSY) == Filter(sent, NON_LOSSY)
    ensures Filter(c.wire, NON_LOSSY) + Filter(Enqueued(c.queue, m), NON_LOSSY) == Filter(sent + [m], NON_LOSSY)
  {
    var written, queued, more := Filter(c.wire, NON_LOSSY), Filter(c.queue, NON_LOSSY), if IsLossy(m) then [] else [m];
    assert (sent + [m])[..|sent|] == sent;
    assert Filter(sent + [m], NON_LOSSY) == Filter(sent, NON_LOSSY) + more;
    EnqueuedThrough(c.queue, m, NON_LOSSY);
    assert written + (queued + more) == (written + queued) + more;
  }

  lemma EnqueueConserves(c: ConnectionState, sent: seq<InboundMessage>, m: InboundMessage)
    requires Conserves(c, sent)
    ensures Conserves(c.(queue := Enqueued(c.queue, m)), sent + [m])
  {
    var d := c.(queue := Enqueued(c.queue, m));
    EnqueueKeepsOne(c.queue, m);
    EnqueueNonLossy(c, sent, m);
    forall t | Classify(t).Lossy? ensures LossyInOrder(d, sent + [m], t) { EnqueueLossy(c, sent, m, t); }
  }

  lemma SameBuffersConserve(c: ConnectionState, d: ConnectionState, sent: seq<InboundMessage>)
    requires Conserves(c, sent) && d.wire == c.wire && d.queue == c.queue
    ensures Conserves(d, sent)
  {
    forall t | Classify(t).Lossy? ensures LossyInOrder(d, sent, t) { assert LossyInOrder(c, sent, t); }
  }

  lemma StepConserves(c: ConnectionState, sent: seq<InboundMessage>, e: Event, limit: int)
    requires Conserves(c, sent) && Possible(c, e)
    ensures Conserves(Step(c, e, limit), if e.DoSend? then sent + [e.m] else sent)
  {
    match e {
      case DoSend(m, ready, readings) =>
        EnqueueConserves(c, sent, m);
        FlushConserves(c.(queue := Enqueued(c.queue, m)), sent + [m], ready, readings, limit);
      case DoFlush(ready, readings) => FlushConserves(c, sent, ready, readings, limit);
      case _ => SameBuffersConserve(c, Step(c, e, limit), sent);
    }
  }

  /** Over any interleaving of send, open, close, error, reconnect and disconnect and any
      bufferedAmount readings: the non-lossy messages written so far followed by those
      queued are exactly those sent, in order; each lossy type has at most one queued item,
      the newest sent, and is written only as an in-order subsequence of what was sent. */
  lemma {:induction false} QueueConservation(events: seq<Event>, states: seq<ConnectionState>, limit: int, i: nat)
    requires IsRun(events, states, limit) && i <= |events|
    ensures Conserves(states[i], Sent(events[..i]))
  {
    if i == 0 {
      assert events[..0] == [];
      forall t | Classify(t).Lossy? ensures LossyInOrder(INITIAL, [], t) {
        NothingWithin([]);
        assert Filter(INITIAL.wire, OfType(t)) + Filter(INITIAL.queue, OfType(t)) == [];
      }
    } else {
      QueueConservation(events, states, limit, i - 1);
      assert events[..i][..i - 1] == events[..i - 1];
      var sent, e := Sent(events[..i - 1]), events[i - 1];
      assert Sent(events[..i]) == if e.DoSend? then sent + [e.m] else sent;
      StepConserves(states[i - 1], sent, e, limit);
    }
  }

  const LASTING: InboundMessage -> bool := (m: InboundMessage) => !m.Cursor? && !m.Scroll?

  lemma {:induction false} SameFilter(s: seq<InboundMessage>)
    ensures Filter(s, LASTING) == Filter(s, NON_LOSSY)
  {
    if |s| > 0 { SameFilter(s[..|s| - 1]); }
  }

  /** Of everything the client sends but cursors and scrolls nothing is lost on its side: what was
      written and what is queued, in this order, is what was sent. */
  lemma OnlyPresenceIsShed(events: seq<Event>, states: seq<ConnectionState>, limit: int, i: nat)
    requires IsRun(events, states, limit) && i <= |events|
    ensures Filter(states[i].wire, LASTING) + Filter(states[i].queue, LASTING) == Filter(Sent(events[..i]), LASTING)
  {
    hide Filter, Sent;
    QueueConservation(events, states, limit, i);
    SameFilter(states[i].wire);
    SameFilter(states[i].queue);
    SameFilter(Sent(events[..i]));
  }

  // ---- one socket at most ----

  predicate HandlesOk(c: ConnectionState) {
    && (match c.status
        case Idle => !c.socket && c.timer.None?
        case Closed => !c.socket && c.timer.None?
        case Connecting => c.socket && c.timer.None?
        case Open => c.socket && c.timer.None?
        case Reconnecting => c.socket <==> c.timer.None?)
    && (c.intentional ==> c.timer.None?)
  }

  lemma StepKeepsHandles(c: ConnectionState, e: Event, limit: int)
    requires HandlesOk(c) && Possible(c, e)
    ensures HandlesOk(Step(c, e, limit))
  {
  }

  /** Idle and closed hold neither a socket nor a timer, connecting and open a socket only,
      reconnecting exactly one of the two. */
  lemma {:induction false} AtMostOneSocket(events: seq<Event>, states: seq<ConnectionState>, limit: int, i: nat)
    requires IsRun(events, states, limit) && i <= |events|
    ensures HandlesOk(states[i])
  {
    if i > 0 {
      AtMostOneSocket(events, states, limit, i - 1);
      StepKeepsHandles(states[i - 1], events[i - 1], limit);
    }
  }

  /** Nothing can open a socket but an effective connect. */
  predicate Quiesced(c: ConnectionState) { HandlesOk(c) && c.timer.None? && (c.intentional || Connects(c)) }

  lemma DisconnectQuiesces(c: ConnectionState)
    requires HandlesOk(c)
    ensures Quiesced(Disconnect(c)) && Disconnect(c).created == c.created
  {
  }

  lemma QuiescedStays(c: ConnectionState, e: Event, limit: int)
    requires Quiesced(c) && Possible(c, e) && (e.DoConnect? ==> !Connects(c))
    ensures Quiesced(Step(c, e, limit)) && Step(c, e, limit).created == c.created
  {
  }

  /** No connect between `i` and `j` takes effect. */
  predicate NoConnect(events: seq<Event>, states: seq<ConnectionState>, i: nat, j: nat)
    requires j <= |events| && |states| == |events| + 1
  {
    forall k {:trigger events[k]} | i < k < j && events[k].DoConnect? :: !Connects(states[k])
  }

  lemma RunStep(events: seq<Event>, states: seq<ConnectionState>, limit: int, i: nat)
    requires IsRun(events, states, limit) && i < |events|
    ensures Possible(states[i], events[i]) && states[i + 1] == Step(states[i], events[i], limit)
  {
  }

  /** After disconnect() no socket is created until the next connect() that takes effect. */
  lemma {:induction false} DisconnectIsFinal(
    events: seq<Event>, states: seq<ConnectionState>, limit: int, i: nat, j: nat)
    requires IsRun(events, states, limit) && i < j <= |events| && events[i].DoDisconnect?
    requires NoConnect(events, states, i, j)
    ensures Quiesced(states[j]) && states[j].created == states[i].created
  {
    RunStep(events, states, limit, j - 1);
    if j > i + 1 {
      DisconnectIsFinal(events, states, limit, i, j - 1);
      QuiescedStays(states[j - 1], events[j - 1], limit);
    } else {
      AtMostOneSocket(events, states, limit, i);
      DisconnectQuiesces(states[i]);
    }
  }

  // ---- every socket has its reason, and every reason its socket ----

  /** A connect while idle or closed, or the reconnect timer. */
  predicate AsksForSocket(c: ConnectionState, e: Event) {
    (e.DoConnect? && (c.status.Idle? || c.status.Closed?)) || e.TimerFires?
  }

  /** How many of the first `i` events ask for a socket. */
  function SocketsAskedFor(events: seq<Event>, states: seq<ConnectionState>, i: nat): nat
    requires i <= |events| && |states| == |events| + 1
  {
    if i == 0 then 0
    else SocketsAskedFor(events, states, i - 1) + if AsksForSocket(states[i - 1], events[i - 1]) then 1 else 0
  }

  /** Over every run there are exactly as many sockets as effective connects and fired timers. */
  lemma {:induction false} SocketsAreThoseAskedFor(
    events: seq<Event>, states: seq<ConnectionState>, limit: int, i: nat)
    requires IsRun(events, states, limit) && i <= |events|
    ensures states[i].created == SocketsAskedFor(events, states, i)
  {
    if i > 0 {
      SocketsAreThoseAskedFor(events, states, limit, i - 1);
      RunStep(events, states, limit, i - 1);
    }
  }

  /** After each of these, whatever went before, a socket is held and no timer, its open event may
      come, and if it fails instead a timer is set. */
  lemma AskedForIsHeld(events: seq<Event>, states: seq<ConnectionState>, limit: int, i: nat, random: real)
    requires IsRun(events, states, limit) && i < |events| && AsksForSocket(states[i], events[i]) && Unit(random)
    ensures var c := states[i + 1];
            && c.socket && c.timer.None?
            && c.status == (if states[i].status.Idle? then Connecting else Reconnecting)
            && Possible(c, SocketOpens) && Step(c, SocketOpens, limit).status.Open?
            && Possible(c, SocketCloses(random)) && Step(c, SocketCloses(random), limit).timer.Some?
  {
    AtMostOneSocket(events, states, limit, i);
    AtMostOneSocket(events, states, limit, i + 1);
    RunStep(events, states, limit, i);
  }

  lemma {:induction false} StaysIntentional(
    events: seq<Event>, states: seq<ConnectionState>, limit: int, i: nat, j: nat)
    requires IsRun(events, states, limit) && i < j <= |events| && events[i].DoDisconnect? && states[i].socket
    requires forall k | i < k < j :: !events[k].SocketCloses?
    ensures states[j].socket && states[j].intentional
  {
    RunStep(events, states, limit, j - 1);
    AtMostOneSocket(events, states, limit, j - 1);
    if j > i + 1 { StaysIntentional(events, states, limit, i, j - 1); }
  }

  /** A disconnect of a live socket ends in `closed` with its close event, one while waiting to
      reconnect at once; from there a connect has effect again. */
  lemma DisconnectCloses(events: seq<Event>, states: seq<ConnectionState>, limit: int, i: nat, j: nat)
    requires IsRun(events, states, limit) && i <= j < |events| && events[i].DoDisconnect? && !states[i].status.Idle?
    requires if states[i].socket then i < j && events[j].SocketCloses? else j == i
    requires forall k | i < k < j :: !events[k].SocketCloses?
    ensures states[j + 1].status.Closed? && !states[j + 1].socket && states[j + 1].timer.None?
    ensures AsksForSocket(states[j + 1], DoConnect)
  {
    AtMostOneSocket(events, states, limit, i);
    AtMostOneSocket(events, states, limit, j + 1);
    RunStep(events, states, limit, j);
    if states[i].socket { StaysIntentional(events, states, limit, i, j); }
  }

  /** How many times the socket failed since the last open or effective connect. */
  function Failures(events: seq<Event>, states: seq<ConnectionState>, i: nat): nat
    requires i <= |events| && |states| == |events| + 1
  {
    if i == 0 then 0 else
    var c, e := states[i - 1], events[i - 1];
    if e.SocketOpens? || (e.DoConnect? && Connects(c)) then 0
    else Failures(events, states, i - 1) + if e.SocketCloses? && !c.intentional then 1 else 0
  }

  lemma {:induction false} AttemptCountsFailures(events: seq<Event>, states: seq<ConnectionState>, limit: int, i: nat)
    requires IsRun(events, states, limit) && i <= |events|
    ensures states[i].attempt == Failures(events, states, i)
  {
    if i > 0 {
      AttemptCountsFailures(events, states, limit, i - 1);
      assert states[i] == Step(states[i - 1], events[i - 1], limit);
    }
  }

  /** Exactly which delay a failure sets: `k` ms if the random number is in the k-th of as many equal
      parts of [0, 1) as min(10000, 250 * 2^n), n the earlier failures in a row. */
  lemma ReconnectDelayIs(events: seq<Event>, states: seq<ConnectionState>, limit: int, i: nat, k: nat)
    requires IsRun(events, states, limit) && i < |events| && events[i].SocketCloses? && !states[i].intentional
    ensures var n := Failures(events, states, i);
            var cap := if 250 * Pow2(n) < 10000 then 250 * Pow2(n) else 10000;
            states[i + 1].timer == Some(k) <==> InPart(events[i].random, cap, k)
  {
    hide InPart, BackoffDelay;
    AttemptCountsFailures(events, states, limit, i);
    ClosingSets(events, states, limit, i);
    BackoffDelayIs(states[i].attempt, events[i].random, k);
  }

  lemma ClosingSets(events: seq<Event>, states: seq<ConnectionState>, limit: int, i: nat)
    requires IsRun(events, states, limit) && i < |events| && events[i].SocketCloses? && !states[i].intentional
    ensures Unit(events[i].random)
    ensures states[i + 1].timer == Some(BackoffDelay(states[i].attempt, events[i].random))
  {
    hide BackoffDelay;
    RunStep(events, states, limit, i);
  }

  /** Each reconnect delay is below min(10000, 250 * 2^n), n the earlier failures in a row. */
  lemma ReconnectDelayIsBounded(events: seq<Event>, states: seq<ConnectionState>, limit: int, i: nat)
    requires IsRun(events, states, limit) && i < |events| && events[i].SocketCloses? && !states[i].intentional
    ensures var n := Failures(events, states, i);
            && states[i + 1].timer.Some?
            && states[i + 1].timer.value < RECONNECT_MAX_BACKOFF_MS
            && states[i + 1].timer.value < BASE_DELAY_MS * Pow2(n)
  {
    AttemptCountsFailures(events, states, limit, i);
    assert states[i + 1] == Step(states[i], events[i], limit);
  }
}
