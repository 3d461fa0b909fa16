/** What a fresh server connection makes of what a reopened client writes: the client's queue
    (outboundQueue.ts, connection.ts, index.ts) against the server's handshake and guard
    (realtimeRouter.ts). */
module Handshake {
  import opened Wrappers
  import opened Protocol
  import opened ClientQueue
  import opened ClientConnection
  import opened Arithmetic
  import Controllers
  import SequenceGuards

  // ---- the server's end ----

  const NEW_CONNECTION := Controllers.ConnectionState(None, SequenceGuards.NEW_GUARD)

  /** A new connection after the messages `ms`. */
  function After(ms: seq<InboundMessage>): Controllers.ConnectionState {
    if |ms| == 0 then NEW_CONNECTION else Controllers.ConnectionAfter(After(ms[..|ms| - 1]), ms[|ms| - 1])
  }

  /** A new connection that receives `ms` dispatches number `k`. */
  predicate Taken(ms: seq<InboundMessage>, k: nat)
    requires k < |ms|
  {
    Controllers.Judge(After(ms[..k]), ms[k]).Dispatched?
  }

  function FirstHello(ms: seq<InboundMessage>): (h: Option<nat>)
    ensures h.Some? ==> h.value < |ms| && ms[h.value].Hello? && forall i | 0 <= i < h.value :: !ms[i].Hello?
    ensures h.None? ==> forall i | 0 <= i < |ms| :: !ms[i].Hello?
  {
    if |ms| == 0 then None else
    var h := FirstHello(ms[..|ms| - 1]);
    if h.Some? then h else if ms[|ms| - 1].Hello? then Some(|ms| - 1) else None
  }

  /** `top` is the highest number among the messages from `h` on that carry the pid of `h`. */
  ghost predicate IsTop(ms: seq<InboundMessage>, h: nat, top: int)
    requires h < |ms|
  {
    && (forall i | h <= i < |ms| && ms[i].pid == ms[h].pid :: ms[i].seqno <= top)
    && exists i :: h <= i < |ms| && ms[i].pid == ms[h].pid && ms[i].seqno == top
  }

  /** Until a hello nothing changes; from the first one on, its pid is the connection's, and the
      guard has seen the highest number that pid sent since. */
  lemma {:induction false} AfterHello(ms: seq<InboundMessage>)
    ensures match FirstHello(ms)
            case None => After(ms) == NEW_CONNECTION
            case Some(h) =>
              && After(ms).pid == Some(ms[h].pid)
              && After(ms).guard.lastSeen.Some? && IsTop(ms, h, After(ms).guard.lastSeen.value)
  {
    if |ms| > 0 {
      var n := |ms| - 1;
      AfterHello(ms[..n]);
      var h := FirstHello(ms[..n]);
      if h.Some? {
        var top := After(ms[..n]).guard.lastSeen.value;
        var i :| h.value <= i < n && ms[..n][i].pid == ms[h.value].pid && ms[..n][i].seqno == top;
        assert ms[i] == ms[..n][i];
        assert forall i | h.value <= i < n :: ms[..n][i] == ms[i];
      }
    }
  }

  lemma {:induction false} FirstHelloOfPrefix(ms: seq<InboundMessage>, k: nat)
    requires k <= |ms|
    ensures FirstHello(ms[..k]) == if FirstHello(ms).Some? && FirstHello(ms).value < k then FirstHello(ms) else None
    decreases |ms|
  {
    var n := |ms| - 1;
    if k == |ms| {
      assert ms[..k] == ms;
    } else {
      FirstHelloOfPrefix(ms[..n], k);
      assert ms[..n][..k] == ms[..k];
    }
  }

  /** Number `k` is dispatched if and only if a hello lies at or before it, it carries the pid of
      the first hello, and its number exceeds every number that pid sent from that hello on. */
  lemma TakenIff(ms: seq<InboundMessage>, k: nat)
    requires k < |ms|
    ensures Taken(ms, k) <==>
              match FirstHello(ms)
              case None => false
              case Some(h) =>
                && h <= k && ms[k].pid == ms[h].pid
                && forall i | h <= i < k && ms[i].pid == ms[h].pid :: ms[i].seqno < ms[k].seqno
  {
    AfterHello(ms[..k]);
    FirstHelloOfPrefix(ms, k);
    var h := FirstHello(ms);
    if h.Some? && h.value < k {
      var top := After(ms[..k]).guard.lastSeen.value;
      var i :| h.value <= i < k && ms[..k][i].pid == ms[h.value].pid && ms[..k][i].seqno == top;
      assert forall i | h.value <= i < k :: ms[..k][i] == ms[i];
    }
  }

  /** A message that is not dispatched is refused as unauthorized if no hello came before it or it
      carries another pid than the first one, and otherwise, as stale, because of its number. */
  lemma RefusedHow(ms: seq<InboundMessage>, k: nat)
    requires k < |ms|
    ensures Controllers.Judge(After(ms[..k]), ms[k]).Unauthorized? <==>
              match FirstHello(ms)
              case None => true
              case Some(h) => k < h || ms[k].pid != ms[h].pid
    ensures Controllers.Judge(After(ms[..k]), ms[k]).Stale? <==>
              match FirstHello(ms)
              case None => false
              case Some(h) =>
                && h < k && ms[k].pid == ms[h].pid
                && exists i :: h <= i < k && ms[i].pid == ms[h].pid && ms[i].seqno >= ms[k].seqno
  {
    TakenIff(ms, k);
    AfterHello(ms[..k]);
    FirstHelloOfPrefix(ms, k);
  }

  // ---- what one socket carries ----

  /** The socket that opened at event `o` has neither closed nor opened again before `j`. */
  predicate SameSocket(events: seq<Event>, o: nat, j: nat) {
    && o < j <= |events| && events[o].SocketOpens?
    && forall i | o < i < j :: !events[i].SocketCloses? && !events[i].SocketOpens?
  }

  lemma {:induction false} WireGrows(events: seq<Event>, states: seq<ConnectionState>, limit: int, i: nat, j: nat)
    requires IsRun(events, states, limit) && i <= j <= |events|
    ensures states[i].wire <= states[j].wire
  {
    if i < j {
      WireGrows(events, states, limit, i, j - 1);
      assert states[j] == Step(states[j - 1], events[j - 1], limit);
    }
  }

  /** What was written since event `o`. */
  function WrittenSince(
    events: seq<Event>, states: seq<ConnectionState>, limit: int, o: nat, j: nat): seq<InboundMessage>
    requires IsRun(events, states, limit) && o <= j <= |events|
  {
    WireGrows(events, states, limit, o, j);
    states[j].wire[|states[o].wire|..]
  }

  /** The client signs what it sends with its pid. How it numbers it is left open: an audit
      message is numbered when it is built and sent when the outbox has stored it. */
  predicate SignedBy(events: seq<Event>, pid: ParticipantId) {
    forall m | m in Sent(events) :: m.pid == pid
  }

  lemma {:induction false} SentConcat(a: seq<Event>, b: seq<Event>)
    ensures Sent(a + b) == Sent(a) + Sent(b)
  {
    if |b| == 0 {
      assert a + b == a;
    } else {
      SentConcat(a, b[..|b| - 1]);
      assert (a + b)[..|a + b| - 1] == a + b[..|b| - 1];
    }
  }

  lemma SentPrefix(events: seq<Event>, i: nat)
    requires i <= |events|
    ensures Sent(events[..i]) <= Sent(events)
  {
    hide Sent;
    SentConcat(events[..i], events[i..]);
    assert events == events[..i] + events[i..];
  }

  /** Nothing is written or queued that was not sent. */
  lemma {:induction false} OnlySent(events: seq<Event>, states: seq<ConnectionState>, limit: int, i: nat)
    requires IsRun(events, states, limit) && i <= |events|
    ensures forall m | m in states[i].wire || m in states[i].queue :: m in Sent(events[..i])
  {
    hide Flush;
    if i > 0 {
      OnlySent(events, states, limit, i - 1);
      assert events[..i][..i - 1] == events[..i - 1];
      var c, e := states[i - 1], events[i - 1];
      assert states[i] == Step(c, e, limit);
      if e.DoSend? {
        FlushSent(c.(queue := Enqueued(c.queue, e.m)), e.ready, e.readings, limit);
      } else if e.DoFlush? {
        FlushSent(c, e.ready, e.readings, limit);
      }
    }
  }

  lemma FlushSent(c: ConnectionState, ready: bool, readings: Readings, limit: int)
    ensures var d := Flush(c, ready, readings, limit);
            forall m | m in d.wire || m in d.queue :: m in c.wire || m in c.queue
  {
    if c.socket && ready {
      var w := Writable(|c.queue|, readings, limit, 0);
      FilterMembers(c.queue[w..], NON_LOSSY);
    }
  }

  /** Everything written since carries the client's pid. */
  lemma WrittenIsSigned(
    events: seq<Event>, states: seq<ConnectionState>, limit: int, pid: ParticipantId, o: nat, j: nat)
    requires IsRun(events, states, limit) && SignedBy(events, pid) && o <= j <= |events|
    ensures forall m | m in WrittenSince(events, states, limit, o, j) :: m.pid == pid
  {
    SentPrefix(events, j);
    OnlySent(events, states, limit, j);
    WireGrows(events, states, limit, o, j);
    assert forall m | m in Sent(events[..j]) :: m in Sent(events);
  }

  // ---- which send a message came from ----

  /** Messages `x` to `y` are numbered below `bound`. */
  predicate AllBelow(ms: seq<InboundMessage>, x: nat, y: nat, bound: int)
    requires y <= |ms|
  {
    forall n | x <= n < y :: ms[n].seqno < bound
  }

  /** ... the lossy ones are, or the others. */
  predicate LossyBelow(ms: seq<InboundMessage>, x: nat, y: nat, bound: int)
    requires y <= |ms|
  {
    forall n | x <= n < y && IsLossy(ms[n]) :: ms[n].seqno < bound
  }

  predicate LastingBelow(ms: seq<InboundMessage>, x: nat, y: nat, bound: int)
    requires y <= |ms|
  {
    forall n | x <= n < y && !IsLossy(ms[n]) :: ms[n].seqno < bound
  }

  /** Among messages of one pid number `k` is dispatched if and only if a hello lies at or before
      it and its number exceeds every number from the first hello on. */
  lemma SignedTakenIff(ms: seq<InboundMessage>, pid: ParticipantId, k: nat)
    requires k < |ms| && forall m | m in ms :: m.pid == pid
    ensures Taken(ms, k) <==>
              match FirstHello(ms)
              case None => false
              case Some(h) => h <= k && AllBelow(ms, h, k, ms[k].seqno)
    ensures match FirstHello(ms)
            case None => true
            case Some(h) =>
              h <= k ==> (AllBelow(ms, h, k, ms[k].seqno) <==>
                          LossyBelow(ms, h, k, ms[k].seqno) && LastingBelow(ms, h, k, ms[k].seqno))
  {
    TakenIff(ms, k);
    hide Taken;
    assert forall i | 0 <= i < |ms| :: ms[i] in ms;
  }

  /** The non-lossy messages sent by events `a` to `b` are numbered below `bound`. */
  predicate SentBelow(events: seq<Event>, a: nat, b: nat, bound: int)
    requires b <= |events|
  {
    forall c | a <= c < b && SendsLasting(events[c]) :: events[c].m.seqno < bound
  }

  /** The non-lossy messages sent, in order. */
  function Lasting(events: seq<Event>): seq<InboundMessage> { Filter(Sent(events), NON_LOSSY) }

  predicate SendsLasting(e: Event) { e.DoSend? && !IsLossy(e.m) }

  lemma LastingConcat(a: seq<Event>, b: seq<Event>)
    ensures Lasting(a + b) == Lasting(a) + Lasting(b)
  {
    SentConcat(a, b);
    FilterConcat(Sent(a), Sent(b), NON_LOSSY);
  }

  lemma SentOne(e: Event)
    ensures Sent([e]) == if e.DoSend? then [e.m] else []
  {
    assert [e][..0] == [];
  }

  lemma LastingOne(e: Event)
    ensures Lasting([e]) == if SendsLasting(e) then [e.m] else []
  {
    SentOne(e);
    if e.DoSend? {
      FilterAround([], e.m, [], NON_LOSSY);
      assert [] + [e.m] + [] == [e.m];
    }
  }

  lemma LastingGrows(events: seq<Event>, i: nat, k: nat)
    requires i <= k <= |events|
    ensures Lasting(events[..i]) <= Lasting(events[..k])
  {
    LastingConcat(events[..i], events[i..k]);
    assert events[..k] == events[..i] + events[i..k];
  }

  lemma NextLasting(events: seq<Event>, i: nat)
    requires i < |events|
    ensures Lasting(events[..i + 1]) == Lasting(events[..i]) + if SendsLasting(events[i]) then [events[i].m] else []
  {
    LastingConcat(events[..i], [events[i]]);
    LastingOne(events[i]);
    assert events[..i + 1] == events[..i] + [events[i]];
  }

  /** The event that sent number `n` of the non-lossy messages. */
  function SendEvent(events: seq<Event>, n: nat): (e: nat)
    requires n < |Lasting(events)|
    ensures e < |events| && SendsLasting(events[e])
    ensures |Lasting(events[..e])| == n && Lasting(events)[n] == events[e].m
  {
    assert |events| > 0;
    hide Lasting;
    var k := |events| - 1;
    NextLasting(events, k);
    assert events[..k + 1] == events;
    if n < |Lasting(events[..k])| then
      var e := SendEvent(events[..k], n);
      assert events[..k][..e] == events[..e];
      e
    else k
  }

  /** Between two non-lossy sends lie exactly the non-lossy sends of the ranks between. */
  lemma SendBetween(events: seq<Event>, x: nat, y: nat, c: nat) returns (n: nat)
    requires x <= y < |Lasting(events)| && SendEvent(events, x) <= c < SendEvent(events, y) && SendsLasting(events[c])
    ensures x <= n < y && Lasting(events)[n] == events[c].m
  {
    hide Lasting;
    n := |Lasting(events[..c])|;
    NextLasting(events, c);
    LastingGrows(events, SendEvent(events, x), c);
    SendRaisesRank(events, c, SendEvent(events, y));
    LastingGrows(events, c + 1, |events|);
    assert events[..|events|] == events;
  }

  lemma SendRaisesRank(events: seq<Event>, i: nat, k: nat)
    requires i < k <= |events| && SendsLasting(events[i])
    ensures |Lasting(events[..i])| < |Lasting(events[..k])|
  {
    hide Lasting;
    NextLasting(events, i);
    LastingGrows(events, i + 1, k);
  }

  lemma RankBetween(events: seq<Event>, x: nat, y: nat, n: nat)
    requires x <= n < y < |Lasting(events)|
    ensures SendEvent(events, x) <= SendEvent(events, n) < SendEvent(events, y)
  {
    hide Lasting;
    var a, b, c := SendEvent(events, x), SendEvent(events, y), SendEvent(events, n);
    if c < a { SendRaisesRank(events, c, a); }
    if b < c { SendRaisesRank(events, b, c); }
  }

  lemma SendsBetween(events: seq<Event>, x: nat, y: nat, bound: int)
    requires x <= y < |Lasting(events)|
    ensures SentBelow(events, SendEvent(events, x), SendEvent(events, y), bound) <==>
            AllBelow(Lasting(events), x, y, bound)
  {
    hide Lasting;
    var a, b, lasting := SendEvent(events, x), SendEvent(events, y), Lasting(events);
    if AllBelow(lasting, x, y, bound) {
      forall c | a <= c < b && SendsLasting(events[c]) ensures events[c].m.seqno < bound {
        var n := SendBetween(events, x, y, c);
      }
    }
    if SentBelow(events, a, b, bound) {
      forall n | x <= n < y ensures lasting[n].seqno < bound {
        RankBetween(events, x, y, n);
        assert lasting[n] == events[SendEvent(events, n)].m;
      }
    }
  }

  lemma WrittenLeadsLasting(events: seq<Event>, states: seq<ConnectionState>, limit: int, j: nat)
    requires IsRun(events, states, limit) && j <= |events|
    ensures Filter(states[j].wire, NON_LOSSY) <= Lasting(events[..j])
  {
    hide Filter, Sent;
    QueueConservation(events, states, limit, j);
  }

  /** The event that sent message `i` of those written since event `o`. */
  function Origin(
    events: seq<Event>, states: seq<ConnectionState>, limit: int, o: nat, j: nat, i: nat): (e: nat)
    requires IsRun(events, states, limit) && o <= j <= |events|
    requires var ms := WrittenSince(events, states, limit, o, j); i < |ms| && !IsLossy(ms[i])
    ensures e < j && events[e].DoSend? && events[e].m == WrittenSince(events, states, limit, o, j)[i]
  {
    var wire, w := states[j].wire, |states[o].wire| + i;
    WireGrows(events, states, limit, o, j);
    WrittenLeadsLasting(events, states, limit, j);
    RankOf(wire, NON_LOSSY, w);
    var e := SendEvent(events[..j], |Filter(wire[..w], NON_LOSSY)|);
    assert events[..j][e] == events[e];
    e
  }

  /** Between two written messages lie exactly the non-lossy ones of the ranks between. */
  lemma WrittenBetween(wire: seq<InboundMessage>, a: nat, b: nat, bound: int)
    requires a <= b < |wire| && !IsLossy(wire[a]) && !IsLossy(wire[b])
    ensures var x, y := |Filter(wire[..a], NON_LOSSY)|, |Filter(wire[..b], NON_LOSSY)|;
      && x <= y < |Filter(wire, NON_LOSSY)|
      && (LastingBelow(wire, a, b, bound) <==> AllBelow(Filter(wire, NON_LOSSY), x, y, bound))
  {
    var x, y := |Filter(wire[..a], NON_LOSSY)|, |Filter(wire[..b], NON_LOSSY)|;
    var written := Filter(wire, NON_LOSSY);
    RankNeverFalls(wire, NON_LOSSY, a, b);
    RankOf(wire, NON_LOSSY, b);
    hide Filter;
    if AllBelow(written, x, y, bound) {
      forall i | a <= i < b && !IsLossy(wire[i]) ensures wire[i].seqno < bound {
        RankOf(wire, NON_LOSSY, i);
        RankNeverFalls(wire, NON_LOSSY, a, i);
        RankGrows(wire, NON_LOSSY, i, b);
        assert wire[i] == written[|Filter(wire[..i], NON_LOSSY)|];
      }
    }
    if LastingBelow(wire, a, b, bound) {
      forall n | x <= n < y ensures written[n].seqno < bound {
        var i := AtRank(wire, NON_LOSSY, n);
        if i < a { RankGrows(wire, NON_LOSSY, i, a); }
        if b <= i { RankNeverFalls(wire, NON_LOSSY, b, i); }
      }
    }
  }

  lemma RunLength(events: seq<Event>, states: seq<ConnectionState>, limit: int)
    requires IsRun(events, states, limit)
    ensures |states| == |events| + 1
  {
  }

  lemma OriginAtRank(events: seq<Event>, states: seq<ConnectionState>, limit: int, o: nat, j: nat, i: nat)
    requires IsRun(events, states, limit) && o <= j <= |events|
    requires var ms := WrittenSince(events, states, limit, o, j); i < |ms| && !IsLossy(ms[i])
    ensures |states[o].wire| + i < |states[j].wire|
    ensures var before := states[j].wire[..|states[o].wire| + i];
            && |Filter(before, NON_LOSSY)| < |Lasting(events[..j])|
            && Origin(events, states, limit, o, j, i) == SendEvent(events[..j], |Filter(before, NON_LOSSY)|)
  {
    hide Filter, Sent, SendEvent, Lasting;
    WrittenLeadsLasting(events, states, limit, j);
    WireGrows(events, states, limit, o, j);
    RankOf(states[j].wire, NON_LOSSY, |states[o].wire| + i);
  }

  lemma SameBelow(
    wire: seq<InboundMessage>, ms: seq<InboundMessage>, from: nat, h: nat, k: nat, bound: int)
    requires from <= |wire| && ms == wire[from..] && h <= k <= |ms|
    ensures LastingBelow(ms, h, k, bound) <==> LastingBelow(wire, from + h, from + k, bound)
  {
    assert forall i | h <= i < k :: ms[i] == wire[from + i];
    assert forall i | from + h <= i < from + k :: wire[i] == ms[i - from];
  }

  lemma PrefixBelow(a: seq<InboundMessage>, b: seq<InboundMessage>, x: nat, y: nat, bound: int)
    requires a <= b && y <= |a|
    ensures AllBelow(a, x, y, bound) <==> AllBelow(b, x, y, bound)
  {
    assert forall n | x <= n < y :: a[n] == b[n];
  }

  lemma PastBelow(events: seq<Event>, j: nat, a: nat, b: nat, bound: int)
    requires b <= j <= |events|
    ensures SentBelow(events[..j], a, b, bound) <==> SentBelow(events, a, b, bound)
  {
    assert forall c | a <= c < b :: events[..j][c] == events[c];
  }

  lemma BetweenByRank(
    events: seq<Event>, j: nat, wire: seq<InboundMessage>, ms: seq<InboundMessage>, from: nat, h: nat, k: nat,
    bound: int)
    requires from <= |wire| && ms == wire[from..] && h <= k < |ms| && !IsLossy(ms[h]) && !IsLossy(ms[k])
    requires j <= |events| && Filter(wire, NON_LOSSY) <= Lasting(events[..j])
    ensures var x, y := |Filter(wire[..from + h], NON_LOSSY)|, |Filter(wire[..from + k], NON_LOSSY)|;
      && x <= y < |Lasting(events[..j])|
      && (LastingBelow(ms, h, k, bound) <==>
          SentBelow(events, SendEvent(events[..j], x), SendEvent(events[..j], y), bound))
  {
    hide Filter, Lasting, SendEvent, LastingBelow, SentBelow, AllBelow;
    var x, y, past := |Filter(wire[..from + h], NON_LOSSY)|, |Filter(wire[..from + k], NON_LOSSY)|, events[..j];
    WrittenBetween(wire, from + h, from + k, bound);
    SendsBetween(past, x, y, bound);
    SameBelow(wire, ms, from, h, k, bound);
    PrefixBelow(Filter(wire, NON_LOSSY), Lasting(past), x, y, bound);
    PastBelow(events, j, SendEvent(past, x), SendEvent(past, y), bound);
  }

  /** What lies between two messages written to a socket is what was sent between them, lossy
      messages apart. */
  lemma WrittenIsSentBetween(
    events: seq<Event>, states: seq<ConnectionState>, limit: int, o: nat, j: nat, h: nat, k: nat, bound: int)
    requires IsRun(events, states, limit) && o <= j <= |events|
    requires var ms := WrittenSince(events, states, limit, o, j);
             h <= k < |ms| && !IsLossy(ms[h]) && !IsLossy(ms[k])
    ensures var ms := WrittenSince(events, states, limit, o, j);
            LastingBelow(ms, h, k, bound) <==>
            SentBelow(events, Origin(events, states, limit, o, j, h), Origin(events, states, limit, o, j, k), bound)
  {
    hide Filter, Sent, SendEvent, Conserves, Origin, Lasting, LastingBelow, SentBelow, IsRun;
    assert |states| == |events| + 1 by { RunLength(events, states, limit); }
    WireGrows(events, states, limit, o, j);
    WrittenLeadsLasting(events, states, limit, j);
    OriginAtRank(events, states, limit, o, j, h);
    OriginAtRank(events, states, limit, o, j, k);
    BetweenByRank(
        events, j, states[j].wire, WrittenSince(events, states, limit, o, j), |states[o].wire|, h, k, bound);
  }

  /** Whatever is written to one socket, in any run, however the client numbers what it sends and
      whatever was queued when the socket opened: a non-lossy message is dispatched if and only if
      a hello was written at or before it, and its number exceeds that of every lossy message
      written in between and of every non-lossy message sent from that hello's send to its own. */
  lemma NonLossyTakenIff(
    events: seq<Event>, states: seq<ConnectionState>, limit: int, pid: ParticipantId, o: nat, j: nat, k: nat)
    requires IsRun(events, states, limit) && SignedBy(events, pid) && SameSocket(events, o, j)
    requires var ms := WrittenSince(events, states, limit, o, j); k < |ms| && !IsLossy(ms[k])
    ensures var ms := WrittenSince(events, states, limit, o, j);
            Taken(ms, k) <==>
              match FirstHello(ms)
              case None => false
              case Some(h) =>
                && h <= k
                && LossyBelow(ms, h, k, ms[k].seqno)
                && SentBelow(events, Origin(events, states, limit, o, j, h), Origin(events, states, limit, o, j, k),
                             ms[k].seqno)
  {
    var ms := WrittenSince(events, states, limit, o, j);
    WrittenIsSigned(events, states, limit, pid, o, j);
    SignedTakenIff(ms, pid, k);
    hide Taken, LossyBelow, LastingBelow, SentBelow, AllBelow, IsRun, SignedBy;
    var h := FirstHello(ms);
    if h.Some? && h.value <= k {
      WrittenIsSentBetween(events, states, limit, o, j, h.value, k, ms[k].seqno);
    }
  }

  lemma MiddleAscends(early: seq<InboundMessage>, mid: seq<InboundMessage>, late: seq<InboundMessage>)
    requires SeqnosAscend(early + mid + late)
    ensures SeqnosAscend(mid)
  {
    assert forall n | 0 <= n < |mid| :: mid[n] == (early + mid + late)[|early| + n];
  }

  lemma StretchAscends(events: seq<Event>, i: nat, j: nat)
    requires SeqnosAscend(Sent(events)) && i <= j <= |events|
    ensures SeqnosAscend(Sent(events[i..j]))
  {
    hide Sent, SeqnosAscend;
    SentConcat(events[..i], events[i..j]);
    SentConcat(events[..j], events[j..]);
    assert events[..j] == events[..i] + events[i..j] && events == events[..j] + events[j..];
    MiddleAscends(Sent(events[..i]), Sent(events[i..j]), Sent(events[j..]));
  }

  /** What was sent before is numbered lower. */
  lemma EarlierSentLower(events: seq<Event>, c: nat, i: nat)
    requires SeqnosAscend(Sent(events)) && c < i < |events| && events[c].DoSend? && events[i].DoSend?
    ensures events[c].m.seqno < events[i].m.seqno
  {
    hide Sent;
    StretchAscends(events, c, i + 1);
    var first, last := [events[c]], [events[i]];
    assert events[c..i + 1] == first + events[c + 1..i] + last;
    SentOne(events[c]);
    SentOne(events[i]);
    SentConcat(first, events[c + 1..i]);
    SentConcat(first + events[c + 1..i], last);
    var sent := Sent(events[c..i + 1]);
    assert sent[0] == events[c].m && sent[|sent| - 1] == events[i].m;
  }

  /** For a client that sends in numerical order, only lossy messages stand in the way. */
  lemma NumberedNonLossyTakenIff(
    events: seq<Event>, states: seq<ConnectionState>, limit: int, pid: ParticipantId, o: nat, j: nat, k: nat)
    requires IsRun(events, states, limit) && SignedBy(events, pid) && SameSocket(events, o, j)
    requires SeqnosAscend(Sent(events))
    requires var ms := WrittenSince(events, states, limit, o, j); k < |ms| && !IsLossy(ms[k])
    ensures var ms := WrittenSince(events, states, limit, o, j);
            Taken(ms, k) <==>
              match FirstHello(ms)
              case None => false
              case Some(h) => h <= k && LossyBelow(ms, h, k, ms[k].seqno)
  {
    NonLossyTakenIff(events, states, limit, pid, o, j, k);
    var last := Origin(events, states, limit, o, j, k);
    forall c | 0 <= c < last && events[c].DoSend? ensures events[c].m.seqno < events[last].m.seqno {
      EarlierSentLower(events, c, last);
    }
  }

  // ---- a reopened client ----

  /** What a socket was given so far and what still waits for it. */
  function InTransit(c: ConnectionState, base: nat): seq<InboundMessage>
    requires base <= |c.wire|
  {
    c.wire[base..] + c.queue
  }

  /** `t` is some of `q` in order, then the hello and some of the rest of `since` in order. */
  ghost predicate SplitsAt(
    t: seq<InboundMessage>, g: nat, q: seq<InboundMessage>, since: seq<InboundMessage>)
  {
    && g < |t| && InOrderWithin(t[..g], q) && InOrderWithin(t[g..], since)
    && |since| > 0 && t[g] == since[0]
  }

  /** On the socket opened over the queue `q`, `since` having been sent over it, its hello first:
      under way is some of the queue and, behind it, the hello and some of what followed. */
  ghost predicate Greeted(c: ConnectionState, base: nat, q: seq<InboundMessage>, since: seq<InboundMessage>) {
    && c.socket && c.status.Open? && c.timer.None? && base <= |c.wire|
    && |since| > 0 && since[0].Hello?
    && exists g: nat :: SplitsAt(InTransit(c, base), g, q, since)
  }

  predicate NothingLossy(items: seq<InboundMessage>) {
    forall m | m in items :: !IsLossy(m)
  }

  lemma JoinSplit(
    early: seq<InboundMessage>, late: seq<InboundMessage>, q: seq<InboundMessage>, since: seq<InboundMessage>)
    requires InOrderWithin(early, q) && InOrderWithin(late, since)
    requires |late| > 0 && |since| > 0 && late[0] == since[0]
    ensures SplitsAt(early + late, |early|, q, since)
  {
    assert (early + late)[..|early|] == early && (early + late)[|early|..] == late;
  }

  /** Dropping lossy messages from the end keeps the split, if the hello is not lossy. */
  lemma ShedKeepsSplit(
    a: seq<InboundMessage>, b: seq<InboundMessage>, g: nat, q: seq<InboundMessage>, since: seq<InboundMessage>)
    returns (left: nat)
    requires SplitsAt(a + b, g, q, since) && !IsLossy(since[0])
    ensures SplitsAt(a + Filter(b, NON_LOSSY), left, q, since)
  {
    hide InOrderWithin, Filter;
    var early, late := (a + b)[..g], (a + b)[g..];
    if |a| <= g {
      var kept := early[|a|..];
      var shed := a + Filter(kept, NON_LOSSY);
      ShedWithin(early, |a|, NON_LOSSY);
      assert early[..|a|] == a;
      WithinWithin(shed, early, q);
      FilterWithin(late, NON_LOSSY);
      WithinWithin(Filter(late, NON_LOSSY), late, since);
      FilterNone([], NON_LOSSY);
      FilterAround([], late[0], late[1..], NON_LOSSY);
      assert late == [] + [late[0]] + late[1..];
      FilterConcat(kept, late, NON_LOSSY);
      assert b == kept + late;
      left := |shed|;
      JoinSplit(shed, Filter(late, NON_LOSSY), q, since);
      assert a + Filter(b, NON_LOSSY) == shed + Filter(late, NON_LOSSY);
    } else {
      var n := |a| - g;
      var shed := late[..n] + Filter(late[n..], NON_LOSSY);
      ShedWithin(late, n, NON_LOSSY);
      WithinWithin(shed, late, since);
      assert late[n..] == b && a == early + late[..n];
      left := g;
      JoinSplit(early, shed, q, since);
      assert a + Filter(b, NON_LOSSY) == early + shed;
    }
  }

  lemma FlushKeepsGreeted(
    c: ConnectionState, base: nat, q: seq<InboundMessage>, since: seq<InboundMessage>, readings: Readings, limit: int)
    requires Greeted(c, base, q, since)
    ensures var d := Flush(c, true, readings, limit);
            Greeted(d, base, q, since) && NothingLossy(d.queue)
  {
    hide InOrderWithin, SplitsAt, Filter;
    var w := Writable(|c.queue|, readings, limit, 0);
    var d := Flush(c, true, readings, limit);
    var written, rest := c.wire[base..] + c.queue[..w], c.queue[w..];
    assert InTransit(c, base) == written + rest;
    var g: nat :| SplitsAt(InTransit(c, base), g, q, since);
    var left := ShedKeepsSplit(written, rest, g, q, since);
    assert d.wire[base..] == written;
    assert InTransit(d, base) == written + Filter(rest, NON_LOSSY);
    FilterMembers(rest, NON_LOSSY);
  }

  lemma EnqueuedLast(items: seq<InboundMessage>, m: InboundMessage)
    requires NothingLossy(items) || !IsLossy(m)
    ensures Enqueued(items, m) == items + [m]
  {
    if IsLossy(m) {
      forall i | 0 <= i < |items| ensures TypeOf(items[i]) != TypeOf(m) { assert items[i] in items; }
    }
  }

  lemma ExtendSplit(
    t: seq<InboundMessage>, g: nat, q: seq<InboundMessage>, since: seq<InboundMessage>, m: InboundMessage)
    requires SplitsAt(t, g, q, since)
    ensures SplitsAt(t + [m], g, q, since + [m])
  {
    ExtendWithin(t[g..], since, m);
    hide InOrderWithin;
    assert (t + [m])[g..] == t[g..] + [m] && (t + [m])[..g] == t[..g];
  }

  /** With nothing lossy waiting, a message sent joins the end. */
  lemma SendKeepsGreeted(
    c: ConnectionState, base: nat, q: seq<InboundMessage>, since: seq<InboundMessage>,
    m: InboundMessage, readings: Readings, limit: int)
    requires Greeted(c, base, q, since) && NothingLossy(c.queue)
    ensures var d := Send(c, m, true, readings, limit);
            Greeted(d, base, q, since + [m]) && NothingLossy(d.queue)
  {
    hide SplitsAt, InOrderWithin;
    var e := c.(queue := Enqueued(c.queue, m));
    EnqueuedLast(c.queue, m);
    var t := InTransit(c, base);
    assert InTransit(e, base) == t + [m];
    var g: nat :| SplitsAt(t, g, q, since);
    ExtendSplit(t, g, q, since, m);
    FlushKeepsGreeted(e, base, q, since + [m], readings, limit);
  }

  lemma HelloGreets(c: ConnectionState, hello: InboundMessage, readings: Readings, limit: int)
    requires c.socket && c.status.Open? && c.timer.None? && hello.Hello?
    ensures var d := Send(c, hello, true, readings, limit);
            Greeted(d, |c.wire|, c.queue, [hello]) && NothingLossy(d.queue)
  {
    EnqueuedLast(c.queue, hello);
    var e, t := c.(queue := c.queue + [hello]), c.queue + [hello];
    assert InTransit(e, |c.wire|) == t;
    WholeWithin(c.queue);
    WholeWithin([hello]);
    assert t[..|c.queue|] == c.queue && t[|c.queue|..] == [hello];
    assert SplitsAt(t, |c.queue|, c.queue, [hello]);
    FlushKeepsGreeted(e, |c.wire|, c.queue, [hello], readings, limit);
  }

  /** The socket opened at event `o` is greeted at once, and open for every send until `j`. */
  predicate GreetedAtOnce(events: seq<Event>, o: nat, j: nat) {
    && SameSocket(events, o, j) && o + 1 < j && events[o + 1].DoSend? && events[o + 1].m.Hello?
    && forall i | o < i < j && events[i].DoSend? :: events[i].ready
  }

  lemma SameTransit(
    c: ConnectionState, d: ConnectionState, base: nat, q: seq<InboundMessage>, since: seq<InboundMessage>)
    requires Greeted(c, base, q, since) && d.wire == c.wire && d.queue == c.queue
    requires d.socket == c.socket && d.status == c.status && d.timer == c.timer
    ensures Greeted(d, base, q, since)
  {
    var g: nat :| SplitsAt(InTransit(c, base), g, q, since);
    assert InTransit(d, base) == InTransit(c, base);
  }

  lemma StepKeepsGreeted(
    c: ConnectionState, e: Event, limit: int, base: nat, q: seq<InboundMessage>, since: seq<InboundMessage>)
    requires Greeted(c, base, q, since) && NothingLossy(c.queue)
    requires Possible(c, e) && !e.SocketCloses? && !e.SocketOpens? && (e.DoSend? ==> e.ready)
    ensures Greeted(Step(c, e, limit), base, q, since + if e.DoSend? then [e.m] else [])
    ensures NothingLossy(Step(c, e, limit).queue)
  {
    assert since + [] == since;
    match e {
      case DoSend(m, _, readings) => SendKeepsGreeted(c, base, q, since, m, readings, limit);
      case DoFlush(ready, readings) => if ready { FlushKeepsGreeted(c, base, q, since, readings, limit); }
      case DoConnect => SameTransit(c, Connect(c), base, q, since);
      case DoDisconnect => SameTransit(c, Disconnect(c), base, q, since);
      case _ =>
    }
  }

  lemma {:induction false} StaysGreeted(
    events: seq<Event>, states: seq<ConnectionState>, limit: int, o: nat, j: nat, i: nat)
    requires IsRun(events, states, limit) && GreetedAtOnce(events, o, j) && o + 2 <= i <= j
    ensures Greeted(states[i], |states[o].wire|, states[o].queue, Sent(events[o + 1..i]))
    ensures NothingLossy(states[i].queue)
  {
    hide Greeted, NothingLossy, Send, Flush, Sent;
    var e := events[i - 1];
    RunStep(events, states, limit, i - 1);
    if i == o + 2 {
      RunStep(events, states, limit, o);
      AtMostOneSocket(events, states, limit, o + 1);
      HelloGreets(states[o + 1], e.m, e.readings, limit);
      assert events[o + 1..i] == [e];
      SentOne(e);
    } else {
      StaysGreeted(events, states, limit, o, j, i - 1);
      SentConcat(events[o + 1..i - 1], [e]);
      SentOne(e);
      assert events[o + 1..i] == events[o + 1..i - 1] + [e];
      StepKeepsGreeted(states[i - 1], e, limit, |states[o].wire|, states[o].queue, Sent(events[o + 1..i - 1]));
    }
  }

  lemma WithinHelloless(a: seq<InboundMessage>, q: seq<InboundMessage>)
    requires InOrderWithin(a, q) && forall m | m in q :: !m.Hello?
    ensures forall m | m in a :: !m.Hello?
  {
    var at: seq<nat> :| Embeds(at, a, q);
    forall m | m in a ensures !m.Hello? {
      var i :| 0 <= i < |a| && a[i] == m;
      assert q[at[i]] in q;
    }
  }

  /** What was written is some of the queue, then the hello and some of what was sent since; a
      hello is written as soon as anything sent since is. */
  ghost predicate WrittenInTwo(ms: seq<InboundMessage>, q: seq<InboundMessage>, since: seq<InboundMessage>) {
    match FirstHello(ms)
    case None => InOrderWithin(ms, q)
    case Some(g) => |since| > 0 && ms[g] == since[0] && InOrderWithin(ms[..g], q) && InOrderWithin(ms[g..], since)
  }

  lemma GreetedIsWritten(
    c: ConnectionState, base: nat, ms: seq<InboundMessage>, q: seq<InboundMessage>, since: seq<InboundMessage>)
    requires Greeted(c, base, q, since) && ms == c.wire[base..] && forall m | m in q :: !m.Hello?
    ensures WrittenInTwo(ms, q, since)
  {
    hide InOrderWithin;
    var t := InTransit(c, base);
    assert t[..|ms|] == ms;
    var g: nat :| SplitsAt(t, g, q, since);
    WithinHelloless(t[..g], q);
    if |ms| <= g {
      PrefixWithin(t[..g], |ms|, q);
      assert t[..g][..|ms|] == ms;
      assert forall i | 0 <= i < |ms| :: ms[i] == t[..g][i];
    } else {
      PrefixWithin(t[g..], |ms| - g, since);
      assert ms[..g] == t[..g] && ms[g..] == t[g..][..|ms| - g];
      assert forall i | 0 <= i < g :: ms[i] in t[..g];
      assert FirstHello(ms) == Some(g);
    }
  }

  /** When a socket opens over a queue with no hello in it, whatever is written of that queue is
      written first and refused, lossless, control and audit messages like any other. Behind it
      come the hello and what was sent since, and of these a message is dispatched if and only if
      its number exceeds every number written from the hello on. */
  lemma QueuedBeforeOpenIsLost(
    events: seq<Event>, states: seq<ConnectionState>, limit: int, pid: ParticipantId, o: nat, j: nat)
    requires IsRun(events, states, limit) && SignedBy(events, pid) && GreetedAtOnce(events, o, j)
    requires forall m | m in states[o].queue :: !m.Hello?
    ensures var ms := WrittenSince(events, states, limit, o, j);
            && WrittenInTwo(ms, states[o].queue, Sent(events[o + 1..j]))
            && forall k | 0 <= k < |ms| ::
                 Taken(ms, k) <==>
                   FirstHello(ms).Some? && FirstHello(ms).value <= k
                   && AllBelow(ms, FirstHello(ms).value, k, ms[k].seqno)
  {
    var ms := WrittenSince(events, states, limit, o, j);
    StaysGreeted(events, states, limit, o, j, j);
    GreetedIsWritten(states[j], |states[o].wire|, ms, states[o].queue, Sent(events[o + 1..j]));
    WrittenIsSigned(events, states, limit, pid, o, j);
    hide Taken, AllBelow, WrittenInTwo, IsRun;
    forall k | 0 <= k < |ms|
      ensures Taken(ms, k) <==>
                FirstHello(ms).Some? && FirstHello(ms).value <= k
                && AllBelow(ms, FirstHello(ms).value, k, ms[k].seqno)
    {
      SignedTakenIff(ms, pid, k);
    }
  }

  lemma TailAscends(ms: seq<InboundMessage>, g: nat, since: seq<InboundMessage>, k: nat)
    requires g <= k < |ms| && InOrderWithin(ms[g..], since) && SeqnosAscend(since)
    ensures AllBelow(ms, g, k, ms[k].seqno)
  {
    var tail := ms[g..];
    WithinAscends(tail, since);
    hide InOrderWithin;
    forall i | g <= i < k ensures ms[i].seqno < ms[k].seqno {
      assert ms[i] == tail[i - g] && ms[k] == tail[k - g];
    }
  }

  /** For a client that sends in numerical order, the server dispatches exactly what was sent
      since the socket opened. */
  lemma NumberedQueueIsLost(
    events: seq<Event>, states: seq<ConnectionState>, limit: int, pid: ParticipantId, o: nat, j: nat, k: nat)
    requires IsRun(events, states, limit) && SignedBy(events, pid) && GreetedAtOnce(events, o, j)
    requires SeqnosAscend(Sent(events))
    requires forall m | m in states[o].queue :: !m.Hello?
    requires k < |WrittenSince(events, states, limit, o, j)|
    ensures var ms := WrittenSince(events, states, limit, o, j);
            && WrittenInTwo(ms, states[o].queue, Sent(events[o + 1..j]))
            && (Taken(ms, k) <==> FirstHello(ms).Some? && FirstHello(ms).value <= k)
  {
    var ms := WrittenSince(events, states, limit, o, j);
    QueuedBeforeOpenIsLost(events, states, limit, pid, o, j);
    StretchAscends(events, o + 1, j);
    hide Taken, SeqnosAscend, InOrderWithin, GreetedAtOnce, IsRun;
    if FirstHello(ms).Some? && FirstHello(ms).value <= k {
      TailAscends(ms, FirstHello(ms).value, Sent(events[o + 1..j]), k);
    }
  }

  // ---- concrete runs ----

  const UNHINDERED: Readings := (i: nat) => 0

  lemma Extend(events: seq<Event>, states: seq<ConnectionState>, limit: int, e: Event, next: ConnectionState)
    requires IsRun(events, states, limit) && Possible(states[|events|], e) && next == Step(states[|events|], e, limit)
    ensures IsRun(events + [e], states + [next], limit)
  {
  }

  lemma SentGrows(events: seq<Event>, e: Event)
    ensures Sent(events + [e]) == Sent(events) + if e.DoSend? then [e.m] else []
  {
    assert (events + [e])[..|events|] == events;
  }

  /** An unhindered send over an open socket writes everything queued. */
  lemma SendWritesAll(c: ConnectionState, m: InboundMessage, limit: nat)
    requires c.socket && !IsLossy(m)
    ensures Send(c, m, true, UNHINDERED, limit) == c.(wire := c.wire + (c.queue + [m]), queue := [])
  {
    var q := c.queue + [m];
    EnqueuedLast(c.queue, m);
    assert Writable(|q|, UNHINDERED, limit, 0) == |q|;
    assert q[..|q|] == q;
  }

  lemma TooEarlyIsRefused(m: InboundMessage, hello: InboundMessage)
    requires !m.Hello? && hello.Hello?
    ensures Controllers.Judge(NEW_CONNECTION, m).Unauthorized? && !Taken([m, hello], 0) && Taken([m, hello], 1)
  {
    var ms := [m, hello];
    TakenIff(ms, 0);
    TakenIff(ms, 1);
    assert ms[0] == m && ms[1] == hello;
  }

  /** A message sent before connecting -- lossless or not, as long as it is no hello -- is written
      first and refused for want of a handshake. */
  lemma SentTooEarlyIsLost(m: InboundMessage, hello: InboundMessage, limit: nat)
    returns (events: seq<Event>, states: seq<ConnectionState>)
    requires !m.Hello? && hello.Hello?
    ensures IsRun(events, states, limit) && |events| == 4 && SameSocket(events, 2, 4)
    ensures events[0].DoSend? && events[0].m == m && events[3].DoSend? && events[3].m == hello
    ensures WrittenSince(events, states, limit, 2, 4) == [m, hello]
    ensures Controllers.Judge(NEW_CONNECTION, m).Unauthorized? && !Taken([m, hello], 0) && Taken([m, hello], 1)
  {
    TooEarlyIsRefused(m, hello);
    hide Taken, Controllers.Judge, After;
    var s1 := Send(INITIAL, m, false, UNHINDERED, limit);
    assert s1 == INITIAL.(queue := [m]);
    var s2 := Connect(s1);
    var s3 := Opened(s2);
    var s4 := Send(s3, hello, true, UNHINDERED, limit);
    SendWritesAll(s3, hello, limit);
    events := [DoSend(m, false, UNHINDERED), DoConnect, SocketOpens, DoSend(hello, true, UNHINDERED)];
    states := [INITIAL, s1, s2, s3, s4];
    assert s4.wire == [m, hello];
  }

  /** A session start numbered before the socket opens and stored by the outbox only after the
      hello was sent: it is written behind the hello under the lower number, and refused. */
  lemma LateAuditIsRefused(pid: ParticipantId, eventId: string, limit: nat)
    returns (events: seq<Event>, states: seq<ConnectionState>)
    ensures IsRun(events, states, limit) && SignedBy(events, pid) && |events| == 4 && GreetedAtOnce(events, 1, 4)
    ensures states[1].queue == []
    ensures var ms := WrittenSince(events, states, limit, 1, 4);
            && ms == [Hello(pid, 2, 0), Audit(pid, 1, SessionStart, eventId)]
            && !IsLossy(ms[1]) && !Taken(ms, 1)
  {
    var hello, start := Hello(pid, 2, 0), Audit(pid, 1, SessionStart, eventId);
    LowerIsRefused(hello, start);
    hide Taken;
    events, states := OpenedOnce(limit);
    var greeted := Send(states[2], hello, true, UNHINDERED, limit);
    SendWritesAll(states[2], hello, limit);
    Extend(events, states, limit, DoSend(hello, true, UNHINDERED), greeted);
    SentGrows(events, DoSend(hello, true, UNHINDERED));
    events, states := events + [DoSend(hello, true, UNHINDERED)], states + [greeted];
    var late := Send(greeted, start, true, UNHINDERED, limit);
    SendWritesAll(greeted, start, limit);
    Extend(events, states, limit, DoSend(start, true, UNHINDERED), late);
    SentGrows(events, DoSend(start, true, UNHINDERED));
    events, states := events + [DoSend(start, true, UNHINDERED)], states + [late];
  }

  lemma LowerIsRefused(hello: InboundMessage, m: InboundMessage)
    requires hello.Hello? && m.pid == hello.pid && m.seqno <= hello.seqno
    ensures !Taken([hello, m], 1)
  {
    var ms := [hello, m];
    TakenIff(ms, 1);
    assert ms[0] == hello && ms[1] == m;
  }

  /** A ping queued offline between two cursor moves, behind a hello that backpressure had sent
      back to the queue: the newer cursor takes the older one's place ahead of the ping, and the
      server refuses the ping as out of date. */
  lemma ReplacementOvertakes(pid: ParticipantId, p1: Point, p2: Point, limit: nat)
    returns (events: seq<Event>, states: seq<ConnectionState>)
    ensures IsRun(events, states, limit) && SeqnosAscend(Sent(events)) && SignedBy(events, pid)
    ensures |events| == 10 && SameSocket(events, 8, 10)
    ensures events[5].DoSend? && events[5].m == Ping(pid, 3, 0)
    ensures var ms := WrittenSince(events, states, limit, 8, 10);
            && ms == [Hello(pid, 1, 0), Cursor(pid, 4, p2), Ping(pid, 3, 0), Hello(pid, 5, 0)]
            && !Taken(ms, 2)
  {
    var early, c1 := BackpressuredHello(pid, limit);
    var late, c2 := QueuedOffline(pid, p1, p2, limit, early, c1);
    var queue := [Hello(pid, 1, 0), Cursor(pid, 4, p2), Ping(pid, 3, 0)];
    events, states := Reopens(limit, late, c2, queue, Hello(pid, 5, 0));
    AscendingFive(pid, p1, p2);
    assert Sent(events) == FiveSent(pid, p1, p2);
    assert WrittenSince(events, states, limit, 8, 10) == queue + [Hello(pid, 5, 0)];
    PingRefused(pid, p2);
  }

  function FiveSent(pid: ParticipantId, p1: Point, p2: Point): seq<InboundMessage> {
    [Hello(pid, 1, 0)] + [Cursor(pid, 2, p1), Ping(pid, 3, 0), Cursor(pid, 4, p2)] + [Hello(pid, 5, 0)]
  }

  lemma AscendingFive(pid: ParticipantId, p1: Point, p2: Point)
    ensures SeqnosAscend(FiveSent(pid, p1, p2)) && forall m | m in FiveSent(pid, p1, p2) :: m.pid == pid
  {
  }

  lemma PingRefused(pid: ParticipantId, p2: Point)
    ensures var ms := [Hello(pid, 1, 0), Cursor(pid, 4, p2), Ping(pid, 3, 0)] + [Hello(pid, 5, 0)];
            !Taken(ms, 2)
  {
    var ms := [Hello(pid, 1, 0), Cursor(pid, 4, p2), Ping(pid, 3, 0)] + [Hello(pid, 5, 0)];
    TakenIff(ms, 2);
    assert ms[0].Hello? && ms[1].seqno > ms[2].seqno && ms[1].pid == ms[2].pid == ms[0].pid;
  }

  /** A hello that cannot be written at once waits in the queue. */
  lemma HelloWaits(c: ConnectionState, hello: InboundMessage, full: Readings, limit: int)
    requires hello.Hello? && c.queue == [] && full(0) > limit
    ensures Send(c, hello, true, full, limit) == c.(queue := [hello])
  {
    assert Enqueued([], hello) == [hello];
    assert Writable(1, full, limit, 0) == 0;
    assert [hello][0..] == [hello] && [hello][..0] == [];
    assert Filter([hello], NON_LOSSY) == [hello];
    assert c.wire + [] == c.wire;
  }

  /** Connect, open. */
  lemma OpenedOnce(limit: nat) returns (events: seq<Event>, states: seq<ConnectionState>)
    ensures IsRun(events, states, limit) && |events| == 2 && Sent(events) == []
    ensures events[1] == SocketOpens && states[1].queue == [] && states[1].wire == []
    ensures states[2] == INITIAL.(status := Open, socket := true, created := 1)
  {
    events, states := [DoConnect, SocketOpens], [INITIAL, Connect(INITIAL), Opened(Connect(INITIAL))];
    assert events[..1] == [DoConnect] && [DoConnect][..0] == [];
  }

  /** Connect, open, and a hello that backpressure sends back; then the socket closes. */
  lemma BackpressuredHello(pid: ParticipantId, limit: nat)
    returns (events: seq<Event>, states: seq<ConnectionState>)
    ensures IsRun(events, states, limit) && |events| == 4 && Sent(events) == [Hello(pid, 1, 0)]
    ensures Offline(states[4], [Hello(pid, 1, 0)])
  {
    var hello, full: Readings := Hello(pid, 1, 0), (i: nat) => limit + 1;
    var before, c := OpenedOnce(limit);
    HelloWaits(c[2], hello, full, limit);
    var waiting := c[2].(queue := [hello]);
    events, states := before + [DoSend(hello, true, full)], c + [waiting];
    Extend(before, c, limit, DoSend(hello, true, full), waiting);
    SentGrows(before, DoSend(hello, true, full));
    Extend(events, states, limit, SocketCloses(0.0), SocketClosed(waiting, 0.0));
    SentGrows(events, SocketCloses(0.0));
    events, states := events + [SocketCloses(0.0)], states + [SocketClosed(waiting, 0.0)];
  }

  /** Waiting to reconnect, nothing written yet. */
  predicate Offline(c: ConnectionState, queue: seq<InboundMessage>) {
    c.queue == queue && c.wire == [] && !c.socket && c.timer.Some? && c.status.Reconnecting? && !c.intentional
  }

  lemma SendOffline(
    events: seq<Event>, states: seq<ConnectionState>, limit: nat, m: InboundMessage, queue: seq<InboundMessage>)
    returns (e: Event, next: ConnectionState)
    requires IsRun(events, states, limit) && Offline(states[|events|], queue)
    ensures e == DoSend(m, false, UNHINDERED)
    ensures IsRun(events + [e], states + [next], limit) && Offline(next, Enqueued(queue, m))
    ensures Sent(events + [e]) == Sent(events) + [m]
  {
    e := DoSend(m, false, UNHINDERED);
    next := Step(states[|events|], e, limit);
    Extend(events, states, limit, e, next);
    SentGrows(events, e);
  }

  lemma QueuedOffline(
    pid: ParticipantId, p1: Point, p2: Point, limit: nat, early: seq<Event>, c1: seq<ConnectionState>)
    returns (events: seq<Event>, states: seq<ConnectionState>)
    requires IsRun(early, c1, limit) && |early| == 4 && Offline(c1[4], [Hello(pid, 1, 0)])
    ensures IsRun(events, states, limit) && |events| == 7 && events[5].DoSend? && events[5].m == Ping(pid, 3, 0)
    ensures Sent(events) == Sent(early) + [Cursor(pid, 2, p1), Ping(pid, 3, 0), Cursor(pid, 4, p2)]
    ensures Offline(states[7], [Hello(pid, 1, 0), Cursor(pid, 4, p2), Ping(pid, 3, 0)])
  {
    var hello, move, ping, on := Hello(pid, 1, 0), Cursor(pid, 2, p1), Ping(pid, 3, 0), Cursor(pid, 4, p2);
    events, states := early, c1;
    var e1, s1 := SendOffline(events, states, limit, move, [hello]);
    events, states := events + [e1], states + [s1];
    assert Enqueued([hello], move) == [hello, move];
    var e2, s2 := SendOffline(events, states, limit, ping, [hello, move]);
    events, states := events + [e2], states + [s2];
    assert Enqueued([hello, move], ping) == [hello, move, ping];
    var e3, s3 := SendOffline(events, states, limit, on, [hello, move, ping]);
    events, states := events + [e3], states + [s3];
    TakesThePlace(hello, move, ping, on);
  }

  lemma TakesThePlace(hello: InboundMessage, move: InboundMessage, ping: InboundMessage, on: InboundMessage)
    requires hello.Hello? && move.Cursor? && ping.Ping? && on.Cursor?
    ensures Enqueued([hello, move, ping], on) == [hello, on, ping]
  {
    var items := [hello, move, ping];
    assert SlotOf(items, CursorType) == Some(1) by {
      assert TypeOf(items[2]) == PingType && items[..2] == [hello, move];
    }
  }

  /** The timer fires, the new socket opens, and the client says hello. */
  lemma Reopens(
    limit: nat, late: seq<Event>, c2: seq<ConnectionState>, queue: seq<InboundMessage>, hello: InboundMessage)
    returns (events: seq<Event>, states: seq<ConnectionState>)
    requires IsRun(late, c2, limit) && Offline(c2[|late|], queue) && hello.Hello?
    ensures events == late + [TimerFires] + [SocketOpens] + [DoSend(hello, true, UNHINDERED)]
    ensures IsRun(events, states, limit) && Sent(events) == Sent(late) + [hello]
    ensures states[|late| + 1].wire == [] && states[|late| + 3].wire == queue + [hello]
  {
    var s1 := TimerFired(c2[|late|]);
    Extend(late, c2, limit, TimerFires, s1);
    var s2 := Opened(s1);
    Extend(late + [TimerFires], c2 + [s1], limit, SocketOpens, s2);
    var s3 := Send(s2, hello, true, UNHINDERED, limit);
    SendWritesAll(s2, hello, limit);
    Extend(late + [TimerFires] + [SocketOpens], c2 + [s1] + [s2], limit, DoSend(hello, true, UNHINDERED), s3);
    events := late + [TimerFires] + [SocketOpens] + [DoSend(hello, true, UNHINDERED)];
    states := c2 + [s1] + [s2] + [s3];
    SentGrows(late, TimerFires);
    SentGrows(late + [TimerFires], SocketOpens);
    SentGrows(late + [TimerFires] + [SocketOpens], DoSend(hello, true, UNHINDERED));
  }
}
