/** The per-recipient simulation and its convergence report
    (apps/server/src/services/ConvergenceTracker.ts). */
module ConvergenceReport {
  import opened Wrappers
  import opened Protocol
  import opened Receiver
  import opened Arithmetic
  import opened Ordering

  // ---- hashOf ----

  const TWO32: nat := 0x1_0000_0000
  const OFFSET_BASIS: nat := 0x811c9dc5
  const PRIME: nat := 0x01000193

  lemma Pow2Of32()
    ensures Pow2(32) == TWO32
  {
    assert Pow2(8) == 0x100;
    assert Pow2(16) == 0x1_0000;
    assert Pow2(24) == 0x100_0000;
  }

  /** Bitwise exclusive or of the low `bits` bits. */
  function BitXor(a: nat, b: nat, bits: nat): (r: nat)
    ensures r < Pow2(bits)
  {
    if bits == 0 then 0 else (a + b) % 2 + 2 * BitXor(a / 2, b / 2, bits - 1)
  }

  function XorCode(h: nat, c: char): (r: nat)
    ensures r < TWO32
  {
    Pow2Of32();
    BitXor(h, c as int, 32)
  }

  function ToUint32(n: int): nat { n % TWO32 }

  /** The signed reading of a 32-bit pattern. */
  function ToSigned(u: nat): int
    requires u < TWO32
  {
    if u >= 0x8000_0000 then u - TWO32 else u
  }

  /** `a ^ code` on numbers. */
  function JsXor(a: int, c: char): int { ToSigned(XorCode(ToUint32(a), c)) }

  /** `Math.imul`. */
  function Imul(a: int, b: int): int { ToSigned(ToUint32(a) * ToUint32(b) % TWO32) }

  /** FNV-1a over unsigned 32-bit arithmetic. */
  function Fnv1a(s: string): (h: nat)
    ensures h < TWO32
  {
    if |s| == 0 then OFFSET_BASIS
    else XorCode(Fnv1a(s[..|s| - 1]), s[|s| - 1]) * PRIME % TWO32
  }

  lemma SignedReadsBack(u: nat)
    requires u < TWO32
    ensures ToUint32(ToSigned(u)) == u
  {
  }

  /** One round of the signed loop, read as unsigned, is one round of the unsigned hash. */
  lemma SignedRound(hash: int, c: char)
    ensures ToUint32(Imul(JsXor(hash, c), PRIME)) == XorCode(ToUint32(hash), c) * PRIME % TWO32
  {
    var x := XorCode(ToUint32(hash), c);
    SignedReadsBack(x);
    assert ToUint32(PRIME) == PRIME;
    SignedReadsBack(x * PRIME % TWO32);
  }

  /** The source's signed loop computes the unsigned hash. */
  method HashString(canonical: string) returns (r: nat)
    ensures r == Fnv1a(canonical)
  {
    var hash: int := OFFSET_BASIS;
    var index := 0;
    while index < |canonical|
      invariant 0 <= index <= |canonical|
      invariant ToUint32(hash) == Fnv1a(canonical[..index])
    {
      assert canonical[..index + 1][..index] == canonical[..index];
      SignedRound(hash, canonical[index]);
      hash := JsXor(hash, canonical[index]);
      hash := Imul(hash, PRIME);
      index := index + 1;
    }
    assert canonical[..index] == canonical;
    r := ToUint32(hash);
  }

  function HexDigit(d: nat): char
    requires d < 16
  {
    if d < 10 then '0' + d as char else 'a' + (d - 10) as char
  }

  /** `toString(16)`. */
  function Hex(n: nat): (s: string)
    ensures |s| > 0
  {
    if n < 16 then [HexDigit(n)] else Hex(n / 16) + [HexDigit(n % 16)]
  }

  lemma DigitInjective(c: nat, d: nat)
    requires c < 16 && d < 16 && HexDigit(c) == HexDigit(d)
    ensures c == d
  {
  }

  lemma HexEnds(n: nat)
    ensures var s := Hex(n);
            s[|s| - 1] == HexDigit(n % 16) && s[..|s| - 1] == if n < 16 then "" else Hex(n / 16)
  {
  }

  /** Different numbers are written differently. */
  lemma {:induction false} HexInjective(m: nat, n: nat)
    requires Hex(m) == Hex(n)
    ensures m == n
  {
    HexEnds(m);
    HexEnds(n);
    DigitInjective(m % 16, n % 16);
    if m >= 16 && n >= 16 { HexInjective(m / 16, n / 16); }
  }

  // ---- the canonical string ----

  /** `keys` lists the participants of `ps`, each once: a Map's insertion order. */
  ghost predicate Lists<V>(keys: seq<ParticipantId>, m: map<ParticipantId, V>) {
    NoDup(keys) && forall pid :: pid in keys <==> pid in m
  }

  function RenderNumber(p: Option<Point>, x: bool, number: real -> string): string {
    if p.None? then "" else number(if x then p.value.x else p.value.y)
  }

  function RenderEntry(pid: ParticipantId, p: SimulatedParticipant, number: real -> string): string {
    pid + ":" + p.color
    + ":" + RenderNumber(p.cursor, true, number) + ":" + RenderNumber(p.cursor, false, number)
    + ":" + RenderNumber(p.scroll, true, number) + ":" + RenderNumber(p.scroll, false, number)
  }

  function RenderAll(keys: seq<ParticipantId>, ps: Roster, number: real -> string): string
    requires forall pid | pid in keys :: pid in ps
  {
    if |keys| == 0 then ""
    else if |keys| == 1 then RenderEntry(keys[0], ps[keys[0]], number)
    else RenderEntry(keys[0], ps[keys[0]], number) + "|" + RenderAll(keys[1..], ps, number)
  }

  lemma SortedLists(keys: seq<ParticipantId>, ps: Roster)
    requires Lists(keys, ps)
    ensures forall pid :: pid in Sort(StringLess, keys) <==> pid in ps
  {
    StringLessIsTotal();
    SortAscending(StringLess, keys);
  }

  /** The canonical string of a view whose entries were inserted in the order `keys`. */
  ghost function Canonical(keys: seq<ParticipantId>, ps: Roster, number: real -> string): string
    requires Lists(keys, ps)
  {
    SortedLists(keys, ps);
    RenderAll(Sort(StringLess, keys), ps, number)
  }

  /** Equal views have one canonical string, whatever order their entries were inserted in. */
  lemma CanonicalIgnoresHistory(
    keys1: seq<ParticipantId>, keys2: seq<ParticipantId>, ps: Roster, number: real -> string)
    requires Lists(keys1, ps) && Lists(keys2, ps)
    ensures Canonical(keys1, ps, number) == Canonical(keys2, ps, number)
  {
    StringLessIsTotal();
    SortIsCanonical(StringLess, keys1, keys2);
  }

  /** The hash of a view: any insertion order will do, by CanonicalIgnoresHistory. */
  ghost predicate IsHashOf(h: string, ps: Roster, number: real -> string) {
    forall keys: seq<ParticipantId> | Lists(keys, ps) :: h == Hex(Fnv1a(Canonical(keys, ps, number)))
  }

  lemma {:induction false} EnumerationExists<V>(m: map<ParticipantId, V>)
    ensures exists keys: seq<ParticipantId> :: Lists(keys, m)
    decreases |m|
  {
    if |m| == 0 {
      assert Lists([], m);
    } else {
      var pid :| pid in m;
      var rest := m - {pid};
      assert rest.Keys == m.Keys - {pid};
      EnumerationExists(rest);
      var keys: seq<ParticipantId> :| Lists(keys, rest);
      assert Lists(keys + [pid], m);
    }
  }

  lemma HashIsUnique(h1: string, h2: string, ps: Roster, number: real -> string)
    requires IsHashOf(h1, ps, number) && IsHashOf(h2, ps, number)
    ensures h1 == h2
  {
    EnumerationExists(ps);
    var keys: seq<ParticipantId> :| Lists(keys, ps);
  }

  method HashOf(ps: Roster, number: real -> string) returns (h: string)
    ensures IsHashOf(h, ps, number)
  {
    var keys := Elements(ps.Keys);
    SortedLists(keys, ps);
    var hash := HashString(RenderAll(Sort(StringLess, keys), ps, number));
    h := Hex(hash);
    forall other: seq<ParticipantId> | Lists(other, ps) ensures h == Hex(Fnv1a(Canonical(other, ps, number))) {
      CanonicalIgnoresHistory(keys, other, ps, number);
    }
  }

  // ---- the tracker ----

  type SessionViews = map<ParticipantId, View>

  class ConvergenceTracker {
    var sessions: map<SessionId, SessionViews>

    constructor ()
      ensures sessions == map[]
    {
      sessions := map[];
    }

    function SessionOf(sid: SessionId): SessionViews
      reads this
    {
      if sid in sessions then sessions[sid] else map[]
    }

    function ViewOf(sid: SessionId, pid: ParticipantId): View
      reads this
    {
      if pid in SessionOf(sid) then SessionOf(sid)[pid] else EMPTY_VIEW
    }

    /** One delivery changes exactly one recipient's view, as `Deliver` says. */
    method RecordDelivery(sid: SessionId, pid: ParticipantId, message: OutboundMessage)
      modifies this
      ensures sessions == old(sessions)[sid := old(SessionOf(sid))[pid := Deliver(old(ViewOf(sid, pid)), message)]]
    {
      var session := SessionOf(sid);
      var entry := ViewOf(sid, pid);
      match message {
        case Welcome(snaps) => var ps := Seed(snaps); entry := entry.(participants := ps);
        case Snapshot(snaps) => var ps := Seed(snaps); entry := entry.(participants := ps);
        case Join(participant) => entry := entry.(participants := Upsert(entry.participants, participant));
        case Leave(gone) => entry := entry.(participants := entry.participants - {gone});
        case Patch(seqno, patches) =>
          if Fresh(entry.lastPatchSeq, seqno) {
            var i, ps := 0, entry.participants;
            while i < |patches|
              invariant 0 <= i <= |patches|
              invariant ps == ApplyPatches(entry.participants, patches[..i])
            {
              assert patches[..i + 1][..i] == patches[..i];
              ps := ApplyPatch(ps, patches[i]);
              i := i + 1;
            }
            assert patches[..i] == patches;
            entry := View(ps, Some(seqno));
          }
        case _ =>
      }
      sessions := sessions[sid := session[pid := entry]];
    }

    method Seed(snaps: seq<ParticipantSnapshot>) returns (ps: Roster)
      ensures ps == UpsertAll(map[], snaps)
    {
      ps := map[];
      var i := 0;
      while i < |snaps|
        invariant 0 <= i <= |snaps|
        invariant ps == UpsertAll(map[], snaps[..i])
      {
        assert snaps[..i + 1][..i] == snaps[..i];
        ps := Upsert(ps, snaps[i]);
        i := i + 1;
      }
      assert snaps[..i] == snaps;
    }

    method Forget(sid: SessionId)
      modifies this
      ensures sessions == old(sessions) - {sid}
    {
      sessions := sessions - {sid};
    }

    /** One hash per recipient; `converged` exactly when the hashes agree, hence always
        when the views do. */
    method Report(sid: SessionId, number: real -> string) returns (hashes: map<ParticipantId, string>, converged: bool)
      ensures hashes.Keys == SessionOf(sid).Keys
      ensures forall pid | pid in hashes :: IsHashOf(hashes[pid], SessionOf(sid)[pid].participants, number)
      ensures converged <==> forall p, q | p in hashes && q in hashes :: hashes[p] == hashes[q]
      ensures (forall p, q | p in SessionOf(sid) && q in SessionOf(sid) ::
                 SessionOf(sid)[p].participants == SessionOf(sid)[q].participants) ==> converged
    {
      var views := SessionOf(sid);
      hashes := map[];
      var rest := views.Keys;
      while rest != {}
        invariant rest <= views.Keys
        invariant hashes.Keys == views.Keys - rest
        invariant forall pid | pid in hashes :: IsHashOf(hashes[pid], views[pid].participants, number)
        decreases rest
      {
        var pid :| pid in rest;
        var h := HashOf(views[pid].participants, number);
        hashes := hashes[pid := h];
        rest := rest - {pid};
      }
      var distinct := hashes.Values;
      converged := |distinct| <= 1;
      ReportAgreement(views, hashes, number);
    }
  }

  lemma ReportAgreement(views: SessionViews, hashes: map<ParticipantId, string>, number: real -> string)
    requires hashes.Keys == views.Keys
    requires forall pid | pid in hashes :: IsHashOf(hashes[pid], views[pid].participants, number)
    ensures |hashes.Values| <= 1 <==> forall p, q | p in hashes && q in hashes :: hashes[p] == hashes[q]
    ensures (forall p, q | p in views && q in views :: views[p].participants == views[q].participants) ==>
              |hashes.Values| <= 1
  {
    AtMostOne(hashes.Values);
    assert forall p | p in hashes :: hashes[p] in hashes.Values;
    if forall p, q | p in views && q in views :: views[p].participants == views[q].participants {
      forall p, q | p in hashes && q in hashes ensures hashes[p] == hashes[q] {
        HashIsUnique(hashes[p], hashes[q], views[p].participants, number);
      }
    }
  }

  lemma AtMostOne(s: set<string>)
    ensures |s| <= 1 <==> forall a, b | a in s && b in s :: a == b
  {
    if |s| > 1 {
      var a :| a in s;
      assert |s - {a}| > 0;
      var b :| b in s - {a};
    } else if |s| == 1 {
      forall a, b | a in s && b in s ensures a == b {
        var x :| x in s;
        assert |s - {x}| == 0;
        assert s - {x} == {};
      }
    }
    if s != {} && forall a, b | a in s && b in s :: a == b {
      var a :| a in s;
      assert s == {a};
    }
  }
}
