/** What the convergence report can tell apart: the canonical string determines the view, and the
    hash separates strings that differ in one character
    (apps/server/src/services/ConvergenceTracker.ts). */
module Distinguishing {
  import opened Wrappers
  import opened Protocol
  import opened Receiver
  import opened Arithmetic
  import opened Ordering
  import opened ConvergenceReport

  // ---- exclusive or ----

  function BitOf(n: nat, k: nat): nat {
    if k == 0 then n % 2 else BitOf(n / 2, k - 1)
  }

  /** A bit of the result is set exactly if it is set in one of the two. */
  lemma {:induction false} XorBit(a: nat, b: nat, bits: nat, k: nat)
    requires k < bits
    ensures BitOf(BitXor(a, b, bits), k) == if BitOf(a, k) == BitOf(b, k) then 0 else 1
  {
    var rest := BitXor(a / 2, b / 2, bits - 1);
    Halved((a + b) % 2, rest);
    if k > 0 { XorBit(a / 2, b / 2, bits - 1, k - 1); }
  }

  /** Applied twice it gives back the first number. */
  lemma {:induction false} XorUndone(a: nat, b: nat, bits: nat)
    requires a < Pow2(bits)
    ensures BitXor(BitXor(a, b, bits), b, bits) == a
  {
    if bits > 0 {
      var rest := BitXor(a / 2, b / 2, bits - 1);
      XorUndone(a / 2, b / 2, bits - 1);
      Halved((a + b) % 2, rest);
      Parity(a, b);
      assert BitXor(a, b, bits) == (a + b) % 2 + 2 * rest;
    }
  }

  lemma Halved(digit: nat, rest: nat)
    requires digit < 2
    ensures (digit + 2 * rest) % 2 == digit && (digit + 2 * rest) / 2 == rest
  {
  }

  lemma Parity(a: nat, b: nat)
    ensures ((a + b) % 2 + b) % 2 == a % 2
    ensures forall rest: nat :: ((a + b) % 2 + 2 * rest + b) % 2 == a % 2
  {
  }

  lemma {:induction false} XorCommutes(a: nat, b: nat, bits: nat)
    ensures BitXor(a, b, bits) == BitXor(b, a, bits)
  {
    if bits > 0 { XorCommutes(a / 2, b / 2, bits - 1); }
  }

  lemma {:induction false} XorNothing(a: nat, bits: nat)
    requires a < Pow2(bits)
    ensures BitXor(a, 0, bits) == a
  {
    if bits > 0 { XorNothing(a / 2, bits - 1); }
  }

  /** One code, two hashes; or one hash, two codes: two results. */
  lemma XorSeparates(h1: nat, h2: nat, c1: char, c2: char)
    requires h1 < TWO32 && h2 < TWO32 && (h1 == h2) != (c1 == c2)
    ensures XorCode(h1, c1) != XorCode(h2, c2)
  {
    Pow2Of32();
    XorUndone(h1, c1 as int, 32);
    XorUndone(h2, c2 as int, 32);
    XorCommutes(h1, c1 as int, 32);
    XorCommutes(h2, c2 as int, 32);
    XorUndone(c1 as int, h1, 32);
    XorUndone(c2 as int, h2, 32);
  }

  // ---- the multiplication ----

  /** 403 * 2^0 + 2^24 has an inverse modulo 2^32. */
  const INVERSE: nat := 0x359c449b

  lemma {:induction false} ModShift(r: nat, k: nat)
    ensures (r + k * TWO32) % TWO32 == r % TWO32
  {
    if k > 0 {
      ModShift(r, k - 1);
      assert r + k * TWO32 == (r + (k - 1) * TWO32) + TWO32;
    }
  }

  lemma TimesInverse(x: nat)
    requires x < TWO32
    ensures x * PRIME % TWO32 * INVERSE % TWO32 == x
  {
    var q, r := x * PRIME / TWO32, x * PRIME % TWO32;
    assert PRIME * INVERSE == 3513497 * TWO32 + 1;
    assert x * PRIME == q * TWO32 + r;
    Distribute(x, q, r);
    ModShift(x, x * 3513497);
    ModShift(r * INVERSE, q * INVERSE);
  }

  lemma Distribute(x: nat, q: nat, r: nat)
    requires x * PRIME == q * TWO32 + r
    ensures r * INVERSE + (q * INVERSE) * TWO32 == x + (x * 3513497) * TWO32
  {
    assert (x * PRIME) * INVERSE == x * (PRIME * INVERSE);
  }

  // ---- the hash ----

  /** One round maps different hashes, or different codes, to different hashes. */
  lemma RoundSeparates(h1: nat, h2: nat, c1: char, c2: char)
    requires h1 < TWO32 && h2 < TWO32 && (h1 == h2) != (c1 == c2)
    ensures XorCode(h1, c1) * PRIME % TWO32 != XorCode(h2, c2) * PRIME % TWO32
  {
    hide XorCode;
    XorSeparates(h1, h2, c1, c2);
    TimesInverse(XorCode(h1, c1));
    TimesInverse(XorCode(h2, c2));
  }

  predicate DifferOnlyAt(s: string, t: string, i: nat) {
    && i < |s| == |t| && s[i] != t[i]
    && forall j | 0 <= j < |s| && j != i :: s[j] == t[j]
  }

  /** Strings that differ in exactly one character never collide. */
  lemma {:induction false} OneCharacterShows(s: string, t: string, i: nat)
    requires DifferOnlyAt(s, t, i)
    ensures Fnv1a(s) != Fnv1a(t) && Hex(Fnv1a(s)) != Hex(Fnv1a(t))
    decreases |s|
  {
    hide XorCode, Hex;
    var n := |s| - 1;
    if i < n { OneCharacterShows(s[..n], t[..n], i); } else { assert s[..n] == t[..n]; }
    RoundSeparates(Fnv1a(s[..n]), Fnv1a(t[..n]), s[n], t[n]);
    if Hex(Fnv1a(s)) == Hex(Fnv1a(t)) { HexInjective(Fnv1a(s), Fnv1a(t)); }
  }

  lemma XorStep(a: nat, b: nat, bits: nat)
    requires bits > 0
    ensures BitXor(a, b, bits) == (a + b) % 2 + 2 * BitXor(a / 2, b / 2, bits - 1)
  {
  }

  lemma Pow2Of25()
    ensures Pow2(25) == 0x200_0000
  {
    assert Pow2(8) == 0x100;
    assert Pow2(16) == 0x1_0000;
    assert Pow2(24) == 0x100_0000;
  }

  /** Bit by bit, until nothing is left of the letter's code. */
  lemma XorOfA()
    ensures XorCode(OFFSET_BASIS, 'a') == 0x811c9da4
  {
    hide BitXor, Pow2;
    Pow2Of25();
    XorNothing(0x102393b, 25);
    XorStep(0x811c9dc5, 97, 32);
    XorStep(0x408e4ee2, 48, 31);
    XorStep(0x20472771, 24, 30);
    XorStep(0x102393b8, 12, 29);
    XorStep(0x811c9dc, 6, 28);
    XorStep(0x408e4ee, 3, 27);
    XorStep(0x2047277, 1, 26);
    Pow2Of32();
  }

  /** The published value for the one-letter string. */
  lemma HashOfA()
    ensures Fnv1a("") == 0x811c9dc5 && Fnv1a("a") == 0xe40c292c && Hex(0xe40c292c) == "e40c292c"
  {
    XorOfA();
    assert "a"[..0] == "";
    assert Hex(0xe4) == "e4";
    assert Hex(0xe40c) == "e40c";
    assert Hex(0xe40c29) == "e40c29";
  }

  // ---- the canonical string ----

  predicate Plain(s: string) { ':' !in s && '|' !in s }

  /** Numbers are written without separators, never as nothing, and each differently. */
  ghost predicate WritesNumbers(number: real -> string) {
    && (forall x: real :: Plain(number(x)) && number(x) != "")
    && forall x: real, y: real | x != y :: number(x) != number(y)
  }

  predicate PlainRoster(ps: Roster) {
    forall pid | pid in ps :: Plain(pid) && Plain(ps[pid].color)
  }

  /** The first separator ends the first part. */
  lemma SplitsOnce(x: string, y: string, u: string, v: string, c: char)
    requires c !in x && c !in u && x + [c] + y == u + [c] + v
    ensures x == u && y == v
  {
    var s := x + [c] + y;
    assert s[|x|] == c && s[|u|] == c;
    assert forall k | 0 <= k < |x| :: s[k] == x[k] && s[k] != c;
    assert forall k | 0 <= k < |u| :: s[k] == u[k] && s[k] != c;
    assert x == s[..|x|] && u == s[..|u|] && y == s[|x| + 1..] && v == s[|u| + 1..];
  }

  lemma NumberTells(p: Option<Point>, q: Option<Point>, number: real -> string)
    requires WritesNumbers(number)
    requires RenderNumber(p, true, number) == RenderNumber(q, true, number)
    requires RenderNumber(p, false, number) == RenderNumber(q, false, number)
    ensures p == q
  {
  }

  lemma NumberIsPlain(p: Option<Point>, x: bool, number: real -> string)
    requires WritesNumbers(number)
    ensures Plain(RenderNumber(p, x, number))
  {
  }

  /** The six parts of an entry, as a sequence. */
  function Parts(pid: ParticipantId, p: SimulatedParticipant, number: real -> string): seq<string> {
    [pid, p.color, RenderNumber(p.cursor, true, number), RenderNumber(p.cursor, false, number),
     RenderNumber(p.scroll, true, number), RenderNumber(p.scroll, false, number)]
  }

  function Joined(parts: seq<string>): string
    requires |parts| > 0
  {
    if |parts| == 1 then parts[0] else parts[0] + [':'] + Joined(parts[1..])
  }

  lemma JoinedFour(a: seq<string>)
    requires |a| == 4
    ensures Joined(a) == a[0] + ":" + (a[1] + ":" + (a[2] + ":" + a[3]))
  {
    assert a[1..][1..] == a[2..] && a[2..][1..] == a[3..];
    assert Joined(a[3..]) == a[3];
    assert Joined(a[2..]) == a[2] + ":" + a[3];
    assert Joined(a[1..]) == a[1] + ":" + (a[2] + ":" + a[3]);
  }

  lemma JoinedSix(a: seq<string>)
    requires |a| == 6
    ensures Joined(a) == a[0] + ":" + (a[1] + ":" + (a[2] + ":" + (a[3] + ":" + (a[4] + ":" + a[5]))))
  {
    JoinedFour(a[2..]);
    assert a[1..][1..] == a[2..];
  }

  lemma RightToLeft(a: string, b: string, c: string, d: string, e: string, f: string)
    ensures a + ":" + (b + ":" + (c + ":" + (d + ":" + (e + ":" + f)))) ==
            a + ":" + b + ":" + c + ":" + d + ":" + e + ":" + f
  {
    assert c + ":" + (d + ":" + (e + ":" + f)) == c + ":" + d + ":" + e + ":" + f;
  }

  lemma EntryIsJoined(pid: ParticipantId, p: SimulatedParticipant, number: real -> string)
    ensures RenderEntry(pid, p, number) == Joined(Parts(pid, p, number))
  {
    hide Joined, RenderNumber;
    var a := Parts(pid, p, number);
    JoinedSix(a);
    RightToLeft(a[0], a[1], a[2], a[3], a[4], a[5]);
  }

  lemma {:induction false} JoinedTells(a: seq<string>, b: seq<string>)
    requires |a| == |b| > 0 && Joined(a) == Joined(b)
    requires forall i | 0 <= i < |a| :: ':' !in a[i] && ':' !in b[i]
    ensures a == b
  {
    if |a| > 1 {
      SplitsOnce(a[0], Joined(a[1..]), b[0], Joined(b[1..]), ':');
      JoinedTells(a[1..], b[1..]);
      assert a == [a[0]] + a[1..] && b == [b[0]] + b[1..];
    }
  }

  lemma PartsArePlain(pid: ParticipantId, p: SimulatedParticipant, number: real -> string)
    requires WritesNumbers(number) && Plain(pid) && Plain(p.color)
    ensures forall i | 0 <= i < 6 :: Plain(Parts(pid, p, number)[i])
  {
    NumberIsPlain(p.cursor, true, number);
    NumberIsPlain(p.cursor, false, number);
    NumberIsPlain(p.scroll, true, number);
    NumberIsPlain(p.scroll, false, number);
  }

  lemma {:induction false} JoinedHasNoBar(parts: seq<string>)
    requires |parts| > 0 && forall i | 0 <= i < |parts| :: '|' !in parts[i]
    ensures '|' !in Joined(parts)
  {
    if |parts| > 1 { JoinedHasNoBar(parts[1..]); }
  }

  lemma EntryTells(
    p1: ParticipantId, s1: SimulatedParticipant, p2: ParticipantId, s2: SimulatedParticipant, number: real -> string)
    requires WritesNumbers(number) && Plain(p1) && Plain(p2) && Plain(s1.color) && Plain(s2.color)
    requires RenderEntry(p1, s1, number) == RenderEntry(p2, s2, number)
    ensures p1 == p2 && s1 == s2
  {
    hide RenderNumber, WritesNumbers, RenderEntry;
    EntryIsJoined(p1, s1, number);
    EntryIsJoined(p2, s2, number);
    PartsArePlain(p1, s1, number);
    PartsArePlain(p2, s2, number);
    var a, b := Parts(p1, s1, number), Parts(p2, s2, number);
    JoinedTells(a, b);
    assert a[0] == b[0] && a[1] == b[1] && a[2] == b[2] && a[3] == b[3] && a[4] == b[4] && a[5] == b[5];
    NumberTells(s1.cursor, s2.cursor, number);
    NumberTells(s1.scroll, s2.scroll, number);
  }

  /** An entry has no bar in it, and something else. */
  lemma EntryIsOne(pid: ParticipantId, p: SimulatedParticipant, number: real -> string)
    requires WritesNumbers(number) && Plain(pid) && Plain(p.color)
    ensures '|' !in RenderEntry(pid, p, number) && RenderEntry(pid, p, number) != ""
  {
    hide RenderNumber, WritesNumbers;
    EntryIsJoined(pid, p, number);
    PartsArePlain(pid, p, number);
    JoinedHasNoBar(Parts(pid, p, number));
  }

  predicate PlainKeys(keys: seq<ParticipantId>, ps: Roster) {
    forall pid | pid in keys :: pid in ps && Plain(pid) && Plain(ps[pid].color)
  }

  lemma RenderFirst(keys: seq<ParticipantId>, ps: Roster, number: real -> string)
    requires |keys| > 0 && PlainKeys(keys, ps)
    ensures RenderAll(keys, ps, number) ==
            RenderEntry(keys[0], ps[keys[0]], number)
              + if |keys| == 1 then "" else ['|'] + RenderAll(keys[1..], ps, number)
  {
    hide RenderEntry;
  }

  lemma BarAfter(x: string, y: string, z: string)
    requires '|' !in x
    ensures x != y + (['|'] + z)
  {
    assert (y + (['|'] + z))[|y|] == '|';
  }

  lemma {:induction false} ListTells(
    k1: seq<ParticipantId>, ps1: Roster, k2: seq<ParticipantId>, ps2: Roster, number: real -> string)
    requires WritesNumbers(number) && PlainKeys(k1, ps1) && PlainKeys(k2, ps2)
    requires RenderAll(k1, ps1, number) == RenderAll(k2, ps2, number)
    ensures k1 == k2 && forall pid | pid in k1 :: ps1[pid] == ps2[pid]
    decreases |k1|
  {
    hide RenderEntry, WritesNumbers, RenderAll;
    if |k1| == 0 || |k2| == 0 {
      OnlyEmptyIsEmpty(k1, ps1, number);
      OnlyEmptyIsEmpty(k2, ps2, number);
    } else {
      RenderFirst(k1, ps1, number);
      RenderFirst(k2, ps2, number);
      var e1, e2 := RenderEntry(k1[0], ps1[k1[0]], number), RenderEntry(k2[0], ps2[k2[0]], number);
      EntryIsOne(k1[0], ps1[k1[0]], number);
      EntryIsOne(k2[0], ps2[k2[0]], number);
      if |k1| == 1 && |k2| == 1 { assert e1 + "" == e1 && e2 + "" == e2; }
      if |k1| == 1 && |k2| > 1 { BarAfter(e1, e2, RenderAll(k2[1..], ps2, number)); }
      if |k2| == 1 && |k1| > 1 { BarAfter(e2, e1, RenderAll(k1[1..], ps1, number)); }
      if |k1| > 1 && |k2| > 1 {
        var r1, r2 := RenderAll(k1[1..], ps1, number), RenderAll(k2[1..], ps2, number);
        assert e1 + ['|'] + r1 == e1 + (['|'] + r1) && e2 + ['|'] + r2 == e2 + (['|'] + r2);
        SplitsOnce(e1, r1, e2, r2, '|');
        ListTells(k1[1..], ps1, k2[1..], ps2, number);
      }
      EntryTells(k1[0], ps1[k1[0]], k2[0], ps2[k2[0]], number);
      assert k1 == [k1[0]] + k1[1..] && k2 == [k2[0]] + k2[1..];
    }
  }

  lemma OnlyEmptyIsEmpty(keys: seq<ParticipantId>, ps: Roster, number: real -> string)
    requires WritesNumbers(number) && PlainKeys(keys, ps)
    ensures RenderAll(keys, ps, number) == "" <==> keys == []
  {
    hide RenderEntry, WritesNumbers;
    if |keys| > 0 {
      RenderFirst(keys, ps, number);
      EntryIsOne(keys[0], ps[keys[0]], number);
    }
  }

  /** If ids and colours are free of the separators and numbers are written as such, two views
      have one canonical string exactly if they are equal: whatever the report fails to tell
      apart, it is for the hash alone to have lost. */
  lemma CanonicalTellsViewsApart(
    k1: seq<ParticipantId>, ps1: Roster, k2: seq<ParticipantId>, ps2: Roster, number: real -> string)
    requires WritesNumbers(number) && Lists(k1, ps1) && Lists(k2, ps2) && PlainRoster(ps1) && PlainRoster(ps2)
    ensures Canonical(k1, ps1, number) == Canonical(k2, ps2, number) <==> ps1 == ps2
  {
    hide RenderAll, WritesNumbers;
    SortedLists(k1, ps1);
    SortedLists(k2, ps2);
    if Canonical(k1, ps1, number) == Canonical(k2, ps2, number) {
      ListTells(Sort(StringLess, k1), ps1, Sort(StringLess, k2), ps2, number);
      assert ps1.Keys == ps2.Keys;
    }
    if ps1 == ps2 { CanonicalIgnoresHistory(k1, k2, ps1, number); }
  }
}
