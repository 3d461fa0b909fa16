/** Sorting by a strict total order: the result is determined by the set of elements. */
module Ordering {

  ghost predicate StrictTotal<K(!new)>(less: (K, K) -> bool) {
    && (forall a :: !less(a, a))
    && (forall a, b :: less(a, b) || a == b || less(b, a))
    && (forall a, b, c :: less(a, b) && less(b, c) ==> less(a, c))
  }

  predicate Ascending<K>(less: (K, K) -> bool, s: seq<K>) {
    forall i, j | 0 <= i < j < |s| :: less(s[i], s[j])
  }

  predicate NoDup<K(==)>(s: seq<K>) {
    forall i, j | 0 <= i < j < |s| :: s[i] != s[j]
  }

  function Insert<K>(less: (K, K) -> bool, x: K, s: seq<K>): seq<K> {
    if |s| == 0 || less(x, s[0]) then [x] + s else [s[0]] + Insert(less, x, s[1..])
  }

  /** `Array.prototype.sort` with a comparator, on distinct elements. */
  function Sort<K>(less: (K, K) -> bool, s: seq<K>): seq<K> {
    if |s| == 0 then [] else Insert(less, s[0], Sort(less, s[1..]))
  }

  lemma {:induction false} InsertKeepsAscending<K(!new)>(less: (K, K) -> bool, x: K, s: seq<K>)
    requires StrictTotal(less) && Ascending(less, s) && x !in s
    ensures Ascending(less, Insert(less, x, s))
    ensures forall y :: y in Insert(less, x, s) <==> y == x || y in s
  {
    if |s| > 0 {
      assert forall y :: y in s <==> y == s[0] || y in s[1..];
      if !less(x, s[0]) {
        InsertKeepsAscending(less, x, s[1..]);
        var t := Insert(less, x, s[1..]);
        forall j | 0 <= j < |t| ensures less(s[0], t[j]) { assert t[j] in t; }
      }
    }
  }

  lemma {:induction false} SortAscending<K(!new)>(less: (K, K) -> bool, s: seq<K>)
    requires StrictTotal(less) && NoDup(s)
    ensures Ascending(less, Sort(less, s))
    ensures forall y :: y in Sort(less, s) <==> y in s
  {
    if |s| > 0 {
      SortAscending(less, s[1..]);
      assert forall y :: y in s <==> y == s[0] || y in s[1..];
      InsertKeepsAscending(less, s[0], Sort(less, s[1..]));
    }
  }

  lemma NonEmpty<K>(s: seq<K>, t: seq<K>)
    requires forall y :: y in s ==> y in t
    ensures |s| > 0 ==> |t| > 0
  {
    if |s| > 0 { assert s[0] in t; }
  }

  lemma {:induction false} AscendingIsUnique<K(!new)>(less: (K, K) -> bool, s: seq<K>, t: seq<K>)
    requires StrictTotal(less) && Ascending(less, s) && Ascending(less, t)
    requires forall y :: y in s <==> y in t
    ensures s == t
  {
    NonEmpty(s, t);
    NonEmpty(t, s);
    if |s| > 0 {
      assert s[0] in t && t[0] in s;
      assert s[0] == t[0];
      forall y ensures y in s[1..] <==> y in t[1..] {
        assert y in s <==> y == s[0] || y in s[1..];
        assert y in t <==> y == t[0] || y in t[1..];
      }
      AscendingIsUnique(less, s[1..], t[1..]);
      assert s == [s[0]] + s[1..] && t == [t[0]] + t[1..];
    }
  }

  /** Any two orders of the same distinct elements sort to the same sequence. */
  lemma SortIsCanonical<K(!new)>(less: (K, K) -> bool, s: seq<K>, t: seq<K>)
    requires StrictTotal(less) && NoDup(s) && NoDup(t)
    requires forall y :: y in s <==> y in t
    ensures Sort(less, s) == Sort(less, t)
  {
    SortAscending(less, s);
    SortAscending(less, t);
    AscendingIsUnique(less, Sort(less, s), Sort(less, t));
  }

  /** The elements of a set in some order: what iterating a Set or a Map's keys gives. */
  method Elements<K>(s: set<K>) returns (items: seq<K>)
    ensures NoDup(items)
    ensures forall x :: x in items <==> x in s
  {
    items := [];
    var rest := s;
    while rest != {}
      invariant rest <= s && NoDup(items)
      invariant forall x :: x in items <==> x in s && x !in rest
      decreases rest
    {
      var x :| x in rest;
      items := items + [x];
      rest := rest - {x};
    }
  }

  /** The first `i` elements, as a set: how far an iteration has got. */
  function Firsts<K>(s: seq<K>, i: nat): set<K>
    requires i <= |s|
  {
    if i == 0 then {} else Firsts(s, i - 1) + {s[i - 1]}
  }

  lemma {:induction false} FirstsMember<K>(s: seq<K>, i: nat, x: K)
    requires i <= |s|
    ensures x in Firsts(s, i) <==> exists k :: 0 <= k < i && s[k] == x
  {
    if i > 0 { FirstsMember(s, i - 1, x); }
  }

  lemma FirstsFresh<K>(s: seq<K>, i: nat)
    requires NoDup(s) && i < |s|
    ensures s[i] !in Firsts(s, i)
  {
    FirstsMember(s, i, s[i]);
  }

  lemma FirstsAll<K>(s: seq<K>, all: set<K>)
    requires forall x :: x in s <==> x in all
    ensures Firsts(s, |s|) == all
  {
    forall x | x in all ensures x in Firsts(s, |s|) {
      assert x in s;
      FirstsMember(s, |s|, x);
    }
    forall x | x in Firsts(s, |s|) ensures x in all {
      FirstsMember(s, |s|, x);
      assert x in s;
    }
  }

  lemma {:induction false} SubsetSize<T>(a: set<T>, b: set<T>)
    requires a <= b
    ensures |a| <= |b|
  {
    if a != {} {
      var x :| x in a;
      SubsetSize(a - {x}, b - {x});
    }
  }

  function Flat<T>(parts: seq<seq<T>>): seq<T> {
    if |parts| == 0 then [] else Flat(parts[..|parts| - 1]) + parts[|parts| - 1]
  }

  lemma {:induction false} FlatConcat<T>(a: seq<seq<T>>, b: seq<seq<T>>)
    ensures Flat(a + b) == Flat(a) + Flat(b)
  {
    if |b| == 0 {
      assert a + b == a;
    } else {
      FlatConcat(a, b[..|b| - 1]);
      assert (a + b)[..|a + b| - 1] == a + b[..|b| - 1];
    }
  }

  lemma ConcatAssociative<T>(a: seq<T>, b: seq<T>, c: seq<T>)
    ensures a + b + c == a + (b + c)
  {
  }

  // ---- the two orders in use ----

  const INT_LESS := (a: int, b: int) => a < b

  lemma IntLessIsTotal()
    ensures StrictTotal(INT_LESS)
  {
  }

  /** JavaScript's `a < b` on strings: by code unit, a prefix first. */
  predicate StringLess(a: string, b: string) {
    if |b| == 0 then false
    else if |a| == 0 then true
    else if a[0] != b[0] then a[0] < b[0]
    else StringLess(a[1..], b[1..])
  }

  lemma {:induction false} StringLessTrichotomy(a: string, b: string)
    ensures StringLess(a, b) || a == b || StringLess(b, a)
  {
    if |a| > 0 && |b| > 0 && a[0] == b[0] {
      StringLessTrichotomy(a[1..], b[1..]);
      assert a == [a[0]] + a[1..] && b == [b[0]] + b[1..];
    }
  }

  lemma {:induction false} StringLessIrreflexive(a: string)
    ensures !StringLess(a, a)
  {
    if |a| > 0 { StringLessIrreflexive(a[1..]); }
  }

  lemma {:induction false} StringLessTransitive(a: string, b: string, c: string)
    requires StringLess(a, b) && StringLess(b, c)
    ensures StringLess(a, c)
  {
    if |a| > 0 && a[0] == b[0] == c[0] { StringLessTransitive(a[1..], b[1..], c[1..]); }
  }

  lemma StringLessIsTotal()
    ensures StrictTotal(StringLess)
  {
    forall a: string { StringLessIrreflexive(a); }
    forall a: string, b: string { StringLessTrichotomy(a, b); }
    forall a: string, b: string, c: string | StringLess(a, b) && StringLess(b, c)
      ensures StringLess(a, c)
    {
      StringLessTransitive(a, b, c);
    }
  }
}
