/** Number facts used on both sides of the wire. */
module Arithmetic {

  function Pow2(n: nat): (p: nat)
    ensures p >= 1
  {
    if n == 0 then 1 else 2 * Pow2(n - 1)
  }

  /** What `Math.random()` returns. */
  predicate Unit(r: real) { 0.0 <= r < 1.0 }

  lemma ScaledDown(random: real, cap: real)
    requires Unit(random) && cap > 0.0
    ensures 0.0 <= random * cap < cap
  {
  }

  lemma FloorBelow(x: real, n: int)
    requires 0.0 <= x < n as real
    ensures 0 <= x.Floor < n
  {
    assert x.Floor as real <= x;
  }

  /** `Math.floor(random() * n)`. */
  function FloorScaled(random: real, n: nat): (r: nat)
    requires Unit(random) && n > 0
    ensures r < n
  {
    ScaledDown(random, n as real);
    FloorBelow(random * n as real, n);
    (random * n as real).Floor
  }

  /** Of `n` equal parts of [0, 1), `random` lies in part `k`: from k / n to below (k + 1) / n. */
  predicate InPart(random: real, n: nat, k: nat) {
    k as real <= random * n as real < k as real + 1.0
  }

  /** Each number below `n` comes of an equal part. */
  lemma FloorIs(random: real, n: nat, k: nat)
    requires Unit(random) && n > 0
    ensures FloorScaled(random, n) == k <==> InPart(random, n, k)
  {
  }
}
