/** The pause after a failed poll: a factor seeded with `randint(2, 5) + random()`
    and, on each failure, replaced by `int(factor * 1.5) % 30`. */
module Backoff {

  /** The seed's range: an integer in [2, 5] plus a fraction in [0, 1), which
      in floating point can round up to 6. */
  predicate IsSeed(b: real) {
    2.0 <= b <= 6.0
  }

  /** Python's `int()` of a float: truncation toward zero. */
  function Truncate(x: real): (n: int)
    ensures 0.0 <= x ==> n as real <= x < n as real + 1.0
    ensures x < 0.0 ==> n as real - 1.0 < x <= n as real
  {
    if 0.0 <= x then x.Floor else -((-x).Floor)
  }

  /** The next factor after a failure. The modulus wraps the value around
      rather than capping it. */
  function NextBackoff(b: real): (r: int)
    ensures 0 <= r < 30
  {
    Truncate(b * 1.5) % 30
  }

  /** Every value the factor can take once at least one failure happened. */
  const AFTER_FAILURE: set<int> := {3, 4, 5, 6, 7, 8, 9, 10, 12, 13, 15, 18, 19, 22, 27, 28}

  /** A factor the guard can hold: the seed or a value reached after failures. */
  ghost predicate Attainable(b: real) {
    IsSeed(b) || (b == b.Floor as real && b.Floor in AFTER_FAILURE)
  }

  /** From any attainable factor, a failure leads to another value in
      AFTER_FAILURE: the factor never drops to 0 and never exceeds 28. */
  lemma BackoffStaysAttainable(b: real)
    requires Attainable(b)
    ensures NextBackoff(b) in AFTER_FAILURE
    ensures Attainable(NextBackoff(b) as real)
    ensures 3 <= NextBackoff(b) <= 28
  {
  }

  /** The wrap-around: 28 grows to 42, which wraps to 12. */
  lemma BackoffWraps()
    ensures NextBackoff(28.0) == 12
    ensures NextBackoff(28.0) < 28
  {
  }

  /** Below 20 the factor strictly grows on each failure. */
  lemma BackoffGrowsBelowTwenty(b: real)
    requires 2.0 <= b < 20.0
    ensures b < NextBackoff(b) as real
  {
  }
}
