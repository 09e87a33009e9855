/**
 * Backoff strategies of the retry executor (pkg/retry/backoff.go).
 *
 * A `time.Duration` is an int64 count of nanoseconds; Dafny integers are
 * unbounded, so the int64 wrap-around of Go's shift and multiplication is
 * written out (`Wrap64`). The random draw of the jittered strategy is an
 * explicit argument.
 */
module Backoff {

  const Millisecond: int := 1_000_000
  const Second: int := 1_000_000_000

  const TwoTo63: int := 0x8000_0000_0000_0000
  const TwoTo64: int := 0x1_0000_0000_0000_0000

  /** An attempt number as the retry loop counts them: 1, 2, 3, ... */
  type Attempt = a: int | a >= 1 witness 1

  /** `retry.Strategy`: the wait, in nanoseconds, after a failed attempt. */
  type Strategy = Attempt -> int

  predicate IsInt64(x: int) {
    -TwoTo63 <= x < TwoTo63
  }

  /** Two's-complement wrap-around of an int64 result. */
  function Wrap64(x: int): (r: int)
    ensures IsInt64(r)
    ensures IsInt64(x) ==> r == x
  {
    (x + TwoTo63) % TwoTo64 - TwoTo63
  }

  /** Values that differ by a multiple of 2^64 wrap to the same int64. */
  lemma WrapCongruent(x: int, y: int, k: int)
    requires x == y + k * TwoTo64
    ensures Wrap64(x) == Wrap64(y)
  {
    var q := (y + TwoTo63) / TwoTo64;
    var r := (y + TwoTo63) % TwoTo64;
    assert x + TwoTo63 == (q + k) * TwoTo64 + r;
    assert (x + TwoTo63) % TwoTo64 == r;
  }

  function Pow2(n: nat): (r: nat)
    ensures r >= 1
  {
    if n == 0 then 1 else 2 * Pow2(n - 1)
  }

  lemma {:induction false} Pow2Monotone(m: nat, n: nat)
    requires m <= n
    ensures Pow2(m) <= Pow2(n)
  {
    if m < n {
      Pow2Monotone(m, n - 1);
    }
  }

  lemma {:induction false} Pow2Add(m: nat, n: nat)
    ensures Pow2(m + n) == Pow2(m) * Pow2(n)
  {
    if n > 0 {
      Pow2Add(m, n - 1);
    }
  }

  lemma Pow2Table()
    ensures Pow2(32) == 4294967296
  {
    assert Pow2(2) == 4;
    Pow2Add(2, 2);
    Pow2Add(4, 4);
    Pow2Add(8, 8);
    Pow2Add(16, 16);
  }

  /**
   * The wait of `ExponentialBackoff(base)` after `attempt`:
   * `base * (1 << (attempt - 1))` on int64. Whenever the exact product fits in
   * an int64 it is the result.
   */
  function ExponentialDelay(base: int, attempt: Attempt): (d: int)
    requires IsInt64(base)
    ensures IsInt64(d)
    ensures IsInt64(base * Pow2(attempt - 1)) ==> d == base * Pow2(attempt - 1)
  {
    var shifted := Wrap64(Pow2(attempt - 1));
    var k := (Pow2(attempt - 1) + TwoTo63) / TwoTo64;
    assert shifted == Pow2(attempt - 1) - k * TwoTo64;
    assert base * shifted == base * Pow2(attempt - 1) - (base * k) * TwoTo64 by {
      assert base * (Pow2(attempt - 1) - k * TwoTo64) == base * Pow2(attempt - 1) - base * (k * TwoTo64);
    }
    WrapCongruent(base * Pow2(attempt - 1), base * shifted, base * k);
    Wrap64(base * shifted)
  }

  /** `ExponentialBackoff(base)`. */
  function ExponentialBackoff(base: int): (s: Strategy)
    requires IsInt64(base)
    ensures forall a: Attempt :: s(a) == ExponentialDelay(base, a)
  {
    (a: Attempt) => ExponentialDelay(base, a)
  }

  /** Without overflow, each attempt waits exactly twice as long as the one before. */
  lemma ExponentialDoubles(base: int, attempt: Attempt)
    requires IsInt64(base) && IsInt64(base * Pow2(attempt))
    ensures ExponentialDelay(base, attempt + 1) == 2 * ExponentialDelay(base, attempt)
  {
    assert base * Pow2(attempt) == 2 * (base * Pow2(attempt - 1));
  }

  /** With a positive base and no overflow, later attempts wait strictly longer. */
  lemma {:induction false} ExponentialIncreasing(base: int, a: Attempt, b: Attempt)
    requires 0 < base < TwoTo63 && a < b && base * Pow2(b - 1) < TwoTo63
    ensures 0 < ExponentialDelay(base, a) < ExponentialDelay(base, b)
    decreases b - a
  {
    var c: Attempt := b - 1;
    assert base * Pow2(b - 1) == 2 * (base * Pow2(c - 1));
    ExponentialDoubles(base, c);
    if a < c {
      ExponentialIncreasing(base, a, c);
    }
  }

  /** The jittered strategy's wait before jitter: `min(base * 2^(attempt-1), max)`. */
  function Capped(base: int, max: int, attempt: Attempt): (c: int)
    ensures c <= max && c <= base * Pow2(attempt - 1)
    ensures c == max || c == base * Pow2(attempt - 1)
  {
    var backoff := base * Pow2(attempt - 1);
    if backoff > max then max else backoff
  }

  /**
   * One wait of `ExponentialJitterBackoff(base, max)`: half the capped wait
   * plus `j`, the value `rand.Int63n(capped / 2)` returned. `rand.Int63n`
   * panics unless its bound is positive and returns a value below it.
   */
  function JitterDelay(base: int, max: int, attempt: Attempt, j: int): (d: int)
    requires Capped(base, max, attempt) / 2 > 0
    requires 0 <= j < Capped(base, max, attempt) / 2
    ensures Capped(base, max, attempt) / 2 <= d < Capped(base, max, attempt) <= max
  {
    Capped(base, max, attempt) / 2 + j
  }

  /**
   * `ExponentialJitterBackoff(base, max)`, the random source being `draws`:
   * the draw for `attempt` is reduced into the range `rand.Int63n` returns.
   * Every wait lies in [capped/2, capped), so never reaches `max`.
   */
  function ExponentialJitterBackoff(base: int, max: int, draws: Attempt -> nat): (s: Strategy)
    requires 2 <= base && 2 <= max
    ensures forall a: Attempt :: s(a) == JitterWait(base, max, a, draws(a))
    ensures forall a: Attempt :: Capped(base, max, a) / 2 <= s(a) < Capped(base, max, a) <= max
  {
    (a: Attempt) => JitterWait(base, max, a, draws(a))
  }

  /** The wait for `attempt` when the random source yields `draw`. */
  function JitterWait(base: int, max: int, attempt: Attempt, draw: nat): (d: int)
    requires 2 <= base && 2 <= max
    ensures Capped(base, max, attempt) / 2 <= d < Capped(base, max, attempt) <= max
  {
    var half := Capped(base, max, attempt) / 2;
    assert half > 0 by { assert base <= base * Pow2(attempt - 1); }
    JitterDelay(base, max, attempt, draw % half)
  }

  // ---- The cap as the source computes it (see Findings) ----

  /** The jittered strategy's cap as written: the int64, wrapping product, then `min` with `max`. */
  function CappedAsWritten(base: int, max: int, attempt: Attempt): int
    requires IsInt64(base)
  {
    var backoff := ExponentialDelay(base, attempt);
    if backoff > max then max else backoff
  }

  /** While the exact product fits in an int64 the written cap is the intended one. */
  lemma CappedAsWrittenAgrees(base: int, max: int, attempt: Attempt)
    requires IsInt64(base) && IsInt64(base * Pow2(attempt - 1))
    ensures CappedAsWritten(base, max, attempt) == Capped(base, max, attempt)
  {
  }

  /** With the 500ms base used by the pipeline the product fits for every attempt up to 35. */
  lemma PipelineCapFits(attempt: Attempt)
    requires attempt <= 35
    ensures IsInt64(500 * Millisecond * Pow2(attempt - 1))
    ensures CappedAsWritten(500 * Millisecond, 10 * Second, attempt) == Capped(500 * Millisecond, 10 * Second, attempt)
  {
    Pow2Monotone(attempt - 1, 34);
    Pow2Table();
    Pow2Add(32, 2);
    assert Pow2(34) == 17179869184;
  }

  /**
   * Counterexample: at attempt 36 the 500ms base overflows int64 and the
   * written cap is negative, so `rand.Int63n(capped / 2)` gets a negative bound
   * and panics, where the intended cap is `max`.
   */
  lemma JitterOverflowAtAttempt36()
    ensures CappedAsWritten(500 * Millisecond, 10 * Second, 36) < 0
    ensures Capped(500 * Millisecond, 10 * Second, 36) == 10 * Second
  {
    Pow2Table();
    Pow2Add(32, 3);
    assert Pow2(35) == 34359738368;
    assert Wrap64(Pow2(35)) == 34359738368;
    assert Wrap64(500 * Millisecond * 34359738368) == -1266874889709551616;
  }

  /**
   * An overflow that does not panic: base 5·2^60ns, maximum 2^63−1ns, attempt
   * 3. The product 5·2^62 wraps to 2^62, which is positive and below the
   * maximum, so the written cap is 2^62 where the intended cap is the maximum.
   */
  lemma CappedAsWrittenBelowIntended()
    ensures CappedAsWritten(5764607523034234880, 9223372036854775807, 3) == 4611686018427387904
    ensures Capped(5764607523034234880, 9223372036854775807, 3) == 9223372036854775807
  {
    Pow2Table();
    assert Wrap64(5764607523034234880 * 4) == 4611686018427387904;
  }
}
