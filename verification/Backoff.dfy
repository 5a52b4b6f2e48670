/** The retry delay: exponential growth, up to 30% jitter, and a cap. */
module Backoff {
  import opened Types

  const INT64_LIMIT: int := 0x8000_0000_0000_0000

  function Pow2(n: nat): (p: nat)
    ensures p >= 1
  {
    if n == 0 then 1 else 2 * Pow2(n - 1)
  }

  /** The delay before jitter and cap for the attempt numbered `count` (from 1). */
  function Base(count: nat, initial: Duration): Duration
    requires count >= 1
  {
    initial * Pow2(count - 1)
  }

  function WithJitter(backoff: real, draw: real): real {
    backoff + draw * 0.3 * backoff
  }

  /** The value that is converted from floating point to a duration. */
  function Jittered(count: nat, initial: Duration, draw: real): real
    requires count >= 1
  {
    WithJitter(Base(count, initial) as real, draw)
  }

  /** Conversion to an integer drops the fraction. */
  function Truncate(x: real): int {
    if x >= 0.0 then x.Floor else -((-x).Floor)
  }

  predicate FitsInt64(x: real) {
    (-INT64_LIMIT) as real <= x < INT64_LIMIT as real
  }

  /** The delay chosen for one draw of the random source. A conversion whose operand does not
      fit 64 bits has no defined result, so there `wild` stands for whatever it produces. */
  function CalculateBackoff(count: nat, initial: Duration, max: Duration, draw: real, wild: int): Duration
    requires count >= 1
  {
    var unclamped := Jittered(count, initial, draw);
    var delay := if FitsInt64(unclamped) then Truncate(unclamped) else wild;
    if delay > max then max else delay
  }

  predicate IsDraw(draw: real) {
    0.0 <= draw < 1.0
  }

  /** Delays are not negative and every jittered delay of attempt `count` still fits 64 bits. */
  predicate InRange(count: nat, initial: Duration, max: Duration)
    requires count >= 1
  {
    0 <= initial && 0 <= max && 13 * Base(count, initial) <= 10 * INT64_LIMIT
  }

  lemma JitterBounds(backoff: real, draw: real)
    requires IsDraw(draw) && backoff >= 0.0
    ensures backoff <= WithJitter(backoff, draw) <= 1.3 * backoff
    ensures backoff > 0.0 ==> WithJitter(backoff, draw) < 1.3 * backoff
  {
    ProductNotNegative(1.0 - draw, backoff);
    ProductNotNegative(draw, backoff);
    assert draw * 0.3 * backoff == 0.3 * (draw * backoff);
    assert (1.0 - draw) * backoff == backoff - draw * backoff;
  }

  lemma ProductNotNegative(x: real, y: real)
    requires x >= 0.0 && y >= 0.0
    ensures x * y >= 0.0
  {
  }

  lemma {:induction false} Pow2Grows(n: nat, m: nat)
    requires n < m
    ensures 2 * Pow2(n) <= Pow2(m)
  {
    if n + 1 < m {
      Pow2Grows(n, m - 1);
    }
  }

  lemma ScaledGrowth(x: nat, p: nat, q: nat)
    requires 2 * p <= q
    ensures 0 <= 2 * (x * p) <= x * q
  {
    assert x * q - 2 * (x * p) == x * (q - 2 * p);
  }

  lemma BaseGrows(n: nat, m: nat, initial: Duration)
    requires 1 <= n < m && initial >= 0
    ensures 0 <= 2 * Base(n, initial) <= Base(m, initial)
  {
    Pow2Grows(n - 1, m - 1);
    ScaledGrowth(initial, Pow2(n - 1), Pow2(m - 1));
  }

  /** A delay lies between the capped base and the capped base plus 30%. */
  lemma DelayBounds(count: nat, initial: Duration, max: Duration, draw: real, wild: int)
    requires count >= 1 && IsDraw(draw) && InRange(count, initial, max)
    ensures var delay := CalculateBackoff(count, initial, max, draw, wild);
            && Min(max, Base(count, initial)) <= delay <= max
            && 10 * delay <= 13 * Base(count, initial)
  {
    var base := Base(count, initial);
    assert base >= 0;
    JitterBounds(base as real, draw);
    var x := Jittered(count, initial, draw);
    assert FitsInt64(x);
  }

  /** Below the cap, the delay is initial * 2^(count-1) * (1 + 0.3 * draw) without its fraction. */
  lemma DelayExactly(count: nat, initial: Duration, max: Duration, draw: real, wild: int)
    requires count >= 1 && IsDraw(draw) && InRange(count, initial, max)
    ensures var delay := CalculateBackoff(count, initial, max, draw, wild);
            var exact := (initial * Pow2(count - 1)) as real * (1.0 + 0.3 * draw);
            && (exact < max as real ==> delay as real <= exact < (delay + 1) as real)
            && (exact >= max as real ==> delay == max)
  {
    var base := Base(count, initial) as real;
    JitterBounds(base, draw);
    assert draw * 0.3 * base == base * (0.3 * draw);
    assert base * (1.0 + 0.3 * draw) == base + base * (0.3 * draw);
    assert FitsInt64(Jittered(count, initial, draw));
  }

  /** The jitter reaches exactly the whole numbers from the base to less than 30% above it. */
  lemma JitterReachesExactly(count: nat, initial: Duration, max: Duration, delay: Duration)
    requires count >= 1 && InRange(count, initial, max)
    ensures (exists draw: real :: IsDraw(draw) && CalculateBackoff(count, initial, max, draw, 0) == delay) <==>
            exists x: Duration :: InJitterRange(Base(count, initial), x) && delay == Min(max, x)
  {
    var base := Base(count, initial);
    assert base >= 0;
    if draw: real :| IsDraw(draw) && CalculateBackoff(count, initial, max, draw, 0) == delay {
      var x := JitteredWhole(count, initial, max, draw);
      assert delay == Min(max, x);
    }
    if x: Duration :| InJitterRange(base, x) && delay == Min(max, x) {
      var draw := DrawFor(base, x);
      assert Jittered(count, initial, draw) == x as real;
      assert FitsInt64(x as real);
      assert CalculateBackoff(count, initial, max, draw, 0) == delay;
    }
  }

  predicate InJitterRange(base: Duration, x: Duration) {
    x == base || (base < x && 10 * x < 13 * base)
  }

  lemma JitteredWhole(count: nat, initial: Duration, max: Duration, draw: real) returns (x: Duration)
    requires count >= 1 && IsDraw(draw) && InRange(count, initial, max)
    ensures InJitterRange(Base(count, initial), x)
    ensures CalculateBackoff(count, initial, max, draw, 0) == Min(max, x)
  {
    assert Base(count, initial) >= 0;
    JitterBounds(Base(count, initial) as real, draw);
    x := Truncate(Jittered(count, initial, draw));
    assert FitsInt64(Jittered(count, initial, draw));
  }

  /** The draw that makes a base into `x`. */
  lemma DrawFor(base: Duration, x: Duration) returns (draw: real)
    requires base >= 0 && InJitterRange(base, x)
    ensures IsDraw(draw) && WithJitter(base as real, draw) == x as real
  {
    if x == base {
      draw := 0.0;
    } else {
      var b := base as real;
      draw := (x - base) as real / (0.3 * b);
      assert draw * (0.3 * b) == (x - base) as real;
      assert draw * 0.3 * b == draw * (0.3 * b);
      QuotientBelowOne((x - base) as real, 0.3 * b);
    }
  }

  lemma QuotientBelowOne(x: real, y: real)
    requires 0.0 <= x < y
    ensures 0.0 <= x / y < 1.0
  {
  }

  /** A later attempt never waits less than an earlier one, whatever the two jitter draws. */
  lemma DelayMonotone(n: nat, m: nat, initial: Duration, max: Duration,
                      drawN: real, drawM: real, wildN: int, wildM: int)
    requires 1 <= n < m && IsDraw(drawN) && IsDraw(drawM) && InRange(m, initial, max)
    ensures InRange(n, initial, max)
    ensures CalculateBackoff(n, initial, max, drawN, wildN) <= CalculateBackoff(m, initial, max, drawM, wildM)
  {
    BaseGrows(n, m, initial);
    DelayBounds(n, initial, max, drawN, wildN);
    DelayBounds(m, initial, max, drawM, wildM);
  }

  /** A draw that pushes a base above the 64-bit range, when 30% more than the base is above it. */
  function OverflowingDraw(backoff: real): (draw: real)
    requires 1.3 * backoff > INT64_LIMIT as real
    ensures IsDraw(draw) && WithJitter(backoff, draw) >= INT64_LIMIT as real
  {
    if backoff >= INT64_LIMIT as real then 0.0
    else
      var draw := (INT64_LIMIT as real - backoff) / (0.3 * backoff);
      assert draw * (0.3 * backoff) == INT64_LIMIT as real - backoff;
      draw
  }

  /** For delays that are not negative, the range condition is exactly what monotonicity needs. */
  lemma DelayMonotoneExactly(n: nat, m: nat, initial: Duration, max: Duration)
    requires 1 <= n < m && 0 <= initial && 0 <= max
    ensures 13 * (initial * Pow2(m - 1)) <= 10 * 0x8000_0000_0000_0000 <==>
            forall u: real, v: real, wildN: int, wildM: int :: IsDraw(u) && IsDraw(v) ==>
              CalculateBackoff(n, initial, max, u, wildN) <= CalculateBackoff(m, initial, max, v, wildM)
  {
    if InRange(m, initial, max) {
      forall u: real, v: real, wildN: int, wildM: int | IsDraw(u) && IsDraw(v)
        ensures CalculateBackoff(n, initial, max, u, wildN) <= CalculateBackoff(m, initial, max, v, wildM)
      {
        DelayMonotone(n, m, initial, max, u, v, wildN, wildM);
      }
    } else {
      BaseGrows(n, m, initial);
      var draw := OverflowingDraw(Base(m, initial) as real);
      assert !FitsInt64(Jittered(m, initial, draw));
      assert CalculateBackoff(m, initial, max, draw, -1) == -1;
      assert WithJitter(Base(n, initial) as real, 0.0) == Base(n, initial) as real;
      assert CalculateBackoff(n, initial, max, 0.0, 0) >= 0;
    }
  }

  /** The sum of the bases of the attempts 1, ..., n. */
  function SumOfBases(n: nat, initial: Duration): Duration {
    initial * (Pow2(n) - 1)
  }

  lemma SumOfBasesGrows(n: nat, initial: Duration)
    requires n >= 1
    ensures SumOfBases(n, initial) == SumOfBases(n - 1, initial) + Base(n, initial)
  {
    var p := Pow2(n - 1);
    assert initial * (2 * p - 1) == initial * (p - 1) + initial * p;
  }
}
