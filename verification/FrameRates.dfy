/** Exact rational frame timelines (crates/ladoflow-media/src/metadata.rs). */
module FrameRates {
  import opened Wrappers
  import opened Words
  import opened Arithmetic

  const NANOS_PER_SECOND: nat := 1_000_000_000
  /** `Duration::MAX`: the largest whole second and the largest nanosecond. */
  const DURATION_MAX: nat := U64_MAX * 1_000_000_000 + 999_999_999

  /** A span of time in nanoseconds. */
  type Duration = d: int | 0 <= d <= DURATION_MAX

  function SatAdd(a: Duration, b: Duration): Duration { Min(a + b, DURATION_MAX) }

  function SatSub(a: Duration, b: Duration): Duration { if a >= b then a - b else 0 }

  datatype RawRate = Rate(numerator: u32, denominator: u32)

  type FrameRate = r: RawRate | r.numerator > 0 && r.denominator > 0 witness Rate(1, 1)

  datatype FrameRateError = ZeroNumerator | ZeroDenominator

  /** `FrameRate::new`. */
  function NewRate(numerator: u32, denominator: u32): (r: Result<FrameRate, FrameRateError>)
    ensures r.Ok? <==> numerator != 0 && denominator != 0
    ensures r.Ok? ==> r.value == Rate(numerator, denominator)
    ensures r == Err(ZeroNumerator) <==> numerator == 0
  {
    if numerator == 0 then Err(ZeroNumerator)
    else if denominator == 0 then Err(ZeroDenominator)
    else Ok(Rate(numerator, denominator))
  }

  /** The presentation time of a frame, computed by a split division. */
  function Timestamp(r: FrameRate, index: u64): Duration {
    ProductBound(index, r.denominator, U64_MAX, U32_MAX);
    SplitTimestamp(index * r.denominator, r.numerator)
  }

  function SplitTimestamp(scaledSeconds: nat, rateNumerator: u32): Duration
    requires rateNumerator > 0
  {
    FloorAtMost(scaledSeconds, rateNumerator, -1);
    var wholeSeconds := scaledSeconds / rateNumerator;
    var fractionalUnits := scaledSeconds % rateNumerator;
    if wholeSeconds > U64_MAX then DURATION_MAX else
    FractionBelowOne(fractionalUnits, rateNumerator);
    var nanos := fractionalUnits * NANOS_PER_SECOND / rateNumerator;
    if nanos > U32_MAX then DURATION_MAX else
    wholeSeconds * NANOS_PER_SECOND + nanos
  }

  function FrameDuration(r: FrameRate, index: u64): Duration {
    SatSub(Timestamp(r, SatAdd64(index, 1)), Timestamp(r, index))
  }

  function FrameAtOrBefore(r: FrameRate, elapsed: Duration): u64 {
    var scaled := (elapsed + 1) * r.numerator - 1;
    var divisor := r.denominator * NANOS_PER_SECOND;
    ScaledIsNatural(elapsed + 1, r.numerator);
    FloorAtMost(scaled, divisor, -1);
    var index := scaled / divisor;
    if index > U64_MAX then U64_MAX else index
  }

  // ---- Floor division --------------------------------------------------------------

  lemma ScaledIsNatural(a: int, b: int)
    requires a >= 1 && b >= 1
    ensures a * b - 1 >= 0
  {
    Monotone(1, a, b);
  }

  lemma FractionBelowOne(part: int, whole: int)
    requires 0 <= part < whole
    ensures 0 <= part * NANOS_PER_SECOND / whole < NANOS_PER_SECOND
  {
    FloorAtMost(part * NANOS_PER_SECOND, whole, NANOS_PER_SECOND - 1);
    FloorAtMost(part * NANOS_PER_SECOND, whole, -1);
  }

  // ---- The timeline is exact ---------------------------------------------------------

  /** The mathematical timestamp, rounded down to the nanosecond. */
  function ExactTimestamp(r: FrameRate, index: nat): nat {
    NonNegative(index, r.denominator);
    FloorIsNatural(index * r.denominator * NANOS_PER_SECOND, r.numerator);
    index * r.denominator * NANOS_PER_SECOND / r.numerator
  }

  /** The split division loses nothing: the timestamp is the exact one, and it
      saturates only where the exact one exceeds `Duration::MAX`. */
  lemma TimestampIsExact(r: FrameRate, index: u64)
    ensures Timestamp(r, index) == Min(ExactTimestamp(r, index), DURATION_MAX)
  {
    var n, scaled := r.numerator, index * r.denominator;
    var whole, part := scaled / n, scaled % n;
    var nanos := part * NANOS_PER_SECOND / n;
    assert scaled == whole * n + part;
    FloorBounds(part * NANOS_PER_SECOND, n);
    FractionBelowOne(part, n);
    assert scaled * NANOS_PER_SECOND == whole * NANOS_PER_SECOND * n + part * NANOS_PER_SECOND by {
      assert whole * n * NANOS_PER_SECOND == whole * NANOS_PER_SECOND * n;
    }
    var q := whole * NANOS_PER_SECOND + nanos;
    assert q * n == whole * NANOS_PER_SECOND * n + nanos * n;
    FloorUnique(scaled * NANOS_PER_SECOND, n, q);
  }

  /** No intermediate of either function overflows `u128`, and the nanosecond
      part fits `u32`. */
  lemma NoOverflow(r: FrameRate, index: u64, elapsed: Duration)
    ensures 0 <= index * r.denominator <= U128_MAX
    ensures 0 <= (index * r.denominator % r.numerator) * NANOS_PER_SECOND <= U128_MAX
    ensures (index * r.denominator % r.numerator) * NANOS_PER_SECOND / r.numerator <= U32_MAX
    ensures 0 <= (elapsed + 1) * r.numerator - 1 < U128_MAX
    ensures 0 < r.denominator * NANOS_PER_SECOND <= U128_MAX
  {
    ProductBound(index, r.denominator, U64_MAX, U32_MAX);
    ProductBound(elapsed + 1, r.numerator, DURATION_MAX + 1, U32_MAX);
    ScaledIsNatural(elapsed + 1, r.numerator);
    FractionBelowOne(index * r.denominator % r.numerator, r.numerator);
  }

  lemma ExactIsAdjoint(r: FrameRate, i: nat, e: nat)
    ensures (e + 1) * r.numerator - 1 >= 0
    ensures ExactTimestamp(r, i) <= e <==> i <= ((e + 1) * r.numerator - 1) / (r.denominator * NANOS_PER_SECOND)
  {
    var d := r.denominator * NANOS_PER_SECOND;
    ScaledIsNatural(e + 1, r.numerator);
    assert i * r.denominator * NANOS_PER_SECOND == i * d;
    FloorAtMost(i * d, r.numerator, e);
    MultipleAtMost(i, d, (e + 1) * r.numerator - 1);
  }

  /** `frame_at_or_before` is the adjoint of `timestamp`: below `Duration::MAX`
      it returns the latest frame whose timestamp is not after `e`. */
  lemma FrameAtOrBeforeIsAdjoint(r: FrameRate, i: u64, e: Duration)
    requires e < DURATION_MAX
    ensures Timestamp(r, i) <= e <==> i <= FrameAtOrBefore(r, e)
  {
    TimestampIsExact(r, i);
    ExactIsAdjoint(r, i, e);
  }

  /** At `Duration::MAX` itself every timestamp qualifies, so the adjunction
      needs the last frame there. It holds for every frame and every elapsed
      time exactly when the rate is at least one frame per second. */
  lemma WhenAdjointEverywhere(r: FrameRate)
    ensures (forall i: u64, e: Duration :: Timestamp(r, i) <= e <==> i <= FrameAtOrBefore(r, e)) <==>
            r.numerator >= r.denominator
  {
    LastFrameAtMax(r);
    if r.numerator >= r.denominator {
      forall i: u64, e: Duration
        ensures Timestamp(r, i) <= e <==> i <= FrameAtOrBefore(r, e)
      {
        if e < DURATION_MAX {
          FrameAtOrBeforeIsAdjoint(r, i, e);
        }
      }
    } else {
      assert Timestamp(r, U64_MAX) <= DURATION_MAX;
      assert !(U64_MAX <= FrameAtOrBefore(r, DURATION_MAX));
    }
  }

  lemma LastFrameAtMax(r: FrameRate)
    ensures FrameAtOrBefore(r, DURATION_MAX) == U64_MAX <==> r.numerator >= r.denominator
  {
    var num, den := r.numerator, r.denominator;
    var d := den * NANOS_PER_SECOND;
    var scaled := (DURATION_MAX + 1) * num - 1;
    ScaledIsNatural(DURATION_MAX + 1, num);
    MultipleAtMost(U64_MAX, d, scaled);
    assert U64_MAX * d == U64_MAX * den * NANOS_PER_SECOND;
    assert (DURATION_MAX + 1) * num == (U64_MAX + 1) * num * NANOS_PER_SECOND;
    if num < den {
      assert U64_MAX * den >= (U64_MAX + 1) * num by {
        assert U64_MAX * den == U64_MAX * num + U64_MAX * (den - num);
        assert U64_MAX * (den - num) >= U64_MAX;
      }
    } else {
      assert U64_MAX * den <= U64_MAX * num by { assert U64_MAX * (num - den) >= 0; }
    }
  }

  /** Up to one frame per nanosecond, no two frames share a timestamp. */
  lemma ExactTimestampsDiffer(r: FrameRate, index: u64)
    requires r.numerator <= r.denominator * NANOS_PER_SECOND
    ensures ExactTimestamp(r, index) < ExactTimestamp(r, index + 1)
  {
    var n, step, t := r.numerator, r.denominator * NANOS_PER_SECOND, ExactTimestamp(r, index);
    hide ExactTimestamp;
    ExactTimestampIs(r, index);
    ExactTimestampIs(r, index + 1);
    FloorBounds(index * step, n);
    Distribute(index, 1, step);
    Distribute(t, 1, n);
    MultipleAtMost(t + 1, n, (index + 1) * step);
  }

  lemma ExactTimestampIs(r: FrameRate, index: nat)
    ensures ExactTimestamp(r, index) == index * (r.denominator * NANOS_PER_SECOND) / r.numerator
  {
    assert index * r.denominator * NANOS_PER_SECOND == index * (r.denominator * NANOS_PER_SECOND);
  }

  lemma TimestampMonotone(r: FrameRate, i: u64, j: u64)
    requires i <= j
    ensures Timestamp(r, i) <= Timestamp(r, j)
  {
    TimestampIsExact(r, i);
    TimestampIsExact(r, j);
    var t := ExactTimestamp(r, j);
    ExactIsAdjoint(r, i, t);
    ExactIsAdjoint(r, j, t);
  }

  function SumOfDurations(r: FrameRate, n: u64): nat
    decreases n
  {
    if n == 0 then 0 else SumOfDurations(r, n - 1) + FrameDuration(r, n - 1)
  }

  /** Durations telescope: adding them up never drifts from the timeline. */
  lemma {:induction false} DurationsDoNotDrift(r: FrameRate, n: u64)
    ensures SumOfDurations(r, n) == Timestamp(r, n)
    decreases n
  {
    hide Timestamp;
    if n == 0 {
      TimestampOfZero(r);
    } else {
      DurationsDoNotDrift(r, n - 1);
      TimestampMonotone(r, n - 1, n);
    }
  }

  lemma TimestampOfZero(r: FrameRate)
    ensures Timestamp(r, 0) == 0
  {
    TimestampIsExact(r, 0);
    assert 0 * r.denominator * NANOS_PER_SECOND == 0;
  }

  /** Away from saturation two frames' durations differ by at most one
      nanosecond. */
  lemma DurationsWithinOneNano(r: FrameRate, i: u64, j: u64)
    requires i < U64_MAX && j < U64_MAX
    requires ExactTimestamp(r, i + 1) <= DURATION_MAX && ExactTimestamp(r, j + 1) <= DURATION_MAX
    ensures FrameDuration(r, i) <= FrameDuration(r, j) + 1
  {
    DurationBounds(r, i);
    DurationBounds(r, j);
  }

  lemma DurationBounds(r: FrameRate, i: u64)
    requires i < U64_MAX && ExactTimestamp(r, i + 1) <= DURATION_MAX
    ensures var period := r.denominator * NANOS_PER_SECOND / r.numerator;
      period <= FrameDuration(r, i) <= period + 1
  {
    hide Timestamp;
    var n, d := r.numerator, r.denominator * NANOS_PER_SECOND;
    TimestampIsExact(r, i);
    TimestampIsExact(r, i + 1);
    TimestampMonotone(r, i, i + 1);
    var a, p := ExactTimestamp(r, i), d / n;
    assert i * r.denominator * NANOS_PER_SECOND == i * d;
    assert (i + 1) * r.denominator * NANOS_PER_SECOND == i * d + d;
    FloorBounds(i * d, n);
    FloorBounds(d, n);
    assert (a + p) * n == a * n + p * n;
    assert (a + p + 2) * n == a * n + p * n + 2 * n;
    FloorAtMost(i * d + d, n, a + p + 1);
    FloorAtMost(i * d + d, n, a + p - 1);
  }
}
