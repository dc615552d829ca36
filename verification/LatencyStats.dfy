/** Rolling nearest-rank latency statistics
    (crates/ladoflow-core/src/telemetry.rs). */
module LatencyStats {
  import opened Wrappers
  import opened Words
  import opened Arithmetic
  import opened FrameRates

  datatype TelemetryError = SampleTooLarge

  /** All durations in microseconds. */
  datatype Snapshot = Snapshot(
    sampleCount: nat, totalSampleCount: u64, min: u64, mean: u64, p50: u64, p95: u64, max: u64, jitter: u64)

  // ---- Sorting ----------------------------------------------------------------------------
  // The source calls the library's `sort_unstable`. Any sorting gives the same
  // list (`SortedIsUnique`), so the model uses the simplest one.

  ghost predicate Sorted(s: seq<u64>) {
    forall i, j :: 0 <= i < j < |s| ==> s[i] <= s[j]
  }

  function Insert(x: u64, s: seq<u64>): seq<u64>
    decreases |s|
  {
    if s == [] || x <= s[0] then [x] + s else [s[0]] + Insert(x, s[1..])
  }

  function Sort(s: seq<u64>): seq<u64>
    decreases |s|
  {
    if s == [] then [] else Insert(s[0], Sort(s[1..]))
  }

  lemma {:induction false} InsertAdds(x: u64, s: seq<u64>)
    ensures multiset(Insert(x, s)) == multiset(s) + multiset{x} && |Insert(x, s)| == |s| + 1
    ensures forall y :: y in Insert(x, s) <==> y == x || y in s
    decreases |s|
  {
    if s != [] && x > s[0] {
      InsertAdds(x, s[1..]);
      assert s == [s[0]] + s[1..];
    }
  }

  lemma {:induction false} InsertSorts(x: u64, s: seq<u64>)
    requires Sorted(s)
    ensures Sorted(Insert(x, s))
    decreases |s|
  {
    if s != [] && x > s[0] {
      InsertSorts(x, s[1..]);
      InsertAdds(x, s[1..]);
      var rest := Insert(x, s[1..]);
      forall j | 0 <= j < |rest|
        ensures s[0] <= rest[j]
      {
        assert rest[j] in rest;
      }
    }
  }

  /** What the library's sort promises. */
  lemma {:induction false} SortSorts(s: seq<u64>)
    ensures Sorted(Sort(s)) && multiset(Sort(s)) == multiset(s) && |Sort(s)| == |s|
    ensures forall y :: y in Sort(s) <==> y in s
    decreases |s|
  {
    hide Insert, Sorted;
    if s != [] {
      SortSorts(s[1..]);
      InsertSorts(s[0], Sort(s[1..]));
      InsertAdds(s[0], Sort(s[1..]));
      assert s == [s[0]] + s[1..];
    } else {
      SortedEmpty();
    }
  }

  lemma SortedEmpty()
    ensures Sorted([])
  {
  }

  lemma HeadIsLeast(a: seq<u64>, b: seq<u64>)
    requires Sorted(a) && multiset(a) == multiset(b) && a != [] && b != []
    ensures a[0] <= b[0]
  {
    assert b[0] in multiset(a);
    var i :| 0 <= i < |a| && a[i] == b[0];
  }

  /** Sorted lists of the same samples are the same list. */
  lemma {:induction false} SortedIsUnique(a: seq<u64>, b: seq<u64>)
    requires Sorted(a) && Sorted(b) && multiset(a) == multiset(b)
    ensures a == b
    decreases |a|
  {
    assert |a| == |multiset(a)| && |b| == |multiset(b)|;
    if a != [] {
      HeadIsLeast(a, b);
      HeadIsLeast(b, a);
      assert a == [a[0]] + a[1..] && b == [b[0]] + b[1..];
      assert multiset(a[1..]) == multiset(a) - multiset{a[0]};
      assert multiset(b[1..]) == multiset(b) - multiset{b[0]};
      SortedIsUnique(a[1..], b[1..]);
    }
  }

  // ---- Nearest rank --------------------------------------------------------------------------

  function CeilDiv(a: nat, b: nat): nat
    requires b > 0
  {
    (a + b - 1) / b
  }

  /** The split computation, which cannot overflow where n * p could. */
  function Rank(n: nat, percentile: nat): nat {
    n / 100 * percentile + CeilDiv(n % 100 * percentile, 100)
  }

  function NearestRank(sorted: seq<u64>, percentile: nat): u64 {
    var at := Max(Rank(|sorted|, percentile), 1) - 1;
    if at < |sorted| then sorted[at] else 0
  }

  /** The split computation is the ceiling of n * p / 100. */
  lemma RankIsCeiling(n: nat, p: nat)
    ensures n * p >= 0 && Rank(n, p) == CeilDiv(n * p, 100)
    ensures 100 * (Rank(n, p) - 1) < n * p <= 100 * Rank(n, p)
  {
    var q, r := n / 100, n % 100;
    assert n * p == 100 * (q * p) + r * p by {
      assert n == 100 * q + r;
      assert (100 * q + r) * p == 100 * (q * p) + r * p;
    }
    NonNegative(r, p);
    NonNegative(q, p);
  }

  lemma RankInRange(n: nat, p: nat)
    requires n > 0 && 1 <= p <= 100
    ensures 1 <= Rank(n, p) <= n
  {
    RankIsCeiling(n, p);
    assert n * p <= n * 100 by { NonNegative(n, 100 - p); assert n * 100 == n * p + n * (100 - p); }
    assert n * p >= 1 by { NonNegative(n, p - 1); assert n * p == n + n * (p - 1); }
  }

  lemma RankMonotone(n: nat, p: nat, q: nat)
    requires p <= q
    ensures Rank(n, p) <= Rank(n, q)
  {
    RankIsCeiling(n, p);
    RankIsCeiling(n, q);
    NonNegative(n, q - p);
    assert n * q == n * p + n * (q - p);
  }

  function CountAtMost(s: seq<u64>, v: u64): nat
    decreases |s|
  {
    if s == [] then 0 else (if s[0] <= v then 1 else 0) + CountAtMost(s[1..], v)
  }

  lemma {:induction false} CountInSorted(s: seq<u64>, v: u64, k: nat)
    requires Sorted(s) && k <= |s|
    ensures (k > 0 ==> s[k - 1] <= v) ==> CountAtMost(s, v) >= k
    ensures (k < |s| ==> s[k] > v) ==> CountAtMost(s, v) <= k
    decreases |s|
  {
    if s != [] {
      if k > 0 {
        CountInSorted(s[1..], v, k - 1);
      } else if s[0] > v {
        CountInSorted(s[1..], v, 0);
      }
    }
  }

  lemma {:induction false} CountInsert(x: u64, s: seq<u64>, v: u64)
    ensures CountAtMost(Insert(x, s), v) == (if x <= v then 1 else 0) + CountAtMost(s, v)
    decreases |s|
  {
    var r := Insert(x, s);
    if s != [] && x > s[0] {
      CountInsert(x, s[1..], v);
      assert r[1..] == Insert(x, s[1..]);
    } else {
      assert r[1..] == s;
    }
  }

  lemma {:induction false} CountSort(s: seq<u64>, v: u64)
    ensures CountAtMost(Sort(s), v) == CountAtMost(s, v)
    decreases |s|
  {
    if s != [] {
      CountInsert(s[0], Sort(s[1..]), v);
      CountSort(s[1..], v);
    }
  }

  /** The nearest-rank percentile of a window is the least sample with at least
      `p` percent of the window at or below it. */
  lemma NearestRankIsPercentile(window: seq<u64>, p: nat)
    requires window != [] && 1 <= p <= 100
    ensures var v := NearestRank(Sort(window), p);
      && v in window
      && 100 * CountAtMost(window, v) >= |window| * p
      && (forall w: u64 :: w < v ==> 100 * CountAtMost(window, w) < |window| * p)
  {
    hide Sort, Rank;
    SortSorts(window);
    var sorted := Sort(window);
    var k, v := Rank(|window|, p), NearestRank(sorted, p);
    RankInRange(|window|, p);
    RankIsCeiling(|window|, p);
    assert v == sorted[k - 1] && v in sorted;
    CountInSorted(sorted, v, k);
    CountSort(window, v);
    forall w: u64 | w < v
      ensures 100 * CountAtMost(window, w) < |window| * p
    {
      CountInSorted(sorted, w, k - 1);
      CountSort(window, w);
    }
  }

  // ---- Mean and jitter -----------------------------------------------------------------------

  function Sum(s: seq<u64>): nat
    decreases |s|
  {
    if s == [] then 0 else s[0] + Sum(s[1..])
  }

  /** Sum of the differences of neighbours, in arrival order. */
  function SumOfDifferences(s: seq<u64>): nat
    decreases |s|
  {
    if |s| < 2 then 0 else SumOfDifferences(s[..|s| - 1]) + AbsDiff(s[|s| - 1], s[|s| - 2])
  }

  ghost predicate Between(s: seq<u64>, lo: int, hi: int) {
    forall x :: x in s ==> lo <= x <= hi
  }

  lemma BetweenSlice(s: seq<u64>, from: nat, to: nat, lo: int, hi: int)
    requires Between(s, lo, hi) && from <= to <= |s|
    ensures Between(s[from..to], lo, hi)
  {
    forall x | x in s[from..to]
      ensures lo <= x <= hi
    {
      var i :| 0 <= i < to - from && s[from..to][i] == x;
      assert s[from + i] in s;
    }
  }

  lemma {:induction false} SumBounds(s: seq<u64>, lo: nat, hi: nat)
    requires Between(s, lo, hi)
    ensures |s| * lo <= Sum(s) <= |s| * hi
    decreases |s|
  {
    if s != [] {
      assert lo <= s[0] <= hi by { assert s[0] in s; }
      BetweenSlice(s, 1, |s|, lo, hi);
      assert s[1..|s|] == s[1..];
      hide Between;
      SumBounds(s[1..], lo, hi);
      Distribute(|s| - 1, 1, lo);
      Distribute(|s| - 1, 1, hi);
    }
  }

  lemma {:induction false} DifferenceBound(s: seq<u64>, lo: nat, hi: nat)
    requires Between(s, lo, hi) && |s| >= 1
    ensures SumOfDifferences(s) <= (|s| - 1) * (hi - lo)
    decreases |s|
  {
    if |s| >= 2 {
      var n := |s| - 1;
      assert lo <= s[n] <= hi && lo <= s[n - 1] <= hi by { assert s[n] in s && s[n - 1] in s; }
      BetweenSlice(s, 0, n, lo, hi);
      assert s[0..n] == s[..n];
      hide Between;
      DifferenceBound(s[..n], lo, hi);
      Distribute(n - 1, 1, hi - lo);
    }
  }

  lemma QuotientBounds(x: nat, n: int, lo: int, hi: int)
    requires n > 0
    ensures x <= n * hi ==> x / n <= hi
    ensures n * lo <= x ==> lo <= x / n
  {
    FloorAtMost(x, n, hi);
    MultipleAtMost(lo, n, x);
    assert (hi + 1) * n == n * hi + n && lo * n == n * lo;
  }

  function MeanDifference(s: seq<u64>): u64 {
    if |s| < 2 then 0 else
    DifferencesAreBounded(s);
    SumOfDifferences(s) / (|s| - 1)
  }

  lemma DifferencesAreBounded(s: seq<u64>)
    requires |s| >= 2
    ensures 0 <= SumOfDifferences(s) / (|s| - 1) <= U64_MAX
  {
    DifferenceBound(s, 0, U64_MAX);
    QuotientBounds(SumOfDifferences(s), |s| - 1, 0, U64_MAX);
  }

  /** The accumulator loop; neither it nor its quotient can overflow. */
  method MeanAdjacentDifference(samples: seq<u64>) returns (r: u64)
    requires |samples| <= USIZE_MAX
    ensures r == MeanDifference(samples)
  {
    if |samples| < 2 {
      return 0;
    }
    var previous := samples[0];
    var differenceSum := 0;
    var i := 1;
    while i < |samples|
      invariant 1 <= i <= |samples|
      invariant previous == samples[i - 1] && differenceSum == SumOfDifferences(samples[..i])
    {
      var current := samples[i];
      assert samples[..i + 1][..i] == samples[..i];
      differenceSum := differenceSum + AbsDiff(current, previous);
      previous := current;
      i := i + 1;
    }
    assert samples[..i] == samples;
    DifferenceBound(samples, 0, U64_MAX);
    assert differenceSum <= U128_MAX by {
      assert (|samples| - 1) * U64_MAX <= USIZE_MAX * U64_MAX;
    }
    DifferencesAreBounded(samples);
    var differenceCount := |samples| - 1;
    r := differenceSum / differenceCount;
  }

  // ---- The snapshot --------------------------------------------------------------------------

  function MeanOf(window: seq<u64>): u64
    requires window != []
  {
    MeanIsBounded(window);
    Sum(window) / |window|
  }

  lemma MeanIsBounded(window: seq<u64>)
    requires window != []
    ensures 0 <= Sum(window) / |window| <= U64_MAX
  {
    SumBounds(window, 0, U64_MAX);
    QuotientBounds(Sum(window), |window|, 0, U64_MAX);
  }

  function Summarize(window: seq<u64>, total: u64): Snapshot
    requires window != []
  {
    SortSorts(window);
    var sorted := Sort(window);
    Snapshot(|window|, total, sorted[0], MeanOf(window), NearestRank(sorted, 50), NearestRank(sorted, 95),
             sorted[|sorted| - 1], MeanDifference(window))
  }

  lemma {:induction false} SumInsert(x: u64, s: seq<u64>)
    ensures Sum(Insert(x, s)) == x + Sum(s)
    decreases |s|
  {
    var r := Insert(x, s);
    if s != [] && x > s[0] {
      SumInsert(x, s[1..]);
      assert r[1..] == Insert(x, s[1..]);
    } else {
      assert r[1..] == s;
    }
  }

  lemma {:induction false} SumSort(s: seq<u64>)
    ensures Sum(Sort(s)) == Sum(s)
    decreases |s|
  {
    if s != [] {
      SumInsert(s[0], Sort(s[1..]));
      SumSort(s[1..]);
    }
  }

  /** In any window: the extremes are samples that bound all others, the
      median and the 95th percentile lie between them in order, so does the
      mean, and the jitter is at most the spread. */
  lemma SnapshotIsOrdered(window: seq<u64>, total: u64)
    requires window != []
    ensures var s := Summarize(window, total);
      && s.min in window && s.max in window && Between(window, s.min, s.max)
      && s.min <= s.p50 <= s.p95 <= s.max
      && s.min <= s.mean <= s.max
      && s.jitter <= s.max - s.min
      && (Between(window, s.min, s.min) ==> s.jitter == 0)
  {
    hide Sort, Rank;
    SortSorts(window);
    var sorted := Sort(window);
    var lo, hi := sorted[0], sorted[|sorted| - 1];
    assert lo in sorted && hi in sorted;
    forall x | x in window
      ensures lo <= x <= hi
    {
      assert x in sorted;
    }
    RankInRange(|window|, 50);
    RankInRange(|window|, 95);
    RankMonotone(|window|, 50, 95);
    SumBounds(window, lo, hi);
    QuotientBounds(Sum(window), |window|, lo, hi);
    if |window| >= 2 {
      DifferenceBound(window, lo, hi);
      QuotientBounds(SumOfDifferences(window), |window| - 1, 0, hi - lo);
      if Between(window, lo, lo) {
        DifferenceBound(window, lo, lo);
        QuotientBounds(SumOfDifferences(window), |window| - 1, 0, 0);
      }
    }
  }

  /** The values of a snapshot: the number of samples retained, the floor of their
      mean, and for each percentile the least sample with at least that share of
      the window at or below it. */
  lemma SnapshotIsExact(window: seq<u64>, total: u64)
    requires window != []
    ensures var s := Summarize(window, total);
      && s.sampleCount == |window| && s.totalSampleCount == total
      && s.mean * |window| <= Sum(window) < (s.mean + 1) * |window|
      && s.jitter == MeanDifference(window)
      && s.p50 in window && 2 * CountAtMost(window, s.p50) >= |window|
      && (forall w: u64 :: w < s.p50 ==> 2 * CountAtMost(window, w) < |window|)
      && s.p95 in window && 100 * CountAtMost(window, s.p95) >= 95 * |window|
      && (forall w: u64 :: w < s.p95 ==> 100 * CountAtMost(window, w) < 95 * |window|)
  {
    NearestRankIsPercentile(window, 50);
    NearestRankIsPercentile(window, 95);
    FloorBounds(Sum(window), |window|);
    Distribute(MeanOf(window), 1, |window|);
    hide Sort, NearestRank, Sum, MeanDifference, CountAtMost;
  }

  /** The differences add up along the window, and for two samples are their
      distance, which determines them for every window. */
  lemma {:induction false} DifferencesSplit(s: seq<u64>, k: nat)
    requires k < |s|
    ensures SumOfDifferences(s) == SumOfDifferences(s[..k + 1]) + SumOfDifferences(s[k..])
    ensures |s| == 1 ==> SumOfDifferences(s) == 0
    ensures |s| == 2 ==> SumOfDifferences(s) == if s[0] <= s[1] then s[1] - s[0] else s[0] - s[1]
    decreases |s|
  {
    if k + 1 == |s| {
      assert s[..k + 1] == s;
    } else {
      var front := s[..|s| - 1];
      DifferencesSplit(front, k);
      assert front[..k + 1] == s[..k + 1];
      assert s[k..][..|s[k..]| - 1] == front[k..];
    }
  }

  // ---- The aggregator --------------------------------------------------------------------------

  function Micros(latency: Duration): Result<u64, TelemetryError> {
    if latency / 1_000 > U64_MAX then Err(SampleTooLarge) else Ok(latency / 1_000)
  }

  /** Samples are whole microseconds, rounded down. */
  lemma MicrosRoundDown(latency: Duration)
    ensures Micros(latency).Ok? <==> latency < (U64_MAX + 1) * 1_000
    ensures Micros(latency).Ok? ==> Micros(latency).value * 1_000 <= latency < Micros(latency).value * 1_000 + 1_000
  {
  }

  function Slide(window: seq<u64>, capacity: nat, sample: u64): seq<u64> {
    (if |window| == capacity && window != [] then window[1..] else window) + [sample]
  }

  class LatencyAggregator {
    const capacity: usize
    var samples: seq<u64>
    var totalSampleCount: u64

    ghost predicate Valid()
      reads this
    {
      0 < capacity && |samples| <= capacity
    }

    constructor (capacity: usize)
      requires capacity > 0
      ensures Valid() && this.capacity == capacity && samples == [] && totalSampleCount == 0
    {
      this.capacity := capacity;
      samples := [];
      totalSampleCount := 0;
    }

    method Record(latency: Duration) returns (r: Result<(), TelemetryError>)
      requires Valid()
      modifies this
      ensures Valid()
      ensures r.Ok? <==> Micros(latency).Ok?
      ensures r.Ok? ==> samples == Slide(old(samples), capacity, Micros(latency).value)
                        && totalSampleCount == SatAdd64(old(totalSampleCount), 1)
      ensures r.Err? ==> samples == old(samples) && totalSampleCount == old(totalSampleCount)
    {
      var micros :- Micros(latency);
      if |samples| == capacity {
        samples := samples[1..];
      }
      samples := samples + [micros];
      totalSampleCount := SatAdd64(totalSampleCount, 1);
      return Ok(());
    }

    method TakeSnapshot() returns (s: Option<Snapshot>)
      requires Valid()
      ensures s == if samples == [] then None else Some(Summarize(samples, totalSampleCount))
    {
      if samples == [] {
        return None;
      }
      var sorted := Sort(samples);
      SortSorts(samples);
      SumSort(samples);
      SumBounds(sorted, 0, U64_MAX);
      assert |samples| * U64_MAX <= U128_MAX;
      MeanIsBounded(samples);
      var mean := Sum(sorted) / |sorted|;
      var jitter := MeanAdjacentDifference(samples);
      return Some(Snapshot(|sorted|, totalSampleCount, sorted[0], mean, NearestRank(sorted, 50),
                           NearestRank(sorted, 95), sorted[|sorted| - 1], jitter));
    }
  }

  function RecordAll(window: seq<u64>, capacity: nat, latencies: seq<Duration>): seq<u64>
    decreases |latencies|
  {
    if latencies == [] then window else
    var m := Micros(latencies[0]);
    RecordAll(if m.Ok? then Slide(window, capacity, m.value) else window, capacity, latencies[1..])
  }

  /** The representable samples of a list of latencies, in order. */
  function Representable(latencies: seq<Duration>): seq<u64>
    decreases |latencies|
  {
    if latencies == [] then [] else
    var m := Micros(latencies[0]);
    (if m.Ok? then [m.value] else []) + Representable(latencies[1..])
  }

  function LastOf(s: seq<u64>, n: nat): seq<u64> { s[|s| - Min(n, |s|)..] }

  lemma SlideIsLatest(seen: seq<u64>, capacity: nat, sample: u64)
    requires capacity > 0
    ensures Slide(LastOf(seen, capacity), capacity, sample) == LastOf(seen + [sample], capacity)
  {
  }

  /** After any run of records the window is exactly the last `capacity`
      representable samples, or all of them while there are fewer. */
  lemma {:induction false} WindowIsTheLatest(seen: seq<u64>, capacity: nat, latencies: seq<Duration>)
    requires capacity > 0
    ensures RecordAll(LastOf(seen, capacity), capacity, latencies) == LastOf(seen + Representable(latencies), capacity)
    decreases |latencies|
  {
    hide Slide, LastOf, Micros;
    if latencies == [] {
      assert seen + [] == seen;
    } else {
      var m := Micros(latencies[0]);
      var rest := Representable(latencies[1..]);
      if m.Ok? {
        SlideIsLatest(seen, capacity, m.value);
        WindowIsTheLatest(seen + [m.value], capacity, latencies[1..]);
        assert (seen + [m.value]) + rest == seen + ([m.value] + rest);
      } else {
        WindowIsTheLatest(seen, capacity, latencies[1..]);
        assert [] + rest == rest;
      }
    }
  }
}
