/** Request counters and the latency histogram (src/metrics.cpp:4-56). */
module Metrics {

  const BUCKET_COUNT: nat := 15
  const UINT64_MAX: nat := 0xffff_ffff_ffff_ffff

  /** Upper bound of each bucket in microseconds; the last one takes the rest. */
  const BOUNDS: seq<nat> := [50, 100, 250, 500, 1000, 2500, 5000, 10000, 25000,
                             50000, 100000, 250000, 500000, 1000000, UINT64_MAX]

  type Micros = n: nat | n <= UINT64_MAX

  // ---- the histogram ----------------------------------------------------------------

  function BucketFrom(latency: Micros, i: nat): (b: nat)
    requires i < BUCKET_COUNT
    ensures i <= b < BUCKET_COUNT && latency <= BOUNDS[b]
    ensures forall j :: i <= j < b ==> BOUNDS[j] < latency
    decreases BUCKET_COUNT - i
  {
    if latency <= BOUNDS[i] then i else BucketFrom(latency, i + 1)
  }

  /** The first bucket whose bound the latency does not exceed. */
  function BucketOf(latency: Micros): (b: nat)
    ensures b < BUCKET_COUNT && latency <= BOUNDS[b]
    ensures forall j :: 0 <= j < b ==> BOUNDS[j] < latency
  {
    BucketFrom(latency, 0)
  }

  function CountIn(latencies: seq<Micros>, b: nat): nat {
    if latencies == [] then 0
    else CountIn(latencies[..|latencies| - 1], b) + if BucketOf(latencies[|latencies| - 1]) == b then 1 else 0
  }

  function Histogram(latencies: seq<Micros>): seq<nat> {
    seq(BUCKET_COUNT, (b: nat) => CountIn(latencies, b))
  }

  function SumTo(buckets: seq<nat>, n: nat): nat
    requires n <= |buckets|
  {
    if n == 0 then 0 else SumTo(buckets, n - 1) + buckets[n - 1]
  }

  /** `seen` has reached the target once this bucket is added. */
  predicate Reaches(buckets: seq<nat>, target: nat, i: nat)
    requires i < |buckets|
  {
    SumTo(buckets, i + 1) >= target
  }

  /** The scan of `percentile`: the first bucket that reaches the target. */
  function ScanFrom(buckets: seq<nat>, target: nat, i: nat): (c: nat)
    requires i <= |buckets|
    ensures i <= c <= |buckets|
    ensures c < |buckets| ==> Reaches(buckets, target, c)
    ensures forall j :: i <= j < c ==> !Reaches(buckets, target, j)
    decreases |buckets| - i
  {
    if i == |buckets| || Reaches(buckets, target, i) then i else ScanFrom(buckets, target, i + 1)
  }

  function Chosen(buckets: seq<nat>, target: nat): (c: nat)
    ensures c <= |buckets|
  {
    ScanFrom(buckets, target, 0)
  }

  /** What is reported for a bucket; the open-ended one reports the bound below it. */
  function Upper(b: nat): nat { if b < BUCKET_COUNT - 1 then BOUNDS[b] else BOUNDS[BUCKET_COUNT - 2] }

  function Target(fraction: real, total: nat): (t: nat)
    requires 0.0 <= fraction
  {
    assert 0.0 <= fraction * total as real;
    (fraction * total as real).Floor
  }

  // ---- the counters -------------------------------------------------------------------

  datatype Record = Record(status: int, bytes: nat, latency: Micros)

  function Latencies(records: seq<Record>): (r: seq<Micros>)
    ensures |r| == |records|
  {
    seq(|records|, i requires 0 <= i < |records| => records[i].latency)
  }

  datatype Class = Ok | ClientError | ServerError

  function ClassOf(status: int): Class {
    if status < 400 then Ok else if status < 500 then ClientError else ServerError
  }

  function CountClass(records: seq<Record>, c: Class): nat {
    if records == [] then 0
    else CountClass(records[..|records| - 1], c) + if ClassOf(records[|records| - 1].status) == c then 1 else 0
  }

  lemma CountClassAppend(records: seq<Record>, entry: Record)
    ensures forall c :: CountClass(records + [entry], c) ==
                        CountClass(records, c) + if ClassOf(entry.status) == c then 1 else 0
  {
    assert (records + [entry])[..|records|] == records;
  }

  /** The status classes split the requests. */
  lemma {:induction false} ClassesSumToTotal(records: seq<Record>)
    ensures CountClass(records, Ok) + CountClass(records, ClientError) + CountClass(records, ServerError) == |records|
  {
    if records != [] {
      ClassesSumToTotal(records[..|records| - 1]);
    }
  }

  /** How many requests ended with a status in this range. */
  function CountBetween(records: seq<Record>, low: int, high: int): nat {
    if records == [] then 0
    else
      var status := records[|records| - 1].status;
      CountBetween(records[..|records| - 1], low, high) + if low <= status < high then 1 else 0
  }

  /** The classes are those of the first digit, everything below 400 counting as success and
      everything from 500 as the server's fault. */
  lemma {:induction false} ClassesAreRanges(records: seq<Record>, low: int, high: int)
    requires low < 400 && high > 500 && forall i :: 0 <= i < |records| ==> low <= records[i].status < high
    ensures CountClass(records, Ok) == CountBetween(records, low, 400)
    ensures CountClass(records, ClientError) == CountBetween(records, 400, 500)
    ensures CountClass(records, ServerError) == CountBetween(records, 500, high)
  {
    if records != [] {
      ClassesAreRanges(records[..|records| - 1], low, high);
    }
  }

  class Metrics {
    var totalRequests: nat
    var bytesOut: nat
    var responses2xx: nat
    var responses4xx: nat
    var responses5xx: nat
    var activeConnections: int
    var totalConnections: nat
    const latencyBuckets: array<nat>
    ghost var records: seq<Record>

    ghost predicate Valid()
      reads this, latencyBuckets
    {
      && latencyBuckets.Length == BUCKET_COUNT
      && totalRequests == |records|
      && responses2xx == CountClass(records, Ok)
      && responses4xx == CountClass(records, ClientError)
      && responses5xx == CountClass(records, ServerError)
      && latencyBuckets[..] == Histogram(Latencies(records))
    }

    constructor ()
      ensures Valid() && records == [] && activeConnections == 0
      ensures fresh(latencyBuckets)
    {
      totalRequests, bytesOut, responses2xx, responses4xx, responses5xx := 0, 0, 0, 0, 0;
      activeConnections, totalConnections := 0, 0;
      latencyBuckets := new nat[BUCKET_COUNT](i => 0);
      records := [];
    }

    method RecordRequest(status: int, responseBytes: nat, latencyMicros: Micros)
      requires Valid()
      modifies this, latencyBuckets
      ensures Valid() && records == old(records) + [Record(status, responseBytes, latencyMicros)]
      ensures bytesOut == old(bytesOut) + responseBytes
      ensures activeConnections == old(activeConnections) && totalConnections == old(totalConnections)
    {
      hide BucketOf, Histogram;
      totalRequests := totalRequests + 1;
      bytesOut := bytesOut + responseBytes;
      if status < 400 {
        responses2xx := responses2xx + 1;
      } else if status < 500 {
        responses4xx := responses4xx + 1;
      } else {
        responses5xx := responses5xx + 1;
      }
      ghost var entry := Record(status, responseBytes, latencyMicros);
      CountClassAppend(records, entry);
      HistogramAppend(Latencies(records), latencyMicros);
      assert Latencies(records + [entry]) == Latencies(records) + [latencyMicros];
      records := records + [entry];
      Bump(latencyMicros);
    }

    /** The loop of `recordRequest`: one bucket is bumped. */
    method Bump(latencyMicros: Micros)
      requires latencyBuckets.Length == BUCKET_COUNT
      modifies latencyBuckets
      ensures var b := BucketOf(latencyMicros);
              latencyBuckets[..] == old(latencyBuckets[..])[b := old(latencyBuckets[..])[b] + 1]
    {
      var i := 0;
      while i < BUCKET_COUNT - 1 && latencyMicros > BOUNDS[i]
        invariant i < BUCKET_COUNT && forall j :: 0 <= j < i ==> BOUNDS[j] < latencyMicros
        invariant latencyBuckets[..] == old(latencyBuckets[..])
      {
        i := i + 1;
      }
      latencyBuckets[i] := latencyBuckets[i] + 1;
    }

    method ConnectionOpened()
      modifies this`activeConnections, this`totalConnections
      ensures activeConnections == old(activeConnections) + 1 && totalConnections == old(totalConnections) + 1
    {
      activeConnections := activeConnections + 1;
      totalConnections := totalConnections + 1;
    }

    method ConnectionClosed()
      modifies this`activeConnections
      ensures activeConnections == old(activeConnections) - 1
    {
      activeConnections := activeConnections - 1;
    }

    /** In milliseconds. */
    method Percentile(fraction: real, total: nat) returns (ms: real)
      requires Valid() && 0.0 <= fraction
      ensures total == 0 ==> ms == 0.0
      ensures total > 0 ==>
                ms == Upper(Chosen(Histogram(Latencies(records)), Target(fraction, total))) as real / 1000.0
    {
      if total == 0 {
        return 0.0;
      }
      var target := Target(fraction, total);
      var seen := 0;
      var i := 0;
      ghost var buckets := latencyBuckets[..];
      while i < BUCKET_COUNT
        invariant 0 <= i <= BUCKET_COUNT && seen == SumTo(buckets, i)
        invariant Chosen(buckets, target) == ScanFrom(buckets, target, i)
      {
        seen := seen + latencyBuckets[i];
        if seen >= target {
          var upper := if i + 1 == BUCKET_COUNT then BOUNDS[i - 1] else BOUNDS[i];
          return upper as real / 1000.0;
        }
        i := i + 1;
      }
      return BOUNDS[BUCKET_COUNT - 2] as real / 1000.0;
    }
  }

  lemma HistogramAppend(latencies: seq<Micros>, latency: Micros)
    ensures var h, b := Histogram(latencies), BucketOf(latency);
            Histogram(latencies + [latency]) == h[b := h[b] + 1]
  {
    hide BucketOf;
    var more := latencies + [latency];
    assert more[..|more| - 1] == latencies;
    assert forall b :: 0 <= b < BUCKET_COUNT ==>
        CountIn(more, b) == CountIn(latencies, b) + if BucketOf(latency) == b then 1 else 0;
  }

  // ---- order statistics -------------------------------------------------------------------

  function CountAtMost(latencies: seq<Micros>, bound: nat): nat {
    if latencies == [] then 0
    else CountAtMost(latencies[..|latencies| - 1], bound) + if latencies[|latencies| - 1] <= bound then 1 else 0
  }

  lemma {:induction false} SumBump(buckets: seq<nat>, b: nat, n: nat)
    requires n <= |buckets| && b < |buckets|
    ensures SumTo(buckets[b := buckets[b] + 1], n) == SumTo(buckets, n) + if b < n then 1 else 0
  {
    if n > 0 {
      SumBump(buckets, b, n - 1);
    }
  }

  lemma {:induction false} SumZero(n: nat)
    requires n <= BUCKET_COUNT
    ensures SumTo(Histogram([]), n) == 0
  {
    if n > 0 {
      SumZero(n - 1);
    }
  }

  /** The running sum over the buckets counts the latencies within the bound. */
  lemma {:induction false} SumCounts(latencies: seq<Micros>, i: nat)
    requires i < BUCKET_COUNT
    ensures SumTo(Histogram(latencies), i + 1) == CountAtMost(latencies, BOUNDS[i])
  {
    hide BucketOf, Histogram, SumTo, BOUNDS;
    if latencies == [] {
      SumZero(i + 1);
    } else {
      var front, last := latencies[..|latencies| - 1], latencies[|latencies| - 1];
      SumCounts(front, i);
      assert latencies == front + [last];
      HistogramAppend(front, last);
      HistogramSize(front);
      SumBump(Histogram(front), BucketOf(last), i + 1);
      BucketAtMost(last, i);
    }
  }

  lemma HistogramSize(latencies: seq<Micros>)
    ensures |Histogram(latencies)| == BUCKET_COUNT
  {
  }

  lemma BucketAtMost(latency: Micros, i: nat)
    requires i < BUCKET_COUNT
    ensures BucketOf(latency) <= i <==> latency <= BOUNDS[i]
  {
    BoundsIncrease(BucketOf(latency), i);
  }

  lemma BoundsIncrease(i: nat, j: nat)
    requires i < BUCKET_COUNT && j < BUCKET_COUNT
    ensures i <= j ==> BOUNDS[i] <= BOUNDS[j]
  {
  }

  lemma {:induction false} AllWithin(latencies: seq<Micros>)
    ensures CountAtMost(latencies, UINT64_MAX) == |latencies|
  {
    if latencies != [] {
      AllWithin(latencies[..|latencies| - 1]);
    }
  }

  /** Every record is in exactly one bucket. */
  lemma BucketsSumToTotal(latencies: seq<Micros>)
    ensures SumTo(Histogram(latencies), BUCKET_COUNT) == |latencies|
  {
    SumCounts(latencies, BUCKET_COUNT - 1);
    AllWithin(latencies);
  }

  lemma {:induction false} CountWithout(xs: seq<Micros>, j: nat, bound: nat)
    requires j < |xs|
    ensures CountAtMost(xs, bound) == CountAtMost(xs[..j] + xs[j + 1..], bound) + if xs[j] <= bound then 1 else 0
    decreases |xs|
  {
    var n := |xs| - 1;
    if j == n {
      assert xs[..j] + xs[j + 1..] == xs[..n];
    } else {
      CountWithout(xs[..n], j, bound);
      LastStays(xs, j);
    }
  }

  lemma LastStays(xs: seq<Micros>, j: nat)
    requires j < |xs| - 1
    ensures var n, without := |xs| - 1, xs[..j] + xs[j + 1..];
            without[..n - 1] == xs[..n][..j] + xs[..n][j + 1..] && without[n - 1] == xs[n]
  {
  }

  lemma TakenOut(xs: seq<Micros>, j: nat)
    requires j < |xs|
    ensures multiset(xs[..j] + xs[j + 1..]) == multiset(xs) - multiset{xs[j]}
  {
    assert xs == xs[..j] + ([xs[j]] + xs[j + 1..]);
    assert multiset(xs) == multiset(xs[..j]) + multiset{xs[j]} + multiset(xs[j + 1..]);
  }

  /** The count does not depend on the order. */
  lemma {:induction false} CountPermuted(xs: seq<Micros>, ys: seq<Micros>, bound: nat)
    requires multiset(xs) == multiset(ys)
    ensures CountAtMost(xs, bound) == CountAtMost(ys, bound)
    decreases |xs|
  {
    if xs == [] {
      assert |ys| == |multiset(ys)| == 0;
    } else {
      var n := |xs| - 1;
      assert xs == xs[..n] + [xs[n]];
      assert xs[n] in multiset(ys);
      var j :| 0 <= j < |ys| && ys[j] == xs[n];
      var without := ys[..j] + ys[j + 1..];
      assert multiset(without) == multiset(xs[..n]) by {
        TakenOut(xs, n);
        TakenOut(ys, j);
        assert xs[..n] + xs[n + 1..] == xs[..n];
      }
      CountPermuted(xs[..n], without, bound);
      CountWithout(ys, j, bound);
    }
  }

  predicate Sorted(xs: seq<Micros>) { forall i, j :: 0 <= i < j < |xs| ==> xs[i] <= xs[j] }

  lemma {:induction false} SortedCount(xs: seq<Micros>, bound: nat, t: nat)
    requires Sorted(xs) && 1 <= t <= |xs|
    ensures CountAtMost(xs, bound) <= |xs|
    ensures CountAtMost(xs, bound) >= t <==> xs[t - 1] <= bound
  {
    var n := |xs| - 1;
    if n == 0 {
      assert xs[..0] == [];
    } else {
      SortedCount(xs[..n], bound, if t <= n then t else n);
    }
  }

  /** The percentile is a true order statistic: for every target from 1 to the total, the
      bucket chosen is the one that holds the target-th smallest latency. */
  lemma ChosenHoldsRank(latencies: seq<Micros>, sorted: seq<Micros>, target: nat)
    requires Sorted(sorted) && multiset(sorted) == multiset(latencies)
    requires 1 <= target <= |latencies|
    ensures |sorted| == |latencies| && Chosen(Histogram(latencies), target) == BucketOf(sorted[target - 1])
  {
    assert |sorted| == |multiset(sorted)| == |multiset(latencies)| == |latencies|;
    var x := sorted[target - 1];
    var c, b := Chosen(Histogram(latencies), target), BucketOf(x);
    forall i | 0 <= i < BUCKET_COUNT
      ensures Reaches(Histogram(latencies), target, i) <==> b <= i
    {
      SumCounts(latencies, i);
      CountPermuted(latencies, sorted, BOUNDS[i]);
      SortedCount(sorted, BOUNDS[i], target);
      BucketAtMost(x, i);
    }
    ChosenIs(Histogram(latencies), target, b);
  }

  /** What is reported bounds that latency from above, tightly: it is the smallest of the bounds
      50, 100, ..., 1000000 that does, and 1000000 when none does. */
  lemma ReportsBound(latencies: seq<Micros>, sorted: seq<Micros>, target: nat)
    requires Sorted(sorted) && multiset(sorted) == multiset(latencies)
    requires 1 <= target <= |latencies|
    ensures |sorted| == |latencies|
    ensures var x, reported := sorted[target - 1], Upper(Chosen(Histogram(latencies), target));
            && reported in FINITE_BOUNDS
            && (x <= 1000000 ==> x <= reported && forall b :: b in FINITE_BOUNDS && x <= b ==> reported <= b)
            && (x > 1000000 ==> reported == 1000000)
  {
    hide Histogram, Chosen, Sorted, BucketOf;
    ChosenHoldsRank(latencies, sorted, target);
    UpperOfBucket(sorted[target - 1]);
  }

  const FINITE_BOUNDS: set<nat> := {50, 100, 250, 500, 1000, 2500, 5000, 10000, 25000, 50000, 100000, 250000,
                                    500000, 1000000}

  lemma UpperOfBucket(x: Micros)
    ensures var reported := Upper(BucketOf(x));
            && reported in FINITE_BOUNDS
            && (x <= 1000000 ==> x <= reported && forall b :: b in FINITE_BOUNDS && x <= b ==> reported <= b)
            && (x > 1000000 ==> reported == 1000000)
  {
    hide BucketOf;
    var b := BucketOf(x);
    assert forall j :: 0 <= j < 14 ==> BOUNDS[j] in FINITE_BOUNDS;
    BoundsAreFinite();
  }

  lemma BoundsAreFinite()
    ensures forall b :: b in FINITE_BOUNDS ==> exists j :: 0 <= j < 14 && BOUNDS[j] == b
    ensures BOUNDS[13] == 1000000
    ensures forall j, k :: 0 <= j < k < 15 ==> BOUNDS[j] < BOUNDS[k]
  {
    assert BOUNDS[0] == 50 && BOUNDS[1] == 100 && BOUNDS[2] == 250 && BOUNDS[3] == 500 && BOUNDS[4] == 1000;
    assert BOUNDS[5] == 2500 && BOUNDS[6] == 5000 && BOUNDS[7] == 10000 && BOUNDS[8] == 25000;
    assert BOUNDS[9] == 50000 && BOUNDS[10] == 100000 && BOUNDS[11] == 250000 && BOUNDS[12] == 500000;
    assert BOUNDS[13] == 1000000;
  }

  lemma ChosenIs(buckets: seq<nat>, target: nat, b: nat)
    requires b < |buckets|
    requires forall i :: 0 <= i < |buckets| ==> (Reaches(buckets, target, i) <==> b <= i)
    ensures Chosen(buckets, target) == b
  {
    assert Reaches(buckets, target, b);
  }

  /** On a fixed snapshot the report does not fall as the fraction grows. */
  lemma PercentileMonotone(latencies: seq<Micros>, low: real, high: real, total: nat)
    requires 0.0 <= low <= high
    ensures Upper(Chosen(Histogram(latencies), Target(low, total))) <=
            Upper(Chosen(Histogram(latencies), Target(high, total)))
  {
    var h, s, t := Histogram(latencies), Target(low, total), Target(high, total);
    TargetMonotone(low, high, total);
    var c, d := Chosen(h, s), Chosen(h, t);
    assert forall j :: 0 <= j < |h| && Reaches(h, t, j) ==> Reaches(h, s, j);
    UpperMonotone(c, d);
  }

  lemma UpperMonotone(c: nat, d: nat)
    requires c <= d
    ensures Upper(c) <= Upper(d)
  {
  }

  lemma TargetMonotone(low: real, high: real, total: nat)
    requires 0.0 <= low <= high
    ensures Target(low, total) <= Target(high, total)
  {
    var x, y := low * total as real, high * total as real;
    assert x <= y;
    FloorMonotone(x, y);
  }

  lemma FloorMonotone(x: real, y: real)
    requires x <= y
    ensures x.Floor <= y.Floor
  {
    assert x.Floor as real <= x && y < y.Floor as real + 1.0;
  }

  /** For a fraction of at most 1 the target never exceeds the total. */
  lemma TargetInRange(fraction: real, total: nat)
    requires 0.0 <= fraction <= 1.0
    ensures Target(fraction, total) <= total
    ensures Target(fraction, total) as real <= fraction * total as real < Target(fraction, total) as real + 1.0
  {
    assert fraction * total as real <= total as real;
    FloorMonotone(fraction * total as real, total as real);
  }

  /** Where the law stops: a target of 0, which truncation gives for small totals, always
      reports the first bound; it is the bucket of some recorded latency exactly when the
      first bucket is not empty. */
  lemma TargetZeroReportsFirstBound(latencies: seq<Micros>)
    ensures Chosen(Histogram(latencies), 0) == 0
    ensures (exists i :: 0 <= i < |latencies| && BucketOf(latencies[i]) == 0) <==> Histogram(latencies)[0] > 0
  {
    CountPositive(latencies, 0);
  }

  lemma {:induction false} CountPositive(latencies: seq<Micros>, b: nat)
    ensures CountIn(latencies, b) > 0 <==> exists i :: 0 <= i < |latencies| && BucketOf(latencies[i]) == b
  {
    hide BucketOf;
    if latencies != [] {
      var front := latencies[..|latencies| - 1];
      CountPositive(front, b);
      assert forall i :: 0 <= i < |front| ==> front[i] == latencies[i];
    }
  }
}
