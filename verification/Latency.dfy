/** API latency: a histogram of whole milliseconds per second, kept for three seconds in a ring. The
    percentiles read from the histogram are those of the sorted samples, and the ring reports exactly
    the samples of the last complete second. */
module Latency {
  const LAST: nat := 10000
  const SLOTS: nat := 3
  const MICROSECOND: nat := 1000
  const MILLISECOND: nat := 1000000

  /** Go's integer division, which truncates toward zero. */
  function Quotient(x: int, d: nat): int
    requires d > 0
  {
    if x >= 0 then x / d else -((-x) / d)
  }

  /** `apiLatencyIndex` of a duration in nanoseconds. */
  function LatencyIndex(duration: int): (i: nat)
    ensures i <= LAST
  {
    if duration <= 0 then 0
    else
      var index := Quotient(Quotient(duration, MICROSECOND) - 1, 1000);
      if index >= LAST then LAST else index
  }

  /** The milliseconds a bucket stands for. */
  function Milliseconds(index: nat): nat {
    if index == LAST then LAST else index + 1
  }

  /** The duration in milliseconds, rounded up, between 1 and 10000. */
  function RoundedUp(duration: int): nat {
    if duration <= MILLISECOND then 1
    else if (duration + MILLISECOND - 1) / MILLISECOND >= LAST then LAST
    else (duration + MILLISECOND - 1) / MILLISECOND
  }

  /** Dropping the part below a microsecond does not reach back over a whole millisecond. */
  predicate RoundsUp(duration: int) {
    || duration <= MILLISECOND || duration % MILLISECOND == 0 || duration % MILLISECOND >= MICROSECOND
    || duration / MILLISECOND >= LAST
  }

  /** A bucket stands for the duration rounded up exactly under that condition, and else for one less. */
  lemma IndexRoundsUp(duration: int)
    ensures Milliseconds(LatencyIndex(duration)) == RoundedUp(duration) <==> RoundsUp(duration)
    ensures Milliseconds(LatencyIndex(duration)) <= RoundedUp(duration) <= Milliseconds(LatencyIndex(duration)) + 1
    ensures 0 < duration <= 10_000_000_000 ==>
              duration - 999 <= Milliseconds(LatencyIndex(duration)) * 1_000_000 < duration + 1_000_000
    ensures duration <= 0 ==> Milliseconds(LatencyIndex(duration)) == 1
    ensures duration > 10_000_000_000 ==> Milliseconds(LatencyIndex(duration)) == 10_000
  {
    if duration > MILLISECOND {
      var ms, rest := duration / MILLISECOND, duration % MILLISECOND;
      assert duration == ms * MILLISECOND + rest;
      var us := duration / MICROSECOND;
      assert us == ms * 1000 + rest / MICROSECOND by {
        assert duration == (ms * 1000 + rest / MICROSECOND) * MICROSECOND + rest % MICROSECOND;
      }
      assert (us - 1) / 1000 == if rest < MICROSECOND then ms - 1 else ms by {
        if rest < MICROSECOND {
          assert us - 1 == (ms - 1) * 1000 + 999;
        } else {
          assert us - 1 == ms * 1000 + (rest / MICROSECOND - 1);
        }
      }
      assert (duration + MILLISECOND - 1) / MILLISECOND == if rest == 0 then ms else ms + 1 by {
        if rest == 0 {
          assert duration + MILLISECOND - 1 == ms * MILLISECOND + (MILLISECOND - 1);
        } else {
          assert duration + MILLISECOND - 1 == (ms + 1) * MILLISECOND + (rest - 1);
        }
      }
    }
  }

  // ---------- counting ----------

  function CountEq(s: seq<int>, v: int): nat {
    if |s| == 0 then 0 else CountEq(s[..|s| - 1], v) + (if s[|s| - 1] == v then 1 else 0)
  }

  function CountLe(s: seq<int>, v: int): nat {
    if |s| == 0 then 0 else CountLe(s[..|s| - 1], v) + (if s[|s| - 1] <= v then 1 else 0)
  }

  lemma {:induction false} CountStep(s: seq<int>, v: int)
    ensures CountLe(s, v) == CountLe(s, v - 1) + CountEq(s, v)
  {
    if |s| > 0 {
      CountStep(s[..|s| - 1], v);
    }
  }

  lemma {:induction false} CountExtremes(s: seq<int>, low: int, high: int)
    requires forall i :: 0 <= i < |s| ==> low < s[i] <= high
    ensures CountLe(s, low) == 0 && CountLe(s, high) == |s|
  {
    if |s| > 0 {
      CountExtremes(s[..|s| - 1], low, high);
    }
  }

  lemma {:induction false} CountMonotone(s: seq<int>, v: int, w: int)
    requires v <= w
    ensures CountLe(s, v) <= CountLe(s, w)
  {
    if |s| > 0 {
      CountMonotone(s[..|s| - 1], v, w);
    }
  }

  predicate Ascending(s: seq<int>) {
    forall i, j :: 0 <= i < j < |s| ==> s[i] <= s[j]
  }

  function Insert(x: int, s: seq<int>): seq<int> {
    if |s| == 0 then [x] else if x >= s[|s| - 1] then s + [x] else Insert(x, s[..|s| - 1]) + [s[|s| - 1]]
  }

  function Sort(s: seq<int>): seq<int> {
    if |s| == 0 then [] else Insert(s[|s| - 1], Sort(s[..|s| - 1]))
  }

  lemma {:induction false} InsertMembers(x: int, s: seq<int>)
    ensures |Insert(x, s)| == |s| + 1
    ensures forall y :: y in Insert(x, s) ==> y == x || y in s
  {
    if |s| > 0 && x < s[|s| - 1] {
      InsertMembers(x, s[..|s| - 1]);
    }
  }

  lemma {:induction false} InsertAscends(x: int, s: seq<int>)
    requires Ascending(s)
    ensures Ascending(Insert(x, s))
  {
    if |s| > 0 && x < s[|s| - 1] {
      var n := |s| - 1;
      InsertAscends(x, s[..n]);
      InsertMembers(x, s[..n]);
      var rest := Insert(x, s[..n]);
      forall i | 0 <= i < |rest| ensures rest[i] <= s[n] {
        assert rest[i] in rest;
      }
    }
  }

  lemma {:induction false} InsertCounts(x: int, s: seq<int>, v: int)
    ensures CountLe(Insert(x, s), v) == CountLe(s, v) + (if x <= v then 1 else 0)
  {
    hide CountLe;
    if |s| == 0 {
      CountPush([], x, v);
      assert [] + [x] == [x];
    } else if x >= s[|s| - 1] {
      CountPush(s, x, v);
    } else {
      var n := |s| - 1;
      InsertCounts(x, s[..n], v);
      CountPush(Insert(x, s[..n]), s[n], v);
      CountPush(s[..n], s[n], v);
      assert s == s[..n] + [s[n]];
    }
  }

  lemma CountPush(s: seq<int>, x: int, v: int)
    ensures CountLe(s + [x], v) == CountLe(s, v) + (if x <= v then 1 else 0)
  {
    assert (s + [x])[..|s|] == s;
  }

  lemma {:induction false} SortKeeps(s: seq<int>, v: int)
    ensures Ascending(Sort(s)) && |Sort(s)| == |s| && CountLe(Sort(s), v) == CountLe(s, v)
  {
    hide Insert;
    if |s| > 0 {
      var n := |s| - 1;
      SortKeeps(s[..n], v);
      InsertMembers(s[n], Sort(s[..n]));
      InsertAscends(s[n], Sort(s[..n]));
      InsertCounts(s[n], Sort(s[..n]), v);
    }
  }

  /** In an ascending list the entries up to `v` come first. */
  lemma {:induction false} RankInSorted(s: seq<int>, v: int, k: nat)
    requires Ascending(s) && k < |s|
    ensures s[k] <= v <==> CountLe(s, v) > k
  {
    var n := |s| - 1;
    if s[n] <= v {
      CountAllLe(s, v);
    } else if k < n {
      RankInSorted(s[..n], v, k);
    } else {
      CountAtMost(s[..n], v);
    }
  }

  lemma {:induction false} CountAtMost(s: seq<int>, v: int)
    ensures CountLe(s, v) <= |s|
  {
    if |s| > 0 {
      CountAtMost(s[..|s| - 1], v);
    }
  }

  lemma {:induction false} CountAllLe(s: seq<int>, v: int)
    requires forall i :: 0 <= i < |s| ==> s[i] <= v
    ensures CountLe(s, v) == |s|
  {
    if |s| > 0 {
      CountAllLe(s[..|s| - 1], v);
    }
  }

  // ---------- the two percentiles ----------

  /** `uint64(float64(samples)*percentile + 0.999999999)` over exact reals; `percent` of 50, 95 or 99. */
  function Target(samples: nat, percent: nat): int {
    (samples as real * (percent as real / 100.0) + 0.999999999).Floor
  }

  /** `math.Ceil`, over exact reals. */
  function Ceil(x: real): int {
    -((-x).Floor)
  }

  /** The rank `percentileValue` picks, counted from one. */
  function NearestRank(n: nat, percent: nat): int {
    Ceil(percent as real / 100.0 * n as real)
  }

  /** `percentileValue`, the nearest rank in a sorted list. */
  function PercentileValue(sorted: seq<int>, percent: nat): int
    requires percent <= 100
  {
    if |sorted| == 0 then 0
    else
      var index := NearestRank(|sorted|, percent) - 1;
      RankInRange(|sorted|, percent);
      if index < 0 then sorted[0] else sorted[index]
  }

  lemma RankInRange(n: nat, percent: nat)
    requires percent <= 100
    ensures NearestRank(n, percent) <= n
    ensures percent > 0 && n > 0 ==> NearestRank(n, percent) >= 1
  {
    var x := percent as real / 100.0 * n as real;
    assert x <= n as real;
    assert percent > 0 && n > 0 ==> x > 0.0;
  }

  lemma FloorIs(x: real, k: int)
    requires k as real <= x < k as real + 1.0
    ensures x.Floor == k
  {
  }

  lemma {:induction false} ProductAsReal(n: nat, m: nat)
    ensures n as real * m as real == (n * m) as real
  {
    if n > 0 {
      ProductAsReal(n - 1, m);
      assert n * m == (n - 1) * m + m;
      assert n as real == (n - 1) as real + 1.0;
      assert n as real * m as real == (n - 1) as real * m as real + m as real;
    }
  }

  /** A share of `n` in whole percents, as hundredths. */
  lemma ShareInHundredths(n: nat, percent: nat)
    ensures n as real * (percent as real / 100.0) == (n * percent / 100) as real + (n * percent % 100) as real / 100.0
  {
    ProductAsReal(n, percent);
    var whole, rest := n * percent / 100, n * percent % 100;
    assert n * percent == whole * 100 + rest;
    var a, b := n as real, percent as real;
    assert a * (b / 100.0) == (a * b) / 100.0;
    assert (whole * 100 + rest) as real == whole as real * 100.0 + rest as real;
  }

  /** Adding a little less than one before cutting off is rounding up, for whole percents. */
  lemma TargetIsCeil(n: nat, percent: nat)
    ensures Target(n, percent) == NearestRank(n, percent)
    ensures Target(n, percent) == n * percent / 100 + (if n * percent % 100 == 0 then 0 else 1)
  {
    ShareInHundredths(n, percent);
    CeilOfHundredths(n as real * (percent as real / 100.0), n * percent / 100, n * percent % 100);
    assert percent as real / 100.0 * n as real == n as real * (percent as real / 100.0);
  }

  lemma CeilOfHundredths(x: real, whole: nat, rest: nat)
    requires x == whole as real + rest as real / 100.0 && rest < 100
    ensures (x + 0.999999999).Floor == Ceil(x) == whole + (if rest == 0 then 0 else 1)
  {
    var up := whole + (if rest == 0 then 0 else 1);
    assert rest > 0 ==> 1.0 <= rest as real <= 99.0;
    FloorIs(x + 0.999999999, up);
    FloorIs(-x, -up);
  }

  // ---------- the histogram ----------

  function Indexes(durations: seq<int>): seq<int> {
    seq(|durations|, i requires 0 <= i < |durations| => LatencyIndex(durations[i]))
  }

  /** The samples in whole milliseconds, as the buckets stand for them. */
  function Rounded(durations: seq<int>): seq<int> {
    seq(|durations|, i requires 0 <= i < |durations| => Milliseconds(LatencyIndex(durations[i])))
  }

  ghost predicate IsHistogram(counts: seq<nat>, durations: seq<int>) {
    |counts| == LAST + 1 && forall i :: 0 <= i <= LAST ==> counts[i] == CountEq(Indexes(durations), i)
  }

  lemma {:induction false} CountsByMilliseconds(durations: seq<int>, v: int)
    ensures v < LAST ==> CountLe(Rounded(durations), v) == CountLe(Indexes(durations), v - 1)
  {
    if |durations| > 0 {
      var n := |durations| - 1;
      CountsByMilliseconds(durations[..n], v);
      assert Rounded(durations)[..n] == Rounded(durations[..n]);
      assert Indexes(durations)[..n] == Indexes(durations[..n]);
    }
  }

  /** The first bucket where the cumulative count reaches `k` holds the `k`-th sample in order. */
  lemma FirstBucketIsRank(durations: seq<int>, k: nat, r: nat)
    requires 1 <= k <= |durations| && r <= LAST
    requires CountLe(Indexes(durations), r) >= k && (r > 0 ==> CountLe(Indexes(durations), r - 1) < k)
    ensures |Sort(Rounded(durations))| == |durations| && Sort(Rounded(durations))[k - 1] == Milliseconds(r)
  {
    hide Sort, LatencyIndex, CountLe;
    var ms, places := Rounded(durations), Indexes(durations);
    var sorted, v := Sort(ms), Milliseconds(r);
    SortKeeps(ms, v);
    SortKeeps(ms, v - 1);
    RankInSorted(sorted, v, k - 1);
    RankInSorted(sorted, v - 1, k - 1);
    CountExtremes(ms, 0, LAST);
    CountExtremes(places, -1, LAST);
    CountsByMilliseconds(durations, v);
    CountsByMilliseconds(durations, v - 1);
    if r >= LAST - 1 {
      CountMonotone(places, LAST - 2, r - 1);
    }
  }

  /** `apiBucketPercentile`: from the histogram alone, the nearest-rank percentile of the sorted samples. */
  method BucketPercentile(counts: seq<nat>, samples: nat, percent: nat, ghost durations: seq<int>) returns (p: int)
    requires IsHistogram(counts, durations) && samples == |durations| && 0 < percent <= 100
    ensures p == PercentileValue(Sort(Rounded(durations)), percent)
    ensures JustBelow(p, PercentileValue(Sort(RoundedUpAll(durations)), percent))
    ensures AllRoundUp(durations) ==> p == PercentileValue(Sort(RoundedUpAll(durations)), percent)
  {
    hide Sort, CountLe, LatencyIndex, Target, NearestRank, RoundedUpAll, AllRoundUp, JustBelow;
    PercentileOfRoundedUp(durations, percent);
    ghost var places := Indexes(durations);
    SortKeeps(Rounded(durations), 0);
    if samples == 0 {
      return 0;
    }
    var target := Target(samples, percent);
    TargetIsCeil(samples, percent);
    RankInRange(samples, percent);
    var cumulative := 0;
    CountExtremes(places, -1, LAST);
    for index := 0 to LAST + 1
      invariant cumulative == CountLe(places, index - 1) && cumulative < target
    {
      CountStep(places, index);
      cumulative := cumulative + counts[index];
      if cumulative >= target {
        FirstBucketIsRank(durations, target, index);
        if index == LAST {
          return LAST;
        }
        return index + 1;
      }
    }
    return LAST;
  }

  lemma TargetsGrow(n: nat, p: nat, q: nat)
    requires p <= q <= 100
    ensures Target(n, p) <= Target(n, q)
  {
    hide Target, NearestRank;
    TargetIsCeil(n, p);
    TargetIsCeil(n, q);
    MultipleGrows(n, p, q);
    HundredthsGrow(n * p, n * q);
  }

  lemma MultipleGrows(n: nat, p: nat, q: nat)
    requires p <= q
    ensures n * p <= n * q
  {
    assert n * (q - p) >= 0;
  }

  lemma HundredthsGrow(x: nat, y: nat)
    requires x <= y
    ensures x / 100 + (if x % 100 == 0 then 0 else 1) <= y / 100 + (if y % 100 == 0 then 0 else 1)
  {
  }

  lemma PercentilesGrow(sorted: seq<int>, p: nat, q: nat)
    requires Ascending(sorted) && p <= q <= 100
    ensures PercentileValue(sorted, p) <= PercentileValue(sorted, q)
  {
    hide PercentileValue, Target;
    if |sorted| > 0 {
      TargetsGrow(|sorted|, p, q);
      AtTarget(sorted, p);
      AtTarget(sorted, q);
    } else {
      NothingSorted(sorted, p);
      NothingSorted(sorted, q);
    }
  }

  lemma AtTarget(sorted: seq<int>, p: nat)
    requires |sorted| > 0 && p <= 100
    ensures Target(|sorted|, p) <= |sorted|
    ensures PercentileValue(sorted, p) == sorted[if Target(|sorted|, p) <= 0 then 0 else Target(|sorted|, p) - 1]
  {
    hide Target, NearestRank;
    TargetIsCeil(|sorted|, p);
    RankInRange(|sorted|, p);
  }

  /** What a percentile is: a sample such that at least `percent` in a hundred samples do not exceed it, and
      the least such number. */
  lemma PercentileMeans(sorted: seq<int>, percent: nat)
    requires Ascending(sorted) && |sorted| > 0 && 0 < percent <= 100
    ensures var p := PercentileValue(sorted, percent);
            && p in sorted && 100 * CountLe(sorted, p) >= percent * |sorted|
            && forall v :: v < p ==> 100 * CountLe(sorted, v) < percent * |sorted|
  {
    hide Target, CountLe, PercentileValue, NearestRank;
    var n := |sorted|;
    var t, p := Target(n, percent), PercentileValue(sorted, percent);
    TargetIsCeil(n, percent);
    RankInRange(n, percent);
    AtTarget(sorted, percent);
    assert 100 * (t - 1) < n * percent <= 100 * t;
    RankInSorted(sorted, p, t - 1);
    forall v | v < p ensures 100 * CountLe(sorted, v) < percent * n {
      RankInSorted(sorted, v, t - 1);
    }
  }

  lemma NothingSorted(sorted: seq<int>, p: nat)
    requires |sorted| == 0 && p <= 100
    ensures PercentileValue(sorted, p) == 0
  {
  }

  // ---------- against durations rounded up ----------

  function RoundedUpAll(durations: seq<int>): seq<int> {
    seq(|durations|, i requires 0 <= i < |durations| => RoundedUp(durations[i]))
  }

  predicate AllRoundUp(durations: seq<int>) {
    forall i :: 0 <= i < |durations| ==> RoundsUp(durations[i])
  }

  /** `y` is `x` or one more. */
  predicate JustBelow(x: int, y: int) {
    x <= y <= x + 1
  }

  lemma {:induction false} CountsJustBelow(a: seq<int>, b: seq<int>, v: int)
    requires |a| == |b| && forall i :: 0 <= i < |a| ==> JustBelow(a[i], b[i])
    ensures CountLe(b, v) <= CountLe(a, v) <= CountLe(b, v + 1)
  {
    if |a| > 0 {
      CountsJustBelow(a[..|a| - 1], b[..|b| - 1], v);
    }
  }

  lemma SortedJustBelow(a: seq<int>, b: seq<int>, k: nat)
    requires |a| == |b| && k < |a| && forall i :: 0 <= i < |a| ==> JustBelow(a[i], b[i])
    ensures |Sort(a)| == |Sort(b)| == |a| && JustBelow(Sort(a)[k], Sort(b)[k])
  {
    hide Sort, CountLe;
    SortKeeps(a, 0);
    SortKeeps(b, 0);
    var x, y := Sort(a)[k], Sort(b)[k];
    SortKeeps(a, x);
    SortKeeps(b, x + 1);
    SortKeeps(a, y);
    SortKeeps(b, y);
    CountsJustBelow(a, b, x);
    CountsJustBelow(a, b, y);
    RankInSorted(Sort(a), x, k);
    RankInSorted(Sort(a), y, k);
    RankInSorted(Sort(b), y, k);
    RankInSorted(Sort(b), x + 1, k);
  }

  /** A reported percentile is the nearest-rank percentile of the durations rounded up to milliseconds, or
      one less; it is that percentile when no duration lies just above a whole millisecond. */
  lemma PercentileOfRoundedUp(durations: seq<int>, percent: nat)
    requires percent <= 100
    ensures JustBelow(PercentileValue(Sort(Rounded(durations)), percent),
                      PercentileValue(Sort(RoundedUpAll(durations)), percent))
    ensures AllRoundUp(durations) ==>
              PercentileValue(Sort(Rounded(durations)), percent)
                == PercentileValue(Sort(RoundedUpAll(durations)), percent)
  {
    hide Sort, Target, PercentileValue, LatencyIndex, Milliseconds, RoundedUp, RoundsUp;
    var a, b := Rounded(durations), RoundedUpAll(durations);
    RoundedJustBelow(durations);
    if AllRoundUp(durations) {
      assert a == b;
    }
    SortKeeps(a, 0);
    SortKeeps(b, 0);
    if |durations| == 0 {
      NothingSorted(Sort(a), percent);
      NothingSorted(Sort(b), percent);
    } else {
      AtTarget(Sort(a), percent);
      AtTarget(Sort(b), percent);
      var n := |durations|;
      SortedJustBelow(a, b, if Target(n, percent) <= 0 then 0 else Target(n, percent) - 1);
    }
  }

  lemma {:induction false} CountsDiffer(a: seq<int>, b: seq<int>, i: nat, v: int)
    requires |a| == |b| && i < |a| && a[i] <= v < b[i] && forall j :: 0 <= j < |a| ==> JustBelow(a[j], b[j])
    ensures CountLe(b, v) < CountLe(a, v)
  {
    var n := |a| - 1;
    if i < n {
      CountsDiffer(a[..n], b[..n], i, v);
    } else {
      CountsJustBelow(a[..n], b[..n], v);
    }
  }

  lemma RoundedJustBelow(durations: seq<int>)
    ensures forall i :: 0 <= i < |durations| ==> JustBelow(Rounded(durations)[i], RoundedUpAll(durations)[i])
    ensures forall i :: 0 <= i < |durations| ==>
              (Rounded(durations)[i] == RoundedUpAll(durations)[i] <==> RoundsUp(durations[i]))
  {
    hide LatencyIndex, Milliseconds, RoundedUp, RoundsUp;
    forall i | 0 <= i < |durations|
      ensures JustBelow(Rounded(durations)[i], RoundedUpAll(durations)[i])
      ensures Rounded(durations)[i] == RoundedUpAll(durations)[i] <==> RoundsUp(durations[i])
    {
      IndexRoundsUp(durations[i]);
    }
  }

  /** The buckets hold the durations rounded up exactly if every duration rounds up. */
  lemma BucketsRoundUpIff(durations: seq<int>)
    ensures Sort(Rounded(durations)) == Sort(RoundedUpAll(durations)) <==> AllRoundUp(durations)
  {
    hide Sort, CountLe, LatencyIndex, Milliseconds, RoundedUp, RoundsUp;
    var a, b := Rounded(durations), RoundedUpAll(durations);
    RoundedJustBelow(durations);
    if AllRoundUp(durations) {
      assert a == b;
    } else {
      var i: nat :| i < |durations| && !RoundsUp(durations[i]);
      CountsDiffer(a, b, i, a[i]);
      SortKeeps(a, a[i]);
      SortKeeps(b, a[i]);
    }
  }

  /** A reported percentile is that of the durations rounded up exactly if enough of these do not exceed it. */
  lemma PercentileAgreesIff(durations: seq<int>, percent: nat)
    requires |durations| > 0 && 0 < percent <= 100
    ensures var p := PercentileValue(Sort(Rounded(durations)), percent);
            p == PercentileValue(Sort(RoundedUpAll(durations)), percent) <==>
            CountLe(RoundedUpAll(durations), p) >= Target(|durations|, percent)
  {
    hide Sort, CountLe, Target, PercentileValue, NearestRank, Rounded, RoundedUpAll;
    var up := RoundedUpAll(durations);
    PercentileOfRoundedUp(durations, percent);
    RoundedLengths(durations);
    SortKeeps(Rounded(durations), 0);
    var p := PercentileValue(Sort(Rounded(durations)), percent);
    SortKeeps(up, p);
    AtTarget(Sort(up), percent);
    TargetIsCeil(|durations|, percent);
    RankInRange(|durations|, percent);
    RankInSorted(Sort(up), p, Target(|durations|, percent) - 1);
  }

  lemma RoundedLengths(durations: seq<int>)
    ensures |Rounded(durations)| == |RoundedUpAll(durations)| == |durations|
  {
  }

  /** The difference does show: a second with one duration just above a whole millisecond is reported low. */
  lemma SingleIsReportedLow(d: int, percent: nat)
    requires !RoundsUp(d) && percent <= 100
    ensures PercentileValue(Sort(Rounded([d])), percent) + 1 == PercentileValue(Sort(RoundedUpAll([d])), percent)
  {
    hide LatencyIndex, Milliseconds, RoundedUp, RoundsUp, NearestRank;
    IndexRoundsUp(d);
    RankInRange(1, percent);
    assert Rounded([d]) == [Milliseconds(LatencyIndex(d))] && RoundedUpAll([d]) == [RoundedUp(d)];
    SortOne(Milliseconds(LatencyIndex(d)));
    SortOne(RoundedUp(d));
  }

  lemma SortOne(x: int)
    ensures Sort([x]) == [x]
  {
    assert [x][..0] == [];
  }

  // ---------- the ring ----------

  datatype Sample = Sample(second: nat, duration: int)

  datatype Bucket = Bucket(second: nat, counts: seq<nat>, samples: nat)

  datatype Snapshot = Snapshot(second: int, samples: nat, p50: int, p95: int, p99: int)

  /** The durations observed in one second, in order. */
  function During(history: seq<Sample>, second: int): seq<int> {
    if |history| == 0 then []
    else
      During(history[..|history| - 1], second)
      + (if history[|history| - 1].second == second then [history[|history| - 1].duration] else [])
  }

  /** Observation times do not go back. */
  predicate Chronological(history: seq<Sample>) {
    forall i, j :: 0 <= i < j < |history| ==> history[i].second <= history[j].second
  }

  /** What should be reported at `now`: everything about the second before it. */
  function Expected(history: seq<Sample>, now: nat): Snapshot {
    var ds := During(history, now - 1);
    var sorted := Sort(Rounded(ds));
    Snapshot(now - 1, |ds|, PercentileValue(sorted, 50), PercentileValue(sorted, 95), PercentileValue(sorted, 99))
  }

  lemma DuringPush(history: seq<Sample>, s: Sample, second: int)
    ensures During(history + [s], second) == During(history, second) + (if s.second == second then [s.duration] else [])
  {
    assert (history + [s])[..|history|] == history;
  }

  lemma {:induction false} NothingAfter(history: seq<Sample>, second: int)
    requires forall i :: 0 <= i < |history| ==> history[i].second != second
    ensures During(history, second) == []
  {
    if |history| > 0 {
      NothingAfter(history[..|history| - 1], second);
    }
  }

  const EMPTY: seq<nat> := seq(LAST + 1, _ => 0)

  lemma EmptyHistogram()
    ensures IsHistogram(EMPTY, [])
  {
  }

  lemma PushHistogram(counts: seq<nat>, durations: seq<int>, d: int)
    requires IsHistogram(counts, durations)
    ensures IsHistogram(counts[LatencyIndex(d) := counts[LatencyIndex(d)] + 1], durations + [d])
  {
    hide LatencyIndex;
    assert Indexes(durations + [d])[..|durations|] == Indexes(durations);
  }

  class SecondWindow {
    var buckets: seq<Bucket>
    ghost var history: seq<Sample>

    /** A bucket in its own place holds the samples of its second; the last three seconds are in place. */
    ghost predicate Valid()
      reads this
    {
      && |buckets| == SLOTS && Chronological(history)
      && (forall j: nat :: j < SLOTS ==> InPlace(buckets[j], j, history))
      && (forall i :: 0 <= i < |history| ==> Kept(history, i, buckets))
    }

    constructor ()
      ensures Valid() && history == []
    {
      buckets, history := seq(SLOTS, _ => Bucket(0, EMPTY, 0)), [];
      new;
      EmptyHistogram();
    }

    /** Adds a sample; its time is not before the last one. */
    method Observe(second: nat, duration: int)
      requires Valid() && (|history| > 0 ==> history[|history| - 1].second <= second)
      modifies this
      ensures Valid() && history == old(history) + [Sample(second, duration)]
    {
      hide LatencyIndex, IsHistogram, During;
      var j := second % SLOTS;
      var bucket := buckets[j];
      if bucket.second != second {
        bucket := Bucket(second, EMPTY, 0);
      }
      var index := LatencyIndex(duration);
      NotYetObserved(buckets, history, second);
      ObserveIndex(bucket, buckets[j], j, history, second, duration);
      bucket := bucket.(counts := bucket.counts[index := bucket.counts[index] + 1], samples := bucket.samples + 1);
      ghost var after, updated := history + [Sample(second, duration)], buckets[j := bucket];
      OthersInPlace(buckets, history, Sample(second, duration), bucket, after, updated);
      buckets := buckets[j := bucket];
      history := after;
    }

    /** Reports the second before `now`, and nothing else. */
    method LatestComplete(now: nat) returns (snapshot: Snapshot)
      requires Valid() && now > 0 && (|history| > 0 ==> history[|history| - 1].second <= now)
      ensures snapshot == Expected(history, now)
      ensures snapshot.p50 <= snapshot.p95 <= snapshot.p99
      ensures var up := Sort(RoundedUpAll(During(history, now - 1)));
              && JustBelow(snapshot.p50, PercentileValue(up, 50)) && JustBelow(snapshot.p95, PercentileValue(up, 95))
              && JustBelow(snapshot.p99, PercentileValue(up, 99))
              && (AllRoundUp(During(history, now - 1)) ==>
                    && snapshot.p50 == PercentileValue(up, 50) && snapshot.p95 == PercentileValue(up, 95)
                    && snapshot.p99 == PercentileValue(up, 99))
    {
      hide IsHistogram, During, Sort, Rounded, PercentileValue, RoundedUpAll, AllRoundUp, JustBelow;
      var second := now - 1;
      var bucket := buckets[second % SLOTS];
      ghost var ds := During(history, second);
      ghost var sorted := Sort(Rounded(ds));
      SortKeeps(Rounded(ds), 0);
      PercentilesGrow(sorted, 50, 95);
      PercentilesGrow(sorted, 95, 99);
      PercentileOfRoundedUp(ds, 50);
      PercentileOfRoundedUp(ds, 95);
      PercentileOfRoundedUp(ds, 99);
      RightBucket(buckets, history, now);
      if bucket.second != second || bucket.samples == 0 {
        NoSamples(ds);
        return Snapshot(second, 0, 0, 0, 0);
      }
      var p50 := BucketPercentile(bucket.counts, bucket.samples, 50, ds);
      var p95 := BucketPercentile(bucket.counts, bucket.samples, 95, ds);
      var p99 := BucketPercentile(bucket.counts, bucket.samples, 99, ds);
      return Snapshot(second, bucket.samples, p50, p95, p99);
    }
  }

  ghost predicate InPlace(b: Bucket, j: nat, history: seq<Sample>) {
    if b.second % SLOTS == j then
      IsHistogram(b.counts, During(history, b.second)) && b.samples == |During(history, b.second)|
    else b.samples == 0
  }

  /** A sample of the last three seconds is in its bucket. */
  ghost predicate Kept(history: seq<Sample>, i: nat, buckets: seq<Bucket>)
    requires i < |history| && |buckets| == SLOTS
  {
    history[i].second + 2 >= history[|history| - 1].second ==>
      buckets[history[i].second % SLOTS].second == history[i].second
  }

  lemma NoSamples(ds: seq<int>)
    requires ds == []
    ensures Sort(Rounded(ds)) == [] && forall p: nat :: p <= 100 ==> PercentileValue(Sort(Rounded(ds)), p) == 0
  {
  }

  lemma RightBucket(buckets: seq<Bucket>, history: seq<Sample>, now: nat)
    requires |buckets| == SLOTS && Chronological(history) && now > 0
    requires |history| > 0 ==> history[|history| - 1].second <= now
    requires forall j: nat :: j < SLOTS ==> InPlace(buckets[j], j, history)
    requires forall i :: 0 <= i < |history| ==> Kept(history, i, buckets)
    ensures var second := now - 1; var bucket := buckets[second % SLOTS];
            if bucket.second == second then
              IsHistogram(bucket.counts, During(history, second)) && bucket.samples == |During(history, second)|
            else During(history, second) == []
  {
    hide IsHistogram, During;
    var second := now - 1;
    if buckets[second % SLOTS].second != second {
      forall i | 0 <= i < |history| ensures history[i].second != second {
        assert Kept(history, i, buckets);
      }
      NothingAfter(history, second);
    } else {
      assert InPlace(buckets[second % SLOTS], second % SLOTS, history);
    }
  }

  /** The bucket after a sample, started anew if it held another second. */
  lemma ObserveIndex(bucket: Bucket, was: Bucket, j: nat, history: seq<Sample>, second: nat, duration: int)
    requires j == second % SLOTS && InPlace(was, j, history) && Chronological(history)
    requires |history| > 0 ==> history[|history| - 1].second <= second
    requires if was.second == second then bucket == was else bucket == Bucket(second, EMPTY, 0)
    requires was.second != second ==> During(history, second) == []
    ensures |bucket.counts| == LAST + 1
    ensures var index := LatencyIndex(duration);
            InPlace(bucket.(counts := bucket.counts[index := bucket.counts[index] + 1],
                            samples := bucket.samples + 1), j,
                    history + [Sample(second, duration)])
  {
    hide During;
    EmptyHistogram();
    PushHistogram(bucket.counts, During(history, second), duration);
    DuringPush(history, Sample(second, duration), second);
  }

  lemma NotYetObserved(buckets: seq<Bucket>, history: seq<Sample>, second: nat)
    requires |buckets| == SLOTS && Chronological(history)
    requires |history| > 0 ==> history[|history| - 1].second <= second
    requires forall i :: 0 <= i < |history| ==> Kept(history, i, buckets)
    ensures buckets[second % SLOTS].second != second ==> During(history, second) == []
  {
    if buckets[second % SLOTS].second != second {
      forall i | 0 <= i < |history| ensures history[i].second != second {
        assert Kept(history, i, buckets);
      }
      NothingAfter(history, second);
    }
  }

  lemma OthersInPlace(buckets: seq<Bucket>, history: seq<Sample>, s: Sample, bucket: Bucket,
                      after: seq<Sample>, updated: seq<Bucket>)
    requires |buckets| == SLOTS && Chronological(history) && bucket.second == s.second
    requires after == history + [s] && updated == buckets[s.second % SLOTS := bucket]
    requires |history| > 0 ==> history[|history| - 1].second <= s.second
    requires forall j: nat :: j < SLOTS ==> InPlace(buckets[j], j, history)
    requires forall i :: 0 <= i < |history| ==> Kept(history, i, buckets)
    ensures Chronological(after)
    ensures forall j: nat :: j < SLOTS && j != s.second % SLOTS ==> InPlace(buckets[j], j, after)
    ensures forall i :: 0 <= i < |after| ==> Kept(after, i, updated)
  {
    hide IsHistogram, During;
    forall j: nat | j < SLOTS && j != s.second % SLOTS ensures InPlace(buckets[j], j, after) {
      DuringPush(history, s, buckets[j].second);
      assert During(history, buckets[j].second) + [] == During(history, buckets[j].second);
      assert InPlace(buckets[j], j, history);
    }
    forall i | 0 <= i < |after| ensures Kept(after, i, updated) {
      if i < |history| {
        assert Kept(history, i, buckets);
      }
    }
  }
}
