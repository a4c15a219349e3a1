/** Normalized buckets, and combining several of them into one. */
module Buckets {
  import opened Sequences
  import opened AggregatedResults
  import opened ResultSums

  datatype Tier = Raw | Hourly | Daily

  /** TIER_PRIORITY: a lower number is a higher priority. */
  function Priority(t: Tier): nat {
    match t
    case Raw => 0
    case Hourly => 1
    case Daily => 2
  }

  /** The numeric fields of a bucket and its source tier. */
  datatype Stats = Stats(runs: nat, healthy: nat, degraded: nat, unhealthy: nat,
                         latencySum: Option<int>, min: Option<int>, max: Option<int>, p95: Option<int>,
                         tier: Tier)

  /** A bucket covers the half-open interval from `start` to `end` (milliseconds). */
  datatype Bucket = Bucket(start: int, end: int, stats: Stats, result: Option<Record>)

  // ------------------------------------------------- optional measurements

  function OptSum(a: Option<int>, b: Option<int>): Option<int> {
    if a.None? then b else if b.None? then a else Some(a.value + b.value)
  }

  function OptMin(a: Option<int>, b: Option<int>): Option<int> {
    if a.None? then b else if b.None? then a else if a.value <= b.value then a else b
  }

  function OptMax(a: Option<int>, b: Option<int>): Option<int> {
    if a.None? then b else if b.None? then a else if a.value >= b.value then a else b
  }

  /** `Math.min(...list)` where the list is not empty. */
  function ListMin(s: seq<int>): Option<int> {
    if s == [] then None else OptMin(ListMin(s[..|s| - 1]), Some(s[|s| - 1]))
  }

  function ListMax(s: seq<int>): Option<int> {
    if s == [] then None else OptMax(ListMax(s[..|s| - 1]), Some(s[|s| - 1]))
  }

  function ListSum(s: seq<int>): int {
    if s == [] then 0 else ListSum(s[..|s| - 1]) + s[|s| - 1]
  }

  lemma {:induction false} ListMinIsLeast(s: seq<int>)
    requires s != []
    ensures ListMin(s).Some? && ListMin(s).value in s
    ensures forall i | 0 <= i < |s| :: ListMin(s).value <= s[i]
  {
    if |s| > 1 {
      ListMinIsLeast(s[..|s| - 1]);
    }
  }

  lemma {:induction false} ListMaxIsGreatest(s: seq<int>)
    requires s != []
    ensures ListMax(s).Some? && ListMax(s).value in s
    ensures forall i | 0 <= i < |s| :: ListMax(s).value >= s[i]
  {
    if |s| > 1 {
      ListMaxIsGreatest(s[..|s| - 1]);
    }
  }

  // --------------------------------------------------------- adding buckets

  const NO_STATS := Stats(0, 0, 0, 0, None, None, None, None, Raw)

  function AddStats(a: Stats, b: Stats): Stats {
    Stats(a.runs + b.runs, a.healthy + b.healthy, a.degraded + b.degraded, a.unhealthy + b.unhealthy,
          OptSum(a.latencySum, b.latencySum), OptMin(a.min, b.min), OptMax(a.max, b.max), OptMax(a.p95, b.p95),
          if Priority(b.tier) > Priority(a.tier) then b.tier else a.tier)
  }

  function StatsOf(bs: seq<Bucket>): Stats {
    if bs == [] then NO_STATS else AddStats(StatsOf(bs[..|bs| - 1]), bs[|bs| - 1].stats)
  }

  function ResultsOf(bs: seq<Bucket>): (r: seq<Option<Record>>)
    ensures |r| == |bs|
  {
    seq(|bs|, i requires 0 <= i < |bs| => bs[i].result)
  }

  lemma OptLaws(a: Option<int>, b: Option<int>, c: Option<int>)
    ensures OptSum(a, b) == OptSum(b, a) && OptMin(a, b) == OptMin(b, a) && OptMax(a, b) == OptMax(b, a)
    ensures OptSum(OptSum(a, b), c) == OptSum(a, OptSum(b, c))
    ensures OptMin(OptMin(a, b), c) == OptMin(a, OptMin(b, c))
    ensures OptMax(OptMax(a, b), c) == OptMax(a, OptMax(b, c))
  {
  }

  lemma AddStatsLaws(a: Stats, b: Stats, c: Stats)
    ensures AddStats(a, b) == AddStats(b, a)
    ensures AddStats(AddStats(a, b), c) == AddStats(a, AddStats(b, c))
    ensures AddStats(a, NO_STATS) == a == AddStats(NO_STATS, a)
  {
    OptLaws(a.latencySum, b.latencySum, c.latencySum);
    OptLaws(a.min, b.min, c.min);
    OptLaws(a.max, b.max, c.max);
    OptLaws(a.p95, b.p95, c.p95);
  }

  // ------------------------------------------------- what the numbers mean

  /** A field summed over a list. */
  function SumBy<T>(field: T -> int, s: seq<T>): int {
    if s == [] then 0 else field(s[0]) + SumBy(field, s[1..])
  }

  /** The largest of the measurements that are there. */
  ghost predicate IsGreatest<T>(v: Option<int>, field: T -> Option<int>, s: seq<T>) {
    && (v.Some? <==> exists x <- s :: field(x).Some?)
    && (v.Some? ==> exists x <- s :: field(x) == v)
    && forall x <- s :: field(x).Some? ==> field(x).value <= v.value
  }

  ghost predicate IsLeast<T>(v: Option<int>, field: T -> Option<int>, s: seq<T>) {
    && (v.Some? <==> exists x <- s :: field(x).Some?)
    && (v.Some? ==> exists x <- s :: field(x) == v)
    && forall x <- s :: field(x).Some? ==> v.value <= field(x).value
  }

  lemma {:induction false} SumBySnoc<T>(field: T -> int, s: seq<T>, x: T)
    ensures SumBy(field, s + [x]) == SumBy(field, s) + field(x)
  {
    if s == [] {
      assert [] + [x] == [x];
    } else {
      assert (s + [x])[1..] == s[1..] + [x];
      SumBySnoc(field, s[1..], x);
    }
  }

  lemma InSnoc<T>(s: seq<T>, x: T)
    ensures forall y :: y in s + [x] <==> y in s || y == x
  {
  }

  lemma GreatestSnoc<T>(v: Option<int>, field: T -> Option<int>, s: seq<T>, x: T)
    requires IsGreatest(v, field, s)
    ensures IsGreatest(OptMax(v, field(x)), field, s + [x])
  {
    InSnoc(s, x);
    assert x in s + [x];
    if v.Some? {
      var y :| y in s && field(y) == v;
      assert y in s + [x];
    }
  }

  lemma LeastSnoc<T>(v: Option<int>, field: T -> Option<int>, s: seq<T>, x: T)
    requires IsLeast(v, field, s)
    ensures IsLeast(OptMin(v, field(x)), field, s + [x])
  {
    InSnoc(s, x);
    assert x in s + [x];
    if v.Some? {
      var y :| y in s && field(y) == v;
      assert y in s + [x];
    }
  }

  function LatencyMs(): Bucket -> int {
    (b: Bucket) => if b.stats.latencySum.Some? then b.stats.latencySum.value else 0
  }

  /** The numbers of `t` describe all the buckets: counts and latency add up, extremes and
      p95 are those of the measurements present, the tier is the lowest there is. */
  ghost predicate Describes(t: Stats, bs: seq<Bucket>) {
    && t.runs == SumBy((x: Bucket) => x.stats.runs, bs) && t.healthy == SumBy((x: Bucket) => x.stats.healthy, bs)
    && t.degraded == SumBy((x: Bucket) => x.stats.degraded, bs)
    && t.unhealthy == SumBy((x: Bucket) => x.stats.unhealthy, bs)
    && t.latencySum == (if exists b <- bs :: b.stats.latencySum.Some? then Some(SumBy(LatencyMs(), bs)) else None)
    && IsLeast(t.min, (x: Bucket) => x.stats.min, bs) && IsGreatest(t.max, (x: Bucket) => x.stats.max, bs)
    && IsGreatest(t.p95, (x: Bucket) => x.stats.p95, bs)
    && t.tier == (if exists b <- bs :: b.stats.tier == Daily then Daily
                  else if exists b <- bs :: b.stats.tier == Hourly then Hourly else Raw)
  }

  lemma CountsSnoc(t: Stats, bs: seq<Bucket>, b: Bucket)
    requires Describes(t, bs)
    ensures var u := AddStats(t, b.stats);
      && u.runs == SumBy((x: Bucket) => x.stats.runs, bs + [b])
      && u.healthy == SumBy((x: Bucket) => x.stats.healthy, bs + [b])
      && u.degraded == SumBy((x: Bucket) => x.stats.degraded, bs + [b])
      && u.unhealthy == SumBy((x: Bucket) => x.stats.unhealthy, bs + [b])
  {
    SumBySnoc((x: Bucket) => x.stats.runs, bs, b);
    SumBySnoc((x: Bucket) => x.stats.healthy, bs, b);
    SumBySnoc((x: Bucket) => x.stats.degraded, bs, b);
    SumBySnoc((x: Bucket) => x.stats.unhealthy, bs, b);
  }

  lemma {:induction false} NoLatency(bs: seq<Bucket>)
    requires forall b <- bs :: b.stats.latencySum.None?
    ensures SumBy(LatencyMs(), bs) == 0
  {
    if bs != [] {
      NoLatency(bs[1..]);
    }
  }

  lemma LatencySnoc(t: Stats, bs: seq<Bucket>, b: Bucket)
    requires Describes(t, bs)
    ensures AddStats(t, b.stats).latencySum == (if exists x <- bs + [b] :: x.stats.latencySum.Some?
      then Some(SumBy(LatencyMs(), bs + [b])) else None)
  {
    var field := LatencyMs();
    SumBySnoc(field, bs, b);
    InSnoc(bs, b);
    assert b in bs + [b];
    if t.latencySum.None? {
      NoLatency(bs);
    } else {
      var x :| x in bs && x.stats.latencySum.Some?;
      assert x in bs + [b];
    }
  }

  lemma TierSnoc(t: Stats, bs: seq<Bucket>, b: Bucket)
    requires Describes(t, bs)
    ensures AddStats(t, b.stats).tier == (if exists x <- bs + [b] :: x.stats.tier == Daily then Daily
      else if exists x <- bs + [b] :: x.stats.tier == Hourly then Hourly else Raw)
  {
    InSnoc(bs, b);
    assert b in bs + [b];
    forall x | x in bs ensures x in bs + [b] { }
  }

  lemma DescribesSnoc(t: Stats, bs: seq<Bucket>, b: Bucket)
    requires Describes(t, bs)
    ensures Describes(AddStats(t, b.stats), bs + [b])
  {
    CountsSnoc(t, bs, b);
    LatencySnoc(t, bs, b);
    LeastSnoc(t.min, (x: Bucket) => x.stats.min, bs, b);
    GreatestSnoc(t.max, (x: Bucket) => x.stats.max, bs, b);
    GreatestSnoc(t.p95, (x: Bucket) => x.stats.p95, bs, b);
    TierSnoc(t, bs, b);
  }

  /** The combined numbers describe the buckets, whatever these are. */
  lemma {:induction false} StatsDescribe(bs: seq<Bucket>)
    ensures Describes(StatsOf(bs), bs)
    decreases |bs|
  {
    if bs != [] {
      var front, b := bs[..|bs| - 1], bs[|bs| - 1];
      assert bs == front + [b];
      StatsDescribe(front);
      DescribesSnoc(StatsOf(front), front, b);
    }
  }

  /** What `combineBuckets` returns. */
  function Combine(reg: Registry, bs: seq<Bucket>, start: int, end: int): Bucket {
    Bucket(start, end, StatsOf(bs), MergeResults(reg, ResultsOf(bs)))
  }

  lemma Snoc(bs: seq<Bucket>, i: nat)
    requires i < |bs|
    ensures StatsOf(bs[..i + 1]) == AddStats(StatsOf(bs[..i]), bs[i].stats)
    ensures ResultsOf(bs[..i + 1]) == ResultsOf(bs[..i]) + [bs[i].result]
  {
    assert bs[..i + 1][..i] == bs[..i];
  }

  /** Appends a measurement that is there. */
  method PushIfPresent(list: seq<int>, x: Option<int>) returns (r: seq<int>)
    ensures ListMin(r) == OptMin(ListMin(list), x)
    ensures ListMax(r) == OptMax(ListMax(list), x)
  {
    r := list;
    if x.Some? {
      r := r + [x.value];
      assert r[..|list|] == list;
    }
  }

  /** The accumulating loop. */
  method SumBuckets(bs: seq<Bucket>) returns (stats: Stats, results: seq<Option<Record>>)
    ensures stats == StatsOf(bs) && results == ResultsOf(bs)
    ensures Describes(stats, bs)
  {
    var runs: nat, healthy: nat, degraded: nat, unhealthy: nat := 0, 0, 0, 0;
    var latencySum, hasLatency := 0, false;
    var mins, maxs, p95s := [], [], [];
    var lowest := Raw;
    results := [];
    for i := 0 to |bs|
      invariant results == ResultsOf(bs[..i])
      invariant StatsOf(bs[..i]) ==
        Stats(runs, healthy, degraded, unhealthy, if hasLatency then Some(latencySum) else None,
              ListMin(mins), ListMax(maxs), ListMax(p95s), lowest)
      invariant !hasLatency ==> latencySum == 0
    {
      var b := bs[i].stats;
      Snoc(bs, i);
      runs, healthy := runs + b.runs, healthy + b.healthy;
      degraded, unhealthy := degraded + b.degraded, unhealthy + b.unhealthy;
      if b.latencySum.Some? {
        latencySum, hasLatency := latencySum + b.latencySum.value, true;
      }
      mins := PushIfPresent(mins, b.min);
      maxs := PushIfPresent(maxs, b.max);
      p95s := PushIfPresent(p95s, b.p95);
      if Priority(b.tier) > Priority(lowest) {
        lowest := b.tier;
      }
      results := results + [bs[i].result];
    }
    assert bs[..|bs|] == bs;
    stats := Stats(runs, healthy, degraded, unhealthy, if hasLatency then Some(latencySum) else None,
                   ListMin(mins), ListMax(maxs), ListMax(p95s), lowest);
    StatsDescribe(bs);
  }

  method CombineBuckets(reg: Registry, bs: seq<Bucket>, start: int, end: int) returns (r: Bucket)
    ensures r == Combine(reg, bs, start, end)
    ensures r.start == start && r.end == end && Describes(r.stats, bs)
    ensures exists results | |results| == |bs| && (forall i | 0 <= i < |bs| :: results[i] == bs[i].result) ::
      r.result == MergeResults(reg, results)
  {
    assert |ResultsOf(bs)| == |bs| && forall i | 0 <= i < |bs| :: ResultsOf(bs)[i] == bs[i].result;
    if |bs| == 0 {
      StatsDescribe(bs);
      return Bucket(start, end, Stats(0, 0, 0, 0, None, None, None, None, Raw), None);
    }
    var stats, results := SumBuckets(bs);
    var merged := MergeAggregatedBucketResults(reg, results);
    r := Bucket(start, end, stats, merged);
  }

  // ---------------------------------------------------------------- totals

  /** Everything a group of buckets adds up to. */
  datatype Total = Total(stats: Stats, results: ResultSum)

  function AddTotals(reg: Registry, owners: Owners, a: Total, b: Total): Total {
    Total(AddStats(a.stats, b.stats), Join(reg, owners, a.results, b.results))
  }

  const NO_TOTAL := Total(NO_STATS, Zero)

  function Weight(b: Bucket): Total {
    Total(b.stats, Lift(b.result))
  }

  function Adder(reg: Registry, owners: Owners): (Total, Total) -> Total {
    (a, b) => AddTotals(reg, owners, a, b)
  }

  function TotalOf(reg: Registry, owners: Owners, bs: seq<Bucket>): Total {
    Fold(Adder(reg, owners), NO_TOTAL, Weight, bs)
  }

  lemma AdderIsMonoid(reg: Registry, owners: Owners)
    ensures CommutativeMonoid(Adder(reg, owners), NO_TOTAL)
  {
    forall a, b, c ensures LawsAt(Adder(reg, owners), NO_TOTAL, a, b, c) {
      AddStatsLaws(a.stats, b.stats, c.stats);
      JoinLaws(reg, owners, a.results, b.results, c.results);
    }
  }

  lemma {:induction false} TotalParts(reg: Registry, owners: Owners, bs: seq<Bucket>)
    ensures TotalOf(reg, owners, bs) == Total(StatsOf(bs), SumResults(reg, owners, ResultsOf(bs)))
  {
    if bs != [] {
      TotalParts(reg, owners, bs[..|bs| - 1]);
      assert ResultsOf(bs)[..|bs| - 1] == ResultsOf(bs[..|bs| - 1]);
    }
  }

  // ------------------------------------------------ combining combined buckets

  ghost predicate CompleteBuckets(reg: Registry, owners: Owners, bs: seq<Bucket>) {
    forall i | 0 <= i < |bs| :: bs[i].result.Some? ==> Complete(reg, owners, bs[i].result.value)
  }

  lemma {:induction false} CompleteResults(reg: Registry, owners: Owners, bs: seq<Bucket>)
    requires CompleteBuckets(reg, owners, bs)
    ensures AllComplete(reg, owners, Valid(ResultsOf(bs)))
  {
    if bs != [] {
      var front := bs[..|bs| - 1];
      CompleteResults(reg, owners, front);
      assert ResultsOf(bs) == ResultsOf(front) + [bs[|bs| - 1].result];
      ValidAppend(ResultsOf(front), bs[|bs| - 1].result);
    }
  }

  lemma CombinedWeighs(reg: Registry, owners: Owners, bs: seq<Bucket>, start: int, end: int)
    ensures Weight(Combine(reg, bs, start, end)).stats == TotalOf(reg, owners, bs).stats
  {
    TotalParts(reg, owners, bs);
  }
}
