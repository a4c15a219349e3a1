/** The history query end to end: raw runs and stored rows become one list of
    chart buckets, and no run is shown twice. */
module Charts {
  import opened Sequences
  import opened AggregatedResults
  import opened Buckets
  import opened Regrouping
  import opened RawRuns
  import opened Tiers
  import opened HourlyRows
  import opened Retention

  /** A stored row as a bucket of its tier. */
  function RowBucket(a: Aggregate, result: Option<Record>): Bucket {
    var r := a.row;
    var stats := Stats(r.runs, r.healthy, r.degraded, r.unhealthy, r.latencySum, r.min, r.max, r.p95,
                       if a.size.HourSize? then Hourly else Daily);
    Bucket(a.start, a.start + if a.size.HourSize? then HOUR else DAY, stats, result)
  }

  // ----------------------------------------------------------- the selects

  function WantedRow(q: Query, size: Size): Aggregate -> bool {
    (a: Aggregate) => a.size == size && q.rangeStart <= a.start <= q.rangeEnd
  }

  function WantedRun(q: Query): Run -> bool { (r: Run) => q.rangeStart <= r.time <= q.rangeEnd }

  function RowStart(): Aggregate -> int { (a: Aggregate) => a.start }

  function RunTime(): Run -> int { (r: Run) => r.time }

  /** The stored rows of one size in the range, by start. */
  function SelectRows(q: Query, rows: seq<Aggregate>, size: Size): seq<Aggregate> {
    SortBy(RowStart(), Filter(WantedRow(q, size), rows))
  }

  /** The raw runs in the range, by time. */
  function SelectRuns(q: Query, runs: seq<Run>): seq<Run> { SortBy(RunTime(), Filter(WantedRun(q), runs)) }

  /** The aggregated result stored with a row, if any. */
  type Attached = Aggregate -> Option<Record>

  function RowBuckets(attached: Attached, rows: seq<Aggregate>): (r: seq<Bucket>)
    ensures |r| == |rows|
  {
    seq(|rows|, i requires 0 <= i < |rows| => RowBucket(rows[i], attached(rows[i])))
  }

  function Merged(sum: Summarize, attached: Attached, q: Query, runs: seq<Run>, rows: seq<Aggregate>): seq<Bucket> {
    MergeTiers(Normalize(sum, q, SelectRuns(q, runs)),
               RowBuckets(attached, SelectRows(q, rows, HourSize)), RowBuckets(attached, SelectRows(q, rows, DaySize)))
  }

  function Chart(reg: Registry, sum: Summarize, attached: Attached, q: Query, runs: seq<Run>, rows: seq<Aggregate>): seq<Bucket> {
    Reaggregate(reg, q, Merged(sum, attached, q, runs, rows))
  }

  /** Without a configuration (no registry to look it up in) the merged tiers as they are. */
  function Shown(reg: Option<Registry>, sum: Summarize, attached: Attached, q: Query, runs: seq<Run>,
                 rows: seq<Aggregate>): seq<Bucket> {
    if reg.Some? then Chart(reg.value, sum, attached, q, runs, rows) else Merged(sum, attached, q, runs, rows)
  }

  lemma ShownConserves(reg: Option<Registry>, sum: Summarize, attached: Attached, q: Query, runs: seq<Run>,
                       rows: seq<Aggregate>)
    ensures StatsOf(Shown(reg, sum, attached, q, runs, rows)) == StatsOf(Merged(sum, attached, q, runs, rows))
  {
    if reg.Some? {
      ReaggregateConserves(reg.value, q, Merged(sum, attached, q, runs, rows));
    }
  }

  // ------------------------------------------------------------ output format

  datatype Point = Point(start: int, end: int, runs: nat, healthy: nat, degraded: nat, unhealthy: nat,
                         successRate: real, avg: Option<int>, min: Option<int>, max: Option<int>, p95: Option<int>,
                         result: Option<Record>)

  function PointOf(withResults: bool, b: Bucket): Point {
    var t := b.stats;
    Point(b.start, b.end, t.runs, t.healthy, t.degraded, t.unhealthy,
          if t.runs > 0 then t.healthy as real / t.runs as real else 0.0,
          if t.latencySum.Some? && t.runs > 0 then Some(RoundDivide(t.latencySum.value, t.runs)) else None,
          t.min, t.max, t.p95,
          if withResults then b.result else None)
  }

  function Points(withResults: bool, bs: seq<Bucket>): (r: seq<Point>)
    ensures |r| == |bs|
  {
    seq(|bs|, i requires 0 <= i < |bs| => PointOf(withResults, bs[i]))
  }

  // ------------------------------------------------- what the chart shows

  /** Exactly the runs in the range, both ends included, oldest first. */
  ghost predicate RunsInRange(q: Query, runs: seq<Run>, picked: seq<Run>) {
    && (forall i, j | 0 <= i < j < |picked| :: picked[i].time <= picked[j].time)
    && (forall r :: multiset(picked)[r] == if q.rangeStart <= r.time <= q.rangeEnd then multiset(runs)[r] else 0)
  }

  lemma SelectedRuns(q: Query, runs: seq<Run>)
    ensures RunsInRange(q, runs, SelectRuns(q, runs))
  {
    SortBySorted(RunTime(), Filter(WantedRun(q), runs));
    var picked := SelectRuns(q, runs);
    forall i, j | 0 <= i < j < |picked| ensures picked[i].time <= picked[j].time {
      assert RunTime()(picked[i]) <= RunTime()(picked[j]);
    }
    forall r ensures multiset(picked)[r] == if q.rangeStart <= r.time <= q.rangeEnd then multiset(runs)[r] else 0 {
      FilterCount(WantedRun(q), runs, r);
    }
  }

  /** Exactly the stored rows of a size that start in the range, both ends included, by start. */
  ghost predicate RowsInRange(q: Query, rows: seq<Aggregate>, size: Size, picked: seq<Aggregate>) {
    && (forall i, j | 0 <= i < j < |picked| :: picked[i].start <= picked[j].start)
    && (forall a :: multiset(picked)[a] ==
         if a.size == size && q.rangeStart <= a.start <= q.rangeEnd then multiset(rows)[a] else 0)
  }

  lemma SelectedRows(q: Query, rows: seq<Aggregate>, size: Size)
    ensures RowsInRange(q, rows, size, SelectRows(q, rows, size))
  {
    var picked := SelectRows(q, rows, size);
    SortBySorted(RowStart(), Filter(WantedRow(q, size), rows));
    forall i, j | 0 <= i < j < |picked| ensures picked[i].start <= picked[j].start {
      assert RowStart()(picked[i]) <= RowStart()(picked[j]);
    }
    forall a ensures multiset(picked)[a] ==
      if a.size == size && q.rangeStart <= a.start <= q.rangeEnd then multiset(rows)[a] else 0
    {
      FilterCount(WantedRow(q, size), rows, a);
    }
  }

  /** A stored row on the chart: its hour or day, and its numbers. */
  ghost predicate StoredAs(a: Aggregate, result: Option<Record>, b: Bucket) {
    && b.start == a.start && b.end - a.start == (if a.size.HourSize? then 3_600_000 else 86_400_000)
    && b.stats.runs == a.row.runs && b.stats.healthy == a.row.healthy && b.stats.degraded == a.row.degraded
    && b.stats.unhealthy == a.row.unhealthy && b.stats.latencySum == a.row.latencySum
    && b.stats.min == a.row.min && b.stats.max == a.row.max && b.stats.p95 == a.row.p95
    && b.stats.tier == (if a.size.HourSize? then Hourly else Daily) && b.result == result
  }

  ghost predicate IsStoredRow(attached: Attached, q: Query, rows: seq<Aggregate>, b: Bucket) {
    exists a <- rows :: q.rangeStart <= a.start <= q.rangeEnd && StoredAs(a, attached(a), b)
  }

  /** What the merged tiers hold: raw buckets and stored rows of the range only, and a raw
      bucket around every run of the range. */
  ghost predicate Sources(sum: Summarize, attached: Attached, q: Query, picked: seq<Run>, rows: seq<Aggregate>,
                          merged: seq<Bucket>)
  {
    && (forall b <- merged :: IsSource(sum, attached, q, picked, rows, b))
    && (forall r <- picked :: IsShownRaw(sum, q, picked, merged, r))
  }

  ghost predicate IsSource(sum: Summarize, attached: Attached, q: Query, picked: seq<Run>, rows: seq<Aggregate>, b: Bucket) {
    RawAnswers(sum, q, picked, b) || IsStoredRow(attached, q, rows, b)
  }

  ghost predicate IsShownRaw(sum: Summarize, q: Query, picked: seq<Run>, merged: seq<Bucket>, r: Run) {
    exists b <- merged :: b.start <= r.time < b.end && RawAnswers(sum, q, picked, b)
  }

  lemma SelectedBucket(attached: Attached, q: Query, rows: seq<Aggregate>, size: Size, b: Bucket)
    requires b in RowBuckets(attached, SelectRows(q, rows, size))
    ensures IsStoredRow(attached, q, rows, b)
  {
    var picked := SelectRows(q, rows, size);
    var i :| 0 <= i < |picked| && RowBuckets(attached, picked)[i] == b;
    SortByMembers(RowStart(), Filter(WantedRow(q, size), rows), picked[i]);
    assert WantedRow(q, size)(picked[i]) && StoredAs(picked[i], attached(picked[i]), b);
  }

  lemma SourceOf(sum: Summarize, attached: Attached, q: Query, picked: seq<Run>, rows: seq<Aggregate>, hourly: seq<Bucket>,
                 daily: seq<Bucket>, b: Bucket)
    requires NonEmptyBuckets(hourly) && NonEmptyBuckets(daily) && b in MergeTiers(Normalize(sum, q, picked), hourly, daily)
    requires b in hourly || b in daily ==> IsStoredRow(attached, q, rows, b)
    ensures IsSource(sum, attached, q, picked, rows, b)
  {
    NormalizedShape(sum, q, picked);
    MergeTiersMembers(Normalize(sum, q, picked), hourly, daily, b);
    if b in Normalize(sum, q, picked) {
      EachRawAnswers(sum, q, picked, b);
    }
  }

  ghost predicate AllStored(attached: Attached, q: Query, rows: seq<Aggregate>, bs: seq<Bucket>) {
    forall b <- bs :: IsStoredRow(attached, q, rows, b)
  }

  lemma SelectedBuckets(attached: Attached, q: Query, rows: seq<Aggregate>, size: Size)
    ensures AllStored(attached, q, rows, RowBuckets(attached, SelectRows(q, rows, size)))
  {
    forall b | b in RowBuckets(attached, SelectRows(q, rows, size)) ensures IsStoredRow(attached, q, rows, b) {
      SelectedBucket(attached, q, rows, size, b);
    }
  }

  lemma RawAround(sum: Summarize, q: Query, picked: seq<Run>, hourly: seq<Bucket>, daily: seq<Bucket>, r: Run)
    requires NonEmptyBuckets(hourly) && NonEmptyBuckets(daily) && r in picked
    ensures IsShownRaw(sum, q, picked, MergeTiers(Normalize(sum, q, picked), hourly, daily), r)
  {
    var b := RawBucketAround(sum, q, picked, r);
    EachRawAnswers(sum, q, picked, b);
    NormalizedShape(sum, q, picked);
    MergeTiersMembers(Normalize(sum, q, picked), hourly, daily, b);
  }

  lemma TiersAreSources(sum: Summarize, attached: Attached, q: Query, picked: seq<Run>, rows: seq<Aggregate>,
                        hourly: seq<Bucket>, daily: seq<Bucket>, m: seq<Bucket>)
    requires NonEmptyBuckets(hourly) && NonEmptyBuckets(daily) && m == MergeTiers(Normalize(sum, q, picked), hourly, daily)
    requires AllStored(attached, q, rows, hourly) && AllStored(attached, q, rows, daily)
    ensures Sources(sum, attached, q, picked, rows, m)
  {
    forall b | b in m ensures IsSource(sum, attached, q, picked, rows, b) {
      SourceOf(sum, attached, q, picked, rows, hourly, daily, b);
    }
    forall r | r in picked ensures IsShownRaw(sum, q, picked, m, r) {
      RawAround(sum, q, picked, hourly, daily, r);
    }
  }

  lemma MergedSources(sum: Summarize, attached: Attached, q: Query, runs: seq<Run>, rows: seq<Aggregate>)
    ensures Sources(sum, attached, q, SelectRuns(q, runs), rows, Merged(sum, attached, q, runs, rows))
  {
    var hourly, daily := RowBuckets(attached, SelectRows(q, rows, HourSize)), RowBuckets(attached, SelectRows(q, rows, DaySize));
    SelectedBuckets(attached, q, rows, HourSize);
    SelectedBuckets(attached, q, rows, DaySize);
    RowBucketsNonEmpty(attached, SelectRows(q, rows, HourSize));
    RowBucketsNonEmpty(attached, SelectRows(q, rows, DaySize));
    TiersAreSources(sum, attached, q, SelectRuns(q, runs), rows, hourly, daily, Merged(sum, attached, q, runs, rows));
  }

  /** A point shows a bucket: the share of healthy runs, and the average to the nearest
      millisecond; without runs there is neither a share nor an average. */
  ghost predicate Plots(withResults: bool, b: Bucket, p: Point) {
    && p.start == b.start && p.end == b.end && p.runs == b.stats.runs
    && p.healthy == b.stats.healthy && p.degraded == b.stats.degraded && p.unhealthy == b.stats.unhealthy
    && p.successRate * p.runs as real == (if p.runs == 0 then 0.0 else p.healthy as real)
    && (p.runs == 0 ==> p.successRate == 0.0)
    && (p.avg.Some? <==> b.stats.latencySum.Some? && p.runs > 0)
    && (p.avg.Some? ==> Nearest(p.avg.value, b.stats.latencySum.value, p.runs))
    && p.min == b.stats.min && p.max == b.stats.max && p.p95 == b.stats.p95
    && p.result == (if withResults then b.result else None)
  }

  lemma PointPlots(withResults: bool, b: Bucket)
    ensures Plots(withResults, b, PointOf(withResults, b))
  {
    if b.stats.latencySum.Some? && b.stats.runs > 0 {
      RoundsToNearest(b.stats.latencySum.value, b.stats.runs);
    }
  }

  /** Each point shows one merged bucket, or, with a configuration, the answer for one slot. */
  ghost predicate PlotsAll(reg: Option<Registry>, withResults: bool, q: Query, merged: seq<Bucket>, points: seq<Point>) {
    if reg.Some? then forall p <- points :: PlotsAnswer(reg.value, withResults, q, merged, p)
    else |points| == |merged| && forall i | 0 <= i < |points| :: Plots(withResults, merged[i], points[i])
  }

  ghost predicate PlotsAnswer(reg: Registry, withResults: bool, q: Query, merged: seq<Bucket>, p: Point) {
    exists b | Answers(reg, q, merged, b) :: Plots(withResults, b, p)
  }

  lemma AnswersPlotted(reg: Registry, withResults: bool, q: Query, merged: seq<Bucket>, p: Point)
    requires p in Points(withResults, Reaggregate(reg, q, merged))
    ensures PlotsAnswer(reg, withResults, q, merged, p)
  {
    var shown := Reaggregate(reg, q, merged);
    var i :| 0 <= i < |shown| && Points(withResults, shown)[i] == p;
    PointPlots(withResults, shown[i]);
    OutputAnswers(reg, q, merged, shown[i]);
  }

  lemma ShownPlots(reg: Option<Registry>, withResults: bool, q: Query, merged: seq<Bucket>)
    ensures PlotsAll(reg, withResults, q, merged,
                     Points(withResults, if reg.Some? then Reaggregate(reg.value, q, merged) else merged))
  {
    if reg.Some? {
      forall p | p in Points(withResults, Reaggregate(reg.value, q, merged))
        ensures PlotsAnswer(reg.value, withResults, q, merged, p)
      {
        AnswersPlotted(reg.value, withResults, q, merged, p);
      }
    } else {
      forall i | 0 <= i < |merged| ensures Plots(withResults, merged[i], Points(withResults, merged)[i]) {
        PointPlots(withResults, merged[i]);
      }
    }
  }

  /** The chart, from the raw runs and the stored rows to its points. */
  lemma ChartMeaning(reg: Option<Registry>, withResults: bool, sum: Summarize, attached: Attached, q: Query, runs: seq<Run>,
                     rows: seq<Aggregate>)
    ensures RunsInRange(q, runs, SelectRuns(q, runs))
    ensures forall size :: RowsInRange(q, rows, size, SelectRows(q, rows, size))
    ensures Sources(sum, attached, q, SelectRuns(q, runs), rows, Merged(sum, attached, q, runs, rows))
    ensures PlotsAll(reg, withResults, q, Merged(sum, attached, q, runs, rows),
                     Points(withResults, Shown(reg, sum, attached, q, runs, rows)))
  {
    SelectedRuns(q, runs);
    forall size ensures RowsInRange(q, rows, size, SelectRows(q, rows, size)) {
      SelectedRows(q, rows, size);
    }
    MergedSources(sum, attached, q, runs, rows);
    ShownPlots(reg, withResults, q, Merged(sum, attached, q, runs, rows));
  }

  method GetAggregatedHistory(reg: Option<Registry>, withResults: bool, sum: Summarize, attached: Attached, q: Query,
                              runs: seq<Run>, rows: seq<Aggregate>)
    returns (points: seq<Point>)
    ensures points == Points(withResults, Shown(reg, sum, attached, q, runs, rows))
    ensures RunsInRange(q, runs, SelectRuns(q, runs))
    ensures forall size :: RowsInRange(q, rows, size, SelectRows(q, rows, size))
    ensures Sources(sum, attached, q, SelectRuns(q, runs), rows, Merged(sum, attached, q, runs, rows))
    ensures PlotsAll(reg, withResults, q, Merged(sum, attached, q, runs, rows), points)
  {
    ChartMeaning(reg, withResults, sum, attached, q, runs, rows);
    var raw := NormalizeRawRuns(sum, q, SelectRuns(q, runs));
    var merged := MergeTieredBuckets(raw, RowBuckets(attached, SelectRows(q, rows, HourSize)),
                                     RowBuckets(attached, SelectRows(q, rows, DaySize)));
    var target := merged;
    if reg.Some? {
      target := ReaggregateBuckets(reg.value, q, merged);
    }
    points := Points(withResults, target);
  }

  /** Each point's success rate times its runs, added up. */
  function WeightedRates(ps: seq<Point>): real {
    if ps == [] then 0.0
    else WeightedRates(ps[..|ps| - 1]) + ps[|ps| - 1].successRate * ps[|ps| - 1].runs as real
  }

  lemma PointsSnoc(withResults: bool, bs: seq<Bucket>)
    requires bs != []
    ensures var n := |bs| - 1;
      Points(withResults, bs)[..n] == Points(withResults, bs[..n]) && Points(withResults, bs)[n] == PointOf(withResults, bs[n])
  {
  }

  lemma RateOfPoint(withResults: bool, b: Bucket)
    requires b.stats.runs == 0 ==> b.stats.healthy == 0
    ensures PointOf(withResults, b).successRate * b.stats.runs as real == b.stats.healthy as real
    ensures b.stats.healthy <= b.stats.runs ==> 0.0 <= PointOf(withResults, b).successRate <= 1.0
  {
  }

  /** The shown success rates, weighted by their runs, give back all healthy runs. */
  lemma {:induction false} RatesAreConserved(withResults: bool, bs: seq<Bucket>)
    requires forall i | 0 <= i < |bs| :: bs[i].stats.runs == 0 ==> bs[i].stats.healthy == 0
    ensures WeightedRates(Points(withResults, bs)) == StatsOf(bs).healthy as real
  {
    if bs != [] {
      PointsSnoc(withResults, bs);
      RatesAreConserved(withResults, bs[..|bs| - 1]);
      RateOfPoint(withResults, bs[|bs| - 1]);
    }
  }

  // ------------------------------------------------------------ counting runs

  predicate Covers(b: Bucket, r: Run) { b.start <= r.time < b.end }

  function RunsIn(b: Bucket): Run -> bool { (r: Run) => Covers(b, r) }

  /** Runs of the history that a bucket stands for. */
  function CountIn(b: Bucket, history: seq<Run>): nat { |Filter(RunsIn(b), history)| }

  function TotalIn(bs: seq<Bucket>, history: seq<Run>): nat {
    if bs == [] then 0 else TotalIn(bs[..|bs| - 1], history) + CountIn(bs[|bs| - 1], history)
  }

  /** How many of the buckets cover one run. */
  function Hits(bs: seq<Bucket>, r: Run): nat {
    if bs == [] then 0 else Hits(bs[..|bs| - 1], r) + if Covers(bs[|bs| - 1], r) then 1 else 0
  }

  lemma {:induction false} MissedByAll(bs: seq<Bucket>, r: Run)
    requires forall i | 0 <= i < |bs| :: !Covers(bs[i], r)
    ensures Hits(bs, r) == 0
  {
    if bs != [] {
      MissedByAll(bs[..|bs| - 1], r);
    }
  }

  /** Disjoint buckets cover a run at most once. */
  lemma {:induction false} HitOnce(bs: seq<Bucket>, r: Run)
    requires Disjoint(bs)
    ensures Hits(bs, r) <= 1
  {
    if bs != [] {
      var front, b := bs[..|bs| - 1], bs[|bs| - 1];
      if Covers(b, r) {
        forall i | 0 <= i < |front| ensures !Covers(front[i], r) {
          assert !Overlap(RangeOf(bs[i]), RangeOf(b));
        }
        MissedByAll(front, r);
      } else {
        assert forall i, j | 0 <= i < j < |front| :: !Overlap(RangeOf(bs[i]), RangeOf(bs[j]));
        HitOnce(front, r);
      }
    }
  }

  lemma {:induction false} TotalSnoc(bs: seq<Bucket>, history: seq<Run>, r: Run)
    ensures TotalIn(bs, history + [r]) == TotalIn(bs, history) + Hits(bs, r)
  {
    if bs != [] {
      TotalSnoc(bs[..|bs| - 1], history, r);
      FilterAppend(RunsIn(bs[|bs| - 1]), history, [r]);
    }
  }

  lemma {:induction false} TotalEmpty(bs: seq<Bucket>)
    ensures TotalIn(bs, []) == 0
  {
    if bs != [] {
      TotalEmpty(bs[..|bs| - 1]);
    }
  }

  lemma {:induction false} DisjointCountOnce(bs: seq<Bucket>, history: seq<Run>)
    requires Disjoint(bs)
    ensures TotalIn(bs, history) <= |history|
  {
    if history == [] {
      TotalEmpty(bs);
    } else {
      var front, r := history[..|history| - 1], history[|history| - 1];
      assert history == front + [r];
      DisjointCountOnce(bs, front);
      TotalSnoc(bs, front, r);
      HitOnce(bs, r);
    }
  }

  /** No bucket claims more runs than happened in its interval. */
  ghost predicate Honest(bs: seq<Bucket>, history: seq<Run>) {
    forall i | 0 <= i < |bs| :: bs[i].stats.runs <= CountIn(bs[i], history)
  }

  lemma {:induction false} HonestTotal(bs: seq<Bucket>, history: seq<Run>)
    requires Honest(bs, history)
    ensures StatsOf(bs).runs <= TotalIn(bs, history)
  {
    if bs != [] {
      HonestTotal(bs[..|bs| - 1], history);
    }
  }

  lemma MergedHonest(raw: seq<Bucket>, hourly: seq<Bucket>, daily: seq<Bucket>, history: seq<Run>)
    requires NonEmptyBuckets(raw) && NonEmptyBuckets(hourly) && NonEmptyBuckets(daily)
    requires Honest(raw, history) && Honest(hourly, history) && Honest(daily, history)
    ensures Honest(MergeTiers(raw, hourly, daily), history)
  {
    var m := MergeTiers(raw, hourly, daily);
    forall i | 0 <= i < |m| ensures m[i].stats.runs <= CountIn(m[i], history) {
      MergeTiersMembers(raw, hourly, daily, m[i]);
    }
  }

  /** Whatever the tiers overlap, their merge shows each run at most once. */
  lemma MergedCountsOnce(raw: seq<Bucket>, hourly: seq<Bucket>, daily: seq<Bucket>, history: seq<Run>)
    requires NonEmptyBuckets(raw) && NonEmptyBuckets(hourly) && NonEmptyBuckets(daily)
    requires Disjoint(raw) && Disjoint(hourly) && Disjoint(daily)
    requires Honest(raw, history) && Honest(hourly, history) && Honest(daily, history)
    ensures StatsOf(MergeTiers(raw, hourly, daily)).runs <= |history|
  {
    var m := MergeTiers(raw, hourly, daily);
    MergeTiersDisjoint(raw, hourly, daily);
    MergedHonest(raw, hourly, daily, history);
    HonestTotal(m, history);
    DisjointCountOnce(m, history);
  }

  lemma RawIsHonest(sum: Summarize, q: Query, runs: seq<Run>, history: seq<Run>)
    requires multiset(runs) <= multiset(history)
    ensures Honest(Normalize(sum, q, runs), history)
  {
    var bs, slots := Normalize(sum, q, runs), SlotsMet(q, runs);
    forall i | 0 <= i < |bs| ensures bs[i].stats.runs <= CountIn(bs[i], history) {
      forall r | r in runs ensures RunInSlot(q, slots[i])(r) == RunsIn(bs[i])(r) {
        SlotBounds(q.rangeStart, q.interval, r.time);
        if Covers(bs[i], r) {
          SlotUnique(q.rangeStart, q.interval, r.time, slots[i]);
        }
      }
      FilterSame(RunInSlot(q, slots[i]), RunsIn(bs[i]), runs);
      FilterSubset(RunsIn(bs[i]), runs, history);
    }
  }

  // --------------------------------------------- no raw run is hidden either

  /** Every bucket claims at least the runs of the list that lie in its interval. */
  ghost predicate Generous(bs: seq<Bucket>, runs: seq<Run>) {
    forall i | 0 <= i < |bs| :: bs[i].stats.runs >= CountIn(bs[i], runs)
  }

  lemma {:induction false} GenerousTotal(bs: seq<Bucket>, runs: seq<Run>)
    requires Generous(bs, runs)
    ensures StatsOf(bs).runs >= TotalIn(bs, runs)
  {
    if bs != [] {
      GenerousTotal(bs[..|bs| - 1], runs);
    }
  }

  lemma {:induction false} HitSome(bs: seq<Bucket>, r: Run, i: nat)
    requires i < |bs| && Covers(bs[i], r)
    ensures Hits(bs, r) >= 1
    decreases |bs|
  {
    if i < |bs| - 1 {
      HitSome(bs[..|bs| - 1], r, i);
    }
  }

  lemma {:induction false} CoveredCountAll(bs: seq<Bucket>, runs: seq<Run>)
    requires forall i | 0 <= i < |runs| :: exists b <- bs :: Covers(b, runs[i])
    ensures TotalIn(bs, runs) >= |runs|
  {
    if runs == [] {
      TotalEmpty(bs);
    } else {
      var front, r := runs[..|runs| - 1], runs[|runs| - 1];
      assert runs == front + [r];
      assert forall i | 0 <= i < |front| :: front[i] == runs[i];
      CoveredCountAll(bs, front);
      TotalSnoc(bs, front, r);
      var b :| b in bs && Covers(b, r);
      var i :| 0 <= i < |bs| && bs[i] == b;
      HitSome(bs, r, i);
    }
  }

  /** The slot of a run. */
  function SlotRange(q: Query, r: Run): Range {
    var start := SlotStart(q.rangeStart, q.interval, RunSlot(q, r));
    Range(start, start + q.interval)
  }

  /** A run has a raw bucket around it that counts exactly the runs in its interval. */
  lemma RawBucketAround(sum: Summarize, q: Query, runs: seq<Run>, r: Run) returns (b: Bucket)
    requires r in runs
    ensures b in Normalize(sum, q, runs) && Covers(b, r) && RangeOf(b) == SlotRange(q, r)
  {
    var bs, slots := Normalize(sum, q, runs), SlotsMet(q, runs);
    SlotsMetShape(q, runs);
    FilterKeeps(RunInSlot(q, RunSlot(q, r)), runs, r);
    assert r in SlotRuns(q, runs, RunSlot(q, r));
    var i :| 0 <= i < |slots| && slots[i] == RunSlot(q, r);
    SlotBounds(q.rangeStart, q.interval, r.time);
    b := bs[i];
  }

  lemma RawIsGenerous(sum: Summarize, q: Query, runs: seq<Run>)
    ensures Generous(Normalize(sum, q, runs), runs)
  {
    var bs, slots := Normalize(sum, q, runs), SlotsMet(q, runs);
    forall i | 0 <= i < |bs| ensures bs[i].stats.runs >= CountIn(bs[i], runs) {
      forall r | r in runs ensures RunInSlot(q, slots[i])(r) == RunsIn(bs[i])(r) {
        SlotBounds(q.rangeStart, q.interval, r.time);
        if Covers(bs[i], r) {
          SlotUnique(q.rangeStart, q.interval, r.time, slots[i]);
        }
      }
      FilterSame(RunInSlot(q, slots[i]), RunsIn(bs[i]), runs);
    }
  }

  /** A bucket that meets no raw bucket holds none of the raw runs. */
  lemma OthersHoldNone(sum: Summarize, q: Query, runs: seq<Run>, b: Bucket)
    requires !Meets(b, Normalize(sum, q, runs))
    ensures CountIn(b, runs) == 0
  {
    forall r | r in runs ensures !RunsIn(b)(r) {
      var c := RawBucketAround(sum, q, runs, r);
      assert !Overlap(RangeOf(b), RangeOf(c));
    }
    FilterNone(RunsIn(b), runs);
  }

  /** Whatever is stored, the chart counts every raw run of the range. */
  lemma ChartShowsRawRuns(reg: Option<Registry>, sum: Summarize, attached: Attached, q: Query, runs: seq<Run>,
                          rows: seq<Aggregate>)
    ensures StatsOf(Shown(reg, sum, attached, q, runs, rows)).runs >= |SelectRuns(q, runs)|
  {
    RowBucketsNonEmpty(attached, SelectRows(q, rows, HourSize));
    RowBucketsNonEmpty(attached, SelectRows(q, rows, DaySize));
    MergedShowsRawRuns(sum, q, SelectRuns(q, runs),
                       RowBuckets(attached, SelectRows(q, rows, HourSize)), RowBuckets(attached, SelectRows(q, rows, DaySize)));
    ShownConserves(reg, sum, attached, q, runs, rows);
  }

  lemma RowBucketsNonEmpty(attached: Attached, rows: seq<Aggregate>)
    ensures NonEmptyBuckets(RowBuckets(attached, rows))
  {
  }

  lemma MergedShowsRawRuns(sum: Summarize, q: Query, runs: seq<Run>, hourly: seq<Bucket>, daily: seq<Bucket>)
    requires NonEmptyBuckets(hourly) && NonEmptyBuckets(daily)
    ensures StatsOf(MergeTiers(Normalize(sum, q, runs), hourly, daily)).runs >= |runs|
  {
    var raw := Normalize(sum, q, runs);
    var m := MergeTiers(raw, hourly, daily);
    NormalizedShape(sum, q, runs);
    RawIsGenerous(sum, q, runs);
    forall i | 0 <= i < |m| ensures m[i].stats.runs >= CountIn(m[i], runs) {
      MergeTiersMembers(raw, hourly, daily, m[i]);
      if m[i] !in raw {
        OthersHoldNone(sum, q, runs, m[i]);
      }
    }
    GenerousTotal(m, runs);
    forall i | 0 <= i < |runs| ensures exists b <- m :: Covers(b, runs[i]) {
      var b := RawBucketAround(sum, q, runs, runs[i]);
      MergeTiersMembers(raw, hourly, daily, b);
    }
    CoveredCountAll(m, runs);
  }

  // ------------------------------------------------ exactly what is shown

  /** A bucket meets the raw buckets exactly when the slot of some raw run reaches into it. */
  lemma MeetsRawIff(sum: Summarize, q: Query, runs: seq<Run>, b: Bucket)
    ensures Meets(b, Normalize(sum, q, runs)) <==> exists r <- runs :: Overlap(RangeOf(b), SlotRange(q, r))
  {
    var bs, slots := Normalize(sum, q, runs), SlotsMet(q, runs);
    SlotsMetShape(q, runs);
    if x :| x in bs && Overlap(RangeOf(b), RangeOf(x)) {
      var i :| 0 <= i < |bs| && bs[i] == x;
      assert slots[i] in slots;
      var r := SlotRuns(q, runs, slots[i])[0];
      assert r in SlotRuns(q, runs, slots[i]) && RunInSlot(q, slots[i])(r);
      assert r in runs && SlotRange(q, r) == RangeOf(x);
    }
    if r :| r in runs && Overlap(RangeOf(b), SlotRange(q, r)) {
      var x := RawBucketAround(sum, q, runs, r);
      assert x in bs && Overlap(RangeOf(b), RangeOf(x));
    }
  }

  /** The stored rows that the merge keeps. */
  function StoredRows(raw: seq<Bucket>, hourly: seq<Bucket>, daily: seq<Bucket>): seq<Bucket> {
    KeptHourly(raw, hourly) + KeptDaily(raw, hourly, daily)
  }

  /** A stored row is shown exactly when the slot of no raw run reaches into it and, for
      a daily one, no hourly row either; otherwise it is hidden as a whole. */
  lemma StoredRowShownIff(sum: Summarize, q: Query, runs: seq<Run>, hourly: seq<Bucket>, daily: seq<Bucket>, b: Bucket)
    requires NonEmptyBuckets(hourly) && NonEmptyBuckets(daily)
    ensures b in StoredRows(Normalize(sum, q, runs), hourly, daily) <==>
      && (b in hourly || (b in daily && forall h <- hourly :: !Overlap(RangeOf(b), RangeOf(h))))
      && forall r <- runs :: !Overlap(RangeOf(b), SlotRange(q, r))
  {
    var raw := Normalize(sum, q, runs);
    NormalizedShape(sum, q, runs);
    MeetsRawIff(sum, q, runs, b);
    if b in hourly || b in daily {
      assert b.start < b.end;
      RawTest(b, raw);
      SortedRangesAny(RangeOf(b), hourly);
    }
    if b in hourly && FreeOfRaw(raw)(b) {
      FilterKeeps(FreeOfRaw(raw), hourly, b);
    }
    if b in daily && FreeOfBoth(raw, hourly)(b) {
      FilterKeeps(FreeOfBoth(raw, hourly), daily, b);
    }
  }

  predicate CoveredBy(bs: seq<Bucket>, r: Run) { exists b <- bs :: Covers(b, r) }

  function InSome(bs: seq<Bucket>): Run -> bool { (r: Run) => CoveredBy(bs, r) }

  /** All that the chart stands for: the raw runs, and the runs of the shown rows. */
  function Told(runs: seq<Run>, shown: seq<Bucket>, history: seq<Run>): seq<Run> {
    runs + Filter(InSome(shown), history)
  }

  lemma CountTold(b: Bucket, runs: seq<Run>, shown: seq<Bucket>, history: seq<Run>)
    ensures CountIn(b, Told(runs, shown, history)) == CountIn(b, runs) + CountIn(b, Filter(InSome(shown), history))
  {
    FilterAppend(RunsIn(b), runs, Filter(InSome(shown), history));
  }

  lemma ShownRowTold(b: Bucket, shown: seq<Bucket>, history: seq<Run>)
    requires b in shown
    ensures CountIn(b, Filter(InSome(shown), history)) == CountIn(b, history)
  {
    FilterFilter(RunsIn(b), InSome(shown), RunsIn(b), history);
  }

  lemma OtherRowUntold(b: Bucket, shown: seq<Bucket>, history: seq<Run>)
    requires forall x <- shown :: !Overlap(RangeOf(b), RangeOf(x))
    ensures CountIn(b, Filter(InSome(shown), history)) == 0
  {
    forall r | r in Filter(InSome(shown), history) ensures !RunsIn(b)(r) {
      assert InSome(shown)(r) && CoveredBy(shown, r);
    }
    FilterNone(RunsIn(b), Filter(InSome(shown), history));
  }

  /** Stored rows that claim exactly the runs of their interval. */
  ghost predicate Exactly(bs: seq<Bucket>, history: seq<Run>) {
    forall i | 0 <= i < |bs| :: bs[i].stats.runs == CountIn(bs[i], history)
  }

  ghost predicate Tidy(bs: seq<Bucket>, history: seq<Run>) { NonEmptyBuckets(bs) && Disjoint(bs) && Exactly(bs, history) }

  /** Every merged bucket counts exactly the told runs of its interval. */
  lemma MergedTellsExactly(sum: Summarize, q: Query, runs: seq<Run>, hourly: seq<Bucket>, daily: seq<Bucket>,
                           history: seq<Run>, b: Bucket)
    requires Tidy(hourly, history) && Tidy(daily, history)
    requires b in MergeTiers(Normalize(sum, q, runs), hourly, daily)
    ensures b.stats.runs == CountIn(b, Told(runs, StoredRows(Normalize(sum, q, runs), hourly, daily), history))
  {
    var raw := Normalize(sum, q, runs);
    var shown := StoredRows(raw, hourly, daily);
    CountTold(b, runs, shown, history);
    NormalizedShape(sum, q, runs);
    MergeTiersMembers(raw, hourly, daily, b);
    if b in raw {
      RawTellsExactly(sum, q, runs, b);
      forall x | x in shown ensures !Overlap(RangeOf(b), RangeOf(x)) {
        ShownMeetsNoRaw(sum, q, runs, hourly, daily, x);
      }
      OtherRowUntold(b, shown, history);
    } else {
      OthersHoldNone(sum, q, runs, b);
      MeetsRawIff(sum, q, runs, b);
      StoredRowShownIff(sum, q, runs, hourly, daily, b);
      ShownRowTold(b, shown, history);
    }
  }

  lemma RawTellsExactly(sum: Summarize, q: Query, runs: seq<Run>, b: Bucket)
    requires b in Normalize(sum, q, runs)
    ensures b.stats.runs == CountIn(b, runs)
  {
    RawIsGenerous(sum, q, runs);
    RawIsHonest(sum, q, runs, runs);
  }

  lemma ShownMeetsNoRaw(sum: Summarize, q: Query, runs: seq<Run>, hourly: seq<Bucket>, daily: seq<Bucket>, x: Bucket)
    requires NonEmptyBuckets(hourly) && NonEmptyBuckets(daily) && x in StoredRows(Normalize(sum, q, runs), hourly, daily)
    ensures !Meets(x, Normalize(sum, q, runs))
  {
    StoredRowShownIff(sum, q, runs, hourly, daily, x);
    MeetsRawIff(sum, q, runs, x);
  }

  /** The runs shown are the raw runs and the runs of the shown rows, each once. */
  lemma MergedShowsExactly(sum: Summarize, q: Query, runs: seq<Run>, hourly: seq<Bucket>, daily: seq<Bucket>, history: seq<Run>)
    requires Tidy(hourly, history) && Tidy(daily, history)
    ensures var raw := Normalize(sum, q, runs);
      StatsOf(MergeTiers(raw, hourly, daily)).runs
        == |runs| + |Filter(InSome(StoredRows(raw, hourly, daily)), history)|
  {
    var raw := Normalize(sum, q, runs);
    var m, told := MergeTiers(raw, hourly, daily), Told(runs, StoredRows(raw, hourly, daily), history);
    forall i | 0 <= i < |m| ensures m[i].stats.runs == CountIn(m[i], told) {
      MergedTellsExactly(sum, q, runs, hourly, daily, history, m[i]);
    }
    GenerousTotal(m, told);
    HonestTotal(m, told);
    NormalizedShape(sum, q, runs);
    RawDisjoint(raw);
    MergeTiersDisjoint(raw, hourly, daily);
    DisjointCountOnce(m, told);
    ToldCovered(sum, q, runs, hourly, daily, history, told, m);
  }

  lemma {:induction false} ToldCovered(sum: Summarize, q: Query, runs: seq<Run>, hourly: seq<Bucket>, daily: seq<Bucket>,
                                       history: seq<Run>, told: seq<Run>, m: seq<Bucket>)
    requires NonEmptyBuckets(hourly) && NonEmptyBuckets(daily) && m == MergeTiers(Normalize(sum, q, runs), hourly, daily)
    requires forall r <- told :: r in Told(runs, StoredRows(Normalize(sum, q, runs), hourly, daily), history)
    ensures TotalIn(m, told) >= |told|
  {
    if told == [] {
      TotalEmpty(m);
    } else {
      var front, r := told[..|told| - 1], told[|told| - 1];
      assert told == front + [r];
      ToldCovered(sum, q, runs, hourly, daily, history, front, m);
      TotalSnoc(m, front, r);
      var b := ToldIsCovered(sum, q, runs, hourly, daily, history, r);
      var i :| 0 <= i < |m| && m[i] == b;
      HitSome(m, r, i);
    }
  }

  lemma RawDisjoint(raw: seq<Bucket>)
    requires forall i, j | 0 <= i < j < |raw| :: raw[i].end <= raw[j].start || raw[j].end <= raw[i].start
    ensures Disjoint(raw)
  {
  }

  lemma ToldIsCovered(sum: Summarize, q: Query, runs: seq<Run>, hourly: seq<Bucket>, daily: seq<Bucket>,
                      history: seq<Run>, r: Run) returns (b: Bucket)
    requires NonEmptyBuckets(hourly) && NonEmptyBuckets(daily)
    requires r in Told(runs, StoredRows(Normalize(sum, q, runs), hourly, daily), history)
    ensures b in MergeTiers(Normalize(sum, q, runs), hourly, daily) && Covers(b, r)
  {
    var raw := Normalize(sum, q, runs);
    NormalizedShape(sum, q, runs);
    if r in runs {
      b := RawBucketAround(sum, q, runs, r);
      MergeTiersMembers(raw, hourly, daily, b);
    } else {
      assert InSome(StoredRows(raw, hourly, daily))(r) && CoveredBy(StoredRows(raw, hourly, daily), r);
      b :| b in StoredRows(raw, hourly, daily) && Covers(b, r);
      SortByMembers(BucketKey(), raw + KeptHourly(raw, hourly) + KeptDaily(raw, hourly, daily), b);
    }
  }

  // ---------------------------------------------------------------- multisets

  lemma TakeOut(p: Run -> bool, b: seq<Run>, x: Run) returns (others: seq<Run>)
    requires x in b
    ensures multiset(b) == multiset(others) + multiset{x}
    ensures |Filter(p, b)| == |Filter(p, others)| + if p(x) then 1 else 0
  {
    var k :| 0 <= k < |b| && b[k] == x;
    others := b[..k] + b[k + 1..];
    assert b == b[..k] + ([x] + b[k + 1..]);
    FilterAppend(p, b[..k], [x] + b[k + 1..]);
    FilterAppend(p, [x], b[k + 1..]);
    FilterAppend(p, b[..k], b[k + 1..]);
  }

  lemma {:induction false} FilterSubset(p: Run -> bool, a: seq<Run>, b: seq<Run>)
    requires multiset(a) <= multiset(b)
    ensures |Filter(p, a)| <= |Filter(p, b)|
    decreases |a|
  {
    if a != [] {
      var x := a[0];
      assert x in multiset(a) && x in b;
      var a' := TakeOut(p, a, x);
      var b' := TakeOut(p, b, x);
      assert |a'| < |a| by { assert |multiset(a)| == |multiset(a')| + 1; }
      assert multiset(a') == multiset(a) - multiset{x} && multiset(b') == multiset(b) - multiset{x};
      FilterSubset(p, a', b');
    }
  }
}
