/** Availability over the last 31 and 365 days, read from the stored rows, and
    which stored rows the query does not see. */
module Availability {
  import opened Sequences
  import opened Buckets
  import opened RawRuns
  import opened HourlyRows
  import opened Retention

  datatype Count = Count(runs: nat, healthy: nat)

  function AddCount(a: Count, b: Count): Count { Count(a.runs + b.runs, a.healthy + b.healthy) }

  function CountAdder(): (Count, Count) -> Count { (a, b) => AddCount(a, b) }

  function RowCount(a: Aggregate): Count { Count(a.row.runs, a.row.healthy) }

  function CountWhere(p: Aggregate -> bool, rows: seq<Aggregate>): Count {
    Fold(CountAdder(), Count(0, 0), RowCount, Filter(p, rows))
  }

  lemma CountMonoid()
    ensures CommutativeMonoid(CountAdder(), Count(0, 0))
  {
    forall a, b, c ensures LawsAt(CountAdder(), Count(0, 0), a, b, c) {
    }
  }

  /** The two selects: hourly rows from the retention limit on, daily rows of the
      last 365 days before it. */
  predicate Selected(now: int, hourlyDays: nat, a: Aggregate) {
    if a.size.HourSize? then a.start >= now - hourlyDays * DAY
    else now - 365 * DAY <= a.start < now - hourlyDays * DAY
  }

  function SeenSince(now: int, hourlyDays: nat, cutoff: int): Aggregate -> bool {
    (a: Aggregate) => Selected(now, hourlyDays, a) && a.start >= cutoff
  }

  /** All selected rows. */
  function Seen(now: int, hourlyDays: nat): Aggregate -> bool {
    (a: Aggregate) => Selected(now, hourlyDays, a)
  }

  /** Percentages; None stands for null. */
  function Percentage(c: Count): Option<real> {
    if c.runs > 0 then Some(c.healthy as real / c.runs as real * 100.0) else None
  }

  datatype Availability = Availability(availability31: Option<real>, availability365: Option<real>, runs31: nat, runs365: nat)

  // ------------------------------------------------------ row by row

  /** Rows counted over 365 days: hourly ones from the retention limit on, however old, and
      daily ones before it. */
  function In365(now: int, hourlyDays: nat): Aggregate -> bool {
    (a: Aggregate) =>
      var limit := now - hourlyDays * 86_400_000;
      match a.size
      case HourSize => a.start >= limit
      case DaySize => a.start < limit && a.start >= now - 31_536_000_000
  }

  /** Those of them of the last 31 days. */
  function In31(now: int, hourlyDays: nat): Aggregate -> bool {
    (a: Aggregate) => In365(now, hourlyDays)(a) && a.start >= now - 2_678_400_000
  }

  function RunsWhere(p: Aggregate -> bool): Aggregate -> int { (a: Aggregate) => if p(a) then a.row.runs else 0 }

  function HealthyWhere(p: Aggregate -> bool): Aggregate -> int { (a: Aggregate) => if p(a) then a.row.healthy else 0 }

  /** The runs counted, and the share of healthy ones in percent: nothing without runs. */
  ghost predicate Reports(share: Option<real>, runs: nat, p: Aggregate -> bool, rows: seq<Aggregate>) {
    && runs == SumBy(RunsWhere(p), rows)
    && (share.None? <==> runs == 0)
    && (share.Some? ==> share.value * runs as real == 100.0 * SumBy(HealthyWhere(p), rows) as real)
  }

  lemma {:induction false} CountIsSum(p: Aggregate -> bool, rows: seq<Aggregate>)
    ensures CountWhere(p, rows).runs == SumBy(RunsWhere(p), rows)
    ensures CountWhere(p, rows).healthy == SumBy(HealthyWhere(p), rows)
    decreases |rows|
  {
    if rows != [] {
      var front, a := rows[..|rows| - 1], rows[|rows| - 1];
      assert rows == front + [a];
      CountIsSum(p, front);
      CountSnoc(p, front, a);
      SumBySnoc(RunsWhere(p), front, a);
      SumBySnoc(HealthyWhere(p), front, a);
    }
  }

  lemma SameSelection(rows: seq<Aggregate>, now: int, hourlyDays: nat)
    ensures forall a <- rows :: Seen(now, hourlyDays)(a) == In365(now, hourlyDays)(a)
    ensures forall a <- rows :: SeenSince(now, hourlyDays, now - 31 * DAY)(a) == In31(now, hourlyDays)(a)
  {
    forall a | a in rows ensures Seen(now, hourlyDays)(a) == In365(now, hourlyDays)(a) {
      assert Selected(now, hourlyDays, a) == In365(now, hourlyDays)(a);
    }
  }

  lemma PercentageReports(p: Aggregate -> bool, q: Aggregate -> bool, rows: seq<Aggregate>)
    requires forall a <- rows :: p(a) == q(a)
    ensures var c := CountWhere(p, rows); Reports(Percentage(c), c.runs, q, rows)
  {
    FilterSame(p, q, rows);
    CountIsSum(q, rows);
    var c := CountWhere(p, rows);
    if c.runs > 0 {
      var share := c.healthy as real / c.runs as real;
      assert share * c.runs as real == c.healthy as real;
    }
  }

  /** `getAvailabilityStats`: one loop per select, adding to running totals. */
  method GetAvailabilityStats(rows: seq<Aggregate>, now: int, hourlyDays: nat) returns (stats: Availability)
    ensures var c31 := CountWhere(SeenSince(now, hourlyDays, now - 31 * DAY), rows);
      var c365 := CountWhere(Seen(now, hourlyDays), rows);
      stats == Availability(Percentage(c31), Percentage(c365), c31.runs, c365.runs)
    ensures Reports(stats.availability31, stats.runs31, In31(now, hourlyDays), rows)
    ensures Reports(stats.availability365, stats.runs365, In365(now, hourlyDays), rows)
  {
    SameSelection(rows, now, hourlyDays);
    PercentageReports(SeenSince(now, hourlyDays, now - 31 * DAY), In31(now, hourlyDays), rows);
    PercentageReports(Seen(now, hourlyDays), In365(now, hourlyDays), rows);
    var h31, h365 := SumLoop(rows, now, hourlyDays, HourSize);
    var d31, d365 := SumLoop(rows, now, hourlyDays, DaySize);
    SizesSplit(rows, SeenSince(now, hourlyDays, now - 31 * DAY));
    SizesSplit(rows, Seen(now, hourlyDays));
    var c31, c365 := AddCount(h31, d31), AddCount(h365, d365);
    stats := Availability(Percentage(c31), Percentage(c365), c31.runs, c365.runs);
  }

  function OfSize(p: Aggregate -> bool, size: Size): Aggregate -> bool {
    (a: Aggregate) => p(a) && a.size == size
  }

  lemma SizesSplit(rows: seq<Aggregate>, p: Aggregate -> bool)
    ensures CountWhere(p, rows) == AddCount(CountWhere(OfSize(p, HourSize), rows), CountWhere(OfSize(p, DaySize), rows))
  {
    CountMonoid();
    FoldSplit(CountAdder(), Count(0, 0), RowCount, rows, OfSize(p, HourSize), OfSize(p, DaySize), p);
  }

  lemma CountSnoc(p: Aggregate -> bool, rows: seq<Aggregate>, a: Aggregate)
    ensures CountWhere(p, rows + [a]) ==
      if p(a) then AddCount(CountWhere(p, rows), RowCount(a)) else CountWhere(p, rows)
  {
    FilterAppend(p, rows, [a]);
    var before := Filter(p, rows);
    assert Filter(p, [a]) == if p(a) then [a] else [];
    if p(a) {
      assert (before + [a])[..|before|] == before;
    } else {
      assert before + [] == before;
    }
  }

  method SumLoop(rows: seq<Aggregate>, now: int, hourlyDays: nat, size: Size) returns (c31: Count, c365: Count)
    ensures c31 == CountWhere(OfSize(SeenSince(now, hourlyDays, now - 31 * DAY), size), rows)
    ensures c365 == CountWhere(OfSize(Seen(now, hourlyDays), size), rows)
  {
    c31, c365 := Count(0, 0), Count(0, 0);
    for i := 0 to |rows|
      invariant c31 == CountWhere(OfSize(SeenSince(now, hourlyDays, now - 31 * DAY), size), rows[..i])
      invariant c365 == CountWhere(OfSize(Seen(now, hourlyDays), size), rows[..i])
    {
      var a := rows[i];
      assert rows[..i + 1] == rows[..i] + [a];
      CountSnoc(OfSize(SeenSince(now, hourlyDays, now - 31 * DAY), size), rows[..i], a);
      CountSnoc(OfSize(Seen(now, hourlyDays), size), rows[..i], a);
      if a.size == size && Selected(now, hourlyDays, a) {
        c365 := Count(c365.runs + a.row.runs, c365.healthy + a.row.healthy);
        if a.start >= now - 31 * DAY {
          c31 := Count(c31.runs + a.row.runs, c31.healthy + a.row.healthy);
        }
      }
    }
    assert rows[..|rows|] == rows;
  }

  // ---------------------------------------------------- rows the query misses

  function Recent(now: int): Aggregate -> bool {
    (a: Aggregate) => a.start >= now - 365 * DAY
  }

  /** Stored rows of the last 365 days that neither select returns. */
  function Missed(now: int, hourlyDays: nat): Aggregate -> bool {
    (a: Aggregate) => a.start >= now - 365 * DAY && !Selected(now, hourlyDays, a)
  }

  /** The 365-day count falls short of what is stored by exactly the missed rows. */
  lemma ShortBy(rows: seq<Aggregate>, now: int, hourlyDays: nat)
    requires hourlyDays <= 365
    ensures CountWhere(Recent(now), rows)
         == AddCount(CountWhere(Seen(now, hourlyDays), rows), CountWhere(Missed(now, hourlyDays), rows))
  {
    CountMonoid();
    forall a | a in rows
      ensures !(Seen(now, hourlyDays)(a) && Missed(now, hourlyDays)(a))
      ensures Recent(now)(a) <==> Seen(now, hourlyDays)(a) || Missed(now, hourlyDays)(a)
    {
      assert hourlyDays * DAY <= 365 * DAY;
    }
    FoldSplit(CountAdder(), Count(0, 0), RowCount, rows, Seen(now, hourlyDays), Missed(now, hourlyDays), Recent(now));
  }

  ghost predicate Increments(ops: seq<Op>) {
    forall i | 0 <= i < |ops| :: ops[i].Increment?
  }

  lemma {:induction false} IncrementsKeepHorizon(epoch: int, ops: seq<Op>, more: seq<Op>)
    requires Increments(more)
    ensures Exec(epoch, ops + more).horizon == Exec(epoch, ops).horizon
    decreases |more|
  {
    if more == [] {
      assert ops + more == ops;
    } else {
      var front, op := more[..|more| - 1], more[|more| - 1];
      assert ops + more == ops + front + [op];
      IncrementsKeepHorizon(epoch, ops, front);
      ExecSnoc(epoch, ops + front, op);
      IncrementKeepsHorizon(Exec(epoch, ops + front), op);
    }
  }

  lemma ExecSnoc(epoch: int, ops: seq<Op>, op: Op)
    ensures Exec(epoch, ops + [op]) == Apply(Exec(epoch, ops), op)
  {
    assert (ops + [op])[..|ops|] == ops;
  }

  lemma IncrementKeepsHorizon(w: World, op: Op)
    requires op.Increment?
    ensures Apply(w, op).horizon == w.horizon && Apply(w, op).rows == UpsertRows(w.rows, HourStart(op.time), op.seen, op.s)
  {
  }

  /** Any time after a job, until the next one with the same retention: the missed rows
      are the hourly rows from midnight of the job's retention day up to the retention
      limit of the query, and daily rows inside the hourly retention, which only an earlier
      job with a shorter one can have left. Up to a day after the job that is less
      than two days of hourly rows. */
  lemma MissedAfterJob(epoch: int, ops: seq<Op>, now: int, hourlyDays: nat, dailyDays: nat, more: seq<Op>, later: int,
                       a: Aggregate)
    requires AllInTime(epoch, ops + [Retain(now, hourlyDays, dailyDays)] + more) && Increments(more) && later >= now
    requires a in Exec(epoch, ops + [Retain(now, hourlyDays, dailyDays)] + more).rows && a.start >= later - 365 * DAY
    ensures a.size.HourSize? ==>
      (Missed(later, hourlyDays)(a) <==> HourlyCutoff(now, hourlyDays) <= a.start < later - hourlyDays * DAY)
    ensures a.size.DaySize? ==> (Missed(later, hourlyDays)(a) <==> a.start >= later - hourlyDays * DAY)
    ensures later < now + DAY ==> later - hourlyDays * DAY - HourlyCutoff(now, hourlyDays) < 2 * DAY
  {
    var op := Retain(now, hourlyDays, dailyDays);
    var job := ops + [op];
    assert job[..|job| - 1] == ops;
    StorageInvariant(epoch, job + more);
    IncrementsKeepHorizon(epoch, job, more);
    DayFacts(now - hourlyDays * DAY);
    var w := Exec(epoch, job + more);
    HorizonAfterJob(Exec(epoch, ops), op);
    if a.size.HourSize? {
      assert HourlyRowOk(w.horizon, a);
    }
  }

  lemma HorizonAfterJob(w: World, op: Op)
    requires op.Retain?
    ensures Apply(w, op).horizon >= HourlyCutoff(op.now, op.hourlyDays)
  {
  }

  /** Two runs on the first two days, and a job whose cutoff is the first midnight: just
      before the next job both are stored and neither is counted. */
  lemma StoredButNotCounted()
    ensures var first, second := Sample(Healthy, Some(20), 20, ""), Sample(Unhealthy, None, 0, "");
      var ops := [Increment(HOUR, NoRow, first), Increment(DAY + 22 * HOUR, NoRow, second)];
      var now, later := 30 * DAY + 23 * HOUR, 31 * DAY + 23 * HOUR - 1;
      var rows := Exec(0, ops).rows;
      && Rollup(rows, HourlyCutoff(now, 30)).0 == rows
      && CountWhere(Recent(later), rows) == Count(2, 1) && CountWhere(Seen(later, 30), rows) == Count(0, 0)
  {
    var first, second := Sample(Healthy, Some(20), 20, ""), Sample(Unhealthy, None, 0, "");
    var now, later := 30 * DAY + 23 * HOUR, 31 * DAY + 23 * HOUR - 1;
    var a := Aggregate(HourSize, HOUR, Upsert(None, NoRow, first));
    var b := Aggregate(HourSize, DAY + 22 * HOUR, Upsert(None, NoRow, second));
    assert HourStart(HOUR) == HOUR && HourStart(DAY + 22 * HOUR) == DAY + 22 * HOUR;
    var one, two := Increment(HOUR, NoRow, first), Increment(DAY + 22 * HOUR, NoRow, second);
    FirstHour(one, a);
    SecondHour(Exec(0, [one]), two, a, b);
    SnocOf(0, [one], two, [one, two]);
    CountsOfTwo(a, b, now, later);
  }

  lemma CountsOfTwo(a: Aggregate, b: Aggregate, now: int, later: int)
    requires a.size.HourSize? && a.start == HOUR && a.row.runs == a.row.healthy == 1
    requires b.size.HourSize? && b.start == DAY + 22 * HOUR && b.row.runs == 1 && b.row.healthy == 0
    requires now == 30 * DAY + 23 * HOUR && later == 31 * DAY + 23 * HOUR - 1
    ensures Rollup([a, b], HourlyCutoff(now, 30)).0 == [a, b]
    ensures CountWhere(Recent(later), [a, b]) == Count(2, 1) && CountWhere(Seen(later, 30), [a, b]) == Count(0, 0)
  {
    assert HourlyCutoff(now, 30) == 0;
    FilterNone(IsOld(0), [a, b]);
    FilterAll(Recent(later), [a, b]);
    FilterNone(Seen(later, 30), [a, b]);
    FoldTwo(a, b);
  }

  lemma SecondHour(w: World, two: Op, a: Aggregate, b: Aggregate)
    requires two.Increment? && b == Aggregate(HourSize, HourStart(two.time), Upsert(None, two.seen, two.s))
    requires w.rows == [a] && a.size.HourSize? && a.start != b.start
    ensures Apply(w, two).rows == [a, b]
  {
    IncrementKeepsHorizon(w, two);
    UpsertSecond(a, b, two.seen, two.s);
  }

  lemma SnocOf(epoch: int, ops: seq<Op>, op: Op, all: seq<Op>)
    requires all == ops + [op]
    ensures Exec(epoch, all) == Apply(Exec(epoch, ops), op)
  {
    ExecSnoc(epoch, ops, op);
  }

  lemma FirstHour(one: Op, a: Aggregate)
    requires one.Increment? && a == Aggregate(HourSize, HourStart(one.time), Upsert(None, one.seen, one.s))
    ensures Exec(0, [one]).rows == [a]
  {
    ExecSnoc(0, [], one);
    assert [] + [one] == [one];
  }

  lemma UpsertSecond(a: Aggregate, b: Aggregate, seen: Snapshot, s: Sample)
    requires a.size.HourSize? && a.start != b.start && b == Aggregate(HourSize, b.start, Upsert(None, seen, s))
    ensures UpsertRows([a], b.start, seen, s) == [a, b]
  {
    assert [a][1..] == [];
  }

  lemma FoldTwo(a: Aggregate, b: Aggregate)
    ensures Fold(CountAdder(), Count(0, 0), RowCount, [a, b]) == AddCount(RowCount(a), RowCount(b))
  {
    assert [a, b][..1] == [a] && [a][..0] == [];
    assert Fold(CountAdder(), Count(0, 0), RowCount, [a]) == RowCount(a);
  }
}
