/** The aggregate table against the runs it was built from: over every run of the
    system each stored row counts exactly the runs of its hour or day, and how often a
    chart drawn from it and the raw rows shows each run. */
module Ledger {
  import opened Sequences
  import opened AggregatedResults
  import opened Buckets
  import opened Regrouping
  import opened RawRuns
  import opened Tiers
  import opened HourlyRows
  import opened Retention
  import opened Charts

  /** The run as an increment counts it. */
  function RunOf(op: Op): Run
    requires op.Increment?
  {
    Run(op.s.status, op.time, op.s.latency, op.s.metadata)
  }

  function LogOf(ops: seq<Op>): seq<Run> {
    if ops == [] then []
    else LogOf(ops[..|ops| - 1]) + if ops[|ops| - 1].Increment? then [RunOf(ops[|ops| - 1])] else []
  }

  function RunCounts(r: Run): Counts {
    Counts(1, One(r.status, Healthy), One(r.status, Degraded), One(r.status, Unhealthy),
           if r.latency.Some? then r.latency.value else 0)
  }

  function CountsAdder(): (Counts, Counts) -> Counts { (a, b) => AddCounts(a, b) }

  const NO_COUNTS := Counts(0, 0, 0, 0, 0)

  function SumRuns(log: seq<Run>): Counts { Fold(CountsAdder(), NO_COUNTS, RunCounts, log) }

  lemma CountsMonoid()
    ensures CommutativeMonoid(CountsAdder(), NO_COUNTS)
  {
    forall a, b, c ensures LawsAt(CountsAdder(), NO_COUNTS, a, b, c) {
    }
  }

  function InHour(start: int): Run -> bool { (r: Run) => HourStart(r.time) == start }
  function InDay(start: int): Run -> bool { (r: Run) => DayStart(r.time) == start }

  function HourCounts(log: seq<Run>, start: int): Counts { SumRuns(Filter(InHour(start), log)) }
  function DayCounts(log: seq<Run>, start: int): Counts { SumRuns(Filter(InDay(start), log)) }

  function RowCounts(a: Aggregate): Counts { CountsOf(RowTally(a.row)) }

  ghost predicate RowExact(log: seq<Run>, a: Aggregate) {
    RowCounts(a) == if a.size.HourSize? then HourCounts(log, a.start) else DayCounts(log, a.start)
  }

  ghost predicate HasHour(rows: seq<Aggregate>, start: int) {
    exists a <- rows :: a.size.HourSize? && a.start == start
  }

  /** Every row is exact; every run not yet rolled up has its hourly row. */
  ghost predicate Exact(w: World, log: seq<Run>) {
    && (forall a <- w.rows :: RowExact(log, a))
    && (forall r <- log :: r.time >= w.horizon ==> HasHour(w.rows, HourStart(r.time)))
  }

  lemma SumSnocIf(p: Run -> bool, log: seq<Run>, r: Run)
    ensures SumRuns(Filter(p, log + [r])) ==
      if p(r) then AddCounts(SumRuns(Filter(p, log)), RunCounts(r)) else SumRuns(Filter(p, log))
  {
    FilterAppend(p, log, [r]);
    var before := Filter(p, log);
    assert Filter(p, [r]) == if p(r) then [r] else [];
    if p(r) {
      assert (before + [r])[..|before|] == before;
    } else {
      assert before + [] == before;
    }
  }

  // ---------------------------------------------------------------- increments

  lemma HourUncounted(w: World, log: seq<Run>, start: int)
    requires Exact(w, log) && start >= w.horizon && !HasHour(w.rows, start)
    ensures HourCounts(log, start) == NO_COUNTS
  {
    forall r | r in log ensures !InHour(start)(r) {
      assert HourStart(r.time) <= r.time;
    }
    FilterNone(InHour(start), log);
  }

  lemma UpsertIsExact(w: World, log: seq<Run>, op: Op, a: Aggregate)
    requires StoreInv(w) && Exact(w, log) && op.Increment? && InTime(w, op)
    requires a in UpsertRows(w.rows, HourStart(op.time), op.seen, op.s)
    ensures RowExact(log + [RunOf(op)], a)
  {
    var start, r := HourStart(op.time), RunOf(op);
    HourFacts(op.time, w.horizon);
    if a.size.DaySize? {
      UpsertKeepsHourly(w.rows, w.horizon, start, op.seen, op.s);
      assert a in w.rows && DayClosed(w.horizon, a.start) && RowExact(log, a);
      DayBefore(op.time, w.horizon);
      SumSnocIf(InDay(a.start), log, r);
    } else {
      SumSnocIf(InHour(a.start), log, r);
      UpsertFate(w.rows, start, op.seen, op.s, a);
      if a.start == start {
        if HasHour(w.rows, start) {
          var b :| b in w.rows && b.size.HourSize? && b.start == start && a.row == Upsert(Some(b.row), op.seen, op.s);
          assert RowExact(log, b) && HourlyRowOk(w.horizon, b);
          UpsertRowCounts(Some(b.row), op.seen, op.s);
        } else {
          HourUncounted(w, log, start);
          UpsertRowCounts(None, op.seen, op.s);
        }
      } else {
        assert a in w.rows && RowExact(log, a);
      }
    }
  }

  /** What an hourly row after the upsert was before it. */
  lemma {:induction false} UpsertFate(rows: seq<Aggregate>, start: int, seen: Snapshot, s: Sample, a: Aggregate)
    requires a in UpsertRows(rows, start, seen, s) && a.size.HourSize? && UniqueKeys(rows)
    ensures a.start != start ==> a in rows
    ensures a.start == start && !HasHour(rows, start) ==> a.row == Upsert(None, seen, s)
    ensures a.start == start && HasHour(rows, start) ==>
      exists b <- rows :: b.size.HourSize? && b.start == start && a.row == Upsert(Some(b.row), seen, s)
  {
    if rows == [] {
    } else if rows[0].size.HourSize? && rows[0].start == start {
      assert rows[0] in rows;
      if a in rows[1..] {
        var j :| 0 <= j < |rows[1..]| && rows[1..][j] == a;
        assert rows[j + 1] == a;
      }
    } else {
      if a != rows[0] {
        UpsertFate(rows[1..], start, seen, s, a);
      }
      assert HasHour(rows, start) <==> HasHour(rows[1..], start) by {
        if b :| b in rows && b.size.HourSize? && b.start == start {
          assert b in rows[1..];
        }
      }
    }
  }

  lemma {:induction false} UpsertHours(rows: seq<Aggregate>, start: int, seen: Snapshot, s: Sample)
    ensures HasHour(UpsertRows(rows, start, seen, s), start)
    ensures forall h :: HasHour(rows, h) ==> HasHour(UpsertRows(rows, start, seen, s), h)
  {
    var out := UpsertRows(rows, start, seen, s);
    if rows == [] {
      assert out[0] in out;
    } else if rows[0].size.HourSize? && rows[0].start == start {
      assert out[0] in out;
      forall h | HasHour(rows, h) ensures HasHour(out, h) {
        var b :| b in rows && b.size.HourSize? && b.start == h;
        if b != rows[0] {
          assert b in rows[1..];
        }
      }
    } else {
      var rest := UpsertRows(rows[1..], start, seen, s);
      UpsertHours(rows[1..], start, seen, s);
      forall h | HasHour(rest, h) ensures HasHour(out, h) {
        var b :| b in rest && b.size.HourSize? && b.start == h;
        assert b in out;
      }
      forall h | HasHour(rows, h) ensures HasHour(out, h) {
        var b :| b in rows && b.size.HourSize? && b.start == h;
        if b == rows[0] {
          assert out[0] in out;
        } else {
          assert b in rows[1..];
          assert HasHour(rows[1..], h);
        }
      }
    }
  }

  lemma IncrementStaysExact(w: World, log: seq<Run>, op: Op)
    requires StoreInv(w) && Exact(w, log) && op.Increment? && InTime(w, op)
    ensures Exact(Apply(w, op), log + [RunOf(op)])
  {
    var start := HourStart(op.time);
    UpsertHours(w.rows, start, op.seen, op.s);
    forall a | a in Apply(w, op).rows ensures RowExact(log + [RunOf(op)], a) {
      UpsertIsExact(w, log, op, a);
    }
  }

  // ------------------------------------------------------------------ roll-up

  function InHoursOf(group: seq<Aggregate>): Run -> bool {
    (r: Run) => exists i :: 0 <= i < |group| && group[i].start == HourStart(r.time)
  }

  lemma TallyCountsSnoc(front: seq<Aggregate>, a: Aggregate)
    ensures CountsOf(TallyOf(front + [a])) == AddCounts(CountsOf(TallyOf(front)), RowCounts(a))
  {
    TallySnoc(front, a);
  }

  /** The hourly rows of distinct hours together count the runs of these hours. */
  lemma {:induction false} GroupCounts(log: seq<Run>, group: seq<Aggregate>)
    requires UniqueKeys(group)
    requires forall i | 0 <= i < |group| :: group[i].size.HourSize? && RowExact(log, group[i])
    ensures CountsOf(TallyOf(group)) == SumRuns(Filter(InHoursOf(group), log))
  {
    if group == [] {
      FilterNone(InHoursOf(group), log);
    } else {
      var front, a := group[..|group| - 1], group[|group| - 1];
      assert group == front + [a];
      GroupCounts(log, front);
      TallyCountsSnoc(front, a);
      CountsMonoid();
      forall r | r in log
        ensures !(InHoursOf(front)(r) && InHour(a.start)(r))
        ensures InHoursOf(group)(r) <==> InHoursOf(front)(r) || InHour(a.start)(r)
      {
        HoursSplit(front, a, r);
      }
      FoldSplit(CountsAdder(), NO_COUNTS, RunCounts, log, InHoursOf(front), InHour(a.start), InHoursOf(group));
    }
  }

  lemma HoursSplit(front: seq<Aggregate>, a: Aggregate, r: Run)
    requires UniqueKeys(front + [a]) && forall i | 0 <= i < |front + [a]| :: (front + [a])[i].size.HourSize?
    ensures !(InHoursOf(front)(r) && InHour(a.start)(r))
    ensures InHoursOf(front + [a])(r) <==> InHoursOf(front)(r) || InHour(a.start)(r)
  {
    var group := front + [a];
    assert group[|front|] == a;
    if i :| 0 <= i < |front| && front[i].start == HourStart(r.time) {
      assert group[i] == front[i] && group[i].start != a.start;
    }
  }

  lemma SameDaySameHour(t: int, day: int)
    requires day % DAY == 0
    ensures DayStart(HourStart(t)) == DayStart(t)
  {
    DayFacts(t);
    HourFacts(t, DayStart(t));
    SameDay(DayStart(t), HourStart(t));
  }

  lemma SameDay(day: int, t: int)
    requires day % DAY == 0 && day <= t < day + DAY
    ensures DayStart(t) == day
  {
    DayFacts(t);
    var a, b := day / DAY, t / DAY;
    assert day == a * DAY && DayStart(t) == b * DAY;
  }

  /** The daily row of a rolled day counts the runs of that day. */
  lemma DailyRowIsExact(w: World, log: seq<Run>, cutoff: int, day: int)
    requires StoreInv(w) && Exact(w, log) && day % DAY == 0 && w.horizon <= day && day + DAY <= cutoff
    ensures RowExact(log, DailyRow(w.rows, cutoff, day))
  {
    var group := Filter(OldOfDay(cutoff, day), w.rows);
    UniqueFilter(OldOfDay(cutoff, day), w.rows);
    forall i | 0 <= i < |group| ensures group[i].size.HourSize? && RowExact(log, group[i]) {
      assert group[i] in w.rows;
    }
    GroupCounts(log, group);
    forall r | r in log ensures InHoursOf(group)(r) == InDay(day)(r) {
      RunInGroup(w, log, cutoff, day, r);
    }
    FilterSame(InHoursOf(group), InDay(day), log);
    forall a | a in group ensures RowLatency(a.row) >= 0 {
      assert a in w.rows && HourlyRowOk(w.horizon, a);
    }
    TallyNotNegative(group);
    RollRowKeepsTally(TallyOf(group));
  }

  lemma RunInGroup(w: World, log: seq<Run>, cutoff: int, day: int, r: Run)
    requires StoreInv(w) && Exact(w, log) && r in log && day % DAY == 0 && w.horizon <= day && day + DAY <= cutoff
    ensures InHoursOf(Filter(OldOfDay(cutoff, day), w.rows))(r) == InDay(day)(r)
  {
    var group := Filter(OldOfDay(cutoff, day), w.rows);
    SameDaySameHour(r.time, day);
    if InDay(day)(r) {
      DayFacts(r.time);
      var a :| a in w.rows && a.size.HourSize? && a.start == HourStart(r.time);
      HourFacts(r.time, day);
      FilterKeeps(OldOfDay(cutoff, day), w.rows, a);
      var i :| 0 <= i < |group| && group[i] == a;
    }
    if i :| 0 <= i < |group| && group[i].start == HourStart(r.time) {
      assert group[i] in group;
    }
  }

  lemma RollStaysExact(w: World, log: seq<Run>, cutoff: int)
    requires StoreInv(w) && Exact(w, log) && cutoff % DAY == 0
    ensures Exact(RollWorld(w, cutoff).0, log)
  {
    var days := DaysMet(Filter(IsOld(cutoff), w.rows));
    RolledDays(w, cutoff);
    NoConflict(w, days);
    RollDaysKeep(w.rows, cutoff, days);
    var after := RollWorld(w, cutoff).0;
    forall a | a in after.rows ensures RowExact(log, a) {
      if a !in w.rows {
        DailyRowIsExact(w, log, cutoff, a.start);
      }
    }
    forall r | r in log && r.time >= after.horizon ensures HasHour(after.rows, HourStart(r.time)) {
      var a :| a in w.rows && a.size.HourSize? && a.start == HourStart(r.time);
      if cutoff <= r.time {
        HourFacts(r.time, cutoff);
      }
      assert a in after.rows;
    }
  }

  lemma ExpireStaysExact(w: World, log: seq<Run>, cutoff: int)
    requires Exact(w, log)
    ensures Exact(ExpireWorld(w, cutoff), log)
  {
    forall h | HasHour(w.rows, h) ensures HasHour(ExpireWorld(w, cutoff).rows, h) {
      var a :| a in w.rows && a.size.HourSize? && a.start == h;
      FilterKeeps(NotExpiredDay(cutoff), w.rows, a);
    }
  }

  lemma RetainStaysExact(w: World, log: seq<Run>, op: Op)
    requires StoreInv(w) && Exact(w, log) && op.Retain?
    ensures Exact(Apply(w, op), log)
  {
    var rolled, cutoff, expiry := RetainTwoSteps(w, op);
    RollStaysExact(w, log, cutoff);
    ExpireStaysExact(rolled, log, expiry);
  }

  /** Over every run of in-time increments and retention jobs, each stored row
      carries exactly the counts of the runs of its hour or day. */
  lemma {:induction false} RowsAreExact(epoch: int, ops: seq<Op>)
    requires AllInTime(epoch, ops)
    ensures Exact(Exec(epoch, ops), LogOf(ops))
  {
    if ops != [] {
      var front, op := ops[..|ops| - 1], ops[|ops| - 1];
      var w, log := Exec(epoch, front), LogOf(front);
      StorageInvariant(epoch, front);
      RowsAreExact(epoch, front);
      if op.Increment? {
        IncrementStaysExact(w, log, op);
      } else {
        RetainStaysExact(w, log, op);
        assert log + [] == log;
      }
    }
  }

  // -------------------------------------------------------------- the chart

  lemma {:induction false} SumRunsLength(log: seq<Run>)
    ensures SumRuns(log).runs == |log|
  {
    if log != [] {
      SumRunsLength(log[..|log| - 1]);
    }
  }

  lemma RowBucketCounts(a: Aggregate, result: Option<Record>, log: seq<Run>)
    requires RowExact(log, a)
    requires Aligned(a)
    ensures RowBucket(a, result).stats.runs == CountIn(RowBucket(a, result), log)
  {
    var b := RowBucket(a, result);
    if a.size.HourSize? {
      forall r | r in log ensures InHour(a.start)(r) == RunsIn(b)(r) {
        AlignedHour(r.time, a.start);
      }
      FilterSame(InHour(a.start), RunsIn(b), log);
      SumRunsLength(Filter(InHour(a.start), log));
    } else {
      forall r | r in log ensures InDay(a.start)(r) == RunsIn(b)(r) {
        AlignedDay(r.time, a.start);
      }
      FilterSame(InDay(a.start), RunsIn(b), log);
      SumRunsLength(Filter(InDay(a.start), log));
    }
  }

  lemma AlignedHour(t: int, start: int)
    requires start % HOUR == 0
    ensures HourStart(t) == start <==> start <= t < start + HOUR
  {
    var h := HourStart(t);
    assert h % HOUR == 0 && h <= t < h + HOUR;
  }

  lemma AlignedDay(t: int, start: int)
    requires start % DAY == 0
    ensures DayStart(t) == start <==> start <= t < start + DAY
  {
    DayFacts(t);
  }

  ghost predicate Aligned(a: Aggregate) {
    if a.size.HourSize? then a.start % HOUR == 0 else a.start % DAY == 0
  }

  /** Sorting rows of distinct starts keeps the starts distinct. */
  lemma SortedRowsApart(rows: seq<Aggregate>)
    requires forall i, j | 0 <= i < j < |rows| :: rows[i].start != rows[j].start
    ensures var t := SortBy(RowStart(), rows);
      forall i, j | 0 <= i < j < |t| :: t[i].start != t[j].start
  {
    var key, t := RowStart(), SortBy(RowStart(), rows);
    assert DistinctKeys(key, rows);
    SortByDistinct(key, rows);
    forall i, j | 0 <= i < j < |t| ensures t[i].start != t[j].start {
      assert key(t[i]) < key(t[j]);
    }
  }

  lemma PickedRows(w: World, log: seq<Run>, q: Query, size: Size) returns (picked: seq<Aggregate>)
    requires StoreInv(w) && Exact(w, log)
    ensures picked == SelectRows(q, w.rows, size)
    ensures forall i, j | 0 <= i < j < |picked| :: picked[i].start != picked[j].start
    ensures forall i | 0 <= i < |picked| :: picked[i].size == size && RowExact(log, picked[i]) && Aligned(picked[i])
  {
    picked := SelectRows(q, w.rows, size);
    var wanted := Filter(WantedRow(q, size), w.rows);
    UniqueFilter(WantedRow(q, size), w.rows);
    forall i, j | 0 <= i < j < |wanted| ensures wanted[i].start != wanted[j].start {
      assert wanted[i] in w.rows && wanted[j] in w.rows;
    }
    SortedRowsApart(wanted);
    forall i | 0 <= i < |picked| ensures picked[i].size == size && RowExact(log, picked[i]) && Aligned(picked[i]) {
      SortByMembers(RowStart(), wanted, picked[i]);
      assert picked[i] in w.rows;
      if picked[i].size.HourSize? {
        assert HourlyRowOk(w.horizon, picked[i]);
      } else {
        assert DayClosed(w.horizon, picked[i].start);
      }
    }
  }

  lemma RowsApart(a: Aggregate, ra: Option<Record>, b: Aggregate, rb: Option<Record>)
    requires a.size == b.size && a.start != b.start && Aligned(a) && Aligned(b)
    ensures !Overlap(RangeOf(RowBucket(a, ra)), RangeOf(RowBucket(b, rb)))
  {
    if a.size.HourSize? {
      AlignedHour(a.start, b.start);
      AlignedHour(b.start, a.start);
    } else {
      AlignedDay(a.start, b.start);
      AlignedDay(b.start, a.start);
    }
  }

  /** Rows of one size, as buckets: not empty, not overlapping, exact. */
  lemma SizeBuckets(w: World, log: seq<Run>, attached: Attached, q: Query, size: Size)
    requires StoreInv(w) && Exact(w, log)
    ensures var bs := RowBuckets(attached, SelectRows(q, w.rows, size));
      Tidy(bs, log)
  {
    var picked := PickedRows(w, log, q, size);
    var bs := RowBuckets(attached, picked);
    forall i | 0 <= i < |bs| ensures bs[i].stats.runs == CountIn(bs[i], log) {
      RowBucketCounts(picked[i], attached(picked[i]), log);
    }
    forall i, j | 0 <= i < j < |bs| ensures !Overlap(RangeOf(bs[i]), RangeOf(bs[j])) {
      RowsApart(picked[i], bs[i].result, picked[j], bs[j].result);
    }
  }

  /** The stored rows that a query shows. */
  function ShownRows(sum: Summarize, attached: Attached, q: Query, kept: seq<Run>, rows: seq<Aggregate>): seq<Bucket> {
    StoredRows(Normalize(sum, q, SelectRuns(q, kept)),
               RowBuckets(attached, SelectRows(q, rows, HourSize)), RowBuckets(attached, SelectRows(q, rows, DaySize)))
  }

  /** After any such run and for any query and raw runs the chart shows exactly the raw runs
      in its range and the runs counted in the shown rows: a row is hidden as a whole when
      some raw run's slot reaches into it (`StoredRowShownIff`). */
  lemma ChartShowsExactly(epoch: int, ops: seq<Op>, reg: Option<Registry>, sum: Summarize, attached: Attached,
                          q: Query, kept: seq<Run>)
    requires AllInTime(epoch, ops)
    ensures var rows := Exec(epoch, ops).rows;
      StatsOf(Shown(reg, sum, attached, q, kept, rows)).runs
        == |SelectRuns(q, kept)| + |Filter(InSome(ShownRows(sum, attached, q, kept, rows)), LogOf(ops))|
  {
    var w, log := Exec(epoch, ops), LogOf(ops);
    StorageInvariant(epoch, ops);
    RowsAreExact(epoch, ops);
    SizeBuckets(w, log, attached, q, HourSize);
    SizeBuckets(w, log, attached, q, DaySize);
    ShownConserves(reg, sum, attached, q, kept, w.rows);
    MergedShowsExactly(sum, q, SelectRuns(q, kept), RowBuckets(attached, SelectRows(q, w.rows, HourSize)),
                       RowBuckets(attached, SelectRows(q, w.rows, DaySize)), log);
  }

  // ------------------------------------------------ how often a run is shown

  /** A finished run. The database stamps its raw row, the worker then counts it under the
      time of its own clock, if it gets that far; the raw row is kept for some time. */
  datatype Entry = Entry(stamp: int, counted: Option<int>, kept: bool, status: Status, latency: Option<int>, metadata: string)

  function RawRun(e: Entry): Run { Run(e.status, e.stamp, e.latency, e.metadata) }

  function CountedRun(e: Entry): Run
    requires e.counted.Some?
  {
    Run(e.status, e.counted.value, e.latency, e.metadata)
  }

  /** The raw rows still in the table. */
  function KeptRuns(entries: seq<Entry>): seq<Run> {
    if entries == [] then []
    else (if entries[0].kept then [RawRun(entries[0])] else []) + KeptRuns(entries[1..])
  }

  /** The runs that reached the aggregate table. */
  function CountedRuns(entries: seq<Entry>): seq<Run> {
    if entries == [] then []
    else (if entries[0].counted.Some? then [CountedRun(entries[0])] else []) + CountedRuns(entries[1..])
  }

  /** The tables hold what became of the runs: `kept` is the raw table, `ops` did the counting. */
  ghost predicate Tells(entries: seq<Entry>, kept: seq<Run>, ops: seq<Op>) {
    && multiset(kept) == multiset(KeptRuns(entries))
    && multiset(LogOf(ops)) == multiset(CountedRuns(entries))
  }

  /** The query reads the raw row of the run. */
  predicate ReadRaw(q: Query, e: Entry) { e.kept && WantedRun(q)(RawRun(e)) }

  /** The run was counted in a row that the query shows. */
  predicate CountedInRow(shown: seq<Bucket>, e: Entry) { e.counted.Some? && CoveredBy(shown, CountedRun(e)) }

  predicate ShownTwice(q: Query, shown: seq<Bucket>, e: Entry) { ReadRaw(q, e) && CountedInRow(shown, e) }

  function AsRaw(q: Query): Entry -> bool { (e: Entry) => ReadRaw(q, e) }

  function InRow(shown: seq<Bucket>): Entry -> bool { (e: Entry) => CountedInRow(shown, e) }

  function Twice(q: Query, shown: seq<Bucket>): Entry -> bool { (e: Entry) => ShownTwice(q, shown, e) }

  function Untold(q: Query, shown: seq<Bucket>): Entry -> bool { (e: Entry) => !ReadRaw(q, e) && !CountedInRow(shown, e) }

  lemma {:induction false} WantedRaw(q: Query, entries: seq<Entry>)
    ensures |Filter(WantedRun(q), KeptRuns(entries))| == |Filter(AsRaw(q), entries)|
  {
    if entries != [] {
      var e, rest := entries[0], entries[1..];
      WantedRaw(q, rest);
      if e.kept {
        FilterCons(WantedRun(q), RawRun(e), KeptRuns(rest));
      } else {
        assert [] + KeptRuns(rest) == KeptRuns(rest);
      }
    }
  }

  lemma {:induction false} CountedInRows(shown: seq<Bucket>, entries: seq<Entry>)
    ensures |Filter(InSome(shown), CountedRuns(entries))| == |Filter(InRow(shown), entries)|
  {
    if entries != [] {
      var e, rest := entries[0], entries[1..];
      CountedInRows(shown, rest);
      if e.counted.Some? {
        FilterCons(InSome(shown), CountedRun(e), CountedRuns(rest));
      } else {
        assert [] + CountedRuns(rest) == CountedRuns(rest);
      }
    }
  }

  lemma SameSize(p: Run -> bool, a: seq<Run>, b: seq<Run>)
    requires multiset(a) == multiset(b)
    ensures |Filter(p, a)| == |Filter(p, b)|
  {
    FilterSubset(p, a, b);
    FilterSubset(p, b, a);
  }

  lemma SelectedSize(q: Query, kept: seq<Run>)
    ensures |SelectRuns(q, kept)| == |Filter(WantedRun(q), kept)|
  {
    assert |multiset(SelectRuns(q, kept))| == |multiset(Filter(WantedRun(q), kept))|;
  }

  /** Two conditions counted: once each, or all of the list, with both and with neither. */
  lemma {:induction false} BothAndNeither(entries: seq<Entry>, q: Query, shown: seq<Bucket>)
    ensures |Filter(AsRaw(q), entries)| + |Filter(InRow(shown), entries)| + |Filter(Untold(q, shown), entries)|
      == |entries| + |Filter(Twice(q, shown), entries)|
  {
    if entries != [] {
      BothAndNeither(entries[1..], q, shown);
    }
  }

  /** Over every run of the system, for any query: the chart counts each finished run once,
      except that it counts twice exactly those that it both reads raw and counted in a row
      it shows, and not at all those that are neither. */
  lemma ChartCountsEach(epoch: int, ops: seq<Op>, entries: seq<Entry>, reg: Option<Registry>, sum: Summarize,
                        attached: Attached, q: Query, kept: seq<Run>)
    requires AllInTime(epoch, ops) && Tells(entries, kept, ops)
    ensures var rows := Exec(epoch, ops).rows; var shown := ShownRows(sum, attached, q, kept, rows);
      StatsOf(Shown(reg, sum, attached, q, kept, rows)).runs + |Filter(Untold(q, shown), entries)|
        == |entries| + |Filter(Twice(q, shown), entries)|
  {
    var shown := ShownRows(sum, attached, q, kept, Exec(epoch, ops).rows);
    ChartShowsExactly(epoch, ops, reg, sum, attached, q, kept);
    SelectedSize(q, kept);
    SameSize(WantedRun(q), kept, KeptRuns(entries));
    WantedRaw(q, entries);
    SameSize(InSome(shown), LogOf(ops), CountedRuns(entries));
    CountedInRows(shown, entries);
    BothAndNeither(entries, q, shown);
  }

  /** The raw row was stamped in the hour in which the run was counted. */
  predicate SameHour(e: Entry) { e.counted.Some? ==> HourStart(e.stamp) == HourStart(e.counted.value) }

  /** Such a run is never shown twice: the slot of its raw row reaches into its stored row. */
  lemma SameHourIsOnce(epoch: int, ops: seq<Op>, sum: Summarize, attached: Attached, q: Query, kept: seq<Run>,
                       shown: seq<Bucket>, e: Entry)
    requires AllInTime(epoch, ops) && SameHour(e) && (e.kept ==> RawRun(e) in kept)
    requires shown == ShownRows(sum, attached, q, kept, Exec(epoch, ops).rows)
    ensures !ShownTwice(q, shown, e)
  {
    if ShownTwice(q, shown, e) {
      assert CoveredBy(shown, CountedRun(e));
      var b :| b in shown && Covers(b, CountedRun(e));
      RowHoldsHour(epoch, ops, sum, attached, q, kept, b, e.counted.value, e.stamp);
      RawHidesRow(epoch, ops, sum, attached, q, kept, b, RawRun(e));
    }
  }

  /** A stored row that covers an instant covers the whole hour of it. */
  lemma RowHoldsHour(epoch: int, ops: seq<Op>, sum: Summarize, attached: Attached, q: Query, kept: seq<Run>, b: Bucket,
                     t: int, u: int)
    requires AllInTime(epoch, ops) && b in ShownRows(sum, attached, q, kept, Exec(epoch, ops).rows)
    requires HourStart(t) == HourStart(u) && b.start <= t < b.end
    ensures b.start <= u < b.end
  {
    var w := Exec(epoch, ops);
    StorageInvariant(epoch, ops);
    RowsAreExact(epoch, ops);
    var size, i := RowOfShown(sum, attached, q, kept, w.rows, b);
    var picked := PickedRows(w, LogOf(ops), q, size);
    AlignedRowHoldsHour(picked[i], t, u);
  }

  lemma RowOfShown(sum: Summarize, attached: Attached, q: Query, kept: seq<Run>, rows: seq<Aggregate>, b: Bucket)
    returns (size: Size, i: nat)
    requires b in ShownRows(sum, attached, q, kept, rows)
    ensures i < |SelectRows(q, rows, size)| && b == RowBucket(SelectRows(q, rows, size)[i], b.result)
  {
    if b in RowBuckets(attached, SelectRows(q, rows, HourSize)) {
      size := HourSize;
      i := IndexOfRow(attached, SelectRows(q, rows, HourSize), b);
    } else {
      size := DaySize;
      i := IndexOfRow(attached, SelectRows(q, rows, DaySize), b);
    }
  }

  lemma IndexOfRow(attached: Attached, rows: seq<Aggregate>, b: Bucket) returns (i: nat)
    requires b in RowBuckets(attached, rows)
    ensures i < |rows| && b == RowBucket(rows[i], b.result)
  {
    i :| i < |rows| && RowBuckets(attached, rows)[i] == b;
  }

  lemma AlignedRowHoldsHour(a: Aggregate, t: int, u: int)
    requires Aligned(a) && HourStart(t) == HourStart(u)
    ensures var end := a.start + if a.size.HourSize? then HOUR else DAY; a.start <= t < end ==> a.start <= u < end
  {
    if a.size.HourSize? {
      AlignedHour(t, a.start);
      AlignedHour(u, a.start);
    } else {
      AlignedDay(t, a.start);
      AlignedDay(u, a.start);
      SameDaySameHour(t, a.start);
      SameDaySameHour(u, a.start);
    }
  }

  /** A row around the stamp of a raw run that the query reads is not shown. */
  lemma RawHidesRow(epoch: int, ops: seq<Op>, sum: Summarize, attached: Attached, q: Query, kept: seq<Run>, b: Bucket, r: Run)
    requires r in kept && WantedRun(q)(r) && Covers(b, r)
    ensures b !in ShownRows(sum, attached, q, kept, Exec(epoch, ops).rows)
  {
    var rows := Exec(epoch, ops).rows;
    FilterKeeps(WantedRun(q), kept, r);
    SortByMembers(RunTime(), Filter(WantedRun(q), kept), r);
    RowBucketsNonEmpty(attached, SelectRows(q, rows, HourSize));
    RowBucketsNonEmpty(attached, SelectRows(q, rows, DaySize));
    StoredRowShownIff(sum, q, SelectRuns(q, kept), RowBuckets(attached, SelectRows(q, rows, HourSize)),
                      RowBuckets(attached, SelectRows(q, rows, DaySize)), b);
    SlotBounds(q.rangeStart, q.interval, r.time);
    assert Overlap(RangeOf(b), SlotRange(q, r));
  }

  /** As long as every kept run was stamped in the hour in which it was counted, the chart
      never shows more runs than finished, whatever else is stored. */
  lemma ChartNeverOvercounts(epoch: int, ops: seq<Op>, entries: seq<Entry>, reg: Option<Registry>, sum: Summarize,
                             attached: Attached, q: Query, kept: seq<Run>)
    requires AllInTime(epoch, ops) && Tells(entries, kept, ops)
    requires forall e <- entries :: e.kept ==> SameHour(e)
    ensures StatsOf(Shown(reg, sum, attached, q, kept, Exec(epoch, ops).rows)).runs <= |entries|
  {
    var shown := ShownRows(sum, attached, q, kept, Exec(epoch, ops).rows);
    ChartCountsEach(epoch, ops, entries, reg, sum, attached, q, kept);
    NoneTwice(epoch, ops, entries, sum, attached, q, kept, shown);
  }

  lemma NoneTwice(epoch: int, ops: seq<Op>, entries: seq<Entry>, sum: Summarize, attached: Attached, q: Query,
                  kept: seq<Run>, shown: seq<Bucket>)
    requires AllInTime(epoch, ops) && multiset(kept) == multiset(KeptRuns(entries))
    requires forall e <- entries :: e.kept ==> SameHour(e)
    requires shown == ShownRows(sum, attached, q, kept, Exec(epoch, ops).rows)
    ensures Filter(Twice(q, shown), entries) == []
  {
    forall e | e in entries ensures !ShownTwice(q, shown, e) {
      if e.kept {
        KeptIsListed(entries, e);
        SameElements(kept, KeptRuns(entries), RawRun(e));
        SameHourIsOnce(epoch, ops, sum, attached, q, kept, shown, e);
      }
    }
    FilterNone(Twice(q, shown), entries);
  }

  lemma SameElements(a: seq<Run>, b: seq<Run>, r: Run)
    requires multiset(a) == multiset(b) && r in b
    ensures r in a
  {
    assert r in multiset(b);
  }

  lemma {:induction false} KeptIsListed(entries: seq<Entry>, e: Entry)
    requires e in entries && e.kept
    ensures RawRun(e) in KeptRuns(entries)
  {
    if e != entries[0] {
      KeptIsListed(entries[1..], e);
    }
  }

  /** A run that is counted just after the full hour while its raw row was stamped just
      before it is shown twice by a query over both hours. */
  lemma HourTurnShowsTwice(reg: Option<Registry>, sum: Summarize, attached: Attached) returns (op: Op, entry: Entry, q: Query)
    ensures op == Increment(HOUR + 5, NoRow, Sample(Healthy, Some(20), 20, ""))
    ensures entry == Entry(HOUR - 5, Some(HOUR + 5), true, Healthy, Some(20), "") && q == Query(0, 2 * HOUR, 60000)
    ensures AllInTime(0, [op]) && Tells([entry], [RawRun(entry)], [op])
    ensures StatsOf(Shown(reg, sum, attached, q, [RawRun(entry)], Exec(0, [op]).rows)).runs == 2
  {
    op, q := Increment(HOUR + 5, NoRow, Sample(Healthy, Some(20), 20, "")), Query(0, 2 * HOUR, 60000);
    entry := Entry(HOUR - 5, Some(HOUR + 5), true, Healthy, Some(20), "");
    TurnTells(op, entry);
    TurnShowsTwice(reg, sum, attached, op, entry, q);
  }

  lemma TurnTells(op: Op, entry: Entry)
    requires op.Increment? && op.time == HOUR + 5 && op.seen == NoRow && op.s.latency == Some(20)
    requires entry.kept && entry.counted == Some(op.time) && entry.status == op.s.status
    requires entry.latency == op.s.latency && entry.metadata == op.s.metadata
    ensures AllInTime(0, [op]) && Tells([entry], [RawRun(entry)], [op])
    ensures |Exec(0, [op]).rows| == 1 && IsHour(HOUR, Exec(0, [op]).rows[0])
  {
    OneIncrement(op, entry);
    OneKept(entry);
    assert HourStart(HOUR + 5) == HOUR;
  }

  lemma TurnShowsTwice(reg: Option<Registry>, sum: Summarize, attached: Attached, op: Op, entry: Entry, q: Query)
    requires AllInTime(0, [op]) && Tells([entry], [RawRun(entry)], [op])
    requires |Exec(0, [op]).rows| == 1 && IsHour(HOUR, Exec(0, [op]).rows[0])
    requires entry.stamp == HOUR - 5 && entry.kept && entry.counted == Some(HOUR + 5) && q == Query(0, 2 * HOUR, 60000)
    ensures StatsOf(Shown(reg, sum, attached, q, [RawRun(entry)], Exec(0, [op]).rows)).runs == 2
  {
    OneRowShown(sum, attached, q, [RawRun(entry)], Exec(0, [op]).rows, entry);
    OneShownTwice(0, [op], entry, reg, sum, attached, q, [RawRun(entry)]);
  }

  lemma OneKept(entry: Entry)
    requires entry.kept
    ensures KeptRuns([entry]) == [RawRun(entry)]
  {
    assert [entry][1..] == [] && [RawRun(entry)] + [] == [RawRun(entry)];
  }

  lemma OneShownTwice(epoch: int, ops: seq<Op>, entry: Entry, reg: Option<Registry>, sum: Summarize, attached: Attached,
                      q: Query, kept: seq<Run>)
    requires AllInTime(epoch, ops) && Tells([entry], kept, ops)
    requires ShownTwice(q, ShownRows(sum, attached, q, kept, Exec(epoch, ops).rows), entry)
    ensures StatsOf(Shown(reg, sum, attached, q, kept, Exec(epoch, ops).rows)).runs == 2
  {
    var shown := ShownRows(sum, attached, q, kept, Exec(epoch, ops).rows);
    ChartCountsEach(epoch, ops, [entry], reg, sum, attached, q, kept);
    FilterAll(Twice(q, shown), [entry]);
    FilterNone(Untold(q, shown), [entry]);
  }

  lemma OneIncrement(op: Op, entry: Entry)
    requires op.Increment? && op.time >= 0 && op.seen == NoRow && op.s.latency == Some(20)
    requires entry.counted == Some(op.time) && entry.status == op.s.status
    requires entry.latency == op.s.latency && entry.metadata == op.s.metadata
    ensures AllInTime(0, [op]) && LogOf([op]) == CountedRuns([entry]) == [RunOf(op)]
    ensures Exec(0, [op]).rows == [Aggregate(HourSize, HourStart(op.time), Upsert(None, NoRow, op.s))]
  {
    assert [op][..0] == [] && [entry][1..] == [];
    assert Exec(0, []) == Begin(0);
    assert [] + [RunOf(op)] == [RunOf(op)] == [RunOf(op)] + [];
  }

  lemma OneRowShown(sum: Summarize, attached: Attached, q: Query, kept: seq<Run>, rows: seq<Aggregate>, entry: Entry)
    requires q == Query(0, 2 * HOUR, 60000)
    requires entry.stamp == HOUR - 5 && entry.kept && entry.counted == Some(HOUR + 5) && kept == [RawRun(entry)]
    requires |rows| == 1 && rows[0].size.HourSize? && rows[0].start == HOUR
    ensures ShownTwice(q, ShownRows(sum, attached, q, kept, rows), entry)
  {
    var shown := ShownRows(sum, attached, q, kept, rows);
    OneRowSelected(q, kept, rows, rows[0]);
    var b := RowInHour(sum, attached, q, kept, rows, RawRun(entry));
    assert b in shown && Covers(b, CountedRun(entry));
    assert CoveredBy(shown, CountedRun(entry));
  }

  lemma OneRowSelected(q: Query, kept: seq<Run>, rows: seq<Aggregate>, a: Aggregate)
    requires q == Query(0, 2 * HOUR, 60000) && rows == [a] && a.size.HourSize? && a.start == HOUR
    requires |kept| == 1 && kept[0].time == HOUR - 5
    ensures SelectRuns(q, kept) == kept && SelectRows(q, rows, HourSize) == rows && SelectRows(q, rows, DaySize) == []
  {
    FilterAll(WantedRow(q, HourSize), rows);
    FilterNone(WantedRow(q, DaySize), rows);
    FilterAll(WantedRun(q), kept);
    assert SortBy(RowStart(), [a]) == [a] && SortBy(RunTime(), [kept[0]]) == [kept[0]];
  }

  lemma RowInHour(sum: Summarize, attached: Attached, q: Query, kept: seq<Run>, rows: seq<Aggregate>, r: Run) returns (b: Bucket)
    requires q == Query(0, 2 * HOUR, 60000) && |rows| == 1 && rows[0].size.HourSize? && rows[0].start == HOUR
    requires kept == [r] && r.time == HOUR - 5
    requires SelectRuns(q, kept) == kept && SelectRows(q, rows, HourSize) == rows && SelectRows(q, rows, DaySize) == []
    ensures b in ShownRows(sum, attached, q, kept, rows) && b.start == HOUR && b.end == 2 * HOUR
  {
    b := RowBucket(rows[0], attached(rows[0]));
    var hourly, daily := RowBuckets(attached, rows), RowBuckets(attached, []);
    assert hourly[0] == b && b in hourly;
    RowBucketsNonEmpty(attached, rows);
    assert SlotRange(q, r) == Range(59 * 60000, HOUR);
    StoredRowShownIff(sum, q, kept, hourly, daily, b);
  }
}
