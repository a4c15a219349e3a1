/** The aggregate table of one check on one system: hourly increments, the daily
    roll-up, and expiry, over whole runs. Days are 24 hours, times milliseconds. */
module Retention {
  import opened Sequences
  import opened Buckets
  import opened RawRuns
  import opened HourlyRows

  const HOUR: int := 3_600_000
  const DAY: int := 86_400_000

  datatype Size = HourSize | DaySize

  /** A table row; (size, start) is its unique key and stands for its id. */
  datatype Aggregate = Aggregate(size: Size, start: int, row: Row)

  /** `setMinutes(0, 0, 0)` and `setHours(0, 0, 0, 0)`. */
  function HourStart(t: int): int { t - t % HOUR }
  function DayStart(t: int): int { t - t % DAY }

  // ---------------------------------------------------------------- totals

  datatype Tally = Tally(runs: nat, healthy: nat, degraded: nat, unhealthy: nat, latency: int,
                         min: Option<int>, max: Option<int>, p95: Option<int>)

  const NO_TALLY := Tally(0, 0, 0, 0, 0, None, None, None)

  function AddTally(a: Tally, b: Tally): Tally {
    Tally(a.runs + b.runs, a.healthy + b.healthy, a.degraded + b.degraded, a.unhealthy + b.unhealthy,
          a.latency + b.latency, OptMin(a.min, b.min), OptMax(a.max, b.max), OptMax(a.p95, b.p95))
  }

  /** The latency a row stands for: its sum, or average times count for rows without one. */
  function RowLatency(r: Row): int {
    if r.latencySum.Some? then r.latencySum.value
    else if r.avg.Some? then r.avg.value * r.runs
    else 0
  }

  function RowTally(r: Row): Tally {
    Tally(r.runs, r.healthy, r.degraded, r.unhealthy, RowLatency(r), r.min, r.max, r.p95)
  }

  function Weigh(a: Aggregate): Tally { RowTally(a.row) }

  function Adder(): (Tally, Tally) -> Tally { (a, b) => AddTally(a, b) }

  function TallyOf(rows: seq<Aggregate>): Tally {
    Fold(Adder(), NO_TALLY, Weigh, rows)
  }

  lemma AdderIsMonoid()
    ensures CommutativeMonoid(Adder(), NO_TALLY)
  {
    forall a, b, c ensures LawsAt(Adder(), NO_TALLY, a, b, c) {
      OptLaws(a.min, b.min, c.min);
      OptLaws(a.max, b.max, c.max);
      OptLaws(a.p95, b.p95, c.p95);
    }
  }

  // --------------------------------------------------------------- roll-up

  /** `Math.round(sum / n)`. */
  function RoundDivide(sum: int, n: nat): int
    requires n > 0
  {
    (2 * sum + n) / (2 * n)
  }

  /** The daily row of a day, from the totals of its hourly rows. */
  function RollRow(t: Tally): Row {
    Row(t.runs, t.healthy, t.degraded, t.unhealthy,
        if t.latency > 0 then Some(t.latency) else None,
        if t.runs > 0 then Some(RoundDivide(t.latency, t.runs)) else None,
        t.min, t.max, t.p95)
  }

  /** Rolling a day up keeps its totals and extremes exactly when its latency
      total is not negative or the rounded average happens to give it back. */
  lemma RollRowKeepsTally(t: Tally)
    ensures RowTally(RollRow(t)) == t <==>
      t.latency >= 0 || (t.runs > 0 && RoundDivide(t.latency, t.runs) * t.runs == t.latency)
  {
    if t.latency == 0 && t.runs > 0 {
      assert RoundDivide(0, t.runs) == 0;
    }
  }

  predicate Expired(cutoff: int, a: Aggregate) { a.size.HourSize? && a.start < cutoff }

  function IsOld(cutoff: int): Aggregate -> bool { (a: Aggregate) => Expired(cutoff, a) }

  function OldOfDay(cutoff: int, day: int): Aggregate -> bool {
    (a: Aggregate) => Expired(cutoff, a) && DayStart(a.start) == day
  }

  function NotOldOfDay(cutoff: int, day: int): Aggregate -> bool {
    (a: Aggregate) => !(Expired(cutoff, a) && DayStart(a.start) == day)
  }

  predicate HasDay(rows: seq<Aggregate>, day: int) {
    exists i :: 0 <= i < |rows| && rows[i].size.DaySize? && rows[i].start == day
  }

  /** Days of the selected rows, in order of first appearance. */
  function DaysMet(picked: seq<Aggregate>): seq<int> {
    if picked == [] then []
    else
      var before, d := DaysMet(picked[..|picked| - 1]), DayStart(picked[|picked| - 1].start);
      if d in before then before else before + [d]
  }

  /** One pass of the loop: insert the daily row, delete the hourly rows it sums up. */
  function RollDay(rows: seq<Aggregate>, cutoff: int, day: int): seq<Aggregate> {
    Filter(NotOldOfDay(cutoff, day), rows) + [DailyRow(rows, cutoff, day)]
  }

  function DailyRow(rows: seq<Aggregate>, cutoff: int, day: int): Aggregate {
    Aggregate(DaySize, day, RollRow(TallyOf(Filter(OldOfDay(cutoff, day), rows))))
  }

  /** The loop over days; inserting a second daily row for a day violates the unique
      index and aborts the job with the days before it done. */
  function RollDays(rows: seq<Aggregate>, cutoff: int, days: seq<int>): (seq<Aggregate>, bool)
    decreases |days|
  {
    if days == [] then (rows, true)
    else if HasDay(rows, days[0]) then (rows, false)
    else RollDays(RollDay(rows, cutoff, days[0]), cutoff, days[1..])
  }

  function Rollup(rows: seq<Aggregate>, cutoff: int): (seq<Aggregate>, bool) {
    RollDays(rows, cutoff, DaysMet(Filter(IsOld(cutoff), rows)))
  }

  function IsExpiredDay(cutoff: int): Aggregate -> bool {
    (a: Aggregate) => a.size.DaySize? && a.start < cutoff
  }

  function NotExpiredDay(cutoff: int): Aggregate -> bool {
    (a: Aggregate) => !(a.size.DaySize? && a.start < cutoff)
  }

  function HourlyCutoff(now: int, hourlyDays: nat): int { DayStart(now - hourlyDays * DAY) }

  // ------------------------------------------------------------- increments

  /** The upsert finds its row by key; other rows stay. */
  function UpsertRows(rows: seq<Aggregate>, start: int, seen: Snapshot, s: Sample): seq<Aggregate> {
    if rows == [] then [Aggregate(HourSize, start, Upsert(None, seen, s))]
    else if rows[0].size.HourSize? && rows[0].start == start
    then [rows[0].(row := Upsert(Some(rows[0].row), seen, s))] + rows[1..]
    else [rows[0]] + UpsertRows(rows[1..], start, seen, s)
  }

  // -------------------------------------------------- what each step keeps

  ghost predicate UniqueKeys(rows: seq<Aggregate>) {
    forall i, j | 0 <= i < j < |rows| :: rows[i].size != rows[j].size || rows[i].start != rows[j].start
  }

  lemma UniqueSnoc(rows: seq<Aggregate>, a: Aggregate)
    requires UniqueKeys(rows) && forall r <- rows :: r.size != a.size || r.start != a.start
    ensures UniqueKeys(rows + [a])
  {
    var out := rows + [a];
    forall i, j | 0 <= i < j < |out| ensures out[i].size != out[j].size || out[i].start != out[j].start {
      assert out[i] == rows[i] && rows[i] in rows;
    }
  }

  lemma {:induction false} UniqueFilter(p: Aggregate -> bool, rows: seq<Aggregate>)
    requires UniqueKeys(rows)
    ensures UniqueKeys(Filter(p, rows))
  {
    if rows != [] {
      var front, a := rows[..|rows| - 1], rows[|rows| - 1];
      assert rows == front + [a];
      UniqueFilter(p, front);
      FilterAppend(p, front, [a]);
      if p(a) {
        forall r | r in Filter(p, front) ensures r.size != a.size || r.start != a.start {
          var i :| 0 <= i < |front| && front[i] == r;
          assert rows[i] == r;
        }
        UniqueSnoc(Filter(p, front), a);
      }
    }
  }

  lemma TallySnoc(rows: seq<Aggregate>, a: Aggregate)
    ensures TallyOf(rows + [a]) == AddTally(TallyOf(rows), Weigh(a))
  {
    assert (rows + [a])[..|rows|] == rows;
  }

  lemma {:induction false} TallyNotNegative(rows: seq<Aggregate>)
    requires forall a <- rows :: RowLatency(a.row) >= 0
    ensures TallyOf(rows).latency >= 0
  {
    if rows != [] {
      TallyNotNegative(rows[..|rows| - 1]);
      assert rows[|rows| - 1] in rows;
    }
  }

  ghost predicate LatenciesOk(rows: seq<Aggregate>) {
    forall a <- rows :: a.size.HourSize? ==> RowLatency(a.row) >= 0
  }

  /** A day's roll-up keeps all totals and extremes of the table. */
  lemma RollDayKeepsTally(rows: seq<Aggregate>, cutoff: int, day: int)
    requires LatenciesOk(rows)
    ensures TallyOf(RollDay(rows, cutoff, day)) == TallyOf(rows)
  {
    var t := TallyOf(Filter(OldOfDay(cutoff, day), rows));
    TallyNotNegative(Filter(OldOfDay(cutoff, day), rows));
    RollRowKeepsTally(t);
    TallySnoc(Filter(NotOldOfDay(cutoff, day), rows), Aggregate(DaySize, day, RollRow(t)));
    AdderIsMonoid();
    FoldSplit(Adder(), NO_TALLY, Weigh, rows, NotOldOfDay(cutoff, day), OldOfDay(cutoff, day), AnyRow());
    FilterAll(AnyRow(), rows);
  }

  function AnyRow(): Aggregate -> bool { (a: Aggregate) => true }

  lemma RollDayMembers(rows: seq<Aggregate>, cutoff: int, day: int, a: Aggregate)
    ensures a in RollDay(rows, cutoff, day) ==>
      (a in rows && NotOldOfDay(cutoff, day)(a)) || a == DailyRow(rows, cutoff, day)
    ensures a in rows && NotOldOfDay(cutoff, day)(a) ==> a in RollDay(rows, cutoff, day)
  {
    if a in rows && NotOldOfDay(cutoff, day)(a) {
      FilterKeeps(NotOldOfDay(cutoff, day), rows, a);
    }
  }

  lemma RollDayKeepsShape(rows: seq<Aggregate>, cutoff: int, day: int)
    requires UniqueKeys(rows) && LatenciesOk(rows) && !HasDay(rows, day)
    ensures UniqueKeys(RollDay(rows, cutoff, day)) && LatenciesOk(RollDay(rows, cutoff, day))
    ensures forall d | d != day :: HasDay(RollDay(rows, cutoff, day), d) ==> HasDay(rows, d)
  {
    var out := RollDay(rows, cutoff, day);
    UniqueFilter(NotOldOfDay(cutoff, day), rows);
    UniqueSnoc(Filter(NotOldOfDay(cutoff, day), rows), out[|out| - 1]);
    forall a | a in out && a.size.HourSize? ensures RowLatency(a.row) >= 0 {
      RollDayMembers(rows, cutoff, day, a);
    }
    forall d | d != day && HasDay(out, d) ensures HasDay(rows, d) {
      var i :| 0 <= i < |out| && out[i].size.DaySize? && out[i].start == d;
      RollDayMembers(rows, cutoff, day, out[i]);
      var j :| 0 <= j < |rows| && rows[j] == out[i];
    }
  }

  /** `out` is `rows` with the old rows of the given days replaced by daily rows. */
  ghost predicate Replaced(rows: seq<Aggregate>, cutoff: int, days: seq<int>, out: seq<Aggregate>) {
    && (forall a <- out :: a.size.HourSize? ==> a in rows && !(Expired(cutoff, a) && DayStart(a.start) in days))
    && (forall a <- out :: a.size.DaySize? ==> a in rows || (a.start in days && a == DailyRow(rows, cutoff, a.start)))
    && (forall a <- rows :: !(Expired(cutoff, a) && DayStart(a.start) in days) ==> a in out)
  }

  lemma ReplacedStep(rows: seq<Aggregate>, cutoff: int, day: int, rest: seq<int>, out: seq<Aggregate>)
    requires Replaced(RollDay(rows, cutoff, day), cutoff, rest, out)
    requires day !in rest
    ensures Replaced(rows, cutoff, [day] + rest, out)
  {
    forall d | d in rest ensures DailyRow(RollDay(rows, cutoff, day), cutoff, d) == DailyRow(rows, cutoff, d) {
      OtherDayUntouched(rows, cutoff, day, d);
    }
    forall a ensures a in out && a.size.HourSize? ==>
                       a in rows && !(Expired(cutoff, a) && DayStart(a.start) in [day] + rest)
             ensures a in out && a.size.DaySize? ==>
                       a in rows || (a.start in [day] + rest && a == DailyRow(rows, cutoff, a.start))
             ensures a in rows && !(Expired(cutoff, a) && DayStart(a.start) in [day] + rest) ==> a in out
    {
      RollDayMembers(rows, cutoff, day, a);
    }
  }

  ghost predicate NoneHas(rows: seq<Aggregate>, days: seq<int>) {
    forall i | 0 <= i < |days| :: !HasDay(rows, days[i])
  }

  lemma NoneHasNext(rows: seq<Aggregate>, cutoff: int, day: int, rest: seq<int>)
    requires UniqueKeys(rows) && LatenciesOk(rows) && NoRepeats([day] + rest) && NoneHas(rows, [day] + rest)
    ensures !HasDay(rows, day) && NoRepeats(rest) && NoneHas(RollDay(rows, cutoff, day), rest)
  {
    var days := [day] + rest;
    assert days[0] == day;
    RollDayKeepsShape(rows, cutoff, day);
    forall i | 0 <= i < |rest| ensures !HasDay(RollDay(rows, cutoff, day), rest[i]) {
      assert days[i + 1] == rest[i] && !HasDay(rows, days[i + 1]) && days[0] != days[i + 1];
    }
    forall i, j | 0 <= i < j < |rest| ensures rest[i] != rest[j] {
      assert days[i + 1] == rest[i] && days[j + 1] == rest[j];
    }
  }

  /** With no daily row in the way the whole loop succeeds, keeps every total, and
      leaves exactly the rows of other days plus daily rows. */
  lemma {:induction false} RollDaysKeep(rows: seq<Aggregate>, cutoff: int, days: seq<int>)
    requires UniqueKeys(rows) && LatenciesOk(rows) && NoRepeats(days) && NoneHas(rows, days)
    ensures RollDays(rows, cutoff, days).1
    ensures var out := RollDays(rows, cutoff, days).0;
      UniqueKeys(out) && LatenciesOk(out) && TallyOf(out) == TallyOf(rows) && Replaced(rows, cutoff, days, out)
    decreases |days|
  {
    if days != [] {
      var d, rest := days[0], days[1..];
      assert days == [d] + rest;
      NoneHasNext(rows, cutoff, d, rest);
      RollDayKeepsTally(rows, cutoff, d);
      RollDayKeepsShape(rows, cutoff, d);
      RollDaysKeep(RollDay(rows, cutoff, d), cutoff, rest);
      assert forall i | 0 <= i < |rest| :: rest[i] == days[i + 1] != days[0];
      ReplacedStep(rows, cutoff, d, rest, RollDays(rows, cutoff, days).0);
    }
  }

  lemma {:induction false} DaysMetShape(picked: seq<Aggregate>)
    ensures NoRepeats(DaysMet(picked))
    ensures forall d :: d in DaysMet(picked) <==> exists a <- picked :: DayStart(a.start) == d
  {
    if picked != [] {
      var front, a := picked[..|picked| - 1], picked[|picked| - 1];
      DaysMetShape(front);
      assert picked == front + [a];
    }
  }

  // ---------------------------------------------- the roll-up, row by row

  /** The latency a row stands for, counted out. */
  function LatencyWeight(): Aggregate -> int {
    (a: Aggregate) =>
      match (a.row.latencySum, a.row.avg)
      case (Some(sum), _) => sum
      case (None, Some(avg)) => avg * a.row.runs
      case (None, None) => 0
  }

  /** Counts and latencies added up, and extremes and p95 of the rows that have them. */
  ghost predicate Totals(t: Tally, rows: seq<Aggregate>) {
    && t.runs == SumBy((a: Aggregate) => a.row.runs, rows) && t.healthy == SumBy((a: Aggregate) => a.row.healthy, rows)
    && t.degraded == SumBy((a: Aggregate) => a.row.degraded, rows)
    && t.unhealthy == SumBy((a: Aggregate) => a.row.unhealthy, rows)
    && t.latency == SumBy(LatencyWeight(), rows)
    && IsLeast(t.min, (a: Aggregate) => a.row.min, rows) && IsGreatest(t.max, (a: Aggregate) => a.row.max, rows)
    && IsGreatest(t.p95, (a: Aggregate) => a.row.p95, rows)
  }

  /** `avg` is `sum / n` rounded to the nearest integer, halves up. */
  predicate Nearest(avg: int, sum: int, n: nat) { 2 * avg * n - n <= 2 * sum < 2 * avg * n + n }

  /** A daily row that sums the rows up; the sum is only stored when it is positive. */
  ghost predicate SumsUp(row: Row, rows: seq<Aggregate>) {
    exists t | Totals(t, rows) ::
      && row.runs == t.runs && row.healthy == t.healthy && row.degraded == t.degraded && row.unhealthy == t.unhealthy
      && row.latencySum == (if t.latency > 0 then Some(t.latency) else None)
      && (row.avg.None? <==> t.runs == 0) && (row.avg.Some? ==> Nearest(row.avg.value, t.latency, t.runs))
      && row.min == t.min && row.max == t.max && row.p95 == t.p95
  }

  lemma CountsSnoc(t: Tally, rows: seq<Aggregate>, a: Aggregate)
    requires Totals(t, rows)
    ensures var u, s := AddTally(t, Weigh(a)), rows + [a];
      && u.runs == SumBy((a: Aggregate) => a.row.runs, s) && u.healthy == SumBy((a: Aggregate) => a.row.healthy, s)
      && u.degraded == SumBy((a: Aggregate) => a.row.degraded, s)
      && u.unhealthy == SumBy((a: Aggregate) => a.row.unhealthy, s)
      && u.latency == SumBy(LatencyWeight(), s)
  {
    SumBySnoc((a: Aggregate) => a.row.runs, rows, a);
    SumBySnoc((a: Aggregate) => a.row.healthy, rows, a);
    SumBySnoc((a: Aggregate) => a.row.degraded, rows, a);
    SumBySnoc((a: Aggregate) => a.row.unhealthy, rows, a);
    SumBySnoc(LatencyWeight(), rows, a);
  }

  lemma TotalsSnoc(t: Tally, rows: seq<Aggregate>, a: Aggregate)
    requires Totals(t, rows)
    ensures Totals(AddTally(t, Weigh(a)), rows + [a])
  {
    CountsSnoc(t, rows, a);
    LeastSnoc(t.min, (a: Aggregate) => a.row.min, rows, a);
    GreatestSnoc(t.max, (a: Aggregate) => a.row.max, rows, a);
    GreatestSnoc(t.p95, (a: Aggregate) => a.row.p95, rows, a);
  }

  lemma {:induction false} TallyIsTotals(rows: seq<Aggregate>)
    ensures Totals(TallyOf(rows), rows)
    decreases |rows|
  {
    if rows != [] {
      var front, a := rows[..|rows| - 1], rows[|rows| - 1];
      assert rows == front + [a];
      TallyIsTotals(front);
      TallySnoc(front, a);
      TotalsSnoc(TallyOf(front), front, a);
    }
  }

  lemma RoundsToNearest(sum: int, n: nat)
    requires n > 0
    ensures Nearest(RoundDivide(sum, n), sum, n)
  {
    var m, x := 2 * n, 2 * sum + n;
    assert x == m * (x / m) + x % m;
  }

  /** The daily row of any rows sums them up. */
  lemma RollRowSumsUp(rows: seq<Aggregate>)
    ensures SumsUp(RollRow(TallyOf(rows)), rows)
  {
    var t := TallyOf(rows);
    TallyIsTotals(rows);
    if t.runs > 0 {
      RoundsToNearest(t.latency, t.runs);
    }
  }

  /** Old hourly rows that start on a day. */
  function StartOnDay(cutoff: int, day: int): Aggregate -> bool {
    (a: Aggregate) => a.size.HourSize? && a.start < cutoff && day <= a.start < day + DAY
  }

  /** A daily row whose day holds an hourly row. */
  predicate Around(d: Aggregate, a: Aggregate) {
    d.size.DaySize? && a.size.HourSize? && d.start % DAY == 0 && d.start <= a.start < d.start + DAY
  }

  /** A roll-up at a midnight: it does without a second daily row for a day, or fails. Hourly
      rows from the cutoff on and all daily rows stay; each older hourly row goes, if it
      succeeds, into the daily row of its day, which sums up exactly the old rows of the day. */
  ghost predicate RolledAt(before: seq<Aggregate>, cutoff: int, after: seq<Aggregate>, ok: bool) {
    && (ok <==> forall d, a | d in before && a in before && a.start < cutoff :: !Around(d, a))
    && (forall a <- after :: a.size.HourSize? ==> a in before && (ok ==> a.start >= cutoff))
    && (forall a <- before :: a.size.HourSize? && a.start >= cutoff ==> a in after)
    && (forall d <- before :: d.size.DaySize? ==> d in after)
    && (forall d <- after :: d.size.DaySize? && d !in before ==>
         (exists a <- before :: a.start < cutoff && Around(d, a)) && SumsUp(d.row, Filter(StartOnDay(cutoff, d.start), before)))
    && (forall a <- before :: a.size.HourSize? && a.start < cutoff ==> a in after || exists d <- after :: Around(d, a))
  }

  lemma RollDayHas(rows: seq<Aggregate>, cutoff: int, day: int, d: int)
    requires d != day
    ensures HasDay(RollDay(rows, cutoff, day), d) <==> HasDay(rows, d)
  {
    var out := RollDay(rows, cutoff, day);
    if i :| 0 <= i < |rows| && rows[i].size.DaySize? && rows[i].start == d {
      RollDayMembers(rows, cutoff, day, rows[i]);
      assert rows[i] in out;
      var j :| 0 <= j < |out| && out[j] == rows[i];
    }
    if i :| 0 <= i < |out| && out[i].size.DaySize? && out[i].start == d {
      RollDayMembers(rows, cutoff, day, out[i]);
      var j :| 0 <= j < |rows| && rows[j] == out[i];
    }
  }

  /** The n-th day is the first that already has a daily row, if any has one. */
  ghost predicate FirstTaken(rows: seq<Aggregate>, days: seq<int>, n: nat) {
    && n <= |days| && (forall i | 0 <= i < n :: !HasDay(rows, days[i])) && (n < |days| ==> HasDay(rows, days[n]))
  }

  ghost predicate DailyRowsIn(rows: seq<Aggregate>, cutoff: int, days: seq<int>, out: seq<Aggregate>) {
    forall d <- days :: DailyRow(rows, cutoff, d) in out
  }

  lemma FirstTakenStep(rows: seq<Aggregate>, cutoff: int, day: int, rest: seq<int>, n: nat)
    requires day !in rest && !HasDay(rows, day) && FirstTaken(RollDay(rows, cutoff, day), rest, n)
    ensures FirstTaken(rows, [day] + rest, n + 1)
  {
    forall i | 0 <= i < |rest| ensures HasDay(RollDay(rows, cutoff, day), rest[i]) <==> HasDay(rows, rest[i]) {
      assert rest[i] in rest;
      RollDayHas(rows, cutoff, day, rest[i]);
    }
  }

  lemma DailyRowsStep(rows: seq<Aggregate>, cutoff: int, day: int, rest: seq<int>, out: seq<Aggregate>)
    requires day !in rest && DailyRowsIn(RollDay(rows, cutoff, day), cutoff, rest, out)
    requires Replaced(RollDay(rows, cutoff, day), cutoff, rest, out)
    ensures DailyRowsIn(rows, cutoff, [day] + rest, out)
  {
    forall d | d in [day] + rest ensures DailyRow(rows, cutoff, d) in out {
      if d == day {
        assert DailyRow(rows, cutoff, d) in RollDay(rows, cutoff, day);
      } else {
        OtherDayUntouched(rows, cutoff, day, d);
      }
    }
  }

  /** The first `n` days are rolled up, and the next one, if there is any, is taken. */
  ghost predicate RolledUpTo(rows: seq<Aggregate>, cutoff: int, days: seq<int>, n: nat, out: seq<Aggregate>) {
    && FirstTaken(rows, days, n) && Replaced(rows, cutoff, days[..n], out) && DailyRowsIn(rows, cutoff, days[..n], out)
  }

  lemma RolledUpToStep(rows: seq<Aggregate>, cutoff: int, day: int, rest: seq<int>, n: nat, out: seq<Aggregate>)
    requires day !in rest && !HasDay(rows, day) && RolledUpTo(RollDay(rows, cutoff, day), cutoff, rest, n, out)
    ensures RolledUpTo(rows, cutoff, [day] + rest, n + 1, out)
  {
    FirstTakenStep(rows, cutoff, day, rest, n);
    assert ([day] + rest)[..n + 1] == [day] + rest[..n];
    ReplacedStep(rows, cutoff, day, rest[..n], out);
    DailyRowsStep(rows, cutoff, day, rest[..n], out);
  }

  /** The days before the first one that already has a daily row are replaced. */
  lemma {:induction false} RollDaysReplace(rows: seq<Aggregate>, cutoff: int, days: seq<int>) returns (n: nat)
    requires NoRepeats(days)
    ensures RolledUpTo(rows, cutoff, days, n, RollDays(rows, cutoff, days).0)
    ensures RollDays(rows, cutoff, days).1 == (n == |days|)
    decreases |days|
  {
    n := 0;
    if days != [] && !HasDay(rows, days[0]) {
      var day, rest := days[0], days[1..];
      TailNoRepeats(days, day, rest);
      var m := RollDaysReplace(RollDay(rows, cutoff, day), cutoff, rest);
      n := m + 1;
      RolledUpToStep(rows, cutoff, day, rest, m, RollDays(rows, cutoff, days).0);
    } else {
      NoneRolled(rows, cutoff, days);
    }
  }

  lemma TailNoRepeats(days: seq<int>, day: int, rest: seq<int>)
    requires NoRepeats(days) && days != [] && day == days[0] && rest == days[1..]
    ensures days == [day] + rest && NoRepeats(rest) && day !in rest
  {
    assert forall i | 0 <= i < |rest| :: rest[i] == days[i + 1] != day;
  }

  lemma NoneRolled(rows: seq<Aggregate>, cutoff: int, days: seq<int>)
    requires days == [] || HasDay(rows, days[0])
    ensures RolledUpTo(rows, cutoff, days, 0, rows)
  {
  }

  lemma DayIsInterval(rows: seq<Aggregate>, cutoff: int, day: int)
    requires day % DAY == 0
    ensures Filter(OldOfDay(cutoff, day), rows) == Filter(StartOnDay(cutoff, day), rows)
  {
    forall a | a in rows ensures OldOfDay(cutoff, day)(a) == StartOnDay(cutoff, day)(a) {
      DayUnique(a.start, day);
    }
    FilterSame(OldOfDay(cutoff, day), StartOnDay(cutoff, day), rows);
  }

  lemma DayUnique(t: int, day: int)
    requires day % DAY == 0
    ensures DayStart(t) == day <==> day <= t < day + DAY
  {
  }

  lemma BlockedIff(rows: seq<Aggregate>, cutoff: int, day: int)
    requires day in DaysMet(Filter(IsOld(cutoff), rows))
    ensures day % DAY == 0
    ensures exists a <- rows :: a.size.HourSize? && a.start < cutoff && day <= a.start < day + DAY
    ensures HasDay(rows, day) ==> exists d, a | d in rows && a in rows && a.start < cutoff :: Around(d, a)
  {
    var picked := Filter(IsOld(cutoff), rows);
    DaysMetShape(picked);
    var a :| a in picked && DayStart(a.start) == day;
    assert IsOld(cutoff)(a) && a in rows;
    if HasDay(rows, day) {
      var i :| 0 <= i < |rows| && rows[i].size.DaySize? && rows[i].start == day;
      assert rows[i] in rows && Around(rows[i], a);
    }
  }

  lemma OldIsMet(rows: seq<Aggregate>, cutoff: int, a: Aggregate)
    requires a in rows && a.size.HourSize? && a.start < cutoff
    ensures DayStart(a.start) in DaysMet(Filter(IsOld(cutoff), rows))
  {
    FilterKeeps(IsOld(cutoff), rows, a);
    DaysMetShape(Filter(IsOld(cutoff), rows));
  }

  lemma SucceedsIff(rows: seq<Aggregate>, cutoff: int, days: seq<int>, n: nat)
    requires days == DaysMet(Filter(IsOld(cutoff), rows)) && FirstTaken(rows, days, n)
    ensures n == |days| <==> forall d, a | d in rows && a in rows && a.start < cutoff :: !Around(d, a)
  {
    if n < |days| {
      BlockedIff(rows, cutoff, days[n]);
    }
    forall d, a | d in rows && a in rows && a.start < cutoff && Around(d, a)
      ensures DayStart(a.start) in days && HasDay(rows, DayStart(a.start))
    {
      OldIsMet(rows, cutoff, a);
      DayUnique(a.start, d.start);
      var j :| 0 <= j < |rows| && rows[j] == d;
    }
  }

  /** The roll-up does what it should to every row. */
  lemma RollupMeaning(rows: seq<Aggregate>, cutoff: int)
    requires cutoff % DAY == 0
    ensures RolledAt(rows, cutoff, Rollup(rows, cutoff).0, Rollup(rows, cutoff).1)
  {
    var days := DaysMet(Filter(IsOld(cutoff), rows));
    DaysMetShape(Filter(IsOld(cutoff), rows));
    var n := RollDaysReplace(rows, cutoff, days);
    SucceedsIff(rows, cutoff, days, n);
    ReplacedMeaning(rows, cutoff, days, n, Rollup(rows, cutoff).0);
  }

  lemma ReplacedMeaning(rows: seq<Aggregate>, cutoff: int, days: seq<int>, n: nat, out: seq<Aggregate>)
    requires days == DaysMet(Filter(IsOld(cutoff), rows)) && n <= |days| && Replaced(rows, cutoff, days[..n], out)
    requires n == |days| <==> forall d, a | d in rows && a in rows && a.start < cutoff :: !Around(d, a)
    requires DailyRowsIn(rows, cutoff, days[..n], out)
    ensures RolledAt(rows, cutoff, out, n == |days|)
  {
    NewRows(rows, cutoff, days[..n], out);
    forall a | a in rows && a.size.HourSize? && a.start < cutoff ensures n == |days| ==> a !in out
      ensures a in out || exists d <- out :: Around(d, a)
    {
      OldRow(rows, cutoff, days, n, out, a);
    }
  }

  lemma OldRow(rows: seq<Aggregate>, cutoff: int, days: seq<int>, n: nat, out: seq<Aggregate>, a: Aggregate)
    requires days == DaysMet(Filter(IsOld(cutoff), rows)) && n <= |days| && Replaced(rows, cutoff, days[..n], out)
    requires DailyRowsIn(rows, cutoff, days[..n], out)
    requires a in rows && a.size.HourSize? && a.start < cutoff
    ensures n == |days| ==> a !in out
    ensures a in out || exists d <- out :: Around(d, a)
  {
    OldIsMet(rows, cutoff, a);
    assert n == |days| ==> days[..n] == days;
    OldRowIn(rows, cutoff, days[..n], out, a);
  }

  lemma OldRowIn(rows: seq<Aggregate>, cutoff: int, days: seq<int>, out: seq<Aggregate>, a: Aggregate)
    requires Replaced(rows, cutoff, days, out) && DailyRowsIn(rows, cutoff, days, out)
    requires a in rows && a.size.HourSize? && a.start < cutoff
    ensures DayStart(a.start) in days ==> a !in out && exists d <- out :: Around(d, a)
    ensures DayStart(a.start) !in days ==> a in out
  {
    var day := DayStart(a.start);
    if day in days {
      DayFacts(a.start);
      assert Around(DailyRow(rows, cutoff, day), a);
    }
  }

  lemma NewRows(rows: seq<Aggregate>, cutoff: int, days: seq<int>, out: seq<Aggregate>)
    requires Replaced(rows, cutoff, days, out)
    requires forall d <- days :: d in DaysMet(Filter(IsOld(cutoff), rows))
    ensures forall d <- out :: d.size.DaySize? && d !in rows ==>
      (exists a <- rows :: a.start < cutoff && Around(d, a)) && SumsUp(d.row, Filter(StartOnDay(cutoff, d.start), rows))
  {
    forall d | d in out && d.size.DaySize? && d !in rows
      ensures exists a <- rows :: a.start < cutoff && Around(d, a)
      ensures SumsUp(d.row, Filter(StartOnDay(cutoff, d.start), rows))
    {
      BlockedIff(rows, cutoff, d.start);
      var a :| a in rows && a.size.HourSize? && a.start < cutoff && d.start <= a.start < d.start + DAY;
      assert Around(d, a);
      DayIsInterval(rows, cutoff, d.start);
      RollRowSumsUp(Filter(OldOfDay(cutoff, d.start), rows));
    }
  }

  // -------------------------------------------------------- runs of the system

  datatype Counts = Counts(runs: nat, healthy: nat, degraded: nat, unhealthy: nat, latency: int)

  function CountsOf(t: Tally): Counts {
    Counts(t.runs, t.healthy, t.degraded, t.unhealthy, t.latency)
  }

  function AddCounts(a: Counts, b: Counts): Counts {
    Counts(a.runs + b.runs, a.healthy + b.healthy, a.degraded + b.degraded, a.unhealthy + b.unhealthy,
           a.latency + b.latency)
  }

  function SampleCounts(s: Sample): Counts {
    Counts(1, One(s.status, Healthy), One(s.status, Degraded), One(s.status, Unhealthy),
           if s.latency.Some? then s.latency.value else 0)
  }

  /** The table, and what happened so far: the latest roll-up cutoff, every day
      ever given a daily row, the totals ever incremented and ever expired. */
  datatype World = World(rows: seq<Aggregate>, horizon: int, days: seq<int>, ever: Counts, gone: Counts)

  /** `seen` is whatever the worker read before, current or not. */
  datatype Op =
    | Increment(time: int, seen: Snapshot, s: Sample)
    | Retain(now: int, hourlyDays: nat, dailyDays: nat)

  function Begin(epoch: int): World {
    World([], DayStart(epoch), [], Counts(0, 0, 0, 0, 0), Counts(0, 0, 0, 0, 0))
  }

  function RollWorld(w: World, cutoff: int): (World, bool) {
    var (rows, ok) := Rollup(w.rows, cutoff);
    (w.(rows := rows, days := w.days + DaysMet(Filter(IsOld(cutoff), w.rows)),
        horizon := if cutoff > w.horizon then cutoff else w.horizon), ok)
  }

  function ExpireWorld(w: World, cutoff: int): World {
    w.(rows := Filter(NotExpiredDay(cutoff), w.rows),
       gone := AddCounts(w.gone, CountsOf(TallyOf(Filter(IsExpiredDay(cutoff), w.rows)))))
  }

  /** A failed roll-up skips the expiry of the same job. */
  function Apply(w: World, op: Op): World {
    match op
    case Increment(time, seen, s) =>
      w.(rows := UpsertRows(w.rows, HourStart(time), seen, s), ever := AddCounts(w.ever, SampleCounts(s)))
    case Retain(now, hourlyDays, dailyDays) =>
      var (rolled, ok) := RollWorld(w, HourlyCutoff(now, hourlyDays));
      if ok then ExpireWorld(rolled, now - dailyDays * DAY) else rolled
  }

  function Exec(epoch: int, ops: seq<Op>): World {
    if ops == [] then Begin(epoch) else Apply(Exec(epoch, ops[..|ops| - 1]), ops[|ops| - 1])
  }

  /** An increment is in time when its run is no older than the latest roll-up cutoff. */
  ghost predicate InTime(w: World, op: Op) {
    op.Increment? ==> op.time >= w.horizon && (op.s.latency.Some? ==> op.s.latency.value >= 0)
  }

  ghost predicate AllInTime(epoch: int, ops: seq<Op>) {
    ops == [] ||
    (AllInTime(epoch, ops[..|ops| - 1]) && InTime(Exec(epoch, ops[..|ops| - 1]), ops[|ops| - 1]))
  }

  ghost predicate HourlyRowOk(horizon: int, a: Aggregate) {
    && a.start % HOUR == 0 && a.start >= horizon
    && (a.row.latencySum.None? ==> a.row.avg.None?) && RowLatency(a.row) >= 0
  }

  ghost predicate DayClosed(horizon: int, day: int) {
    day % DAY == 0 && day + DAY <= horizon
  }

  ghost predicate StoreInv(w: World) {
    && UniqueKeys(w.rows)
    && w.horizon % DAY == 0
    && (forall a <- w.rows :: a.size.HourSize? ==> HourlyRowOk(w.horizon, a))
    && (forall a <- w.rows :: a.size.DaySize? ==> a.start in w.days)
    && (forall d <- w.days :: DayClosed(w.horizon, d))
    && NoRepeats(w.days)
    && AddCounts(CountsOf(TallyOf(w.rows)), w.gone) == w.ever
  }

  lemma DayFacts(t: int)
    ensures DayStart(t) % DAY == 0 && DayStart(t) <= t < DayStart(t) + DAY
  {
  }

  lemma DayBefore(t: int, boundary: int)
    requires boundary % DAY == 0
    ensures t < boundary ==> DayStart(t) + DAY <= boundary
    ensures boundary <= t ==> boundary <= DayStart(t)
  {
  }

  lemma HourFacts(t: int, boundary: int)
    requires boundary % DAY == 0 && boundary <= t
    ensures HourStart(t) % HOUR == 0 && boundary <= HourStart(t) <= t
  {
    var days := boundary / DAY;
    assert boundary == (24 * days) * HOUR;
    HourOfMultiple(24 * days, t);
  }

  lemma HourOfMultiple(n: int, t: int)
    requires n * HOUR <= t
    ensures HourStart(t) % HOUR == 0 && n * HOUR <= HourStart(t) <= t
  {
    var h := t / HOUR;
    assert t == h * HOUR + t % HOUR && HourStart(t) == h * HOUR;
  }

  lemma CountsCons(a: Aggregate, rest: seq<Aggregate>)
    ensures CountsOf(TallyOf([a] + rest)) == AddCounts(CountsOf(RowTally(a.row)), CountsOf(TallyOf(rest)))
  {
    AdderIsMonoid();
    FoldCons(Adder(), NO_TALLY, Weigh, a, rest);
  }

  lemma UpsertRowCounts(row: Option<Row>, seen: Snapshot, s: Sample)
    requires row.Some? ==> (row.value.latencySum.None? ==> row.value.avg.None?)
    ensures CountsOf(RowTally(Upsert(row, seen, s))) ==
      AddCounts(if row.Some? then CountsOf(RowTally(row.value)) else Counts(0, 0, 0, 0, 0), SampleCounts(s))
  {
  }

  lemma {:induction false} UpsertCounts(rows: seq<Aggregate>, start: int, seen: Snapshot, s: Sample)
    requires forall i | 0 <= i < |rows| :: rows[i].size.HourSize? ==> (rows[i].row.latencySum.None? ==> rows[i].row.avg.None?)
    ensures CountsOf(TallyOf(UpsertRows(rows, start, seen, s))) == AddCounts(CountsOf(TallyOf(rows)), SampleCounts(s))
  {
    if rows == [] {
      UpsertRowCounts(None, seen, s);
      CountsCons(Aggregate(HourSize, start, Upsert(None, seen, s)), []);
      assert [Aggregate(HourSize, start, Upsert(None, seen, s))] + [] == UpsertRows(rows, start, seen, s);
    } else {
      var a, rest := rows[0], rows[1..];
      assert rows == [a] + rest;
      CountsCons(a, rest);
      if a.size.HourSize? && a.start == start {
        UpsertRowCounts(Some(a.row), seen, s);
        CountsCons(a.(row := Upsert(Some(a.row), seen, s)), rest);
      } else {
        UpsertCounts(rest, start, seen, s);
        CountsCons(a, UpsertRows(rest, start, seen, s));
      }
    }
  }

  /** Rows after an upsert: the old ones, except that the hour's row was updated or added. */
  lemma {:induction false} UpsertMembers(rows: seq<Aggregate>, start: int, seen: Snapshot, s: Sample)
    ensures forall a <- UpsertRows(rows, start, seen, s) ::
      || a in rows
      || (a.size.HourSize? && a.start == start &&
          (a.row == Upsert(None, seen, s) ||
           exists b <- rows :: b.size.HourSize? && b.start == start && a.row == Upsert(Some(b.row), seen, s)))
    ensures UniqueKeys(rows) ==> UniqueKeys(UpsertRows(rows, start, seen, s))
  {
    if rows != [] && !(rows[0].size.HourSize? && rows[0].start == start) {
      UpsertMembers(rows[1..], start, seen, s);
      var out := UpsertRows(rows[1..], start, seen, s);
      if UniqueKeys(rows) {
        forall i | 0 <= i < |out| ensures rows[0].size != out[i].size || rows[0].start != out[i].start {
          assert out[i] in out;
          if out[i] in rows[1..] {
            var j :| 0 <= j < |rows[1..]| && rows[1..][j] == out[i];
            assert rows[j + 1] == out[i];
          }
        }
      }
    }
  }

  lemma UpsertLatency(row: Option<Row>, seen: Snapshot, s: Sample)
    requires s.latency.Some? ==> s.latency.value >= 0
    requires row.Some? ==> RowLatency(row.value) >= 0 && (row.value.latencySum.None? ==> row.value.avg.None?)
    ensures var r := Upsert(row, seen, s); RowLatency(r) >= 0 && (r.latencySum.None? ==> r.avg.None?)
  {
  }

  lemma UpsertKeepsHourly(rows: seq<Aggregate>, horizon: int, start: int, seen: Snapshot, s: Sample)
    requires start % HOUR == 0 && start >= horizon && (s.latency.Some? ==> s.latency.value >= 0)
    requires forall a <- rows :: a.size.HourSize? ==> HourlyRowOk(horizon, a)
    ensures forall a <- UpsertRows(rows, start, seen, s) :: a.size.HourSize? ==> HourlyRowOk(horizon, a)
    ensures forall a <- UpsertRows(rows, start, seen, s) :: a.size.DaySize? ==> a in rows
  {
    UpsertMembers(rows, start, seen, s);
    forall a | a in UpsertRows(rows, start, seen, s) && a.size.HourSize? ensures HourlyRowOk(horizon, a) {
      if a !in rows {
        if a.row == Upsert(None, seen, s) {
          UpsertLatency(None, seen, s);
        } else {
          var b :| b in rows && b.size.HourSize? && b.start == start && a.row == Upsert(Some(b.row), seen, s);
          UpsertLatency(Some(b.row), seen, s);
        }
      }
    }
  }

  lemma IncrementKeepsInv(w: World, op: Op)
    requires StoreInv(w) && op.Increment? && InTime(w, op)
    ensures StoreInv(Apply(w, op))
  {
    var start := HourStart(op.time);
    HourFacts(op.time, w.horizon);
    UpsertCounts(w.rows, start, op.seen, op.s);
    UpsertMembers(w.rows, start, op.seen, op.s);
    UpsertKeepsHourly(w.rows, w.horizon, start, op.seen, op.s);
  }

  lemma {:induction false} RolledDays(w: World, cutoff: int)
    requires StoreInv(w) && cutoff % DAY == 0
    ensures var days := DaysMet(Filter(IsOld(cutoff), w.rows));
      && NoRepeats(days)
      && (forall d <- days :: d % DAY == 0 && w.horizon <= d && d + DAY <= cutoff)
      && forall a <- w.rows :: Expired(cutoff, a) ==> DayStart(a.start) in days
  {
    var picked := Filter(IsOld(cutoff), w.rows);
    DaysMetShape(picked);
    forall d | d in DaysMet(picked) ensures d % DAY == 0 && w.horizon <= d && d + DAY <= cutoff {
      var a :| a in picked && DayStart(a.start) == d;
      assert a in w.rows && HourlyRowOk(w.horizon, a);
      DayFacts(a.start);
      DayBefore(a.start, cutoff);
      DayBefore(a.start, w.horizon);
    }
    forall a | a in w.rows && Expired(cutoff, a) ensures DayStart(a.start) in DaysMet(picked) {
      FilterKeeps(IsOld(cutoff), w.rows, a);
    }
  }

  lemma NoConflict(w: World, days: seq<int>)
    requires StoreInv(w) && forall d <- days :: w.horizon <= d
    ensures NoneHas(w.rows, days)
  {
    forall i, j | 0 <= i < |days| && 0 <= j < |w.rows| && w.rows[j].size.DaySize? ensures w.rows[j].start != days[i] {
      assert days[i] in days && w.rows[j] in w.rows;
      assert DayClosed(w.horizon, w.rows[j].start);
    }
  }

  lemma DaysAppend(w: World, days: seq<int>, horizon: int)
    requires StoreInv(w) && NoRepeats(days) && w.horizon <= horizon
    requires forall d <- days :: d % DAY == 0 && w.horizon <= d && d + DAY <= horizon
    ensures NoRepeats(w.days + days) && forall d <- w.days + days :: DayClosed(horizon, d)
  {
    var all := w.days + days;
    forall i, j | 0 <= i < j < |all| ensures all[i] != all[j] {
      if i < |w.days| <= j {
        assert all[i] in w.days && all[j] in days;
      }
    }
  }

  /** The roll-up of a job always succeeds: no day is ever given a second daily row. */
  lemma RollKeepsInv(w: World, cutoff: int)
    requires StoreInv(w) && cutoff % DAY == 0
    ensures RollWorld(w, cutoff).1
    ensures StoreInv(RollWorld(w, cutoff).0)
    ensures TallyOf(RollWorld(w, cutoff).0.rows) == TallyOf(w.rows)
  {
    var days := DaysMet(Filter(IsOld(cutoff), w.rows));
    RolledDays(w, cutoff);
    NoConflict(w, days);
    RollDaysKeep(w.rows, cutoff, days);
    var after := RollWorld(w, cutoff).0;
    DaysAppend(w, days, after.horizon);
    forall a | a in after.rows && a.size.HourSize? ensures HourlyRowOk(after.horizon, a) {
      assert a in w.rows && HourlyRowOk(w.horizon, a);
    }
  }

  lemma ExpireSplits(rows: seq<Aggregate>, cutoff: int)
    ensures TallyOf(rows) == AddTally(TallyOf(Filter(NotExpiredDay(cutoff), rows)), TallyOf(Filter(IsExpiredDay(cutoff), rows)))
  {
    AdderIsMonoid();
    FoldSplit(Adder(), NO_TALLY, Weigh, rows, NotExpiredDay(cutoff), IsExpiredDay(cutoff), AnyRow());
    FilterAll(AnyRow(), rows);
  }

  lemma ExpireKeepsInv(w: World, cutoff: int)
    requires StoreInv(w)
    ensures StoreInv(ExpireWorld(w, cutoff))
  {
    UniqueFilter(NotExpiredDay(cutoff), w.rows);
    ExpireKeepsTotals(w, cutoff);
    assert forall a <- ExpireWorld(w, cutoff).rows :: a in w.rows;
  }

  lemma ExpireKeepsTotals(w: World, cutoff: int)
    requires AddCounts(CountsOf(TallyOf(w.rows)), w.gone) == w.ever
    ensures var x := ExpireWorld(w, cutoff); AddCounts(CountsOf(TallyOf(x.rows)), x.gone) == x.ever
  {
    ExpireSplits(w.rows, cutoff);
    var kept, expired := TallyOf(Filter(NotExpiredDay(cutoff), w.rows)), TallyOf(Filter(IsExpiredDay(cutoff), w.rows));
    MoveCounts(TallyOf(w.rows), kept, expired, w.gone, w.ever);
  }

  /** Counts that leave the table turn up among the expired ones. */
  lemma MoveCounts(all: Tally, kept: Tally, expired: Tally, gone: Counts, ever: Counts)
    requires all == AddTally(kept, expired) && AddCounts(CountsOf(all), gone) == ever
    ensures AddCounts(CountsOf(kept), AddCounts(gone, CountsOf(expired))) == ever
  {
  }

  /** A job is a successful roll-up followed by the expiry. */
  lemma RetainTwoSteps(w: World, op: Op) returns (rolled: World, cutoff: int, expiry: int)
    requires StoreInv(w) && op.Retain?
    ensures cutoff % DAY == 0 && rolled == RollWorld(w, cutoff).0 && StoreInv(rolled)
    ensures Apply(w, op) == ExpireWorld(rolled, expiry)
  {
    cutoff, expiry := HourlyCutoff(op.now, op.hourlyDays), op.now - op.dailyDays * DAY;
    rolled := RollAtMidnight(w, op.now - op.hourlyDays * DAY, cutoff);
    RetainForm(w, op, cutoff, expiry);
  }

  lemma RollAtMidnight(w: World, t: int, cutoff: int) returns (rolled: World)
    requires StoreInv(w) && cutoff == DayStart(t)
    ensures cutoff % DAY == 0 && rolled == RollWorld(w, cutoff).0 && RollWorld(w, cutoff).1 && StoreInv(rolled)
  {
    DayFacts(t);
    RollKeepsInv(w, cutoff);
    rolled := RollWorld(w, cutoff).0;
  }

  lemma RetainForm(w: World, op: Op, cutoff: int, expiry: int)
    requires op.Retain? && cutoff == HourlyCutoff(op.now, op.hourlyDays) && expiry == op.now - op.dailyDays * DAY
    requires RollWorld(w, cutoff).1
    ensures Apply(w, op) == ExpireWorld(RollWorld(w, cutoff).0, expiry)
  {
  }

  lemma RetainKeepsInv(w: World, op: Op)
    requires StoreInv(w) && op.Retain?
    ensures StoreInv(Apply(w, op))
  {
    var rolled, cutoff, expiry := RetainTwoSteps(w, op);
    ExpireKeepsInv(rolled, expiry);
  }

  /** Over every run of in-time increments and retention jobs: keys are unique,
      every daily row lies before every hourly row, no day is inserted twice, and
      what is stored plus what expired is what was ever incremented. */
  lemma {:induction false} StorageInvariant(epoch: int, ops: seq<Op>)
    requires AllInTime(epoch, ops)
    ensures StoreInv(Exec(epoch, ops))
  {
    if ops == [] {
      DayFacts(epoch);
    } else {
      var w, op := Exec(epoch, ops[..|ops| - 1]), ops[|ops| - 1];
      StorageInvariant(epoch, ops[..|ops| - 1]);
      if op.Increment? {
        IncrementKeepsInv(w, op);
      } else {
        RetainKeepsInv(w, op);
      }
    }
  }

  /** Read off the invariant: days lie wholly before hours. */
  lemma DailyBeforeHourly(epoch: int, ops: seq<Op>, d: Aggregate, h: Aggregate)
    requires AllInTime(epoch, ops) && d in Exec(epoch, ops).rows && h in Exec(epoch, ops).rows
    requires d.size.DaySize? && h.size.HourSize?
    ensures d.start + DAY <= h.start
  {
    StorageInvariant(epoch, ops);
    assert HourlyRowOk(Exec(epoch, ops).horizon, h);
    assert DayClosed(Exec(epoch, ops).horizon, d.start);
  }

  // ----------------------------------------------------- prompt increments

  function ClockOf(op: Op): int { if op.Increment? then op.time else op.now }

  /** Time does not go back, and every run is counted when it happens. */
  ghost predicate Prompt(epoch: int, ops: seq<Op>) {
    && (forall i | 0 <= i < |ops| :: epoch <= ClockOf(ops[i]))
    && (forall i, j | 0 <= i < j < |ops| :: ClockOf(ops[i]) <= ClockOf(ops[j]))
    && forall i | 0 <= i < |ops| && ops[i].Increment? && ops[i].s.latency.Some? :: ops[i].s.latency.value >= 0
  }

  lemma CutoffNotAhead(now: int, hourlyDays: nat)
    ensures HourlyCutoff(now, hourlyDays) <= now
  {
    assert hourlyDays * DAY >= 0;
    DayFacts(now - hourlyDays * DAY);
  }

  lemma {:induction false} PromptHorizon(epoch: int, ops: seq<Op>, t: int)
    requires Prompt(epoch, ops) && epoch <= t && forall i | 0 <= i < |ops| :: ClockOf(ops[i]) <= t
    ensures Exec(epoch, ops).horizon <= t
  {
    if ops == [] {
      DayFacts(epoch);
    } else {
      var op := ops[|ops| - 1];
      PromptHorizon(epoch, ops[..|ops| - 1], t);
      if op.Retain? {
        CutoffNotAhead(op.now, op.hourlyDays);
      }
    }
  }

  /** Under a clock that never goes back every increment is in time, whatever the
      retention settings, so the storage invariant holds. */
  lemma PromptIsInTime(epoch: int, ops: seq<Op>)
    requires Prompt(epoch, ops)
    ensures AllInTime(epoch, ops) && StoreInv(Exec(epoch, ops))
  {
    PromptNeverLate(epoch, ops);
    StorageInvariant(epoch, ops);
  }

  lemma {:induction false} PromptNeverLate(epoch: int, ops: seq<Op>)
    requires Prompt(epoch, ops)
    ensures AllInTime(epoch, ops)
  {
    if ops != [] {
      PromptNeverLate(epoch, ops[..|ops| - 1]);
      PromptHorizon(epoch, ops[..|ops| - 1], ClockOf(ops[|ops| - 1]));
    }
  }

  // ----------------------------------------------------------- the table itself

  function NotAmong(group: seq<Aggregate>): Aggregate -> bool { (a: Aggregate) => a !in group }

  lemma OtherDayUntouched(rows: seq<Aggregate>, cutoff: int, day: int, other: int)
    requires day != other
    ensures Filter(OldOfDay(cutoff, other), RollDay(rows, cutoff, day)) == Filter(OldOfDay(cutoff, other), rows)
  {
    FilterAppend(OldOfDay(cutoff, other), Filter(NotOldOfDay(cutoff, day), rows), [DailyRow(rows, cutoff, day)]);
    FilterFilter(OldOfDay(cutoff, other), NotOldOfDay(cutoff, day), OldOfDay(cutoff, other), rows);
  }

  lemma DeletedIsRolled(rows: seq<Aggregate>, cutoff: int, day: int, group: seq<Aggregate>, daily: Aggregate)
    requires group == Filter(OldOfDay(cutoff, day), rows)
    requires daily == Aggregate(DaySize, day, RollRow(TallyOf(group)))
    ensures Filter(NotAmong(group), rows + [daily]) == RollDay(rows, cutoff, day)
  {
    FilterAppend(NotAmong(group), rows, [daily]);
    forall a | a in rows ensures NotAmong(group)(a) == NotOldOfDay(cutoff, day)(a) {
      if OldOfDay(cutoff, day)(a) {
        FilterKeeps(OldOfDay(cutoff, day), rows, a);
      }
    }
    FilterSame(NotAmong(group), NotOldOfDay(cutoff, day), rows);
    assert daily !in group by {
      assert forall a <- group :: OldOfDay(cutoff, day)(a);
    }
  }

  /** Sums, extremes and the largest p95 of the hourly rows of one day. */
  method SumUp(group: seq<Aggregate>) returns (row: Row)
    ensures row == RollRow(TallyOf(group))
    ensures SumsUp(row, group)
  {
    RollRowSumsUp(group);
    var runs: nat, healthy: nat, degraded: nat, unhealthy: nat := 0, 0, 0, 0;
    var latency, mins, maxs, p95s := 0, [], [], [];
    for i := 0 to |group|
      invariant TallyOf(group[..i]) ==
        Tally(runs, healthy, degraded, unhealthy, latency, ListMin(mins), ListMax(maxs), ListMax(p95s))
    {
      var r := group[i].row;
      assert group[..i + 1] == group[..i] + [group[i]];
      TallySnoc(group[..i], group[i]);
      runs, healthy := runs + r.runs, healthy + r.healthy;
      degraded, unhealthy := degraded + r.degraded, unhealthy + r.unhealthy;
      latency := latency + RowLatency(r);
      mins := PushIfPresent(mins, r.min);
      maxs := PushIfPresent(maxs, r.max);
      p95s := PushIfPresent(p95s, r.p95);
    }
    assert group[..|group|] == group;
    row := Row(runs, healthy, degraded, unhealthy,
               if latency > 0 then Some(latency) else None,
               if runs > 0 then Some(RoundDivide(latency, runs)) else None,
               ListMin(mins), ListMax(maxs), ListMax(p95s));
  }

  lemma DayGroupsSnoc(front: seq<Aggregate>, a: Aggregate)
    ensures forall d ::
      Filter(StartsOn(d), front + [a]) ==
        (if d == DayStart(a.start) then Filter(StartsOn(d), front) + [a] else Filter(StartsOn(d), front))
  {
    forall d
      ensures Filter(StartsOn(d), front + [a]) ==
        (if d == DayStart(a.start) then Filter(StartsOn(d), front) + [a] else Filter(StartsOn(d), front))
    {
      FilterSnoc(StartsOn(d), front, a);
    }
  }

  lemma DaysMetSnoc(front: seq<Aggregate>, a: Aggregate)
    ensures var day, before := DayStart(a.start), DaysMet(front);
      && DaysMet(front + [a]) == (if day in before then before else before + [day])
      && (day !in before ==> Filter(StartsOn(day), front) == [])
  {
    assert (front + [a])[..|front|] == front;
    if DayStart(a.start) !in DaysMet(front) {
      NewDayIsEmpty(front, DayStart(a.start));
    }
  }

  /** The days met so far, in order, and the rows of each. */
  ghost predicate DayGroups(picked: seq<Aggregate>, days: seq<int>, groups: map<int, seq<Aggregate>>) {
    && days == DaysMet(picked)
    && (forall d :: d in days <==> d in groups)
    && forall d <- groups :: groups[d] == Filter(StartsOn(d), picked)
  }

  lemma OldDayNext(front: seq<Aggregate>, a: Aggregate, days: seq<int>, groups: map<int, seq<Aggregate>>)
    requires DayGroups(front, days, groups) && DayStart(a.start) in groups
    ensures DayGroups(front + [a], days, groups[DayStart(a.start) := groups[DayStart(a.start)] + [a]])
  {
    DayGroupsSnoc(front, a);
    DaysMetSnoc(front, a);
  }

  lemma NewDayNext(front: seq<Aggregate>, a: Aggregate, days: seq<int>, groups: map<int, seq<Aggregate>>)
    requires DayGroups(front, days, groups) && DayStart(a.start) !in groups
    ensures DayGroups(front + [a], days + [DayStart(a.start)], groups[DayStart(a.start) := [a]])
  {
    DayGroupsSnoc(front, a);
    DaysMetSnoc(front, a);
    assert [] + [a] == [a];
  }

  method GroupByDay(picked: seq<Aggregate>) returns (days: seq<int>, groups: map<int, seq<Aggregate>>)
    ensures days == DaysMet(picked)
    ensures forall i | 0 <= i < |days| :: days[i] in groups && groups[days[i]] == Filter(StartsOn(days[i]), picked)
  {
    days, groups := [], map[];
    for i := 0 to |picked|
      invariant DayGroups(picked[..i], days, groups)
    {
      var day := DayStart(picked[i].start);
      assert picked[..i + 1] == picked[..i] + [picked[i]];
      if day !in groups {
        NewDayNext(picked[..i], picked[i], days, groups);
        groups, days := groups[day := []], days + [day];
      } else {
        OldDayNext(picked[..i], picked[i], days, groups);
      }
      groups := groups[day := groups[day] + [picked[i]]];
    }
    assert picked[..|picked|] == picked;
    forall i | 0 <= i < |days| ensures days[i] in groups && groups[days[i]] == Filter(StartsOn(days[i]), picked) {
      var d := days[i];
      assert d in days && d in groups;
    }
  }

  function StartsOn(day: int): Aggregate -> bool { (a: Aggregate) => DayStart(a.start) == day }

  lemma NewDayIsEmpty(picked: seq<Aggregate>, day: int)
    requires day !in DaysMet(picked)
    ensures Filter(StartsOn(day), picked) == []
  {
    DaysMetShape(picked);
    FilterNone(StartsOn(day), picked);
  }

  /** The rows of other keys stay as they are, in order. */
  lemma {:induction false} UpsertLeavesOthers(rows: seq<Aggregate>, start: int, seen: Snapshot, s: Sample)
    ensures Filter(NotHour(start), UpsertRows(rows, start, seen, s)) == Filter(NotHour(start), rows)
    ensures UniqueKeys(rows) ==> |Filter(OfHour(start), UpsertRows(rows, start, seen, s))| == 1
  {
    UpsertMembers(rows, start, seen, s);
    if rows != [] {
      var a, rest := rows[0], rows[1..];
      if a.size.HourSize? && a.start == start {
        var b := a.(row := Upsert(Some(a.row), seen, s));
        FilterCons(NotHour(start), b, rest);
        FilterCons(OfHour(start), b, rest);
        if UniqueKeys(rows) {
          FilterNone(OfHour(start), rest);
        }
      } else {
        UpsertLeavesOthers(rest, start, seen, s);
        FilterCons(NotHour(start), a, UpsertRows(rest, start, seen, s));
        FilterCons(OfHour(start), a, UpsertRows(rest, start, seen, s));
      }
    }
  }

  predicate IsHour(start: int, a: Aggregate) { a.size.HourSize? && a.start == start }

  function NotHour(start: int): Aggregate -> bool { (a: Aggregate) => !IsHour(start, a) }

  function OfHour(start: int): Aggregate -> bool { (a: Aggregate) => IsHour(start, a) }

  /** Rows with an average also store the sum, as every increment writes them. */
  ghost predicate SumsStored(rows: seq<Aggregate>) {
    forall i | 0 <= i < |rows| :: rows[i].size.HourSize? ==> (rows[i].row.latencySum.None? ==> rows[i].row.avg.None?)
  }

  lemma FilterMembers<T>(p: T -> bool, s: seq<T>, x: T)
    ensures x in Filter(p, s) <==> x in s && p(x)
  {
    if x in s && p(x) {
      FilterKeeps(p, s, x);
    }
  }

  /** The rows a job leaves; a failed roll-up skips the expiry. */
  function Retained(rows: seq<Aggregate>, now: int, hourlyDays: nat, dailyDays: nat): seq<Aggregate> {
    var (rolled, ok) := Rollup(rows, HourlyCutoff(now, hourlyDays));
    if ok then Filter(NotExpiredDay(now - dailyDays * DAY), rolled) else rolled
  }

  /** The job of the table is the step of the runs that `StorageInvariant` is about, and
      in every state they reach the failed case does not occur. */
  lemma JobIsStep(w: World, now: int, hourlyDays: nat, dailyDays: nat)
    ensures Apply(w, Retain(now, hourlyDays, dailyDays)).rows == Retained(w.rows, now, hourlyDays, dailyDays)
    ensures StoreInv(w) ==> Rollup(w.rows, HourlyCutoff(now, hourlyDays)).1
  {
    if StoreInv(w) {
      DayFacts(now - hourlyDays * DAY);
      RollKeepsInv(w, HourlyCutoff(now, hourlyDays));
    }
  }

  /** The full hour that begins the hour of `t`. */
  predicate LastFullHour(t: int, hour: int) { hour % HOUR == 0 && hour <= t < hour + HOUR }

  /** After a roll-up that succeeded exactly the daily rows before the limit go. */
  ghost predicate Expires(rolled: seq<Aggregate>, ok: bool, limit: int, rows: seq<Aggregate>) {
    forall a :: a in rows <==> a in rolled && !(ok && a.size.DaySize? && a.start < limit)
  }

  /** The midnight that begins the day of `t`. */
  predicate LastMidnight(t: int, midnight: int) { midnight % DAY == 0 && midnight <= t < midnight + DAY }

  /** The hour's row after an increment: the first row is new, a later one is the old one
      updated with its own extremes at hand. */
  ghost predicate Incremented(before: seq<Aggregate>, hour: int, s: Sample, after: seq<Aggregate>) {
    && ((forall b <- before :: !IsHour(hour, b)) ==> Aggregate(HourSize, hour, Upsert(None, NoRow, s)) in after)
    && forall b <- before :: IsHour(hour, b) ==>
         Aggregate(HourSize, hour, Upsert(Some(b.row), Found(b.row.min, b.row.max), s)) in after
  }

  lemma {:induction false} UpsertHits(rows: seq<Aggregate>, start: int, seen: Snapshot, s: Sample)
    requires UniqueKeys(rows)
    ensures (forall b <- rows :: !IsHour(start, b)) ==>
      LookUp(rows, start) == NoRow && Aggregate(HourSize, start, Upsert(None, seen, s)) in UpsertRows(rows, start, seen, s)
    ensures forall b <- rows :: IsHour(start, b) ==>
      && LookUp(rows, start) == Found(b.row.min, b.row.max)
      && Aggregate(HourSize, start, Upsert(Some(b.row), seen, s)) in UpsertRows(rows, start, seen, s)
  {
    if rows != [] {
      UpsertHits(rows[1..], start, seen, s);
      assert rows == [rows[0]] + rows[1..];
      if IsHour(start, rows[0]) {
        forall b | b in rows && IsHour(start, b) ensures b == rows[0] {
          var i :| 0 <= i < |rows| && rows[i] == b;
        }
      }
    }
  }

  lemma UpsertOnce(rows: seq<Aggregate>, start: int, s: Sample)
    ensures UniqueKeys(rows) ==>
      var after := UpsertRows(rows, start, LookUp(rows, start), s); UniqueKeys(after) && Incremented(rows, start, s, after)
  {
    if UniqueKeys(rows) {
      UpsertMembers(rows, start, LookUp(rows, start), s);
      UpsertHits(rows, start, LookUp(rows, start), s);
    }
  }

  function NotOlder(cutoff: int): Run -> bool { (r: Run) => r.time >= cutoff }

  class AggregateTable {
    var runs: seq<Run>
    var rows: seq<Aggregate>

    constructor ()
      ensures rows == [] && runs == []
    {
      rows, runs := [], [];
    }

    /** The worker's read: the extremes of the hour's row, if there is one. */
    method ReadHour(start: int) returns (seen: Snapshot)
      ensures seen == LookUp(rows, start)
    {
      for i := 0 to |rows|
        invariant LookUp(rows, start) == LookUp(rows[i..], start)
      {
        if rows[i].size.HourSize? && rows[i].start == start {
          return Found(rows[i].row.min, rows[i].row.max);
        }
      }
      return NoRow;
    }

    /** Adds exactly the run to the totals and touches only the row of its hour. */
    method IncrementHourlyAggregate(time: int, s: Sample)
      modifies this`rows
      ensures rows == UpsertRows(old(rows), HourStart(time), LookUp(old(rows), HourStart(time)), s)
      ensures LastFullHour(time, HourStart(time))
      ensures old(UniqueKeys(rows)) ==> Incremented(old(rows), HourStart(time), s, rows)
      ensures Filter(NotHour(HourStart(time)), rows) == Filter(NotHour(HourStart(time)), old(rows))
      ensures old(UniqueKeys(rows)) ==> UniqueKeys(rows) && |Filter(OfHour(HourStart(time)), rows)| == 1
      ensures old(SumsStored(rows)) ==> CountsOf(TallyOf(rows)) == AddCounts(old(CountsOf(TallyOf(rows))), SampleCounts(s))
    {
      var start := HourStart(time);
      var seen := ReadHour(start);
      UpsertLeavesOthers(rows, start, seen, s);
      UpsertOnce(rows, start, s);
      if SumsStored(rows) {
        UpsertCounts(rows, start, seen, s);
      }
      rows := UpsertRows(rows, start, seen, s);
    }

    method DeleteRows(group: seq<Aggregate>)
      modifies this`rows
      ensures rows == Filter(NotAmong(group), old(rows))
    {
      FilterAll(NotAmong([]), rows);
      for i := 0 to |group|
        invariant rows == Filter(NotAmong(group[..i]), old(rows))
      {
        assert group[..i + 1] == group[..i] + [group[i]];
        FilterFilter(NotAmong([group[i]]), NotAmong(group[..i]), NotAmong(group[..i + 1]), old(rows));
        rows := Filter(NotAmong([group[i]]), rows);
      }
      assert group[..|group|] == group;
    }

    /** `rollupHourlyAggregates`; `ok` is false when an insert hits the unique index. */
    method RollupHourlyAggregates(now: int, hourlyDays: nat) returns (ok: bool)
      modifies this`rows
      ensures (rows, ok) == Rollup(old(rows), HourlyCutoff(now, hourlyDays))
      ensures exists cutoff | LastMidnight(now - hourlyDays * DAY, cutoff) :: RolledAt(old(rows), cutoff, rows, ok)
    {
      var cutoff := DayStart(now - hourlyDays * DAY);
      DayFacts(now - hourlyDays * DAY);
      RollupMeaning(rows, cutoff);
      var picked := Filter(IsOld(cutoff), rows);
      if |picked| == 0 {
        return true;
      }
      var days, groups := GroupByDay(picked);
      DaysMetShape(picked);
      forall i | 0 <= i < |days| ensures groups[days[i]] == Filter(OldOfDay(cutoff, days[i]), rows) {
        FilterFilter(StartsOn(days[i]), IsOld(cutoff), OldOfDay(cutoff, days[i]), rows);
      }
      assert LastMidnight(now - hourlyDays * DAY, cutoff);
      for i := 0 to |days|
        invariant RollDays(rows, cutoff, days[i..]) == RollDays(old(rows), cutoff, days)
        invariant forall j | i <= j < |days| :: groups[days[j]] == Filter(OldOfDay(cutoff, days[j]), rows)
      {
        var day := days[i];
        assert days[i..][0] == day && days[i..][1..] == days[i + 1..];
        if HasDay(rows, day) {
          return false;
        }
        var row := SumUp(groups[day]);
        DeletedIsRolled(rows, cutoff, day, groups[day], Aggregate(DaySize, day, row));
        forall j | i < j < |days| ensures groups[days[j]] == Filter(OldOfDay(cutoff, days[j]), RollDay(rows, cutoff, day)) {
          OtherDayUntouched(rows, cutoff, day, days[j]);
        }
        rows := rows + [Aggregate(DaySize, day, row)];
        DeleteRows(groups[day]);
      }
      return true;
    }

    /** Exactly the daily rows before the cutoff go, and with them exactly their totals. */
    method DeleteExpiredAggregates(now: int, dailyDays: nat)
      modifies this`rows
      ensures rows == Filter(NotExpiredDay(now - dailyDays * DAY), old(rows))
      ensures forall a :: a in rows <==> a in old(rows) && !(a.size.DaySize? && a.start < now - dailyDays * DAY)
      ensures old(TallyOf(rows)) == AddTally(TallyOf(rows), old(TallyOf(Filter(IsExpiredDay(now - dailyDays * DAY), rows))))
      ensures old(UniqueKeys(rows)) ==> UniqueKeys(rows)
    {
      var cutoff := now - dailyDays * DAY;
      forall a ensures a in Filter(NotExpiredDay(cutoff), rows) <==> a in rows && NotExpiredDay(cutoff)(a) {
        FilterMembers(NotExpiredDay(cutoff), rows, a);
      }
      ExpireSplits(rows, cutoff);
      if UniqueKeys(rows) {
        UniqueFilter(NotExpiredDay(cutoff), rows);
      }
      rows := Filter(NotExpiredDay(cutoff), rows);
    }

    method DeleteExpiredRawRuns(now: int, rawDays: nat)
      modifies this`runs
      ensures runs == Filter(NotOlder(now - rawDays * DAY), old(runs))
      ensures forall r :: r in runs <==> r in old(runs) && r.time >= now - rawDays * DAY
    {
      var cutoff := now - rawDays * DAY;
      forall r ensures r in Filter(NotOlder(cutoff), runs) <==> r in runs && NotOlder(cutoff)(r) {
        FilterMembers(NotOlder(cutoff), runs, r);
      }
      runs := Filter(NotOlder(cutoff), runs);
    }

    /** `runRetentionJob` for one assignment; a failed roll-up skips the expiry. */
    method RunRetentionJob(now: int, rawDays: nat, hourlyDays: nat, dailyDays: nat)
      modifies this
      ensures runs == Filter(NotOlder(now - rawDays * DAY), old(runs))
      ensures rows == Retained(old(rows), now, hourlyDays, dailyDays)
      ensures exists cutoff, rolled, ok ::
        && LastMidnight(now - hourlyDays * DAY, cutoff) && RolledAt(old(rows), cutoff, rolled, ok)
        && Expires(rolled, ok, now - dailyDays * DAY, rows)
    {
      DeleteExpiredRawRuns(now, rawDays);
      ghost var before := rows;
      var ok := RollupHourlyAggregates(now, hourlyDays);
      ghost var cutoff :| LastMidnight(now - hourlyDays * DAY, cutoff) && RolledAt(before, cutoff, rows, ok);
      ghost var rolled := rows;
      if ok {
        DeleteExpiredAggregates(now, dailyDays);
      }
      assert Expires(rolled, ok, now - dailyDays * DAY, rows);
    }
  }

  function LookUp(rows: seq<Aggregate>, start: int): Snapshot {
    if rows == [] then NoRow
    else if rows[0].size.HourSize? && rows[0].start == start then Found(rows[0].row.min, rows[0].row.max)
    else LookUp(rows[1..], start)
  }
}
