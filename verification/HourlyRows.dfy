/** The hourly aggregate row and its update: a read of the stored extremes, then
    an upsert that adds to the stored counts. Several workers may interleave
    between the two. */
module HourlyRows {
  import opened Sequences
  import opened Buckets
  import opened RawRuns

  /** Stored columns. `p95` comes from a digest outside this model. */
  datatype Row = Row(runs: nat, healthy: nat, degraded: nat, unhealthy: nat,
                     latencySum: Option<int>, avg: Option<int>,
                     min: Option<int>, max: Option<int>, p95: Option<int>)

  /** One finished run, and the p95 the digest reports after taking it in. */
  datatype Sample = Sample(status: Status, latency: Option<int>, p95: int, metadata: string)

  /** What the read returns: no row yet, or the extremes stored in it. */
  datatype Snapshot = NoRow | Found(min: Option<int>, max: Option<int>)

  function Look(row: Option<Row>): Snapshot {
    if row.None? then NoRow else Found(row.value.min, row.value.max)
  }

  function One(status: Status, wanted: Status): nat { if status == wanted then 1 else 0 }

  function NewMin(seen: Snapshot, latency: int): int {
    if seen.Found? && seen.min.Some? && seen.min.value <= latency then seen.min.value else latency
  }

  function NewMax(seen: Snapshot, latency: int): int {
    if seen.Found? && seen.max.Some? && seen.max.value >= latency then seen.max.value else latency
  }

  /** `INSERT ... ON CONFLICT DO UPDATE`: counts and sum build on the stored row,
      extremes on what the worker read before. */
  function Upsert(row: Option<Row>, seen: Snapshot, s: Sample): Row {
    if row.None? then
      Row(1, One(s.status, Healthy), One(s.status, Degraded), One(s.status, Unhealthy),
          s.latency, s.latency,
          if s.latency.Some? then Some(NewMin(seen, s.latency.value)) else None,
          if s.latency.Some? then Some(NewMax(seen, s.latency.value)) else None,
          if s.latency.Some? then Some(s.p95) else None)
    else
      var r := row.value;
      var counted := r.(runs := r.runs + 1,
                        healthy := r.healthy + One(s.status, Healthy),
                        degraded := r.degraded + One(s.status, Degraded),
                        unhealthy := r.unhealthy + One(s.status, Unhealthy));
      if s.latency.None? then counted
      else
        var sum := (if r.latencySum.Some? then r.latencySum.value else 0) + s.latency.value;
        counted.(latencySum := Some(sum), avg := Some(SqlDivide(sum, r.runs + 1)),
                 min := Some(NewMin(seen, s.latency.value)), max := Some(NewMax(seen, s.latency.value)),
                 p95 := Some(s.p95))
  }

  /** SQL integer division truncates toward zero. */
  function SqlDivide(a: int, n: int): int
    requires n > 0
  {
    if a >= 0 then a / n else -((-a) / n)
  }

  /** The row as a worker's two database calls see it. */
  class HourlyRow {
    var row: Option<Row>

    constructor ()
      ensures row == None
    {
      row := None;
    }

    /** What is read is plausible for whatever completed runs the row records. */
    method Read() returns (seen: Snapshot)
      ensures seen == Look(row)
      ensures forall log | Records(row, log) :: Sensible(seen, log)
    {
      seen := if row.None? then NoRow else Found(row.value.min, row.value.max);
    }

    /** If the row records some completed runs and the view came from some of them,
        the row now records one run more; the view need not be current. */
    method Write(seen: Snapshot, s: Sample)
      modifies this
      ensures row == Some(Upsert(old(row), seen, s))
      ensures forall log | old(Records(row, log)) && Sensible(seen, log) :: Records(row, log + [s])
    {
      forall log | Records(row, log) && Sensible(seen, log) ensures Records(Some(Upsert(row, seen, s)), log + [s]) {
        UpsertMatches(row, seen, s, log);
      }
      row := Some(Upsert(row, seen, s));
    }

    /** `incrementHourlyAggregate` without interference between the two calls. */
    method Increment(s: Sample)
      modifies this
      ensures row == Some(Upsert(old(row), Look(old(row)), s))
      ensures forall log | old(Records(row, log)) :: Records(row, log + [s])
      ensures forall log | old(Records(row, log) && Extremes(row, log)) :: Extremes(row, log + [s])
    {
      forall log | Records(row, log) && Extremes(row, log)
        ensures Extremes(Some(Upsert(row, Look(row), s)), log + [s])
      {
        CurrentViewKeepsExtremes(row, s, log);
      }
      var seen := Read();
      Write(seen, s);
    }
  }

  // ------------------------------------------------------- interleaved workers

  datatype Phase = Waiting | HasRead(seen: Snapshot) | Finished

  /** `log` records the samples in the order their upserts completed. */
  datatype State = State(row: Option<Row>, phases: seq<Phase>, log: seq<Sample>)

  datatype Step = DoRead(worker: nat) | DoWrite(worker: nat)

  function Start(workers: nat): State {
    State(None, seq(workers, i => Waiting), [])
  }

  predicate Enabled(st: State, step: Step) {
    && step.worker < |st.phases|
    && match step
       case DoRead(w) => st.phases[w].Waiting?
       case DoWrite(w) => st.phases[w].HasRead?
  }

  function Next(samples: seq<Sample>, st: State, step: Step): State
    requires Enabled(st, step) && |samples| == |st.phases|
  {
    var w := step.worker;
    match step
    case DoRead(_) => st.(phases := st.phases[w := HasRead(Look(st.row))])
    case DoWrite(_) =>
      State(Some(Upsert(st.row, st.phases[w].seen, samples[w])), st.phases[w := Finished], st.log + [samples[w]])
  }

  /** A schedule the workers can execute, ending in `st`. */
  ghost predicate Reaches(samples: seq<Sample>, steps: seq<Step>, st: State)
    decreases |steps|
  {
    if steps == [] then st == Start(|samples|)
    else exists before: State ::
      && Reaches(samples, steps[..|steps| - 1], before)
      && |before.phases| == |samples|
      && Enabled(before, steps[|steps| - 1])
      && st == Next(samples, before, steps[|steps| - 1])
  }

  function StatusCount(status: Status, log: seq<Sample>): nat {
    if log == [] then 0 else StatusCount(status, log[..|log| - 1]) + One(log[|log| - 1].status, status)
  }

  function LatencySum(log: seq<Sample>): Option<int> {
    if log == [] then None else OptSum(LatencySum(log[..|log| - 1]), log[|log| - 1].latency)
  }

  function TrueMin(log: seq<Sample>): Option<int> {
    if log == [] then None else OptMin(TrueMin(log[..|log| - 1]), log[|log| - 1].latency)
  }

  function TrueMax(log: seq<Sample>): Option<int> {
    if log == [] then None else OptMax(TrueMax(log[..|log| - 1]), log[|log| - 1].latency)
  }

  /** `v` is the latency of a completed run. */
  ghost predicate Measured(v: int, log: seq<Sample>) {
    exists i :: 0 <= i < |log| && log[i].latency == Some(v)
  }

  /** Extremes that come from completed runs, in the right order. */
  ghost predicate Plausible(min: Option<int>, max: Option<int>, log: seq<Sample>) {
    && (min.Some? <==> max.Some?)
    && (min.Some? ==> Measured(min.value, log) && Measured(max.value, log) && min.value <= max.value)
  }

  ghost predicate RowMatches(r: Row, log: seq<Sample>) {
    && r.runs == |log|
    && r.healthy == StatusCount(Healthy, log)
    && r.degraded == StatusCount(Degraded, log)
    && r.unhealthy == StatusCount(Unhealthy, log)
    && r.latencySum == LatencySum(log)
    && (r.min.Some? <==> LatencySum(log).Some?)
    && Plausible(r.min, r.max, log)
    && LastMeasured(r.avg, r.p95, log)
  }

  /** `q` is `a / n` without its fraction. */
  predicate Truncated(q: int, a: int, n: nat) { if a >= 0 then q * n <= a < q * n + n else q * n - n < a <= q * n }

  /** The n-th run is the last one with a latency. */
  ghost predicate LastAt(log: seq<Sample>, n: nat) {
    0 < n <= |log| && log[n - 1].latency.Some? && forall i | n <= i < |log| :: log[i].latency.None?
  }

  /** Average and p95 as of the n-th run: the latency sum so far divided by all runs so far,
      with or without a latency, and what the digest reported. */
  ghost predicate MeasuredAt(avg: Option<int>, p95: Option<int>, log: seq<Sample>, n: nat) {
    && LastAt(log, n) && p95 == Some(log[n - 1].p95)
    && avg.Some? && LatencySum(log[..n]).Some? && Truncated(avg.value, LatencySum(log[..n]).value, n)
  }

  /** They are those of the last run with a latency. */
  ghost predicate LastMeasured(avg: Option<int>, p95: Option<int>, log: seq<Sample>) {
    || (avg == p95 == None && forall s <- log :: s.latency.None?)
    || exists n: nat :: MeasuredAt(avg, p95, log, n)
  }

  /** The row tells the truth about the completed runs. */
  ghost predicate Records(row: Option<Row>, log: seq<Sample>) {
    && (row.None? <==> log == [])
    && (row.Some? ==> RowMatches(row.value, log))
  }

  /** A worker's view holds latencies of completed runs. */
  ghost predicate Sensible(seen: Snapshot, log: seq<Sample>) {
    seen.Found? ==> Plausible(seen.min, seen.max, log)
  }

  ghost predicate Extremes(row: Option<Row>, log: seq<Sample>) {
    row.Some? ==> row.value.min == TrueMin(log) && row.value.max == TrueMax(log)
  }

  function FinishedCount(phases: seq<Phase>): nat {
    if phases == [] then 0 else FinishedCount(phases[..|phases| - 1]) + if phases[|phases| - 1].Finished? then 1 else 0
  }

  ghost predicate RowInv(samples: seq<Sample>, st: State) {
    && |st.phases| == |samples|
    && |st.log| == FinishedCount(st.phases)
    && Records(st.row, st.log)
    && forall w | 0 <= w < |st.phases| && st.phases[w].HasRead? :: Sensible(st.phases[w].seen, st.log)
  }

  lemma MeasuredGrows(v: int, log: seq<Sample>, s: Sample)
    ensures Measured(v, log) ==> Measured(v, log + [s])
    ensures s.latency == Some(v) ==> Measured(v, log + [s])
  {
    if i :| 0 <= i < |log| && log[i].latency == Some(v) {
      assert (log + [s])[i].latency == Some(v);
    }
    assert (log + [s])[|log|] == s;
  }

  lemma PlausibleGrows(min: Option<int>, max: Option<int>, log: seq<Sample>, s: Sample)
    requires Plausible(min, max, log)
    ensures Plausible(min, max, log + [s])
  {
    if min.Some? {
      MeasuredGrows(min.value, log, s);
      MeasuredGrows(max.value, log, s);
    }
  }

  lemma {:induction false} FinishedUpdate(phases: seq<Phase>, w: nat, p: Phase)
    requires w < |phases| && !phases[w].Finished?
    ensures FinishedCount(phases[w := p]) == FinishedCount(phases) + if p.Finished? then 1 else 0
  {
    var n := |phases| - 1;
    if w == n {
      assert phases[w := p][..n] == phases[..n];
    } else {
      assert phases[w := p][..n] == phases[..n][w := p];
      FinishedUpdate(phases[..n], w, p);
    }
  }

  lemma SqlDivideTruncates(a: int, n: int)
    requires n > 0
    ensures Truncated(SqlDivide(a, n), a, n)
  {
    var m := if a >= 0 then a else -a;
    assert m == m / n * n + m % n;
    if a < 0 {
      assert SqlDivide(a, n) * n == -(m / n * n);
    }
  }

  lemma {:induction false} NoneMeasured(log: seq<Sample>)
    ensures LatencySum(log).None? <==> forall s <- log :: s.latency.None?
  {
    if log != [] {
      NoneMeasured(log[..|log| - 1]);
      assert log == log[..|log| - 1] + [log[|log| - 1]];
    }
  }

  lemma UpsertMeasures(row: Option<Row>, seen: Snapshot, s: Sample, log: seq<Sample>)
    requires Records(row, log)
    ensures LastMeasured(Upsert(row, seen, s).avg, Upsert(row, seen, s).p95, log + [s])
  {
    var longer := log + [s];
    assert longer[..|log|] == log;
    if s.latency.Some? {
      assert longer[..|longer|] == longer;
      SqlDivideTruncates(LatencySum(longer).value, |longer|);
      FirstAverage(s.latency.value);
      assert MeasuredAt(Upsert(row, seen, s).avg, Upsert(row, seen, s).p95, longer, |longer|);
    } else if row.Some? {
      StillMeasured(row.value.avg, row.value.p95, log, s);
    }
  }

  lemma FirstAverage(latency: int)
    ensures Truncated(latency, latency, 1)
  {
  }

  lemma StillMeasured(avg: Option<int>, p95: Option<int>, log: seq<Sample>, s: Sample)
    requires LastMeasured(avg, p95, log) && s.latency.None?
    ensures LastMeasured(avg, p95, log + [s])
  {
    if n: nat :| MeasuredAt(avg, p95, log, n) {
      assert (log + [s])[..n] == log[..n];
      assert MeasuredAt(avg, p95, log + [s], n);
    }
  }

  lemma UpsertMatches(row: Option<Row>, seen: Snapshot, s: Sample, log: seq<Sample>)
    requires Records(row, log) && Sensible(seen, log)
    ensures Records(Some(Upsert(row, seen, s)), log + [s])
  {
    assert (log + [s])[..|log|] == log;
    UpsertMeasures(row, seen, s, log);
    UpsertPlausible(row, seen, s, log);
  }

  lemma UpsertPlausible(row: Option<Row>, seen: Snapshot, s: Sample, log: seq<Sample>)
    requires Records(row, log) && Sensible(seen, log)
    ensures var r := Upsert(row, seen, s); Plausible(r.min, r.max, log + [s])
  {
    if s.latency.Some? {
      MeasuredGrows(s.latency.value, log, s);
      if seen.Found? && seen.min.Some? {
        MeasuredGrows(seen.min.value, log, s);
        MeasuredGrows(seen.max.value, log, s);
      }
    } else if row.Some? {
      PlausibleGrows(row.value.min, row.value.max, log, s);
    }
  }

  lemma StepKeepsInv(samples: seq<Sample>, st: State, step: Step)
    requires RowInv(samples, st) && Enabled(st, step)
    ensures RowInv(samples, Next(samples, st, step))
  {
    var w, after := step.worker, Next(samples, st, step);
    match step
    case DoRead(_) =>
      FinishedUpdate(st.phases, w, HasRead(Look(st.row)));
    case DoWrite(_) =>
      FinishedUpdate(st.phases, w, Finished);
      UpsertMatches(st.row, st.phases[w].seen, samples[w], st.log);
      forall u | 0 <= u < |after.phases| && after.phases[u].HasRead? ensures Sensible(after.phases[u].seen, after.log) {
        assert after.phases[u] == st.phases[u];
        if st.phases[u].seen.Found? {
          PlausibleGrows(st.phases[u].seen.min, st.phases[u].seen.max, st.log, samples[w]);
        }
      }
  }

  lemma {:induction false} NoneFinished(n: nat)
    ensures FinishedCount(Start(n).phases) == 0
  {
    if n > 0 {
      NoneFinished(n - 1);
      assert Start(n).phases[..n - 1] == Start(n - 1).phases;
    }
  }

  /** Under every interleaving of the workers' reads and upserts the counts and
      the latency sum are exact, and the stored extremes are ordered latencies of
      completed runs. */
  lemma {:induction false} InterleavingsKeepInv(samples: seq<Sample>, steps: seq<Step>, st: State)
    requires Reaches(samples, steps, st)
    ensures RowInv(samples, st)
    decreases |steps|
  {
    if steps == [] {
      NoneFinished(|samples|);
    } else {
      var before: State :| Reaches(samples, steps[..|steps| - 1], before)
        && |before.phases| == |samples| && Enabled(before, steps[|steps| - 1])
        && st == Next(samples, before, steps[|steps| - 1]);
      InterleavingsKeepInv(samples, steps[..|steps| - 1], before);
      StepKeepsInv(samples, before, steps[|steps| - 1]);
    }
  }

  lemma {:induction false} StatusesCoverLog(log: seq<Sample>)
    ensures StatusCount(Healthy, log) + StatusCount(Degraded, log) + StatusCount(Unhealthy, log) == |log|
  {
    if log != [] {
      StatusesCoverLog(log[..|log| - 1]);
    }
  }

  lemma CountsAddUp(samples: seq<Sample>, steps: seq<Step>, st: State)
    requires Reaches(samples, steps, st) && st.row.Some?
    ensures var r := st.row.value;
      r.healthy + r.degraded + r.unhealthy == r.runs == FinishedCount(st.phases)
  {
    InterleavingsKeepInv(samples, steps, st);
    StatusesCoverLog(st.log);
  }

  function HasStatus(st: Status): Sample -> int { (s: Sample) => if s.status == st then 1 else 0 }

  function Latency(): Sample -> Option<int> { (s: Sample) => s.latency }

  function LatencyOr0(): Sample -> int { (s: Sample) => if s.latency.Some? then s.latency.value else 0 }

  lemma {:induction false} LogCounts(log: seq<Sample>)
    ensures forall st :: StatusCount(st, log) == SumBy(HasStatus(st), log)
    decreases |log|
  {
    if log != [] {
      var front, s := log[..|log| - 1], log[|log| - 1];
      assert log == front + [s];
      LogCounts(front);
      forall st ensures SumBy(HasStatus(st), log) == SumBy(HasStatus(st), front) + HasStatus(st)(s) {
        SumBySnoc(HasStatus(st), front, s);
      }
    }
  }

  lemma {:induction false} LogSum(log: seq<Sample>)
    ensures LatencySum(log) == if exists s <- log :: s.latency.Some? then Some(SumBy(LatencyOr0(), log)) else None
    decreases |log|
  {
    NoneMeasured(log);
    if log != [] {
      var front, s := log[..|log| - 1], log[|log| - 1];
      assert log == front + [s];
      LogSum(front);
      SumBySnoc(LatencyOr0(), front, s);
      if LatencySum(front).None? {
        NothingToAdd(front);
      }
    }
  }

  lemma {:induction false} LogExtremes(log: seq<Sample>)
    ensures IsLeast(TrueMin(log), Latency(), log) && IsGreatest(TrueMax(log), Latency(), log)
    decreases |log|
  {
    if log != [] {
      var front, s := log[..|log| - 1], log[|log| - 1];
      assert log == front + [s];
      LogExtremes(front);
      LeastSnoc(TrueMin(front), Latency(), front, s);
      GreatestSnoc(TrueMax(front), Latency(), front, s);
    }
  }

  /** A row that records some runs, column by column: the numbers of runs of each status, the
      sum of the latencies there are, and extremes that are among them. */
  lemma RecordedMeans(r: Row, log: seq<Sample>)
    requires Records(Some(r), log)
    ensures r.runs == |log| && r.healthy == SumBy(HasStatus(Healthy), log)
    ensures r.degraded == SumBy(HasStatus(Degraded), log) && r.unhealthy == SumBy(HasStatus(Unhealthy), log)
    ensures r.latencySum == if exists s <- log :: s.latency.Some? then Some(SumBy(LatencyOr0(), log)) else None
    ensures r.min.Some? == r.max.Some? == (exists s <- log :: s.latency.Some?)
    ensures r.min.Some? ==> (exists s <- log :: s.latency == r.min) && (exists s <- log :: s.latency == r.max)
    ensures LastMeasured(r.avg, r.p95, log)
    ensures Extremes(Some(r), log) ==> IsLeast(r.min, Latency(), log) && IsGreatest(r.max, Latency(), log)
  {
    LogCounts(log);
    LogSum(log);
    LogExtremes(log);
    if r.min.Some? {
      var i :| 0 <= i < |log| && log[i].latency == r.min;
      var j :| 0 <= j < |log| && log[j].latency == r.max;
      assert log[i] in log && log[j] in log;
    }
  }

  lemma {:induction false} NothingToAdd(log: seq<Sample>)
    requires forall s <- log :: s.latency.None?
    ensures SumBy(LatencyOr0(), log) == 0
  {
    if log != [] {
      NothingToAdd(log[1..]);
    }
  }

  // ------------------------------------------------------------ true extremes

  ghost predicate TrueExtremes(st: State) { Extremes(st.row, st.log) }

  lemma {:induction false} TrueMinIsLeast(log: seq<Sample>)
    ensures TrueMin(log).Some? <==> LatencySum(log).Some?
    ensures TrueMin(log).Some? ==> Measured(TrueMin(log).value, log)
    ensures forall i | 0 <= i < |log| && log[i].latency.Some? ::
      TrueMin(log).Some? && TrueMin(log).value <= log[i].latency.value
  {
    if log != [] {
      var front, s := log[..|log| - 1], log[|log| - 1];
      TrueMinIsLeast(front);
      assert log == front + [s];
      forall v ensures (Measured(v, front) ==> Measured(v, log)) && (s.latency == Some(v) ==> Measured(v, log)) {
        MeasuredGrows(v, front, s);
      }
    }
  }

  lemma {:induction false} TrueMaxIsGreatest(log: seq<Sample>)
    ensures TrueMax(log).Some? <==> LatencySum(log).Some?
    ensures TrueMax(log).Some? ==> Measured(TrueMax(log).value, log)
    ensures forall i | 0 <= i < |log| && log[i].latency.Some? ::
      TrueMax(log).Some? && TrueMax(log).value >= log[i].latency.value
  {
    if log != [] {
      var front, s := log[..|log| - 1], log[|log| - 1];
      TrueMaxIsGreatest(front);
      assert log == front + [s];
      forall v ensures (Measured(v, front) ==> Measured(v, log)) && (s.latency == Some(v) ==> Measured(v, log)) {
        MeasuredGrows(v, front, s);
      }
    }
  }

  /** From true extremes an upsert with a latency keeps them true exactly when the
      worker's view of each is current or its latency reaches past the stored one. */
  lemma WriteKeepsTruth(samples: seq<Sample>, st: State, w: nat)
    requires RowInv(samples, st) && Enabled(st, DoWrite(w)) && TrueExtremes(st) && samples[w].latency.Some?
    ensures var l, seen := samples[w].latency.value, st.phases[w].seen;
      TrueExtremes(Next(samples, st, DoWrite(w))) <==>
        || st.row.None? || st.row.value.min.None?
        || (&& (l <= st.row.value.min.value || (seen.Found? && seen.min == st.row.value.min))
            && (l >= st.row.value.max.value || (seen.Found? && seen.max == st.row.value.max)))
  {
    var after := Next(samples, st, DoWrite(w));
    assert after.log[..|st.log|] == st.log;
    TrueMinIsLeast(st.log);
    TrueMaxIsGreatest(st.log);
    var seen := st.phases[w].seen;
    assert seen.Found? ==> Plausible(seen.min, seen.max, st.log);
  }

  /** Every upsert directly follows its own read. */
  ghost predicate Uninterrupted(steps: seq<Step>) {
    forall i | 0 <= i < |steps| && steps[i].DoWrite? :: i > 0 && steps[i - 1] == DoRead(steps[i].worker)
  }

  lemma FreshWriteKeepsTruth(samples: seq<Sample>, st: State, w: nat)
    requires RowInv(samples, st) && Enabled(st, DoWrite(w)) && TrueExtremes(st) && st.phases[w].seen == Look(st.row)
    ensures TrueExtremes(Next(samples, st, DoWrite(w)))
  {
    CurrentViewKeepsExtremes(st.row, samples[w], st.log);
  }

  lemma CurrentViewKeepsExtremes(row: Option<Row>, s: Sample, log: seq<Sample>)
    requires Records(row, log) && Extremes(row, log)
    ensures Extremes(Some(Upsert(row, Look(row), s)), log + [s])
  {
    assert (log + [s])[..|log|] == log;
  }

  /** When the two steps of a worker are never separated, the stored extremes are
      the true ones. */
  lemma {:induction false} UninterruptedExtremesAreTrue(samples: seq<Sample>, steps: seq<Step>, st: State)
    requires Reaches(samples, steps, st) && Uninterrupted(steps)
    ensures TrueExtremes(st)
    decreases |steps|
  {
    if steps != [] {
      var n := |steps| - 1;
      var before: State :| Reaches(samples, steps[..n], before)
        && |before.phases| == |samples| && Enabled(before, steps[n]) && st == Next(samples, before, steps[n]);
      InterleavingsKeepInv(samples, steps[..n], before);
      UninterruptedExtremesAreTrue(samples, steps[..n], before);
      if steps[n].DoWrite? {
        var w := steps[n].worker;
        assert steps[n - 1] == DoRead(w) && steps[..n][n - 1] == DoRead(w);
        var earlier: State :| Reaches(samples, steps[..n][..n - 1], earlier)
          && |earlier.phases| == |samples| && Enabled(earlier, steps[..n][n - 1])
          && before == Next(samples, earlier, steps[..n][n - 1]);
        assert before.phases[w] == HasRead(Look(before.row));
        FreshWriteKeepsTruth(samples, before, w);
      }
    }
  }

  lemma ReachNext(samples: seq<Sample>, steps: seq<Step>, step: Step, before: State)
    requires Reaches(samples, steps, before) && |before.phases| == |samples| && Enabled(before, step)
    ensures Reaches(samples, steps + [step], Next(samples, before, step))
  {
    assert (steps + [step])[..|steps|] == steps;
  }

  /** Two workers that both read the empty table. */
  lemma BothReadEmpty(samples: seq<Sample>) returns (steps: seq<Step>, st: State)
    requires |samples| == 2
    ensures Reaches(samples, steps, st)
    ensures st == State(None, [HasRead(NoRow), HasRead(NoRow)], [])
  {
    st := Start(2);
    ReachNext(samples, [], DoRead(0), st);
    st := Next(samples, st, DoRead(0));
    ReachNext(samples, [] + [DoRead(0)], DoRead(1), st);
    steps, st := [] + [DoRead(0)] + [DoRead(1)], Next(samples, st, DoRead(1));
  }

  /** Interleaved, an extreme can be lost: both workers read the empty table, the
      larger latency is written first and then overwritten. */
  lemma InterleavingLosesMaximum() returns (samples: seq<Sample>, steps: seq<Step>, st: State)
    ensures Reaches(samples, steps, st) && st.row.Some?
    ensures st.row.value.max == Some(5) && TrueMax(st.log) == Some(9)
  {
    var small, large := Sample(Healthy, Some(5), 5, ""), Sample(Healthy, Some(9), 9, "");
    samples := [small, large];
    steps, st := BothReadEmpty(samples);
    ReachNext(samples, steps, DoWrite(1), st);
    steps, st := steps + [DoWrite(1)], Next(samples, st, DoWrite(1));
    ReachNext(samples, steps, DoWrite(0), st);
    steps, st := steps + [DoWrite(0)], Next(samples, st, DoWrite(0));
    MaxOfTwo(small, large);
    assert st.log == [large, small];
  }

  lemma MaxOfTwo(a: Sample, b: Sample)
    ensures TrueMax([b, a]) == OptMax(b.latency, a.latency)
  {
    assert [b][..0] == [];
    assert TrueMax([b]) == b.latency;
    assert [b, a][..1] == [b];
  }
}
