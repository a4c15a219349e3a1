/** Health verdicts from the newest runs, and from which histories truncation shows. */
module StateEvaluator {
  import opened Sequences
  import opened Buckets
  import opened RawRuns

  /** A row of the run table. */
  datatype Result = Result(check: int, status: Status, timestamp: int)

  /** Every count is at least 1, and a window holds 3 to 100 runs. */
  datatype Thresholds =
    | Consecutive(minSuccess: nat, degraded: nat, unhealthy: nat)
    | Window(size: nat, degraded: nat, unhealthy: nat)

  predicate WellFormed(t: Thresholds) {
    && t.degraded >= 1 && t.unhealthy >= 1
    && (t.Consecutive? ==> t.minSuccess >= 1)
    && (t.Window? ==> 3 <= t.size <= 100)
  }

  const DEFAULT_THRESHOLDS := Consecutive(1, 2, 5)

  function Rank(s: Status): nat {
    match s
    case Healthy => 0
    case Degraded => 1
    case Unhealthy => 2
  }

  predicate Fails(r: Result) { r.status != Healthy }

  function Failures(): Result -> bool { (r: Result) => Fails(r) }

  /** The leading runs that succeed (or fail) alike. */
  function Streak(runs: seq<Result>, failing: bool): nat {
    if runs == [] || Fails(runs[0]) != failing then 0 else 1 + Streak(runs[1..], failing)
  }

  function Take(runs: seq<Result>, n: nat): seq<Result> { if |runs| <= n then runs else runs[..n] }

  function FailureCount(runs: seq<Result>): nat { |Filter(Failures(), runs)| }

  /** `evaluateHealthStatus`, for runs sorted newest first. */
  function Evaluate(runs: seq<Result>, t: Thresholds): Status {
    if runs == [] then Healthy
    else if t.Window? then
      var count := FailureCount(Take(runs, t.size));
      if count >= t.unhealthy then Unhealthy else if count >= t.degraded then Degraded else Healthy
    else if Streak(runs, true) >= t.unhealthy then Unhealthy
    else if Streak(runs, true) >= t.degraded then Degraded
    else if Streak(runs, false) >= t.minSuccess then Healthy
    else runs[0].status
  }

  /** The streak is the longest leading run of equal results. */
  lemma {:induction false} StreakIsMaximal(runs: seq<Result>, failing: bool)
    ensures Streak(runs, failing) <= |runs|
    ensures forall i | 0 <= i < Streak(runs, failing) :: Fails(runs[i]) == failing
    ensures Streak(runs, failing) < |runs| ==> Fails(runs[Streak(runs, failing)]) != failing
  {
    if runs != [] && Fails(runs[0]) == failing {
      StreakIsMaximal(runs[1..], failing);
    }
  }

  /** ... and the only such number. */
  lemma {:induction false} StreakUnique(runs: seq<Result>, failing: bool, n: nat)
    requires n <= |runs| && forall i | 0 <= i < n :: Fails(runs[i]) == failing
    requires n < |runs| ==> Fails(runs[n]) != failing
    ensures Streak(runs, failing) == n
  {
    if n > 0 {
      StreakUnique(runs[1..], failing, n - 1);
    }
  }

  /** The counting loop: only one of the counters ever leaves zero. */
  method CountStreaks(runs: seq<Result>) returns (failures: nat, successes: nat)
    ensures failures == Streak(runs, true) && successes == Streak(runs, false)
  {
    failures, successes := 0, 0;
    var i := 0;
    while i < |runs|
      invariant 0 <= i <= |runs| && failures + successes == i && (failures == 0 || successes == 0)
      invariant failures > 0 ==> forall j | 0 <= j < i :: Fails(runs[j])
      invariant successes > 0 ==> forall j | 0 <= j < i :: !Fails(runs[j])
    {
      if !Fails(runs[i]) {
        if failures != 0 {
          break;
        }
        successes := successes + 1;
      } else {
        if successes != 0 {
          break;
        }
        failures := failures + 1;
      }
      i := i + 1;
    }
    StreakUnique(runs, true, failures);
    StreakUnique(runs, false, successes);
  }

  function Failure(): Result -> int { (r: Result) => if r.status == Healthy then 0 else 1 }

  /** The newest `k` runs are there and all fail, or all succeed. */
  ghost predicate AllFail(runs: seq<Result>, k: nat) {
    k <= |runs| && forall i | 0 <= i < k :: runs[i].status == Degraded || runs[i].status == Unhealthy
  }

  ghost predicate AllSucceed(runs: seq<Result>, k: nat) { k <= |runs| && forall i | 0 <= i < k :: runs[i].status == Healthy }

  /** The verdict, from the runs themselves. In window mode the failures among the newest
      `size` runs count; in consecutive mode it takes a number of failures, or of successes,
      in a row, and short of all of them the newest run decides. */
  ghost predicate Judges(runs: seq<Result>, t: Thresholds, r: Status) {
    if runs == [] then r == Healthy
    else
      match t
      case Window(size, degraded, unhealthy) =>
        var n := SumBy(Failure(), runs[..if size < |runs| then size else |runs|]);
        && (r == Unhealthy <==> n >= unhealthy)
        && (r == Degraded <==> degraded <= n < unhealthy)
      case Consecutive(minSuccess, degraded, unhealthy) =>
        && (AllFail(runs, unhealthy) ==> r == Unhealthy)
        && (AllFail(runs, degraded) && !AllFail(runs, unhealthy) ==> r == Degraded)
        && (!AllFail(runs, degraded) && !AllFail(runs, unhealthy) ==>
             r == if AllSucceed(runs, minSuccess) then Healthy else runs[0].status)
  }

  lemma {:induction false} FailuresAreSum(runs: seq<Result>)
    ensures FailureCount(runs) == SumBy(Failure(), runs)
  {
    if runs != [] {
      FailuresAreSum(runs[1..]);
    }
  }

  lemma StreakReaches(runs: seq<Result>, k: nat)
    ensures Streak(runs, true) >= k <==> AllFail(runs, k)
    ensures Streak(runs, false) >= k <==> AllSucceed(runs, k)
  {
    StreakIsMaximal(runs, true);
    StreakIsMaximal(runs, false);
  }

  /** The evaluation judges every list of runs by the thresholds. */
  lemma EvaluateJudges(runs: seq<Result>, t: Thresholds)
    ensures Judges(runs, t, Evaluate(runs, t))
  {
    if t.Window? {
      var newest := runs[..if t.size < |runs| then t.size else |runs|];
      FailuresAreSum(newest);
      assert Take(runs, t.size) == newest;
    } else {
      StreakReaches(runs, t.unhealthy);
      StreakReaches(runs, t.degraded);
      StreakReaches(runs, t.minSuccess);
    }
  }

  method EvaluateHealthStatus(runs: seq<Result>, thresholds: Option<Thresholds>) returns (r: Status)
    ensures r == Evaluate(runs, if thresholds.Some? then thresholds.value else DEFAULT_THRESHOLDS)
    ensures Judges(runs, if thresholds.Some? then thresholds.value else Consecutive(1, 2, 5), r)
  {
    EvaluateJudges(runs, if thresholds.Some? then thresholds.value else Consecutive(1, 2, 5));
    var t := if thresholds.Some? then thresholds.value else DEFAULT_THRESHOLDS;
    if runs == [] {
      return Healthy;
    }
    if t.Consecutive? {
      var failures, successes := CountStreaks(runs);
      return
        if failures >= t.unhealthy then Unhealthy
        else if failures >= t.degraded then Degraded
        else if successes >= t.minSuccess then Healthy
        else runs[0].status;
    }
    var count := |Filter(Failures(), Take(runs, t.size))|;
    return if count >= t.unhealthy then Unhealthy else if count >= t.degraded then Degraded else Healthy;
  }

  // ------------------------------------------------- truncated histories

  /** The verdict on the newest `limit` runs agrees with the one on the whole history. */
  predicate Agrees(runs: seq<Result>, t: Thresholds, limit: nat) { Evaluate(Take(runs, limit), t) == Evaluate(runs, t) }

  /** Thresholds that `limit` runs are always enough for. */
  predicate Fits(t: Thresholds, limit: nat) {
    if t.Consecutive? then t.unhealthy <= limit
    else t.size <= limit || (t.size < t.degraded && t.size < t.unhealthy)
  }

  lemma StreakOfTake(runs: seq<Result>, failing: bool, limit: nat)
    ensures Streak(Take(runs, limit), failing) == if Streak(runs, failing) <= limit then Streak(runs, failing) else limit
  {
    StreakIsMaximal(runs, failing);
    StreakUnique(Take(runs, limit), failing, if Streak(runs, failing) <= limit then Streak(runs, failing) else limit);
  }

  lemma {:induction false} CountBounds(a: seq<Result>, b: seq<Result>)
    ensures FailureCount(a) <= FailureCount(a + b) <= FailureCount(a) + |b|
  {
    FilterAppend(Failures(), a, b);
  }

  lemma FitsAgrees(runs: seq<Result>, t: Thresholds, limit: nat)
    requires limit > 0 && WellFormed(t) && Fits(t, limit)
    ensures Agrees(runs, t, limit)
  {
    if t.Consecutive? {
      StreakOfTake(runs, true, limit);
      StreakOfTake(runs, false, limit);
      StreakIsMaximal(runs, false);
    } else if t.size <= limit {
      assert Take(Take(runs, limit), t.size) == Take(runs, t.size);
    } else {
      CountBounds([], Take(Take(runs, limit), t.size));
      assert [] + Take(Take(runs, limit), t.size) == Take(Take(runs, limit), t.size);
      CountBounds([], Take(runs, t.size));
      assert [] + Take(runs, t.size) == Take(runs, t.size);
    }
  }

  /** `n` runs of one status. */
  function Repeat(status: Status, n: nat): seq<Result> { seq(n, _ => Result(0, status, 0)) }

  lemma RepeatCount(status: Status, n: nat)
    ensures FailureCount(Repeat(status, n)) == if status == Healthy then 0 else n
  {
    if status == Healthy {
      FilterNone(Failures(), Repeat(status, n));
    } else {
      FilterAll(Failures(), Repeat(status, n));
    }
  }

  /** A long enough failing streak shows the truncation of consecutive thresholds. */
  lemma LongStreakDisagrees(t: Thresholds, limit: nat)
    requires limit > 0 && WellFormed(t) && t.Consecutive? && t.unhealthy > limit
    ensures !Agrees(Repeat(Degraded, t.unhealthy), t, limit)
  {
    var runs := Repeat(Degraded, t.unhealthy);
    StreakUnique(runs, true, t.unhealthy);
    StreakUnique(runs, false, 0);
    StreakOfTake(runs, true, limit);
    StreakOfTake(runs, false, limit);
  }

  /** `size` runs, the `n` oldest of them unhealthy. */
  function Late(size: nat, n: nat): seq<Result>
    requires n <= size
  {
    Repeat(Healthy, size - n) + Repeat(Unhealthy, n)
  }

  lemma LateCount(size: nat, n: nat, limit: nat)
    requires n <= size && limit <= size
    ensures FailureCount(Take(Late(size, n), limit)) == if limit <= size - n then 0 else limit - (size - n)
  {
    var ok, bad := Repeat(Healthy, size - n), Repeat(Unhealthy, n);
    var short := Take(ok + bad, limit);
    if limit <= size - n {
      assert short == Repeat(Healthy, limit);
      RepeatCount(Healthy, limit);
    } else {
      var more := limit - (size - n);
      assert short == ok + Repeat(Unhealthy, more);
      FilterAppend(Failures(), ok, Repeat(Unhealthy, more));
      RepeatCount(Healthy, size - n);
      RepeatCount(Unhealthy, more);
    }
  }

  /** Failures at the old end of a window show the truncation of window thresholds. */
  lemma OldFailuresDisagree(t: Thresholds, limit: nat, n: nat)
    requires limit > 0 && WellFormed(t) && t.Window? && t.size > limit
    requires n <= t.size && n == if t.degraded < t.unhealthy then t.degraded else t.unhealthy
    ensures !Agrees(Late(t.size, n), t, limit)
  {
    LateCount(t.size, n, t.size);
    LateCount(t.size, n, limit);
    assert Take(Take(Late(t.size, n), limit), t.size) == Take(Late(t.size, n), limit);
  }

  /** Reading only the newest `limit` runs is right for every history exactly when the
      thresholds fit the limit. */
  lemma TruncationIsExact(t: Thresholds, limit: nat)
    requires limit > 0 && WellFormed(t)
    ensures (forall runs :: Agrees(runs, t, limit)) <==> Fits(t, limit)
  {
    if Fits(t, limit) {
      forall runs ensures Agrees(runs, t, limit) {
        FitsAgrees(runs, t, limit);
      }
    } else if t.Consecutive? {
      LongStreakDisagrees(t, limit);
    } else {
      OldFailuresDisagree(t, limit, if t.degraded < t.unhealthy then t.degraded else t.unhealthy);
    }
  }

  const DETAIL_LIMIT := 100
  const OVERVIEW_LIMIT := 25

  /** Both views give the same verdict on the history. */
  predicate ViewsAgree(runs: seq<Result>, t: Thresholds) {
    Evaluate(Take(runs, OVERVIEW_LIMIT), t) == Evaluate(Take(runs, DETAIL_LIMIT), t)
  }

  /** Thresholds for which the runs between the two limits decide nothing: reached within
      25 runs, or, in consecutive mode, out of reach of both views. */
  predicate FitsViews(t: Thresholds) {
    if t.Window? then Fits(t, OVERVIEW_LIMIT)
    else
      || t.unhealthy <= OVERVIEW_LIMIT
      || (t.unhealthy > DETAIL_LIMIT && (t.degraded <= OVERVIEW_LIMIT || t.degraded > DETAIL_LIMIT))
  }

  lemma FittingViewsAgree(runs: seq<Result>, t: Thresholds)
    requires WellFormed(t) && FitsViews(t)
    ensures ViewsAgree(runs, t)
  {
    if t.Window? {
      FitsAgrees(runs, t, OVERVIEW_LIMIT);
      FitsAgrees(runs, t, DETAIL_LIMIT);
    } else {
      StreakOfTake(runs, true, OVERVIEW_LIMIT);
      StreakOfTake(runs, false, OVERVIEW_LIMIT);
      StreakOfTake(runs, true, DETAIL_LIMIT);
      StreakOfTake(runs, false, DETAIL_LIMIT);
    }
  }

  /** A failing streak of exactly a threshold between the limits tells the views apart. */
  lemma StreakTellsViewsApart(t: Thresholds, status: Status, n: nat)
    requires WellFormed(t) && t.Consecutive? && OVERVIEW_LIMIT < n <= DETAIL_LIMIT
    requires if n == t.unhealthy then status == Degraded
      else n == t.degraded && t.unhealthy > DETAIL_LIMIT && status == Unhealthy
    ensures !ViewsAgree(Repeat(status, n), t)
  {
    var runs := Repeat(status, n);
    StreakUnique(runs, true, n);
    StreakUnique(runs, false, 0);
    StreakOfTake(runs, true, OVERVIEW_LIMIT);
    StreakOfTake(runs, false, OVERVIEW_LIMIT);
    assert Take(runs, DETAIL_LIMIT) == runs;
  }

  /** The overview, which reads 25 runs, and the detail view, which reads 100, show the
      same verdict for every history exactly when the thresholds fit both views. */
  lemma OverviewAgreesWithDetail(t: Thresholds)
    requires WellFormed(t)
    ensures (forall runs :: ViewsAgree(runs, t)) <==> FitsViews(t)
    ensures forall runs :: ViewsAgree(runs, t) <==> Evaluate(Take(runs, 25), t) == Evaluate(Take(runs, 100), t)
    ensures FitsViews(t) <==>
      match t
      case Window(size, degraded, unhealthy) => size <= 25 || (size < degraded && size < unhealthy)
      case Consecutive(_, degraded, unhealthy) =>
        unhealthy <= 25 || (unhealthy > 100 && (degraded <= 25 || degraded > 100))
  {
    if FitsViews(t) {
      forall runs ensures ViewsAgree(runs, t) {
        FittingViewsAgree(runs, t);
      }
    } else if t.Window? {
      var n := if t.degraded < t.unhealthy then t.degraded else t.unhealthy;
      var runs := Late(t.size, n);
      OldFailuresDisagree(t, OVERVIEW_LIMIT, n);
      assert Take(runs, DETAIL_LIMIT) == runs;
      assert !ViewsAgree(runs, t);
    } else if t.unhealthy <= DETAIL_LIMIT {
      StreakTellsViewsApart(t, Degraded, t.unhealthy);
    } else {
      StreakTellsViewsApart(t, Unhealthy, t.degraded);
    }
  }

  // -------------------------------------------------------------- monotonicity

  /** A healthy run turned into a failing one. */
  function Worsened(runs: seq<Result>, i: nat, status: Status): seq<Result>
    requires i < |runs|
  {
    runs[i := runs[i].(status := status)]
  }

  lemma {:induction false} WorsenedCount(runs: seq<Result>, i: nat, status: Status)
    requires i < |runs| && !Fails(runs[i]) && status != Healthy
    ensures FailureCount(Worsened(runs, i, status)) == FailureCount(runs) + 1
  {
    var w := Worsened(runs, i, status);
    if i == 0 {
      assert w[1..] == runs[1..];
    } else {
      WorsenedCount(runs[1..], i - 1, status);
      assert w[1..] == Worsened(runs[1..], i - 1, status);
    }
  }

  lemma {:induction false} WorsenedStreak(runs: seq<Result>, i: nat, status: Status)
    requires i < |runs| && !Fails(runs[i]) && status != Healthy
    ensures Streak(Worsened(runs, i, status), true) >= Streak(runs, true)
    ensures Streak(runs, true) <= i
  {
    if i > 0 {
      WorsenedStreak(runs[1..], i - 1, status);
      assert Worsened(runs, i, status)[1..] == Worsened(runs[1..], i - 1, status);
    }
  }

  /** In window mode a worse run never improves the verdict. */
  lemma WindowIsMonotone(runs: seq<Result>, t: Thresholds, i: nat, status: Status)
    requires t.Window? && i < |runs| && !Fails(runs[i]) && status != Healthy
    ensures Rank(Evaluate(Worsened(runs, i, status), t)) >= Rank(Evaluate(runs, t))
  {
    var w := Worsened(runs, i, status);
    if i < |Take(runs, t.size)| {
      assert Take(w, t.size) == Worsened(Take(runs, t.size), i, status);
      WorsenedCount(Take(runs, t.size), i, status);
    } else {
      assert Take(w, t.size) == Take(runs, t.size);
    }
  }

  /** In consecutive mode it does, in exactly one case: the newest run is unhealthy and
      alone decided, and the longer streak now reaches `degraded` but not `unhealthy`. */
  lemma ConsecutiveImprovesIff(runs: seq<Result>, t: Thresholds, i: nat, status: Status)
    requires t.Consecutive? && WellFormed(t) && i < |runs| && !Fails(runs[i]) && status != Healthy
    ensures Rank(Evaluate(Worsened(runs, i, status), t)) < Rank(Evaluate(runs, t)) <==>
      && runs[0].status == Unhealthy && Streak(runs, true) < t.degraded && Streak(runs, true) < t.unhealthy
      && t.degraded <= Streak(Worsened(runs, i, status), true) < t.unhealthy
  {
    WorsenedStreak(runs, i, status);
  }

  // ------------------------------------------------------------ system status

  ghost predicate IsWorst(s: Status, statuses: seq<Status>) {
    && (s == Healthy || s in statuses)
    && forall x <- statuses :: Rank(x) <= Rank(s)
  }

  method WorstStatus(statuses: seq<Status>) returns (worst: Status)
    ensures IsWorst(worst, statuses)
    ensures worst == if Unhealthy in statuses then Unhealthy else if Degraded in statuses then Degraded else Healthy
  {
    worst := Healthy;
    for i := 0 to |statuses|
      invariant IsWorst(worst, statuses[..i]) && worst != Unhealthy
    {
      assert statuses[..i + 1] == statuses[..i] + [statuses[i]];
      if statuses[i] == Unhealthy {
        return Unhealthy;
      }
      if statuses[i] == Degraded {
        worst := Degraded;
      }
    }
    assert statuses[..|statuses|] == statuses;
  }

  datatype Association = Association(check: int, thresholds: Option<Thresholds>)

  function ThresholdsOf(a: Association): Thresholds { if a.thresholds.Some? then a.thresholds.value else DEFAULT_THRESHOLDS }

  function NewestFirst(): Result -> int { (r: Result) => -r.timestamp }

  /** The whole history of a check, newest run first. */
  function History(table: seq<Result>, check: int): seq<Result> {
    SortBy(NewestFirst(), Filter((r: Result) => r.check == check, table))
  }

  /** All runs of the check and no others, none older than the next. */
  ghost predicate IsHistory(table: seq<Result>, check: int, h: seq<Result>) {
    && (forall i, j | 0 <= i < j < |h| :: h[i].timestamp >= h[j].timestamp)
    && (forall r :: multiset(h)[r] == if r.check == check then multiset(table)[r] else 0)
  }

  lemma HistoryIs(table: seq<Result>, check: int)
    ensures IsHistory(table, check, History(table, check))
  {
    var own := (r: Result) => r.check == check;
    var h := SortBy(NewestFirst(), Filter(own, table));
    SortBySorted(NewestFirst(), Filter(own, table));
    forall i, j | 0 <= i < j < |h| ensures h[i].timestamp >= h[j].timestamp {
      assert NewestFirst()(h[i]) <= NewestFirst()(h[j]);
    }
    forall r ensures multiset(h)[r] == if r.check == check then multiset(table)[r] else 0 {
      FilterCount(own, table, r);
    }
  }

  /** A check is judged by the newest runs of its history, under its thresholds. */
  ghost predicate JudgedOnNewest(table: seq<Result>, a: Association, limit: nat, r: Status) {
    exists h | IsHistory(table, a.check, h) ::
      Judges(h[..if limit < |h| then limit else |h|], if a.thresholds.Some? then a.thresholds.value else Consecutive(1, 2, 5), r)
  }

  lemma VerdictIsJudged(table: seq<Result>, a: Association, limit: nat)
    ensures JudgedOnNewest(table, a, limit, Verdict(table, a, limit))
  {
    var h := History(table, a.check);
    HistoryIs(table, a.check);
    EvaluateJudges(Take(h, limit), ThresholdsOf(a));
    assert Take(h, limit) == h[..if limit < |h| then limit else |h|];
  }

  function Verdict(table: seq<Result>, a: Association, limit: nat): Status {
    Evaluate(Take(History(table, a.check), limit), ThresholdsOf(a))
  }

  method EvaluateCheck(table: seq<Result>, a: Association, limit: nat) returns (s: Status)
    ensures s == Verdict(table, a, limit)
  {
    s := EvaluateHealthStatus(Take(History(table, a.check), limit), a.thresholds);
  }

  function Verdicts(table: seq<Result>, associations: seq<Association>, limit: nat): (r: seq<Status>)
    ensures |r| == |associations|
    decreases |associations|
  {
    if associations == [] then []
    else Verdicts(table, associations[..|associations| - 1], limit) + [Verdict(table, associations[|associations| - 1], limit)]
  }

  lemma {:induction false} VerdictAt(table: seq<Result>, associations: seq<Association>, limit: nat, i: nat)
    requires i < |associations|
    ensures Verdicts(table, associations, limit)[i] == Verdict(table, associations[i], limit)
    decreases |associations|
  {
    if i < |associations| - 1 {
      VerdictAt(table, associations[..|associations| - 1], limit, i);
    }
  }

  lemma VerdictsNext(table: seq<Result>, associations: seq<Association>, limit: nat, i: nat)
    requires i < |associations|
    ensures Verdicts(table, associations[..i + 1], limit)
      == Verdicts(table, associations[..i], limit) + [Verdict(table, associations[i], limit)]
  {
    assert associations[..i + 1][..i] == associations[..i];
  }

  /** The verdicts of all checks on their newest runs. */
  method EvaluateChecks(table: seq<Result>, associations: seq<Association>, limit: nat) returns (statuses: seq<Status>)
    ensures statuses == Verdicts(table, associations, limit)
  {
    statuses := [];
    for i := 0 to |associations|
      invariant statuses == Verdicts(table, associations[..i], limit)
    {
      VerdictsNext(table, associations, limit, i);
      var status := EvaluateCheck(table, associations[i], limit);
      statuses := statuses + [status];
    }
    assert associations[..|associations|] == associations;
  }

  /** The system's status is the worst verdict of its checks; where the thresholds fit
      100 runs, each verdict is the one on the check's whole history. */
  method GetSystemHealthStatus(table: seq<Result>, associations: seq<Association>) returns (status: Status, statuses: seq<Status>)
    requires forall a <- associations :: WellFormed(ThresholdsOf(a))
    ensures statuses == Verdicts(table, associations, DETAIL_LIMIT) && IsWorst(status, statuses)
    ensures forall i | 0 <= i < |statuses| && Fits(ThresholdsOf(associations[i]), DETAIL_LIMIT) ::
      statuses[i] == Evaluate(History(table, associations[i].check), ThresholdsOf(associations[i]))
    ensures forall i | 0 <= i < |statuses| :: JudgedOnNewest(table, associations[i], 100, statuses[i])
    ensures status == if Unhealthy in statuses then Unhealthy else if Degraded in statuses then Degraded else Healthy
  {
    if associations == [] {
      return Healthy, [];
    }
    statuses := EvaluateChecks(table, associations, DETAIL_LIMIT);
    status := WorstStatus(statuses);
    forall i | 0 <= i < |statuses| ensures JudgedOnNewest(table, associations[i], 100, statuses[i]) {
      VerdictAt(table, associations, DETAIL_LIMIT, i);
      VerdictIsJudged(table, associations[i], DETAIL_LIMIT);
    }
    forall i | 0 <= i < |statuses| && Fits(ThresholdsOf(associations[i]), DETAIL_LIMIT)
      ensures statuses[i] == Evaluate(History(table, associations[i].check), ThresholdsOf(associations[i]))
    {
      VerdictAt(table, associations, DETAIL_LIMIT, i);
      FitsAgrees(History(table, associations[i].check), ThresholdsOf(associations[i]), DETAIL_LIMIT);
    }
  }
}
