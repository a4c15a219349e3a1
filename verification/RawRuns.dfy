/** Bucketing raw runs, and the whole raw pipeline against a direct computation
    from the runs of each target slot. */
module RawRuns {
  import opened Sequences
  import opened Percentiles
  import opened AggregatedResults
  import opened Buckets
  import opened Regrouping

  datatype Status = Healthy | Degraded | Unhealthy

  datatype Run = Run(status: Status, time: int, latency: Option<int>, metadata: string)

  /** Folding the strategy and collector merges over the runs of a bucket; the
      plugins' own merge code is a parameter. */
  type Summarize = seq<Run> -> Option<Record>

  // ------------------------------------------------- statistics of some runs

  function WithStatus(st: Status): Run -> bool { (r: Run) => r.status == st }

  function CountStatus(st: Status, runs: seq<Run>): nat {
    |Filter(WithStatus(st), runs)|
  }

  method CountStatuses(runs: seq<Run>) returns (healthy: nat, degraded: nat, unhealthy: nat)
    ensures healthy == CountStatus(Healthy, runs)
    ensures degraded == CountStatus(Degraded, runs)
    ensures unhealthy == CountStatus(Unhealthy, runs)
  {
    healthy, degraded, unhealthy := 0, 0, 0;
    for i := 0 to |runs|
      invariant healthy == CountStatus(Healthy, runs[..i])
      invariant degraded == CountStatus(Degraded, runs[..i])
      invariant unhealthy == CountStatus(Unhealthy, runs[..i])
    {
      assert runs[..i + 1] == runs[..i] + [runs[i]];
      FilterAppend(WithStatus(Healthy), runs[..i], [runs[i]]);
      FilterAppend(WithStatus(Degraded), runs[..i], [runs[i]]);
      FilterAppend(WithStatus(Unhealthy), runs[..i], [runs[i]]);
      match runs[i].status
      case Healthy => healthy := healthy + 1;
      case Degraded => degraded := degraded + 1;
      case Unhealthy => unhealthy := unhealthy + 1;
    }
    assert runs[..|runs|] == runs;
  }

  lemma {:induction false} StatusesCoverRuns(runs: seq<Run>)
    ensures CountStatus(Healthy, runs) + CountStatus(Degraded, runs) + CountStatus(Unhealthy, runs) == |runs|
  {
    if runs != [] {
      StatusesCoverRuns(runs[1..]);
    }
  }

  function ExtractLatencies(runs: seq<Run>): seq<int> {
    if runs == [] then []
    else if runs[0].latency.Some? then [runs[0].latency.value] + ExtractLatencies(runs[1..])
    else ExtractLatencies(runs[1..])
  }

  /** The statistics of a raw bucket, computed from its runs. */
  function RawStats(runs: seq<Run>): Stats {
    var latencies := ExtractLatencies(runs);
    Stats(|runs|, CountStatus(Healthy, runs), CountStatus(Degraded, runs), CountStatus(Unhealthy, runs),
          if latencies == [] then None else Some(ListSum(latencies)),
          ListMin(latencies), ListMax(latencies),
          if latencies == [] then None else CalculatePercentile(latencies, 95.0),
          Raw)
  }

  // ---------------------------------------- the statistics, run by run

  function Latency(): Run -> Option<int> { (r: Run) => r.latency }

  function LatencyOr0(): Run -> int { (r: Run) => if r.latency.Some? then r.latency.value else 0 }

  function Is(st: Status): Run -> int { (r: Run) => if r.status == st then 1 else 0 }

  /** Runs with a latency that `p` accepts. */
  function Timed(p: int -> bool): Run -> int {
    (r: Run) => if r.latency.Some? && p(r.latency.value) then 1 else 0
  }

  function Any(): int -> bool { v => true }

  function UpTo(limit: int): int -> bool { v => v <= limit }

  function Below(limit: int): int -> bool { v => v < limit }

  /** The 95th percentile by nearest rank: the latency of a run that at least 95 in 100 of
      the timed runs do not exceed, and fewer than 95 in 100 stay below. */
  ghost predicate IsP95(v: Option<int>, runs: seq<Run>) {
    && (v.Some? <==> exists r <- runs :: r.latency.Some?)
    && (v.Some? ==>
         && (exists r <- runs :: r.latency == v)
         && 100 * SumBy(Timed(UpTo(v.value)), runs) >= 95 * SumBy(Timed(Any()), runs)
         && 100 * SumBy(Timed(Below(v.value)), runs) < 95 * SumBy(Timed(Any()), runs))
  }

  /** The numbers of a raw bucket describe its runs. */
  ghost predicate DescribesRuns(t: Stats, runs: seq<Run>) {
    && t.runs == |runs| && t.tier == Raw
    && t.healthy == SumBy(Is(Healthy), runs) && t.degraded == SumBy(Is(Degraded), runs)
    && t.unhealthy == SumBy(Is(Unhealthy), runs)
    && t.latencySum == (if exists r <- runs :: r.latency.Some? then Some(SumBy(LatencyOr0(), runs)) else None)
    && IsLeast(t.min, Latency(), runs) && IsGreatest(t.max, Latency(), runs) && IsP95(t.p95, runs)
  }

  lemma {:induction false} CountIsSum(st: Status, runs: seq<Run>)
    ensures CountStatus(st, runs) == SumBy(Is(st), runs)
  {
    if runs != [] {
      assert runs == [runs[0]] + runs[1..];
      CountIsSum(st, runs[1..]);
    }
  }

  lemma {:induction false} LatenciesMembers(runs: seq<Run>)
    ensures forall r <- runs :: r.latency.Some? ==> r.latency.value in ExtractLatencies(runs)
    ensures forall v <- ExtractLatencies(runs) :: exists r <- runs :: r.latency == Some(v)
  {
    if runs != [] {
      LatenciesMembers(runs[1..]);
      assert runs == [runs[0]] + runs[1..];
    }
  }

  lemma {:induction false} LatenciesSum(runs: seq<Run>)
    ensures ListSum(ExtractLatencies(runs)) == SumBy(LatencyOr0(), runs)
  {
    if runs != [] {
      LatenciesSum(runs[1..]);
      if runs[0].latency.Some? {
        ListSumCons(runs[0].latency.value, ExtractLatencies(runs[1..]));
      }
    }
  }

  lemma {:induction false} ListSumCons(x: int, s: seq<int>)
    ensures ListSum([x] + s) == x + ListSum(s)
  {
    var n := |s|;
    if n == 0 {
      assert [x] + s == [x] && [x][..0] == [];
    } else {
      assert ([x] + s)[..n] == [x] + s[..n - 1];
      ListSumCons(x, s[..n - 1]);
    }
  }

  lemma {:induction false} LatenciesUpTo(limit: int, runs: seq<Run>)
    ensures CountAtMost(limit, ExtractLatencies(runs)) == SumBy(Timed(UpTo(limit)), runs)
    ensures CountBelow(limit, ExtractLatencies(runs)) == SumBy(Timed(Below(limit)), runs)
    ensures |ExtractLatencies(runs)| == SumBy(Timed(Any()), runs)
  {
    if runs != [] {
      LatenciesUpTo(limit, runs[1..]);
      var rest := ExtractLatencies(runs[1..]);
      if runs[0].latency.Some? {
        assert ([runs[0].latency.value] + rest)[1..] == rest;
      }
    }
  }

  lemma ExtremesOfRuns(runs: seq<Run>)
    ensures IsLeast(ListMin(ExtractLatencies(runs)), Latency(), runs)
    ensures IsGreatest(ListMax(ExtractLatencies(runs)), Latency(), runs)
  {
    var latencies := ExtractLatencies(runs);
    LatenciesMembers(runs);
    if latencies == [] {
      assert forall r <- runs :: r.latency.None?;
    } else {
      assert latencies[0] in latencies;
      ListMinIsLeast(latencies);
      ListMaxIsGreatest(latencies);
      forall r | r in runs && r.latency.Some?
        ensures ListMin(latencies).value <= r.latency.value <= ListMax(latencies).value
      {
        var i :| 0 <= i < |latencies| && latencies[i] == r.latency.value;
      }
    }
  }

  lemma P95OfRuns(runs: seq<Run>)
    ensures IsP95(RawStats(runs).p95, runs)
  {
    var latencies := ExtractLatencies(runs);
    LatenciesMembers(runs);
    if latencies == [] {
      assert forall r <- runs :: r.latency.None?;
    } else {
      assert latencies[0] in latencies;
      NearestRank(latencies, 95.0);
      LatenciesUpTo(CalculatePercentile(latencies, 95.0).value, runs);
    }
  }

  /** What a raw bucket says about its runs, whatever they are. */
  lemma RawStatsDescribe(runs: seq<Run>)
    ensures DescribesRuns(RawStats(runs), runs)
  {
    CountIsSum(Healthy, runs);
    CountIsSum(Degraded, runs);
    CountIsSum(Unhealthy, runs);
    LatenciesSum(runs);
    LatenciesMembers(runs);
    ExtremesOfRuns(runs);
    P95OfRuns(runs);
    if ExtractLatencies(runs) != [] {
      assert ExtractLatencies(runs)[0] in ExtractLatencies(runs);
    }
  }

  // ------------------------------------------------------------ raw buckets

  function RunSlot(q: Query, r: Run): int { SlotOf(q.rangeStart, q.interval, r.time) }

  function RunInSlot(q: Query, slot: int): Run -> bool { (r: Run) => RunSlot(q, r) == slot }

  function SlotRuns(q: Query, runs: seq<Run>, slot: int): seq<Run> {
    Filter(RunInSlot(q, slot), runs)
  }

  function RawBucket(sum: Summarize, q: Query, runs: seq<Run>, slot: int): Bucket {
    var start := SlotStart(q.rangeStart, q.interval, slot);
    Bucket(start, start + q.interval, RawStats(SlotRuns(q, runs, slot)), sum(SlotRuns(q, runs, slot)))
  }

  /** The slots met, in order of first appearance: the insertion order of the map. */
  function SlotsMet(q: Query, runs: seq<Run>): seq<int> {
    if runs == [] then []
    else
      var before, s := SlotsMet(q, runs[..|runs| - 1]), RunSlot(q, runs[|runs| - 1]);
      if s in before then before else before + [s]
  }

  function RawBuckets(sum: Summarize, q: Query, runs: seq<Run>, slots: seq<int>): (r: seq<Bucket>)
    ensures |r| == |slots|
  {
    seq(|slots|, i requires 0 <= i < |slots| => RawBucket(sum, q, runs, slots[i]))
  }

  /** What `normalizeRawRunsToBuckets` returns. */
  function Normalize(sum: Summarize, q: Query, runs: seq<Run>): seq<Bucket> {
    RawBuckets(sum, q, runs, SlotsMet(q, runs))
  }

  lemma {:induction false} SlotsMetShape(q: Query, runs: seq<Run>)
    ensures NoRepeats(SlotsMet(q, runs))
    ensures forall s :: s in SlotsMet(q, runs) <==> SlotRuns(q, runs, s) != []
  {
    if runs != [] {
      var front, r := runs[..|runs| - 1], runs[|runs| - 1];
      SlotsMetShape(q, front);
      assert runs == front + [r];
      forall s ensures SlotRuns(q, runs, s) == SlotRuns(q, front, s) + if RunSlot(q, r) == s then [r] else [] {
        FilterAppend(RunInSlot(q, s), front, [r]);
      }
    }
  }

  /** Runs that happened in an interval. */
  function HappensIn(start: int, end: int): Run -> bool { (r: Run) => start <= r.time < end }

  /** A raw bucket: aligned to the range start, one interval long, and describing exactly the
      runs that happened in it, of which there are some. */
  ghost predicate RawAnswers(sum: Summarize, q: Query, runs: seq<Run>, b: Bucket) {
    && (exists s: int :: b.start == q.rangeStart + s * q.interval) && b.end == b.start + q.interval
    && (exists r <- runs :: b.start <= r.time < b.end)
    && var own := Filter(HappensIn(b.start, b.end), runs);
       DescribesRuns(b.stats, own) && b.result == sum(own)
  }

  lemma RunSlotIsInterval(q: Query, runs: seq<Run>, s: int)
    ensures var start := SlotStart(q.rangeStart, q.interval, s);
      SlotRuns(q, runs, s) == Filter(HappensIn(start, start + q.interval), runs)
  {
    var start := SlotStart(q.rangeStart, q.interval, s);
    forall r | r in runs ensures RunInSlot(q, s)(r) == HappensIn(start, start + q.interval)(r) {
      SlotBounds(q.rangeStart, q.interval, r.time);
      if HappensIn(start, start + q.interval)(r) {
        SlotUnique(q.rangeStart, q.interval, r.time, s);
      }
    }
    FilterSame(RunInSlot(q, s), HappensIn(start, start + q.interval), runs);
  }

  lemma RawBucketAnswers(sum: Summarize, q: Query, runs: seq<Run>, s: int)
    requires SlotRuns(q, runs, s) != []
    ensures RawAnswers(sum, q, runs, RawBucket(sum, q, runs, s))
  {
    var b, own := RawBucket(sum, q, runs, s), SlotRuns(q, runs, s);
    RunSlotIsInterval(q, runs, s);
    RawStatsDescribe(own);
    OneHappens(b.start, b.end, runs, own);
    assert b.start == q.rangeStart + s * q.interval;
  }

  lemma OneHappens(start: int, end: int, runs: seq<Run>, own: seq<Run>)
    requires own == Filter(HappensIn(start, end), runs) && own != []
    ensures exists r <- runs :: start <= r.time < end
  {
    var r := own[0];
    assert r in own && HappensIn(start, end)(r);
  }

  /** Every raw bucket is as it should be, and every run happened in one. */
  ghost predicate AllRawAnswer(sum: Summarize, q: Query, runs: seq<Run>, bs: seq<Bucket>) {
    && (forall b <- bs :: RawAnswers(sum, q, runs, b))
    && (forall r <- runs :: exists b <- bs :: b.start <= r.time < b.end)
  }

  lemma NormalizeAnswers(sum: Summarize, q: Query, runs: seq<Run>)
    ensures AllRawAnswer(sum, q, runs, Normalize(sum, q, runs))
  {
    var bs, slots := Normalize(sum, q, runs), SlotsMet(q, runs);
    SlotsMetShape(q, runs);
    forall b | b in bs ensures RawAnswers(sum, q, runs, b) {
      var i :| 0 <= i < |bs| && bs[i] == b;
      assert slots[i] in slots;
      RawBucketAnswers(sum, q, runs, slots[i]);
    }
    forall r | r in runs ensures exists b <- bs :: b.start <= r.time < b.end {
      var s := RunSlot(q, r);
      FilterKeeps(RunInSlot(q, s), runs, r);
      assert r in SlotRuns(q, runs, s) && s in slots;
      var i :| 0 <= i < |slots| && slots[i] == s;
      SlotBounds(q.rangeStart, q.interval, r.time);
      assert bs[i] in bs && bs[i].start <= r.time < bs[i].end;
    }
  }

  lemma EachRawAnswers(sum: Summarize, q: Query, runs: seq<Run>, b: Bucket)
    requires b in Normalize(sum, q, runs)
    ensures RawAnswers(sum, q, runs, b)
  {
    NormalizeAnswers(sum, q, runs);
  }

  method SummarizeRuns(group: seq<Run>) returns (stats: Stats)
    ensures stats == RawStats(group)
  {
    var healthy, degraded, unhealthy := CountStatuses(group);
    var latencies := ExtractLatencies(group);
    stats := Stats(|group|, healthy, degraded, unhealthy,
                   if latencies == [] then None else Some(ListSum(latencies)),
                   ListMin(latencies), ListMax(latencies),
                   if latencies == [] then None else CalculatePercentile(latencies, 95.0),
                   Raw);
  }

  method NormalizeRawRuns(sum: Summarize, q: Query, runs: seq<Run>) returns (result: seq<Bucket>)
    ensures result == Normalize(sum, q, runs)
    ensures AllRawAnswer(sum, q, runs, result)
  {
    if |runs| == 0 {
      result := [];
    } else {
      var slots, groups := GroupRuns(q, runs);
      result := BucketGroups(sum, q, runs, slots, groups);
    }
    NormalizeAnswers(sum, q, runs);
  }

  /** One bucket for each group. */
  method BucketGroups(sum: Summarize, q: Query, runs: seq<Run>, slots: seq<int>, groups: map<int, seq<Run>>)
    returns (result: seq<Bucket>)
    requires forall i | 0 <= i < |slots| :: slots[i] in groups && groups[slots[i]] == SlotRuns(q, runs, slots[i])
    ensures result == RawBuckets(sum, q, runs, slots)
  {
    result := [];
    for i := 0 to |slots|
      invariant result == RawBuckets(sum, q, runs, slots[..i])
    {
      var group := groups[slots[i]];
      var stats := SummarizeRuns(group);
      var start := q.rangeStart + slots[i] * q.interval;
      result := result + [Bucket(start, start + q.interval, stats, sum(group))];
    }
    assert slots[..|slots|] == slots;
  }

  lemma NextRun(q: Query, front: seq<Run>, r: Run)
    ensures var slot, before := RunSlot(q, r), SlotsMet(q, front);
      && SlotsMet(q, front + [r]) == (if slot in before then before else before + [slot])
      && (slot !in before ==> SlotRuns(q, front, slot) == [])
    ensures forall s ::
      SlotRuns(q, front + [r], s) == (if RunSlot(q, r) == s then SlotRuns(q, front, s) + [r] else SlotRuns(q, front, s))
  {
    assert (front + [r])[..|front|] == front;
    SlotsMetShape(q, front);
    forall s
      ensures SlotRuns(q, front + [r], s) == if RunSlot(q, r) == s then SlotRuns(q, front, s) + [r] else SlotRuns(q, front, s)
    {
      FilterSnoc(RunInSlot(q, s), front, r);
    }
  }

  method GroupRuns(q: Query, runs: seq<Run>) returns (slots: seq<int>, groups: map<int, seq<Run>>)
    ensures slots == SlotsMet(q, runs)
    ensures forall i | 0 <= i < |slots| :: slots[i] in groups && groups[slots[i]] == SlotRuns(q, runs, slots[i])
  {
    slots, groups := [], map[];
    for i := 0 to |runs|
      invariant RunGroups(q, runs[..i], slots, groups)
    {
      var r := runs[i];
      var slot := RunSlot(q, r);
      assert runs[..i + 1] == runs[..i] + [r];
      GroupsNext(q, runs[..i], r, slots, groups);
      if slot !in groups {
        groups, slots := groups[slot := []], slots + [slot];
      }
      groups := groups[slot := groups[slot] + [r]];
    }
    assert runs[..|runs|] == runs;
    GroupsFound(q, runs, slots, groups);
  }

  /** The slots met, in order, and the runs of each. */
  ghost predicate RunGroups(q: Query, runs: seq<Run>, slots: seq<int>, groups: map<int, seq<Run>>) {
    && slots == SlotsMet(q, runs) && (forall s :: s in slots <==> s in groups)
    && (forall s <- groups :: groups[s] == SlotRuns(q, runs, s))
  }

  lemma GroupsNext(q: Query, front: seq<Run>, r: Run, slots: seq<int>, groups: map<int, seq<Run>>)
    requires RunGroups(q, front, slots, groups)
    ensures var slot := RunSlot(q, r);
      if slot in groups then RunGroups(q, front + [r], slots, groups[slot := groups[slot] + [r]])
      else RunGroups(q, front + [r], slots + [slot], groups[slot := []][slot := [] + [r]])
  {
    NextRun(q, front, r);
  }

  lemma GroupsFound(q: Query, runs: seq<Run>, slots: seq<int>, groups: map<int, seq<Run>>)
    requires RunGroups(q, runs, slots, groups)
    ensures forall i | 0 <= i < |slots| :: slots[i] in groups && groups[slots[i]] == SlotRuns(q, runs, slots[i])
  {
    forall i | 0 <= i < |slots| ensures slots[i] in groups && groups[slots[i]] == SlotRuns(q, runs, slots[i]) {
      var s := slots[i];
      assert s in slots && s in groups;
    }
  }

  /** Raw buckets of distinct slots do not overlap, none is empty. */
  lemma NormalizedShape(sum: Summarize, q: Query, runs: seq<Run>)
    ensures var bs := Normalize(sum, q, runs);
      && (forall i | 0 <= i < |bs| :: bs[i].start < bs[i].end && bs[i].stats.tier == Raw)
      && (forall i, j | 0 <= i < j < |bs| :: bs[i].end <= bs[j].start || bs[j].end <= bs[i].start)
  {
    SlotsMetShape(q, runs);
    var slots := SlotsMet(q, runs);
    forall i, j | 0 <= i < j < |slots|
      ensures var a, b := SlotStart(q.rangeStart, q.interval, slots[i]), SlotStart(q.rangeStart, q.interval, slots[j]);
        a + q.interval <= b || b + q.interval <= a
    {
      if slots[i] < slots[j] {
        SlotStartsIncrease(q.rangeStart, q.interval, slots[i], slots[j]);
      } else {
        SlotStartsIncrease(q.rangeStart, q.interval, slots[j], slots[i]);
      }
    }
  }

  // ----------------------------------------------------- direct computation

  /** The bucket of a slot, straight from the runs whose time lies in it. */
  function DirectBucket(sum: Summarize, q: Query, runs: seq<Run>, slot: int, last: int): Bucket {
    Bucket(SlotStart(q.rangeStart, q.interval, slot), TargetEnd(q, slot, last),
           RawStats(SlotRuns(q, runs, slot)), sum(SlotRuns(q, runs, slot)))
  }

  function DirectSlots(sum: Summarize, q: Query, runs: seq<Run>, lo: int, n: nat, last: int): seq<Bucket> {
    if n == 0 then []
    else
      DirectSlots(sum, q, runs, lo, n - 1, last) + DirectOf(sum, q, runs, lo + n - 1, last)
  }

  /** The bucket of a slot, if it has runs. */
  function DirectOf(sum: Summarize, q: Query, runs: seq<Run>, slot: int, last: int): seq<Bucket> {
    if SlotRuns(q, runs, slot) == [] then [] else [DirectBucket(sum, q, runs, slot, last)]
  }

  function RunSlots(q: Query, runs: seq<Run>): (r: seq<int>)
    ensures |r| == |runs|
  {
    seq(|runs|, i requires 0 <= i < |runs| => RunSlot(q, runs[i]))
  }

  /** One bucket per non-empty slot between the first and the last slot with runs. */
  function Direct(sum: Summarize, q: Query, runs: seq<Run>): seq<Bucket> {
    if runs == [] then []
    else
      var lo, hi := ListMin(RunSlots(q, runs)).value, ListMax(RunSlots(q, runs)).value;
      DirectSlots(sum, q, runs, lo, if hi >= lo then hi - lo + 1 else 0, hi)
  }

  lemma DirectForm(sum: Summarize, q: Query, runs: seq<Run>, lo: int, n: nat, hi: int)
    requires runs != [] && ListMin(RunSlots(q, runs)) == Some(lo) && ListMax(RunSlots(q, runs)) == Some(hi)
    requires n == if hi >= lo then hi - lo + 1 else 0
    ensures Direct(sum, q, runs) == DirectSlots(sum, q, runs, lo, n, hi)
  {
  }

  lemma {:induction false} FilterUnique(q: Query, bs: seq<Bucket>, i: nat)
    requires i < |bs|
    requires forall j, k | 0 <= j < k < |bs| :: Slot(q, bs[j]) != Slot(q, bs[k])
    ensures Group(q, bs, Slot(q, bs[i])) == [bs[i]]
  {
    var slot := Slot(q, bs[i]);
    if i == 0 {
      forall x | x in bs[1..] ensures !InSlot(q, slot)(x) {
        var j :| 0 <= j < |bs[1..]| && bs[1..][j] == x;
        assert bs[j + 1] == x;
      }
      FilterNone(InSlot(q, slot), bs[1..]);
    } else {
      assert Slot(q, bs[0]) != slot;
      FilterUnique(q, bs[1..], i - 1);
    }
  }

  lemma RawBucketSlot(sum: Summarize, q: Query, runs: seq<Run>, slot: int)
    ensures Slot(q, RawBucket(sum, q, runs, slot)) == slot
  {
    SlotOfStart(q.rangeStart, q.interval, slot);
  }

  /** After normalizing, a slot holds one bucket if it has runs, none otherwise. */
  lemma GroupOfNormalized(sum: Summarize, q: Query, runs: seq<Run>, slot: int)
    ensures Group(q, Normalize(sum, q, runs), slot) ==
      if SlotRuns(q, runs, slot) == [] then [] else [RawBucket(sum, q, runs, slot)]
  {
    var bs, slots := Normalize(sum, q, runs), SlotsMet(q, runs);
    SlotsMetShape(q, runs);
    forall i | 0 <= i < |slots| ensures Slot(q, bs[i]) == slots[i] {
      RawBucketSlot(sum, q, runs, slots[i]);
    }
    if SlotRuns(q, runs, slot) == [] {
      forall x | x in bs ensures !InSlot(q, slot)(x) {
        var i :| 0 <= i < |bs| && bs[i] == x;
        assert slots[i] in slots;
      }
      FilterNone(InSlot(q, slot), bs);
    } else {
      var i :| 0 <= i < |slots| && slots[i] == slot;
      FilterUnique(q, bs, i);
    }
  }

  lemma StatsOfOne(b: Bucket)
    ensures StatsOf([b]) == b.stats
  {
    AddStatsLaws(b.stats, NO_STATS, NO_STATS);
    assert [b][..0] == [];
  }

  lemma ResultOfOne(reg: Registry, r: Option<Record>)
    ensures MergeResults(reg, [r]) == r
  {
    assert [r][1..] == [];
    assert Valid([r]) == if r.None? then [] else [r.value];
  }

  lemma CombineOne(reg: Registry, b: Bucket, start: int, end: int)
    ensures Combine(reg, [b], start, end) == Bucket(start, end, b.stats, b.result)
  {
    StatsOfOne(b);
    ResultOfOne(reg, b.result);
    assert ResultsOf([b]) == [b.result];
  }

  lemma TargetIsDirect(reg: Registry, sum: Summarize, q: Query, runs: seq<Run>, slot: int, last: int)
    ensures Group(q, Normalize(sum, q, runs), slot) == [] <==> SlotRuns(q, runs, slot) == []
    ensures SlotRuns(q, runs, slot) != [] ==>
      Target(reg, q, Normalize(sum, q, runs), slot, last) == DirectBucket(sum, q, runs, slot, last)
  {
    GroupOfNormalized(sum, q, runs, slot);
    CombineOne(reg, RawBucket(sum, q, runs, slot), SlotStart(q.rangeStart, q.interval, slot), TargetEnd(q, slot, last));
  }

  ghost predicate SameSlot(reg: Registry, sum: Summarize, q: Query, bs: seq<Bucket>, runs: seq<Run>, last: int, slot: int) {
    SlotBucket(reg, q, bs, slot, last) == DirectOf(sum, q, runs, slot, last)
  }

  lemma SlotBucketIsDirect(reg: Registry, sum: Summarize, q: Query, runs: seq<Run>, slot: int, last: int)
    ensures SameSlot(reg, sum, q, Normalize(sum, q, runs), runs, last, slot)
  {
    TargetIsDirect(reg, sum, q, runs, slot, last);
  }

  /** Slot by slot the same buckets, so the same lists. */
  lemma {:induction false} SlotsAreDirect(reg: Registry, sum: Summarize, q: Query, bs: seq<Bucket>, runs: seq<Run>,
                                          lo: int, n: nat, last: int)
    requires forall s :: SameSlot(reg, sum, q, bs, runs, last, s)
    ensures Slots(reg, q, bs, lo, n, last) == DirectSlots(sum, q, runs, lo, n, last)
    decreases n
  {
    if n > 0 {
      SlotsAreDirect(reg, sum, q, bs, runs, lo, n - 1, last);
      assert SameSlot(reg, sum, q, bs, runs, last, lo + n - 1);
    }
  }

  lemma NormalizedSlots(sum: Summarize, q: Query, runs: seq<Run>)
    ensures SlotList(q, Normalize(sum, q, runs)) == SlotsMet(q, runs)
  {
    var bs, slots := Normalize(sum, q, runs), SlotsMet(q, runs);
    forall i | 0 <= i < |slots| ensures Slot(q, bs[i]) == slots[i] {
      RawBucketSlot(sum, q, runs, slots[i]);
    }
  }

  lemma SameMembersSameExtremes(a: seq<int>, b: seq<int>)
    requires a != [] && forall s :: s in a <==> s in b
    ensures b != [] && ListMin(a) == ListMin(b) && ListMax(a) == ListMax(b)
  {
    assert a[0] in a;
    ListMinIsLeast(a);
    ListMinIsLeast(b);
    ListMaxIsGreatest(a);
    ListMaxIsGreatest(b);
  }

  lemma SameExtent(sum: Summarize, q: Query, runs: seq<Run>)
    requires runs != []
    ensures Normalize(sum, q, runs) != []
    ensures ListMin(RunSlots(q, runs)) == Some(FirstSlot(q, Normalize(sum, q, runs)))
    ensures ListMax(RunSlots(q, runs)) == Some(LastSlot(q, Normalize(sum, q, runs)))
  {
    forall s ensures s in SlotsMet(q, runs) <==> s in RunSlots(q, runs) {
      SlotMet(q, runs, s);
    }
    SameMembersSameExtremes(RunSlots(q, runs), SlotsMet(q, runs));
    NormalizedSlots(sum, q, runs);
    ListMinIsLeast(SlotsMet(q, runs));
    ListMaxIsGreatest(SlotsMet(q, runs));
  }

  lemma SlotMet(q: Query, runs: seq<Run>, s: int)
    ensures s in SlotsMet(q, runs) <==> s in RunSlots(q, runs)
  {
    SlotsMetShape(q, runs);
    var all := RunSlots(q, runs);
    if SlotRuns(q, runs, s) != [] {
      var r := SlotRuns(q, runs, s)[0];
      assert r in SlotRuns(q, runs, s) && r in runs;
      var i :| 0 <= i < |runs| && runs[i] == r;
      assert all[i] == s;
    }
    if s in all {
      var i :| 0 <= i < |all| && all[i] == s;
      FilterKeeps(RunInSlot(q, s), runs, runs[i]);
    }
  }

  /** Bucketing the runs and regrouping at the same interval is the direct
      computation: one bucket per slot with runs, its numbers and its p95 those
      of exactly these runs. */
  lemma RawPipelineIsDirect(reg: Registry, sum: Summarize, q: Query, runs: seq<Run>)
    ensures Reaggregate(reg, q, Normalize(sum, q, runs)) == Direct(sum, q, runs)
  {
    if runs != [] {
      SameExtent(sum, q, runs);
      var lo, last := FirstSlot(q, Normalize(sum, q, runs)), LastSlot(q, Normalize(sum, q, runs));
      var n := SlotCount(q, Normalize(sum, q, runs));
      ReaggregateForm(reg, q, Normalize(sum, q, runs), lo, n, last);
      DirectForm(sum, q, runs, lo, n, last);
      forall s ensures SameSlot(reg, sum, q, Normalize(sum, q, runs), runs, last, s) {
        SlotBucketIsDirect(reg, sum, q, runs, s, last);
      }
      SlotsAreDirect(reg, sum, q, Normalize(sum, q, runs), runs, lo, n, last);
    }
  }

  // ------------------------------------------------- the p95 of combined buckets

  function P95(latencies: seq<int>): Option<int> {
    if latencies == [] then None else CalculatePercentile(latencies, 95.0)
  }

  lemma {:induction false} LargestP95(bs: seq<Bucket>)
    ensures forall i | 0 <= i < |bs| && bs[i].stats.p95.Some? ::
      StatsOf(bs).p95.Some? && bs[i].stats.p95.value <= StatsOf(bs).p95.value
  {
    if bs != [] {
      LargestP95(bs[..|bs| - 1]);
    }
  }

  /** Buckets that each carry the p95 of their own latencies combine to a bucket
      whose p95 is at least the p95 of all latencies together. */
  lemma CombinedP95IsUpperBound(bs: seq<Bucket>, latencies: seq<seq<int>>)
    requires |bs| == |latencies| && Concat(latencies) != []
    requires forall i | 0 <= i < |bs| :: bs[i].stats.p95 == P95(latencies[i])
    ensures StatsOf(bs).p95.Some? && P95(Concat(latencies)).Some?
    ensures P95(Concat(latencies)).value <= StatsOf(bs).p95.value
  {
    LargestP95(bs);
    var i := SomeNonEmpty(latencies);
    NearestRank(latencies[i], 95.0);
    var m := StatsOf(bs).p95.value;
    forall g | g in latencies && CalculatePercentile(g, 95.0).Some? ensures CalculatePercentile(g, 95.0).value <= m {
      var j :| 0 <= j < |latencies| && latencies[j] == g;
      if g == [] {
        EmptyHasNone();
      }
      assert bs[j].stats.p95 == P95(g);
    }
    MaxOfGroupPercentilesBounds(latencies, 95.0, m);
  }

  lemma {:induction false} SomeNonEmpty(groups: seq<seq<int>>) returns (i: nat)
    requires Concat(groups) != []
    ensures i < |groups| && groups[i] != []
  {
    if groups[0] != [] {
      i := 0;
    } else {
      i := SomeNonEmpty(groups[1..]);
      i := i + 1;
    }
  }

  lemma EmptyHasNone()
    ensures CalculatePercentile([], 95.0).None?
  {
  }
}
