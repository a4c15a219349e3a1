/** Merging buckets of the three storage tiers: raw data first, then hourly,
    then daily, without overlaps between tiers. */
module Tiers {
  import opened Sequences
  import opened Buckets

  /** A half-open range of time. */
  datatype Range = Range(start: int, end: int)

  predicate Overlap(a: Range, b: Range) {
    a.start < b.end && b.start < a.end
  }

  predicate OverlapsAny(r: Range, ranges: seq<Range>) {
    exists x <- ranges :: Overlap(r, x)
  }

  function RangeOf(b: Bucket): Range { Range(b.start, b.end) }

  function RangesOf(bs: seq<Bucket>): (r: seq<Range>)
    ensures |r| == |bs|
  {
    seq(|bs|, i requires 0 <= i < |bs| => RangeOf(bs[i]))
  }

  function RangeKey(): Range -> int { (r: Range) => r.start }
  function BucketKey(): Bucket -> int { (b: Bucket) => b.start }

  function SortedRanges(bs: seq<Bucket>): seq<Range> {
    SortBy(RangeKey(), RangesOf(bs))
  }

  lemma SortedRangesMembers(bs: seq<Bucket>, r: Range)
    ensures r in SortedRanges(bs) <==> exists b <- bs :: RangeOf(b) == r
  {
    SortByMembers(RangeKey(), RangesOf(bs), r);
    if r in RangesOf(bs) {
      var i :| 0 <= i < |bs| && RangesOf(bs)[i] == r;
      assert bs[i] in bs;
    }
    if b :| b in bs && RangeOf(b) == r {
      var i :| 0 <= i < |bs| && bs[i] == b;
      assert RangesOf(bs)[i] == r;
    }
  }

  lemma SortedRangesAny(r: Range, bs: seq<Bucket>)
    ensures OverlapsAny(r, SortedRanges(bs)) <==> exists b <- bs :: Overlap(r, RangeOf(b))
  {
    if x :| x in SortedRanges(bs) && Overlap(r, x) {
      SortedRangesMembers(bs, x);
    }
    if b :| b in bs && Overlap(r, RangeOf(b)) {
      SortedRangesMembers(bs, RangeOf(b));
    }
  }

  // -------------------------------------------------------------- coverage

  /** Extends the last range when the next one overlaps or touches it. */
  function AddRange(coverage: seq<Range>, r: Range): seq<Range> {
    if coverage == [] then [r]
    else
      var last := coverage[|coverage| - 1];
      if r.start <= last.end
      then coverage[..|coverage| - 1] + [Range(last.start, if r.end > last.end then r.end else last.end)]
      else coverage + [r]
  }

  function Coverage(ranges: seq<Range>): seq<Range> {
    if ranges == [] then [] else AddRange(Coverage(ranges[..|ranges| - 1]), ranges[|ranges| - 1])
  }

  method BuildCoverage(ranges: seq<Range>) returns (coverage: seq<Range>)
    ensures coverage == Coverage(ranges)
  {
    coverage := [];
    for i := 0 to |ranges|
      invariant coverage == Coverage(ranges[..i])
    {
      assert ranges[..i + 1][..i] == ranges[..i];
      var r := ranges[i];
      if |coverage| == 0 {
        coverage := [r];
      } else {
        var last := coverage[|coverage| - 1];
        if r.start <= last.end {
          coverage := coverage[..|coverage| - 1] + [Range(last.start, if r.end > last.end then r.end else last.end)];
        } else {
          coverage := coverage + [r];
        }
      }
    }
    assert ranges[..|ranges|] == ranges;
  }

  ghost predicate StartsAscend(ranges: seq<Range>) {
    forall i, j | 0 <= i < j < |ranges| :: ranges[i].start <= ranges[j].start
  }

  ghost predicate NonEmpty(ranges: seq<Range>) {
    forall i | 0 <= i < |ranges| :: ranges[i].start < ranges[i].end
  }

  ghost predicate Inside(x: int, ranges: seq<Range>) {
    exists i :: 0 <= i < |ranges| && ranges[i].start <= x < ranges[i].end
  }

  lemma InsideSnoc(x: int, ranges: seq<Range>, r: Range)
    ensures Inside(x, ranges + [r]) <==> Inside(x, ranges) || r.start <= x < r.end
  {
    if i :| 0 <= i < |ranges| && ranges[i].start <= x < ranges[i].end {
      assert (ranges + [r])[i] == ranges[i];
    }
    if r.start <= x < r.end {
      assert (ranges + [r])[|ranges|] == r;
    }
  }

  lemma AddRangeStep(coverage: seq<Range>, r: Range)
    requires StartsAscend(coverage) && NonEmpty(coverage) && r.start < r.end
    requires forall i | 0 <= i < |coverage| :: coverage[i].start <= r.start
    ensures var c := AddRange(coverage, r);
      && StartsAscend(c) && NonEmpty(c)
      && forall i | 0 <= i < |c| :: c[i].start <= r.start
  {
  }

  lemma AddRangePoints(coverage: seq<Range>, r: Range, x: int)
    requires coverage != [] ==> coverage[|coverage| - 1].start <= r.start
    ensures Inside(x, AddRange(coverage, r)) <==> Inside(x, coverage) || r.start <= x < r.end
  {
    if coverage != [] && r.start <= coverage[|coverage| - 1].end {
      var front, last := coverage[..|coverage| - 1], coverage[|coverage| - 1];
      assert coverage == front + [last];
      InsideSnoc(x, front, last);
      InsideSnoc(x, front, Range(last.start, if r.end > last.end then r.end else last.end));
    } else {
      assert coverage == [] ==> coverage + [r] == [r];
      InsideSnoc(x, coverage, r);
    }
  }

  lemma {:induction false} CoverageShape(ranges: seq<Range>)
    requires StartsAscend(ranges) && NonEmpty(ranges)
    ensures StartsAscend(Coverage(ranges)) && NonEmpty(Coverage(ranges))
    ensures ranges != [] ==> forall c <- Coverage(ranges) :: c.start <= ranges[|ranges| - 1].start
  {
    if ranges != [] {
      var front, r := ranges[..|ranges| - 1], ranges[|ranges| - 1];
      CoverageShape(front);
      var c := Coverage(front);
      forall i | 0 <= i < |c| ensures c[i].start <= r.start {
        assert c[i] in c;
      }
      AddRangeStep(c, r);
    }
  }

  /** The coverage holds exactly the instants of the ranges it was built from. */
  lemma {:induction false} CoveragePoints(ranges: seq<Range>, x: int)
    requires StartsAscend(ranges) && NonEmpty(ranges)
    ensures Inside(x, Coverage(ranges)) <==> Inside(x, ranges)
  {
    if ranges != [] {
      var front, r := ranges[..|ranges| - 1], ranges[|ranges| - 1];
      CoveragePoints(front, x);
      CoverageShape(front);
      assert ranges == front + [r];
      InsideSnoc(x, front, r);
      var c := Coverage(front);
      if c != [] {
        assert c[|c| - 1] in c;
      }
      AddRangePoints(c, r, x);
    }
  }

  /** Non-empty ranges overlap when they share an instant. */
  lemma OverlapIsSharedPoint(r: Range, ranges: seq<Range>)
    requires r.start < r.end && NonEmpty(ranges)
    ensures OverlapsAny(r, ranges) <==> exists x :: r.start <= x < r.end && Inside(x, ranges)
  {
    if c :| c in ranges && Overlap(r, c) {
      var i :| 0 <= i < |ranges| && ranges[i] == c;
      var x := if r.start >= c.start then r.start else c.start;
      assert ranges[i].start <= x < ranges[i].end;
      assert Inside(x, ranges);
    }
    if x :| r.start <= x < r.end && Inside(x, ranges) {
      var i :| 0 <= i < |ranges| && ranges[i].start <= x < ranges[i].end;
      assert ranges[i] in ranges && Overlap(r, ranges[i]);
    }
  }

  /** Testing against the merged coverage is testing against the ranges themselves. */
  lemma CoverageExact(r: Range, ranges: seq<Range>)
    requires r.start < r.end && StartsAscend(ranges) && NonEmpty(ranges)
    ensures OverlapsAny(r, Coverage(ranges)) <==> OverlapsAny(r, ranges)
  {
    CoverageShape(ranges);
    OverlapIsSharedPoint(r, ranges);
    OverlapIsSharedPoint(r, Coverage(ranges));
    forall x ensures Inside(x, Coverage(ranges)) <==> Inside(x, ranges) {
      CoveragePoints(ranges, x);
    }
  }

  /** Neighbouring ranges of a coverage leave a gap: touching ones were merged. */
  ghost predicate Gaps(coverage: seq<Range>) {
    forall i, j | 0 <= i < j < |coverage| :: coverage[i].end < coverage[j].start
  }

  lemma {:induction false} CoverageGaps(ranges: seq<Range>)
    requires StartsAscend(ranges) && NonEmpty(ranges)
    ensures Gaps(Coverage(ranges))
  {
    if ranges != [] {
      var front, r := ranges[..|ranges| - 1], ranges[|ranges| - 1];
      CoverageGaps(front);
      CoverageShape(front);
      AddRangeGaps(Coverage(front), r);
    }
  }

  lemma AddRangeGaps(coverage: seq<Range>, r: Range)
    requires Gaps(coverage) && NonEmpty(coverage)
    ensures Gaps(AddRange(coverage, r))
  {
    if coverage != [] && r.start > coverage[|coverage| - 1].end {
      forall i | 0 <= i < |coverage| ensures coverage[i].end < r.start {
        assert coverage[i].end <= coverage[|coverage| - 1].end;
      }
    }
  }

  /** A bucket of no length is flagged exactly when both the instant before it and its
      own are covered, be it by two ranges that only touch. */
  lemma EmptyRangeFlaggedIff(x: int, ranges: seq<Range>)
    requires StartsAscend(ranges) && NonEmpty(ranges)
    ensures OverlapsAny(Range(x, x), Coverage(ranges)) <==> Inside(x - 1, ranges) && Inside(x, ranges)
  {
    var c := Coverage(ranges);
    CoverageGaps(ranges);
    CoverageShape(ranges);
    CoveragePoints(ranges, x - 1);
    CoveragePoints(ranges, x);
    if r :| r in c && Overlap(Range(x, x), r) {
      var i :| 0 <= i < |c| && c[i] == r;
      assert c[i].start <= x - 1 < c[i].end && c[i].start <= x < c[i].end;
    }
    if Inside(x - 1, c) && Inside(x, c) {
      var i :| 0 <= i < |c| && c[i].start <= x - 1 < c[i].end;
      var j :| 0 <= j < |c| && c[j].start <= x < c[j].end;
      assert i == j;
      assert c[i] in c && Overlap(Range(x, x), c[i]);
    }
  }

  /** The scan with its early exit finds an overlap whenever there is one. */
  method Scan(r: Range, ranges: seq<Range>) returns (found: bool)
    requires StartsAscend(ranges)
    ensures found == OverlapsAny(r, ranges)
  {
    for i := 0 to |ranges|
      invariant forall j | 0 <= j < i :: !Overlap(r, ranges[j])
    {
      if r.start < ranges[i].end && ranges[i].start < r.end {
        assert Overlap(r, ranges[i]);
        return true;
      }
      if ranges[i].start >= r.end {
        break;
      }
    }
    return false;
  }

  method ScanBoth(r: Range, first: seq<Range>, second: seq<Range>) returns (found: bool)
    requires StartsAscend(first) && StartsAscend(second)
    ensures found == (OverlapsAny(r, first) || OverlapsAny(r, second))
  {
    found := Scan(r, first);
    if !found {
      found := Scan(r, second);
    }
  }

  // --------------------------------------------------------------- merging

  /** What the two helper closures decide. */
  function FreeOfRaw(raw: seq<Bucket>): Bucket -> bool {
    b => !OverlapsAny(RangeOf(b), Coverage(SortedRanges(raw)))
  }

  function FreeOfBoth(raw: seq<Bucket>, hourly: seq<Bucket>): Bucket -> bool {
    b => !OverlapsAny(RangeOf(b), Coverage(SortedRanges(raw))) && !OverlapsAny(RangeOf(b), SortedRanges(hourly))
  }

  function KeptHourly(raw: seq<Bucket>, hourly: seq<Bucket>): seq<Bucket> {
    Filter(FreeOfRaw(raw), hourly)
  }

  function KeptDaily(raw: seq<Bucket>, hourly: seq<Bucket>, daily: seq<Bucket>): seq<Bucket> {
    Filter(FreeOfBoth(raw, hourly), daily)
  }

  function Selected(raw: seq<Bucket>, hourly: seq<Bucket>, daily: seq<Bucket>): seq<Bucket> {
    raw + KeptHourly(raw, hourly) + KeptDaily(raw, hourly, daily)
  }

  /** What `mergeTieredBuckets` returns. */
  function MergeTiers(raw: seq<Bucket>, hourly: seq<Bucket>, daily: seq<Bucket>): seq<Bucket> {
    SortBy(BucketKey(), Selected(raw, hourly, daily))
  }

  lemma SortedRangesAscend(bs: seq<Bucket>)
    ensures StartsAscend(SortedRanges(bs))
  {
    SortBySorted(RangeKey(), RangesOf(bs));
    var t := SortedRanges(bs);
    forall i, j | 0 <= i < j < |t| ensures t[i].start <= t[j].start {
      assert RangeKey()(t[i]) <= RangeKey()(t[j]);
    }
  }

  /** Coverages keep ascending starts even over empty or reversed ranges. */
  lemma {:induction false} CoverageAscends(ranges: seq<Range>)
    requires StartsAscend(ranges)
    ensures StartsAscend(Coverage(ranges))
    ensures ranges != [] ==> forall c <- Coverage(ranges) :: c.start <= ranges[|ranges| - 1].start
  {
    if ranges != [] {
      var front, r := ranges[..|ranges| - 1], ranges[|ranges| - 1];
      CoverageAscends(front);
      var c := Coverage(front);
      forall i | 0 <= i < |c| ensures c[i].start <= r.start {
        assert c[i] in c;
      }
    }
  }

  method SelectHourly(raw: seq<Bucket>, hourly: seq<Bucket>, coverage: seq<Range>) returns (kept: seq<Bucket>)
    requires coverage == Coverage(SortedRanges(raw)) && StartsAscend(coverage)
    ensures kept == KeptHourly(raw, hourly)
  {
    kept := [];
    ghost var free := FreeOfRaw(raw);
    assert forall b :: free(b) <==> !OverlapsAny(RangeOf(b), coverage);
    for i := 0 to |hourly|
      invariant kept == Filter(free, hourly[..i])
    {
      assert hourly[..i + 1] == hourly[..i] + [hourly[i]];
      FilterSnoc(free, hourly[..i], hourly[i]);
      var hit := Scan(RangeOf(hourly[i]), coverage);
      if !hit {
        kept := kept + [hourly[i]];
      }
    }
    assert hourly[..|hourly|] == hourly;
  }

  method SelectDaily(raw: seq<Bucket>, hourly: seq<Bucket>, daily: seq<Bucket>, coverage: seq<Range>)
    returns (kept: seq<Bucket>)
    requires coverage == Coverage(SortedRanges(raw)) && StartsAscend(coverage)
    ensures kept == KeptDaily(raw, hourly, daily)
  {
    SortedRangesAscend(hourly);
    var hourlyRanges := SortBy(RangeKey(), RangesOf(hourly));
    kept := [];
    ghost var free := FreeOfBoth(raw, hourly);
    assert forall b :: free(b) <==> !OverlapsAny(RangeOf(b), coverage) && !OverlapsAny(RangeOf(b), hourlyRanges);
    for i := 0 to |daily|
      invariant kept == Filter(free, daily[..i])
    {
      assert daily[..i + 1] == daily[..i] + [daily[i]];
      FilterSnoc(free, daily[..i], daily[i]);
      var hit := ScanBoth(RangeOf(daily[i]), coverage, hourlyRanges);
      if !hit {
        kept := kept + [daily[i]];
      }
    }
    assert daily[..|daily|] == daily;
  }

  method MergeTieredBuckets(raw: seq<Bucket>, hourly: seq<Bucket>, daily: seq<Bucket>) returns (result: seq<Bucket>)
    ensures result == MergeTiers(raw, hourly, daily)
  {
    if |raw| == 0 && |hourly| == 0 && |daily| == 0 {
      return [];
    }
    SortedRangesAscend(raw);
    CoverageAscends(SortedRanges(raw));
    var coverage := BuildCoverage(SortBy(RangeKey(), RangesOf(raw)));
    var hourlyKept := SelectHourly(raw, hourly, coverage);
    var dailyKept := SelectDaily(raw, hourly, daily, coverage);
    result := SortBy(BucketKey(), raw + hourlyKept + dailyKept);
  }

  // ---------------------------------------------------- what merging keeps

  ghost predicate NonEmptyBuckets(bs: seq<Bucket>) {
    forall i | 0 <= i < |bs| :: bs[i].start < bs[i].end
  }

  ghost predicate Meets(b: Bucket, bs: seq<Bucket>) {
    exists x <- bs :: Overlap(RangeOf(b), RangeOf(x))
  }

  lemma SortedRangesNonEmpty(bs: seq<Bucket>)
    requires NonEmptyBuckets(bs)
    ensures NonEmpty(SortedRanges(bs))
  {
    var t := SortedRanges(bs);
    forall i | 0 <= i < |t| ensures t[i].start < t[i].end {
      SortedRangesMembers(bs, t[i]);
      var b :| b in bs && RangeOf(b) == t[i];
    }
  }

  lemma RawTest(b: Bucket, raw: seq<Bucket>)
    requires b.start < b.end && NonEmptyBuckets(raw)
    ensures OverlapsAny(RangeOf(b), Coverage(SortedRanges(raw))) <==> Meets(b, raw)
  {
    SortedRangesAscend(raw);
    SortedRangesNonEmpty(raw);
    CoverageExact(RangeOf(b), SortedRanges(raw));
    SortedRangesAny(RangeOf(b), raw);
  }

  /** Exactly these survive: every raw bucket, hourly buckets that meet no raw
      one, daily buckets that meet neither a raw nor an hourly input bucket. */
  lemma MergeTiersMembers(raw: seq<Bucket>, hourly: seq<Bucket>, daily: seq<Bucket>, b: Bucket)
    requires NonEmptyBuckets(raw) && NonEmptyBuckets(hourly) && NonEmptyBuckets(daily)
    ensures b in MergeTiers(raw, hourly, daily) <==>
      || b in raw
      || (b in hourly && !Meets(b, raw))
      || (b in daily && !Meets(b, raw) && !Meets(b, hourly))
  {
    SortByMembers(BucketKey(), Selected(raw, hourly, daily), b);
    if b in hourly || b in daily {
      assert b.start < b.end;
      RawTest(b, raw);
      SortedRangesAny(RangeOf(b), hourly);
    }
    if b in hourly && FreeOfRaw(raw)(b) {
      FilterKeeps(FreeOfRaw(raw), hourly, b);
    }
    if b in daily && FreeOfBoth(raw, hourly)(b) {
      FilterKeeps(FreeOfBoth(raw, hourly), daily, b);
    }
  }

  // ---------------------------------------------------------- disjointness

  ghost predicate Disjoint(bs: seq<Bucket>) {
    forall i, j | 0 <= i < j < |bs| :: !Overlap(RangeOf(bs[i]), RangeOf(bs[j]))
  }

  ghost predicate Separate(a: seq<Bucket>, b: seq<Bucket>) {
    forall x, y | x in a && y in b :: !Overlap(RangeOf(x), RangeOf(y))
  }

  lemma DisjointAppend(a: seq<Bucket>, b: seq<Bucket>)
    requires Disjoint(a) && Disjoint(b) && Separate(a, b)
    ensures Disjoint(a + b)
  {
    var c := a + b;
    forall i, j | 0 <= i < j < |c| ensures !Overlap(RangeOf(c[i]), RangeOf(c[j])) {
      if i < |a| <= j {
        assert c[i] in a && c[j] in b;
      }
    }
  }

  lemma {:induction false} DisjointFilter(p: Bucket -> bool, s: seq<Bucket>)
    requires Disjoint(s)
    ensures Disjoint(Filter(p, s))
  {
    if s != [] {
      DisjointFilter(p, s[1..]);
      if p(s[0]) {
        var rest := Filter(p, s[1..]);
        forall x, y | x in [s[0]] && y in rest ensures !Overlap(RangeOf(x), RangeOf(y)) {
          var j :| 0 <= j < |s[1..]| && s[1..][j] == y;
          assert s[j + 1] == y;
        }
        DisjointAppend([s[0]], rest);
      }
    }
  }

  lemma {:induction false} DisjointInsert(x: Bucket, s: seq<Bucket>)
    requires Disjoint(s) && Separate([x], s)
    ensures Disjoint(InsertBy(BucketKey(), x, s))
  {
    assert x in [x];
    if s == [] || x.start <= s[0].start {
      DisjointAppend([x], s);
    } else {
      var rest := s[1..];
      DisjointInsert(x, rest);
      var t := InsertBy(BucketKey(), x, rest);
      forall u, y | u in [s[0]] && y in t ensures !Overlap(RangeOf(u), RangeOf(y)) {
        assert y in multiset([x]) + multiset(rest);
        if y in rest {
          var j :| 0 <= j < |rest| && rest[j] == y;
          assert s[j + 1] == y;
        }
      }
      DisjointAppend([s[0]], t);
    }
  }

  lemma {:induction false} DisjointSort(s: seq<Bucket>)
    requires Disjoint(s)
    ensures Disjoint(SortBy(BucketKey(), s))
  {
    if s != [] {
      var rest := s[1..];
      DisjointSort(rest);
      var t := SortBy(BucketKey(), rest);
      forall u, y | u in [s[0]] && y in t ensures !Overlap(RangeOf(u), RangeOf(y)) {
        SortByMembers(BucketKey(), rest, y);
        var j :| 0 <= j < |rest| && rest[j] == y;
        assert s[j + 1] == y;
      }
      DisjointInsert(s[0], t);
    }
  }

  lemma KeptHourlyFree(raw: seq<Bucket>, hourly: seq<Bucket>)
    requires NonEmptyBuckets(raw) && NonEmptyBuckets(hourly)
    ensures Separate(raw, KeptHourly(raw, hourly))
  {
    forall x, y | x in raw && y in KeptHourly(raw, hourly) ensures !Overlap(RangeOf(x), RangeOf(y)) {
      assert y in hourly && FreeOfRaw(raw)(y);
      RawTest(y, raw);
    }
  }

  lemma KeptDailyFree(raw: seq<Bucket>, hourly: seq<Bucket>, daily: seq<Bucket>)
    requires NonEmptyBuckets(raw) && NonEmptyBuckets(daily)
    ensures Separate(raw, KeptDaily(raw, hourly, daily)) && Separate(hourly, KeptDaily(raw, hourly, daily))
  {
    forall x, y | (x in raw || x in hourly) && y in KeptDaily(raw, hourly, daily)
      ensures !Overlap(RangeOf(x), RangeOf(y))
    {
      assert y in daily && FreeOfBoth(raw, hourly)(y);
      RawTest(y, raw);
      SortedRangesAny(RangeOf(y), hourly);
    }
  }

  /** If no tier overlaps itself, the merged list is sorted and overlaps nowhere. */
  lemma MergeTiersDisjoint(raw: seq<Bucket>, hourly: seq<Bucket>, daily: seq<Bucket>)
    requires NonEmptyBuckets(raw) && NonEmptyBuckets(hourly) && NonEmptyBuckets(daily)
    requires Disjoint(raw) && Disjoint(hourly) && Disjoint(daily)
    ensures Disjoint(MergeTiers(raw, hourly, daily)) && SortedBy(BucketKey(), MergeTiers(raw, hourly, daily))
  {
    var h, d := KeptHourly(raw, hourly), KeptDaily(raw, hourly, daily);
    DisjointFilter(FreeOfRaw(raw), hourly);
    DisjointFilter(FreeOfBoth(raw, hourly), daily);
    KeptHourlyFree(raw, hourly);
    KeptDailyFree(raw, hourly, daily);
    DisjointAppend(raw, h);
    assert Separate(raw + h, d) by {
      forall x, y | x in raw + h && y in d ensures !Overlap(RangeOf(x), RangeOf(y)) {
        assert x in raw || x in hourly;
      }
    }
    DisjointAppend(raw + h, d);
    DisjointSort(Selected(raw, hourly, daily));
    SortBySorted(BucketKey(), Selected(raw, hourly, daily));
  }

  // ------------------------------------------------------- merging again

  function OfTier(t: Tier): Bucket -> bool { (b: Bucket) => b.stats.tier == t }

  ghost predicate Labelled(bs: seq<Bucket>, t: Tier) {
    forall i | 0 <= i < |bs| :: bs[i].stats.tier == t
  }

  /** The part of one tier in the merged list, at one start time. */
  lemma TierAtStart(raw: seq<Bucket>, h: seq<Bucket>, d: seq<Bucket>, k: int)
    requires Labelled(raw, Raw) && Labelled(h, Hourly) && Labelled(d, Daily)
    ensures var m := WithKey(BucketKey(), k, raw + h + d);
      && Filter(OfTier(Raw), m) == WithKey(BucketKey(), k, raw)
      && Filter(OfTier(Hourly), m) == WithKey(BucketKey(), k, h)
      && Filter(OfTier(Daily), m) == WithKey(BucketKey(), k, d)
  {
    var key := BucketKey();
    WithKeyAppend(key, k, raw + h, d);
    WithKeyAppend(key, k, raw, h);
    var r1, h1, d1 := WithKey(key, k, raw), WithKey(key, k, h), WithKey(key, k, d);
    TierParts(r1, h1, d1);
  }

  lemma TierParts(r: seq<Bucket>, h: seq<Bucket>, d: seq<Bucket>)
    requires (forall b <- r :: b.stats.tier == Raw) && (forall b <- h :: b.stats.tier == Hourly)
    requires forall b <- d :: b.stats.tier == Daily
    ensures Filter(OfTier(Raw), r + h + d) == r
    ensures Filter(OfTier(Hourly), r + h + d) == h
    ensures Filter(OfTier(Daily), r + h + d) == d
  {
    TierPart(Raw, r, h, d);
    TierPart(Hourly, r, h, d);
    TierPart(Daily, r, h, d);
  }

  lemma TierPart(t: Tier, r: seq<Bucket>, h: seq<Bucket>, d: seq<Bucket>)
    requires (forall b <- r :: b.stats.tier == Raw) && (forall b <- h :: b.stats.tier == Hourly)
    requires forall b <- d :: b.stats.tier == Daily
    ensures Filter(OfTier(t), r + h + d) == if t == Raw then r else if t == Hourly then h else d
  {
    FilterAppend(OfTier(t), r + h, d);
    FilterAppend(OfTier(t), r, h);
    AllOrNone(t, r, Raw);
    AllOrNone(t, h, Hourly);
    AllOrNone(t, d, Daily);
  }

  lemma AllOrNone(t: Tier, bs: seq<Bucket>, own: Tier)
    requires forall b <- bs :: b.stats.tier == own
    ensures Filter(OfTier(t), bs) == if t == own then bs else []
  {
    if t == own {
      FilterAll(OfTier(t), bs);
    } else {
      FilterNone(OfTier(t), bs);
    }
  }

  lemma KeptAgain(raw: seq<Bucket>, hourly: seq<Bucket>, daily: seq<Bucket>, m: seq<Bucket>)
    requires NonEmptyBuckets(raw) && NonEmptyBuckets(hourly) && NonEmptyBuckets(daily)
    requires Labelled(raw, Raw) && Labelled(hourly, Hourly) && Labelled(daily, Daily)
    requires m == MergeTiers(raw, hourly, daily)
    ensures var r, h, d := Filter(OfTier(Raw), m), Filter(OfTier(Hourly), m), Filter(OfTier(Daily), m);
      KeptHourly(r, h) == h && KeptDaily(r, h, d) == d
  {
    var r, h, d := Filter(OfTier(Raw), m), Filter(OfTier(Hourly), m), Filter(OfTier(Daily), m);
    forall b | b in m
      ensures b.start < b.end
      ensures OfTier(Raw)(b) ==> b in raw
      ensures OfTier(Hourly)(b) ==> b in hourly && !Meets(b, raw)
      ensures OfTier(Daily)(b) ==> b in daily && !Meets(b, raw) && !Meets(b, hourly)
    {
      MergeTiersMembers(raw, hourly, daily, b);
    }
    assert NonEmptyBuckets(r) by {
      forall i | 0 <= i < |r| ensures r[i].start < r[i].end { assert r[i] in m; }
    }
    forall b | b in h ensures FreeOfRaw(r)(b) {
      RawTest(b, r);
    }
    FilterAll(FreeOfRaw(r), h);
    forall b | b in d ensures FreeOfBoth(r, h)(b) {
      RawTest(b, r);
      SortedRangesAny(RangeOf(b), h);
    }
    FilterAll(FreeOfBoth(r, h), d);
  }

  lemma SameAtStart(raw: seq<Bucket>, h: seq<Bucket>, d: seq<Bucket>, m: seq<Bucket>, k: int)
    requires Labelled(raw, Raw) && Labelled(h, Hourly) && Labelled(d, Daily)
    requires m == SortBy(BucketKey(), raw + h + d)
    ensures WithKey(BucketKey(), k, Filter(OfTier(Raw), m) + Filter(OfTier(Hourly), m) + Filter(OfTier(Daily), m))
         == WithKey(BucketKey(), k, m)
  {
    var key := BucketKey();
    var r1, h1, d1 := Filter(OfTier(Raw), m), Filter(OfTier(Hourly), m), Filter(OfTier(Daily), m);
    WithKeyAppend(key, k, r1 + h1, d1);
    WithKeyAppend(key, k, r1, h1);
    WithKeyFilter(key, k, OfTier(Raw), m);
    WithKeyFilter(key, k, OfTier(Hourly), m);
    WithKeyFilter(key, k, OfTier(Daily), m);
    SortByStable(key, raw + h + d, k);
    TierAtStart(raw, h, d, k);
    WithKeyAppend(key, k, raw + h, d);
    WithKeyAppend(key, k, raw, h);
  }

  /** Splitting a merged list by tier and merging it again changes nothing. */
  lemma MergeTiersIdempotent(raw: seq<Bucket>, hourly: seq<Bucket>, daily: seq<Bucket>)
    requires NonEmptyBuckets(raw) && NonEmptyBuckets(hourly) && NonEmptyBuckets(daily)
    requires Labelled(raw, Raw) && Labelled(hourly, Hourly) && Labelled(daily, Daily)
    ensures var m := MergeTiers(raw, hourly, daily);
      MergeTiers(Filter(OfTier(Raw), m), Filter(OfTier(Hourly), m), Filter(OfTier(Daily), m)) == m
  {
    var m := MergeTiers(raw, hourly, daily);
    var again := Filter(OfTier(Raw), m) + Filter(OfTier(Hourly), m) + Filter(OfTier(Daily), m);
    KeptAgain(raw, hourly, daily, m);
    LabelledFilter(FreeOfRaw(raw), hourly, Hourly);
    LabelledFilter(FreeOfBoth(raw, hourly), daily, Daily);
    forall k ensures WithKey(BucketKey(), k, SortBy(BucketKey(), again)) == WithKey(BucketKey(), k, m) {
      SortByStable(BucketKey(), again, k);
      SameAtStart(raw, KeptHourly(raw, hourly), KeptDaily(raw, hourly, daily), m, k);
    }
    SortBySorted(BucketKey(), again);
    SortBySorted(BucketKey(), Selected(raw, hourly, daily));
    SortedByUnique(BucketKey(), SortBy(BucketKey(), again), m);
  }

  lemma LabelledFilter(p: Bucket -> bool, s: seq<Bucket>, t: Tier)
    requires Labelled(s, t)
    ensures Labelled(Filter(p, s), t)
  {
    var f := Filter(p, s);
    forall i | 0 <= i < |f| ensures f[i].stats.tier == t {
      assert f[i] in s;
    }
  }
}
