/** Versioned records: validating a migration chain and running it. */
module Migrations {
  import opened Sequences

  /** A migration may throw; `None` is the thrown error. */
  datatype Migration<!D> = Migration(from: int, to: int, migrate: D -> Option<D>)

  datatype Record<D> = Record(version: int, data: D, originalVersion: Option<int>)

  datatype Error =
    | ChainBroken(expected: int, found: int)
    | BadStep(at: int)
    | ChainIncomplete(reached: int)
    | MigrationFailed(at: int)

  datatype Result<T> = Ok(value: T) | Err(error: Error)

  function FromKey<D>(): Migration<D> -> int { (m: Migration<D>) => m.from }

  function Sorted<D>(ms: seq<Migration<D>>): seq<Migration<D>> { SortBy(FromKey<D>(), ms) }

  /** The loop of `validateMigrationChain` from a list position on. */
  function Walk<D>(ms: seq<Migration<D>>, from: int, target: int, expected: int): Result<int> {
    if ms == [] then (if expected == target then Ok(expected) else Err(ChainIncomplete(expected)))
    else if ms[0].from < from then Walk(ms[1..], from, target, expected)
    else if ms[0].to > target then (if expected == target then Ok(expected) else Err(ChainIncomplete(expected)))
    else if ms[0].from != expected then Err(ChainBroken(expected, ms[0].from))
    else if ms[0].to != ms[0].from + 1 then Err(BadStep(ms[0].from))
    else Walk(ms[1..], from, target, ms[0].to)
  }

  lemma {:induction false} WalkGivesTarget<D>(ms: seq<Migration<D>>, from: int, target: int, expected: int)
    ensures Walk(ms, from, target, expected).Ok? ==> Walk(ms, from, target, expected).value == target
    decreases |ms|
  {
    if ms != [] {
      WalkGivesTarget(ms[1..], from, target, expected);
      WalkGivesTarget(ms[1..], from, target, ms[0].to);
    }
  }

  method ValidateMigrationChain<D>(ms: seq<Migration<D>>, from: int, target: int) returns (r: Result<int>)
    ensures r == Walk(Sorted(ms), from, target, from)
    ensures OneStep(ms) ==>
      if r.Ok? then r.value == target && from <= target && ExactlyOneEach(ms, from, target)
      else Explains(Sorted(ms), from, target, r.error)
  {
    if OneStep(ms) {
      ValidationIsExact(ms, from, target);
      WalkGivesTarget(Sorted(ms), from, target, from);
      if Walk(Sorted(ms), from, target, from).Err? {
        RejectionExplains(ms, from, target);
      }
    }
    var sorted := SortBy(FromKey<D>(), ms);
    var expected := from;
    var i := 0;
    while i < |sorted|
      invariant 0 <= i <= |sorted|
      invariant Walk(sorted, from, target, from) == Walk(sorted[i..], from, target, expected)
    {
      var m := sorted[i];
      assert sorted[i..][1..] == sorted[i + 1..];
      i := i + 1;
      if m.from < from {
        continue;
      }
      if m.to > target {
        break;
      }
      if m.from != expected {
        return Err(ChainBroken(expected, m.from));
      }
      if m.to != m.from + 1 {
        return Err(BadStep(m.from));
      }
      expected := m.to;
    }
    if expected != target {
      return Err(ChainIncomplete(expected));
    }
    return Ok(expected);
  }

  function InRange<D>(from: int, target: int): Migration<D> -> bool {
    (m: Migration<D>) => m.from >= from && m.to <= target
  }

  /** The migrations that are run, in order. */
  function Applicable<D>(ms: seq<Migration<D>>, from: int, target: int): seq<Migration<D>> {
    Sorted(Filter(InRange<D>(from, target), ms))
  }

  /** Running a list of migrations; the version follows the last one run. */
  function RunAll<D>(ms: seq<Migration<D>>, data: D, version: int): Result<(D, int)> {
    if ms == [] then Ok((data, version))
    else
      var next := ms[0].migrate(data);
      if next.None? then Err(MigrationFailed(ms[0].from))
      else RunAll(ms[1..], next.value, ms[0].to)
  }

  /** The data between the steps: each migration turns one entry into the next. */
  ghost predicate Chained<D>(steps: seq<Migration<D>>, data: D, ds: seq<D>) {
    && |ds| == |steps| + 1 && ds[0] == data
    && forall i | 0 <= i < |steps| :: steps[i].migrate(ds[i]) == Some(ds[i + 1])
  }

  /** The steps up to `i` succeed, and that one throws on the data they lead to. */
  ghost predicate ThrowsAt<D>(steps: seq<Migration<D>>, data: D, i: nat, ds: seq<D>) {
    i < |steps| && Chained(steps[..i], data, ds) && steps[i].migrate(ds[i]).None?
  }

  /** A run either chains through all its steps, or names the first that throws. */
  lemma {:induction false} RunIsChain<D>(steps: seq<Migration<D>>, data: D, version: int) returns (ds: seq<D>)
    ensures var r := RunAll(steps, data, version);
      if r.Ok? then
        Chained(steps, data, ds) && r.value == (ds[|steps|], if steps == [] then version else steps[|steps| - 1].to)
      else |ds| > 0 && ThrowsAt(steps, data, |ds| - 1, ds) && r.error == MigrationFailed(steps[|ds| - 1].from)
    decreases |steps|
  {
    if steps == [] {
      ds := [data];
    } else {
      var next := steps[0].migrate(data);
      if next.None? {
        ds := [data];
      } else {
        var rest := RunIsChain(steps[1..], next.value, steps[0].to);
        ds := [data] + rest;
        assert ds[1..] == rest;
        forall i | 0 < i < |ds| && i <= |steps| ensures steps[i - 1].migrate(ds[i - 1]) == Some(ds[i]) {
          if i > 1 {
            var n := |ds| - 1;
            assert steps[1..][i - 2] == steps[i - 1] && rest[i - 2] == ds[i - 1] && rest[i - 1] == ds[i];
            if RunAll(steps, data, version).Err? {
              assert steps[1..][..|rest| - 1][i - 2] == steps[i - 1];
            }
          }
        }
        if RunAll(steps, data, version).Err? {
          assert steps[|ds| - 1] == steps[1..][|rest| - 1];
        }
      }
    }
  }

  /** Data that chains through all steps is what the run gives. */
  lemma {:induction false} ChainIsRun<D>(steps: seq<Migration<D>>, data: D, version: int, ds: seq<D>)
    requires Chained(steps, data, ds)
    ensures RunAll(steps, data, version) == Ok((ds[|steps|], if steps == [] then version else steps[|steps| - 1].to))
    decreases |steps|
  {
    if steps != [] {
      assert steps[0].migrate(ds[0]) == Some(ds[1]);
      forall i | 0 <= i < |steps[1..]| ensures steps[1..][i].migrate(ds[1..][i]) == Some(ds[1..][i + 1]) {
        assert steps[i + 1].migrate(ds[i + 1]) == Some(ds[i + 2]);
      }
      ChainIsRun(steps[1..], ds[1], steps[0].to, ds[1..]);
    }
  }

  /** `migrateToVersion`. */
  function Migrate<D>(ms: seq<Migration<D>>, target: int, input: Record<D>): Result<Record<D>> {
    if input.version == target then Ok(input)
    else
      var check := Walk(Sorted(ms), input.version, target, input.version);
      if check.Err? then Err(check.error)
      else
        var run := RunAll(Applicable(ms, input.version, target), input.data, input.version);
        if run.Err? then Err(run.error)
        else Ok(Record(run.value.1, run.value.0,
                       Some(if input.originalVersion.Some? then input.originalVersion.value else input.version)))
  }

  method MigrateToVersion<D(!new)>(ms: seq<Migration<D>>, target: int, input: Record<D>) returns (r: Result<Record<D>>)
    ensures r == Migrate(ms, target, input)
    ensures input.version == target ==> r == Ok(input)
    ensures OneStep(ms) && input.version != target ==> Arrives(ms, target, input, r)
  {
    if OneStep(ms) && input.version != target {
      MigrateArrives(ms, target, input);
    }
    if input.version == target {
      return Ok(input);
    }
    var check := ValidateMigrationChain(ms, input.version, target);
    if check.Err? {
      return Err(check.error);
    }
    var applicable := SortBy(FromKey<D>(), Filter(InRange<D>(input.version, target), ms));
    var data, version := input.data, input.version;
    var original := if input.originalVersion.Some? then input.originalVersion.value else input.version;
    for i := 0 to |applicable|
      invariant RunAll(applicable, input.data, input.version) == RunAll(applicable[i..], data, version)
    {
      assert applicable[i..][1..] == applicable[i + 1..];
      var next := applicable[i].migrate(data);
      if next.None? {
        return Err(MigrationFailed(applicable[i].from));
      }
      data, version := next.value, applicable[i].to;
    }
    return Ok(Record(version, data, Some(original)));
  }

  // --------------------------------------------- when a chain is accepted

  /** Every migration goes up one version, as its documentation demands. */
  ghost predicate OneStep<D>(ms: seq<Migration<D>>) {
    forall i | 0 <= i < |ms| :: ms[i].to == ms[i].from + 1
  }

  /** Migrations from one version, in list order. */
  function From<D>(ms: seq<Migration<D>>, v: int): seq<Migration<D>> { WithKey(FromKey<D>(), v, ms) }

  /** Each version of the segment has exactly one migration. */
  ghost predicate ExactlyOneEach<D>(ms: seq<Migration<D>>, from: int, target: int) {
    forall v | from <= v < target :: |From(ms, v)| == 1
  }

  /** The segment itself: the one migration from each version, in order. */
  function Segment<D>(ms: seq<Migration<D>>, from: int, target: int): seq<Migration<D>>
    requires ExactlyOneEach(ms, from, target)
    decreases target - from
  {
    if from >= target then []
    else
      assert |From(ms, from)| == 1;
      [From(ms, from)[0]] + Segment(ms, from + 1, target)
  }

  ghost predicate Ascending<D>(ms: seq<Migration<D>>) {
    forall i, j | 0 <= i < j < |ms| :: ms[i].from <= ms[j].from
  }

  lemma {:induction false} NoneFrom<D>(ms: seq<Migration<D>>, v: int)
    requires forall i | 0 <= i < |ms| :: ms[i].from != v
    ensures From(ms, v) == []
  {
    if ms != [] {
      NoneFrom(ms[1..], v);
    }
  }

  lemma AscendingTail<D>(ms: seq<Migration<D>>)
    requires ms != [] && Ascending(ms) && OneStep(ms)
    ensures Ascending(ms[1..]) && OneStep(ms[1..])
    ensures forall i | 0 <= i < |ms[1..]| :: ms[1..][i].from >= ms[0].from
    ensures forall v :: From(ms, v) == if ms[0].from == v then [ms[0]] + From(ms[1..], v) else From(ms[1..], v)
  {
  }

  lemma NoneBelow<D>(ms: seq<Migration<D>>, bound: int)
    requires forall i | 0 <= i < |ms| :: ms[i].from >= bound
    ensures forall v | v < bound :: From(ms, v) == []
  {
    forall v | v < bound ensures From(ms, v) == [] {
      NoneFrom(ms, v);
    }
  }

  /** The walk once it has accepted a migration: no second one from the version it
      just left, then exactly one from each version up to the target. */
  lemma {:induction false} WalkInside<D>(ms: seq<Migration<D>>, from: int, target: int, expected: int)
    requires Ascending(ms) && OneStep(ms) && from < expected <= target
    requires forall i | 0 <= i < |ms| :: ms[i].from >= expected - 1
    ensures Walk(ms, from, target, expected).Ok? <==>
      From(ms, expected - 1) == [] && ExactlyOneEach(ms, expected, target)
    decreases |ms|
  {
    if ms == [] {
      assert expected < target ==> |From(ms, expected)| == 0;
    } else {
      AscendingTail(ms);
      var m := ms[0];
      if m.from >= target {
        NoneBelow(ms, target);
        assert expected < target ==> |From(ms, expected)| == 0;
      } else if m.from == expected {
        WalkInside(ms[1..], from, target, expected + 1);
        NoneBelow(ms, expected);
        assert |From(ms, expected)| == 1 + |From(ms[1..], expected)|;
        OneEachTail(ms, expected, target);
      } else if m.from > expected {
        NoneBelow(ms, m.from);
        assert |From(ms, expected)| == 0;
      }
    }
  }

  lemma OneEachTail<D>(ms: seq<Migration<D>>, v: int, target: int)
    requires ms != [] && ms[0].from == v && v < target
    ensures ExactlyOneEach(ms, v, target) <==> From(ms[1..], v) == [] && ExactlyOneEach(ms[1..], v + 1, target)
  {
    assert |From(ms, v)| == 1 + |From(ms[1..], v)|;
    assert forall u | v + 1 <= u < target :: From(ms, u) == From(ms[1..], u);
    if ExactlyOneEach(ms, v, target) {
      assert |From(ms, v)| == 1;
      forall u | v + 1 <= u < target ensures |From(ms[1..], u)| == 1 {
        assert |From(ms, u)| == 1;
      }
    }
    if From(ms[1..], v) == [] && ExactlyOneEach(ms[1..], v + 1, target) {
      forall u | v <= u < target ensures |From(ms, u)| == 1 {
        if u > v {
          assert |From(ms[1..], u)| == 1;
        }
      }
    }
  }

  lemma {:induction false} WalkFromStart<D>(ms: seq<Migration<D>>, from: int, target: int)
    requires Ascending(ms) && OneStep(ms)
    ensures Walk(ms, from, target, from).Ok? <==> from <= target && ExactlyOneEach(ms, from, target)
    decreases |ms|
  {
    if ms == [] {
      assert from < target ==> |From(ms, from)| == 0;
    } else {
      AscendingTail(ms);
      var m := ms[0];
      if m.from < from {
        WalkFromStart(ms[1..], from, target);
        SkippedTail(ms, from, target);
      } else if m.from >= target {
        NoneBelow(ms, target);
        assert from < target ==> |From(ms, from)| == 0;
      } else if m.from == from {
        WalkInside(ms[1..], from, target, from + 1);
        OneEachTail(ms, from, target);
      } else {
        NoneBelow(ms, m.from);
        assert |From(ms, from)| == 0;
      }
    }
  }

  lemma SkippedTail<D>(ms: seq<Migration<D>>, from: int, target: int)
    requires ms != [] && ms[0].from < from
    ensures ExactlyOneEach(ms, from, target) <==> ExactlyOneEach(ms[1..], from, target)
  {
    forall v | from <= v < target ensures From(ms, v) == From(ms[1..], v) {
    }
    if ExactlyOneEach(ms, from, target) {
      forall v | from <= v < target ensures |From(ms[1..], v)| == 1 {
        assert |From(ms, v)| == 1;
      }
    }
    if ExactlyOneEach(ms[1..], from, target) {
      forall v | from <= v < target ensures |From(ms, v)| == 1 {
        assert |From(ms[1..], v)| == 1;
      }
    }
  }

  lemma SortedShape<D>(ms: seq<Migration<D>>)
    ensures Ascending(Sorted(ms)) && (OneStep(ms) ==> OneStep(Sorted(ms)))
    ensures forall v :: From(Sorted(ms), v) == From(ms, v)
  {
    var key, t := FromKey<D>(), Sorted(ms);
    SortBySorted(key, ms);
    forall i, j | 0 <= i < j < |t| ensures t[i].from <= t[j].from {
      assert key(t[i]) <= key(t[j]);
    }
    forall v ensures From(t, v) == From(ms, v) {
      SortByStable(key, ms, v);
    }
    if OneStep(ms) {
      forall i | 0 <= i < |t| ensures t[i].to == t[i].from + 1 {
        SortByMembers(key, ms, t[i]);
      }
    }
  }

  /** Validation accepts a chain exactly when the record is not newer than the
      target and every version between has exactly one migration. */
  lemma ValidationIsExact<D>(ms: seq<Migration<D>>, from: int, target: int)
    requires OneStep(ms)
    ensures Walk(Sorted(ms), from, target, from).Ok? <==> from <= target && ExactlyOneEach(ms, from, target)
  {
    SortedShape(ms);
    WalkFromStart(Sorted(ms), from, target);
    SameCounts(Sorted(ms), ms, from, target);
  }

  ghost predicate HasFrom<D>(ms: seq<Migration<D>>, v: int) { exists i :: 0 <= i < |ms| && ms[i].from == v }

  ghost predicate HasTwoFrom<D>(ms: seq<Migration<D>>, v: int) {
    exists i, j :: 0 <= i < j < |ms| && ms[i].from == v && ms[j].from == v
  }

  /** What a rejection says: the version that was expected next, and the one found there: a
      later one when no migration starts from the expected version, or the one before it when
      a second starts from that. Or the version at which the migrations end. */
  ghost predicate Explains<D>(ms: seq<Migration<D>>, from: int, target: int, e: Error) {
    match e
    case ChainBroken(expected, found) =>
      && from <= expected && (forall v | from <= v < expected :: HasFrom(ms, v)) && HasFrom(ms, found) && found < target
      && if found > expected then !HasFrom(ms, expected) else found == expected - 1 && HasTwoFrom(ms, found)
    case ChainIncomplete(reached) =>
      && from <= reached && reached != target && (forall v | from <= v < reached :: HasFrom(ms, v))
      && (reached < target ==> !HasFrom(ms, reached))
    case _ => false
  }

  /** The walk at position `n` of the list. */
  lemma {:induction false} WalkExplains<D>(ms: seq<Migration<D>>, n: nat, from: int, target: int, expected: int)
    requires Ascending(ms) && OneStep(ms) && n <= |ms| && from <= expected
    requires forall v | from <= v < expected :: HasFrom(ms[..n], v)
    requires forall i | 0 <= i < n :: ms[i].from < expected
    requires expected > from ==> n > 0 && ms[n - 1].from == expected - 1
    requires Walk(ms[n..], from, target, expected).Err?
    ensures Explains(ms, from, target, Walk(ms[n..], from, target, expected).error)
    decreases |ms| - n
  {
    FromPrefix(ms, n);
    if n < |ms| {
      var m := ms[n];
      assert ms[n..][0] == m && ms[n..][1..] == ms[n + 1..];
      if m.from < from {
        PrefixGrows(ms, n);
        WalkExplains(ms, n + 1, from, target, expected);
      } else if m.to <= target && m.from == expected {
        SeenGrows(ms, n, from, expected);
        WalkExplains(ms, n + 1, from, target, expected + 1);
      }
    }
  }

  lemma FromPrefix<D>(ms: seq<Migration<D>>, n: nat)
    requires n <= |ms|
    ensures forall v :: HasFrom(ms[..n], v) ==> HasFrom(ms, v)
  {
    forall v | HasFrom(ms[..n], v) ensures HasFrom(ms, v) {
      var i :| 0 <= i < |ms[..n]| && ms[..n][i].from == v;
      assert ms[i].from == v;
    }
  }

  lemma SeenGrows<D>(ms: seq<Migration<D>>, n: nat, from: int, expected: int)
    requires n < |ms| && ms[n].from == expected && forall v | from <= v < expected :: HasFrom(ms[..n], v)
    ensures var seen := ms[..n + 1]; forall v | from <= v < expected + 1 :: HasFrom(seen, v)
  {
    PrefixGrows(ms, n);
    var seen := ms[..n + 1];
    forall v | from <= v <= expected ensures HasFrom(seen, v) {
      if v == expected {
        assert seen[n].from == v;
      } else {
        assert HasFrom(ms[..n], v);
      }
    }
  }

  lemma PrefixGrows<D>(ms: seq<Migration<D>>, n: nat)
    requires n < |ms|
    ensures forall v :: HasFrom(ms[..n], v) ==> HasFrom(ms[..n + 1], v)
  {
    forall v | HasFrom(ms[..n], v) ensures HasFrom(ms[..n + 1], v) {
      var i :| 0 <= i < |ms[..n]| && ms[..n][i].from == v;
      assert ms[..n + 1][i].from == v;
    }
  }

  /** A rejected chain is explained by its error. */
  lemma RejectionExplains<D>(ms: seq<Migration<D>>, from: int, target: int)
    requires OneStep(ms) && Walk(Sorted(ms), from, target, from).Err?
    ensures Explains(Sorted(ms), from, target, Walk(Sorted(ms), from, target, from).error)
  {
    SortedShape(ms);
    assert Sorted(ms)[0..] == Sorted(ms);
    WalkExplains(Sorted(ms), 0, from, target, from);
  }

  lemma SameCounts<D>(a: seq<Migration<D>>, b: seq<Migration<D>>, from: int, target: int)
    requires forall v :: |From(a, v)| == |From(b, v)|
    ensures ExactlyOneEach(a, from, target) <==> ExactlyOneEach(b, from, target)
  {
    if ExactlyOneEach(a, from, target) {
      forall v | from <= v < target ensures |From(b, v)| == 1 {
        assert |From(a, v)| == 1;
      }
    }
    if ExactlyOneEach(b, from, target) {
      forall v | from <= v < target ensures |From(a, v)| == 1 {
        assert |From(b, v)| == 1;
      }
    }
  }

  // ------------------------------------------- the migrations that are run

  lemma OneEachNext<D>(ms: seq<Migration<D>>, from: int, target: int)
    requires ExactlyOneEach(ms, from, target) && from < target
    ensures |From(ms, from)| == 1 && From(ms, from)[0].from == from && From(ms, from)[0] in ms
    ensures ExactlyOneEach(ms, from + 1, target)
  {
    assert |From(ms, from)| == 1;
    assert From(ms, from)[0] in From(ms, from);
    assert FromKey<D>()(From(ms, from)[0]) == from;
  }

  lemma {:induction false} SegmentShape<D>(ms: seq<Migration<D>>, from: int, target: int)
    requires ExactlyOneEach(ms, from, target)
    ensures var g := Segment(ms, from, target);
      && (forall i | 0 <= i < |g| :: g[i].from == from + i && g[i] in ms)
      && |g| == if from < target then target - from else 0
    decreases target - from
  {
    if from < target {
      OneEachNext(ms, from, target);
      SegmentShape(ms, from + 1, target);
      var rest := Segment(ms, from + 1, target);
      assert Segment(ms, from, target) == [From(ms, from)[0]] + rest;
    }
  }

  lemma {:induction false} SegmentFrom<D>(ms: seq<Migration<D>>, from: int, target: int, v: int)
    requires ExactlyOneEach(ms, from, target)
    ensures From(Segment(ms, from, target), v) == if from <= v < target then From(ms, v) else []
    decreases target - from
  {
    if from < target {
      OneEachNext(ms, from, target);
      SegmentFrom(ms, from + 1, target, v);
      WithKeyCons(FromKey<D>(), v, From(ms, from)[0], Segment(ms, from + 1, target));
      if v == from {
        assert From(ms, v) == [From(ms, from)[0]];
      }
    }
  }

  /** The separately filtered and sorted list is exactly the validated segment, in order. */
  lemma ApplicableIsSegment<D>(ms: seq<Migration<D>>, from: int, target: int)
    requires OneStep(ms) && from <= target && ExactlyOneEach(ms, from, target)
    ensures Applicable(ms, from, target) == Segment(ms, from, target)
  {
    var key := FromKey<D>();
    var picked, g := Filter(InRange<D>(from, target), ms), Segment(ms, from, target);
    SortBySorted(key, picked);
    SegmentShape(ms, from, target);
    forall i, j | 0 <= i < j < |g| ensures key(g[i]) <= key(g[j]) { }
    forall v ensures WithKey(key, v, Applicable(ms, from, target)) == WithKey(key, v, g) {
      SortByStable(key, picked, v);
      WithKeyFilter(key, v, InRange<D>(from, target), ms);
      SegmentFrom(ms, from, target, v);
      forall m | m in From(ms, v) ensures InRange<D>(from, target)(m) == (from <= v < target) {
        assert key(m) == v && m in ms;
        var i :| 0 <= i < |ms| && ms[i] == m;
      }
      if from <= v < target {
        FilterAll(InRange<D>(from, target), From(ms, v));
      } else {
        FilterNone(InRange<D>(from, target), From(ms, v));
      }
    }
    SortedByUnique(key, Applicable(ms, from, target), g);
  }

  lemma {:induction false} RunAppend<D>(a: seq<Migration<D>>, b: seq<Migration<D>>, data: D, version: int)
    ensures RunAll(a + b, data, version) ==
      var first := RunAll(a, data, version);
      if first.Err? then first else RunAll(b, first.value.0, first.value.1)
    decreases |a|
  {
    if a == [] {
      assert a + b == b;
    } else {
      assert (a + b)[1..] == a[1..] + b;
      var next := a[0].migrate(data);
      if next.Some? {
        RunAppend(a[1..], b, next.value, a[0].to);
      }
    }
  }

  lemma {:induction false} SegmentReaches<D>(ms: seq<Migration<D>>, from: int, target: int, data: D)
    requires OneStep(ms) && from <= target && ExactlyOneEach(ms, from, target)
    ensures var r := RunAll(Segment(ms, from, target), data, from); r.Ok? ==> r.value.1 == target
    decreases target - from
  {
    if from < target {
      OneEachNext(ms, from, target);
      var m := From(ms, from)[0];
      var i :| 0 <= i < |ms| && ms[i] == m;
      assert Segment(ms, from, target)[1..] == Segment(ms, from + 1, target);
      var next := m.migrate(data);
      if next.Some? {
        SegmentReaches(ms, from + 1, target, next.value);
      }
    }
  }

  lemma {:induction false} SegmentSplits<D>(ms: seq<Migration<D>>, from: int, middle: int, target: int)
    requires from <= middle <= target && ExactlyOneEach(ms, from, target)
    ensures ExactlyOneEach(ms, from, middle) && ExactlyOneEach(ms, middle, target)
    ensures Segment(ms, from, target) == Segment(ms, from, middle) + Segment(ms, middle, target)
    decreases middle - from
  {
    assert forall v | from <= v < middle :: |From(ms, v)| == 1;
    assert forall v | middle <= v < target :: |From(ms, v)| == 1;
    if from < middle {
      OneEachNext(ms, from, target);
      SegmentSplits(ms, from + 1, middle, target);
    }
  }

  // ------------------------------------------------------------- main results

  function OriginalOf<D>(r: Record<D>): int {
    if r.originalVersion.Some? then r.originalVersion.value else r.version
  }

  /** The record a needed migration gives: the data run through the segment, the target
      version, and the version the record first had. */
  ghost predicate Means<D>(ms: seq<Migration<D>>, target: int, input: Record<D>, r: Result<Record<D>>) {
    && (r.Ok? <==>
         && input.version < target && ExactlyOneEach(ms, input.version, target)
         && RunAll(Segment(ms, input.version, target), input.data, input.version).Ok?)
    && (r.Ok? ==>
         r.value == Record(target, RunAll(Segment(ms, input.version, target), input.data, input.version).value.0,
                           Some(OriginalOf(input))))
  }

  /** What a migration that is really needed does, in full. */
  lemma MigrateMeaning<D>(ms: seq<Migration<D>>, target: int, input: Record<D>)
    requires OneStep(ms) && input.version != target
    ensures Means(ms, target, input, Migrate(ms, target, input))
  {
    ValidationIsExact(ms, input.version, target);
    if input.version <= target && ExactlyOneEach(ms, input.version, target) {
      ApplicableIsSegment(ms, input.version, target);
      SegmentReaches(ms, input.version, target, input.data);
    }
  }

  /** One migration from each version of the segment and no other, and the data they
      lead through. */
  ghost predicate Journey<D>(ms: seq<Migration<D>>, from: int, target: int, data: D, steps: seq<Migration<D>>, ds: seq<D>) {
    && |steps| == target - from && Chained(steps, data, ds)
    && forall i | 0 <= i < |steps| ::
      steps[i].from == from + i && exists at :: OnlyAt(ms, from + i, at) && ms[at] == steps[i]
  }

  ghost predicate OnlyAt<D>(ms: seq<Migration<D>>, v: int, at: int) {
    0 <= at < |ms| && ms[at].from == v && forall i | 0 <= i < |ms| :: ms[i].from == v ==> i == at
  }

  lemma {:induction false} OneIsOnly<D>(ms: seq<Migration<D>>, v: int) returns (at: int)
    requires |From(ms, v)| == 1
    ensures OnlyAt(ms, v, at) && From(ms, v)[0] == ms[at]
  {
    if ms[0].from == v {
      at := 0;
      forall i | 0 < i < |ms| ensures ms[i].from != v {
        if ms[i].from == v {
          assert ms[1..][i - 1] == ms[i];
          WithKeyKeeps(FromKey<D>(), ms[1..], ms[i]);
        }
      }
    } else {
      var rest := OneIsOnly(ms[1..], v);
      at := rest + 1;
      forall i | 0 <= i < |ms| && ms[i].from == v ensures i == at {
        assert ms[1..][i - 1] == ms[i];
      }
    }
  }

  lemma {:induction false} OnlyIsOne<D>(ms: seq<Migration<D>>, v: int, at: int)
    requires OnlyAt(ms, v, at)
    ensures From(ms, v) == [ms[at]]
  {
    if at == 0 {
      forall i | 0 <= i < |ms[1..]| ensures ms[1..][i].from != v {
        assert ms[1..][i] == ms[i + 1];
      }
      NoneFrom(ms[1..], v);
    } else {
      assert ms[0].from != v;
      forall i | 0 <= i < |ms[1..]| && ms[1..][i].from == v ensures i == at - 1 {
        assert ms[1..][i] == ms[i + 1];
      }
      OnlyIsOne(ms[1..], v, at - 1);
    }
  }

  lemma SegmentIsJourney<D>(ms: seq<Migration<D>>, from: int, target: int, data: D, ds: seq<D>)
    requires from < target && ExactlyOneEach(ms, from, target) && Chained(Segment(ms, from, target), data, ds)
    ensures Journey(ms, from, target, data, Segment(ms, from, target), ds)
  {
    var g := Segment(ms, from, target);
    SegmentShape(ms, from, target);
    forall i | 0 <= i < |g| ensures exists at :: OnlyAt(ms, from + i, at) && ms[at] == g[i] {
      SegmentAt(ms, from, target, i);
      var at := OneIsOnly(ms, from + i);
    }
  }

  lemma {:induction false} SegmentAt<D>(ms: seq<Migration<D>>, from: int, target: int, i: nat)
    requires ExactlyOneEach(ms, from, target) && i < target - from
    ensures i < |Segment(ms, from, target)| && |From(ms, from + i)| == 1
    ensures Segment(ms, from, target)[i] == From(ms, from + i)[0]
    decreases i
  {
    OneEachNext(ms, from, target);
    if i > 0 {
      SegmentAt(ms, from + 1, target, i - 1);
    }
  }

  lemma JourneyIsSegment<D>(ms: seq<Migration<D>>, from: int, target: int, data: D, steps: seq<Migration<D>>, ds: seq<D>)
    requires from < target && Journey(ms, from, target, data, steps, ds)
    ensures ExactlyOneEach(ms, from, target) && steps == Segment(ms, from, target)
  {
    forall i | 0 <= i < |steps| ensures From(ms, from + i) == [steps[i]] {
      assert steps[i].from == from + i;
      var at :| OnlyAt(ms, from + i, at) && ms[at] == steps[i];
      OnlyIsOne(ms, from + i, at);
    }
    forall v | from <= v < target ensures |From(ms, v)| == 1 {
      var i := v - from;
      assert From(ms, from + i) == [steps[i]];
    }
    SegmentShape(ms, from, target);
    forall i | 0 <= i < |steps| ensures steps[i] == Segment(ms, from, target)[i] {
      SegmentAt(ms, from, target, i);
    }
  }

  /** A needed migration succeeds exactly when there is such a journey, and gives the data
      at its end; when only a migration throws, the error names the first that does. */
  ghost predicate Arrives<D(!new)>(ms: seq<Migration<D>>, target: int, input: Record<D>, r: Result<Record<D>>) {
    && (r.Ok? <==> input.version < target && exists steps, ds :: Journey(ms, input.version, target, input.data, steps, ds))
    && (forall steps, ds | input.version < target && Journey(ms, input.version, target, input.data, steps, ds) ::
         r == Ok(Record(target, ds[|steps|], Some(OriginalOf(input)))))
    && (input.version < target && ExactlyOneEach(ms, input.version, target) && r.Err? ==>
         exists i, ds :: ThrowsAt(Segment(ms, input.version, target), input.data, i, ds)
           && r == Err(MigrationFailed(input.version + i)))
  }

  lemma MigrateArrives<D(!new)>(ms: seq<Migration<D>>, target: int, input: Record<D>)
    requires OneStep(ms) && input.version != target
    ensures Arrives(ms, target, input, Migrate(ms, target, input))
  {
    var from, r := input.version, Migrate(ms, target, input);
    MigrateMeaning(ms, target, input);
    if from < target && ExactlyOneEach(ms, from, target) {
      SegmentArrives(ms, target, input, Segment(ms, from, target));
    }
    forall steps, ds | from < target && Journey(ms, from, target, input.data, steps, ds)
      ensures r == Ok(Record(target, ds[|steps|], Some(OriginalOf(input))))
    {
      JourneySucceeds(ms, target, input, steps, ds);
    }
  }

  lemma SegmentArrives<D>(ms: seq<Migration<D>>, target: int, input: Record<D>, g: seq<Migration<D>>)
    requires OneStep(ms) && input.version < target && ExactlyOneEach(ms, input.version, target)
    requires g == Segment(ms, input.version, target)
    ensures var r := Migrate(ms, target, input);
      if r.Ok? then exists steps, ds :: Journey(ms, input.version, target, input.data, steps, ds)
      else exists i, ds :: ThrowsAt(g, input.data, i, ds) && r == Err(MigrationFailed(input.version + i))
  {
    var ds := RunIsChain(g, input.data, input.version);
    MigrateIsRun(ms, target, input, g);
    if RunAll(g, input.data, input.version).Ok? {
      SegmentIsJourney(ms, input.version, target, input.data, ds);
    } else {
      SegmentShape(ms, input.version, target);
      assert ThrowsAt(g, input.data, |ds| - 1, ds);
    }
  }

  lemma MigrateIsRun<D>(ms: seq<Migration<D>>, target: int, input: Record<D>, g: seq<Migration<D>>)
    requires OneStep(ms) && input.version < target && ExactlyOneEach(ms, input.version, target)
    requires g == Segment(ms, input.version, target)
    ensures var run := RunAll(g, input.data, input.version);
      if run.Ok? then Migrate(ms, target, input).Ok? else Migrate(ms, target, input) == Err(run.error)
  {
    ValidationIsExact(ms, input.version, target);
    ApplicableIsSegment(ms, input.version, target);
  }

  lemma JourneySucceeds<D>(ms: seq<Migration<D>>, target: int, input: Record<D>, steps: seq<Migration<D>>, ds: seq<D>)
    requires OneStep(ms) && input.version < target && Journey(ms, input.version, target, input.data, steps, ds)
    ensures Migrate(ms, target, input) == Ok(Record(target, ds[|steps|], Some(OriginalOf(input))))
  {
    MigrateMeaning(ms, target, input);
    JourneyIsSegment(ms, input.version, target, input.data, steps, ds);
    ChainIsRun(steps, input.data, input.version, ds);
  }

  function AndThen<D>(ms: seq<Migration<D>>, target: int, r: Result<Record<D>>): Result<Record<D>> {
    if r.Err? then r else Migrate(ms, target, r.value)
  }

  lemma RunSplits<D>(ms: seq<Migration<D>>, from: int, middle: int, target: int, data: D)
    requires OneStep(ms) && from <= middle <= target && ExactlyOneEach(ms, from, target)
    ensures ExactlyOneEach(ms, from, middle) && ExactlyOneEach(ms, middle, target)
    ensures var first := RunAll(Segment(ms, from, middle), data, from);
      RunAll(Segment(ms, from, target), data, from) ==
        if first.Err? then first else RunAll(Segment(ms, middle, target), first.value.0, middle)
  {
    SegmentSplits(ms, from, middle, target);
    RunAppend(Segment(ms, from, middle), Segment(ms, middle, target), data, from);
    SegmentReaches(ms, from, middle, data);
  }

  lemma MeansComposes<D>(ms: seq<Migration<D>>, middle: int, target: int, input: Record<D>,
                         first: Result<Record<D>>, second: Result<Record<D>>, whole: Result<Record<D>>)
    requires OneStep(ms) && input.version < middle < target
    requires Means(ms, middle, input, first) && Means(ms, target, input, whole)
    requires if first.Ok? then Means(ms, target, first.value, second) else second == first
    ensures second.Ok? <==> whole.Ok?
    ensures whole.Ok? ==> second == whole
  {
    if first.Ok? && ExactlyOneEach(ms, middle, target) {
      OneEachJoin(ms, input.version, middle, target);
    }
    if ExactlyOneEach(ms, input.version, target) {
      RunSplits(ms, input.version, middle, target, input.data);
    }
  }

  /** Migrating to a version in between and on from there succeeds exactly when
      migrating at once does, with the same record. */
  lemma MigrateComposes<D>(ms: seq<Migration<D>>, middle: int, target: int, input: Record<D>)
    requires OneStep(ms) && input.version <= middle <= target
    ensures AndThen(ms, target, Migrate(ms, middle, input)).Ok? <==> Migrate(ms, target, input).Ok?
    ensures Migrate(ms, target, input).Ok? ==> AndThen(ms, target, Migrate(ms, middle, input)) == Migrate(ms, target, input)
  {
    var first := Migrate(ms, middle, input);
    if input.version < middle < target {
      MigrateMeaning(ms, middle, input);
      MigrateMeaning(ms, target, input);
      if first.Ok? {
        MigrateMeaning(ms, target, first.value);
      }
      MeansComposes(ms, middle, target, input, first, AndThen(ms, target, first), Migrate(ms, target, input));
    } else if middle == target && first.Ok? {
      MigrateLandsOnTarget(ms, target, input);
    }
  }

  lemma MigrateLandsOnTarget<D>(ms: seq<Migration<D>>, target: int, input: Record<D>)
    requires OneStep(ms)
    ensures Migrate(ms, target, input).Ok? ==> Migrate(ms, target, input).value.version == target
  {
    if input.version != target {
      MigrateMeaning(ms, target, input);
    }
  }

  lemma OneEachJoin<D>(ms: seq<Migration<D>>, from: int, middle: int, target: int)
    requires ExactlyOneEach(ms, from, middle) && ExactlyOneEach(ms, middle, target)
    ensures ExactlyOneEach(ms, from, target)
  {
    forall v | from <= v < target ensures |From(ms, v)| == 1 {
      if v < middle {
        assert |From(ms, v)| == 1;
      }
    }
  }

  lemma {:induction false} FromCount<D>(ms: seq<Migration<D>>, v: int, x: Migration<D>)
    ensures multiset(From(ms, v))[x] == if x.from == v then multiset(ms)[x] else 0
  {
    if ms != [] {
      FromCount(ms[1..], v, x);
      assert multiset(ms) == multiset{ms[0]} + multiset(ms[1..]) by { assert ms == [ms[0]] + ms[1..]; }
    }
  }

  lemma SameFrom<D>(a: seq<Migration<D>>, b: seq<Migration<D>>, v: int)
    requires multiset(a) == multiset(b)
    ensures multiset(From(a, v)) == multiset(From(b, v)) && |From(a, v)| == |From(b, v)|
  {
    forall x ensures multiset(From(a, v))[x] == multiset(From(b, v))[x] {
      FromCount(a, v, x);
      FromCount(b, v, x);
    }
    assert multiset(From(a, v)) == multiset(From(b, v));
    assert |multiset(From(a, v))| == |multiset(From(b, v))|;
  }

  lemma {:induction false} SameSegment<D>(a: seq<Migration<D>>, b: seq<Migration<D>>, from: int, target: int)
    requires multiset(a) == multiset(b) && ExactlyOneEach(a, from, target) && ExactlyOneEach(b, from, target)
    ensures Segment(a, from, target) == Segment(b, from, target)
    decreases target - from
  {
    if from < target {
      OneEachNext(a, from, target);
      OneEachNext(b, from, target);
      SameFrom(a, b, from);
      assert From(a, from)[0] in multiset(From(b, from));
      SameSegment(a, b, from + 1, target);
    }
  }

  /** The order in which migrations are registered does not matter. */
  lemma RegistrationOrderIrrelevant<D>(a: seq<Migration<D>>, b: seq<Migration<D>>, target: int, input: Record<D>)
    requires OneStep(a) && OneStep(b) && multiset(a) == multiset(b)
    ensures Migrate(a, target, input).Ok? <==> Migrate(b, target, input).Ok?
    ensures Migrate(a, target, input).Ok? ==> Migrate(a, target, input) == Migrate(b, target, input)
  {
    if input.version != target {
      MigrateMeaning(a, target, input);
      MigrateMeaning(b, target, input);
      forall v ensures |From(a, v)| == |From(b, v)| {
        SameFrom(a, b, v);
      }
      SameCounts(a, b, input.version, target);
      if ExactlyOneEach(a, input.version, target) {
        SameSegment(a, b, input.version, target);
      }
    }
  }

  // ------------------------------------ any migrations, in any order

  function AtLeast<D>(v: int): Migration<D> -> bool { (m: Migration<D>) => m.from >= v }

  /** The migrations from a version on, in the order the scan meets them. */
  function Beyond<D>(ms: seq<Migration<D>>, v: int): seq<Migration<D>> { Sorted(Filter(AtLeast<D>(v), ms)) }

  /** Those from the first version, at or past `v`, that has any. */
  function FirstGroup<D>(ms: seq<Migration<D>>, v: int): seq<Migration<D>> {
    if Beyond(ms, v) == [] then [] else From(ms, Beyond(ms, v)[0].from)
  }

  /** Every version of the segment has one migration only, and that goes up by one. */
  ghost predicate Chain<D>(ms: seq<Migration<D>>, from: int, target: int) {
    forall v | from <= v < target :: |From(ms, v)| == 1 && From(ms, v)[0].to == v + 1
  }

  /** The scan ends behind the chain: nothing follows, or it starts with one that overshoots. */
  ghost predicate Ends<D>(group: seq<Migration<D>>, target: int) { group == [] || group[0].to > target }

  /** What the scan accepts, whatever the migrations. */
  ghost predicate Accepts<D>(ms: seq<Migration<D>>, from: int, target: int) {
    if from >= target then from == target && Ends(FirstGroup(ms, target), target)
    else
      var last := From(ms, target - 1);
      && Chain(ms, from, target - 1)
      && last != [] && last[0].to == target
      && if |last| == 1 then Ends(FirstGroup(ms, target), target) else last[1].to > target
  }

  ghost predicate Mixed<D>(group: seq<Migration<D>>, target: int) {
    && (exists m <- group :: m.to > target)
    && (exists m <- group :: m.to <= target)
  }

  /** Two orders of the same migrations can be judged differently: the last step has
      competitors one of which overshoots, or the first group behind the chain does. */
  ghost predicate OrderDependent<D>(ms: seq<Migration<D>>, from: int, target: int) {
    if from >= target then from == target && Mixed(FirstGroup(ms, target), target)
    else
      var last := From(ms, target - 1);
      && Chain(ms, from, target - 1)
      && (exists m <- last :: m.to == target)
      && if |last| == 1 then Mixed(FirstGroup(ms, target), target) else exists m <- last :: m.to > target
  }

  lemma {:induction false} SkipsLower<D>(ms: seq<Migration<D>>, from: int, target: int, expected: int)
    ensures Walk(ms, from, target, expected) == Walk(Filter(AtLeast<D>(from), ms), from, target, expected)
    decreases |ms|
  {
    if ms != [] {
      var rest := Filter(AtLeast<D>(from), ms[1..]);
      assert ([ms[0]] + rest)[1..] == rest;
      SkipsLower(ms[1..], from, target, expected);
      SkipsLower(ms[1..], from, target, ms[0].to);
    }
  }

  lemma {:induction false} PastTarget<D>(ms: seq<Migration<D>>, from: int, target: int, expected: int)
    requires expected > target
    ensures Walk(ms, from, target, expected).Err?
  {
    if ms != [] {
      PastTarget(ms[1..], from, target, expected);
    }
  }

  lemma {:induction false} FilterSorted<D>(keep: Migration<D> -> bool, ms: seq<Migration<D>>)
    requires SortedBy(FromKey<D>(), ms)
    ensures SortedBy(FromKey<D>(), Filter(keep, ms))
  {
    if ms != [] {
      var key, rest := FromKey<D>(), Filter(keep, ms[1..]);
      FilterSorted(keep, ms[1..]);
      forall i | 0 <= i < |rest| ensures key(ms[0]) <= key(rest[i]) {
        assert rest[i] in ms[1..];
      }
    }
  }

  lemma SortThenFilter<D>(ms: seq<Migration<D>>, v: int)
    ensures Filter(AtLeast<D>(v), Sorted(ms)) == Beyond(ms, v)
  {
    var key, keep := FromKey<D>(), AtLeast<D>(v);
    SortBySorted(key, ms);
    FilterSorted(keep, Sorted(ms));
    SortBySorted(key, Filter(keep, ms));
    forall k ensures WithKey(key, k, Filter(keep, Sorted(ms))) == WithKey(key, k, Beyond(ms, v)) {
      WithKeyFilter(key, k, keep, Sorted(ms));
      SortByStable(key, ms, k);
      WithKeyFilter(key, k, keep, ms);
      SortByStable(key, Filter(keep, ms), k);
    }
    SortedByUnique(key, Filter(keep, Sorted(ms)), Beyond(ms, v));
  }

  lemma BeyondFrom<D>(ms: seq<Migration<D>>, v: int, k: int)
    ensures From(Beyond(ms, v), k) == if k >= v then From(ms, k) else []
    ensures forall i | 0 <= i < |Beyond(ms, v)| :: Beyond(ms, v)[i].from >= v
  {
    var key, keep := FromKey<D>(), AtLeast<D>(v);
    SortByStable(key, Filter(keep, ms), k);
    WithKeyFilter(key, k, keep, ms);
    forall m | m in From(ms, k) ensures keep(m) == (k >= v) {
      assert key(m) == k;
    }
    if k >= v {
      FilterAll(keep, From(ms, k));
    } else {
      FilterNone(keep, From(ms, k));
    }
    forall i | 0 <= i < |Beyond(ms, v)| ensures Beyond(ms, v)[i].from >= v {
      SortByMembers(key, Filter(keep, ms), Beyond(ms, v)[i]);
      assert keep(Beyond(ms, v)[i]);
    }
  }

  lemma FromOwn<D>(ms: seq<Migration<D>>, v: int, k: int)
    ensures From(From(ms, v), k) == if k == v then From(ms, v) else []
    ensures forall m <- From(ms, v) :: m.from == v
  {
    var key, keep := FromKey<D>(), (m: Migration<D>) => m.from == v;
    forall m | m in From(ms, v) ensures m.from == v {
      assert key(m) == v;
    }
    if k == v {
      AllFrom(From(ms, v), v);
    } else {
      NoneFrom(From(ms, v), k);
    }
  }

  lemma {:induction false} AllFrom<D>(ms: seq<Migration<D>>, v: int)
    requires forall m <- ms :: m.from == v
    ensures From(ms, v) == ms
  {
    if ms != [] {
      AllFrom(ms[1..], v);
    }
  }

  lemma BeyondSplits<D>(ms: seq<Migration<D>>, v: int)
    ensures Beyond(ms, v) == From(ms, v) + Beyond(ms, v + 1)
  {
    var key, joined := FromKey<D>(), From(ms, v) + Beyond(ms, v + 1);
    SortBySorted(key, Filter(AtLeast<D>(v), ms));
    SortBySorted(key, Filter(AtLeast<D>(v + 1), ms));
    FromOwn(ms, v, v);
    BeyondFrom(ms, v + 1, v);
    forall i, j | 0 <= i < j < |joined| ensures key(joined[i]) <= key(joined[j]) {
      if i < |From(ms, v)| {
        assert joined[i] in From(ms, v);
        assert j < |From(ms, v)| ==> joined[j] in From(ms, v);
      }
    }
    forall k ensures WithKey(key, k, Beyond(ms, v)) == WithKey(key, k, joined) {
      BeyondFrom(ms, v, k);
      BeyondFrom(ms, v + 1, k);
      FromOwn(ms, v, k);
      WithKeyAppend(key, k, From(ms, v), Beyond(ms, v + 1));
    }
    SortedByUnique(key, Beyond(ms, v), joined);
  }

  lemma FirstGroupHead<D>(ms: seq<Migration<D>>, v: int)
    ensures FirstGroup(ms, v) == [] <==> Beyond(ms, v) == []
    ensures Beyond(ms, v) != [] ==> FirstGroup(ms, v)[0] == Beyond(ms, v)[0] && Beyond(ms, v)[0].from >= v
  {
    if Beyond(ms, v) != [] {
      BeyondFrom(ms, v, Beyond(ms, v)[0].from);
    }
  }

  /** One step of the scan at the head of `all`, which holds nothing below `expected`. */
  lemma WalkHead<D>(all: seq<Migration<D>>, from: int, target: int, expected: int)
    requires from <= expected <= target && forall m <- all :: m.from >= expected
    ensures expected == target ==> (Walk(all, from, target, expected).Ok? <==> Ends(all, target))
    ensures expected < target ==>
      (Walk(all, from, target, expected).Ok? <==>
        all != [] && all[0].from == expected && all[0].to == expected + 1 && Walk(all[1..], from, target, expected + 1).Ok?)
  {
  }

  /** A second migration from one version ends the scan, well or badly. */
  lemma WalkSecond<D>(all: seq<Migration<D>>, from: int, target: int, expected: int)
    requires from <= expected < target && all != [] && all[0].from == expected
    ensures Walk(all, from, target, expected + 1).Ok? <==> expected + 1 == target && all[0].to > target
  {
  }

  /** The scan from a version on, group by group. */
  lemma {:induction false} WalkGroups<D>(ms: seq<Migration<D>>, from: int, target: int, expected: int)
    requires from <= expected <= target
    ensures Walk(Beyond(ms, expected), from, target, expected).Ok? <==> Accepts(ms, expected, target)
    decreases target - expected
  {
    if expected == target {
      WalkAtTarget(ms, from, target);
    } else {
      BeyondSplits(ms, expected);
      if |From(ms, expected)| == 1 {
        WalkGroups(ms, from, target, expected + 1);
        WalkLone(ms, From(ms, expected), Beyond(ms, expected + 1), from, target, expected);
        ChainStep(ms, expected, target);
      } else {
        RestIsLater(ms, expected);
        WalkCrowd(From(ms, expected), Beyond(ms, expected + 1), from, target, expected);
        AcceptsCrowd(ms, expected, target);
      }
    }
  }

  lemma RestIsLater<D>(ms: seq<Migration<D>>, v: int)
    ensures (forall m <- From(ms, v) :: m.from == v) && forall m <- Beyond(ms, v + 1) :: m.from > v
  {
    FromOwn(ms, v, v);
    BeyondFrom(ms, v + 1, v);
  }

  lemma WalkAtTarget<D>(ms: seq<Migration<D>>, from: int, target: int)
    requires from <= target
    ensures Walk(Beyond(ms, target), from, target, target).Ok? <==> Ends(FirstGroup(ms, target), target)
  {
    FirstGroupHead(ms, target);
    BeyondFrom(ms, target, target);
    WalkHead(Beyond(ms, target), from, target, target);
  }

  lemma WalkLone<D>(ms: seq<Migration<D>>, group: seq<Migration<D>>, rest: seq<Migration<D>>,
                    from: int, target: int, expected: int)
    requires from <= expected < target && |group| == 1 && group == From(ms, expected)
    ensures Walk(group + rest, from, target, expected).Ok? <==>
      group[0].to == expected + 1 && Walk(rest, from, target, expected + 1).Ok?
  {
    FromOwn(ms, expected, expected);
    assert group[0] in group && (group + rest)[1..] == rest;
  }

  /** No migration from a version, or more than one. */
  lemma WalkCrowd<D>(group: seq<Migration<D>>, rest: seq<Migration<D>>, from: int, target: int, expected: int)
    requires from <= expected < target && |group| != 1
    requires (forall m <- group :: m.from == expected) && forall m <- rest :: m.from > expected
    ensures Walk(group + rest, from, target, expected).Ok? <==>
      group != [] && group[0].to == expected + 1 && expected + 1 == target && group[1].to > target
  {
    var all := group + rest;
    WalkHead(all, from, target, expected);
    if group != [] {
      assert all[0] == group[0] && all[1..][0] == group[1] && group[1] in group;
      WalkSecond(all[1..], from, target, expected);
    } else if all != [] {
      assert all[0] in rest;
    }
  }

  lemma AcceptsCrowd<D>(ms: seq<Migration<D>>, v: int, target: int)
    requires v < target && |From(ms, v)| != 1
    ensures Accepts(ms, v, target) <==>
      From(ms, v) != [] && From(ms, v)[0].to == v + 1 && v + 1 == target && From(ms, v)[1].to > target
  {
    assert v < target - 1 && Chain(ms, v, target - 1) ==> |From(ms, v)| == 1;
  }

  lemma ChainStep<D>(ms: seq<Migration<D>>, v: int, target: int)
    requires v < target && |From(ms, v)| == 1
    ensures Accepts(ms, v, target) <==> From(ms, v)[0].to == v + 1 && Accepts(ms, v + 1, target)
  {
    if v < target - 1 {
      assert Chain(ms, v, target - 1) <==> From(ms, v)[0].to == v + 1 && Chain(ms, v + 1, target - 1) by {
        if From(ms, v)[0].to == v + 1 && Chain(ms, v + 1, target - 1) {
          assert forall u | v <= u < target - 1 :: u != v ==> |From(ms, u)| == 1 && From(ms, u)[0].to == u + 1;
        }
      }
    }
  }

  /** Exactly which lists of migrations validation accepts, without the one-step rule. */
  lemma AcceptedIff<D>(ms: seq<Migration<D>>, from: int, target: int)
    ensures Walk(Sorted(ms), from, target, from).Ok? <==> Accepts(ms, from, target)
  {
    SkipsLower(Sorted(ms), from, target, from);
    SortThenFilter(ms, from);
    if from <= target {
      WalkGroups(ms, from, target, from);
    } else {
      PastTarget(Beyond(ms, from), from, target, from);
    }
  }

  // ---------------------------------------------- other orders of the list

  lemma SameBeyond<D>(a: seq<Migration<D>>, b: seq<Migration<D>>, v: int)
    requires multiset(a) == multiset(b)
    ensures forall m :: m in Beyond(a, v) <==> m in Beyond(b, v)
  {
    forall m ensures m in Beyond(a, v) <==> m in Beyond(b, v) {
      InBeyond(a, v, m);
      InBeyond(b, v, m);
      assert m in a <==> m in multiset(a);
      assert m in b <==> m in multiset(b);
    }
  }

  lemma InBeyond<D>(ms: seq<Migration<D>>, v: int, m: Migration<D>)
    ensures m in Beyond(ms, v) <==> m in ms && m.from >= v
  {
    SortByMembers(FromKey<D>(), Filter(AtLeast<D>(v), ms), m);
    if m in ms && m.from >= v {
      FilterKeeps(AtLeast<D>(v), ms, m);
    }
    if m in Filter(AtLeast<D>(v), ms) {
      assert AtLeast<D>(v)(m);
    }
  }

  lemma HeadIsLeast<D>(ms: seq<Migration<D>>, v: int, m: Migration<D>)
    requires m in Beyond(ms, v)
    ensures Beyond(ms, v)[0].from <= m.from
  {
    var key, all := FromKey<D>(), Beyond(ms, v);
    SortBySorted(key, Filter(AtLeast<D>(v), ms));
    var i :| 0 <= i < |all| && all[i] == m;
    assert key(all[0]) <= key(all[i]);
  }

  /** Another order has the same first group, up to order. */
  lemma SameFirstGroup<D>(a: seq<Migration<D>>, b: seq<Migration<D>>, v: int)
    requires multiset(a) == multiset(b)
    ensures multiset(FirstGroup(a, v)) == multiset(FirstGroup(b, v))
    ensures Beyond(a, v) == [] <==> Beyond(b, v) == []
    ensures Beyond(a, v) != [] ==> Beyond(a, v)[0].from == Beyond(b, v)[0].from
  {
    SameBeyond(a, b, v);
    SameFirstVersion(Beyond(a, v), Beyond(b, v), a, b, v);
    if Beyond(a, v) != [] {
      SameFrom(a, b, Beyond(a, v)[0].from);
    }
  }

  lemma SameFirstVersion<D>(p: seq<Migration<D>>, q: seq<Migration<D>>, a: seq<Migration<D>>, b: seq<Migration<D>>, v: int)
    requires p == Beyond(a, v) && q == Beyond(b, v) && forall m :: m in p <==> m in q
    ensures p == [] <==> q == []
    ensures p != [] ==> p[0].from == q[0].from
  {
    if p != [] {
      assert p[0] in q;
      HeadIsLeast(b, v, p[0]);
      assert q[0] in p;
      HeadIsLeast(a, v, q[0]);
    }
    assert q != [] ==> q[0] in q;
  }

  lemma SameChain<D>(a: seq<Migration<D>>, b: seq<Migration<D>>, from: int, target: int)
    requires multiset(a) == multiset(b) && Chain(a, from, target)
    ensures Chain(b, from, target)
  {
    forall v | from <= v < target ensures |From(b, v)| == 1 && From(b, v)[0].to == v + 1 {
      SameFrom(a, b, v);
      Alike(From(a, v), From(b, v));
      assert |From(a, v)| == 1 && From(a, v)[0].to == v + 1;
      assert From(b, v)[0] in From(a, v);
    }
  }

  lemma Alike<D>(g: seq<Migration<D>>, h: seq<Migration<D>>)
    requires multiset(g) == multiset(h)
    ensures |g| == |h| && forall m :: m in g <==> m in h
  {
    assert |multiset(g)| == |g| && |multiset(h)| == |h|;
    forall m ensures m in g <==> m in h {
      assert m in g <==> m in multiset(g);
      assert m in h <==> m in multiset(h);
    }
  }

  lemma UnmixedEnds<D>(g: seq<Migration<D>>, h: seq<Migration<D>>, target: int)
    requires multiset(g) == multiset(h) && !Mixed(g, target)
    ensures Ends(g, target) <==> Ends(h, target)
  {
    Alike(g, h);
    if g != [] {
      assert g[0] in g && h[0] in h && h[0] in g;
    }
  }

  /** Orders that agree where the list is not order dependent. */
  lemma IndependentAgrees<D>(a: seq<Migration<D>>, b: seq<Migration<D>>, from: int, target: int)
    requires multiset(a) == multiset(b) && !OrderDependent(a, from, target) && Accepts(a, from, target)
    ensures Accepts(b, from, target)
  {
    SameFirstGroup(a, b, target);
    if from < target {
      var g, h := From(a, target - 1), From(b, target - 1);
      SameFrom(a, b, target - 1);
      Alike(g, h);
      SameChain(a, b, from, target - 1);
      assert g[0] in g && h[0] in g;
      assert forall i | 0 <= i < |g| :: g[i] in g;
      if |g| == 1 {
        UnmixedEnds(FirstGroup(a, target), FirstGroup(b, target), target);
      }
    } else {
      UnmixedEnds(FirstGroup(a, target), FirstGroup(b, target), target);
    }
  }

  lemma DependenceIsShared<D>(a: seq<Migration<D>>, b: seq<Migration<D>>, from: int, target: int)
    requires multiset(a) == multiset(b) && OrderDependent(a, from, target)
    ensures OrderDependent(b, from, target)
  {
    SameFirstGroup(a, b, target);
    Alike(FirstGroup(a, target), FirstGroup(b, target));
    if from < target {
      SameFrom(a, b, target - 1);
      Alike(From(a, target - 1), From(b, target - 1));
      SameChain(a, b, from, target - 1);
    }
  }

  /** The same list with one migration moved to the front. */
  lemma MovedFirst<D>(a: seq<Migration<D>>, x: Migration<D>) returns (b: seq<Migration<D>>)
    requires x in a
    ensures multiset(b) == multiset(a) && b != [] && b[0] == x
    ensures From(b, x.from) != [] && From(b, x.from)[0] == x
    ensures forall v | v != x.from :: From(b, v) == From(a, v)
    ensures x != a[0] && x.from == a[0].from ==> |From(b, x.from)| > 1 && From(b, x.from)[1] == a[0]
  {
    var key := FromKey<D>();
    var i :| 0 <= i < |a| && a[i] == x;
    var front, back := a[..i], a[i + 1..];
    b := [x] + (front + back);
    assert a == front + ([x] + back);
    forall v
      ensures From(a, v) == From(front, v) + (if x.from == v then [x] + From(back, v) else From(back, v))
      ensures From(b, v) == if x.from == v then [x] + (From(front, v) + From(back, v)) else From(front, v) + From(back, v)
    {
      WithKeyAppend(key, v, front, [x] + back);
      WithKeyCons(key, v, x, back);
      WithKeyAppend(key, v, front, back);
      WithKeyCons(key, v, x, front + back);
    }
    if x != a[0] {
      assert front[0] == a[0];
    }
  }

  lemma PutsFirst<D>(a: seq<Migration<D>>, target: int, x: Migration<D>) returns (b: seq<Migration<D>>)
    requires x in FirstGroup(a, target)
    ensures multiset(b) == multiset(a)
    ensures FirstGroup(b, target) != [] && FirstGroup(b, target)[0] == x
    ensures forall v | v < target :: From(b, v) == From(a, v)
  {
    var w := Beyond(a, target)[0].from;
    FirstGroupHead(a, target);
    FromOwn(a, w, w);
    b := MovedFirst(a, x);
    SameFirstGroup(a, b, target);
  }

  lemma SameFronts<D>(a: seq<Migration<D>>, b: seq<Migration<D>>, from: int, target: int)
    requires forall v | v < target :: From(b, v) == From(a, v)
    ensures Chain(a, from, target) <==> Chain(b, from, target)
  {
  }

  /** A list that is order dependent has an order that is accepted and one that is not. */
  lemma BothVerdicts<D>(a: seq<Migration<D>>, from: int, target: int) returns (good: seq<Migration<D>>, bad: seq<Migration<D>>)
    requires OrderDependent(a, from, target)
    ensures multiset(good) == multiset(a) && multiset(bad) == multiset(a)
    ensures Accepts(good, from, target) && !Accepts(bad, from, target)
  {
    if from < target && |From(a, target - 1)| > 1 {
      good, bad := LastStepVerdicts(a, from, target);
    } else {
      assert Mixed(FirstGroup(a, target), target);
      var over :| over in FirstGroup(a, target) && over.to > target;
      var under :| under in FirstGroup(a, target) && under.to <= target;
      good := PutsFirst(a, target, over);
      bad := PutsFirst(a, target, under);
      FollowerDecides(a, good, from, target);
      FollowerDecides(a, bad, from, target);
    }
  }

  lemma FollowerDecides<D>(a: seq<Migration<D>>, b: seq<Migration<D>>, from: int, target: int)
    requires OrderDependent(a, from, target) && (from >= target || |From(a, target - 1)| <= 1)
    requires forall v | v < target :: From(b, v) == From(a, v)
    ensures Accepts(b, from, target) <==> Ends(FirstGroup(b, target), target)
  {
    if from < target {
      SameFronts(a, b, from, target - 1);
      OnlyMember(From(a, target - 1), target);
    }
  }

  lemma OnlyMember<D>(group: seq<Migration<D>>, target: int)
    requires |group| <= 1 && exists m <- group :: m.to == target
    ensures |group| == 1 && group[0].to == target
  {
  }

  lemma LastStepVerdicts<D>(a: seq<Migration<D>>, from: int, target: int)
    returns (good: seq<Migration<D>>, bad: seq<Migration<D>>)
    requires from < target && |From(a, target - 1)| > 1 && OrderDependent(a, from, target)
    ensures multiset(good) == multiset(a) && multiset(bad) == multiset(a)
    ensures Accepts(good, from, target) && !Accepts(bad, from, target)
  {
    var last := From(a, target - 1);
    FromOwn(a, target - 1, target - 1);
    var step :| step in last && step.to == target;
    var over :| over in last && over.to > target;
    bad := MovedFirst(a, over);
    SameFrom(a, bad, target - 1);
    assert step in multiset(bad);
    good := MovedFirst(bad, step);
    SameFronts(bad, good, from, target - 1);
    SameFronts(a, bad, from, target - 1);
  }

  /** Validation judges every order of the migrations alike exactly when the list is
      not order dependent. */
  lemma OrderIrrelevantIff<D>(a: seq<Migration<D>>, from: int, target: int)
    ensures !OrderDependent(a, from, target) <==> forall b | multiset(b) == multiset(a) ::
      Walk(Sorted(b), from, target, from).Ok? == Walk(Sorted(a), from, target, from).Ok?
  {
    AcceptedIff(a, from, target);
    if OrderDependent(a, from, target) {
      var good, bad := BothVerdicts(a, from, target);
      AcceptedIff(good, from, target);
      AcceptedIff(bad, from, target);
    } else {
      forall b | multiset(b) == multiset(a)
        ensures Walk(Sorted(b), from, target, from).Ok? == Walk(Sorted(a), from, target, from).Ok?
      {
        AcceptedIff(b, from, target);
        if OrderDependent(b, from, target) {
          DependenceIsShared(b, a, from, target);
        } else if Accepts(a, from, target) {
          IndependentAgrees(a, b, from, target);
        } else if Accepts(b, from, target) {
          IndependentAgrees(b, a, from, target);
        }
      }
    }
  }

  /** Two rules either of which is enough: one-step migrations, or one per version. */
  lemma EnoughForOrder<D>(a: seq<Migration<D>>, from: int, target: int)
    requires OneStep(a) || forall v :: |From(a, v)| <= 1
    ensures !OrderDependent(a, from, target)
  {
    if FirstGroup(a, target) != [] {
      FirstGroupHead(a, target);
      AllAlike(a, Beyond(a, target)[0].from);
    }
    AllAlike(a, target - 1);
  }

  lemma AllAlike<D>(a: seq<Migration<D>>, v: int)
    requires OneStep(a) || |From(a, v)| <= 1
    ensures forall m, n | m in From(a, v) && n in From(a, v) :: m.to == n.to
  {
    forall m, n | m in From(a, v) && n in From(a, v) ensures m.to == n.to {
      SameVersionAlike(a, v, m, n);
    }
  }

  lemma SameVersionAlike<D>(a: seq<Migration<D>>, v: int, m: Migration<D>, n: Migration<D>)
    requires OneStep(a) || |From(a, v)| <= 1
    requires m in From(a, v) && n in From(a, v)
    ensures m.to == n.to
  {
    FromOwn(a, v, v);
    if OneStep(a) {
      var i :| 0 <= i < |a| && a[i] == m;
      var j :| 0 <= j < |a| && a[j] == n;
    }
  }

  /** Without such a rule order can matter: the scan stops at the first migration that
      overshoots the target, or never meets it. */
  lemma OrderMattersWithoutOneStep(f: int -> Option<int>)
    ensures var good, jump := Migration(1, 2, f), Migration(1, 9, f);
      Walk(Sorted([good, jump]), 1, 2, 1).Ok? && Walk(Sorted([jump, good]), 1, 2, 1).Err?
  {
    var good, jump := Migration(1, 2, f), Migration(1, 9, f);
    SortPair(good, jump);
    SortPair(jump, good);
    assert [good, jump][1..] == [jump] && [jump, good][1..] == [good];
  }

  lemma SortPair(a: Migration<int>, b: Migration<int>)
    requires a.from <= b.from
    ensures Sorted([a, b]) == [a, b]
  {
    assert [a, b][1..] == [b] && [b][1..] == [];
    assert SortBy(FromKey<int>(), [b]) == [b];
  }

  // ------------------------------- what is validated and what is run

  /** The first migration from each version of the segment: what the scan checks. */
  function Heads<D>(ms: seq<Migration<D>>, from: int, target: int): seq<Migration<D>>
    decreases target - from
  {
    if from >= target then []
    else if From(ms, from) == [] then Heads(ms, from + 1, target)
    else [From(ms, from)[0]] + Heads(ms, from + 1, target)
  }

  function HeadAt<D>(ms: seq<Migration<D>>, from: int, target: int, v: int): seq<Migration<D>> {
    if from <= v < target && From(ms, v) != [] then [From(ms, v)[0]] else []
  }

  lemma {:induction false} HeadsFrom<D>(ms: seq<Migration<D>>, from: int, target: int, v: int)
    ensures From(Heads(ms, from, target), v) == HeadAt(ms, from, target, v)
    decreases target - from
  {
    if from < target {
      HeadsFrom(ms, from + 1, target, v);
      if From(ms, from) != [] {
        FromOwn(ms, from, from);
        assert From(ms, from)[0] in From(ms, from);
        WithKeyCons(FromKey<D>(), v, From(ms, from)[0], Heads(ms, from + 1, target));
      }
    }
  }

  lemma {:induction false} HeadsSorted<D>(ms: seq<Migration<D>>, from: int, target: int)
    ensures SortedBy(FromKey<D>(), Heads(ms, from, target)) && forall m <- Heads(ms, from, target) :: m.from >= from
    decreases target - from
  {
    if from < target {
      HeadsSorted(ms, from + 1, target);
      if From(ms, from) != [] {
        FromOwn(ms, from, from);
        assert From(ms, from)[0] in From(ms, from);
        var rest := Heads(ms, from + 1, target);
        assert forall i | 0 <= i < |rest| :: rest[i] in rest;
      }
    }
  }

  lemma RunFrom<D>(ms: seq<Migration<D>>, from: int, target: int, v: int)
    ensures From(Applicable(ms, from, target), v) == Filter(InRange<D>(from, target), From(ms, v))
  {
    SortByStable(FromKey<D>(), Filter(InRange<D>(from, target), ms), v);
    WithKeyFilter(FromKey<D>(), v, InRange<D>(from, target), ms);
  }

  /** Nothing behind the chain comes down to the target, and the last step has no
      second candidate. */
  ghost predicate NothingElseInRange<D>(ms: seq<Migration<D>>, from: int, target: int) {
    && (forall v | v >= target :: Filter(InRange<D>(from, target), From(ms, v)) == [])
    && |Filter(InRange<D>(from, target), From(ms, target - 1))| == 1
  }

  lemma RunAtVersion<D>(ms: seq<Migration<D>>, from: int, target: int, v: int)
    requires from < target && Accepts(ms, from, target) && v < target - 1
    ensures From(Applicable(ms, from, target), v) == From(Heads(ms, from, target), v)
  {
    RunFrom(ms, from, target, v);
    HeadsFrom(ms, from, target, v);
    FromOwn(ms, v, v);
    if v < from {
      FilterNone(InRange<D>(from, target), From(ms, v));
    } else {
      assert |From(ms, v)| == 1;
      assert From(ms, v)[0] in From(ms, v);
      FilterAll(InRange<D>(from, target), From(ms, v));
    }
  }

  lemma RunAtLast<D>(ms: seq<Migration<D>>, from: int, target: int)
    requires from < target && Accepts(ms, from, target)
    ensures |Filter(InRange<D>(from, target), From(ms, target - 1))| == 1 <==>
      From(Applicable(ms, from, target), target - 1) == From(Heads(ms, from, target), target - 1)
  {
    var last := From(ms, target - 1);
    RunFrom(ms, from, target, target - 1);
    HeadsFrom(ms, from, target, target - 1);
    FromOwn(ms, target - 1, target - 1);
    assert last[0] in last && InRange<D>(from, target)(last[0]);
  }

  lemma RunPast<D>(ms: seq<Migration<D>>, from: int, target: int, v: int)
    requires v >= target
    ensures From(Heads(ms, from, target), v) == []
    ensures From(Applicable(ms, from, target), v) == Filter(InRange<D>(from, target), From(ms, v))
  {
    RunFrom(ms, from, target, v);
    HeadsFrom(ms, from, target, v);
  }

  /** The list that is run is the list that was validated exactly when nothing else
      lies in range: the two are computed by different rules. */
  lemma RunsTheValidatedIff<D>(ms: seq<Migration<D>>, from: int, target: int)
    requires from < target && Walk(Sorted(ms), from, target, from).Ok?
    ensures Applicable(ms, from, target) == Heads(ms, from, target) <==> NothingElseInRange(ms, from, target)
  {
    AcceptedIff(ms, from, target);
    var run, checked := Applicable(ms, from, target), Heads(ms, from, target);
    RunAtLast(ms, from, target);
    if run == checked {
      forall v | v >= target ensures Filter(InRange<D>(from, target), From(ms, v)) == [] {
        RunPast(ms, from, target, v);
      }
    }
    if NothingElseInRange(ms, from, target) {
      RunsTheValidated(ms, from, target, FromKey<D>());
    }
  }

  lemma RunsTheValidated<D>(ms: seq<Migration<D>>, from: int, target: int, key: Migration<D> -> int)
    requires from < target && Accepts(ms, from, target) && NothingElseInRange(ms, from, target) && key == FromKey<D>()
    ensures Applicable(ms, from, target) == Heads(ms, from, target)
  {
    var run, checked := Applicable(ms, from, target), Heads(ms, from, target);
    SortBySorted(key, Filter(InRange<D>(from, target), ms));
    HeadsSorted(ms, from, target);
    forall v ensures WithKey(key, v, run) == WithKey(key, v, checked) {
      SameAtVersion(ms, from, target, v);
    }
    SortedByUnique(key, run, checked);
  }

  lemma SameAtVersion<D>(ms: seq<Migration<D>>, from: int, target: int, v: int)
    requires from < target && Accepts(ms, from, target) && NothingElseInRange(ms, from, target)
    ensures From(Applicable(ms, from, target), v) == From(Heads(ms, from, target), v)
  {
    if v < target - 1 {
      RunAtVersion(ms, from, target, v);
    } else if v >= target {
      RunPast(ms, from, target, v);
    } else {
      RunAtLast(ms, from, target);
    }
  }

  /** A migration that comes back down, hidden behind one that overshoots, is run
      although validation never looked at it. */
  lemma HiddenStepIsRun(f: int -> Option<int>)
    ensures var up, over, down := Migration(1, 2, f), Migration(2, 3, f), Migration(3, 1, f);
      && Walk(Sorted([up, over, down]), 1, 2, 1).Ok?
      && Applicable([up, over, down], 1, 2) == [up, down]
  {
    var up, over, down := Migration(1, 2, f), Migration(2, 3, f), Migration(3, 1, f);
    SortTriple(up, over, down);
    var rest := [over, down];
    assert [up, over, down][1..] == rest && rest[1..] == [down];
    assert Walk(rest, 1, 2, 2) == Ok(2);
    var keep := InRange<int>(1, 2);
    assert Filter(keep, [down]) == [down] && Filter(keep, rest) == [down];
    assert Filter(keep, [up, over, down]) == [up, down];
    SortPair(up, down);
  }

  lemma SortTriple(a: Migration<int>, b: Migration<int>, c: Migration<int>)
    requires a.from <= b.from <= c.from
    ensures Sorted([a, b, c]) == [a, b, c]
  {
    SortPair(b, c);
    assert [a, b, c][1..] == [b, c];
  }
}
