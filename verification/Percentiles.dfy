/** Nearest-rank percentiles and the bound that lets buckets be combined by the
    maximum of their percentiles. */
module Percentiles {
  import opened Sequences

  /** `Math.ceil` on exact reals. */
  function Ceil(x: real): (r: int)
    ensures x <= r as real < x + 1.0
  {
    -((-x).Floor)
  }

  function Identity(): int -> int { (v: int) => v }

  /** The fraction `percentile / 100 * sorted.length`. */
  function Rank(percentile: real, n: nat): real {
    percentile / 100.0 * n as real
  }

  /** `calculatePercentile`; reading past either end of the list gives `undefined`. */
  function CalculatePercentile(values: seq<int>, percentile: real): Option<int> {
    var sorted := SortBy(Identity(), values);
    var index := Ceil(Rank(percentile, |sorted|)) - 1;
    var at := if index < 0 then 0 else index;
    if at < |sorted| then Some(sorted[at]) else None
  }

  function CountAtMost(v: int, s: seq<int>): (n: nat)
    ensures n <= |s|
  {
    if s == [] then 0 else (if s[0] <= v then 1 else 0) + CountAtMost(v, s[1..])
  }

  function CountBelow(v: int, s: seq<int>): nat {
    CountAtMost(v - 1, s)
  }

  lemma {:induction false} CountMonotone(u: int, v: int, s: seq<int>)
    requires u <= v
    ensures CountAtMost(u, s) <= CountAtMost(v, s)
  {
    if s != [] {
      CountMonotone(u, v, s[1..]);
    }
  }

  lemma {:induction false} CountAppend(v: int, a: seq<int>, b: seq<int>)
    ensures CountAtMost(v, a + b) == CountAtMost(v, a) + CountAtMost(v, b)
  {
    if a == [] {
      assert a + b == b;
    } else {
      assert (a + b)[1..] == a[1..] + b;
      CountAppend(v, a[1..], b);
    }
  }

  lemma {:induction false} CountInsert(v: int, x: int, s: seq<int>)
    ensures CountAtMost(v, InsertBy(Identity(), x, s)) == CountAtMost(v, [x] + s)
  {
    if s != [] && x > s[0] {
      CountInsert(v, x, s[1..]);
      assert ([x] + s)[1..] == s && ([x] + s[1..])[1..] == s[1..];
      assert ([s[0]] + InsertBy(Identity(), x, s[1..]))[1..] == InsertBy(Identity(), x, s[1..]);
    }
  }

  lemma {:induction false} CountSort(v: int, s: seq<int>)
    ensures CountAtMost(v, SortBy(Identity(), s)) == CountAtMost(v, s)
  {
    if s != [] {
      CountSort(v, s[1..]);
      var rest := SortBy(Identity(), s[1..]);
      CountInsert(v, s[0], rest);
      assert ([s[0]] + rest)[1..] == rest;
    }
  }

  lemma {:induction false} CountAll(v: int, s: seq<int>)
    requires forall i | 0 <= i < |s| :: s[i] <= v
    ensures CountAtMost(v, s) == |s|
  {
    if s != [] {
      CountAll(v, s[1..]);
    }
  }

  lemma {:induction false} CountNone(v: int, s: seq<int>)
    requires forall i | 0 <= i < |s| :: s[i] > v
    ensures CountAtMost(v, s) == 0
  {
    if s != [] {
      CountNone(v, s[1..]);
    }
  }

  ghost predicate Ascending(s: seq<int>) {
    forall i, j | 0 <= i < j < |s| :: s[i] <= s[j]
  }

  lemma SortAscending(s: seq<int>)
    ensures Ascending(SortBy(Identity(), s))
  {
    SortBySorted(Identity(), s);
    var t := SortBy(Identity(), s);
    forall i, j | 0 <= i < j < |t| ensures t[i] <= t[j] {
      assert Identity()(t[i]) <= Identity()(t[j]);
    }
  }

  /** In an ascending list at least `i + 1` elements are at most the one at `i`. */
  lemma ManyAtMost(s: seq<int>, i: nat)
    requires Ascending(s) && i < |s|
    ensures CountAtMost(s[i], s) >= i + 1
  {
    assert s == s[..i + 1] + s[i + 1..];
    CountAppend(s[i], s[..i + 1], s[i + 1..]);
    CountAll(s[i], s[..i + 1]);
  }

  /** At most `i` elements are below it. */
  lemma FewBelow(s: seq<int>, i: nat)
    requires Ascending(s) && i < |s|
    ensures CountBelow(s[i], s) <= i
  {
    assert s == s[..i] + s[i..];
    CountAppend(s[i] - 1, s[..i], s[i..]);
    CountNone(s[i] - 1, s[i..]);
  }

  lemma RankBounds(percentile: real, n: nat)
    requires 0.0 < percentile <= 100.0 && n > 0
    ensures 0.0 < Rank(percentile, n) <= n as real
    ensures 0 <= Ceil(Rank(percentile, n)) - 1 < n
  {
    var f := percentile / 100.0;
    assert 0.0 < f <= 1.0;
    assert f * n as real <= 1.0 * n as real;
    assert f * n as real > 0.0;
  }

  lemma PercentileIndex(values: seq<int>, percentile: real) returns (i: nat)
    requires values != [] && 0.0 < percentile <= 100.0
    ensures i < |SortBy(Identity(), values)|
    ensures i as real < Rank(percentile, |values|) <= (i + 1) as real
    ensures CalculatePercentile(values, percentile) == Some(SortBy(Identity(), values)[i])
  {
    SortKeepsLength(values);
    i := RankIndex(Rank(percentile, |values|), percentile, |values|);
  }

  lemma SortKeepsLength(values: seq<int>)
    ensures |SortBy(Identity(), values)| == |values|
  {
    assert |multiset(SortBy(Identity(), values))| == |multiset(values)|;
  }

  lemma RankIndex(rank: real, percentile: real, n: nat) returns (i: nat)
    requires n > 0 && 0.0 < percentile <= 100.0 && rank == Rank(percentile, n)
    ensures i < n && i as real < rank <= (i + 1) as real && i == Ceil(rank) - 1
  {
    RankBounds(percentile, n);
    i := Ceil(rank) - 1;
  }

  /** The result is an element of the list, and it is the nearest-rank one: at
      least the requested share of the list is at most it, less than that share
      is below it. */
  lemma NearestRank(values: seq<int>, percentile: real)
    requires values != [] && 0.0 < percentile <= 100.0
    ensures CalculatePercentile(values, percentile).Some?
    ensures var v := CalculatePercentile(values, percentile).value;
      && v in values
      && CountAtMost(v, values) as real >= Rank(percentile, |values|)
      && (CountBelow(v, values) as real) < Rank(percentile, |values|)
  {
    var i := PercentileIndex(values, percentile);
    var sorted := SortBy(Identity(), values);
    SortAscending(values);
    ManyAtMost(sorted, i);
    FewBelow(sorted, i);
    CountSort(sorted[i], values);
    CountSort(sorted[i] - 1, values);
    SortByMembers(Identity(), values, sorted[i]);
  }

  // ------------------------------------------------ percentiles of groups

  function Concat(groups: seq<seq<int>>): seq<int> {
    if groups == [] then [] else groups[0] + Concat(groups[1..])
  }

  /** `m` is at least every percentile the groups report (empty groups report none). */
  ghost predicate BoundsGroups(groups: seq<seq<int>>, percentile: real, m: int) {
    forall g <- groups :: CalculatePercentile(g, percentile).Some? ==> CalculatePercentile(g, percentile).value <= m
  }

  lemma {:induction false} BoundReachesRank(groups: seq<seq<int>>, percentile: real, m: int)
    requires 0.0 < percentile <= 100.0 && BoundsGroups(groups, percentile, m)
    ensures CountAtMost(m, Concat(groups)) as real >= Rank(percentile, |Concat(groups)|)
  {
    if groups == [] {
      assert Rank(percentile, 0) == 0.0;
    } else {
      var g, rest := groups[0], groups[1..];
      BoundReachesRank(rest, percentile, m);
      CountAppend(m, g, Concat(rest));
      if g != [] {
        NearestRank(g, percentile);
        CountMonotone(CalculatePercentile(g, percentile).value, m, g);
      } else {
        assert Rank(percentile, 0) == 0.0;
      }
      RankAdds(percentile, |g|, |Concat(rest)|);
    }
  }

  lemma RankAdds(percentile: real, m: nat, n: nat)
    ensures Rank(percentile, m + n) == Rank(percentile, m) + Rank(percentile, n)
  {
    var f := percentile / 100.0;
    assert (m + n) as real == m as real + n as real;
    assert f * (m as real + n as real) == f * m as real + f * n as real;
  }

  /** Any bound of the groups' percentiles, in particular their maximum, bounds
      the percentile of all values together. */
  lemma MaxOfGroupPercentilesBounds(groups: seq<seq<int>>, percentile: real, m: int)
    requires 0.0 < percentile <= 100.0 && BoundsGroups(groups, percentile, m)
    requires Concat(groups) != []
    ensures CalculatePercentile(Concat(groups), percentile).Some?
    ensures CalculatePercentile(Concat(groups), percentile).value <= m
  {
    var all := Concat(groups);
    BoundReachesRank(groups, percentile, m);
    NearestRank(all, percentile);
    ReachedRankBounds(CalculatePercentile(all, percentile).value, m, all, Rank(percentile, |all|));
  }

  /** A value below which less than the rank lies is at most one that reaches the rank. */
  lemma ReachedRankBounds(v: int, m: int, s: seq<int>, rank: real)
    requires CountAtMost(m, s) as real >= rank && (CountBelow(v, s) as real) < rank
    ensures v <= m
  {
    if m < v {
      CountMonotone(m, v - 1, s);
    }
  }
}
