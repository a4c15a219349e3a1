/** Optional values, and the list operations of the host language: `filter`,
    the stable `toSorted` by a numeric key, and the facts the other modules
    need about them. */
module Sequences {

  datatype Option<+T> = None | Some(value: T)

  predicate NoRepeats<T(==)>(s: seq<T>) { forall i, j | 0 <= i < j < |s| :: s[i] != s[j] }

  // ---------------------------------------------------------------- filter

  function Filter<T>(p: T -> bool, s: seq<T>): (r: seq<T>)
    ensures |r| <= |s|
    ensures forall x <- r :: x in s && p(x)
  {
    if s == [] then []
    else if p(s[0]) then [s[0]] + Filter(p, s[1..])
    else Filter(p, s[1..])
  }

  lemma {:induction false} FilterKeeps<T>(p: T -> bool, s: seq<T>, x: T)
    requires x in s && p(x)
    ensures x in Filter(p, s)
  {
    if x != s[0] {
      FilterKeeps(p, s[1..], x);
    }
  }

  lemma {:induction false} FilterAppend<T>(p: T -> bool, a: seq<T>, b: seq<T>)
    ensures Filter(p, a + b) == Filter(p, a) + Filter(p, b)
  {
    if a == [] {
      assert a + b == b;
    } else {
      assert (a + b)[1..] == a[1..] + b;
      FilterAppend(p, a[1..], b);
    }
  }

  lemma {:induction false} FilterSame<T>(p: T -> bool, q: T -> bool, s: seq<T>)
    requires forall x <- s :: p(x) == q(x)
    ensures Filter(p, s) == Filter(q, s)
  {
    if s != [] {
      FilterSame(p, q, s[1..]);
    }
  }

  lemma {:induction false} FilterAll<T>(p: T -> bool, s: seq<T>)
    requires forall x <- s :: p(x)
    ensures Filter(p, s) == s
  {
    if s != [] {
      FilterAll(p, s[1..]);
    }
  }

  lemma {:induction false} FilterNone<T>(p: T -> bool, s: seq<T>)
    requires forall x <- s :: !p(x)
    ensures Filter(p, s) == []
  {
    if s != [] {
      FilterNone(p, s[1..]);
    }
  }

  lemma {:induction false} FilterFilter<T>(p: T -> bool, q: T -> bool, both: T -> bool, s: seq<T>)
    requires forall x <- s :: both(x) <==> p(x) && q(x)
    ensures Filter(p, Filter(q, s)) == Filter(both, s)
  {
    if s != [] {
      FilterFilter(p, q, both, s[1..]);
      assert s[0] in s;
      if q(s[0]) {
        assert ([s[0]] + Filter(q, s[1..]))[1..] == Filter(q, s[1..]);
      }
    }
  }

  lemma {:induction false} FilterCount<T>(p: T -> bool, s: seq<T>, x: T)
    ensures multiset(Filter(p, s))[x] == if p(x) then multiset(s)[x] else 0
  {
    if s != [] {
      FilterCount(p, s[1..], x);
      assert s == [s[0]] + s[1..];
    }
  }

  // ---------------------------------------------------- stable sort by key

  ghost predicate SortedBy<T>(key: T -> int, s: seq<T>) {
    forall i, j | 0 <= i < j < |s| :: key(s[i]) <= key(s[j])
  }

  ghost predicate StrictlySortedBy<T>(key: T -> int, s: seq<T>) {
    forall i, j | 0 <= i < j < |s| :: key(s[i]) < key(s[j])
  }

  /** Puts `x` in front of the first element whose key is at least its own. */
  function InsertBy<T>(key: T -> int, x: T, s: seq<T>): (r: seq<T>)
    ensures multiset(r) == multiset([x]) + multiset(s)
  {
    if s == [] then [x]
    else if key(x) <= key(s[0]) then [x] + s
    else
      assert s == [s[0]] + s[1..];
      [s[0]] + InsertBy(key, x, s[1..])
  }

  /** `toSorted((a, b) => key(a) - key(b))`: the language guarantees stability. */
  function SortBy<T>(key: T -> int, s: seq<T>): (r: seq<T>)
    ensures multiset(r) == multiset(s)
  {
    if s == [] then []
    else
      assert s == [s[0]] + s[1..];
      InsertBy(key, s[0], SortBy(key, s[1..]))
  }

  lemma {:induction false} InsertBySorted<T>(key: T -> int, x: T, s: seq<T>)
    requires SortedBy(key, s)
    ensures SortedBy(key, InsertBy(key, x, s))
  {
    if s != [] && key(x) > key(s[0]) {
      InsertBySorted(key, x, s[1..]);
      var t := InsertBy(key, x, s[1..]);
      forall j | 0 <= j < |t| ensures key(s[0]) <= key(t[j]) {
        assert t[j] in multiset([x]) + multiset(s[1..]);
      }
    }
  }

  lemma {:induction false} SortBySorted<T>(key: T -> int, s: seq<T>)
    ensures SortedBy(key, SortBy(key, s))
  {
    if s != [] {
      SortBySorted(key, s[1..]);
      InsertBySorted(key, s[0], SortBy(key, s[1..]));
    }
  }

  lemma SortByMembers<T>(key: T -> int, s: seq<T>, x: T)
    ensures x in SortBy(key, s) <==> x in s
  {
    assert x in SortBy(key, s) <==> x in multiset(SortBy(key, s));
  }

  /** The elements of one key, in order. */
  function WithKey<T>(key: T -> int, k: int, s: seq<T>): (r: seq<T>)
    ensures forall x <- r :: x in s && key(x) == k
  {
    if s == [] then []
    else if key(s[0]) == k then [s[0]] + WithKey(key, k, s[1..])
    else WithKey(key, k, s[1..])
  }

  lemma {:induction false} WithKeyKeeps<T>(key: T -> int, s: seq<T>, x: T)
    requires x in s
    ensures x in WithKey(key, key(x), s)
  {
    if x != s[0] {
      WithKeyKeeps(key, s[1..], x);
    }
  }

  lemma {:induction false} WithKeyAppend<T>(key: T -> int, k: int, a: seq<T>, b: seq<T>)
    ensures WithKey(key, k, a + b) == WithKey(key, k, a) + WithKey(key, k, b)
  {
    if a == [] {
      assert a + b == b;
    } else {
      assert (a + b)[1..] == a[1..] + b;
      WithKeyAppend(key, k, a[1..], b);
    }
  }

  lemma WithKeyCons<T>(key: T -> int, k: int, x: T, s: seq<T>)
    ensures WithKey(key, k, [x] + s) == if key(x) == k then [x] + WithKey(key, k, s) else WithKey(key, k, s)
  {
    assert ([x] + s)[1..] == s;
  }

  lemma FilterSnoc<T>(p: T -> bool, s: seq<T>, x: T)
    ensures Filter(p, s + [x]) == if p(x) then Filter(p, s) + [x] else Filter(p, s)
  {
    FilterAppend(p, s, [x]);
  }

  lemma FilterCons<T>(p: T -> bool, x: T, s: seq<T>)
    ensures Filter(p, [x] + s) == if p(x) then [x] + Filter(p, s) else Filter(p, s)
  {
    assert ([x] + s)[1..] == s;
  }

  lemma {:induction false} WithKeyFilter<T>(key: T -> int, k: int, p: T -> bool, s: seq<T>)
    ensures WithKey(key, k, Filter(p, s)) == Filter(p, WithKey(key, k, s))
  {
    if s != [] {
      WithKeyFilter(key, k, p, s[1..]);
      var x, rest := s[0], s[1..];
      FilterCons(p, x, WithKey(key, k, rest));
      WithKeyCons(key, k, x, Filter(p, rest));
    }
  }

  lemma {:induction false} InsertByStable<T>(key: T -> int, x: T, s: seq<T>, k: int)
    ensures WithKey(key, k, InsertBy(key, x, s)) == WithKey(key, k, [x] + s)
  {
    if s != [] && key(x) > key(s[0]) {
      InsertByStable(key, x, s[1..], k);
      WithKeyCons(key, k, x, s[1..]);
      WithKeyCons(key, k, x, s);
      WithKeyCons(key, k, s[0], InsertBy(key, x, s[1..]));
    }
  }

  /** Stability: among equal keys the input order survives. */
  lemma {:induction false} SortByStable<T>(key: T -> int, s: seq<T>, k: int)
    ensures WithKey(key, k, SortBy(key, s)) == WithKey(key, k, s)
  {
    if s != [] {
      SortByStable(key, s[1..], k);
      InsertByStable(key, s[0], SortBy(key, s[1..]), k);
      WithKeyCons(key, k, s[0], SortBy(key, s[1..]));
    }
  }

  /** A sorted list is determined by its runs of equal keys. */
  lemma {:induction false} SortedByUnique<T>(key: T -> int, a: seq<T>, b: seq<T>)
    requires SortedBy(key, a) && SortedBy(key, b)
    requires forall k :: WithKey(key, k, a) == WithKey(key, k, b)
    ensures a == b
  {
    SameKeysSameMembers(key, a, b);
    if a != [] && b != [] {
      HeadKeyAtMost(key, a, b);
      HeadKeyAtMost(key, b, a);
      HeadsEqual(key, a, b);
      SortedByUnique(key, a[1..], b[1..]);
      assert a == [a[0]] + a[1..] && b == [b[0]] + b[1..];
    }
  }

  lemma HeadsEqual<T>(key: T -> int, a: seq<T>, b: seq<T>)
    requires a != [] && b != [] && key(a[0]) == key(b[0])
    requires forall k :: WithKey(key, k, a) == WithKey(key, k, b)
    ensures a[0] == b[0]
    ensures forall k :: WithKey(key, k, a[1..]) == WithKey(key, k, b[1..])
  {
    var k := key(a[0]);
    assert WithKey(key, k, a) == WithKey(key, k, b);
    assert WithKey(key, k, a)[0] == a[0] && WithKey(key, k, b)[0] == b[0];
    forall j ensures WithKey(key, j, a[1..]) == WithKey(key, j, b[1..]) {
      assert WithKey(key, j, a) == WithKey(key, j, b);
      if j == k {
        assert WithKey(key, j, a[1..]) == WithKey(key, j, a)[1..];
        assert WithKey(key, j, b[1..]) == WithKey(key, j, b)[1..];
      }
    }
  }

  lemma SameKeysSameMembers<T>(key: T -> int, a: seq<T>, b: seq<T>)
    requires forall k :: WithKey(key, k, a) == WithKey(key, k, b)
    ensures forall x :: x in a <==> x in b
    ensures a == [] <==> b == []
  {
    forall x | x in a ensures x in b {
      WithKeyKeeps(key, a, x);
      assert x in WithKey(key, key(x), b);
    }
    forall x | x in b ensures x in a {
      WithKeyKeeps(key, b, x);
      assert x in WithKey(key, key(x), a);
    }
    assert forall i | 0 <= i < |a| :: a[i] in b;
    assert forall i | 0 <= i < |b| :: b[i] in a;
  }

  lemma HeadKeyAtMost<T>(key: T -> int, a: seq<T>, b: seq<T>)
    requires a != [] && b != [] && SortedBy(key, b)
    requires forall k :: WithKey(key, k, a) == WithKey(key, k, b)
    ensures key(b[0]) <= key(a[0])
  {
    WithKeyKeeps(key, a, a[0]);
    assert a[0] in WithKey(key, key(a[0]), b);
  }

  /** Lists whose keys strictly increase and that hold the same elements are equal. */
  lemma {:induction false} StrictlySortedUnique<T>(key: T -> int, a: seq<T>, b: seq<T>)
    requires StrictlySortedBy(key, a) && StrictlySortedBy(key, b)
    requires forall x :: x in a <==> x in b
    ensures a == b
  {
    if a == [] {
      assert forall i | 0 <= i < |b| :: b[i] in a;
    } else {
      assert a[0] in b;
      assert b[0] in a;
      var i :| 0 <= i < |b| && b[i] == a[0];
      var j :| 0 <= j < |a| && a[j] == b[0];
      assert i == 0 && a[0] == b[0];
      forall x ensures x in a[1..] <==> x in b[1..] {
        if x in a[1..] {
          var m :| 0 <= m < |a[1..]| && a[1..][m] == x;
          assert x == a[m + 1] && x in b && x != b[0];
        }
        if x in b[1..] {
          var m :| 0 <= m < |b[1..]| && b[1..][m] == x;
          assert x == b[m + 1] && x in a && x != a[0];
        }
      }
      StrictlySortedUnique(key, a[1..], b[1..]);
    }
  }

  ghost predicate DistinctKeys<T>(key: T -> int, s: seq<T>) {
    forall i, j | 0 <= i < j < |s| :: key(s[i]) != key(s[j])
  }

  lemma {:induction false} InsertByDistinct<T>(key: T -> int, x: T, s: seq<T>)
    requires DistinctKeys(key, s) && forall i | 0 <= i < |s| :: key(s[i]) != key(x)
    ensures DistinctKeys(key, InsertBy(key, x, s))
  {
    if s != [] && key(x) > key(s[0]) {
      InsertByDistinct(key, x, s[1..]);
      var t := InsertBy(key, x, s[1..]);
      forall j | 0 <= j < |t| ensures key(t[j]) != key(s[0]) {
        assert t[j] in multiset([x]) + multiset(s[1..]);
      }
    }
  }

  /** Sorting a list without repeated keys gives strictly increasing keys. */
  lemma {:induction false} SortByDistinct<T>(key: T -> int, s: seq<T>)
    requires DistinctKeys(key, s)
    ensures DistinctKeys(key, SortBy(key, s))
    ensures StrictlySortedBy(key, SortBy(key, s))
  {
    SortBySorted(key, s);
    if s != [] {
      SortByDistinct(key, s[1..]);
      var t := SortBy(key, s[1..]);
      forall i | 0 <= i < |t| ensures key(t[i]) != key(s[0]) {
        SortByMembers(key, s[1..], t[i]);
      }
      InsertByDistinct(key, s[0], t);
    }
  }

  // ------------------------------------------------------ sums of weights

  /** The laws of addition, for three given values. */
  ghost predicate LawsAt<M>(add: (M, M) -> M, zero: M, a: M, b: M, c: M) {
    && add(a, b) == add(b, a)
    && add(add(a, b), c) == add(a, add(b, c))
    && add(a, zero) == a
  }

  ghost predicate CommutativeMonoid<M(!new)>(add: (M, M) -> M, zero: M) {
    forall a, b, c :: LawsAt(add, zero, a, b, c)
  }

  function Fold<T, M>(add: (M, M) -> M, zero: M, weight: T -> M, s: seq<T>): M {
    if s == [] then zero
    else add(Fold(add, zero, weight, s[..|s| - 1]), weight(s[|s| - 1]))
  }

  lemma {:induction false} FoldAppend<T, M(!new)>(add: (M, M) -> M, zero: M, weight: T -> M, a: seq<T>, b: seq<T>)
    requires CommutativeMonoid(add, zero)
    ensures Fold(add, zero, weight, a + b) == add(Fold(add, zero, weight, a), Fold(add, zero, weight, b))
  {
    if b == [] {
      assert a + b == a;
      assert LawsAt(add, zero, Fold(add, zero, weight, a), zero, zero);
    } else {
      var front := b[..|b| - 1];
      assert (a + b)[..|a + b| - 1] == a + front;
      FoldAppend(add, zero, weight, a, front);
      assert LawsAt(add, zero, Fold(add, zero, weight, a), Fold(add, zero, weight, front), weight(b[|b| - 1]));
    }
  }

  lemma FoldCons<T, M(!new)>(add: (M, M) -> M, zero: M, weight: T -> M, x: T, s: seq<T>)
    requires CommutativeMonoid(add, zero)
    ensures Fold(add, zero, weight, [x] + s) == add(weight(x), Fold(add, zero, weight, s))
  {
    FoldAppend(add, zero, weight, [x], s);
    assert LawsAt(add, zero, weight(x), zero, zero);
    assert LawsAt(add, zero, zero, weight(x), zero);
  }

  lemma FoldFilterStep<T, M(!new)>(add: (M, M) -> M, zero: M, weight: T -> M, s: seq<T>, p: T -> bool)
    requires CommutativeMonoid(add, zero) && s != []
    ensures Fold(add, zero, weight, Filter(p, s)) ==
      if p(s[0]) then add(weight(s[0]), Fold(add, zero, weight, Filter(p, s[1..])))
      else Fold(add, zero, weight, Filter(p, s[1..]))
  {
    if p(s[0]) {
      FoldCons(add, zero, weight, s[0], Filter(p, s[1..]));
    }
  }

  /** Splitting a list by two exclusive conditions splits its sum. */
  lemma {:induction false} FoldSplit<T, M(!new)>(add: (M, M) -> M, zero: M, weight: T -> M, s: seq<T>,
                                                 p: T -> bool, q: T -> bool, both: T -> bool)
    requires CommutativeMonoid(add, zero)
    requires forall x <- s :: !(p(x) && q(x)) && (both(x) <==> p(x) || q(x))
    ensures Fold(add, zero, weight, Filter(both, s))
         == add(Fold(add, zero, weight, Filter(p, s)), Fold(add, zero, weight, Filter(q, s)))
  {
    if s == [] {
      assert LawsAt(add, zero, zero, zero, zero);
    } else {
      var w, rest := weight(s[0]), s[1..];
      FoldSplit(add, zero, weight, rest, p, q, both);
      FoldFilterStep(add, zero, weight, s, p);
      FoldFilterStep(add, zero, weight, s, q);
      FoldFilterStep(add, zero, weight, s, both);
      var x, y := Fold(add, zero, weight, Filter(p, rest)), Fold(add, zero, weight, Filter(q, rest));
      assert LawsAt(add, zero, w, x, y);
      assert LawsAt(add, zero, x, w, y);
      assert LawsAt(add, zero, w, x, w);
      assert s[0] in s;
    }
  }
}
