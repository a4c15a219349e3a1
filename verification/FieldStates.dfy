/** The four aggregation field states: adding one run to a state, and merging
    two states. Numbers are exact reals; `Math.round` is floor(x + 1/2). */
module FieldStates {
  import opened Sequences

  datatype Kind = Counter | Average | Rate | MinMax

  /** `NotANumber` stands for the state that comes out when a merge meets a state
      of another kind (its arithmetic then runs over missing fields). */
  datatype State =
    | CounterState(count: real)
    | AverageState(sum: real, n: nat, avg: real)
    | RateState(success: nat, total: nat, rate: int)
    | MinMaxState(min: real, max: real)
    | NotANumber

  predicate OfKind(kind: Kind, s: State) {
    match kind
    case Counter => s.CounterState?
    case Average => s.AverageState?
    case Rate => s.RateState?
    case MinMax => s.MinMaxState?
  }

  function Round(x: real): int { (x + 0.5).Floor }

  function RoundedAverage(sum: real, n: nat): real {
    if n > 0 then Round(sum / n as real * 10.0) as real / 10.0 else 0.0
  }

  function RoundedRate(success: nat, total: nat): int {
    if total > 0 then Round(success as real / total as real * 100.0) else 0
  }

  function RealMin(a: real, b: real): real { if a <= b then a else b }
  function RealMax(a: real, b: real): real { if a >= b then a else b }

  // --------------------------------------------- adding one run to a state

  datatype Increment = Flag(on: bool) | Amount(amount: real)

  function IncrementValue(i: Increment): real {
    match i
    case Flag(on) => if on then 1.0 else 0.0
    case Amount(amount) => amount
  }

  function MergeCounter(existing: Option<real>, i: Increment): real {
    (if existing.Some? then existing.value else 0.0) + IncrementValue(i)
  }

  datatype Avg = Avg(sum: real, n: nat, avg: real)

  function MergeAverage(existing: Option<Avg>, value: Option<real>): Avg {
    var e := if existing.Some? then existing.value else Avg(0.0, 0, 0.0);
    if value.None? then e
    else
      var sum, n := e.sum + value.value, e.n + 1;
      Avg(sum, n, Round(sum / n as real * 10.0) as real / 10.0)
  }

  datatype Ratio = Ratio(success: nat, total: nat, rate: int)

  function MergeRate(existing: Option<Ratio>, ok: Option<bool>): Ratio {
    var e := if existing.Some? then existing.value else Ratio(0, 0, 0);
    if ok.None? then e
    else
      var success, total := e.success + (if ok.value then 1 else 0), e.total + 1;
      Ratio(success, total, Round(success as real / total as real * 100.0))
  }

  datatype Extremes = Extremes(min: real, max: real)

  function MergeMinMax(existing: Option<Extremes>, value: Option<real>): Extremes {
    if value.None? then (if existing.Some? then existing.value else Extremes(0.0, 0.0))
    else if existing.None? then Extremes(value.value, value.value)
    else Extremes(RealMin(existing.value.min, value.value), RealMax(existing.value.max, value.value))
  }

  // ------------------------------------------------- merging two states

  function MergeCounters(a: real, b: real): real { a + b }

  function MergeAverages(a: Avg, b: Avg): Avg {
    Avg(a.sum + b.sum, a.n + b.n, RoundedAverage(a.sum + b.sum, a.n + b.n))
  }

  function MergeRates(a: Ratio, b: Ratio): Ratio {
    Ratio(a.success + b.success, a.total + b.total, RoundedRate(a.success + b.success, a.total + b.total))
  }

  function MergeExtremes(a: Extremes, b: Extremes): Extremes {
    Extremes(RealMin(a.min, b.min), RealMax(a.max, b.max))
  }

  /** The merge the field's kind selects. */
  function MergeStates(kind: Kind, a: State, b: State): State {
    if !OfKind(kind, a) || !OfKind(kind, b) then NotANumber
    else match kind
      case Counter => CounterState(MergeCounters(a.count, b.count))
      case Average =>
        var m := MergeAverages(Avg(a.sum, a.n, a.avg), Avg(b.sum, b.n, b.avg));
        AverageState(m.sum, m.n, m.avg)
      case Rate =>
        var m := MergeRates(Ratio(a.success, a.total, a.rate), Ratio(b.success, b.total, b.rate));
        RateState(m.success, m.total, m.rate)
      case MinMax =>
        var m := MergeExtremes(Extremes(a.min, a.max), Extremes(b.min, b.max));
        MinMaxState(m.min, m.max)
  }

  /** The state a field has when neither side carries one. */
  function InitialState(kind: Kind): State {
    match kind
    case Counter => CounterState(0.0)
    case Average => AverageState(0.0, 0, 0.0)
    case Rate => RateState(0, 0, 0)
    case MinMax => MinMaxState(0.0, 0.0)
  }

  lemma MergeStatesLaws(kind: Kind, a: State, b: State, c: State)
    ensures MergeStates(kind, a, b) == MergeStates(kind, b, a)
    ensures MergeStates(kind, MergeStates(kind, a, b), c) == MergeStates(kind, a, MergeStates(kind, b, c))
    ensures OfKind(kind, a) && OfKind(kind, b) ==> OfKind(kind, MergeStates(kind, a, b))
  {
  }

  /** Derived fields agree with the accumulated ones. */
  predicate Consistent(s: State) {
    match s
    case AverageState(sum, n, avg) => avg == RoundedAverage(sum, n) && (n == 0 ==> sum == 0.0)
    case RateState(success, total, rate) => success <= total && rate == RoundedRate(success, total)
    case NotANumber => false
    case _ => true
  }

  /** Merging keeps derived fields right, and the initial state is then neutral
      for every kind but MinMax. */
  lemma MergeKeepsConsistency(kind: Kind, a: State, b: State)
    requires OfKind(kind, a) && OfKind(kind, b) && Consistent(a) && Consistent(b)
    ensures Consistent(MergeStates(kind, a, b))
    ensures !kind.MinMax? ==> MergeStates(kind, a, InitialState(kind)) == a
  {
  }

  /** For MinMax the initial state is neutral exactly when the range contains 0. */
  lemma InitialMinMaxNeutral(a: State)
    requires OfKind(MinMax, a) && a.min <= a.max
    ensures MergeStates(MinMax, a, InitialState(MinMax)) == a <==> a.min <= 0.0 <= a.max
  {
  }

  // ------------------------------------------------- folding runs one by one

  function FoldCounter(runs: seq<Increment>): Option<real> {
    if runs == [] then None
    else Some(MergeCounter(FoldCounter(runs[..|runs| - 1]), runs[|runs| - 1]))
  }

  function FoldAverage(runs: seq<Option<real>>): Option<Avg> {
    if runs == [] then None
    else Some(MergeAverage(FoldAverage(runs[..|runs| - 1]), runs[|runs| - 1]))
  }

  function FoldRate(runs: seq<Option<bool>>): Option<Ratio> {
    if runs == [] then None
    else Some(MergeRate(FoldRate(runs[..|runs| - 1]), runs[|runs| - 1]))
  }

  function FoldMinMax(runs: seq<Option<real>>): Option<Extremes> {
    if runs == [] then None
    else Some(MergeMinMax(FoldMinMax(runs[..|runs| - 1]), runs[|runs| - 1]))
  }

  lemma {:induction false} CounterHomomorphism(xs: seq<Increment>, ys: seq<Increment>)
    requires xs != [] && ys != []
    ensures FoldCounter(xs + ys).value == MergeCounters(FoldCounter(xs).value, FoldCounter(ys).value)
  {
    var front := ys[..|ys| - 1];
    assert (xs + ys)[..|xs + ys| - 1] == xs + front;
    if front == [] {
      assert xs + front == xs;
    } else {
      CounterHomomorphism(xs, front);
    }
  }

  lemma {:induction false} FoldAverageConsistent(xs: seq<Option<real>>)
    requires xs != []
    ensures var a := FoldAverage(xs).value; a.avg == RoundedAverage(a.sum, a.n) && (a.n == 0 ==> a.sum == 0.0)
  {
    if |xs| > 1 {
      FoldAverageConsistent(xs[..|xs| - 1]);
    }
  }

  lemma AverageStep(a: Avg, b: Avg, value: Option<real>)
    ensures MergeAverage(Some(MergeAverages(a, b)), value) == MergeAverages(a, MergeAverage(Some(b), value))
  {
    if value.Some? {
      assert (a.sum + b.sum) + value.value == a.sum + (b.sum + value.value);
    }
  }

  lemma AverageFirst(a: Avg, value: Option<real>)
    requires a.avg == RoundedAverage(a.sum, a.n)
    ensures MergeAverage(Some(a), value) == MergeAverages(a, MergeAverage(None, value))
  {
  }

  /** Folding two batches of runs one after the other gives what merging the two
      folded states gives, rounded field included. */
  lemma {:induction false} AverageHomomorphism(xs: seq<Option<real>>, ys: seq<Option<real>>)
    requires xs != [] && ys != []
    ensures FoldAverage(xs + ys).value == MergeAverages(FoldAverage(xs).value, FoldAverage(ys).value)
  {
    var front := ys[..|ys| - 1];
    assert (xs + ys)[..|xs + ys| - 1] == xs + front;
    if front == [] {
      assert xs + front == xs;
      FoldAverageConsistent(xs);
      AverageFirst(FoldAverage(xs).value, ys[|ys| - 1]);
    } else {
      AverageHomomorphism(xs, front);
      AverageStep(FoldAverage(xs).value, FoldAverage(front).value, ys[|ys| - 1]);
    }
  }

  lemma {:induction false} FoldRateConsistent(xs: seq<Option<bool>>)
    requires xs != []
    ensures var r := FoldRate(xs).value; r.success <= r.total && r.rate == RoundedRate(r.success, r.total)
  {
    if |xs| > 1 {
      FoldRateConsistent(xs[..|xs| - 1]);
    }
  }

  lemma {:induction false} RateHomomorphism(xs: seq<Option<bool>>, ys: seq<Option<bool>>)
    requires xs != [] && ys != []
    ensures FoldRate(xs + ys).value == MergeRates(FoldRate(xs).value, FoldRate(ys).value)
  {
    var front := ys[..|ys| - 1];
    assert (xs + ys)[..|xs + ys| - 1] == xs + front;
    FoldRateConsistent(xs);
    if front == [] {
      assert xs + front == xs;
    } else {
      RateHomomorphism(xs, front);
    }
  }

  lemma RoundedRateInRange(success: nat, total: nat)
    requires success <= total
    ensures 0 <= RoundedRate(success, total) <= 100
  {
    if total > 0 {
      var share := success as real / total as real;
      assert share <= 1.0 by { assert share * total as real == success as real; }
    }
  }

  /** A rate built from any runs is a percentage. */
  lemma FoldedRateInRange(xs: seq<Option<bool>>)
    requires xs != []
    ensures 0 <= FoldRate(xs).value.rate <= 100
  {
    FoldRateConsistent(xs);
    RoundedRateInRange(FoldRate(xs).value.success, FoldRate(xs).value.total);
  }

  // ------------------------------------- what folded states say about runs

  function TrueFlags(runs: seq<Increment>): nat {
    if runs == [] then 0 else (if runs[0] == Flag(true) then 1 else 0) + TrueFlags(runs[1..])
  }

  function Amounts(runs: seq<Increment>): real {
    if runs == [] then 0.0 else (if runs[0].Amount? then runs[0].amount else 0.0) + Amounts(runs[1..])
  }

  function Present<T>(runs: seq<Option<T>>): nat {
    if runs == [] then 0 else (if runs[0].Some? then 1 else 0) + Present(runs[1..])
  }

  function Successes(runs: seq<Option<bool>>): nat {
    if runs == [] then 0 else (if runs[0] == Some(true) then 1 else 0) + Successes(runs[1..])
  }

  function Total(runs: seq<Option<real>>): real {
    if runs == [] then 0.0 else (if runs[0].Some? then runs[0].value else 0.0) + Total(runs[1..])
  }

  lemma {:induction false} CounterSnoc(runs: seq<Increment>, i: Increment)
    ensures TrueFlags(runs + [i]) == TrueFlags(runs) + if i == Flag(true) then 1 else 0
    ensures Amounts(runs + [i]) == Amounts(runs) + if i.Amount? then i.amount else 0.0
  {
    if runs == [] {
      assert runs + [i] == [i];
    } else {
      assert (runs + [i])[1..] == runs[1..] + [i];
      CounterSnoc(runs[1..], i);
    }
  }

  lemma {:induction false} PresentSnoc<T>(runs: seq<Option<T>>, v: Option<T>)
    ensures Present(runs + [v]) == Present(runs) + if v.Some? then 1 else 0
  {
    if runs == [] {
      assert runs + [v] == [v];
    } else {
      assert (runs + [v])[1..] == runs[1..] + [v];
      PresentSnoc(runs[1..], v);
    }
  }

  lemma {:induction false} SuccessesSnoc(runs: seq<Option<bool>>, v: Option<bool>)
    ensures Successes(runs + [v]) == Successes(runs) + if v == Some(true) then 1 else 0
  {
    if runs == [] {
      assert runs + [v] == [v];
    } else {
      assert (runs + [v])[1..] == runs[1..] + [v];
      SuccessesSnoc(runs[1..], v);
    }
  }

  lemma {:induction false} TotalSnoc(runs: seq<Option<real>>, v: Option<real>)
    ensures Total(runs + [v]) == Total(runs) + if v.Some? then v.value else 0.0
  {
    if runs == [] {
      assert runs + [v] == [v];
    } else {
      assert (runs + [v])[1..] == runs[1..] + [v];
      TotalSnoc(runs[1..], v);
    }
  }

  /** A counter is the number of true flags and the sum of the amounts. */
  lemma {:induction false} CounterMeaning(runs: seq<Increment>)
    requires runs != []
    ensures FoldCounter(runs) == Some(TrueFlags(runs) as real + Amounts(runs))
  {
    var front, i := runs[..|runs| - 1], runs[|runs| - 1];
    assert runs == front + [i];
    CounterSnoc(front, i);
    if front != [] {
      CounterMeaning(front);
    }
  }

  /** `avg` is the tenth nearest to `sum / n`, halves up. */
  predicate NearestTenth(avg: real, sum: real, n: nat) {
    && avg == (10.0 * avg).Floor as real / 10.0
    && (10.0 * avg - 0.5) * n as real <= 10.0 * sum < (10.0 * avg + 0.5) * n as real
  }

  predicate NearestPercent(rate: int, success: nat, total: nat) {
    (2 * rate - 1) * total <= 200 * success < (2 * rate + 1) * total
  }

  lemma RoundBounds(x: real, n: real, product: real)
    requires n > 0.0 && x * n == product
    ensures (Round(x) as real - 0.5) * n <= product < (Round(x) as real + 0.5) * n
  {
    var low, high := Round(x) as real - 0.5, Round(x) as real + 0.5;
    assert (x - low) * n >= 0.0 && (x - low) * n == product - low * n;
    assert (high - x) * n > 0.0 && (high - x) * n == high * n - product;
  }

  lemma RoundsToTenth(sum: real, n: nat)
    requires n > 0
    ensures NearestTenth(RoundedAverage(sum, n), sum, n)
  {
    var x := sum / n as real * 10.0;
    assert x * n as real == 10.0 * sum;
    RoundBounds(x, n as real, 10.0 * sum);
    assert 10.0 * RoundedAverage(sum, n) == Round(x) as real;
  }

  lemma RoundsToPercent(success: nat, total: nat)
    requires total > 0
    ensures NearestPercent(RoundedRate(success, total), success, total)
  {
    var x := success as real / total as real * 100.0;
    var rate := Round(x);
    assert x * total as real == 100.0 * success as real;
    RoundBounds(x, total as real, 100.0 * success as real);
    Doubled(rate, total, 100.0 * success as real);
  }

  lemma Doubled(rate: int, total: nat, product: real)
    requires (rate as real - 0.5) * total as real <= product < (rate as real + 0.5) * total as real
    ensures ((2 * rate - 1) * total) as real <= 2.0 * product < ((2 * rate + 1) * total) as real
  {
    assert ((2 * rate - 1) * total) as real == (2 * rate - 1) as real * total as real;
    assert ((2 * rate + 1) * total) as real == (2 * rate + 1) as real * total as real;
  }

  /** An average sums the values that are there, counts them, and is rounded to a tenth. */
  lemma {:induction false} AverageMeaning(runs: seq<Option<real>>)
    requires runs != []
    ensures var a := FoldAverage(runs).value;
      && a.sum == Total(runs) && a.n == Present(runs)
      && if a.n == 0 then a.avg == 0.0 else NearestTenth(a.avg, a.sum, a.n)
  {
    var front, v := runs[..|runs| - 1], runs[|runs| - 1];
    assert runs == front + [v];
    TotalSnoc(front, v);
    PresentSnoc(front, v);
    if front != [] {
      AverageMeaning(front);
    }
    FoldAverageConsistent(runs);
    var a := FoldAverage(runs).value;
    if a.n > 0 {
      RoundsToTenth(a.sum, a.n);
    }
  }

  /** A rate counts the successes among the runs that have an outcome, in whole percent. */
  lemma {:induction false} RateMeaning(runs: seq<Option<bool>>)
    requires runs != []
    ensures var r := FoldRate(runs).value;
      && r.success == Successes(runs) && r.total == Present(runs)
      && if r.total == 0 then r.rate == 0 else NearestPercent(r.rate, r.success, r.total)
  {
    var front, v := runs[..|runs| - 1], runs[|runs| - 1];
    assert runs == front + [v];
    SuccessesSnoc(front, v);
    PresentSnoc(front, v);
    if front != [] {
      RateMeaning(front);
    }
    FoldRateConsistent(runs);
    var r := FoldRate(runs).value;
    if r.total > 0 {
      RoundsToPercent(r.success, r.total);
    }
  }

  function CounterOf(runs: seq<Increment>): State
    requires runs != []
  {
    CounterState(FoldCounter(runs).value)
  }

  function AverageOf(runs: seq<Option<real>>): State
    requires runs != []
  {
    var a := FoldAverage(runs).value;
    AverageState(a.sum, a.n, a.avg)
  }

  function RateOf(runs: seq<Option<bool>>): State
    requires runs != []
  {
    var r := FoldRate(runs).value;
    RateState(r.success, r.total, r.rate)
  }

  function MinMaxOf(runs: seq<Option<real>>): State
    requires runs != []
  {
    var e := FoldMinMax(runs).value;
    MinMaxState(e.min, e.max)
  }

  /** The merge a field's kind selects turns the states of two batches into that of both, for
      extremes under their condition; a state of another kind spoils the field. */
  lemma MergedIsFolded(kind: Kind, cs: seq<Increment>, ds: seq<Increment>, xs: seq<Option<real>>, ys: seq<Option<real>>,
                       bs: seq<Option<bool>>, es: seq<Option<bool>>)
    requires cs != [] && ds != [] && xs != [] && ys != [] && bs != [] && es != []
    ensures MergeStates(kind, CounterOf(cs), CounterOf(ds)) == if kind.Counter? then CounterOf(cs + ds) else NotANumber
    ensures MergeStates(kind, AverageOf(xs), AverageOf(ys)) == if kind.Average? then AverageOf(xs + ys) else NotANumber
    ensures MergeStates(kind, RateOf(bs), RateOf(es)) == if kind.Rate? then RateOf(bs + es) else NotANumber
    ensures !kind.MinMax? ==> MergeStates(kind, MinMaxOf(xs), MinMaxOf(ys)) == NotANumber
    ensures kind.MinMax? && (ys[0].Some? || FoldMinMax(xs + ys).value.min <= 0.0 <= FoldMinMax(xs + ys).value.max) ==>
      MergeStates(kind, MinMaxOf(xs), MinMaxOf(ys)) == MinMaxOf(xs + ys)
  {
    CounterHomomorphism(cs, ds);
    AverageHomomorphism(xs, ys);
    RateHomomorphism(bs, es);
    MinMaxHomomorphismIff(xs, ys);
  }

  // ------------------------------------------------------- true extremes

  /** Smallest and largest of the values present. */
  function TrueExtremes(runs: seq<Option<real>>): Option<Extremes> {
    if runs == [] then None
    else
      var before, v := TrueExtremes(runs[..|runs| - 1]), runs[|runs| - 1];
      if v.None? then before
      else if before.None? then Some(Extremes(v.value, v.value))
      else Some(Extremes(RealMin(before.value.min, v.value), RealMax(before.value.max, v.value)))
  }

  lemma {:induction false} TrueExtremesMeaning(runs: seq<Option<real>>)
    ensures TrueExtremes(runs).None? <==> forall r <- runs :: r.None?
    ensures TrueExtremes(runs).Some? ==>
      && Some(TrueExtremes(runs).value.min) in runs && Some(TrueExtremes(runs).value.max) in runs
      && forall r <- runs :: r.Some? ==> TrueExtremes(runs).value.min <= r.value <= TrueExtremes(runs).value.max
  {
    if runs != [] {
      var front, v := runs[..|runs| - 1], runs[|runs| - 1];
      TrueExtremesMeaning(front);
      assert runs == front + [v];
      assert forall r :: r in runs <==> r in front || r == v;
    }
  }

  /** A stream that starts with an absent value is seeded with 0; the fold then
      carries that 0 along. */
  lemma {:induction false} FoldMinMaxForm(runs: seq<Option<real>>)
    requires runs != []
    ensures var f, t := FoldMinMax(runs).value, TrueExtremes(runs);
      if runs[0].Some? then t == Some(f)
      else if t.None? then f == Extremes(0.0, 0.0)
      else f == Extremes(RealMin(0.0, t.value.min), RealMax(0.0, t.value.max))
  {
    if |runs| > 1 {
      FoldMinMaxForm(runs[..|runs| - 1]);
    }
  }

  /** The folded state holds the true extremes exactly when the stream starts with
      a value or its values reach to both sides of 0. */
  lemma FoldMinMaxExact(runs: seq<Option<real>>)
    requires TrueExtremes(runs).Some?
    ensures var t := TrueExtremes(runs).value;
      FoldMinMax(runs) == Some(t) <==> runs[0].Some? || t.min <= 0.0 <= t.max
  {
    FoldMinMaxForm(runs);
  }

  /** Merging two folded streams gives the fold of both, widened to 0 when the second
      stream starts with an absent value. */
  lemma {:induction false} MinMaxMergeForm(xs: seq<Option<real>>, ys: seq<Option<real>>)
    requires xs != [] && ys != []
    ensures var whole := FoldMinMax(xs + ys).value;
      MergeExtremes(FoldMinMax(xs).value, FoldMinMax(ys).value) ==
        if ys[0].Some? then whole else Extremes(RealMin(0.0, whole.min), RealMax(0.0, whole.max))
  {
    var front := ys[..|ys| - 1];
    assert (xs + ys)[..|xs + ys| - 1] == xs + front;
    if front == [] {
      assert xs + front == xs;
    } else {
      MinMaxMergeForm(xs, front);
    }
  }

  /** So merging the states equals folding the streams exactly when the second stream
      starts with a value or the range of both together contains 0. */
  lemma MinMaxHomomorphismIff(xs: seq<Option<real>>, ys: seq<Option<real>>)
    requires xs != [] && ys != []
    ensures var whole := FoldMinMax(xs + ys).value;
      MergeExtremes(FoldMinMax(xs).value, FoldMinMax(ys).value) == whole <==> ys[0].Some? || whole.min <= 0.0 <= whole.max
  {
    MinMaxMergeForm(xs, ys);
  }
}
