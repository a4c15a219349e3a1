/** A reference reading of merged results: a commutative monoid on records. The
    merge of `AggregatedResults` computes its sum whenever every record is
    complete, so grouping and order stop mattering. */
module ResultSums {
  import opened Sequences
  import opened FieldStates
  import opened AggregatedResults

  /** The content of a record: states per strategy field, and per collector instance. */
  datatype Canon = Canon(strategy: States, collectors: map<string, States>)

  /** Which collector each instance belongs to. */
  type Owners = map<string, string>

  function KindOf(fields: Fields, k: string): Kind {
    if k in fields then fields[k] else Counter
  }

  function Get<V>(m: map<string, V>, k: string): Option<V> {
    if k in m then Some(m[k]) else None
  }

  lemma SameLookups<V>(a: map<string, V>, b: map<string, V>)
    requires forall k :: Get(a, k) == Get(b, k)
    ensures a == b
  {
    forall k ensures k in a <==> k in b
             ensures k in a ==> a[k] == b[k] {
      assert Get(a, k) == Get(b, k);
    }
  }

  function LiftState(kind: Kind, a: Option<State>, b: Option<State>): Option<State> {
    if a.None? then b
    else if b.None? then a
    else Some(MergeStates(kind, a.value, b.value))
  }

  lemma LiftStateLaws(kind: Kind, a: Option<State>, b: Option<State>, c: Option<State>)
    ensures LiftState(kind, a, b) == LiftState(kind, b, a)
    ensures LiftState(kind, LiftState(kind, a, b), c) == LiftState(kind, a, LiftState(kind, b, c))
  {
    if a.Some? && b.Some? {
      MergeStatesLaws(kind, a.value, b.value, if c.Some? then c.value else a.value);
    }
  }

  /** Field by field: merged where both sides have it, kept where one has. */
  function Union(fields: Fields, a: States, b: States): States {
    map k | k in a.Keys + b.Keys :: LiftState(KindOf(fields, k), Get(a, k), Get(b, k)).value
  }

  lemma UnionAt(fields: Fields, a: States, b: States, k: string)
    ensures Get(Union(fields, a, b), k) == LiftState(KindOf(fields, k), Get(a, k), Get(b, k))
  {
  }

  function StrategyFields(reg: Registry): Fields {
    if reg.strategy.Some? then reg.strategy.value else map[]
  }

  function CollectorFields(reg: Registry, owners: Owners, uuid: string): Fields {
    if uuid in owners && owners[uuid] in reg.collectors then reg.collectors[owners[uuid]] else map[]
  }

  function LiftStates(fields: Fields, a: Option<States>, b: Option<States>): Option<States> {
    if a.None? then b
    else if b.None? then a
    else Some(Union(fields, a.value, b.value))
  }

  function UnionCollectors(reg: Registry, owners: Owners, a: map<string, States>, b: map<string, States>)
    : map<string, States>
  {
    map u | u in a.Keys + b.Keys :: LiftStates(CollectorFields(reg, owners, u), Get(a, u), Get(b, u)).value
  }

  lemma UnionCollectorsAt(reg: Registry, owners: Owners, a: map<string, States>, b: map<string, States>, u: string)
    ensures Get(UnionCollectors(reg, owners, a, b), u)
         == LiftStates(CollectorFields(reg, owners, u), Get(a, u), Get(b, u))
  {
  }

  function Plus(reg: Registry, owners: Owners, a: Canon, b: Canon): Canon {
    Canon(Union(StrategyFields(reg), a.strategy, b.strategy),
          UnionCollectors(reg, owners, a.collectors, b.collectors))
  }

  const NOTHING := Canon(map[], map[])

  lemma UnionCommutes(fields: Fields, a: States, b: States)
    ensures Union(fields, a, b) == Union(fields, b, a)
    ensures Union(fields, a, map[]) == a
  {
    forall k ensures Get(Union(fields, a, b), k) == Get(Union(fields, b, a), k) {
      LiftStateLaws(KindOf(fields, k), Get(a, k), Get(b, k), None);
      UnionAt(fields, a, b, k);
      UnionAt(fields, b, a, k);
    }
    SameLookups(Union(fields, a, b), Union(fields, b, a));
    forall k ensures Get(Union(fields, a, map[]), k) == Get(a, k) {
      UnionAt(fields, a, map[], k);
    }
    SameLookups(Union(fields, a, map[]), a);
  }

  lemma UnionAssociates(fields: Fields, a: States, b: States, c: States)
    ensures Union(fields, Union(fields, a, b), c) == Union(fields, a, Union(fields, b, c))
  {
    var l, r := Union(fields, Union(fields, a, b), c), Union(fields, a, Union(fields, b, c));
    forall k ensures Get(l, k) == Get(r, k) {
      LiftStateLaws(KindOf(fields, k), Get(a, k), Get(b, k), Get(c, k));
      UnionAt(fields, a, b, k);
      UnionAt(fields, b, c, k);
      UnionAt(fields, Union(fields, a, b), c, k);
      UnionAt(fields, a, Union(fields, b, c), k);
    }
    SameLookups(l, r);
  }

  lemma LiftStatesLaws(fields: Fields, a: Option<States>, b: Option<States>, c: Option<States>)
    ensures LiftStates(fields, a, b) == LiftStates(fields, b, a)
    ensures LiftStates(fields, LiftStates(fields, a, b), c) == LiftStates(fields, a, LiftStates(fields, b, c))
  {
    if a.Some? && b.Some? {
      UnionCommutes(fields, a.value, b.value);
      if c.Some? {
        UnionAssociates(fields, a.value, b.value, c.value);
      }
    }
  }

  lemma UnionCollectorsCommutes(reg: Registry, owners: Owners, a: map<string, States>, b: map<string, States>)
    ensures UnionCollectors(reg, owners, a, b) == UnionCollectors(reg, owners, b, a)
    ensures UnionCollectors(reg, owners, a, map[]) == a
  {
    var l, r := UnionCollectors(reg, owners, a, b), UnionCollectors(reg, owners, b, a);
    forall u ensures Get(l, u) == Get(r, u) {
      LiftStatesLaws(CollectorFields(reg, owners, u), Get(a, u), Get(b, u), None);
      UnionCollectorsAt(reg, owners, a, b, u);
      UnionCollectorsAt(reg, owners, b, a, u);
    }
    SameLookups(l, r);
    forall u ensures Get(UnionCollectors(reg, owners, a, map[]), u) == Get(a, u) {
      UnionCollectorsAt(reg, owners, a, map[], u);
    }
    SameLookups(UnionCollectors(reg, owners, a, map[]), a);
  }

  lemma UnionCollectorsAssociates(reg: Registry, owners: Owners,
                                  a: map<string, States>, b: map<string, States>, c: map<string, States>)
    ensures UnionCollectors(reg, owners, UnionCollectors(reg, owners, a, b), c)
         == UnionCollectors(reg, owners, a, UnionCollectors(reg, owners, b, c))
  {
    var l := UnionCollectors(reg, owners, UnionCollectors(reg, owners, a, b), c);
    var r := UnionCollectors(reg, owners, a, UnionCollectors(reg, owners, b, c));
    forall u ensures Get(l, u) == Get(r, u) {
      LiftStatesLaws(CollectorFields(reg, owners, u), Get(a, u), Get(b, u), Get(c, u));
      UnionCollectorsAt(reg, owners, a, b, u);
      UnionCollectorsAt(reg, owners, b, c, u);
      UnionCollectorsAt(reg, owners, UnionCollectors(reg, owners, a, b), c, u);
      UnionCollectorsAt(reg, owners, a, UnionCollectors(reg, owners, b, c), u);
    }
    SameLookups(l, r);
  }

  lemma PlusLaws(reg: Registry, owners: Owners, a: Canon, b: Canon, c: Canon)
    ensures Plus(reg, owners, a, b) == Plus(reg, owners, b, a)
    ensures Plus(reg, owners, Plus(reg, owners, a, b), c) == Plus(reg, owners, a, Plus(reg, owners, b, c))
    ensures Plus(reg, owners, a, NOTHING) == a == Plus(reg, owners, NOTHING, a)
  {
    UnionCommutes(StrategyFields(reg), a.strategy, b.strategy);
    UnionCommutes(StrategyFields(reg), map[], a.strategy);
    UnionCommutes(StrategyFields(reg), a.strategy, map[]);
    UnionAssociates(StrategyFields(reg), a.strategy, b.strategy, c.strategy);
    UnionCollectorsCommutes(reg, owners, a.collectors, b.collectors);
    UnionCollectorsCommutes(reg, owners, map[], a.collectors);
    UnionCollectorsCommutes(reg, owners, a.collectors, map[]);
    UnionCollectorsAssociates(reg, owners, a.collectors, b.collectors, c.collectors);
  }

  // ------------------------------------------------------ complete records

  /** The strategy part is absent or has every field of a registered strategy; each
      collector is registered, keeps one id per instance, and has every field. A record
      that says nothing at all is complete too. */
  ghost predicate Complete(reg: Registry, owners: Owners, r: Record) {
    && (r.strategy != map[] ==> reg.strategy.Some? && r.strategy.Keys == reg.strategy.value.Keys)
    && forall u <- CollectorsOf(r) ::
        && u in owners && owners[u] != "" && owners[u] in reg.collectors
        && CollectorsOf(r)[u].id == Some(owners[u])
        && CollectorsOf(r)[u].states.Keys == reg.collectors[owners[u]].Keys
  }

  ghost predicate AllComplete(reg: Registry, owners: Owners, valid: seq<Record>) {
    forall i | 0 <= i < |valid| :: Complete(reg, owners, valid[i])
  }

  function Encode(r: Record): Canon {
    Canon(r.strategy, map u | u in CollectorsOf(r) :: CollectorsOf(r)[u].states)
  }

  function Restore(owners: Owners, c: map<string, States>): map<string, Collected> {
    map u | u in c :: Collected(if u in owners then Some(owners[u]) else None, c[u])
  }

  function Decode(owners: Owners, c: Canon): Option<Record> {
    ToResult(c.strategy, Restore(owners, c.collectors))
  }

  function SumOf(reg: Registry, owners: Owners, valid: seq<Record>): Canon {
    if valid == [] then NOTHING
    else Plus(reg, owners, SumOf(reg, owners, valid[..|valid| - 1]), Encode(valid[|valid| - 1]))
  }

  lemma MergeFieldsIsUnion(fields: Fields, a: States, b: States)
    requires a.Keys == fields.Keys && b.Keys == fields.Keys
    ensures MergeFields(fields, a, b) == Union(fields, a, b)
  {
    forall k ensures Get(MergeFields(fields, a, b), k) == Get(Union(fields, a, b), k) {
      UnionAt(fields, a, b, k);
    }
    SameLookups(MergeFields(fields, a, b), Union(fields, a, b));
  }

  /** The strategy parts merged so far, and their sum: both empty, or both with every field and equal. */
  ghost predicate StrategyAgrees(fields: Fields, sets: seq<States>, sum: States) {
    if sets == [] then sum == map[]
    else sum != map[] && sum.Keys == fields.Keys && FoldFields(fields, sets) == sum
  }

  lemma StrategyStep(fields: Fields, sets: seq<States>, sum: States, s: States)
    requires StrategyAgrees(fields, sets, sum) && (s != map[] ==> s.Keys == fields.Keys)
    ensures StrategyAgrees(fields, if s == map[] then sets else sets + [s], Union(fields, sum, s))
  {
    UnionCommutes(fields, sum, s);
    if s == map[] {
      assert Union(fields, sum, s) == sum;
    } else if sets == [] {
      UnionCommutes(fields, s, map[]);
      assert sets + [s] == [s];
    } else {
      assert (sets + [s])[..|sets|] == sets;
      MergeFieldsIsUnion(fields, sum, s);
      assert Union(fields, sum, s).Keys == fields.Keys;
    }
  }

  lemma SumSnoc(reg: Registry, owners: Owners, front: seq<Record>, last: Record)
    ensures SumOf(reg, owners, front + [last]) == Plus(reg, owners, SumOf(reg, owners, front), Encode(last))
    ensures AllComplete(reg, owners, front + [last]) ==> AllComplete(reg, owners, front) && Complete(reg, owners, last)
  {
    var valid := front + [last];
    assert valid[..|valid| - 1] == front;
    CompleteSnoc(reg, owners, front, last, valid);
  }

  lemma CompleteSnoc(reg: Registry, owners: Owners, front: seq<Record>, last: Record, valid: seq<Record>)
    requires valid == front + [last]
    ensures AllComplete(reg, owners, valid) ==> AllComplete(reg, owners, front) && Complete(reg, owners, last)
  {
    if AllComplete(reg, owners, valid) {
      assert Complete(reg, owners, valid[|front|]);
      forall i | 0 <= i < |front| ensures Complete(reg, owners, front[i]) {
        assert Complete(reg, owners, valid[i]);
      }
    }
  }

  lemma {:induction false} StrategySum(reg: Registry, owners: Owners, valid: seq<Record>)
    requires AllComplete(reg, owners, valid)
    ensures StrategyAgrees(StrategyFields(reg), StrategySets(valid), SumOf(reg, owners, valid).strategy)
    ensures reg.strategy.None? ==> StrategySets(valid) == []
  {
    if valid != [] {
      var front, last := valid[..|valid| - 1], valid[|valid| - 1];
      assert valid == front + [last];
      SumSnoc(reg, owners, front, last);
      StrategySetsAppend(front, last);
      StrategySum(reg, owners, front);
      var before, sum := StrategySets(front), SumOf(reg, owners, front).strategy;
      StrategyStep(StrategyFields(reg), before, sum, last.strategy);
      assert StrategySets(valid) == if last.strategy == map[] then before else before + [last.strategy];
    }
  }

  /** The data of one collector instance so far, and its sum. */
  ghost predicate CollectorAgrees(fields: Fields, id: string, data: seq<Collected>, sum: Option<States>) {
    if data == [] then sum.None?
    else
      && FirstId(data) == Some(id)
      && sum.Some? && sum.value.Keys == fields.Keys && FoldFields(fields, StatesOf(data)) == sum.value
  }

  lemma CollectorStep(fields: Fields, id: string, data: seq<Collected>, sum: Option<States>, d: Option<Collected>)
    requires CollectorAgrees(fields, id, data, sum)
    requires d.Some? ==> d.value.id == Some(id) && d.value.states.Keys == fields.Keys
    ensures CollectorAgrees(fields, id, if d.Some? then data + [d.value] else data,
                            LiftStates(fields, sum, if d.Some? then Some(d.value.states) else None))
  {
    if d.Some? {
      FirstIdAppend(data, d.value);
      var states := StatesOf(data + [d.value]);
      assert states[..|data|] == StatesOf(data) && states[|data|] == d.value.states;
      if data != [] {
        MergeFieldsIsUnion(fields, sum.value, d.value.states);
        assert Union(fields, sum.value, d.value.states).Keys == fields.Keys;
      }
    }
  }

  lemma SumSnocAt(reg: Registry, owners: Owners, front: seq<Record>, last: Record, u: string)
    ensures var d := Get(CollectorsOf(last), u);
      Get(SumOf(reg, owners, front + [last]).collectors, u)
        == LiftStates(CollectorFields(reg, owners, u), Get(SumOf(reg, owners, front).collectors, u),
                      if d.Some? then Some(d.value.states) else None)
  {
    SumSnoc(reg, owners, front, last);
    UnionCollectorsAt(reg, owners, SumOf(reg, owners, front).collectors, Encode(last).collectors, u);
  }

  lemma DataSnocAt(front: seq<Record>, last: Record, u: string)
    ensures var d := Get(CollectorsOf(last), u);
      DataFor(front + [last], u) == if d.Some? then DataFor(front, u) + [d.value] else DataFor(front, u)
  {
    DataForAppend(front, last, u);
  }

  lemma CompleteAt(reg: Registry, owners: Owners, r: Record, u: string)
    requires Complete(reg, owners, r) && u in owners
    ensures var d := Get(CollectorsOf(r), u);
      d.Some? ==> d.value.id == Some(owners[u]) && d.value.states.Keys == CollectorFields(reg, owners, u).Keys
  {
  }

  lemma {:induction false} CollectorSum(reg: Registry, owners: Owners, valid: seq<Record>, u: string)
    requires AllComplete(reg, owners, valid) && u in owners
    ensures CollectorAgrees(CollectorFields(reg, owners, u), owners[u], DataFor(valid, u),
                            Get(SumOf(reg, owners, valid).collectors, u))
  {
    if valid != [] {
      var front, last := valid[..|valid| - 1], valid[|valid| - 1];
      assert valid == front + [last];
      SumSnoc(reg, owners, front, last);
      CollectorSum(reg, owners, front, u);
      SumSnocAt(reg, owners, front, last, u);
      DataSnocAt(front, last, u);
      CompleteAt(reg, owners, last, u);
      CollectorStep(CollectorFields(reg, owners, u), owners[u], DataFor(front, u),
                    Get(SumOf(reg, owners, front).collectors, u), Get(CollectorsOf(last), u));
    }
  }

  lemma {:induction false} KnownUuids(reg: Registry, owners: Owners, valid: seq<Record>, u: string)
    requires AllComplete(reg, owners, valid)
    ensures u in Uuids(valid) <==> DataFor(valid, u) != []
    ensures u in Uuids(valid) ==> u in owners && owners[u] != "" && owners[u] in reg.collectors
    ensures u in SumOf(reg, owners, valid).collectors <==> u in Uuids(valid)
  {
    if valid != [] {
      var front, last := valid[..|valid| - 1], valid[|valid| - 1];
      assert valid == front + [last];
      SumSnoc(reg, owners, front, last);
      KnownUuids(reg, owners, front, u);
      UuidsAppend(front, last);
      DataForAppend(front, last, u);
    }
  }

  lemma CollectorsAreSum(reg: Registry, owners: Owners, valid: seq<Record>)
    requires AllComplete(reg, owners, valid)
    ensures MergeCollectors(reg, valid) == Restore(owners, SumOf(reg, owners, valid).collectors)
  {
    var merged, sum := MergeCollectors(reg, valid), Restore(owners, SumOf(reg, owners, valid).collectors);
    forall u ensures Get(merged, u) == Get(sum, u) {
      KnownUuids(reg, owners, valid, u);
      if u in Uuids(valid) {
        CollectorSum(reg, owners, valid, u);
      }
    }
    SameLookups(merged, sum);
  }

  /** On complete records the merge is the decoded sum; a single record passes
      through untouched. */
  lemma MergeResultsIsSum(reg: Registry, owners: Owners, results: seq<Option<Record>>)
    requires AllComplete(reg, owners, Valid(results))
    ensures MergeResults(reg, results) ==
      if |Valid(results)| == 1 then Some(Valid(results)[0])
      else Decode(owners, SumOf(reg, owners, Valid(results)))
  {
    var valid := Valid(results);
    if |valid| > 1 {
      assert Complete(reg, owners, valid[0]);
      assert reg.strategy.None? ==> valid[0].strategy == map[];
      StrategySum(reg, owners, valid);
      CollectorsAreSum(reg, owners, valid);
    }
  }

  // --------------------------------------------- sums that know their size

  /** Nothing, one record as it stands, or the sum of several. */
  datatype ResultSum = Zero | One(record: Record) | Many(canon: Canon)

  function Content(x: ResultSum): Canon {
    match x
    case Zero => NOTHING
    case One(r) => Encode(r)
    case Many(c) => c
  }

  function Join(reg: Registry, owners: Owners, x: ResultSum, y: ResultSum): ResultSum {
    if x.Zero? then y
    else if y.Zero? then x
    else Many(Plus(reg, owners, Content(x), Content(y)))
  }

  lemma JoinLaws(reg: Registry, owners: Owners, x: ResultSum, y: ResultSum, z: ResultSum)
    ensures Join(reg, owners, x, y) == Join(reg, owners, y, x)
    ensures Join(reg, owners, Join(reg, owners, x, y), z) == Join(reg, owners, x, Join(reg, owners, y, z))
  {
    PlusLaws(reg, owners, Content(x), Content(y), Content(z));
  }

  lemma JoinContent(reg: Registry, owners: Owners, x: ResultSum, y: ResultSum)
    ensures Content(Join(reg, owners, x, y)) == Plus(reg, owners, Content(x), Content(y))
  {
    PlusLaws(reg, owners, Content(x), Content(y), NOTHING);
    PlusLaws(reg, owners, Content(y), Content(x), NOTHING);
  }

  /** The record a sum stands for. */
  function ValueOf(owners: Owners, x: ResultSum): Option<Record> {
    match x
    case Zero => None
    case One(r) => Some(r)
    case Many(c) => Decode(owners, c)
  }

  function Lift(r: Option<Record>): ResultSum {
    if r.None? then Zero else One(r.value)
  }

  function SumResults(reg: Registry, owners: Owners, results: seq<Option<Record>>): ResultSum {
    if results == [] then Zero
    else Join(reg, owners, SumResults(reg, owners, results[..|results| - 1]), Lift(results[|results| - 1]))
  }

  lemma {:induction false} SumResultsForm(reg: Registry, owners: Owners, results: seq<Option<Record>>)
    ensures SumResults(reg, owners, results) ==
      if |Valid(results)| == 0 then Zero
      else if |Valid(results)| == 1 then One(Valid(results)[0])
      else Many(SumOf(reg, owners, Valid(results)))
    ensures Content(SumResults(reg, owners, results)) == SumOf(reg, owners, Valid(results))
  {
    if results != [] {
      var front, last := results[..|results| - 1], results[|results| - 1];
      assert results == front + [last];
      ValidAppend(front, last);
      SumResultsForm(reg, owners, front);
      JoinContent(reg, owners, SumResults(reg, owners, front), Lift(last));
      if last.Some? {
        SumSnoc(reg, owners, Valid(front), last.value);
        if Valid(front) == [] {
          PlusLaws(reg, owners, Encode(last.value), NOTHING, NOTHING);
        }
      } else {
        assert Valid(results) == Valid(front);
        PlusLaws(reg, owners, SumOf(reg, owners, Valid(front)), NOTHING, NOTHING);
      }
    }
  }

  lemma MergeIsValueOfSum(reg: Registry, owners: Owners, results: seq<Option<Record>>)
    requires AllComplete(reg, owners, Valid(results))
    ensures MergeResults(reg, results) == ValueOf(owners, SumResults(reg, owners, results))
  {
    SumResultsForm(reg, owners, results);
    MergeResultsIsSum(reg, owners, results);
  }

  // ----------------------------------------------- merging in two steps

  /** A record that says nothing. */
  predicate Blank(r: Record) { r.strategy == map[] && CollectorsOf(r) == map[] }

  /** A record the merge itself never returns: blank, or with an empty map of collectors.
      A check without collectors stores `{ collectors: {} }`. */
  predicate Odd(r: Record) { Blank(r) || r.collectors == Some(map[]) }

  lemma DecodedContent(owners: Owners, c: Canon)
    ensures Decode(owners, c).None? <==> c == NOTHING
    ensures Decode(owners, c).Some? ==> Encode(Decode(owners, c).value) == c && !Odd(Decode(owners, c).value)
  {
    var r := Restore(owners, c.collectors);
    assert r.Keys == c.collectors.Keys;
    assert r == map[] <==> c.collectors == map[] by {
      if c.collectors != map[] {
        var u :| u in c.collectors;
        assert u in r;
      }
    }
    if Decode(owners, c).Some? {
      SameLookups(Encode(Decode(owners, c).value).collectors, c.collectors);
    }
  }

  /** Decoding gives a complete record back unless it is odd. */
  lemma DecodeEncode(reg: Registry, owners: Owners, r: Record)
    requires Complete(reg, owners, r)
    ensures Decode(owners, Encode(r)) == Some(r) <==> !Odd(r)
  {
    DecodedContent(owners, Encode(r));
    var back := Restore(owners, Encode(r).collectors);
    forall u ensures Get(back, u) == Get(CollectorsOf(r), u) {
    }
    SameLookups(back, CollectorsOf(r));
  }

  /** `y` has the content of `x`, and is `x` when at most one record went into it. */
  ghost predicate Forgets(x: ResultSum, y: ResultSum) {
    && Content(x) == Content(y)
    && (x.Zero? ==> y.Zero?)
    && (x.One? ==> y == x)
  }

  lemma JoinForgets(reg: Registry, owners: Owners, x: ResultSum, y: ResultSum, u: ResultSum, v: ResultSum)
    requires Forgets(x, y) && Forgets(u, v)
    ensures Forgets(Join(reg, owners, x, u), Join(reg, owners, y, v))
  {
    JoinContent(reg, owners, x, u);
    JoinContent(reg, owners, y, v);
  }

  /** Merged records are complete again, so they can be merged further. */
  lemma SumComplete(reg: Registry, owners: Owners, valid: seq<Record>)
    requires AllComplete(reg, owners, valid)
    ensures var r := Decode(owners, SumOf(reg, owners, valid)); r.Some? ==> Complete(reg, owners, r.value)
  {
    var sum := SumOf(reg, owners, valid);
    if Decode(owners, sum).Some? {
      var r := Decode(owners, sum).value;
      StrategySum(reg, owners, valid);
      forall u | u in CollectorsOf(r)
        ensures && u in owners && owners[u] != "" && owners[u] in reg.collectors
                && CollectorsOf(r)[u].id == Some(owners[u])
                && CollectorsOf(r)[u].states.Keys == reg.collectors[owners[u]].Keys
      {
        assert u in Restore(owners, sum.collectors);
        KnownUuids(reg, owners, valid, u);
        CollectorSum(reg, owners, valid, u);
      }
    }
  }

  /** A merged result stands for the sum of what it was merged from, except that it no
      longer shows how many records that was. */
  lemma MergedForgets(reg: Registry, owners: Owners, results: seq<Option<Record>>)
    requires AllComplete(reg, owners, Valid(results))
    ensures Forgets(SumResults(reg, owners, results), Lift(MergeResults(reg, results)))
    ensures MergeResults(reg, results).Some? ==> Complete(reg, owners, MergeResults(reg, results).value)
  {
    SumResultsForm(reg, owners, results);
    MergeResultsIsSum(reg, owners, results);
    var valid := Valid(results);
    if |valid| == 1 {
      assert Complete(reg, owners, valid[0]);
    } else {
      SumComplete(reg, owners, valid);
      DecodedContent(owners, SumOf(reg, owners, valid));
    }
  }

  /** Forgetting shows in the value exactly when a single odd record is left of several. */
  lemma ForgottenValue(reg: Registry, owners: Owners, x: ResultSum, y: ResultSum)
    requires Forgets(x, y) && (y.One? ==> Complete(reg, owners, y.record))
    ensures ValueOf(owners, y) == ValueOf(owners, x) <==> !(x.Many? && y.One? && Odd(y.record))
  {
    DecodedContent(owners, Content(x));
    if y.One? {
      DecodeEncode(reg, owners, y.record);
    }
  }

  function Flatten(groups: seq<seq<Option<Record>>>): seq<Option<Record>> {
    if groups == [] then [] else Flatten(groups[..|groups| - 1]) + groups[|groups| - 1]
  }

  /** Each group merged on its own. */
  function MergeEach(reg: Registry, groups: seq<seq<Option<Record>>>): (r: seq<Option<Record>>)
    ensures |r| == |groups|
  {
    seq(|groups|, i requires 0 <= i < |groups| => MergeResults(reg, groups[i]))
  }

  ghost predicate CompleteGroups(reg: Registry, owners: Owners, groups: seq<seq<Option<Record>>>) {
    forall i | 0 <= i < |groups| :: AllComplete(reg, owners, Valid(groups[i]))
  }

  lemma {:induction false} ValidConcat(a: seq<Option<Record>>, b: seq<Option<Record>>)
    ensures Valid(a + b) == Valid(a) + Valid(b)
  {
    if a == [] {
      assert a + b == b;
    } else {
      assert (a + b)[1..] == a[1..] + b;
      ValidConcat(a[1..], b);
    }
  }

  lemma {:induction false} SumConcat(reg: Registry, owners: Owners, a: seq<Option<Record>>, b: seq<Option<Record>>)
    ensures SumResults(reg, owners, a + b) == Join(reg, owners, SumResults(reg, owners, a), SumResults(reg, owners, b))
    decreases |b|
  {
    if b == [] {
      assert a + b == a;
    } else {
      var front, last := b[..|b| - 1], b[|b| - 1];
      assert (a + b)[..|a + b| - 1] == a + front;
      SumConcat(reg, owners, a, front);
      JoinLaws(reg, owners, SumResults(reg, owners, a), SumResults(reg, owners, front), Lift(last));
    }
  }

  lemma {:induction false} GroupsForget(reg: Registry, owners: Owners, groups: seq<seq<Option<Record>>>)
    requires CompleteGroups(reg, owners, groups)
    ensures Forgets(SumResults(reg, owners, Flatten(groups)), SumResults(reg, owners, MergeEach(reg, groups)))
    ensures AllComplete(reg, owners, Valid(Flatten(groups))) && AllComplete(reg, owners, Valid(MergeEach(reg, groups)))
  {
    if groups != [] {
      var front, last := groups[..|groups| - 1], groups[|groups| - 1];
      assert AllComplete(reg, owners, Valid(last));
      GroupsForget(reg, owners, front);
      MergedForgets(reg, owners, last);
      SumConcat(reg, owners, Flatten(front), last);
      ValidConcat(Flatten(front), last);
      var each := MergeEach(reg, groups);
      assert each[..|each| - 1] == MergeEach(reg, front) && each == MergeEach(reg, front) + [MergeResults(reg, last)];
      ValidAppend(MergeEach(reg, front), MergeResults(reg, last));
      JoinForgets(reg, owners, SumResults(reg, owners, Flatten(front)), SumResults(reg, owners, MergeEach(reg, front)),
                  SumResults(reg, owners, last), Lift(MergeResults(reg, last)));
    }
  }

  /** A group of one record, and an odd one. */
  predicate Lone(g: seq<Option<Record>>) { |Valid(g)| == 1 && Odd(Valid(g)[0]) }

  /** A group that merges to nothing: no record, or several blank ones. */
  predicate Vanishes(g: seq<Option<Record>>) { |Valid(g)| != 1 && forall r <- Valid(g) :: Blank(r) }

  /** Of several records, a single odd one survives because every other group vanishes. */
  ghost predicate Spoilt(groups: seq<seq<Option<Record>>>) {
    && |Valid(Flatten(groups))| >= 2
    && exists i | 0 <= i < |groups| :: Lone(groups[i]) && forall j | 0 <= j < |groups| && j != i :: Vanishes(groups[j])
  }

  lemma {:induction false} BlankSum(reg: Registry, owners: Owners, valid: seq<Record>)
    ensures SumOf(reg, owners, valid) == NOTHING <==> forall r <- valid :: Blank(r)
  {
    if valid != [] {
      var front, last := valid[..|valid| - 1], valid[|valid| - 1];
      assert valid == front + [last];
      BlankSum(reg, owners, front);
      BlankEncode(last);
      PlusLaws(reg, owners, SumOf(reg, owners, front), Encode(last), NOTHING);
      if Encode(last) != NOTHING {
        NothingLost(reg, owners, SumOf(reg, owners, front), Encode(last));
      } else if SumOf(reg, owners, front) != NOTHING {
        NothingLost(reg, owners, NOTHING, SumOf(reg, owners, front));
      }
    }
  }

  lemma BlankEncode(r: Record)
    ensures Encode(r) == NOTHING <==> Blank(r)
  {
    assert Encode(r).collectors.Keys == CollectorsOf(r).Keys;
    assert CollectorsOf(r) == map[] <==> CollectorsOf(r).Keys == {};
  }

  lemma NothingLost(reg: Registry, owners: Owners, a: Canon, b: Canon)
    requires b != NOTHING
    ensures Plus(reg, owners, a, b) != NOTHING
  {
    var sum := Plus(reg, owners, a, b);
    if b.strategy != map[] {
      var k :| k in b.strategy;
      assert k in sum.strategy;
    } else {
      var u :| u in b.collectors;
      assert u in sum.collectors;
    }
  }

  /** What becomes of one group. */
  lemma GroupFate(reg: Registry, owners: Owners, g: seq<Option<Record>>)
    requires AllComplete(reg, owners, Valid(g))
    ensures MergeResults(reg, g).None? <==> Vanishes(g)
    ensures MergeResults(reg, g).Some? && Odd(MergeResults(reg, g).value) <==> Lone(g)
  {
    MergeResultsIsSum(reg, owners, g);
    BlankSum(reg, owners, Valid(g));
    DecodedContent(owners, SumOf(reg, owners, Valid(g)));
  }

  /** The one record of a list, and where it stands. */
  lemma {:induction false} OneValid(rs: seq<Option<Record>>)
    ensures Valid(rs) == [] <==> forall i | 0 <= i < |rs| :: rs[i].None?
    ensures |Valid(rs)| == 1 <==> exists i | 0 <= i < |rs| :: rs[i].Some? && forall j | 0 <= j < |rs| && j != i :: rs[j].None?
    ensures forall i | 0 <= i < |rs| && |Valid(rs)| == 1 && rs[i].Some? :: Valid(rs)[0] == rs[i].value
  {
    if rs != [] {
      OneValid(rs[1..]);
      var rest := rs[1..];
      assert forall i | 0 <= i < |rest| :: rest[i] == rs[i + 1];
      if rs[0].Some? {
        assert |Valid(rs)| == 1 <==> forall j | 0 < j < |rs| :: rs[j].None?;
      } else {
        if i :| 0 <= i < |rest| && rest[i].Some? && forall j | 0 <= j < |rest| && j != i :: rest[j].None? {
          assert rs[i + 1].Some? && forall j | 0 <= j < |rs| && j != i + 1 :: rs[j].None?;
        }
        if i :| 0 <= i < |rs| && rs[i].Some? && forall j | 0 <= j < |rs| && j != i :: rs[j].None? {
          assert rest[i - 1].Some? && forall j | 0 <= j < |rest| && j != i - 1 :: rest[j].None?;
        }
      }
    }
  }

  lemma SurvivorIsLone(reg: Registry, owners: Owners, groups: seq<seq<Option<Record>>>)
    requires CompleteGroups(reg, owners, groups)
    ensures var each := Valid(MergeEach(reg, groups));
      (|each| == 1 && Odd(each[0])) <==>
        exists i | 0 <= i < |groups| :: Lone(groups[i]) && forall j | 0 <= j < |groups| && j != i :: Vanishes(groups[j])
  {
    var each := MergeEach(reg, groups);
    OneValid(each);
    forall i | 0 <= i < |groups|
      ensures each[i].None? <==> Vanishes(groups[i])
      ensures each[i].Some? && Odd(each[i].value) <==> Lone(groups[i])
    {
      assert AllComplete(reg, owners, Valid(groups[i]));
      GroupFate(reg, owners, groups[i]);
    }
    if |Valid(each)| == 1 && Odd(Valid(each)[0]) {
      var i :| 0 <= i < |each| && each[i].Some? && forall j | 0 <= j < |each| && j != i :: each[j].None?;
      assert Lone(groups[i]);
    }
    if i :| 0 <= i < |groups| && Lone(groups[i]) && forall j | 0 <= j < |groups| && j != i :: Vanishes(groups[j]) {
      assert each[i].Some? && forall j | 0 <= j < |each| && j != i :: each[j].None?;
    }
  }

  /** Merging complete results group by group and then once more equals merging them all
      at once exactly when no odd record is left alone: of several records, one odd one in
      a group of its own while every other group merges to nothing. */
  lemma TwoStepsIff(reg: Registry, owners: Owners, groups: seq<seq<Option<Record>>>)
    requires CompleteGroups(reg, owners, groups)
    ensures MergeResults(reg, MergeEach(reg, groups)) == MergeResults(reg, Flatten(groups)) <==> !Spoilt(groups)
  {
    var all, each := Flatten(groups), MergeEach(reg, groups);
    GroupsForget(reg, owners, groups);
    SumResultsForm(reg, owners, all);
    SumResultsForm(reg, owners, each);
    MergeIsValueOfSum(reg, owners, all);
    MergeIsValueOfSum(reg, owners, each);
    if |Valid(each)| == 1 {
      assert Complete(reg, owners, Valid(each)[0]);
    }
    ForgottenValue(reg, owners, SumResults(reg, owners, all), SumResults(reg, owners, each));
    SurvivorIsLone(reg, owners, groups);
  }

  /** The real case: three results of a check without collectors. Two merged first give
      nothing, so the third survives; all three at once give nothing. */
  lemma EmptyResultsBreakRegrouping(reg: Registry)
    ensures var e := Some(Record(map[], Some(map[])));
      && MergeResults(reg, [MergeResults(reg, [e, e]), e]) == e
      && MergeResults(reg, [e, e, e]) == None
  {
    var e := Some(Record(map[], Some(map[])));
    var groups := [[e, e], [e]];
    assert Valid([e]) == [e.value] by { assert [e][1..] == []; }
    assert Valid([e, e]) == [e.value, e.value] by { assert [e, e][1..] == [e]; }
    assert Valid([e, e, e]) == [e.value, e.value, e.value] by { assert [e, e, e][1..] == [e, e]; }
    GroupFate(reg, map[], [e, e]);
    GroupFate(reg, map[], [e, e, e]);
    assert Vanishes([e, e]) && Vanishes([e, e, e]);
    var mixed: seq<Option<Record>> := [None, e];
    assert mixed[1..] == [e];
    assert Valid(mixed) == [e.value];
  }
}
