/** Aggregated results of a bucket: strategy fields plus one set of fields per
    collector, and how the results of several buckets become one. */
module AggregatedResults {
  import opened Sequences
  import opened FieldStates

  type States = map<string, State>
  type Fields = map<string, Kind>

  /** Data of one collector; `id` is its `_collectorId`. */
  datatype Collected = Collected(id: Option<string>, states: States)

  datatype Record = Record(strategy: States, collectors: Option<map<string, Collected>>)

  /** What the registries know: the fields of the strategy at hand, when it is
      registered with an aggregated result, and of each such collector. */
  datatype Registry = Registry(strategy: Option<Fields>, collectors: map<string, Fields>)

  // --------------------------------------------------- merging two records

  function MergeField(fields: Fields, a: States, b: States, k: string): State
    requires k in fields
  {
    if k in a && k in b then MergeStates(fields[k], a[k], b[k])
    else if k in a then a[k]
    else if k in b then b[k]
    else InitialState(fields[k])
  }

  function MergeFields(fields: Fields, a: States, b: States): States {
    map k | k in fields :: MergeField(fields, a, b, k)
  }

  /** `mergeAggregatedResults`, field by field. */
  method MergeAggregatedResults(fields: Fields, a: States, b: States) returns (result: States)
    ensures result == MergeFields(fields, a, b)
    ensures result.Keys == fields.Keys
    ensures forall k <- fields :: k in a && k in b ==> result[k] == MergeStates(fields[k], a[k], b[k])
    ensures forall k <- fields :: k in a && k !in b ==> result[k] == a[k]
    ensures forall k <- fields :: k !in a && k in b ==> result[k] == b[k]
    ensures forall k <- fields :: k !in a && k !in b ==> result[k] == InitialState(fields[k])
  {
    result := map[];
    var pending := fields.Keys;
    while pending != {}
      invariant pending <= fields.Keys && result.Keys == fields.Keys - pending
      invariant forall k <- result :: result[k] == MergeField(fields, a, b, k)
    {
      var k :| k in pending;
      if k in a && k in b {
        result := result[k := MergeStates(fields[k], a[k], b[k])];
      } else if k in a {
        result := result[k := a[k]];
      } else if k in b {
        result := result[k := b[k]];
      } else {
        result := result[k := InitialState(fields[k])];
      }
      pending := pending - {k};
    }
  }

  function FoldFields(fields: Fields, sets: seq<States>): States
    requires sets != []
  {
    if |sets| == 1 then sets[0]
    else MergeFields(fields, FoldFields(fields, sets[..|sets| - 1]), sets[|sets| - 1])
  }

  /** The running merge both loops of `mergeAggregatedBucketResults` keep. */
  method MergeAll(fields: Fields, sets: seq<States>) returns (merged: States)
    requires sets != []
    ensures merged == FoldFields(fields, sets)
    ensures |sets| >= 2 ==> merged.Keys == fields.Keys && forall k <- fields :: merged[k] == FieldOver(fields[k], sets, k)
  {
    merged := sets[0];
    for i := 1 to |sets|
      invariant merged == FoldFields(fields, sets[..i])
    {
      assert sets[..i + 1][..i] == sets[..i];
      merged := MergeAggregatedResults(fields, merged, sets[i]);
    }
    assert sets[..|sets|] == sets;
    if |sets| >= 2 {
      FoldedFields(fields, sets);
    }
  }

  // ---------------------------------------------- one field over many sets

  /** The states that the sets have for a field, in order. */
  function StatesFor(sets: seq<States>, k: string): seq<State> {
    if sets == [] then []
    else StatesFor(sets[..|sets| - 1], k) + if k in sets[|sets| - 1] then [sets[|sets| - 1][k]] else []
  }

  /** Merging states one by one into a first one. */
  function MergeInto(kind: Kind, first: State, rest: seq<State>): State {
    if rest == [] then first
    else MergeStates(kind, MergeInto(kind, first, rest[..|rest| - 1]), rest[|rest| - 1])
  }

  lemma MergeIntoSnoc(kind: Kind, first: State, rest: seq<State>, s: State)
    ensures MergeInto(kind, first, rest + [s]) == MergeStates(kind, MergeInto(kind, first, rest), s)
  {
    assert (rest + [s])[..|rest|] == rest;
  }

  /** States merged in order, from the first of them or from the initial state. */
  function MergeFrom(kind: Kind, fromFirst: bool, states: seq<State>): State {
    if fromFirst && states != [] then MergeInto(kind, states[0], states[1..])
    else MergeInto(kind, InitialState(kind), states)
  }

  lemma MergeFromSnoc(kind: Kind, fromFirst: bool, states: seq<State>, s: State)
    requires fromFirst ==> states != []
    ensures MergeFrom(kind, fromFirst, states + [s]) == MergeStates(kind, MergeFrom(kind, fromFirst, states), s)
  {
    if fromFirst {
      assert (states + [s])[1..] == states[1..] + [s];
      MergeIntoSnoc(kind, states[0], states[1..], s);
    } else {
      MergeIntoSnoc(kind, InitialState(kind), states, s);
    }
  }

  /** The states of one field merged in order. When neither of the first two sets has the field
      they start from the initial state, which for extremes is not neutral. */
  function FieldOver(kind: Kind, sets: seq<States>, k: string): State
    requires |sets| >= 2
  {
    MergeFrom(kind, k in sets[0] || k in sets[1], StatesFor(sets, k))
  }

  lemma FieldOfTwo(fields: Fields, sets: seq<States>, k: string)
    requires k in fields && |sets| == 2
    ensures FieldOver(fields[k], sets, k) == MergeField(fields, sets[0], sets[1], k)
  {
    assert sets[..1] == [sets[0]] && sets[..1][..0] == [] && StatesFor([], k) == [];
    var a, b := StatesFor(sets[..1], k), StatesFor(sets, k);
    assert a == [] + if k in sets[0] then [sets[0][k]] else [];
    if k in sets[0] && k in sets[1] {
      assert b == [sets[0][k]] + [sets[1][k]] && b[1..] == [] + [sets[1][k]];
      MergeIntoSnoc(fields[k], sets[0][k], [], sets[1][k]);
    } else if k in sets[0] {
      assert b == [sets[0][k]] + [] && b[1..] == [];
    } else if k in sets[1] {
      assert b == [] + [sets[1][k]] && b[1..] == [];
    } else {
      assert b == [] + [];
    }
  }

  lemma FieldStep(fields: Fields, sets: seq<States>, k: string)
    requires k in fields && |sets| > 2
    ensures var before, last := FieldOver(fields[k], sets[..|sets| - 1], k), sets[|sets| - 1];
      FieldOver(fields[k], sets, k) == if k in last then MergeStates(fields[k], before, last[k]) else before
  {
    var front, last, fromFirst := sets[..|sets| - 1], sets[|sets| - 1], k in sets[0] || k in sets[1];
    var states := StatesFor(front, k);
    assert states + [] == states;
    if fromFirst {
      FirstTwo(front, k);
    }
    if k in last {
      MergeFromSnoc(fields[k], fromFirst, states, last[k]);
    }
  }

  lemma {:induction false} FirstTwo(sets: seq<States>, k: string)
    requires |sets| >= 2 && (k in sets[0] || k in sets[1])
    ensures StatesFor(sets, k) != []
    decreases |sets|
  {
    if |sets| > 2 {
      FirstTwo(sets[..|sets| - 1], k);
    } else {
      assert sets[..1] == [sets[0]];
    }
  }

  /** Folding two or more sets gives exactly the registered fields, each one merged over the
      sets that have it. */
  lemma {:induction false} FoldedFields(fields: Fields, sets: seq<States>)
    requires |sets| >= 2
    ensures FoldFields(fields, sets).Keys == fields.Keys
    ensures forall k <- fields :: FoldFields(fields, sets)[k] == FieldOver(fields[k], sets, k)
    decreases |sets|
  {
    var n := |sets| - 1;
    if n == 1 {
      assert FoldFields(fields, sets[..1]) == sets[0];
      forall k | k in fields ensures FoldFields(fields, sets)[k] == FieldOver(fields[k], sets, k) {
        FieldOfTwo(fields, sets, k);
      }
    } else {
      FoldedFields(fields, sets[..n]);
      forall k | k in fields ensures FoldFields(fields, sets)[k] == FieldOver(fields[k], sets, k) {
        FieldStep(fields, sets, k);
      }
    }
  }

  // ------------------------------------------- merging the results of buckets

  function Valid(results: seq<Option<Record>>): seq<Record> {
    if results == [] then []
    else if results[0].None? then Valid(results[1..])
    else [results[0].value] + Valid(results[1..])
  }

  /** Strategy fields of the records that have any. */
  function StrategySets(valid: seq<Record>): seq<States> {
    if valid == [] then []
    else if valid[0].strategy == map[] then StrategySets(valid[1..])
    else [valid[0].strategy] + StrategySets(valid[1..])
  }

  function CollectorsOf(r: Record): map<string, Collected> {
    if r.collectors.Some? then r.collectors.value else map[]
  }

  function Uuids(valid: seq<Record>): set<string> {
    if valid == [] then {} else CollectorsOf(valid[0]).Keys + Uuids(valid[1..])
  }

  function DataFor(valid: seq<Record>, uuid: string): seq<Collected> {
    if valid == [] then []
    else if uuid in CollectorsOf(valid[0]) then [CollectorsOf(valid[0])[uuid]] + DataFor(valid[1..], uuid)
    else DataFor(valid[1..], uuid)
  }

  function FirstId(data: seq<Collected>): Option<string> {
    if data == [] then None
    else if data[0].id.Some? then data[0].id
    else FirstId(data[1..])
  }

  function StatesOf(data: seq<Collected>): (r: seq<States>)
    ensures |r| == |data|
  {
    seq(|data|, i requires 0 <= i < |data| => data[i].states)
  }

  function MergeCollector(reg: Registry, data: seq<Collected>): Option<Collected> {
    var id := FirstId(data);
    if id.None? || id.value == "" || data == [] then None
    else if id.value !in reg.collectors then Some(data[0])
    else Some(Collected(id, FoldFields(reg.collectors[id.value], StatesOf(data))))
  }

  function MergeStrategy(reg: Registry, valid: seq<Record>): States
    requires valid != []
  {
    if reg.strategy.None? then valid[0].strategy
    else
      var sets := StrategySets(valid);
      if sets == [] then map[] else FoldFields(reg.strategy.value, sets)
  }

  function MergeCollectors(reg: Registry, valid: seq<Record>): map<string, Collected> {
    map uuid | uuid in Uuids(valid) && MergeCollector(reg, DataFor(valid, uuid)).Some?
      :: MergeCollector(reg, DataFor(valid, uuid)).value
  }

  function ToResult(strategy: States, collectors: map<string, Collected>): Option<Record> {
    if strategy == map[] && collectors == map[] then None
    else Some(Record(strategy, if collectors == map[] then None else Some(collectors)))
  }

  /** What `mergeAggregatedBucketResults` returns. */
  function MergeResults(reg: Registry, results: seq<Option<Record>>): Option<Record> {
    var valid := Valid(results);
    if valid == [] then None
    else if |valid| == 1 then Some(valid[0])
    else ToResult(MergeStrategy(reg, valid), MergeCollectors(reg, valid))
  }

  lemma {:induction false} ValidAppend(a: seq<Option<Record>>, r: Option<Record>)
    ensures Valid(a + [r]) == Valid(a) + if r.Some? then [r.value] else []
  {
    if a != [] {
      assert (a + [r])[1..] == a[1..] + [r];
      ValidAppend(a[1..], r);
    }
  }

  lemma {:induction false} StrategySetsAppend(a: seq<Record>, r: Record)
    ensures StrategySets(a + [r]) == StrategySets(a) + if r.strategy != map[] then [r.strategy] else []
  {
    if a != [] {
      assert (a + [r])[1..] == a[1..] + [r];
      StrategySetsAppend(a[1..], r);
    }
  }

  lemma {:induction false} UuidsAppend(a: seq<Record>, r: Record)
    ensures Uuids(a + [r]) == Uuids(a) + CollectorsOf(r).Keys
  {
    if a != [] {
      assert (a + [r])[1..] == a[1..] + [r];
      UuidsAppend(a[1..], r);
    }
  }

  lemma {:induction false} DataForAppend(a: seq<Record>, r: Record, uuid: string)
    ensures DataFor(a + [r], uuid) ==
      DataFor(a, uuid) + if uuid in CollectorsOf(r) then [CollectorsOf(r)[uuid]] else []
  {
    if a != [] {
      assert (a + [r])[1..] == a[1..] + [r];
      DataForAppend(a[1..], r, uuid);
    }
  }

  lemma {:induction false} FirstIdAppend(a: seq<Collected>, d: Collected)
    ensures FirstId(a + [d]) == if FirstId(a).Some? then FirstId(a) else d.id
  {
    if a == [] {
      assert a + [d] == [d];
    } else {
      assert (a + [d])[1..] == a[1..] + [d];
      FirstIdAppend(a[1..], d);
    }
  }

  /** All data recorded for one collector instance, with the first id found. */
  method CollectData(valid: seq<Record>, uuid: string) returns (data: seq<Collected>, id: Option<string>)
    ensures data == DataFor(valid, uuid) && id == FirstId(data)
  {
    data, id := [], None;
    for i := 0 to |valid|
      invariant data == DataFor(valid[..i], uuid) && id == FirstId(data)
    {
      assert valid[..i + 1] == valid[..i] + [valid[i]];
      DataForAppend(valid[..i], valid[i], uuid);
      if uuid in CollectorsOf(valid[i]) {
        var d := CollectorsOf(valid[i])[uuid];
        FirstIdAppend(data, d);
        id := if id.Some? then id else d.id;
        data := data + [d];
      }
    }
    assert valid[..|valid|] == valid;
  }

  /** The data of one instance in the i-th record, if the record has any. */
  function DataAt(valid: seq<Record>, uuid: string, i: nat): Option<Collected>
    requires i < |valid|
  {
    if valid[i].collectors.Some? && uuid in valid[i].collectors.value then Some(valid[i].collectors.value[uuid]) else None
  }

  /** The i-th record is the first that knows which collector an instance belongs to. */
  ghost predicate FirstKnown(valid: seq<Record>, uuid: string, i: nat) {
    && i < |valid| && DataAt(valid, uuid, i).Some? && DataAt(valid, uuid, i).value.id.Some?
    && forall j | 0 <= j < i && DataAt(valid, uuid, j).Some? :: DataAt(valid, uuid, j).value.id.None?
  }

  /** The i-th record is the first that has data of an instance. */
  ghost predicate FirstData(valid: seq<Record>, uuid: string, i: nat) {
    i < |valid| && DataAt(valid, uuid, i).Some? && forall j | 0 <= j < i :: DataAt(valid, uuid, j).None?
  }

  lemma {:induction false} FirstIdIs(valid: seq<Record>, uuid: string, i: nat)
    requires FirstKnown(valid, uuid, i)
    ensures FirstId(DataFor(valid, uuid)) == DataAt(valid, uuid, i).value.id
  {
    if i > 0 {
      var rest := valid[1..];
      assert forall j | 0 <= j < |rest| :: DataAt(rest, uuid, j) == DataAt(valid, uuid, j + 1);
      FirstIdIs(rest, uuid, i - 1);
      assert DataAt(valid, uuid, 0).Some? ==> DataAt(valid, uuid, 0).value.id.None?;
    }
  }

  lemma {:induction false} NoIdKnown(valid: seq<Record>, uuid: string)
    requires forall i | 0 <= i < |valid| && DataAt(valid, uuid, i).Some? :: DataAt(valid, uuid, i).value.id.None?
    ensures FirstId(DataFor(valid, uuid)) == None
  {
    if valid != [] {
      var rest := valid[1..];
      assert forall j | 0 <= j < |rest| :: DataAt(rest, uuid, j) == DataAt(valid, uuid, j + 1);
      NoIdKnown(rest, uuid);
      assert DataAt(valid, uuid, 0).Some? ==> DataAt(valid, uuid, 0).value.id.None?;
    }
  }

  lemma {:induction false} FirstDataIs(valid: seq<Record>, uuid: string, i: nat)
    requires FirstData(valid, uuid, i)
    ensures DataFor(valid, uuid) != [] && DataFor(valid, uuid)[0] == DataAt(valid, uuid, i).value
  {
    if i > 0 {
      var rest := valid[1..];
      assert forall j | 0 <= j < |rest| :: DataAt(rest, uuid, j) == DataAt(valid, uuid, j + 1);
      FirstDataIs(rest, uuid, i - 1);
      assert DataAt(valid, uuid, 0).None?;
    }
  }

  lemma {:induction false} HasUuid(valid: seq<Record>, uuid: string, i: nat)
    requires i < |valid| && DataAt(valid, uuid, i).Some?
    ensures uuid in Uuids(valid) && DataFor(valid, uuid) != []
  {
    if i > 0 {
      assert DataAt(valid[1..], uuid, i - 1) == DataAt(valid, uuid, i);
      HasUuid(valid[1..], uuid, i - 1);
    }
  }

  /** An instance whose collector some record names stays, unless the name is empty: as in its
      first record when that collector is not registered, else with its fields merged. */
  lemma NamedCollector(reg: Registry, valid: seq<Record>, uuid: string, named: nat, first: nat)
    requires FirstKnown(valid, uuid, named) && FirstData(valid, uuid, first)
    ensures var id, merged := DataAt(valid, uuid, named).value.id.value, MergeCollectors(reg, valid);
      && (uuid in merged <==> id != "")
      && (id != "" && id !in reg.collectors ==> merged[uuid] == DataAt(valid, uuid, first).value)
      && (id != "" && id in reg.collectors ==>
           merged[uuid] == Collected(Some(id), FoldFields(reg.collectors[id], StatesOf(DataFor(valid, uuid)))))
  {
    FirstIdIs(valid, uuid, named);
    FirstDataIs(valid, uuid, first);
    HasUuid(valid, uuid, first);
  }

  /** An instance whose collector no record names goes. */
  lemma NamelessCollector(reg: Registry, valid: seq<Record>, uuid: string)
    requires forall i | 0 <= i < |valid| && DataAt(valid, uuid, i).Some? :: DataAt(valid, uuid, i).value.id.None?
    ensures uuid !in MergeCollectors(reg, valid)
  {
    NoIdKnown(valid, uuid);
  }

  function HasStrategy(): Record -> bool { (r: Record) => r.strategy != map[] }

  function Strategies(records: seq<Record>): seq<States> {
    seq(|records|, i requires 0 <= i < |records| => records[i].strategy)
  }

  lemma {:induction false} SetsAreFiltered(valid: seq<Record>)
    ensures StrategySets(valid) == Strategies(Filter(HasStrategy(), valid))
  {
    if valid != [] {
      SetsAreFiltered(valid[1..]);
    }
  }

  /** The strategy fields of several records: without a registration those of the first; else of
      the records that have any, none, the only ones, or each registered field over all of them. */
  ghost predicate StrategyMerged(reg: Registry, valid: seq<Record>, merged: States)
    requires valid != []
  {
    var own := Filter(HasStrategy(), valid);
    if reg.strategy.None? then merged == valid[0].strategy
    else if own == [] then merged == map[]
    else if |own| == 1 then merged == own[0].strategy
    else
      && merged.Keys == reg.strategy.value.Keys
      && forall k <- merged :: merged[k] == FieldOver(reg.strategy.value[k], Strategies(own), k)
  }

  lemma StrategyIsMerged(reg: Registry, valid: seq<Record>)
    requires valid != []
    ensures StrategyMerged(reg, valid, MergeStrategy(reg, valid))
  {
    SetsAreFiltered(valid);
    var sets := StrategySets(valid);
    if reg.strategy.Some? && |sets| >= 2 {
      FoldedFields(reg.strategy.value, sets);
    }
  }

  method MergeStrategyFields(reg: Registry, valid: seq<Record>) returns (merged: States)
    requires valid != []
    ensures merged == MergeStrategy(reg, valid)
    ensures StrategyMerged(reg, valid, merged)
  {
    StrategyIsMerged(reg, valid);
    if reg.strategy.Some? {
      var sets := [];
      for i := 0 to |valid|
        invariant sets == StrategySets(valid[..i])
      {
        assert valid[..i + 1] == valid[..i] + [valid[i]];
        StrategySetsAppend(valid[..i], valid[i]);
        if valid[i].strategy != map[] {
          sets := sets + [valid[i].strategy];
        }
      }
      assert valid[..|valid|] == valid;
      merged := map[];
      if sets != [] {
        merged := MergeAll(reg.strategy.value, sets);
      }
    } else {
      merged := valid[0].strategy;
    }
  }

  method MergeCollectorFields(reg: Registry, valid: seq<Record>) returns (merged: map<string, Collected>)
    ensures merged == MergeCollectors(reg, valid)
  {
    var uuids := {};
    for i := 0 to |valid|
      invariant uuids == Uuids(valid[..i])
    {
      assert valid[..i + 1] == valid[..i] + [valid[i]];
      UuidsAppend(valid[..i], valid[i]);
      uuids := uuids + CollectorsOf(valid[i]).Keys;
    }
    assert valid[..|valid|] == valid;
    merged := map[];
    var pending := uuids;
    while pending != {}
      invariant pending <= uuids
      invariant forall u :: u in merged <==> u in uuids - pending && MergeCollector(reg, DataFor(valid, u)).Some?
      invariant forall u <- merged :: merged[u] == MergeCollector(reg, DataFor(valid, u)).value
    {
      var uuid :| uuid in pending;
      pending := pending - {uuid};
      var data, id := CollectData(valid, uuid);
      if id.None? || id.value == "" || data == [] {
        continue;
      }
      if id.value !in reg.collectors {
        merged := merged[uuid := data[0]];
        continue;
      }
      var states := MergeAll(reg.collectors[id.value], StatesOf(data));
      merged := merged[uuid := Collected(id, states)];
    }
  }

  function IsThere(): Option<Record> -> bool { (r: Option<Record>) => r.Some? }

  lemma {:induction false} ValidAreThere(results: seq<Option<Record>>)
    ensures var there := Filter(IsThere(), results);
      |Valid(results)| == |there| && forall i | 0 <= i < |there| :: there[i] == Some(Valid(results)[i])
  {
    if results != [] {
      ValidAreThere(results[1..]);
    }
  }

  method MergeAggregatedBucketResults(reg: Registry, results: seq<Option<Record>>) returns (r: Option<Record>)
    ensures r == MergeResults(reg, results)
    ensures var there := Filter(IsThere(), results);
      && (there == [] ==> r == None)
      && (|there| == 1 ==> r == there[0])
      && (|there| > 1 && r.Some? ==> StrategyMerged(reg, Valid(results), r.value.strategy) && r.value.collectors != Some(map[]))
  {
    ValidAreThere(results);
    if |Valid(results)| > 1 {
      StrategyIsMerged(reg, Valid(results));
    }
    var valid := [];
    for i := 0 to |results|
      invariant valid == Valid(results[..i])
    {
      assert results[..i + 1] == results[..i] + [results[i]];
      ValidAppend(results[..i], results[i]);
      if results[i].Some? {
        valid := valid + [results[i].value];
      }
    }
    assert results[..|results|] == results;
    if |valid| == 0 {
      return None;
    }
    if |valid| == 1 {
      return Some(valid[0]);
    }
    var strategy := MergeStrategyFields(reg, valid);
    var collectors := MergeCollectorFields(reg, valid);
    if collectors == map[] && strategy == map[] {
      return None;
    }
    return Some(Record(strategy, if collectors == map[] then None else Some(collectors)));
  }
}
