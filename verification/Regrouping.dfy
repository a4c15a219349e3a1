/** Regrouping buckets into target intervals aligned to the start of the query
    range, and why doing it in two steps or in one makes no difference. */
module Regrouping {
  import opened Sequences
  import opened AggregatedResults
  import opened ResultSums
  import opened Buckets

  type Interval = i: int | i > 0 witness 1

  /** `Math.floor(offset / interval)`; the division rounds down, also below zero. */
  function SlotOf(rangeStart: int, interval: Interval, time: int): int {
    (time - rangeStart) / interval
  }

  function SlotStart(rangeStart: int, interval: Interval, slot: int): int {
    rangeStart + slot * interval
  }

  lemma SlotBounds(rangeStart: int, interval: Interval, time: int)
    ensures var s := SlotStart(rangeStart, interval, SlotOf(rangeStart, interval, time)); s <= time < s + interval
  {
  }

  lemma MultiplesApart(interval: Interval, i: int, j: int)
    requires i < j
    ensures i * interval + interval <= j * interval
  {
    assert (j - i - 1) * interval >= 0;
    assert j * interval == i * interval + interval + (j - i - 1) * interval;
  }

  /** A time lies in exactly one slot. */
  lemma SlotUnique(rangeStart: int, interval: Interval, time: int, slot: int)
    requires SlotStart(rangeStart, interval, slot) <= time < SlotStart(rangeStart, interval, slot) + interval
    ensures SlotOf(rangeStart, interval, time) == slot
  {
    var s := SlotOf(rangeStart, interval, time);
    SlotBounds(rangeStart, interval, time);
    if s < slot {
      MultiplesApart(interval, s, slot);
    } else if slot < s {
      MultiplesApart(interval, slot, s);
    }
  }

  lemma SlotOfStart(rangeStart: int, interval: Interval, slot: int)
    ensures SlotOf(rangeStart, interval, SlotStart(rangeStart, interval, slot)) == slot
  {
    SlotUnique(rangeStart, interval, SlotStart(rangeStart, interval, slot), slot);
  }

  lemma SlotStartsIncrease(rangeStart: int, interval: Interval, i: int, j: int)
    requires i < j
    ensures SlotStart(rangeStart, interval, i) + interval <= SlotStart(rangeStart, interval, j)
  {
    MultiplesApart(interval, i, j);
  }

  /** The query: range and target interval. */
  datatype Query = Query(rangeStart: int, rangeEnd: int, interval: Interval)

  function Slot(q: Query, b: Bucket): int { SlotOf(q.rangeStart, q.interval, b.start) }

  function InSlot(q: Query, slot: int): Bucket -> bool {
    b => Slot(q, b) == slot
  }

  function Group(q: Query, src: seq<Bucket>, slot: int): seq<Bucket> {
    Filter(InSlot(q, slot), src)
  }

  function MaxInt(a: int, b: int): int { if a >= b then a else b }

  function TargetEnd(q: Query, slot: int, last: int): int {
    var e := SlotStart(q.rangeStart, q.interval, slot) + q.interval;
    if slot == last then MaxInt(e, q.rangeEnd) else e
  }

  function Target(reg: Registry, q: Query, src: seq<Bucket>, slot: int, last: int): Bucket {
    Combine(reg, Group(q, src, slot), SlotStart(q.rangeStart, q.interval, slot), TargetEnd(q, slot, last))
  }

  /** The non-empty slots among `n` slots from `lo` on, in order. */
  function Slots(reg: Registry, q: Query, src: seq<Bucket>, lo: int, n: nat, last: int): seq<Bucket> {
    if n == 0 then []
    else
      Slots(reg, q, src, lo, n - 1, last) + SlotBucket(reg, q, src, lo + n - 1, last)
  }

  /** The target bucket of a slot, if any source bucket lies in it. */
  function SlotBucket(reg: Registry, q: Query, src: seq<Bucket>, slot: int, last: int): seq<Bucket> {
    if Group(q, src, slot) == [] then [] else [Target(reg, q, src, slot, last)]
  }

  function SlotList(q: Query, src: seq<Bucket>): (r: seq<int>)
    ensures |r| == |src|
  {
    seq(|src|, i requires 0 <= i < |src| => Slot(q, src[i]))
  }

  function FirstSlot(q: Query, src: seq<Bucket>): int {
    var m := ListMin(SlotList(q, src));
    if m.Some? then m.value else 0
  }

  function LastSlot(q: Query, src: seq<Bucket>): int {
    var m := ListMax(SlotList(q, src));
    if m.Some? then m.value else 0
  }

  function SlotCount(q: Query, src: seq<Bucket>): nat {
    var n := LastSlot(q, src) - FirstSlot(q, src) + 1;
    if n >= 0 then n else 0
  }

  lemma SlotExtent(q: Query, src: seq<Bucket>)
    requires src != []
    ensures forall b <- src :: FirstSlot(q, src) <= Slot(q, b) <= LastSlot(q, src)
    ensures exists b <- src :: Slot(q, b) == FirstSlot(q, src)
    ensures exists b <- src :: Slot(q, b) == LastSlot(q, src)
    ensures SlotCount(q, src) == LastSlot(q, src) - FirstSlot(q, src) + 1
  {
    var l := SlotList(q, src);
    ListMinIsLeast(l);
    ListMaxIsGreatest(l);
    forall b | b in src ensures FirstSlot(q, src) <= Slot(q, b) <= LastSlot(q, src) {
      var i :| 0 <= i < |src| && src[i] == b;
      assert l[i] == Slot(q, b);
    }
    var i :| 0 <= i < |l| && l[i] == FirstSlot(q, src);
    assert src[i] in src && Slot(q, src[i]) == FirstSlot(q, src);
    var j :| 0 <= j < |l| && l[j] == LastSlot(q, src);
    assert src[j] in src && Slot(q, src[j]) == LastSlot(q, src);
  }

  /** What `reaggregateBuckets` returns. */
  function Reaggregate(reg: Registry, q: Query, src: seq<Bucket>): seq<Bucket> {
    if src == [] then []
    else Slots(reg, q, src, FirstSlot(q, src), SlotCount(q, src), LastSlot(q, src))
  }

  lemma ReaggregateForm(reg: Registry, q: Query, src: seq<Bucket>, lo: int, n: nat, last: int)
    requires src != [] && lo == FirstSlot(q, src) && n == SlotCount(q, src) && last == LastSlot(q, src)
    ensures Reaggregate(reg, q, src) == Slots(reg, q, src, lo, n, last)
  {
  }

  // ------------------------------------------------------ shape of the output

  lemma SlotsLast(reg: Registry, q: Query, src: seq<Bucket>, lo: int, n: nat, last: int)
    requires n > 0
    ensures Slots(reg, q, src, lo, n, last) ==
      Slots(reg, q, src, lo, n - 1, last) + SlotBucket(reg, q, src, lo + n - 1, last)
  {
  }

  lemma {:induction false} SlotOfMember(reg: Registry, q: Query, src: seq<Bucket>, lo: int, n: nat, last: int, t: Bucket)
    returns (i: int)
    requires t in Slots(reg, q, src, lo, n, last)
    ensures lo <= i < lo + n && Group(q, src, i) != [] && t == Target(reg, q, src, i, last)
    decreases n
  {
    var before := Slots(reg, q, src, lo, n - 1, last);
    SlotsLast(reg, q, src, lo, n, last);
    if t in before {
      i := SlotOfMember(reg, q, src, lo, n - 1, last, t);
    } else {
      i := lo + n - 1;
    }
  }

  lemma {:induction false} MemberOfSlot(reg: Registry, q: Query, src: seq<Bucket>, lo: int, n: nat, last: int, i: int)
    requires lo <= i < lo + n && Group(q, src, i) != []
    ensures Target(reg, q, src, i, last) in Slots(reg, q, src, lo, n, last)
    decreases n
  {
    SlotsLast(reg, q, src, lo, n, last);
    if i < lo + n - 1 {
      MemberOfSlot(reg, q, src, lo, n - 1, last, i);
    } else {
      assert Target(reg, q, src, i, last) in SlotBucket(reg, q, src, i, last);
    }
  }

  lemma SlotsMembers(reg: Registry, q: Query, src: seq<Bucket>, lo: int, n: nat, last: int)
    ensures forall t <- Slots(reg, q, src, lo, n, last) ::
      exists i | lo <= i < lo + n :: Group(q, src, i) != [] && t == Target(reg, q, src, i, last)
    ensures forall i | lo <= i < lo + n && Group(q, src, i) != [] ::
      Target(reg, q, src, i, last) in Slots(reg, q, src, lo, n, last)
  {
    forall t | t in Slots(reg, q, src, lo, n, last)
      ensures exists i | lo <= i < lo + n :: Group(q, src, i) != [] && t == Target(reg, q, src, i, last)
    {
      var i := SlotOfMember(reg, q, src, lo, n, last, t);
    }
    forall i | lo <= i < lo + n && Group(q, src, i) != []
      ensures Target(reg, q, src, i, last) in Slots(reg, q, src, lo, n, last)
    {
      MemberOfSlot(reg, q, src, lo, n, last, i);
    }
  }

  /** Slots before `k` end by the time slot `k` starts. */
  lemma {:induction false} SlotsBelow(reg: Registry, q: Query, src: seq<Bucket>, lo: int, n: nat, last: int, k: int)
    requires lo + n <= k <= last
    ensures Before(Slots(reg, q, src, lo, n, last), SlotStart(q.rangeStart, q.interval, k))
  {
    if n > 0 {
      SlotsBelow(reg, q, src, lo, n - 1, last, k);
      BelowStep(reg, q, src, lo, n, last, k);
    }
  }

  lemma BelowStep(reg: Registry, q: Query, src: seq<Bucket>, lo: int, n: nat, last: int, k: int)
    requires n > 0 && lo + n <= k <= last
    requires Before(Slots(reg, q, src, lo, n - 1, last), SlotStart(q.rangeStart, q.interval, k))
    ensures Before(Slots(reg, q, src, lo, n, last), SlotStart(q.rangeStart, q.interval, k))
  {
    SlotBucketBelow(reg, q, src, lo + n - 1, last, k);
    SlotsLast(reg, q, src, lo, n, last);
    BeforeAppend(Slots(reg, q, src, lo, n - 1, last), SlotBucket(reg, q, src, lo + n - 1, last),
                 SlotStart(q.rangeStart, q.interval, k));
  }

  /** All buckets lie before a time. */
  ghost predicate Before(bs: seq<Bucket>, time: int) {
    forall t <- bs :: t.start < time && t.end <= time
  }

  lemma BeforeAppend(a: seq<Bucket>, b: seq<Bucket>, time: int)
    requires Before(a, time) && Before(b, time)
    ensures Before(a + b, time)
  {
  }

  lemma SlotBucketBelow(reg: Registry, q: Query, src: seq<Bucket>, slot: int, last: int, k: int)
    requires slot < k <= last
    ensures Before(SlotBucket(reg, q, src, slot, last), SlotStart(q.rangeStart, q.interval, k))
  {
    SlotStartsIncrease(q.rangeStart, q.interval, slot, k);
  }

  ghost predicate Apart(out: seq<Bucket>) {
    forall i, j | 0 <= i < j < |out| :: out[i].start < out[j].start && out[i].end <= out[j].start
  }

  lemma ApartSnoc(before: seq<Bucket>, b: Bucket)
    requires Apart(before) && Before(before, b.start)
    ensures Apart(before + [b])
  {
    var out := before + [b];
    forall i, j | 0 <= i < j < |out| ensures out[i].start < out[j].start && out[i].end <= out[j].start {
      assert out[i] == before[i];
    }
  }

  /** Starts strictly increase and intervals do not overlap, the stretched last one included. */
  lemma {:induction false} SlotsApart(reg: Registry, q: Query, src: seq<Bucket>, lo: int, n: nat, last: int)
    requires lo + n <= last + 1
    ensures ApartUpTo(reg, q, src, last, lo, n)
  {
    if n > 0 {
      SlotsApart(reg, q, src, lo, n - 1, last);
      ApartStep(reg, q, src, lo, n, last);
    }
  }

  ghost predicate ApartUpTo(reg: Registry, q: Query, src: seq<Bucket>, last: int, lo: int, n: nat) {
    Apart(Slots(reg, q, src, lo, n, last))
  }

  lemma ApartStep(reg: Registry, q: Query, src: seq<Bucket>, lo: int, n: nat, last: int)
    requires n > 0 && lo + n <= last + 1 && ApartUpTo(reg, q, src, last, lo, n - 1)
    ensures ApartUpTo(reg, q, src, last, lo, n)
  {
    SlotsBelow(reg, q, src, lo, n - 1, last, lo + n - 1);
    SlotsLast(reg, q, src, lo, n, last);
    ApartAppend(Slots(reg, q, src, lo, n - 1, last), SlotBucket(reg, q, src, lo + n - 1, last),
                SlotStart(q.rangeStart, q.interval, lo + n - 1));
  }

  lemma ApartAppend(before: seq<Bucket>, own: seq<Bucket>, start: int)
    requires Apart(before) && Before(before, start) && |own| <= 1 && (own != [] ==> own[0].start == start)
    ensures Apart(before + own)
  {
    if own == [] {
      assert before + own == before;
    } else {
      assert own == [own[0]];
      ApartSnoc(before, own[0]);
    }
  }

  function StartKey(): Bucket -> int { (b: Bucket) => b.start }

  // ---------------------------------------------------- totals of the output

  /** Target buckets whose slot satisfies `cond`. */
  function SlotWhere(q: Query, cond: int -> bool): Bucket -> bool {
    b => cond(Slot(q, b))
  }

  /** Source buckets in the scanned slots whose slot satisfies `cond`. */
  function Scanned(q: Query, lo: int, n: nat, cond: int -> bool): Bucket -> bool {
    b => lo <= Slot(q, b) < lo + n && cond(Slot(q, b))
  }

  function ChosenSlots(reg: Registry, q: Query, src: seq<Bucket>, lo: int, n: nat, last: int, cond: int -> bool)
    : seq<Bucket>
  {
    Filter(SlotWhere(q, cond), Slots(reg, q, src, lo, n, last))
  }

  function ChosenSource(q: Query, src: seq<Bucket>, lo: int, n: nat, cond: int -> bool): seq<Bucket> {
    Filter(Scanned(q, lo, n, cond), src)
  }

  lemma ChosenSlotsStep(reg: Registry, q: Query, src: seq<Bucket>, lo: int, n: nat, last: int, cond: int -> bool)
    requires n > 0
    ensures ChosenSlots(reg, q, src, lo, n, last, cond) ==
      ChosenSlots(reg, q, src, lo, n - 1, last, cond) +
      if Group(q, src, lo + n - 1) != [] && cond(lo + n - 1) then [Target(reg, q, src, lo + n - 1, last)] else []
  {
    var slot := lo + n - 1;
    var t := Target(reg, q, src, slot, last);
    SlotOfStart(q.rangeStart, q.interval, slot);
    assert Slot(q, t) == slot;
    FilterAppend(SlotWhere(q, cond), Slots(reg, q, src, lo, n - 1, last), if Group(q, src, slot) == [] then [] else [t]);
    assert SlotWhere(q, cond)(t) == cond(slot);
  }

  lemma ChosenSourceStep(reg: Registry, owners: Owners, q: Query, src: seq<Bucket>, lo: int, n: nat, cond: int -> bool)
    requires n > 0
    ensures TotalOf(reg, owners, ChosenSource(q, src, lo, n, cond)) ==
      if cond(lo + n - 1) then
        AddTotals(reg, owners, TotalOf(reg, owners, ChosenSource(q, src, lo, n - 1, cond)),
                  TotalOf(reg, owners, Group(q, src, lo + n - 1)))
      else TotalOf(reg, owners, ChosenSource(q, src, lo, n - 1, cond))
  {
    var slot := lo + n - 1;
    if cond(slot) {
      ScannedSplits(q, src, lo, n, cond);
      SplitTotal(reg, owners, src, Scanned(q, lo, n - 1, cond), InSlot(q, slot), Scanned(q, lo, n, cond));
    } else {
      FilterSame(Scanned(q, lo, n, cond), Scanned(q, lo, n - 1, cond), src);
    }
  }

  lemma ScannedSplits(q: Query, src: seq<Bucket>, lo: int, n: nat, cond: int -> bool)
    requires n > 0 && cond(lo + n - 1)
    ensures forall b <- src :: !(Scanned(q, lo, n - 1, cond)(b) && InSlot(q, lo + n - 1)(b))
    ensures forall b <- src :: Scanned(q, lo, n, cond)(b) <==> Scanned(q, lo, n - 1, cond)(b) || InSlot(q, lo + n - 1)(b)
  {
  }

  lemma SplitTotal(reg: Registry, owners: Owners, src: seq<Bucket>, p: Bucket -> bool, q: Bucket -> bool, both: Bucket -> bool)
    requires forall b <- src :: !(p(b) && q(b)) && (both(b) <==> p(b) || q(b))
    ensures TotalOf(reg, owners, Filter(both, src)) ==
      AddTotals(reg, owners, TotalOf(reg, owners, Filter(p, src)), TotalOf(reg, owners, Filter(q, src)))
  {
    AdderIsMonoid(reg, owners);
    FoldSplit(Adder(reg, owners), NO_TOTAL, Weight, src, p, q, both);
  }

  lemma TotalSnoc(reg: Registry, owners: Owners, before: seq<Bucket>, t: Bucket)
    ensures TotalOf(reg, owners, before + [t]) == AddTotals(reg, owners, TotalOf(reg, owners, before), Weight(t))
  {
    assert (before + [t])[..|before|] == before;
  }

  /** Adding a target bucket on one side and its group on the other keeps the numbers equal. */
  lemma StepStats(reg: Registry, owners: Owners, before: seq<Bucket>, t: Bucket, source: Total, group: Total)
    requires TotalOf(reg, owners, before).stats == source.stats && Weight(t).stats == group.stats
    ensures TotalOf(reg, owners, before + [t]).stats == AddTotals(reg, owners, source, group).stats
  {
    TotalSnoc(reg, owners, before, t);
  }

  lemma AddNothing(reg: Registry, owners: Owners, x: Total)
    ensures AddTotals(reg, owners, x, NO_TOTAL) == x
  {
    AdderIsMonoid(reg, owners);
    assert LawsAt(Adder(reg, owners), NO_TOTAL, x, NO_TOTAL, NO_TOTAL);
  }

  lemma TargetWeighs(reg: Registry, owners: Owners, q: Query, src: seq<Bucket>, slot: int, last: int)
    ensures Weight(Target(reg, q, src, slot, last)).stats == TotalOf(reg, owners, Group(q, src, slot)).stats
  {
    CombinedWeighs(reg, owners, Group(q, src, slot), SlotStart(q.rangeStart, q.interval, slot), TargetEnd(q, slot, last));
  }

  /** The slot adds nothing on either side. */
  predicate Skipped(q: Query, src: seq<Bucket>, slot: int, cond: int -> bool) {
    !cond(slot) || Group(q, src, slot) == []
  }

  lemma SkipStep(reg: Registry, owners: Owners, q: Query, src: seq<Bucket>, lo: int, n: nat, last: int, cond: int -> bool)
    requires n > 0 && Skipped(q, src, lo + n - 1, cond)
    ensures ChosenSlots(reg, q, src, lo, n, last, cond) == ChosenSlots(reg, q, src, lo, n - 1, last, cond)
    ensures TotalOf(reg, owners, ChosenSource(q, src, lo, n, cond))
         == TotalOf(reg, owners, ChosenSource(q, src, lo, n - 1, cond))
  {
    ChosenSlotsStep(reg, q, src, lo, n, last, cond);
    var before := ChosenSlots(reg, q, src, lo, n - 1, last, cond);
    assert before + [] == before;
    ChosenSourceStep(reg, owners, q, src, lo, n, cond);
    AddNothing(reg, owners, TotalOf(reg, owners, ChosenSource(q, src, lo, n - 1, cond)));
  }

  lemma TakeStep(reg: Registry, owners: Owners, q: Query, src: seq<Bucket>, lo: int, n: nat, last: int, cond: int -> bool)
    returns (t: Bucket, group: Total)
    requires n > 0 && !Skipped(q, src, lo + n - 1, cond)
    ensures ChosenSlots(reg, q, src, lo, n, last, cond) == ChosenSlots(reg, q, src, lo, n - 1, last, cond) + [t]
    ensures TotalOf(reg, owners, ChosenSource(q, src, lo, n, cond))
         == AddTotals(reg, owners, TotalOf(reg, owners, ChosenSource(q, src, lo, n - 1, cond)), group)
    ensures Weight(t).stats == group.stats
  {
    t, group := Target(reg, q, src, lo + n - 1, last), TotalOf(reg, owners, Group(q, src, lo + n - 1));
    ChosenSlotsStep(reg, q, src, lo, n, last, cond);
    ChosenSourceStep(reg, owners, q, src, lo, n, cond);
    TargetWeighs(reg, owners, q, src, lo + n - 1, last);
  }

  lemma NothingChosen(reg: Registry, q: Query, src: seq<Bucket>, lo: int, last: int, cond: int -> bool)
    ensures ChosenSlots(reg, q, src, lo, 0, last, cond) == [] && ChosenSource(q, src, lo, 0, cond) == []
  {
    FilterNone(Scanned(q, lo, 0, cond), src);
  }

  lemma {:induction false} ChosenStats(reg: Registry, owners: Owners, q: Query, src: seq<Bucket>,
                                       lo: int, n: nat, last: int, cond: int -> bool)
    ensures TotalOf(reg, owners, ChosenSlots(reg, q, src, lo, n, last, cond)).stats
         == TotalOf(reg, owners, ChosenSource(q, src, lo, n, cond)).stats
    decreases n
  {
    if n == 0 {
      NothingChosen(reg, q, src, lo, last, cond);
    } else {
      ChosenStats(reg, owners, q, src, lo, n - 1, last, cond);
      ChosenStatsStep(reg, owners, q, src, lo, n, last, cond);
    }
  }

  lemma ChosenStatsStep(reg: Registry, owners: Owners, q: Query, src: seq<Bucket>, lo: int, n: nat, last: int, cond: int -> bool)
    requires n > 0
    requires TotalOf(reg, owners, ChosenSlots(reg, q, src, lo, n - 1, last, cond)).stats
          == TotalOf(reg, owners, ChosenSource(q, src, lo, n - 1, cond)).stats
    ensures TotalOf(reg, owners, ChosenSlots(reg, q, src, lo, n, last, cond)).stats
         == TotalOf(reg, owners, ChosenSource(q, src, lo, n, cond)).stats
  {
    if Skipped(q, src, lo + n - 1, cond) {
      SkipStep(reg, owners, q, src, lo, n, last, cond);
    } else {
      var t, group := TakeStep(reg, owners, q, src, lo, n, last, cond);
      StepStats(reg, owners, ChosenSlots(reg, q, src, lo, n - 1, last, cond), t,
                TotalOf(reg, owners, ChosenSource(q, src, lo, n - 1, cond)), group);
    }
  }

  // ---------------------------------------------------- results of the output

  /** The results of the chosen slots' groups, slot by slot. */
  function SlotGroups(q: Query, src: seq<Bucket>, lo: int, n: nat, cond: int -> bool): seq<seq<Option<Record>>>
    decreases n
  {
    if n == 0 then []
    else if Skipped(q, src, lo + n - 1, cond) then SlotGroups(q, src, lo, n - 1, cond)
    else SlotGroups(q, src, lo, n - 1, cond) + [ResultsOf(Group(q, src, lo + n - 1))]
  }

  lemma ResultsSnoc(bs: seq<Bucket>, b: Bucket)
    ensures ResultsOf(bs + [b]) == ResultsOf(bs) + [b.result]
  {
  }

  lemma MergeEachSnoc(reg: Registry, groups: seq<seq<Option<Record>>>, g: seq<Option<Record>>)
    ensures MergeEach(reg, groups + [g]) == MergeEach(reg, groups) + [MergeResults(reg, g)]
    ensures Flatten(groups + [g]) == Flatten(groups) + g
  {
    assert (groups + [g])[..|groups|] == groups;
  }

  lemma SlotGroupsTake(q: Query, src: seq<Bucket>, lo: int, n: nat, cond: int -> bool)
    requires n > 0 && !Skipped(q, src, lo + n - 1, cond)
    ensures SlotGroups(q, src, lo, n, cond) == SlotGroups(q, src, lo, n - 1, cond) + [ResultsOf(Group(q, src, lo + n - 1))]
  {
  }

  lemma SlotGroupsSkip(q: Query, src: seq<Bucket>, lo: int, n: nat, cond: int -> bool)
    requires n > 0 && Skipped(q, src, lo + n - 1, cond)
    ensures SlotGroups(q, src, lo, n, cond) == SlotGroups(q, src, lo, n - 1, cond)
  {
  }

  /** The chosen target buckets carry their groups' results, each group merged. */
  lemma {:induction false} ChosenResults(reg: Registry, q: Query, src: seq<Bucket>, lo: int, n: nat, last: int, cond: int -> bool)
    ensures TargetsCarry(reg, q, src, last, cond, lo, n)
    decreases n
  {
    if n == 0 {
      NothingChosen(reg, q, src, lo, last, cond);
    } else {
      ChosenResults(reg, q, src, lo, n - 1, last, cond);
      if Skipped(q, src, lo + n - 1, cond) {
        ChosenResultsSkip(reg, q, src, lo, n, last, cond);
      } else {
        ChosenResultsTake(reg, q, src, lo, n, last, cond);
      }
    }
  }

  ghost predicate TargetsCarry(reg: Registry, q: Query, src: seq<Bucket>, last: int, cond: int -> bool, lo: int, n: nat) {
    ResultsOf(ChosenSlots(reg, q, src, lo, n, last, cond)) == MergeEach(reg, SlotGroups(q, src, lo, n, cond))
  }

  lemma ChosenResultsSkip(reg: Registry, q: Query, src: seq<Bucket>, lo: int, n: nat, last: int, cond: int -> bool)
    requires n > 0 && Skipped(q, src, lo + n - 1, cond) && TargetsCarry(reg, q, src, last, cond, lo, n - 1)
    ensures TargetsCarry(reg, q, src, last, cond, lo, n)
  {
    SkipStep(reg, map[], q, src, lo, n, last, cond);
    SlotGroupsSkip(q, src, lo, n, cond);
  }

  lemma ChosenResultsTake(reg: Registry, q: Query, src: seq<Bucket>, lo: int, n: nat, last: int, cond: int -> bool)
    requires n > 0 && !Skipped(q, src, lo + n - 1, cond) && TargetsCarry(reg, q, src, last, cond, lo, n - 1)
    ensures TargetsCarry(reg, q, src, last, cond, lo, n)
  {
    var slot := lo + n - 1;
    SlotGroupsTake(q, src, lo, n, cond);
    ChosenSlotsStep(reg, q, src, lo, n, last, cond);
    ResultsSnoc(ChosenSlots(reg, q, src, lo, n - 1, last, cond), Target(reg, q, src, slot, last));
    MergeEachSnoc(reg, SlotGroups(q, src, lo, n - 1, cond), ResultsOf(Group(q, src, slot)));
  }

  /** The chosen source buckets add up to their groups' results, all taken together. */
  lemma {:induction false} ChosenSourceResults(reg: Registry, owners: Owners, q: Query, src: seq<Bucket>,
                                               lo: int, n: nat, cond: int -> bool)
    ensures SourceAddsUp(reg, owners, q, src, cond, lo, n)
    decreases n
  {
    if n == 0 {
      FilterNone(Scanned(q, lo, 0, cond), src);
    } else {
      ChosenSourceResults(reg, owners, q, src, lo, n - 1, cond);
      if Skipped(q, src, lo + n - 1, cond) {
        SourceSkip(reg, owners, q, src, lo, n, cond);
      } else {
        SourceTake(reg, owners, q, src, lo, n, cond);
      }
    }
  }

  ghost predicate SourceAddsUp(reg: Registry, owners: Owners, q: Query, src: seq<Bucket>, cond: int -> bool, lo: int, n: nat) {
    TotalOf(reg, owners, ChosenSource(q, src, lo, n, cond)).results
      == SumResults(reg, owners, Flatten(SlotGroups(q, src, lo, n, cond)))
  }

  lemma SourceSkip(reg: Registry, owners: Owners, q: Query, src: seq<Bucket>, lo: int, n: nat, cond: int -> bool)
    requires n > 0 && Skipped(q, src, lo + n - 1, cond) && SourceAddsUp(reg, owners, q, src, cond, lo, n - 1)
    ensures SourceAddsUp(reg, owners, q, src, cond, lo, n)
  {
    SkipStep(reg, owners, q, src, lo, n, 0, cond);
    SlotGroupsSkip(q, src, lo, n, cond);
  }

  lemma SourceTake(reg: Registry, owners: Owners, q: Query, src: seq<Bucket>, lo: int, n: nat, cond: int -> bool)
    requires n > 0 && !Skipped(q, src, lo + n - 1, cond) && SourceAddsUp(reg, owners, q, src, cond, lo, n - 1)
    ensures SourceAddsUp(reg, owners, q, src, cond, lo, n)
  {
    SlotGroupsTake(q, src, lo, n, cond);
    ChosenSourceStep(reg, owners, q, src, lo, n, cond);
    AddGroup(reg, owners, SlotGroups(q, src, lo, n - 1, cond), Group(q, src, lo + n - 1));
  }

  lemma AddGroup(reg: Registry, owners: Owners, groups: seq<seq<Option<Record>>>, g: seq<Bucket>)
    ensures Join(reg, owners, SumResults(reg, owners, Flatten(groups)), TotalOf(reg, owners, g).results)
         == SumResults(reg, owners, Flatten(groups + [ResultsOf(g)]))
  {
    TotalParts(reg, owners, g);
    assert (groups + [ResultsOf(g)])[..|groups|] == groups;
    SumConcat(reg, owners, Flatten(groups), ResultsOf(g));
  }

  lemma {:induction false} SlotGroupsComplete(reg: Registry, owners: Owners, q: Query, src: seq<Bucket>,
                                              lo: int, n: nat, cond: int -> bool)
    requires CompleteBuckets(reg, owners, src)
    ensures CompleteGroups(reg, owners, SlotGroups(q, src, lo, n, cond))
    decreases n
  {
    if n > 0 {
      SlotGroupsComplete(reg, owners, q, src, lo, n - 1, cond);
      GroupComplete(reg, owners, q, src, lo + n - 1);
      CompleteResults(reg, owners, Group(q, src, lo + n - 1));
    }
  }

  lemma GroupComplete(reg: Registry, owners: Owners, q: Query, src: seq<Bucket>, slot: int)
    requires CompleteBuckets(reg, owners, src)
    ensures CompleteBuckets(reg, owners, Group(q, src, slot))
  {
    var g := Group(q, src, slot);
    forall i | 0 <= i < |g| && g[i].result.Some? ensures Complete(reg, owners, g[i].result.value) {
      assert g[i] in src;
    }
  }

  // ------------------------------------------------- what regrouping keeps

  function Always(): int -> bool { (i: int) => true }

  lemma ScannedAll(q: Query, src: seq<Bucket>)
    requires src != []
    ensures var lo, last := FirstSlot(q, src), LastSlot(q, src);
      lo <= last && ChosenSource(q, src, lo, SlotCount(q, src), Always()) == src
  {
    SlotExtent(q, src);
    var lo, last := FirstSlot(q, src), LastSlot(q, src);
    assert lo <= Slot(q, src[0]) <= last;
    FilterAll(Scanned(q, lo, SlotCount(q, src), Always()), src);
  }

  /** Run, status and latency totals, the extremes, the largest p95 and the
      lowest tier are the same before and after. */
  lemma ReaggregateConserves(reg: Registry, q: Query, src: seq<Bucket>)
    ensures StatsOf(Reaggregate(reg, q, src)) == StatsOf(src)
  {
    if src != [] {
      ScannedAll(q, src);
      var lo, last := FirstSlot(q, src), LastSlot(q, src);
      var out := Slots(reg, q, src, lo, SlotCount(q, src), last);
      FilterAll(SlotWhere(q, Always()), out);
      ChosenStats(reg, map[], q, src, lo, SlotCount(q, src), last, Always());
      TotalParts(reg, map[], out);
      TotalParts(reg, map[], src);
    }
  }

  /** The output is strictly increasing, its intervals are disjoint. */
  lemma ReaggregateApart(reg: Registry, q: Query, src: seq<Bucket>)
    ensures Apart(Reaggregate(reg, q, src))
  {
    if src != [] {
      ScannedAll(q, src);
      SlotsApart(reg, q, src, FirstSlot(q, src), SlotCount(q, src), LastSlot(q, src));
    }
  }

  lemma ReaggregateMembers(reg: Registry, q: Query, src: seq<Bucket>)
    requires src != []
    ensures forall t <- Reaggregate(reg, q, src) ::
      exists i :: Group(q, src, i) != [] && t == Target(reg, q, src, i, LastSlot(q, src))
    ensures forall b <- src :: Target(reg, q, src, Slot(q, b), LastSlot(q, src)) in Reaggregate(reg, q, src)
  {
    SlotExtent(q, src);
    ScannedAll(q, src);
    SlotsMembers(reg, q, src, FirstSlot(q, src), SlotCount(q, src), LastSlot(q, src));
    forall b | b in src ensures Group(q, src, Slot(q, b)) != [] {
      FilterKeeps(InSlot(q, Slot(q, b)), src, b);
    }
  }

  /** Every source bucket starts inside the target bucket it was put into; the
      bucket of the last slot reaches the range end. */
  lemma PlacedIn(reg: Registry, q: Query, src: seq<Bucket>, b: Bucket) returns (t: Bucket)
    requires b in src
    ensures t in Reaggregate(reg, q, src) && t.start <= b.start < t.start + q.interval <= t.end
    ensures Slot(q, t) == Slot(q, b)
    ensures Slot(q, b) == LastSlot(q, src) ==> t.end >= q.rangeEnd
  {
    ReaggregateMembers(reg, q, src);
    t := Target(reg, q, src, Slot(q, b), LastSlot(q, src));
    SlotBounds(q.rangeStart, q.interval, b.start);
    SlotOfStart(q.rangeStart, q.interval, Slot(q, b));
  }

  /** Every target bucket got at least one source bucket. */
  lemma FilledBy(reg: Registry, q: Query, src: seq<Bucket>, t: Bucket) returns (b: Bucket)
    requires t in Reaggregate(reg, q, src)
    ensures b in src && t.start <= b.start < t.start + q.interval && Slot(q, t) == Slot(q, b)
  {
    ReaggregateMembers(reg, q, src);
    var i :| Group(q, src, i) != [] && t == Target(reg, q, src, i, LastSlot(q, src));
    b := Group(q, src, i)[0];
    assert b in Group(q, src, i);
    SlotBounds(q.rangeStart, q.interval, b.start);
    SlotOfStart(q.rangeStart, q.interval, i);
  }

  /** Source buckets that start in an interval. */
  function StartsIn(start: int, interval: int): Bucket -> bool { (b: Bucket) => start <= b.start < start + interval }

  /** A bucket of the answer: aligned to the range start, one interval long unless nothing
      starts after it, and describing exactly the source buckets that start in it, with their
      results merged. */
  ghost predicate Answers(reg: Registry, q: Query, src: seq<Bucket>, t: Bucket) {
    && (exists s: int :: t.start == q.rangeStart + s * q.interval)
    && t.end == (if (exists b <- src :: b.start >= t.start + q.interval) || q.rangeEnd < t.start + q.interval
                 then t.start + q.interval else q.rangeEnd)
    && (exists b <- src :: t.start <= b.start < t.start + q.interval)
    && var own := Filter(StartsIn(t.start, q.interval), src);
       Describes(t.stats, own) && t.result == MergeResults(reg, ResultsOf(own))
  }

  lemma SlotIsInterval(q: Query, src: seq<Bucket>, s: int)
    ensures Group(q, src, s) == Filter(StartsIn(SlotStart(q.rangeStart, q.interval, s), q.interval), src)
  {
    var start := SlotStart(q.rangeStart, q.interval, s);
    forall b | b in src ensures InSlot(q, s)(b) == StartsIn(start, q.interval)(b) {
      SlotBounds(q.rangeStart, q.interval, b.start);
      if StartsIn(start, q.interval)(b) {
        SlotUnique(q.rangeStart, q.interval, b.start, s);
      }
    }
    FilterSame(InSlot(q, s), StartsIn(start, q.interval), src);
  }

  lemma LastSlotIff(q: Query, src: seq<Bucket>, s: int)
    requires Group(q, src, s) != []
    ensures s == LastSlot(q, src) <==> !exists b <- src :: b.start >= SlotStart(q.rangeStart, q.interval, s) + q.interval
  {
    GroupSlotInRange(q, src, s);
    SlotExtent(q, src);
    var start := SlotStart(q.rangeStart, q.interval, s);
    if s < LastSlot(q, src) {
      var b :| b in src && Slot(q, b) == LastSlot(q, src);
      SlotBounds(q.rangeStart, q.interval, b.start);
      MultiplesApart(q.interval, s, LastSlot(q, src));
      assert b.start >= start + q.interval;
    } else {
      forall b | b in src ensures b.start < start + q.interval {
        SlotBounds(q.rangeStart, q.interval, b.start);
        if Slot(q, b) < s {
          MultiplesApart(q.interval, Slot(q, b), s);
        }
      }
    }
  }

  /** Every bucket of the output is such an answer. */
  lemma OutputAnswers(reg: Registry, q: Query, src: seq<Bucket>, t: Bucket)
    requires t in Reaggregate(reg, q, src)
    ensures Answers(reg, q, src, t)
  {
    var s := SlotOfOutput(reg, q, src, t);
    SlotIsInterval(q, src, s);
    LastSlotIff(q, src, s);
    StatsDescribe(Group(q, src, s));
    assert t.start == q.rangeStart + s * q.interval;
    var b := Group(q, src, s)[0];
    assert b in Group(q, src, s) && StartsIn(t.start, q.interval)(b);
  }

  // ------------------------------------------------------- regrouping twice

  function Coarse(q: Query, k: Interval): Query {
    assert q.interval * k > 0;
    Query(q.rangeStart, q.rangeEnd, q.interval * k)
  }

  lemma CoarseSlot(q: Query, k: Interval, b: Bucket)
    ensures Slot(Coarse(q, k), b) == Slot(q, b) / k
  {
    var s := Slot(q, b);
    var j := s / k;
    SlotBounds(q.rangeStart, q.interval, b.start);
    assert j * k <= s < j * k + k;
    assert j * (q.interval * k) == (j * k) * q.interval;
    assert (j * k) * q.interval <= s * q.interval;
    assert (s + 1) * q.interval <= (j * k + k) * q.interval;
    assert (s + 1) * q.interval == s * q.interval + q.interval;
    assert (j * k + k) * q.interval == (j * k) * q.interval + q.interval * k;
    SlotUnique(q.rangeStart, Coarse(q, k).interval, b.start, j);
  }

  /** Fine slots that make up the coarse slot `j`. */
  function PartOf(k: Interval, j: int): int -> bool { (i: int) => i / k == j }

  lemma CoarseGroups(reg: Registry, q: Query, k: Interval, src: seq<Bucket>, j: int)
    requires src != []
    ensures var lo, last := FirstSlot(q, src), LastSlot(q, src);
      && lo <= last
      && Group(Coarse(q, k), Reaggregate(reg, q, src), j) == ChosenSlots(reg, q, src, lo, SlotCount(q, src), last, PartOf(k, j))
      && Group(Coarse(q, k), src, j) == ChosenSource(q, src, lo, SlotCount(q, src), PartOf(k, j))
  {
    ScannedAll(q, src);
    SlotExtent(q, src);
    var lo, last := FirstSlot(q, src), LastSlot(q, src);
    var fine := Reaggregate(reg, q, src);
    forall t | t in fine ensures InSlot(Coarse(q, k), j)(t) == SlotWhere(q, PartOf(k, j))(t) {
      CoarseSlot(q, k, t);
    }
    FilterSame(InSlot(Coarse(q, k), j), SlotWhere(q, PartOf(k, j)), fine);
    forall b | b in src ensures InSlot(Coarse(q, k), j)(b) == Scanned(q, lo, SlotCount(q, src), PartOf(k, j))(b) {
      CoarseSlot(q, k, b);
    }
    FilterSame(InSlot(Coarse(q, k), j), Scanned(q, lo, SlotCount(q, src), PartOf(k, j)), src);
  }

  /** Slots that `a` occupies, `b` occupies too. */
  ghost predicate Occupies(q: Query, b: seq<Bucket>, a: seq<Bucket>) {
    forall x <- a :: exists y <- b :: Slot(q, y) == Slot(q, x)
  }

  lemma FineCovered(reg: Registry, q: Query, k: Interval, src: seq<Bucket>)
    ensures Occupies(Coarse(q, k), src, Reaggregate(reg, q, src))
  {
    forall t | t in Reaggregate(reg, q, src) ensures exists b <- src :: Slot(Coarse(q, k), b) == Slot(Coarse(q, k), t) {
      var b := FilledBy(reg, q, src, t);
      CoarseSlot(q, k, b);
      CoarseSlot(q, k, t);
    }
  }

  lemma FineOccupies(reg: Registry, q: Query, k: Interval, src: seq<Bucket>)
    ensures Occupies(Coarse(q, k), Reaggregate(reg, q, src), src)
  {
    var fine := Reaggregate(reg, q, src);
    forall b | b in src ensures exists t <- fine :: Slot(Coarse(q, k), t) == Slot(Coarse(q, k), b) {
      var t := PlacedIn(reg, q, src, b);
      CoarseSlot(q, k, b);
      CoarseSlot(q, k, t);
    }
  }

  lemma CoversOccupied(q: Query, b: seq<Bucket>, a: seq<Bucket>, j: int)
    requires Occupies(q, b, a) && Group(q, a, j) != []
    ensures Group(q, b, j) != []
  {
    var x := Group(q, a, j)[0];
    assert x in Group(q, a, j) && x in a;
    var y :| y in b && Slot(q, y) == Slot(q, x);
    FilterKeeps(InSlot(q, j), b, y);
  }

  lemma CoversRange(q: Query, b: seq<Bucket>, a: seq<Bucket>)
    requires a != [] && b != [] && Occupies(q, b, a)
    ensures FirstSlot(q, b) <= FirstSlot(q, a) && LastSlot(q, a) <= LastSlot(q, b)
  {
    SlotExtent(q, a);
    SlotExtent(q, b);
    var x :| x in a && Slot(q, x) == FirstSlot(q, a);
    var y :| y in b && Slot(q, y) == Slot(q, x);
    var z :| z in a && Slot(q, z) == LastSlot(q, a);
    var w :| w in b && Slot(q, w) == Slot(q, z);
  }

  /** Both lists have the same empty slots. */
  ghost predicate SameOccupied(q: Query, a: seq<Bucket>, b: seq<Bucket>) {
    forall j :: Group(q, a, j) == [] <==> Group(q, b, j) == []
  }

  lemma CoversBothWays(q: Query, a: seq<Bucket>, b: seq<Bucket>)
    requires Occupies(q, b, a) && Occupies(q, a, b)
    ensures SameOccupied(q, a, b)
    ensures a != [] && b != [] ==> FirstSlot(q, a) == FirstSlot(q, b) && LastSlot(q, a) == LastSlot(q, b)
  {
    forall j ensures Group(q, a, j) == [] <==> Group(q, b, j) == [] {
      if Group(q, a, j) != [] {
        CoversOccupied(q, b, a, j);
      } else if Group(q, b, j) != [] {
        CoversOccupied(q, a, b, j);
      }
    }
    if a != [] && b != [] {
      CoversRange(q, b, a);
      CoversRange(q, a, b);
    }
  }

  lemma NonEmpty(reg: Registry, q: Query, src: seq<Bucket>)
    requires src != []
    ensures Reaggregate(reg, q, src) != []
  {
    var t := PlacedIn(reg, q, src, src[0]);
  }

  lemma FineOccupied(reg: Registry, q: Query, k: Interval, src: seq<Bucket>)
    requires src != []
    ensures var fine, c := Reaggregate(reg, q, src), Coarse(q, k);
      && fine != [] && SameOccupied(c, fine, src)
      && FirstSlot(c, fine) == FirstSlot(c, src) && LastSlot(c, fine) == LastSlot(c, src)
  {
    NonEmpty(reg, q, src);
    FineCovered(reg, q, k, src);
    FineOccupies(reg, q, k, src);
    CoversBothWays(Coarse(q, k), Reaggregate(reg, q, src), src);
  }

  /** Buckets equal up to the merged result. */
  ghost predicate SameNumbers(a: Bucket, b: Bucket) {
    a.start == b.start && a.end == b.end && a.stats == b.stats
  }

  ghost predicate AllSameNumbers(a: seq<Bucket>, b: seq<Bucket>) {
    |a| == |b| && forall i | 0 <= i < |a| :: SameNumbers(a[i], b[i])
  }

  lemma CoarseTargetNumbers(reg: Registry, q: Query, k: Interval, src: seq<Bucket>, j: int, last: int)
    requires src != []
    ensures SameNumbers(Target(reg, Coarse(q, k), Reaggregate(reg, q, src), j, last), Target(reg, Coarse(q, k), src, j, last))
  {
    CoarseGroups(reg, q, k, src, j);
    var lo, hi := FirstSlot(q, src), LastSlot(q, src);
    ChosenStats(reg, map[], q, src, lo, SlotCount(q, src), hi, PartOf(k, j));
    TotalParts(reg, map[], Group(Coarse(q, k), Reaggregate(reg, q, src), j));
    TotalParts(reg, map[], Group(Coarse(q, k), src, j));
  }

  /** The results of the coarse slot `j`, grouped by fine slot, in slot order. */
  function FineGroups(q: Query, k: Interval, src: seq<Bucket>, j: int): seq<seq<Option<Record>>> {
    SlotGroups(q, src, FirstSlot(q, src), SlotCount(q, src), PartOf(k, j))
  }

  /** The coarse bucket is the same in two steps and in one exactly when its slot is not spoilt. */
  lemma CoarseTargetsIff(reg: Registry, owners: Owners, q: Query, k: Interval, src: seq<Bucket>, j: int, last: int)
    requires src != [] && CompleteBuckets(reg, owners, src)
    ensures Target(reg, Coarse(q, k), Reaggregate(reg, q, src), j, last) == Target(reg, Coarse(q, k), src, j, last)
      <==> !Spoilt(FineGroups(q, k, src, j))
  {
    CoarseTargetNumbers(reg, q, k, src, j, last);
    CoarseResultsIff(reg, owners, q, k, src, j);
  }

  lemma CoarseResultsIff(reg: Registry, owners: Owners, q: Query, k: Interval, src: seq<Bucket>, j: int)
    requires src != [] && CompleteBuckets(reg, owners, src)
    ensures MergeResults(reg, ResultsOf(Group(Coarse(q, k), Reaggregate(reg, q, src), j)))
         == MergeResults(reg, ResultsOf(Group(Coarse(q, k), src, j)))
      <==> !Spoilt(FineGroups(q, k, src, j))
  {
    var lo, hi, n, groups := FirstSlot(q, src), LastSlot(q, src), SlotCount(q, src), FineGroups(q, k, src, j);
    CoarseGroups(reg, q, k, src, j);
    ChosenResults(reg, q, src, lo, n, hi, PartOf(k, j));
    SlotGroupsComplete(reg, owners, q, src, lo, n, PartOf(k, j));
    TwoStepsIff(reg, owners, groups);
    ChosenSourceResults(reg, owners, q, src, lo, n, PartOf(k, j));
    GroupComplete(reg, owners, Coarse(q, k), src, j);
    AtOnce(reg, owners, Group(Coarse(q, k), src, j), groups);
  }

  /** Results that add up alike merge alike, whatever their order. */
  lemma AtOnce(reg: Registry, owners: Owners, g: seq<Bucket>, groups: seq<seq<Option<Record>>>)
    requires TotalOf(reg, owners, g).results == SumResults(reg, owners, Flatten(groups))
    requires CompleteGroups(reg, owners, groups) && CompleteBuckets(reg, owners, g)
    ensures MergeResults(reg, ResultsOf(g)) == MergeResults(reg, Flatten(groups))
  {
    TotalParts(reg, owners, g);
    CompleteResults(reg, owners, g);
    MergeIsValueOfSum(reg, owners, ResultsOf(g));
    GroupsForget(reg, owners, groups);
    MergeIsValueOfSum(reg, owners, Flatten(groups));
  }

  lemma {:induction false} SlotsPairwise(reg: Registry, q: Query, a: seq<Bucket>, b: seq<Bucket>, lo: int, n: nat, last: int)
    requires SameOccupied(q, a, b)
    requires forall j :: SameNumbers(Target(reg, q, a, j, last), Target(reg, q, b, j, last))
    ensures AllSameNumbers(Slots(reg, q, a, lo, n, last), Slots(reg, q, b, lo, n, last))
    decreases n
  {
    if n > 0 {
      SlotsPairwise(reg, q, a, b, lo, n - 1, last);
      assert Group(q, a, lo + n - 1) == [] <==> Group(q, b, lo + n - 1) == [];
      assert SameNumbers(Target(reg, q, a, lo + n - 1, last), Target(reg, q, b, lo + n - 1, last));
    }
  }

  lemma {:induction false} SlotsEqual(reg: Registry, q: Query, a: seq<Bucket>, b: seq<Bucket>, lo: int, n: nat, last: int)
    requires SameOccupied(q, a, b)
    requires forall j :: Target(reg, q, a, j, last) == Target(reg, q, b, j, last)
    ensures Slots(reg, q, a, lo, n, last) == Slots(reg, q, b, lo, n, last)
    decreases n
  {
    if n > 0 {
      SlotsEqual(reg, q, a, b, lo, n - 1, last);
      assert Group(q, a, lo + n - 1) == [] <==> Group(q, b, lo + n - 1) == [];
      assert Target(reg, q, a, lo + n - 1, last) == Target(reg, q, b, lo + n - 1, last);
    }
  }

  /** Regrouping to an interval and then to a multiple of it gives the buckets of
      regrouping to the multiple at once: starts, ends, counts, latencies, p95, tier. */
  lemma RegroupingComposes(reg: Registry, q: Query, k: Interval, src: seq<Bucket>)
    ensures AllSameNumbers(Reaggregate(reg, Coarse(q, k), Reaggregate(reg, q, src)), Reaggregate(reg, Coarse(q, k), src))
  {
    if src != [] {
      var c, last := Coarse(q, k), LastSlot(Coarse(q, k), src);
      FineOccupied(reg, q, k, src);
      forall j ensures SameNumbers(Target(reg, c, Reaggregate(reg, q, src), j, last), Target(reg, c, src, j, last)) {
        CoarseTargetNumbers(reg, q, k, src, j, last);
      }
      SlotsPairwise(reg, c, Reaggregate(reg, q, src), src, FirstSlot(c, src), SlotCount(c, src), last);
    }
  }

  lemma EqualStartsEqual(out: seq<Bucket>, a: Bucket, b: Bucket)
    requires Apart(out) && a in out && b in out && a.start == b.start
    ensures a == b
  {
    var i :| 0 <= i < |out| && out[i] == a;
    var j :| 0 <= j < |out| && out[j] == b;
    if i < j {
      assert out[i].start < out[j].start;
    } else if j < i {
      assert out[j].start < out[i].start;
    }
  }

  lemma TargetPresent(reg: Registry, q: Query, src: seq<Bucket>, j: int)
    requires Group(q, src, j) != []
    ensures Target(reg, q, src, j, LastSlot(q, src)) in Reaggregate(reg, q, src)
  {
    var b := Group(q, src, j)[0];
    assert b in Group(q, src, j) && b in src;
    ReaggregateMembers(reg, q, src);
  }

  lemma {:induction false} UnoccupiedGroups(q: Query, k: Interval, src: seq<Bucket>, lo: int, n: nat, j: int)
    requires Group(Coarse(q, k), src, j) == []
    ensures SlotGroups(q, src, lo, n, PartOf(k, j)) == []
    decreases n
  {
    if n > 0 {
      UnoccupiedGroups(q, k, src, lo, n - 1, j);
      var slot := lo + n - 1;
      if Group(q, src, slot) != [] && PartOf(k, j)(slot) {
        var b := Group(q, src, slot)[0];
        assert b in Group(q, src, slot) && b in src;
        CoarseSlot(q, k, b);
        FilterKeeps(InSlot(Coarse(q, k), j), src, b);
        assert false;
      }
    }
  }

  lemma EqualTargetsIfEqual(reg: Registry, q: Query, k: Interval, src: seq<Bucket>, j: int)
    requires src != [] && Group(Coarse(q, k), src, j) != []
    requires Reaggregate(reg, Coarse(q, k), Reaggregate(reg, q, src)) == Reaggregate(reg, Coarse(q, k), src)
    ensures var last := LastSlot(Coarse(q, k), src);
      Target(reg, Coarse(q, k), Reaggregate(reg, q, src), j, last) == Target(reg, Coarse(q, k), src, j, last)
  {
    var c := Coarse(q, k);
    FineOccupied(reg, q, k, src);
    TargetPresent(reg, c, src, j);
    TargetPresent(reg, c, Reaggregate(reg, q, src), j);
    ReaggregateApart(reg, c, src);
    EqualStartsEqual(Reaggregate(reg, c, src), Target(reg, c, Reaggregate(reg, q, src), j, LastSlot(c, src)),
                     Target(reg, c, src, j, LastSlot(c, src)));
  }

  /** For complete results the merged results agree as well, so that the buckets are
      equal, exactly when no target slot is spoilt: none in which a blank or
      empty-collectors result stands alone in its fine slot while everything else in the
      target slot merges to nothing. */
  lemma RegroupingComposesFully(reg: Registry, owners: Owners, q: Query, k: Interval, src: seq<Bucket>)
    requires CompleteBuckets(reg, owners, src)
    ensures Reaggregate(reg, Coarse(q, k), Reaggregate(reg, q, src)) == Reaggregate(reg, Coarse(q, k), src)
      <==> forall j :: !Spoilt(FineGroups(q, k, src, j))
  {
    if src != [] {
      var c, last, fine := Coarse(q, k), LastSlot(Coarse(q, k), src), Reaggregate(reg, q, src);
      FineOccupied(reg, q, k, src);
      if Reaggregate(reg, c, fine) == Reaggregate(reg, c, src) {
        forall j ensures !Spoilt(FineGroups(q, k, src, j)) {
          EqualIsUnspoilt(reg, owners, q, k, src, j);
        }
      }
      if forall j :: !Spoilt(FineGroups(q, k, src, j)) {
        forall j ensures Target(reg, c, fine, j, last) == Target(reg, c, src, j, last) {
          CoarseTargetsIff(reg, owners, q, k, src, j, last);
        }
        SlotsEqual(reg, c, fine, src, FirstSlot(c, src), SlotCount(c, src), last);
      }
    } else {
      forall j ensures !Spoilt(FineGroups(q, k, src, j)) {
        UnoccupiedGroups(q, k, src, FirstSlot(q, src), SlotCount(q, src), j);
      }
    }
  }

  lemma EqualIsUnspoilt(reg: Registry, owners: Owners, q: Query, k: Interval, src: seq<Bucket>, j: int)
    requires CompleteBuckets(reg, owners, src) && src != []
    requires Reaggregate(reg, Coarse(q, k), Reaggregate(reg, q, src)) == Reaggregate(reg, Coarse(q, k), src)
    ensures !Spoilt(FineGroups(q, k, src, j))
  {
    if Group(Coarse(q, k), src, j) == [] {
      UnoccupiedGroups(q, k, src, FirstSlot(q, src), SlotCount(q, src), j);
    } else {
      EqualTargetsIfEqual(reg, q, k, src, j);
      CoarseTargetsIff(reg, owners, q, k, src, j, LastSlot(Coarse(q, k), src));
    }
  }

  /** In particular it does when no source bucket carries an odd result. */
  lemma RegroupingWithoutOddResults(reg: Registry, owners: Owners, q: Query, k: Interval, src: seq<Bucket>)
    requires CompleteBuckets(reg, owners, src)
    requires forall b <- src :: b.result.Some? ==> !Odd(b.result.value)
    ensures Reaggregate(reg, Coarse(q, k), Reaggregate(reg, q, src)) == Reaggregate(reg, Coarse(q, k), src)
  {
    forall j ensures !Spoilt(FineGroups(q, k, src, j)) {
      NoLoneGroups(q, src, FirstSlot(q, src), SlotCount(q, src), PartOf(k, j));
    }
    RegroupingComposesFully(reg, owners, q, k, src);
  }

  ghost predicate NoneLone(groups: seq<seq<Option<Record>>>) {
    forall i | 0 <= i < |groups| :: !Lone(groups[i])
  }

  lemma NotLone(bs: seq<Bucket>)
    requires forall b <- bs :: b.result.Some? ==> !Odd(b.result.value)
    ensures !Lone(ResultsOf(bs))
  {
    ValidFromBuckets(bs);
    var valid := Valid(ResultsOf(bs));
    if |valid| == 1 {
      assert valid[0] in valid;
    }
  }

  lemma {:induction false} NoLoneGroups(q: Query, src: seq<Bucket>, lo: int, n: nat, cond: int -> bool)
    requires forall b <- src :: b.result.Some? ==> !Odd(b.result.value)
    ensures NoneLone(SlotGroups(q, src, lo, n, cond))
    decreases n
  {
    if n > 0 {
      NoLoneGroups(q, src, lo, n - 1, cond);
      assert forall b <- Group(q, src, lo + n - 1) :: b in src;
      NotLone(Group(q, src, lo + n - 1));
    }
  }

  lemma {:induction false} ValidFromBuckets(bs: seq<Bucket>)
    ensures forall r <- Valid(ResultsOf(bs)) :: exists b <- bs :: b.result == Some(r)
  {
    if bs != [] {
      var front, last := bs[..|bs| - 1], bs[|bs| - 1];
      assert bs == front + [last];
      ValidFromBuckets(front);
      ResultsSnoc(front, last);
      ValidAppend(ResultsOf(front), last.result);
      assert forall b <- front :: b in bs;
      assert last in bs;
    }
  }

  // -------------------------------------------------------- the imperative form

  /** The target buckets of the listed slots, in list order. */
  function Targets(reg: Registry, q: Query, src: seq<Bucket>, slots: seq<int>, last: int): (r: seq<Bucket>)
    ensures |r| == |slots|
  {
    seq(|slots|, i requires 0 <= i < |slots| => Target(reg, q, src, slots[i], last))
  }

  /** `groups` maps every slot seen so far to its buckets; `slots` is its insertion order. */
  ghost predicate Grouped(q: Query, src: seq<Bucket>, groups: map<int, seq<Bucket>>, slots: seq<int>) {
    && NoRepeats(slots)
    && (forall s :: s in slots <==> s in groups)
    && (forall s <- groups :: groups[s] == Group(q, src, s))
    && (forall s :: s in groups <==> Group(q, src, s) != [])
  }

  lemma GroupSnoc(q: Query, src: seq<Bucket>, b: Bucket, s: int)
    ensures Group(q, src + [b], s) == Group(q, src, s) + if Slot(q, b) == s then [b] else []
  {
    FilterAppend(InSlot(q, s), src, [b]);
    assert InSlot(q, s)(b) <==> Slot(q, b) == s;
  }

  method GroupBySlot(q: Query, src: seq<Bucket>) returns (groups: map<int, seq<Bucket>>, slots: seq<int>)
    ensures Grouped(q, src, groups, slots)
  {
    groups, slots := map[], [];
    for i := 0 to |src|
      invariant Grouped(q, src[..i], groups, slots)
    {
      var slot := Slot(q, src[i]);
      assert src[..i + 1] == src[..i] + [src[i]];
      forall s ensures Group(q, src[..i + 1], s) == Group(q, src[..i], s) + if slot == s then [src[i]] else [] {
        GroupSnoc(q, src[..i], src[i], s);
      }
      if slot !in groups {
        groups, slots := groups[slot := []], slots + [slot];
      }
      groups := groups[slot := groups[slot] + [src[i]]];
    }
    assert src[..|src|] == src;
  }

  lemma TargetsDistinct(reg: Registry, q: Query, src: seq<Bucket>, slots: seq<int>, last: int)
    requires NoRepeats(slots)
    ensures DistinctKeys(StartKey(), Targets(reg, q, src, slots, last))
  {
    var found := Targets(reg, q, src, slots, last);
    forall i, j | 0 <= i < j < |found| ensures StartKey()(found[i]) != StartKey()(found[j]) {
      SlotOfStart(q.rangeStart, q.interval, slots[i]);
      SlotOfStart(q.rangeStart, q.interval, slots[j]);
    }
  }

  lemma TargetsMembers(reg: Registry, q: Query, src: seq<Bucket>, groups: map<int, seq<Bucket>>, slots: seq<int>, t: Bucket)
    requires src != [] && Grouped(q, src, groups, slots)
    ensures t in Targets(reg, q, src, slots, LastSlot(q, src)) <==> t in Reaggregate(reg, q, src)
  {
    if t in Targets(reg, q, src, slots, LastSlot(q, src)) {
      var s := SlotOfTarget(reg, q, src, slots, LastSlot(q, src), t);
      assert s in groups;
      SlotInOutput(reg, q, src, s);
    }
    if t in Reaggregate(reg, q, src) {
      var s := SlotOfOutput(reg, q, src, t);
      assert s in groups && s in slots;
      TargetOfSlot(reg, q, src, slots, LastSlot(q, src), s);
    }
  }

  lemma SlotInOutput(reg: Registry, q: Query, src: seq<Bucket>, s: int)
    requires Group(q, src, s) != []
    ensures Target(reg, q, src, s, LastSlot(q, src)) in Reaggregate(reg, q, src)
  {
    var b := Group(q, src, s)[0];
    assert b in Group(q, src, s) && b in src && Slot(q, b) == s;
    ReaggregateMembers(reg, q, src);
  }

  lemma SlotOfOutput(reg: Registry, q: Query, src: seq<Bucket>, t: Bucket) returns (s: int)
    requires src != [] && t in Reaggregate(reg, q, src)
    ensures Group(q, src, s) != [] && t == Target(reg, q, src, s, LastSlot(q, src))
  {
    ReaggregateMembers(reg, q, src);
    s :| Group(q, src, s) != [] && t == Target(reg, q, src, s, LastSlot(q, src));
  }

  lemma SlotOfTarget(reg: Registry, q: Query, src: seq<Bucket>, slots: seq<int>, last: int, t: Bucket) returns (s: int)
    requires t in Targets(reg, q, src, slots, last)
    ensures s in slots && t == Target(reg, q, src, s, last)
  {
    var i :| 0 <= i < |slots| && Targets(reg, q, src, slots, last)[i] == t;
    s := slots[i];
  }

  lemma TargetOfSlot(reg: Registry, q: Query, src: seq<Bucket>, slots: seq<int>, last: int, s: int)
    requires s in slots
    ensures Target(reg, q, src, s, last) in Targets(reg, q, src, slots, last)
  {
    var i :| 0 <= i < |slots| && slots[i] == s;
    assert Targets(reg, q, src, slots, last)[i] == Target(reg, q, src, s, last);
  }

  /** A list sorted by start with distinct starts is the regrouped list if it has its members. */
  lemma SortedIsApart(found: seq<Bucket>, out: seq<Bucket>)
    requires DistinctKeys(StartKey(), found) && Apart(out)
    requires forall t :: t in found <==> t in out
    ensures SortBy(StartKey(), found) == out
  {
    SortByDistinct(StartKey(), found);
    forall t ensures t in SortBy(StartKey(), found) <==> t in out {
      SortByMembers(StartKey(), found, t);
    }
    forall i, j | 0 <= i < j < |out| ensures StartKey()(out[i]) < StartKey()(out[j]) {
      assert out[i].start < out[j].start;
    }
    StrictlySortedUnique(StartKey(), SortBy(StartKey(), found), out);
  }

  lemma TargetsSorted(reg: Registry, q: Query, src: seq<Bucket>, groups: map<int, seq<Bucket>>, slots: seq<int>)
    requires src != [] && Grouped(q, src, groups, slots)
    ensures SortBy(StartKey(), Targets(reg, q, src, slots, LastSlot(q, src))) == Reaggregate(reg, q, src)
  {
    TargetsDistinct(reg, q, src, slots, LastSlot(q, src));
    ReaggregateApart(reg, q, src);
    forall t ensures t in Targets(reg, q, src, slots, LastSlot(q, src)) <==> t in Reaggregate(reg, q, src) {
      TargetsMembers(reg, q, src, groups, slots, t);
    }
    SortedIsApart(Targets(reg, q, src, slots, LastSlot(q, src)), Reaggregate(reg, q, src));
  }

  lemma LastOfGroups(q: Query, src: seq<Bucket>, groups: map<int, seq<Bucket>>, slots: seq<int>)
    requires src != [] && Grouped(q, src, groups, slots)
    ensures ListMax(slots) == Some(LastSlot(q, src))
  {
    LastSlotMet(q, src);
    var last := LastSlot(q, src);
    assert last in groups && last in slots;
    ListMaxIsGreatest(slots);
    var m := ListMax(slots).value;
    assert m in slots && m in groups;
    GroupSlotInRange(q, src, m);
  }

  lemma LastSlotMet(q: Query, src: seq<Bucket>)
    requires src != []
    ensures Group(q, src, LastSlot(q, src)) != []
  {
    SlotExtent(q, src);
    var b :| b in src && Slot(q, b) == LastSlot(q, src);
    FilterKeeps(InSlot(q, Slot(q, b)), src, b);
  }

  lemma GroupSlotInRange(q: Query, src: seq<Bucket>, slot: int)
    requires Group(q, src, slot) != []
    ensures slot <= LastSlot(q, src)
  {
    var c := Group(q, src, slot)[0];
    assert c in Group(q, src, slot) && c in src;
    SlotExtent(q, src);
  }

  lemma SlotIsGrouped(q: Query, src: seq<Bucket>, groups: map<int, seq<Bucket>>, slots: seq<int>, i: nat)
    requires Grouped(q, src, groups, slots) && i < |slots|
    ensures slots[i] in groups && groups[slots[i]] == Group(q, src, slots[i])
  {
    var k := slots[i];
    assert k in slots && k in groups;
  }

  lemma AllAnswer(reg: Registry, q: Query, src: seq<Bucket>)
    ensures forall t <- Reaggregate(reg, q, src) :: Answers(reg, q, src, t)
  {
    forall t | t in Reaggregate(reg, q, src) ensures Answers(reg, q, src, t) {
      OutputAnswers(reg, q, src, t);
    }
  }

  /** The bucket of one slot; the last slot ends with the range if that is later. */
  method CombineSlot(reg: Registry, q: Query, src: seq<Bucket>, slot: int, group: seq<Bucket>, maxIndex: int)
    returns (b: Bucket)
    requires group == Group(q, src, slot)
    ensures b == Target(reg, q, src, slot, maxIndex)
  {
    var start := q.rangeStart + slot * q.interval;
    var intervalEnd := start + q.interval;
    var end := if slot == maxIndex then MaxInt(intervalEnd, q.rangeEnd) else intervalEnd;
    b := CombineBuckets(reg, group, start, end);
  }

  method ReaggregateBuckets(reg: Registry, q: Query, src: seq<Bucket>) returns (result: seq<Bucket>)
    ensures result == Reaggregate(reg, q, src)
    ensures forall t <- result :: Answers(reg, q, src, t)
  {
    if |src| == 0 {
      return [];
    }
    var groups, slots := GroupBySlot(q, src);
    LastOfGroups(q, src, groups, slots);
    var maxIndex := ListMax(slots).value;
    result := [];
    for i := 0 to |slots|
      invariant result == Targets(reg, q, src, slots[..i], maxIndex)
    {
      SlotIsGrouped(q, src, groups, slots, i);
      var b := CombineSlot(reg, q, src, slots[i], groups[slots[i]], maxIndex);
      result := result + [b];
    }
    assert slots[..|slots|] == slots;
    TargetsSorted(reg, q, src, groups, slots);
    result := SortBy(StartKey(), result);
    AllAnswer(reg, q, src);
  }
}
