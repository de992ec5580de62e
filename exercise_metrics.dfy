/** actions/getExerciseMetrics.ts: the heatmap's day groups, the period
    totals, the count of active days and the week-on-week and month-on-month
    change, over the records the database queries return. */
module ExerciseMetrics {
  import opened Wrappers
  import opened Tracking
  import opened Strings

  // ------------------------------------------------------------ grouping keys

  type KeyFn = ExerciseTracking -> string

  /** Group by calendar date (`format(curr.date, "yyyy-MM-dd")`). */
  function DayKey(day: DayFn): KeyFn {
    (r: ExerciseTracking) => day(r.date)
  }

  /** Group by exercise (`groupBy: ["exerciseName"]`). */
  function NameKey(): KeyFn {
    (r: ExerciseTracking) => r.exerciseName
  }

  function OnKey(key: KeyFn, k: string): ExerciseTracking -> bool {
    (r: ExerciseTracking) => key(r) == k
  }

  function Every(): ExerciseTracking -> bool {
    (r: ExerciseTracking) => true
  }

  /** The distinct keys of the records, each once, in the order of their
      first record: the order in which the reduce creates the accumulator's
      entries, which `Object.values` keeps. */
  function Keys(data: seq<ExerciseTracking>, key: KeyFn): (ks: seq<string>)
    ensures |ks| <= |data|
  {
    if data == [] then []
    else
      var ks := Keys(data[..|data| - 1], key);
      var k := key(data[|data| - 1]);
      if k in ks then ks else ks + [k]
  }

  predicate Distinct(ks: seq<string>) {
    forall i, j :: 0 <= i < j < |ks| ==> ks[i] != ks[j]
  }

  /** Each key appears once, exactly the keys of some record appear, and
      they are ordered by the position of their first record. */
  lemma KeysFirstAppearance(data: seq<ExerciseTracking>, key: KeyFn)
    ensures var ks := Keys(data, key);
      && Distinct(ks)
      && (forall k :: k in ks <==> FindFirst(data, OnKey(key, k)).Some?)
      && (forall i, j :: 0 <= i < j < |ks|
            ==> FindFirst(data, OnKey(key, ks[i])).value < FindFirst(data, OnKey(key, ks[j])).value)
  {
    KeysDistinct(data, key);
    KeysMembership(data, key);
    KeysOrder(data, key);
  }

  lemma {:induction false} KeysDistinct(data: seq<ExerciseTracking>, key: KeyFn)
    ensures Distinct(Keys(data, key))
  {
    if data != [] {
      KeysDistinct(data[..|data| - 1], key);
    }
  }

  lemma {:induction false} KeysMembership(data: seq<ExerciseTracking>, key: KeyFn)
    ensures forall k :: k in Keys(data, key) <==> FindFirst(data, OnKey(key, k)).Some?
  {
    if data != [] {
      var init := data[..|data| - 1];
      var x := data[|data| - 1];
      assert data == init + [x];
      KeysMembership(init, key);
      forall k {
        FindFirstSnoc(init, x, OnKey(key, k));
      }
    }
  }

  lemma {:induction false} KeysOrder(data: seq<ExerciseTracking>, key: KeyFn)
    requires forall k :: k in Keys(data, key) <==> FindFirst(data, OnKey(key, k)).Some?
    ensures var ks := Keys(data, key);
      forall i, j :: 0 <= i < j < |ks|
        ==> FindFirst(data, OnKey(key, ks[i])).value < FindFirst(data, OnKey(key, ks[j])).value
  {
    if data != [] {
      var init := data[..|data| - 1];
      var x := data[|data| - 1];
      assert data == init + [x];
      KeysMembership(init, key);
      KeysOrder(init, key);
      var ks := Keys(init, key);
      forall k | k in ks {
        FindFirstSnoc(init, x, OnKey(key, k));
      }
      if key(x) !in ks {
        FindFirstSnoc(init, x, OnKey(key, key(x)));
      }
    } else {
      KeysMembership(data, key);
    }
  }

  // ---------------------------------------------------------------- day groups

  /** One heatmap value. */
  datatype DayGroup = DayGroup(date: string, count: int, exercises: seq<string>, notes: string, id: Id)

  /** `${curr.exerciseName} (${curr.repetitions} reps)` */
  function Label(r: ExerciseTracking): string {
    r.exerciseName + " (" + IntToString(r.repetitions) + " reps)"
  }

  function Labels(rs: seq<ExerciseTracking>): (ls: seq<string>)
    ensures |ls| == |rs| && forall i :: 0 <= i < |rs| ==> ls[i] == Label(rs[i])
  {
    seq(|rs|, i requires 0 <= i < |rs| => Label(rs[i]))
  }

  /** The group of the records satisfying `p`, shown under the date `d`: their
      total repetitions, one label per record in input order, and the notes
      ('' when absent) and id of the first of them. */
  function GroupWhere(data: seq<ExerciseTracking>, p: ExerciseTracking -> bool, d: string): DayGroup
    requires FindFirst(data, p).Some?
  {
    var first := data[FindFirst(data, p).value];
    DayGroup(d, RepsWhere(data, p), Labels(Filter(data, p)), first.notes.GetOr(""), first.id)
  }

  /** The group of the calendar date `d`. */
  function GroupOf(data: seq<ExerciseTracking>, day: DayFn, d: string): DayGroup
    requires FindFirst(data, OnKey(DayKey(day), d)).Some?
  {
    GroupWhere(data, OnKey(DayKey(day), d), d)
  }

  /** What `getExerciseMetrics` returns: one group per calendar date, in the
      order of the dates' first records. */
  function Grouped(data: seq<ExerciseTracking>, day: DayFn): (gs: seq<DayGroup>)
    ensures |gs| == |Keys(data, DayKey(day))|
    ensures forall i :: 0 <= i < |gs| ==> gs[i].date == Keys(data, DayKey(day))[i]
  {
    var ds := Keys(data, DayKey(day));
    assert forall i :: 0 <= i < |ds| ==> FindFirst(data, OnKey(DayKey(day), ds[i])).Some? by {
      KeysFirstAppearance(data, DayKey(day));
    }
    seq(|ds|, i requires 0 <= i < |ds| => GroupOf(data, day, ds[i]))
  }

  /** The first record satisfying `p` starts its group. */
  lemma GroupWhereNew(data: seq<ExerciseTracking>, p: ExerciseTracking -> bool, d: string, x: ExerciseTracking)
    requires FindFirst(data, p).None? && p(x)
    ensures FindFirst(data + [x], p).Some?
    ensures GroupWhere(data + [x], p, d) == DayGroup(d, x.repetitions, [Label(x)], x.notes.GetOr(""), x.id)
  {
    FindFirstSnoc(data, x, p);
    NewGroupTotal(data, p, x);
    NewGroupLabels(data, p, x);
    assert (data + [x])[|data|] == x;
  }

  /** A group opened by `x` holds its repetitions only. */
  lemma NewGroupTotal(data: seq<ExerciseTracking>, p: ExerciseTracking -> bool, x: ExerciseTracking)
    requires FindFirst(data, p).None? && p(x)
    ensures RepsWhere(data + [x], p) == x.repetitions
  {
    NoneMatchEmpty(data, p);
    RepsWhereAppend(data, x, p);
  }

  /** A group opened by `x` holds its label only. */
  lemma NewGroupLabels(data: seq<ExerciseTracking>, p: ExerciseTracking -> bool, x: ExerciseTracking)
    requires FindFirst(data, p).None? && p(x)
    ensures Labels(Filter(data + [x], p)) == [Label(x)]
  {
    NoneMatchEmpty(data, p);
    FilterAppend(data, x, p);
    LabelsOfOne(Filter(data + [x], p), x);
  }

  lemma LabelsOfOne(rs: seq<ExerciseTracking>, x: ExerciseTracking)
    requires rs == [x]
    ensures Labels(rs) == [Label(x)]
  {
    var ls := Labels(rs);
    assert |ls| == 1 && ls[0] == Label(x);
  }

  /** A later record satisfying `p` adds its repetitions and its label. */
  lemma GroupWhereSame(data: seq<ExerciseTracking>, p: ExerciseTracking -> bool, d: string, x: ExerciseTracking)
    requires FindFirst(data, p).Some? && p(x)
    ensures FindFirst(data + [x], p).Some?
    ensures var g := GroupWhere(data, p, d);
      GroupWhere(data + [x], p, d) == g.(count := g.count + x.repetitions, exercises := g.exercises + [Label(x)])
  {
    FindFirstSnoc(data, x, p);
    RepsWhereAppend(data, x, p);
    FilterAppend(data, x, p);
    var k := FindFirst(data, p).value;
    assert (data + [x])[k] == data[k];
    LabelsSnoc(Filter(data, p), x);
  }

  /** A record not satisfying `p` leaves the group as it was. */
  lemma GroupWhereOther(data: seq<ExerciseTracking>, p: ExerciseTracking -> bool, d: string, x: ExerciseTracking)
    requires FindFirst(data, p).Some? && !p(x)
    ensures FindFirst(data + [x], p).Some?
    ensures GroupWhere(data + [x], p, d) == GroupWhere(data, p, d)
  {
    FindFirstSnoc(data, x, p);
    RepsWhereAppend(data, x, p);
    FilterAppend(data, x, p);
    var k := FindFirst(data, p).value;
    assert (data + [x])[k] == data[k];
    assert Filter(data, p) + [] == Filter(data, p);
  }

  lemma LabelsSnoc(rs: seq<ExerciseTracking>, x: ExerciseTracking)
    ensures Labels(rs + [x]) == Labels(rs) + [Label(x)]
  {
    var l, r := Labels(rs + [x]), Labels(rs) + [Label(x)];
    assert |l| == |r|;
    forall i | 0 <= i < |l| ensures l[i] == r[i] {
      if i < |rs| {
        assert (rs + [x])[i] == rs[i];
      }
    }
  }

  /** With no record satisfying `p`, the filtered records and their total
      are empty. */
  lemma {:induction false} NoneMatchEmpty(data: seq<ExerciseTracking>, p: ExerciseTracking -> bool)
    requires forall i :: 0 <= i < |data| ==> !p(data[i])
    ensures Filter(data, p) == [] && RepsWhere(data, p) == 0
  {
    if data != [] {
      NoneMatchEmpty(data[..|data| - 1], p);
    }
  }

  /** What the reduce has built after the records `seen`: the dates in
      creation order, and each date's group as it stands. */
  ghost predicate Accumulated(seen: seq<ExerciseTracking>, day: DayFn, acc: map<string, DayGroup>, order: seq<string>) {
    && order == Keys(seen, DayKey(day))
    && (forall d :: d in acc <==> d in order)
    && (forall d :: d in acc ==> FindFirst(seen, OnKey(DayKey(day), d)).Some? && acc[d] == GroupOf(seen, day, d))
  }

  /** One step of the reduce keeps the accumulator equal to the groups of the
      records seen so far. */
  lemma AccumulateStep(seen: seq<ExerciseTracking>, day: DayFn, x: ExerciseTracking,
                       acc: map<string, DayGroup>, order: seq<string>,
                       acc2: map<string, DayGroup>, order2: seq<string>)
    requires Accumulated(seen, day, acc, order)
    requires forall e :: e in acc2 <==> e in acc || e == day(x.date)
    requires forall e :: e in acc && e != day(x.date) ==> acc2[e] == acc[e]
    requires day(x.date) in acc2
    requires var d := day(x.date);
      var g := if d in acc then acc[d] else DayGroup(d, 0, [], x.notes.GetOr(""), x.id);
      acc2[d] == g.(count := g.count + x.repetitions, exercises := g.exercises + [Label(x)])
    requires order2 == if day(x.date) in acc then order else order + [day(x.date)]
    ensures Accumulated(seen + [x], day, acc2, order2)
  {
    var d := day(x.date);
    assert order2 == Keys(seen + [x], DayKey(day)) by {
      KeysStep(seen, x, DayKey(day));
      assert DayKey(day)(x) == d;
    }
    assert forall e :: e in acc2 <==> e in order2;
    forall e | e in acc2
      ensures FindFirst(seen + [x], OnKey(DayKey(day), e)).Some? && acc2[e] == GroupOf(seen + [x], day, e)
    {
      assert e !in acc ==> FindFirst(seen, OnKey(DayKey(day), e)).None? by {
        KeysMembership(seen, DayKey(day));
      }
      var g := if e in acc then acc[e] else DayGroup(e, 0, [], x.notes.GetOr(""), x.id);
      EntryStep(seen, day, x, e, g, acc2[e]);
    }
  }

  lemma KeysStep(seen: seq<ExerciseTracking>, x: ExerciseTracking, key: KeyFn)
    ensures Keys(seen + [x], key) == if key(x) in Keys(seen, key) then Keys(seen, key) else Keys(seen, key) + [key(x)]
  {
    assert (seen + [x])[..|seen|] == seen;
  }

  /** One group after one more record. */
  lemma EntryStep(seen: seq<ExerciseTracking>, day: DayFn, x: ExerciseTracking, e: string, g: DayGroup, g2: DayGroup)
    requires FindFirst(seen, OnKey(DayKey(day), e)).Some? || e == day(x.date)
    requires FindFirst(seen, OnKey(DayKey(day), e)).Some? ==> g == GroupOf(seen, day, e)
    requires FindFirst(seen, OnKey(DayKey(day), e)).None? ==> g == DayGroup(e, 0, [], x.notes.GetOr(""), x.id)
    requires g2 == if e == day(x.date) then g.(count := g.count + x.repetitions, exercises := g.exercises + [Label(x)]) else g
    ensures FindFirst(seen + [x], OnKey(DayKey(day), e)).Some? && g2 == GroupOf(seen + [x], day, e)
  {
    var p := OnKey(DayKey(day), e);
    assert p(x) <==> e == day(x.date);
    if FindFirst(seen, p).None? {
      GroupWhereNew(seen, p, e, x);
    } else if e == day(x.date) {
      GroupWhereSame(seen, p, e, x);
    } else {
      GroupWhereOther(seen, p, e, x);
    }
  }

  lemma AccumulatedGroups(data: seq<ExerciseTracking>, day: DayFn, acc: map<string, DayGroup>, order: seq<string>)
    requires Accumulated(data, day, acc, order)
    ensures forall k :: 0 <= k < |order| ==> order[k] in acc
    ensures seq(|order|, k requires 0 <= k < |order| && order[k] in acc => acc[order[k]]) == Grouped(data, day)
  {
  }

  lemma PrefixSnoc(data: seq<ExerciseTracking>, i: nat)
    requires i < |data|
    ensures data[..i + 1] == data[..i] + [data[i]]
  {
  }

  /** The `reduce` into a record keyed by date, then `Object.values`. */
  method GroupByDay(data: seq<ExerciseTracking>, day: DayFn) returns (groups: seq<DayGroup>)
    ensures groups == Grouped(data, day)
  {
    var acc: map<string, DayGroup> := map[];
    var order: seq<string> := [];
    ghost var seen: seq<ExerciseTracking> := [];
    var i := 0;
    while i < |data|
      invariant 0 <= i <= |data| && seen == data[..i]
      invariant Accumulated(seen, day, acc, order)
    {
      var curr := data[i];
      var d := day(curr.date);
      ghost var acc0, order0 := acc, order;
      if d !in acc {
        acc := acc[d := DayGroup(d, 0, [], curr.notes.GetOr(""), curr.id)];
        order := order + [d];
      }
      acc := acc[d := acc[d].(count := acc[d].count + curr.repetitions,
                              exercises := acc[d].exercises + [Label(curr)])];
      AccumulateStep(seen, day, curr, acc0, order0, acc, order);
      PrefixSnoc(data, i);
      seen := seen + [curr];
      i := i + 1;
    }
    assert seen == data;
    AccumulatedGroups(data, day, acc, order);
    groups := seq(|order|, k requires 0 <= k < |order| && order[k] in acc => acc[order[k]]);
  }

  /** The record a group takes its id and notes from is the latest of its
      day when the records come newest first (`orderBy: { date: "desc" }`). */
  lemma FirstIsLatest(data: seq<ExerciseTracking>, day: DayFn, d: string)
    requires forall i, j :: 0 <= i < j < |data| ==> data[i].date >= data[j].date
    requires FindFirst(data, OnKey(DayKey(day), d)).Some?
    ensures var k := FindFirst(data, OnKey(DayKey(day), d)).value;
      && GroupOf(data, day, d).id == data[k].id
      && GroupOf(data, day, d).notes == data[k].notes.GetOr("")
      && forall j :: 0 <= j < |data| && day(data[j].date) == d ==> data[k].date >= data[j].date
  {
    var k := FindFirst(data, OnKey(DayKey(day), d)).value;
    assert GroupOf(data, day, d).id == data[k].id && GroupOf(data, day, d).notes == data[k].notes.GetOr("");
    OnDay(day, d);
  }

  lemma OnDay(day: DayFn, d: string)
    ensures forall r :: OnKey(DayKey(day), d)(r) <==> day(r.date) == d
  {
  }

  // ------------------------------------------------- conservation of totals

  /** The totals of the records under each key of `ks`, added up. */
  function SumOver(ks: seq<string>, data: seq<ExerciseTracking>, key: KeyFn): int {
    if ks == [] then 0
    else SumOver(ks[..|ks| - 1], data, key) + RepsWhere(data, OnKey(key, ks[|ks| - 1]))
  }

  lemma {:induction false} SumOverNoRecords(ks: seq<string>, key: KeyFn)
    ensures SumOver(ks, [], key) == 0
  {
    if ks != [] {
      SumOverNoRecords(ks[..|ks| - 1], key);
    }
  }

  /** One more record adds its repetitions to the sum once if its key is
      listed (once), and not at all otherwise. */
  lemma {:induction false} SumOverSnoc(ks: seq<string>, data: seq<ExerciseTracking>, x: ExerciseTracking, key: KeyFn)
    requires Distinct(ks)
    ensures SumOver(ks, data + [x], key) == SumOver(ks, data, key) + (if key(x) in ks then x.repetitions else 0)
  {
    if ks != [] {
      var init := ks[..|ks| - 1];
      var last := ks[|ks| - 1];
      assert ks == init + [last];
      SumOverSnoc(init, data, x, key);
      RepsWhereAppend(data, x, OnKey(key, last));
      assert key(x) in ks <==> key(x) in init || key(x) == last;
      assert key(x) == last ==> key(x) !in init;
    }
  }

  /** Splitting the records by key loses and duplicates nothing: over any
      duplicate-free list holding every record's key, the per-key totals add
      up to the total of all records. */
  lemma {:induction false} PartitionTotal(ks: seq<string>, data: seq<ExerciseTracking>, key: KeyFn)
    requires Distinct(ks)
    requires forall i :: 0 <= i < |data| ==> key(data[i]) in ks
    ensures SumOver(ks, data, key) == RepsWhere(data, Every())
  {
    if data == [] {
      SumOverNoRecords(ks, key);
    } else {
      var init := data[..|data| - 1];
      var x := data[|data| - 1];
      assert data == init + [x];
      PartitionTotal(ks, init, key);
      SumOverSnoc(ks, init, x, key);
    }
  }

  function SumCounts(gs: seq<DayGroup>): int {
    if gs == [] then 0 else SumCounts(gs[..|gs| - 1]) + gs[|gs| - 1].count
  }

  lemma {:induction false} SumCountsOver(gs: seq<DayGroup>, ks: seq<string>, data: seq<ExerciseTracking>, key: KeyFn)
    requires |gs| == |ks|
    requires forall i :: 0 <= i < |gs| ==> gs[i].count == RepsWhere(data, OnKey(key, ks[i]))
    ensures SumCounts(gs) == SumOver(ks, data, key)
  {
    if gs != [] {
      SumCountsOver(gs[..|gs| - 1], ks[..|ks| - 1], data, key);
    }
  }

  /** The heatmap shows every repetition exactly once: the day groups' counts
      add up to the total repetitions of all records. */
  lemma DayCountsAddUp(data: seq<ExerciseTracking>, day: DayFn)
    ensures SumCounts(Grouped(data, day)) == RepsWhere(data, Every())
  {
    var ds := Keys(data, DayKey(day));
    KeysFirstAppearance(data, DayKey(day));
    forall i | 0 <= i < |data|
      ensures DayKey(day)(data[i]) in ds
    {
      assert OnKey(DayKey(day), DayKey(day)(data[i]))(data[i]);
    }
    SumCountsOver(Grouped(data, day), ds, data, DayKey(day));
    PartitionTotal(ds, data, DayKey(day));
  }

  // ----------------------------------------------------------------- totals

  /** One row of a `groupBy` on exerciseName with `_sum` of repetitions. */
  datatype ExerciseSum = ExerciseSum(exerciseName: string, sum: Option<int>)

  datatype TotalsMetrics = TotalsMetrics(
    dailyTotal: int, weeklyTotal: int, monthlyTotal: int,
    mostRepeatedToday: Option<ExerciseSum>, mostRepeatedWeek: Option<ExerciseSum>,
    mostRepeatedMonth: Option<ExerciseSum>)

  /** `groups.reduce((acc, ex) => acc + (ex._sum.repetitions || 0), 0)` */
  function PeriodTotal(groups: seq<ExerciseSum>): int {
    if groups == [] then 0 else PeriodTotal(groups[..|groups| - 1]) + groups[|groups| - 1].sum.GetOr(0)
  }

  /** `groups[0] || null` */
  function MostRepeated(groups: seq<ExerciseSum>): Option<ExerciseSum> {
    if groups == [] then None else Some(groups[0])
  }

  /** `getTotalsMetrics` over the three `groupBy` answers. */
  function Totals(daily: seq<ExerciseSum>, weekly: seq<ExerciseSum>, monthly: seq<ExerciseSum>): TotalsMetrics {
    TotalsMetrics(PeriodTotal(daily), PeriodTotal(weekly), PeriodTotal(monthly),
                  MostRepeated(daily), MostRepeated(weekly), MostRepeated(monthly))
  }

  /** The records the `where` clause keeps: the user's, dated from `from`
      and, when `to` is given, up to `to` (the daily query has no upper
      bound). */
  function Window(userId: string, from: int, to: Option<int>): ExerciseTracking -> bool {
    (r: ExerciseTracking) => r.userId == userId && from <= r.date && (to.None? || r.date <= to.value)
  }

  /** What the database promises of a `groupBy` on exerciseName over
      `rows`, ordered by the sums, largest first: one row per exercise that
      occurs, with that exercise's total. */
  predicate IsGroupingByName(groups: seq<ExerciseSum>, rows: seq<ExerciseTracking>) {
    && Distinct(Names(groups))
    && (forall i :: 0 <= i < |rows| ==> rows[i].exerciseName in Names(groups))
    && (forall j :: 0 <= j < |groups| ==> groups[j].exerciseName in Keys(rows, NameKey()))
    && (forall j :: 0 <= j < |groups| ==>
          groups[j].sum == Some(RepsWhere(rows, OnKey(NameKey(), groups[j].exerciseName))))
    && (forall i, j :: 0 <= i < j < |groups| ==> groups[i].sum.GetOr(0) >= groups[j].sum.GetOr(0))
  }

  function Names(groups: seq<ExerciseSum>): (ns: seq<string>)
    ensures |ns| == |groups| && forall i :: 0 <= i < |groups| ==> ns[i] == groups[i].exerciseName
  {
    seq(|groups|, i requires 0 <= i < |groups| => groups[i].exerciseName)
  }

  lemma {:induction false} PeriodTotalOver(groups: seq<ExerciseSum>, rows: seq<ExerciseTracking>)
    requires forall j :: 0 <= j < |groups| ==>
               groups[j].sum == Some(RepsWhere(rows, OnKey(NameKey(), groups[j].exerciseName)))
    ensures PeriodTotal(groups) == SumOver(Names(groups), rows, NameKey())
  {
    if groups != [] {
      var init := groups[..|groups| - 1];
      PeriodTotalOver(init, rows);
      assert Names(groups)[..|groups| - 1] == Names(init);
    }
  }

  /** A period's total is the total repetitions of the records in the
      period's window. */
  lemma PeriodTotalMeaning(groups: seq<ExerciseSum>, rows: seq<ExerciseTracking>, userId: string, from: int, to: Option<int>)
    requires IsGroupingByName(groups, Filter(rows, Window(userId, from, to)))
    ensures PeriodTotal(groups) == RepsWhere(rows, Window(userId, from, to))
  {
    var inWindow := Filter(rows, Window(userId, from, to));
    PeriodTotalOver(groups, inWindow);
    assert forall i :: 0 <= i < |inWindow| ==> NameKey()(inWindow[i]) in Names(groups);
    PartitionTotal(Names(groups), inWindow, NameKey());
    FilterTotal(rows, Window(userId, from, to));
  }

  /** The most repeated exercise is absent exactly when the window holds no
      record, and otherwise has the largest sum. */
  lemma MostRepeatedMeaning(groups: seq<ExerciseSum>, inWindow: seq<ExerciseTracking>)
    requires IsGroupingByName(groups, inWindow)
    ensures MostRepeated(groups).None? <==> inWindow == []
    ensures MostRepeated(groups).Some?
        ==> forall j :: 0 <= j < |groups| ==> MostRepeated(groups).value.sum.GetOr(0) >= groups[j].sum.GetOr(0)
  {
    if inWindow != [] {
      assert inWindow[0].exerciseName in Names(groups);
    }
    if groups != [] {
      assert groups[0].exerciseName in Keys(inWindow, NameKey());
    }
  }

  /** Filtering first and then adding up everything is adding up the
      filtered records. */
  lemma {:induction false} FilterTotal(rows: seq<ExerciseTracking>, p: ExerciseTracking -> bool)
    ensures RepsWhere(Filter(rows, p), Every()) == RepsWhere(rows, p)
  {
    if rows != [] {
      var init := rows[..|rows| - 1];
      var x := rows[|rows| - 1];
      FilterTotal(init, p);
      if p(x) {
        RepsWhereAppend(Filter(init, p), x, Every());
      } else {
        assert Filter(rows, p) == Filter(init, p) + [] == Filter(init, p);
      }
    }
  }

  // ------------------------------------------------------------ active days

  const DayMs: int := 86_400_000
  const WindowDays: int := 30

  /** The UTC date of a timestamp (`toISOString().split("T")[0]`), as the
      number of days since 1970-01-01: floor division, which Dafny's `/`
      is for a positive divisor. */
  function UtcDay(ms: int): int {
    ms / DayMs
  }

  datatype ActiveDaysMetrics = ActiveDaysMetrics(activeDays: int, inactiveDays: int)

  /** The distinct UTC dates of the user's records dated from
      `subDays(now, 30)` on. */
  function ActiveDates(rows: seq<ExerciseTracking>, userId: string, now: int): set<int> {
    set r | r in rows && r.userId == userId && r.date >= now - WindowDays * DayMs :: UtcDay(r.date)
  }

  /** `getActiveDaysMetrics` as written. */
  function ActiveDaysAsWritten(rows: seq<ExerciseTracking>, userId: string, now: int): (m: ActiveDaysMetrics)
    ensures m.activeDays == |ActiveDates(rows, userId, now)|
    ensures m.activeDays + m.inactiveDays == WindowDays
  {
    var activeDays := |ActiveDates(rows, userId, now)|;
    ActiveDaysMetrics(activeDays, WindowDays - activeDays)
  }

  /** The integers lo, lo + 1, ..., lo + n - 1. */
  function Range(lo: int, n: nat): (r: set<int>)
    ensures |r| == n
    ensures forall d :: d in r <==> lo <= d < lo + n
  {
    if n == 0 then {} else Range(lo, n - 1) + {lo + n - 1}
  }

  /** A set of dates within a range of n dates has at most n of them. */
  lemma {:induction false} WithinRangeCard(a: set<int>, lo: int, n: nat)
    requires a <= Range(lo, n)
    ensures |a| <= n
  {
    if n > 0 {
      var rest := a - {lo + n - 1};
      WithinRangeCard(rest, lo, n - 1);
      assert |a| <= |rest| + 1;
    } else {
      assert a == {};
    }
  }

  /** Thirty-one records, one a day at noon UTC from 1970-01-01 to
      1970-01-31. */
  function NoonRecords(): seq<ExerciseTracking> {
    seq(WindowDays + 1, k requires 0 <= k < WindowDays + 1 =>
      ExerciseTracking(k, "u", "squat", k * DayMs + DayMs / 2, 1, None))
  }

  /** Noon UTC of 1970-01-31. */
  const NoonOfDay30: int := WindowDays * DayMs + DayMs / 2

  lemma NoonDatesCover()
    ensures Range(0, WindowDays as nat + 1) <= ActiveDates(NoonRecords(), "u", NoonOfDay30)
  {
    var rows := NoonRecords();
    forall d | d in Range(0, WindowDays as nat + 1)
      ensures d in ActiveDates(rows, "u", NoonOfDay30)
    {
      assert rows[d] in rows && UtcDay(rows[d].date) == d;
    }
  }

  lemma NoonDatesWithin()
    ensures ActiveDates(NoonRecords(), "u", NoonOfDay30) <= Range(0, WindowDays as nat + 1)
  {
    var rows := NoonRecords();
    forall d | d in ActiveDates(rows, "u", NoonOfDay30)
      ensures d in Range(0, WindowDays as nat + 1)
    {
      var r :| r in rows && r.userId == "u" && r.date >= NoonOfDay30 - WindowDays * DayMs && UtcDay(r.date) == d;
      var k :| 0 <= k < |rows| && rows[k] == r;
      assert UtcDay(r.date) == k;
    }
  }

  /** As written, the window `gte subDays(now, 30)` reaches back into a 31st
      UTC date whenever `now` is not exactly midnight UTC: with a record a
      day at noon and `now` at noon of the 31st day, 31 dates are active and
      `inactiveDays` is -1. */
  lemma InactiveDaysCanBeNegative()
    ensures ActiveDaysAsWritten(NoonRecords(), "u", NoonOfDay30).inactiveDays == -1
  {
    NoonDatesCover();
    NoonDatesWithin();
    assert ActiveDates(NoonRecords(), "u", NoonOfDay30) == Range(0, WindowDays as nat + 1);
  }

  /** The dates of the user's records among the thirty UTC dates that end
      with today's. */
  function ActiveDatesInLast30(rows: seq<ExerciseTracking>, userId: string, now: int): set<int> {
    set r | r in rows && r.userId == userId && UtcDay(now) - WindowDays < UtcDay(r.date) <= UtcDay(now)
          :: UtcDay(r.date)
  }

  /** `getActiveDaysMetrics` counting the thirty dates that end today: the
      active and inactive days are both between 0 and 30 and add up to 30. */
  function ActiveDays(rows: seq<ExerciseTracking>, userId: string, now: int): (m: ActiveDaysMetrics)
    ensures m.activeDays == |ActiveDatesInLast30(rows, userId, now)|
    ensures 0 <= m.activeDays <= WindowDays && 0 <= m.inactiveDays <= WindowDays
    ensures m.activeDays + m.inactiveDays == WindowDays
  {
    var dates := ActiveDatesInLast30(rows, userId, now);
    assert dates <= Range(UtcDay(now) - WindowDays + 1, WindowDays as nat);
    WithinRangeCard(dates, UtcDay(now) - WindowDays + 1, WindowDays as nat);
    ActiveDaysMetrics(|dates|, WindowDays - |dates|)
  }

  /** A user who trained on every one of the last thirty dates has thirty
      active days and no inactive one. */
  lemma EveryDayActive(rows: seq<ExerciseTracking>, userId: string, now: int)
    requires Range(UtcDay(now) - WindowDays + 1, WindowDays as nat)
          <= set r | r in rows && r.userId == userId :: UtcDay(r.date)
    ensures ActiveDays(rows, userId, now) == ActiveDaysMetrics(WindowDays, 0)
  {
    var dates := ActiveDatesInLast30(rows, userId, now);
    var last30 := Range(UtcDay(now) - WindowDays + 1, WindowDays as nat);
    forall d | d in last30
      ensures d in dates
    {
      assert d in set r | r in rows && r.userId == userId :: UtcDay(r.date);
    }
    assert dates == last30;
  }

  // ----------------------------------------------------------------- change

  /** `prev && prev > 0 ? ((cur || 0) - (prev || 0)) / (prev || 1) * 100 : 0`,
      before `Math.round`. */
  function Change(current: Option<int>, previous: Option<int>): (c: real)
    ensures (previous.None? || previous.value <= 0) ==> c == 0.0
  {
    if previous.Some? && previous.value > 0 then
      ((current.GetOr(0) - previous.value) as real / previous.value as real) * 100.0
    else 0.0
  }

  /** With a positive previous total, the change is the percentage that takes
      the previous total to the current one (a missing current total being
      0): positive exactly when the total grew, zero exactly when it stayed. */
  lemma ChangeMeaning(current: Option<int>, previous: Option<int>)
    requires previous.Some? && previous.value > 0
    ensures var p := previous.value as real;
      p + Change(current, previous) * p / 100.0 == current.GetOr(0) as real
    ensures Change(current, previous) > 0.0 <==> current.GetOr(0) > previous.value
    ensures Change(current, previous) == 0.0 <==> current.GetOr(0) == previous.value
  {
    var p := previous.value as real;
    var d := (current.GetOr(0) - previous.value) as real;
    assert Change(current, previous) == (d / p) * 100.0;
    assert (d / p) * p == d;
  }

  /** `Math.round`: the nearest integer, halves rounded up. */
  function Round(x: real): (n: int)
    ensures n as real - 0.5 <= x < n as real + 0.5
  {
    (x + 0.5).Floor
  }

  /** `weekChange`/`monthChange` as returned: the change percentage rounded. */
  function RoundedChange(current: Option<int>, previous: Option<int>): int {
    Round(Change(current, previous))
  }

  /** The returned percentage keeps the direction of the change: never
      negative when the total did not drop, never positive when it did not
      grow, and 0 when there is no positive previous total to compare with. */
  lemma RoundedChangeDirection(current: Option<int>, previous: Option<int>)
    ensures (previous.None? || previous.value <= 0) ==> RoundedChange(current, previous) == 0
    ensures previous.Some? && current.GetOr(0) >= previous.value ==> RoundedChange(current, previous) >= 0
    ensures previous.Some? && current.GetOr(0) <= previous.value ==> RoundedChange(current, previous) <= 0
  {
    if previous.Some? && previous.value > 0 {
      ChangeMeaning(current, previous);
    }
  }
}
