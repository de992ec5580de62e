/** How the metrics page colours and labels one cell of the calendar
    heatmap (components/Metricas.tsx): the cell's CSS class, and the data
    attributes that feed its tooltip. */
module Metricas {
  import opened Wrappers
  import opened Strings
  import opened ExerciseMetrics

  const EmptyClass := "color-empty"
  const ScalePrefix := "color-scale-"
  const TooltipId := "heatmap-tooltip"
  const IdAttr := "data-tooltip-id"
  const ContentAttr := "data-tooltip-content"
  const NoActivity := " - Sin actividad"

  /** The colour step of a day: its repetitions, capped at four. */
  function Bucket(count: int): int {
    if count < 4 then count else 4
  }

  /** `classForValue`: no value or no repetitions is the empty colour,
      otherwise one of the scale classes. */
  function ClassForValue(v: Option<DayGroup>): string {
    if v.None? || v.value.count == 0 then EmptyClass
    else ScalePrefix + IntToString(Bucket(v.value.count))
  }

  /** A cell is drawn empty exactly when it has no value or no repetitions;
      every other cell gets a scale class naming its capped count. */
  lemma ClassEmptyIff(v: Option<DayGroup>)
    ensures ClassForValue(v) == EmptyClass <==> v.None? || v.value.count == 0
    ensures v.Some? && v.value.count != 0
        ==> ClassForValue(v) == ScalePrefix + IntToString(Bucket(v.value.count))
  {
    if v.Some? && v.value.count != 0 {
      var c := ClassForValue(v);
      assert c[6] == 's' != EmptyClass[6];
    }
  }

  /** A day with repetitions gets a step from one to four: the count itself
      up to four, and four beyond. */
  lemma BucketRange(count: int)
    requires count >= 1
    ensures 1 <= Bucket(count) <= 4
    ensures count <= 4 ==> Bucket(count) == count
    ensures count >= 4 ==> Bucket(count) == 4
  {
  }

  /** More repetitions never give a lighter colour. */
  lemma BucketMonotone(a: int, b: int)
    requires a <= b
    ensures Bucket(a) <= Bucket(b)
  {
  }

  /** The class text gives back the capped count it was built from. */
  lemma ClassNamesBucket(v: Option<DayGroup>)
    requires v.Some? && v.value.count != 0
    ensures var c := ClassForValue(v);
      c[..|ScalePrefix|] == ScalePrefix && ParseInt(c[|ScalePrefix|..]) == Bucket(v.value.count)
  {
    var c := ClassForValue(v);
    var s := IntToString(Bucket(v.value.count));
    assert c[|ScalePrefix|..] == s;
    assert c[..|ScalePrefix|] == ScalePrefix;
    ParseIntToString(Bucket(v.value.count));
  }

  /** The tooltip line of a day with repetitions. */
  function ActivityText(g: DayGroup): string {
    " - Total: " + IntToString(g.count) + " repeticiones\n" + Join(g.exercises, ", ")
  }

  /** `tooltipDataAttrs`: nothing for a missing value or an empty date;
      otherwise the tooltip id and a content line saying either that the day
      had no activity or its total and its exercise labels. */
  function TooltipDataAttrs(v: Option<DayGroup>): (attrs: map<string, string>)
    ensures attrs == map[] || attrs.Keys == {IdAttr, ContentAttr}
  {
    if v.None? || v.value.date == "" then map[]
    else if v.value.count == 0 then
      map[IdAttr := TooltipId, ContentAttr := v.value.date + NoActivity]
    else
      map[IdAttr := TooltipId, ContentAttr := v.value.date + ActivityText(v.value)]
  }

  /** Only a missing value or an empty date gets no tooltip; every other
      cell points at the shared tooltip and its content starts with the
      date. */
  lemma TooltipShape(v: Option<DayGroup>)
    ensures TooltipDataAttrs(v) == map[] <==> v.None? || v.value.date == ""
    ensures v.Some? && v.value.date != "" ==>
      var attrs := TooltipDataAttrs(v);
      && attrs.Keys == {IdAttr, ContentAttr}
      && attrs[IdAttr] == TooltipId
      && |attrs[ContentAttr]| > |v.value.date|
      && attrs[ContentAttr][..|v.value.date|] == v.value.date
  {
    if v.Some? && v.value.date != "" {
      var attrs := TooltipDataAttrs(v);
      assert IdAttr in attrs;
      var d := v.value.date;
      var rest := if v.value.count == 0 then NoActivity else ActivityText(v.value);
      assert attrs[ContentAttr] == d + rest;
      assert (d + rest)[..|d|] == d;
    }
  }

  /** The tooltip says "Sin actividad" exactly for the cells drawn with the
      empty colour (among cells with a date). */
  lemma TooltipAgreesWithClass(v: Option<DayGroup>)
    requires v.Some? && v.value.date != ""
    ensures TooltipDataAttrs(v)[ContentAttr] == v.value.date + NoActivity
        <==> ClassForValue(v) == EmptyClass
  {
    ClassEmptyIff(v);
    var d := v.value.date;
    if v.value.count != 0 {
      var content := d + ActivityText(v.value);
      assert TooltipDataAttrs(v)[ContentAttr] == content;
      assert content[|d| + 3] == 'T';
      assert (d + NoActivity)[|d| + 3] == 'S';
    }
  }

  /** A day with repetitions shows its exercise labels, comma separated,
      after its total. */
  lemma TooltipListsExercises(g: DayGroup)
    requires g.date != "" && g.count != 0
    ensures var content := TooltipDataAttrs(Some(g))[ContentAttr];
      var tail := Join(g.exercises, ", ");
      |content| >= |tail| && content[|content| - |tail|..] == tail
  {
    var content := TooltipDataAttrs(Some(g))[ContentAttr];
    var tail := Join(g.exercises, ", ");
    var head := g.date + " - Total: " + IntToString(g.count) + " repeticiones\n";
    assert content == head + tail;
  }
}
