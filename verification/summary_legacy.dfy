/** The earlier `TimePeriodOverview` of `cubedash/summary.py`: a named
    tuple of seven fields merged by `add_periods(periods, group_by_month)`,
    computed per month by `calculate_summary`, and kept in a
    `FileSummaryStore` folder tree. */
module SummaryLegacy {
  import opened Wrappers
  import opened Calendar
  import opened Counters
  import opened Aggregate
  import opened Geometry
  import opened IsoTime
  import opened SummaryFiles
  import Strings
  import Sorting

  datatype Overview = Overview(
    datasetCount: int,
    datasetCounts: Option<Counter<Date>>,
    datasetsGeojson: Option<seq<Feature>>,
    period: Option<string>,
    timeRange: Option<Range>,
    footprintGeometry: Option<Shape>,
    footprintCount: Option<int>)

  /** `cubedash/_model.py`'s `MAX_DATASETS_TO_DISPLAY_INDIVIDUALLY`. */
  const MaxDatasetsToDisplayIndividually: int := 600

  // ---------------------------------------------------------------------
  // add_periods

  /** `[p for p in periods if p.dataset_count > 0]`, defined when no period
      is `None`. */
  function Qualifying(ps: seq<Overview>): (r: seq<Overview>)
    ensures forall p :: p in r <==> p in ps && p.datasetCount > 0
  {
    if |ps| == 0 then []
    else
      var init := ps[..|ps| - 1];
      var last := ps[|ps| - 1];
      assert ps == init + [last];
      if last.datasetCount > 0 then Qualifying(init) + [last] else Qualifying(init)
  }

  lemma {:induction false} QualifyingNone(ps: seq<Overview>)
    requires forall i :: 0 <= i < |ps| ==> ps[i].datasetCount <= 0
    ensures Qualifying(ps) == []
  {
    if |ps| > 0 {
      QualifyingNone(ps[..|ps| - 1]);
    }
  }

  /** The periods, when none of them is `None`. */
  function Present(periods: seq<Option<Overview>>): (r: seq<Overview>)
    requires forall i :: 0 <= i < |periods| ==> periods[i].Some?
    ensures |r| == |periods|
    ensures forall i :: 0 <= i < |r| ==> periods[i] == Some(r[i])
  {
    seq(|periods|, i requires 0 <= i < |periods| => periods[i].value)
  }

  function Counts(ps: seq<Overview>): seq<int> {
    seq(|ps|, i requires 0 <= i < |ps| => ps[i].datasetCount)
  }

  /** `counter.update(p.dataset_counts)` adds nothing for `None`. */
  function Timelines(ps: seq<Overview>): seq<Counter<Date>> {
    seq(|ps|, i requires 0 <= i < |ps| => ps[i].datasetCounts.GetOr(map[]))
  }

  predicate AllRanged(ps: seq<Overview>) {
    forall i :: 0 <= i < |ps| ==> ps[i].timeRange.Some?
  }

  /** Each child's `time_range`, which may be `None`. */
  function Ranges(ps: seq<Overview>): (r: seq<Option<Range>>)
    ensures |r| == |ps| && forall i :: 0 <= i < |ps| ==> r[i] == ps[i].timeRange
  {
    seq(|ps|, i requires 0 <= i < |ps| => ps[i].timeRange)
  }

  function Begins(ps: seq<Overview>): seq<Option<DateTime>>
    requires AllRanged(ps)
  {
    seq(|ps|, i requires 0 <= i < |ps| => ps[i].timeRange.value.begin)
  }

  function Ends(ps: seq<Overview>): seq<Option<DateTime>>
    requires AllRanged(ps)
  {
    seq(|ps|, i requires 0 <= i < |ps| => ps[i].timeRange.value.end)
  }

  /** The lazy `min` over the children's begins succeeds only when every
      child has a range, and then it is `min` over the begins. */
  lemma MinBeginOfChildren(ps: seq<Overview>)
    requires |ps| > 0
    ensures MinBegin(Ranges(ps)).Ok? ==> AllRanged(ps)
    ensures AllRanged(ps) ==> MinBegin(Ranges(ps)) == PyMin(Begins(ps))
  {
    if AllRanged(ps) {
      MinBeginAllRanged(Ranges(ps));
      assert BeginsOf(Ranges(ps)) == Begins(ps);
    }
  }

  /** `p.footprint_geometry and p.footprint_geometry.is_valid and not
      p.footprint_geometry.is_empty`: unlike the later revisions, the
      footprint count is not consulted. */
  function WithValidGeometries(lib: Library, ps: seq<Overview>): (r: seq<Overview>)
    ensures forall p :: p in r <==> p in ps && Usable(lib, p.footprintGeometry)
    ensures forall i :: 0 <= i < |r| ==> Usable(lib, r[i].footprintGeometry) && r[i].footprintGeometry.Some?
  {
    if |ps| == 0 then []
    else
      var init := ps[..|ps| - 1];
      var last := ps[|ps| - 1];
      assert ps == init + [last];
      if Usable(lib, last.footprintGeometry) then WithValidGeometries(lib, init) + [last]
      else WithValidGeometries(lib, init)
  }

  function Footprints(ps: seq<Overview>): seq<Shape>
    requires forall i :: 0 <= i < |ps| ==> ps[i].footprintGeometry.Some?
  {
    seq(|ps|, i requires 0 <= i < |ps| => ps[i].footprintGeometry.value)
  }

  /** `unary_union(shapes) if shapes else None`, without a retry. */
  function UnionOrNone(lib: Library, shapes: seq<Shape>): (r: Result<Option<Shape>>)
    ensures r.Ok? && r.value.None? <==> |shapes| == 0
    ensures |shapes| > 0 ==> r.Err? == lib.union(shapes).Err?
  {
    if |shapes| == 0 then Ok(None)
    else
      var u :- lib.union(shapes);
      Ok(Some(u))
  }

  /** `sum(xs)` over counts that may be `None`: `0 + None` is a
      `TypeError`. */
  function SumStrict(xs: seq<Option<int>>): (r: Result<int>)
    ensures r.Ok? <==> forall i :: 0 <= i < |xs| ==> xs[i].Some?
  {
    if |xs| == 0 then Ok(0)
    else
      var init := xs[..|xs| - 1];
      assert forall i :: 0 <= i < |init| ==> init[i] == xs[i];
      var s :- SumStrict(init);
      if xs[|xs| - 1].None? then Err(TypeError) else Ok(s + xs[|xs| - 1].value)
  }

  function FootprintCounts(ps: seq<Overview>): seq<Option<int>> {
    seq(|ps|, i requires 0 <= i < |ps| => ps[i].footprintCount)
  }

  function LastPeriod(ps: seq<Overview>): Option<string> {
    if |ps| == 0 then None else ps[|ps| - 1].period
  }

  /** `TimePeriodOverview.add_periods(periods, group_by_month)`. */
  function AddPeriods(lib: Library, periods: seq<Option<Overview>>, groupByMonth: bool): (r: Result<Overview>)
  {
    if exists i :: 0 <= i < |periods| && periods[i].None? then Err(AttributeError)
    else MergeQualifying(lib, Qualifying(Present(periods)), groupByMonth)
  }

  /** The merge of the periods that have datasets. */
  function MergeQualifying(lib: Library, ps: seq<Overview>, groupByMonth: bool): Result<Overview> {
    if |ps| == 0 then Ok(Overview(0, None, None, None, None, None, None))
    else
      var merged := UpdateAll(Timelines(ps));
      var counter := if groupByMonth then Regroup(merged, MonthOf) else merged;
      var period := if groupByMonth then Some("month") else LastPeriod(ps);
      var valid := WithValidGeometries(lib, ps);
      var begin :- MinBegin(Ranges(ps));
      MinBeginOfChildren(ps);
      var end :- PyMax(Ends(ps));
      var union :- UnionOrNone(lib, Footprints(valid));
      var footprints :- SumStrict(FootprintCounts(valid));
      Ok(Overview(Sum(Counts(ps)), Some(counter), None, period, Some(Range(begin, end)),
                  union, Some(footprints)))
  }

  // ---------------------------------------------------------------------
  // Properties of add_periods

  /** Each field of a successful merge of at least one child. */
  lemma AddPeriodsFields(lib: Library, periods: seq<Option<Overview>>, groupByMonth: bool)
    requires AddPeriods(lib, periods, groupByMonth).Ok?
    ensures forall i :: 0 <= i < |periods| ==> periods[i].Some?
    ensures var o := AddPeriods(lib, periods, groupByMonth).value;
            var ps := Qualifying(Present(periods));
            |ps| > 0 ==>
              && AllRanged(ps)
              && o.datasetCount == Sum(Counts(ps))
              && o.datasetCounts == Some(if groupByMonth then Regroup(UpdateAll(Timelines(ps)), MonthOf)
                                         else UpdateAll(Timelines(ps)))
              && o.datasetsGeojson.None?
              && o.period == (if groupByMonth then Some("month") else LastPeriod(ps))
              && o.timeRange.Some?
              && PyMin(Begins(ps)) == Ok(o.timeRange.value.begin)
              && PyMax(Ends(ps)) == Ok(o.timeRange.value.end)
              && UnionOrNone(lib, Footprints(WithValidGeometries(lib, ps))) == Ok(o.footprintGeometry)
              && o.footprintCount.Some?
              && SumStrict(FootprintCounts(WithValidGeometries(lib, ps))) == Ok(o.footprintCount.value)
  {
    if |Qualifying(Present(periods))| > 0 {
      MergeFields(lib, Qualifying(Present(periods)), groupByMonth);
    }
    hide Qualifying, Present, MergeQualifying;
  }

  /** `AddPeriodsFields` for the qualifying children themselves. */
  lemma MergeFields(lib: Library, ps: seq<Overview>, groupByMonth: bool)
    requires |ps| > 0 && MergeQualifying(lib, ps, groupByMonth).Ok?
    ensures var o := MergeQualifying(lib, ps, groupByMonth).value;
            && AllRanged(ps)
            && o.datasetCount == Sum(Counts(ps))
            && o.datasetCounts == Some(if groupByMonth then Regroup(UpdateAll(Timelines(ps)), MonthOf)
                                         else UpdateAll(Timelines(ps)))
            && o.datasetsGeojson.None?
            && o.period == (if groupByMonth then Some("month") else LastPeriod(ps))
            && o.timeRange.Some?
            && PyMin(Begins(ps)) == Ok(o.timeRange.value.begin)
            && PyMax(Ends(ps)) == Ok(o.timeRange.value.end)
            && UnionOrNone(lib, Footprints(WithValidGeometries(lib, ps))) == Ok(o.footprintGeometry)
            && o.footprintCount.Some?
            && SumStrict(FootprintCounts(WithValidGeometries(lib, ps))) == Ok(o.footprintCount.value)
  {
    MinBeginOfChildren(ps);
    hide UpdateAll, Regroup, WithValidGeometries, UnionOrNone, SumStrict, MinBegin, Ranges, PyMin, PyMax, Sum;
  }

  /** Which error a qualifying child without a time range gives: `min`
      reads the begins lazily, so with `k` the first such child it is
      `AttributeError` when the children before it compare, and otherwise
      the earlier comparison's `TypeError`. */
  lemma MergeMissingRange(lib: Library, ps: seq<Overview>, groupByMonth: bool, k: nat)
    requires k < |ps| && ps[k].timeRange.None?
    requires forall i :: 0 <= i < k ==> ps[i].timeRange.Some?
    ensures MergeQualifying(lib, ps, groupByMonth)
            == if k <= 1 || forall i :: 0 <= i < k ==> ps[i].timeRange.value.begin.Some?
               then Err(AttributeError) else Err(TypeError)
  {
    MinBeginMissingRange(Ranges(ps), k);
    hide UpdateAll, Regroup, WithValidGeometries, UnionOrNone, SumStrict, MinBegin, Ranges, PyMin, PyMax, Sum;
  }

  /** A `None` period raises `AttributeError` (`None.dataset_count`). */
  lemma AddPeriodsNonePeriod(lib: Library, periods: seq<Option<Overview>>, groupByMonth: bool)
    requires exists i :: 0 <= i < |periods| && periods[i].None?
    ensures AddPeriods(lib, periods, groupByMonth) == Err(AttributeError)
  {
  }

  /** Merging only empty periods gives count 0 and every other field
      `None`, grouped or not. */
  lemma AddPeriodsEmpty(lib: Library, ps: seq<Overview>, groupByMonth: bool)
    requires forall i :: 0 <= i < |ps| ==> ps[i].datasetCount <= 0
    ensures var periods := seq(|ps|, i requires 0 <= i < |ps| => Some(ps[i]));
            AddPeriods(lib, periods, groupByMonth) == Ok(Overview(0, None, None, None, None, None, None))
  {
    var periods := seq(|ps|, i requires 0 <= i < |ps| => Some(ps[i]));
    assert Present(periods) == ps;
    QualifyingNone(ps);
  }

  /** An empty period changes nothing. */
  lemma AddPeriodsIgnoresEmpty(lib: Library, periods: seq<Option<Overview>>, x: Overview, groupByMonth: bool)
    requires forall i :: 0 <= i < |periods| ==> periods[i].Some?
    requires x.datasetCount <= 0
    ensures AddPeriods(lib, periods + [Some(x)], groupByMonth) == AddPeriods(lib, periods, groupByMonth)
  {
    hide MergeQualifying, MinBegin, PyMin, PyMax;
    var ext := periods + [Some(x)];
    assert Qualifying(Present(ext)) == Qualifying(Present(periods)) by {
      assert Present(ext)[..|periods|] == Present(periods);
      assert Present(ext)[|periods|] == x;
    }
    hide Qualifying, Present;
    assert !exists i :: 0 <= i < |ext| && ext[i].None?;
  }

  /** The merged counts: the dataset count sums the children's, and the
      timeline holds as many elements as the children together, grouped by
      month or not. */
  lemma AddPeriodsCounts(lib: Library, periods: seq<Option<Overview>>, groupByMonth: bool)
    requires AddPeriods(lib, periods, groupByMonth).Ok?
    ensures forall i :: 0 <= i < |periods| ==> periods[i].Some?
    ensures var o, ps := AddPeriods(lib, periods, groupByMonth).value, Qualifying(Present(periods));
            |ps| > 0 ==>
              && o.datasetCount == Sum(Counts(ps))
              && o.datasetCounts.Some?
              && Total(o.datasetCounts.value) == Sum(TotalsOf(Timelines(ps)))
  {
    AddPeriodsFields(lib, periods, groupByMonth);
    var ps := Qualifying(Present(periods));
    if |ps| > 0 {
      hide AddPeriods, Qualifying, Present;
      UpdateAllTotal(Timelines(ps));
      RegroupTotal(UpdateAll(Timelines(ps)), MonthOf);
    }
  }

  /** `group_by_month` buckets every day into the first of its month under
      period `month`: each bucket counts exactly the elements of that month. */
  lemma AddPeriodsGroupByMonth(lib: Library, periods: seq<Option<Overview>>, g: Date)
    requires AddPeriods(lib, periods, true).Ok?
    requires |Qualifying(Present(periods))| > 0
    ensures var o, ps := AddPeriods(lib, periods, true).value, Qualifying(Present(periods));
            && o.period == Some("month")
            && o.datasetCounts.Some?
            && (g in o.datasetCounts.value ==> g.day == 1)
            && Counters.Get(o.datasetCounts.value, g) == Total(Bucket(UpdateAll(Timelines(ps)), MonthOf, g))
  {
    AddPeriodsFields(lib, periods, true);
    var ps := Qualifying(Present(periods));
    hide AddPeriods, Qualifying, Present;
    RegroupBuckets(UpdateAll(Timelines(ps)), MonthOf, g);
    RegroupKeys(UpdateAll(Timelines(ps)), MonthOf, g);
  }

  /** Ungrouped, the timeline holds each day as often as the children
      together, under the last child's period. */
  lemma AddPeriodsUngrouped(lib: Library, periods: seq<Option<Overview>>, d: Date)
    requires AddPeriods(lib, periods, false).Ok?
    requires |Qualifying(Present(periods))| > 0
    ensures var o, ps := AddPeriods(lib, periods, false).value, Qualifying(Present(periods));
            && o.period == LastPeriod(ps)
            && o.datasetCounts.Some?
            && Counters.Get(o.datasetCounts.value, d) == Sum(CountsOf(Timelines(ps), d))
  {
    AddPeriodsFields(lib, periods, false);
    var ps := Qualifying(Present(periods));
    hide AddPeriods, Qualifying, Present;
    UpdateAllCounts(Timelines(ps), d);
  }

  /** `min` of the begins and `max` of the ends over at least one child.
      The statement of `Summarise.SpanOfChildren` over this revision's
      overview record; a separate lemma keeps the `AddPeriods*` proofs from
      unfolding `PyMin`/`PyMax` themselves. */
  lemma SpanOfChildren(ps: seq<Overview>, b: Option<DateTime>, e: Option<DateTime>)
    requires |ps| > 0 && AllRanged(ps) && PyMin(Begins(ps)) == Ok(b) && PyMax(Ends(ps)) == Ok(e)
    ensures exists i :: 0 <= i < |ps| && b == ps[i].timeRange.value.begin
    ensures exists i :: 0 <= i < |ps| && e == ps[i].timeRange.value.end
    ensures |ps| > 1 ==>
              && b.Some? && e.Some?
              && forall i :: 0 <= i < |ps| ==>
                   && ps[i].timeRange.value.begin.Some? && ps[i].timeRange.value.end.Some?
                   && LessEq(b.value, ps[i].timeRange.value.begin.value)
                   && LessEq(ps[i].timeRange.value.end.value, e.value)
  {
    assert forall i :: 0 <= i < |ps| ==> Begins(ps)[i] == ps[i].timeRange.value.begin;
    assert forall i :: 0 <= i < |ps| ==> Ends(ps)[i] == ps[i].timeRange.value.end;
  }

  /** The time range spans the children, from the earliest begin to the
      latest end. */
  lemma AddPeriodsTimeRange(lib: Library, periods: seq<Option<Overview>>, groupByMonth: bool)
    requires AddPeriods(lib, periods, groupByMonth).Ok?
    requires |Qualifying(Present(periods))| > 0
    ensures var o, ps := AddPeriods(lib, periods, groupByMonth).value, Qualifying(Present(periods));
            && AllRanged(ps) && o.timeRange.Some?
            && (exists i :: 0 <= i < |ps| && o.timeRange.value.begin == ps[i].timeRange.value.begin)
            && (exists i :: 0 <= i < |ps| && o.timeRange.value.end == ps[i].timeRange.value.end)
            && (|ps| > 1 ==>
                  && o.timeRange.value.begin.Some? && o.timeRange.value.end.Some?
                  && forall i :: 0 <= i < |ps| ==>
                       && ps[i].timeRange.value.begin.Some? && ps[i].timeRange.value.end.Some?
                       && LessEq(o.timeRange.value.begin.value, ps[i].timeRange.value.begin.value)
                       && LessEq(ps[i].timeRange.value.end.value, o.timeRange.value.end.value))
  {
    var ps := Qualifying(Present(periods));
    var o := AddPeriods(lib, periods, groupByMonth).value;
    AddPeriodsFields(lib, periods, groupByMonth);
    hide AddPeriods, Qualifying, Present, PyMin, PyMax;
    SpanOfChildren(ps, o.timeRange.value.begin, o.timeRange.value.end);
  }

  /** The footprint count sums the counts of the children with a usable
      footprint, and the merge fails when one of those counts is `None`. */
  lemma AddPeriodsFootprintCount(lib: Library, periods: seq<Option<Overview>>, groupByMonth: bool)
    requires AddPeriods(lib, periods, groupByMonth).Ok?
    requires |Qualifying(Present(periods))| > 0
    ensures var o, valid := AddPeriods(lib, periods, groupByMonth).value,
                            WithValidGeometries(lib, Qualifying(Present(periods)));
            && (forall i :: 0 <= i < |valid| ==> valid[i].footprintCount.Some?)
            && o.footprintCount == Some(SumPresent(FootprintCounts(valid)))
  {
    AddPeriodsFields(lib, periods, groupByMonth);
    var valid := WithValidGeometries(lib, Qualifying(Present(periods)));
    hide AddPeriods, Qualifying, Present, WithValidGeometries;
    SumStrictPresent(FootprintCounts(valid));
    assert forall i :: 0 <= i < |valid| ==> FootprintCounts(valid)[i] == valid[i].footprintCount;
  }

  lemma {:induction false} SumStrictPresent(xs: seq<Option<int>>)
    requires SumStrict(xs).Ok?
    ensures SumStrict(xs).value == SumPresent(xs)
  {
    if |xs| > 0 {
      SumStrictPresent(xs[..|xs| - 1]);
    }
  }

  // ---------------------------------------------------------------------
  // calculate_summary

  /** A dataset found by the search: its id, label, start time, the day of
      its centre time in the grouping time zone, and its shape. */
  datatype Found = Found(datasetId: string, datasetLabel: string, startTime: DateTime, day: Date, shape: Option<Shape>)

  /** The stepped timestamp of day `d`: `begin`'s time of day on `d`. */
  function At(d: Date, begin: DateTime): DateTime {
    DateTime(d, begin.hour, begin.minute, begin.second)
  }

  /** The days of `pd.date_range(begin, end, closed="left")` from day `d`
      on: one step per day at `begin`'s time of day, while before `end`. */
  function DaysFrom(d: Date, begin: DateTime, end: DateTime): (r: seq<Date>)
    requires ValidDate(d) && ValidDateTime(end)
    ensures forall i :: 0 <= i < |r| ==> ValidDate(r[i]) && Less(At(r[i], begin), end) && !DateLess(r[i], d)
    decreases DayNumber(end.date) - DayNumber(d) + 1
  {
    if !Less(At(d, begin), end) then []
    else
      DayNumberInjective(d, end.date);
      var n := NextDay(d);
      if n.year <= MaxYear then [d] + DaysFrom(n, begin, end) else [d]
  }

  /** A day is in the range exactly when it is no earlier than `d` and its
      stepped timestamp is before `end`. */
  lemma {:induction false} DaysFromMembers(d: Date, begin: DateTime, end: DateTime, x: Date)
    requires ValidDate(d) && ValidDateTime(end) && ValidDate(x)
    ensures x in DaysFrom(d, begin, end) <==> !DateLess(x, d) && Less(At(x, begin), end)
    decreases DayNumber(end.date) - DayNumber(d) + 1
  {
    if Less(At(d, begin), end) {
      DayNumberInjective(d, end.date);
      var n := NextDay(d);
      if n.year <= MaxYear {
        assert DaysFrom(d, begin, end) == [d] + DaysFrom(n, begin, end);
        DaysFromMembers(n, begin, end, x);
        DayNumberInjective(x, d);
        DayNumberInjective(x, n);
      } else {
        assert DaysFrom(d, begin, end) == [d];
        assert d == Date(MaxYear, 12, 31);
      }
    } else {
      assert DaysFrom(d, begin, end) == [];
      if !DateLess(x, d) && x != d {
        LessIsStrictTotalOrder(At(d, begin), At(x, begin), end);
      }
    }
  }

  function DatasetDays(datasets: seq<Found>): seq<Date> {
    seq(|datasets|, i requires 0 <= i < |datasets| => datasets[i].day)
  }

  /** `dataset_shapes`: the usable shapes, in search order. */
  function UsableShapes(lib: Library, datasets: seq<Found>): (r: seq<Shape>)
    ensures |r| <= |datasets|
  {
    if |datasets| == 0 then []
    else
      var init := UsableShapes(lib, datasets[..|datasets| - 1]);
      var last := datasets[|datasets| - 1];
      if Usable(lib, last.shape) then init + [last.shape.value] else init
  }

  /** `_dataset_to_feature`. */
  function ToFeature(ds: Found): Feature
    requires ds.shape.Some?
  {
    Feature(ds.shape.value, map["id" := ds.datasetId, "label" := ds.datasetLabel, "start_time" := IsoFormat(ds.startTime)])
  }

  /** `_datasets_to_feature`: a feature for each dataset whose shape is
      truthy. */
  function ToFeatures(lib: Library, datasets: seq<Found>): (r: seq<Feature>)
    ensures |r| <= |datasets|
  {
    if |datasets| == 0 then []
    else
      var last := datasets[|datasets| - 1];
      ToFeatures(lib, datasets[..|datasets| - 1]) + (if Truthy(lib, last.shape) then [ToFeature(last)] else [])
  }

  /** The features are those of the datasets with a truthy shape. */
  lemma {:induction false} ToFeaturesMembers(lib: Library, datasets: seq<Found>, f: Feature)
    ensures f in ToFeatures(lib, datasets) <==>
              exists i :: 0 <= i < |datasets| && Truthy(lib, datasets[i].shape) && f == ToFeature(datasets[i])
  {
    hide ToFeature;
    if |datasets| > 0 {
      var n := |datasets| - 1;
      var init, last := datasets[..n], datasets[n];
      var tail := if Truthy(lib, last.shape) then [ToFeature(last)] else [];
      assert ToFeatures(lib, datasets) == ToFeatures(lib, init) + tail;
      ToFeaturesMembers(lib, init, f);
      if f in ToFeatures(lib, datasets) {
        if f in ToFeatures(lib, init) {
          var i :| 0 <= i < |init| && Truthy(lib, init[i].shape) && f == ToFeature(init[i]);
          assert datasets[i] == init[i];
        } else {
          assert f in tail;
          assert Truthy(lib, datasets[n].shape) && f == ToFeature(datasets[n]);
        }
      }
      if exists i :: 0 <= i < |datasets| && Truthy(lib, datasets[i].shape) && f == ToFeature(datasets[i]) {
        var i :| 0 <= i < |datasets| && Truthy(lib, datasets[i].shape) && f == ToFeature(datasets[i]);
        if i < n {
          assert init[i] == datasets[i];
        } else {
          assert f in tail;
        }
      }
    }
  }

  /** `calculate_summary(product, Range(begin, end))` over the datasets the
      search returned. */
  function CalculateSummary(lib: Library, datasets: seq<Found>, begin: DateTime, end: DateTime): (r: Result<Overview>)
    requires ValidDateTime(begin) && ValidDateTime(end)
  {
    var shapes := UsableShapes(lib, datasets);
    var footprint :- UnionOrNone(lib, shapes);
    var zeros := map d | d in DaysFrom(begin.date, begin, end) :: 0;
    var dayCounts := Update(zeros, CounterOf(DatasetDays(datasets)));
    var geojson := if 0 < |shapes| < MaxDatasetsToDisplayIndividually then Some(ToFeatures(lib, datasets)) else None;
    Ok(Overview(|datasets|, Some(dayCounts), geojson, Some("day"), Some(Range(Some(begin), Some(end))),
                footprint, Some(|shapes|)))
  }

  /** The day counts of a summary: every day of `[begin, end)` is a key
      (with count 0 when no dataset falls on it), every dataset's day is a
      key, each day counts its datasets, and the counts add up to the
      number of datasets. The footprint count never exceeds the dataset
      count, and the GeoJSON is present exactly for 1..599 usable shapes. */
  lemma CalculateSummaryCounts(lib: Library, datasets: seq<Found>, begin: DateTime, end: DateTime, d: Date)
    requires ValidDateTime(begin) && ValidDateTime(end) && ValidDate(d)
    requires CalculateSummary(lib, datasets, begin, end).Ok?
    ensures var o := CalculateSummary(lib, datasets, begin, end).value;
            && o.datasetCount == |datasets|
            && o.datasetCounts.Some?
            && (d in o.datasetCounts.value <==>
                  (!DateLess(d, begin.date) && Less(At(d, begin), end)) || d in DatasetDays(datasets))
            && Counters.Get(o.datasetCounts.value, d) == multiset(DatasetDays(datasets))[d]
            && Total(o.datasetCounts.value) == |datasets|
            && o.footprintCount.Some? && 0 <= o.footprintCount.value <= o.datasetCount
            && (o.datasetsGeojson.Some? <==> 0 < o.footprintCount.value < MaxDatasetsToDisplayIndividually)
            && o.period == Some("day")
  {
    var days := DatasetDays(datasets);
    var zeros := map x | x in DaysFrom(begin.date, begin, end) :: 0;
    DaysFromMembers(begin.date, begin, end, d);
    TotalUpdate(zeros, CounterOf(days));
    CounterOfTotal(days);
    ZerosTotal(zeros);
  }

  lemma {:induction false} ZerosTotal(z: Counter<Date>)
    requires forall d :: d in z ==> z[d] == 0
    ensures Total(z) == 0
    decreases |z.Keys|
  {
    if z != map[] {
      var k :| k in z;
      TotalRemove(z, k);
      ZerosTotal(z - {k});
    }
  }

  // ---------------------------------------------------------------------
  // FileSummaryStore

  /** `timeline.json` as this revision writes it. */
  datatype Timeline = Timeline(
    totalCount: int,
    footprintCount: Option<int>,
    datasetsGeojson: Option<seq<Feature>>,
    period: Option<string>,
    timeRange: Option<(string, string)>,
    series: Option<seq<(string, nat)>>)

  /** `_summary_to_file`'s JSON document: a time range needs both ends, and
      the series is written only for a non-empty counter. */
  function ToTimeline(s: Overview): (r: Result<Timeline>)
    ensures r.Err? <==> s.timeRange.Some? && (s.timeRange.value.begin.None? || s.timeRange.value.end.None?)
  {
    var range :- WrittenRange(s.timeRange);
    Ok(Timeline(s.datasetCount, s.footprintCount, s.datasetsGeojson, s.period, range, WrittenSeries(s.datasetCounts)))
  }

  /** `FileSummaryStore.put`: nothing for an empty year or month; the month
      folder is created with its parents (`FileExistsError` when it is there
      already); any other summary goes into a folder that must exist. */
  function Put(lib: Library, fs: Tree<Timeline>, product: Option<string>, year: Option<int>, month: Option<int>,
               s: Overview): (r: Result<Tree<Timeline>>)
  {
    var path := SummaryPath(product, year, month);
    if s.datasetCount == 0 && (GivenNumber(year) || GivenNumber(month)) then Ok(fs)
    else
      var fs1 :- if month.None? then Ok(fs)
                 else if path in fs then Err(FileExistsError)
                 else Ok(MakeDirs(fs, path));
      if path !in fs1 then Err(FileNotFoundError)
      else
        var timeline :- ToTimeline(s);
        Ok(WriteFiles(fs1, path, timeline, WriteCoverage(lib, s.footprintGeometry)))
  }

  /** `_read_summary`: both files are opened without a guard. */
  function ReadSummary(folder: Folder<Timeline>): (r: Result<Overview>)
    ensures folder.timeline.None? ==> r == Err(FileNotFoundError)
    ensures folder.timeline.Some? && folder.coverage.None? ==> r == Err(DriverError)
    ensures folder.timeline.Some? && folder.coverage.Some? && |folder.coverage.value| > 1 ==> r.Err?
  {
    if folder.timeline.None? then Err(FileNotFoundError)
    else if folder.coverage.None? then Err(DriverError)
    else
      var t := folder.timeline.value;
      var footprint :- ReadCoverage(folder.coverage.value);
      var counts :- ReadCounts(t.series);
      var range :- ReadTimeRange(t.timeRange);
      Ok(Overview(t.totalCount, counts, t.datasetsGeojson, t.period, range, footprint, t.footprintCount))
  }

  /** `FileSummaryStore.get`: `None` when the folder does not exist. */
  function Get(fs: Tree<Timeline>, product: Option<string>, year: Option<int>, month: Option<int>): (r: Result<Option<Overview>>)
    ensures SummaryPath(product, year, month) !in fs ==> r == Ok(None)
  {
    var path := SummaryPath(product, year, month);
    if path !in fs then Ok(None)
    else
      var s :- ReadSummary(fs[path]);
      Ok(Some(s))
  }

  /** A summary the store can write: day keys and time-range ends are real
      dates and instants, and both ends are present. */
  predicate Storable(s: Overview) {
    && (s.datasetCounts.Some? ==> forall d :: d in s.datasetCounts.value ==> ValidDate(d))
    && (s.timeRange.Some? ==>
          && s.timeRange.value.begin.Some? && ValidDateTime(s.timeRange.value.begin.value)
          && s.timeRange.value.end.Some? && ValidDateTime(s.timeRange.value.end.value))
  }

  /** What reading back a written summary gives: an empty counter and an
      empty footprint come back as `None`. */
  function Stored(lib: Library, s: Overview): Overview {
    s.(datasetCounts := if s.datasetCounts.Some? && s.datasetCounts.value != map[] then s.datasetCounts else None,
       footprintGeometry := if Truthy(lib, s.footprintGeometry) then s.footprintGeometry else None)
  }

  /** A written folder reads back as `Stored`. */
  lemma ReadWritten(lib: Library, s: Overview)
    requires Storable(s)
    ensures ToTimeline(s).Ok?
    ensures ReadSummary(Folder(Some(ToTimeline(s).value), Some(WriteCoverage(lib, s.footprintGeometry))))
            == Ok(Stored(lib, s))
  {
    CoverageRoundTrip(lib, s.footprintGeometry);
    CountsRoundTrip(s.datasetCounts);
    TimeRangeRoundTrip(s.timeRange);
    hide ReadCoverage, WriteCoverage, ReadCounts, WrittenSeries, ReadTimeRange, WrittenRange;
  }

  /** Put-then-get: a written summary reads back as `Stored`, and every
      other folder keeps its files. */
  lemma PutGet(lib: Library, fs: Tree<Timeline>, product: Option<string>, year: Option<int>, month: Option<int>,
               s: Overview)
    requires Storable(s)
    requires Put(lib, fs, product, year, month, s).Ok?
    requires !(s.datasetCount == 0 && (GivenNumber(year) || GivenNumber(month)))
    ensures var fs2, path := Put(lib, fs, product, year, month, s).value, SummaryPath(product, year, month);
            && Get(fs2, product, year, month) == Ok(Some(Stored(lib, s)))
            && forall p :: p in fs && p != path ==> p in fs2 && fs2[p] == fs[p]
  {
    ReadWritten(lib, s);
  }

  /** An empty year or month summary writes nothing. */
  lemma PutEmptyIsNoop(lib: Library, fs: Tree<Timeline>, product: Option<string>, year: Option<int>,
                       month: Option<int>, s: Overview)
    requires s.datasetCount == 0 && (GivenNumber(year) || GivenNumber(month))
    ensures Put(lib, fs, product, year, month, s) == Ok(fs)
  {
  }

  /** A second write of the same month raises `FileExistsError`, and a
      summary without a month needs its folder to exist already. */
  lemma PutFolderErrors(lib: Library, fs: Tree<Timeline>, product: Option<string>, year: Option<int>,
                        month: Option<int>, s: Overview)
    requires !(s.datasetCount == 0 && (GivenNumber(year) || GivenNumber(month)))
    ensures month.Some? && SummaryPath(product, year, month) in fs ==>
              Put(lib, fs, product, year, month, s) == Err(FileExistsError)
    ensures month.None? && SummaryPath(product, year, month) !in fs ==>
              Put(lib, fs, product, year, month, s) == Err(FileNotFoundError)
  {
  }

  /** Writing keeps the folder tree a tree. */
  lemma PutPrefixClosed(lib: Library, fs: Tree<Timeline>, product: Option<string>, year: Option<int>,
                        month: Option<int>, s: Overview)
    requires PrefixClosed(fs)
    requires Put(lib, fs, product, year, month, s).Ok?
    ensures PrefixClosed(Put(lib, fs, product, year, month, s).value)
  {
    MakeDirsPrefixClosed(fs, SummaryPath(product, year, month));
  }

  // ---------------------------------------------------------------------
  // list_complete_products

  /** The products whose overall summary `has` finds, in the given order;
      a failing read propagates. */
  function WithSummaries(fs: Tree<Timeline>, products: seq<string>): (r: Result<seq<string>>)
    ensures r.Ok? ==> forall p :: p in r.value <==>
              p in products && Get(fs, Some(p), None, None).Ok? && Get(fs, Some(p), None, None).value.Some?
    ensures r.Ok? ==> forall p :: multiset(r.value)[p] == if p in r.value then multiset(products)[p] else 0
  {
    if |products| == 0 then Ok([])
    else
      var init := products[..|products| - 1];
      var p := products[|products| - 1];
      assert products == init + [p];
      var found :- WithSummaries(fs, init);
      var s :- Get(fs, Some(p), None, None);
      Ok(if s.Some? then found + [p] else found)
  }

  function Identity(s: string): string {
    s
  }

  /** `sorted(p.name for p in products if store.has(p.name, None, None))`. */
  function ListCompleteProducts(fs: Tree<Timeline>, products: seq<string>): (r: Result<seq<string>>)
  {
    var found :- WithSummaries(fs, products);
    Ok(Sorting.SortBy(found, Identity, Strings.Less))
  }

  /** The listed products are exactly those with an overall summary, each
      once per occurrence in the product list, in code-point order. */
  lemma ListCompleteProductsSpec(fs: Tree<Timeline>, products: seq<string>)
    requires ListCompleteProducts(fs, products).Ok?
    ensures var r := ListCompleteProducts(fs, products).value;
            && (forall p :: p in r <==>
                  p in products && Get(fs, Some(p), None, None).Ok? && Get(fs, Some(p), None, None).value.Some?)
            && (forall p :: multiset(r)[p] == if p in r then multiset(products)[p] else 0)
            && forall i, j :: 0 <= i < j < |r| ==> Strings.LessEq(r[i], r[j])
  {
    var found := WithSummaries(fs, products).value;
    var r := Sorting.SortBy(found, Identity, Strings.Less);
    Sorting.StringLessIsStrictTotal();
    Sorting.SortBySorted(found, Identity, Strings.Less);
    assert forall p :: p in r <==> p in found by {
      assert forall p :: p in r <==> p in multiset(r);
    }
    forall i, j | 0 <= i < j < |r|
      ensures Strings.LessEq(r[i], r[j])
    {
      Strings.LessTotal(r[i], r[j]);
    }
  }
}
