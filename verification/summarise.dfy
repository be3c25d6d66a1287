/** `TimePeriodOverview` of `cubedash/summary/_summarise.py`: the revision
    that carries the combined GeoJSON of small merges, and whose merge of
    no periods is `empty()`, with every field but the count `None`. */
module Summarise {
  import opened Wrappers
  import opened Calendar
  import opened Counters
  import opened Aggregate
  import opened Geometry

  datatype Overview = Overview(
    datasetCount: int,
    timelineDatasetCounts: Option<Counter<Date>>,
    gridDatasetCounts: Option<Counter<GridCell>>,
    datasetsGeojson: Option<seq<Feature>>,       // the features of a `FeatureCollection`
    timelinePeriod: Option<string>,
    timeRange: Option<Range>,
    footprintGeometry: Option<Shape>,
    footprintCount: Option<int>,
    newestDatasetCreationTime: Option<DateTime>,
    crses: Option<set<string>>,
    summaryGenTime: Option<DateTime>)

  /** The default of `add_periods(..., max_individual_datasets=800)`. */
  const MaxIndividualDatasets: int := 800

  /** `empty()`: count 0 and every positional field `None`; the generation
      time takes its default, the current time. */
  function Empty(now: DateTime): (o: Overview)
    ensures o.datasetCount == 0 && o.summaryGenTime == Some(now)
    ensures o.timelineDatasetCounts.None? && o.gridDatasetCounts.None? && o.datasetsGeojson.None?
    ensures o.timelinePeriod.None? && o.timeRange.None? && o.footprintGeometry.None?
    ensures o.footprintCount.None? && o.newestDatasetCreationTime.None? && o.crses.None?
  {
    Overview(0, None, None, None, None, None, None, None, None, None, Some(now))
  }

  function DatasetCount(p: Overview): int {
    p.datasetCount
  }

  /** The children that take part in the merge. */
  function Qualifying(periods: seq<Option<Overview>>): seq<Overview> {
    NonEmptyPeriods(periods, DatasetCount)
  }

  function Counts(ps: seq<Overview>): seq<int> {
    seq(|ps|, i requires 0 <= i < |ps| => ps[i].datasetCount)
  }

  /** `Counter.update(None)` adds nothing, so a missing counter is empty. */
  function Timelines(ps: seq<Overview>): seq<Counter<Date>> {
    seq(|ps|, i requires 0 <= i < |ps| => ps[i].timelineDatasetCounts.GetOr(map[]))
  }

  function Grids(ps: seq<Overview>): seq<Counter<GridCell>> {
    seq(|ps|, i requires 0 <= i < |ps| => ps[i].gridDatasetCounts.GetOr(map[]))
  }

  /** Every child has a time range, so `r.time_range.begin` does not raise
      `AttributeError`. */
  predicate AllRanged(ps: seq<Overview>) {
    forall i :: 0 <= i < |ps| ==> ps[i].timeRange.Some?
  }

  /** Each child's `time_range`, which may be `None`. */
  function Ranges(ps: seq<Overview>): (r: seq<Option<Range>>)
    ensures |r| == |ps| && forall i :: 0 <= i < |ps| ==> r[i] == ps[i].timeRange
  {
    seq(|ps|, i requires 0 <= i < |ps| => ps[i].timeRange)
  }

  function Begins(ps: seq<Overview>): seq<Option<DateTime>>
    requires AllRanged(ps)
  {
    seq(|ps|, i requires 0 <= i < |ps| => ps[i].timeRange.value.begin)
  }

  function Ends(ps: seq<Overview>): seq<Option<DateTime>>
    requires AllRanged(ps)
  {
    seq(|ps|, i requires 0 <= i < |ps| => ps[i].timeRange.value.end)
  }

  /** The lazy `min` over the children's begins succeeds only when every
      child has a range, and then it is `min` over the begins. */
  lemma MinBeginOfChildren(ps: seq<Overview>)
    requires |ps| > 0
    ensures MinBegin(Ranges(ps)).Ok? ==> AllRanged(ps)
    ensures AllRanged(ps) ==> MinBegin(Ranges(ps)) == PyMin(Begins(ps))
  {
    if AllRanged(ps) {
      MinBeginAllRanged(Ranges(ps));
      assert BeginsOf(Ranges(ps)) == Begins(ps);
    }
  }

  function NewestTimes(ps: seq<Overview>): seq<Option<DateTime>> {
    seq(|ps|, i requires 0 <= i < |ps| => ps[i].newestDatasetCreationTime)
  }

  function GenTimes(ps: seq<Overview>): seq<Option<DateTime>> {
    seq(|ps|, i requires 0 <= i < |ps| => ps[i].summaryGenTime)
  }

  function CrsSets(ps: seq<Overview>): seq<Option<set<string>>> {
    seq(|ps|, i requires 0 <= i < |ps| => ps[i].crses)
  }

  /** `p.footprint_count and p.footprint_geometry and p.footprint_geometry.is_valid
      and not p.footprint_geometry.is_empty`. */
  predicate HasValidFootprint(lib: Library, p: Overview) {
    p.footprintCount.Some? && p.footprintCount.value != 0 && Usable(lib, p.footprintGeometry)
  }

  function WithValidGeometries(lib: Library, ps: seq<Overview>): (r: seq<Overview>)
    ensures forall p :: p in r <==> p in ps && HasValidFootprint(lib, p)
    ensures forall i :: 0 <= i < |r| ==>
              && HasValidFootprint(lib, r[i])
              && r[i].footprintGeometry.Some? && r[i].footprintCount.Some?
  {
    if |ps| == 0 then []
    else
      var init := ps[..|ps| - 1];
      var last := ps[|ps| - 1];
      assert ps == init + [last];
      if HasValidFootprint(lib, last) then WithValidGeometries(lib, init) + [last]
      else WithValidGeometries(lib, init)
  }

  function Footprints(ps: seq<Overview>): seq<Shape>
    requires forall i :: 0 <= i < |ps| ==> ps[i].footprintGeometry.Some?
  {
    seq(|ps|, i requires 0 <= i < |ps| => ps[i].footprintGeometry.value)
  }

  function FootprintCounts(ps: seq<Overview>): seq<int>
    requires forall i :: 0 <= i < |ps| ==> ps[i].footprintCount.Some?
  {
    seq(|ps|, i requires 0 <= i < |ps| => ps[i].footprintCount.value)
  }

  /** `period` after the loop: the last child's period. */
  function LastPeriod(ps: seq<Overview>): Option<string> {
    if |ps| == 0 then None else ps[|ps| - 1].timelinePeriod
  }

  /** `_group_counter_if_needed` with a period that may be `None`, which is
      neither `day` nor `month`. */
  function GroupIfNeeded(counter: Counter<Date>, period: Option<string>): (r: (Counter<Date>, Option<string>))
    ensures period.None? ==> r == (counter, None)
    ensures period.Some? ==> r == (GroupCounterIfNeeded(counter, period.value).0,
                                   Some(GroupCounterIfNeeded(counter, period.value).1))
  {
    if period.None? then (counter, None)
    else
      var (c, p) := GroupCounterIfNeeded(counter, period.value);
      (c, Some(p))
  }

  // ---------------------------------------------------------------------
  // _combined_geojson

  /** How many features a child contributes. */
  function FeatureCounts(ps: seq<Overview>): (r: seq<int>)
    ensures |r| == |ps|
  {
    seq(|ps|, i requires 0 <= i < |ps| => if ps[i].datasetsGeojson.Some? then |ps[i].datasetsGeojson.value| else 0)
  }

  /** `_combined_geojson`: the children's features in period order, children
      without GeoJSON skipped. */
  function CombinedGeojson(ps: seq<Overview>): (r: seq<Feature>)
    ensures forall f :: f in r <==>
              exists i :: 0 <= i < |ps| && ps[i].datasetsGeojson.Some? && f in ps[i].datasetsGeojson.value
  {
    if |ps| == 0 then []
    else
      var init := ps[..|ps| - 1];
      var last := ps[|ps| - 1];
      assert forall i :: 0 <= i < |init| ==> init[i] == ps[i];
      CombinedGeojson(init) + last.datasetsGeojson.GetOr([])
  }

  /** The combined collection holds as many features as the children
      together. */
  lemma {:induction false} CombinedGeojsonLength(ps: seq<Overview>)
    ensures |CombinedGeojson(ps)| == Sum(FeatureCounts(ps))
  {
    if |ps| > 0 {
      var n := |ps| - 1;
      CombinedGeojsonLength(ps[..n]);
      assert FeatureCounts(ps)[..n] == FeatureCounts(ps[..n]);
    }
  }

  /** Combining keeps period order: the features of two runs of children
      are those of the first run followed by those of the second. */
  lemma {:induction false} CombinedGeojsonAppend(a: seq<Overview>, b: seq<Overview>)
    ensures CombinedGeojson(a + b) == CombinedGeojson(a) + CombinedGeojson(b)
    decreases |b|
  {
    if |b| == 0 {
      assert a + b == a;
    } else {
      var n := |b| - 1;
      assert (a + b)[..|a + b| - 1] == a + b[..n];
      CombinedGeojsonAppend(a, b[..n]);
    }
  }

  // ---------------------------------------------------------------------
  // add_periods

  /** `TimePeriodOverview.add_periods(periods, max_individual_datasets)`;
      `now` is the generation time `empty()` stamps. */
  function AddPeriods(lib: Library, periods: seq<Option<Overview>>, maxIndividual: int, now: DateTime): (r: Result<Overview>)
  {
    var ps := Qualifying(periods);
    if |ps| == 0 then Ok(Empty(now))
    else
      var (timeline, period) := GroupIfNeeded(UpdateAll(Timelines(ps)), LastPeriod(ps));
      var grid := UpdateAll(Grids(ps));
      var valid := WithValidGeometries(lib, ps);
      var union :- UnionWithRetry(lib, Footprints(valid));
      var total := Sum(Counts(ps));
      var geojson := if total < maxIndividual then Some(CombinedGeojson(ps)) else None;
      var begin :- MinBegin(Ranges(ps));
      MinBeginOfChildren(ps);
      var end :- PyMax(Ends(ps));
      var crses :- PyUnion(CrsSets(ps));
      Ok(Overview(
        total,
        Some(timeline),
        Some(grid),
        geojson,
        period,
        Some(Range(begin, end)),
        union,
        Some(Sum(FootprintCounts(valid))),
        MaxPresent(NewestTimes(ps)),
        Some(crses),
        MinPresent(GenTimes(ps))))
  }

  // ---------------------------------------------------------------------
  // Properties of the merge

  /** Each field of a successful merge of at least one child, as the fold
      that computes it. */
  lemma AddPeriodsFields(lib: Library, periods: seq<Option<Overview>>, maxIndividual: int, now: DateTime)
    requires AddPeriods(lib, periods, maxIndividual, now).Ok? && |Qualifying(periods)| > 0
    ensures var o, ps := AddPeriods(lib, periods, maxIndividual, now).value, Qualifying(periods);
            && AllRanged(ps)
            && o.datasetCount == Sum(Counts(ps))
            && (o.timelineDatasetCounts.Some? && o.gridDatasetCounts.Some?)
            && (o.timelineDatasetCounts.value, o.timelinePeriod)
               == GroupIfNeeded(UpdateAll(Timelines(ps)), LastPeriod(ps))
            && o.gridDatasetCounts.value == UpdateAll(Grids(ps))
            && o.datasetsGeojson == (if Sum(Counts(ps)) < maxIndividual then Some(CombinedGeojson(ps)) else None)
            && o.timeRange.Some?
            && PyMin(Begins(ps)) == Ok(o.timeRange.value.begin)
            && PyMax(Ends(ps)) == Ok(o.timeRange.value.end)
            && o.footprintCount == Some(Sum(FootprintCounts(WithValidGeometries(lib, ps))))
            && o.newestDatasetCreationTime == MaxPresent(NewestTimes(ps))
            && o.crses.Some? && PyUnion(CrsSets(ps)) == Ok(o.crses.value)
            && o.summaryGenTime == MinPresent(GenTimes(ps))
  {
    MinBeginOfChildren(Qualifying(periods));
    hide Qualifying, GroupIfNeeded, UpdateAll, WithValidGeometries, UnionWithRetry, CombinedGeojson,
      MinBegin, Ranges, PyMin, PyMax, MaxPresent, MinPresent, PyUnion, Sum;
  }

  /** With no qualifying child the merge is `empty()`. */
  lemma AddPeriodsNone(lib: Library, periods: seq<Option<Overview>>, maxIndividual: int, now: DateTime)
    requires forall i :: 0 <= i < |periods| ==> periods[i].None? || periods[i].value.datasetCount <= 0
    ensures AddPeriods(lib, periods, maxIndividual, now) == Ok(Empty(now))
  {
    NonEmptyPeriodsNone(periods, DatasetCount);
  }

  /** A `None` or empty child changes nothing. */
  lemma AddPeriodsIgnoresEmpty(lib: Library, periods: seq<Option<Overview>>, x: Option<Overview>,
                               maxIndividual: int, now: DateTime)
    requires x.None? || x.value.datasetCount <= 0
    ensures AddPeriods(lib, periods + [x], maxIndividual, now) == AddPeriods(lib, periods, maxIndividual, now)
  {
    var q := periods + [x];
    assert Qualifying(q) == Qualifying(periods) by {
      assert q[..|periods|] == periods;
    }
    hide Qualifying, GroupIfNeeded, UpdateAll, WithValidGeometries, UnionWithRetry, CombinedGeojson,
      PyMin, PyMax, MaxPresent, MinPresent, PyUnion, Sum;
  }

  /** The counts of the merge: the dataset count, the timeline's number of
      elements (grouped or not), every grid cell and the footprint count are
      sums over the qualifying children. */
  lemma AddPeriodsCounts(lib: Library, periods: seq<Option<Overview>>, maxIndividual: int, now: DateTime)
    requires AddPeriods(lib, periods, maxIndividual, now).Ok? && |Qualifying(periods)| > 0
    ensures var o, ps := AddPeriods(lib, periods, maxIndividual, now).value, Qualifying(periods);
            && o.datasetCount == Sum(Counts(ps))
            && o.timelineDatasetCounts.Some?
            && Total(o.timelineDatasetCounts.value) == Sum(TotalsOf(Timelines(ps)))
            && o.gridDatasetCounts.Some?
            && (forall g :: Get(o.gridDatasetCounts.value, g) == Sum(CountsOf(Grids(ps), g)))
            && o.footprintCount == Some(Sum(FootprintCounts(WithValidGeometries(lib, ps))))
  {
    var ps := Qualifying(periods);
    AddPeriodsFields(lib, periods, maxIndividual, now);
    hide AddPeriods, Qualifying;
    UpdateAllTotal(Timelines(ps));
    forall g {
      UpdateAllCounts(Grids(ps), g);
    }
  }

  /** The combined GeoJSON is present exactly when the merged count is below
      the threshold, and then holds every child's features in period order,
      as many as the children together. */
  lemma AddPeriodsGeojson(lib: Library, periods: seq<Option<Overview>>, maxIndividual: int, now: DateTime)
    requires AddPeriods(lib, periods, maxIndividual, now).Ok? && |Qualifying(periods)| > 0
    ensures var o, ps := AddPeriods(lib, periods, maxIndividual, now).value, Qualifying(periods);
            && (o.datasetsGeojson.Some? <==> o.datasetCount < maxIndividual)
            && (o.datasetsGeojson.Some? ==>
                  && o.datasetsGeojson.value == CombinedGeojson(ps)
                  && |o.datasetsGeojson.value| == Sum(FeatureCounts(ps)))
  {
    AddPeriodsFields(lib, periods, maxIndividual, now);
    hide AddPeriods, Qualifying, CombinedGeojson;
    CombinedGeojsonLength(Qualifying(periods));
  }

  /** `min` of the begins and `max` of the ends over at least one child. */
  lemma SpanOfChildren(ps: seq<Overview>, b: Option<DateTime>, e: Option<DateTime>)
    requires |ps| > 0 && AllRanged(ps) && PyMin(Begins(ps)) == Ok(b) && PyMax(Ends(ps)) == Ok(e)
    ensures exists i :: 0 <= i < |ps| && b == ps[i].timeRange.value.begin
    ensures exists i :: 0 <= i < |ps| && e == ps[i].timeRange.value.end
    ensures |ps| > 1 ==>
              && b.Some? && e.Some?
              && forall i :: 0 <= i < |ps| ==>
                   && ps[i].timeRange.value.begin.Some? && ps[i].timeRange.value.end.Some?
                   && LessEq(b.value, ps[i].timeRange.value.begin.value)
                   && LessEq(ps[i].timeRange.value.end.value, e.value)
  {
    assert forall i :: 0 <= i < |ps| ==> Begins(ps)[i] == ps[i].timeRange.value.begin;
    assert forall i :: 0 <= i < |ps| ==> Ends(ps)[i] == ps[i].timeRange.value.end;
  }

  /** The time range spans the children: its begin is the earliest begin and
      its end the latest end, each taken from some child. */
  lemma AddPeriodsTimeRange(lib: Library, periods: seq<Option<Overview>>, maxIndividual: int, now: DateTime)
    requires AddPeriods(lib, periods, maxIndividual, now).Ok? && |Qualifying(periods)| > 0
    ensures var o, ps := AddPeriods(lib, periods, maxIndividual, now).value, Qualifying(periods);
            && AllRanged(ps) && o.timeRange.Some?
            && (exists i :: 0 <= i < |ps| && o.timeRange.value.begin == ps[i].timeRange.value.begin)
            && (exists i :: 0 <= i < |ps| && o.timeRange.value.end == ps[i].timeRange.value.end)
            && (|ps| > 1 ==>
                  && o.timeRange.value.begin.Some? && o.timeRange.value.end.Some?
                  && forall i :: 0 <= i < |ps| ==>
                       && ps[i].timeRange.value.begin.Some? && ps[i].timeRange.value.end.Some?
                       && LessEq(o.timeRange.value.begin.value, ps[i].timeRange.value.begin.value)
                       && LessEq(ps[i].timeRange.value.end.value, o.timeRange.value.end.value))
  {
    var ps := Qualifying(periods);
    var o := AddPeriods(lib, periods, maxIndividual, now).value;
    AddPeriodsFields(lib, periods, maxIndividual, now);
    hide AddPeriods, Qualifying, PyMin, PyMax;
    SpanOfChildren(ps, o.timeRange.value.begin, o.timeRange.value.end);
  }

  /** Comparing the begins or the ends fails exactly when two or more
      children are compared and one of them lacks that end. */
  lemma SpanFails(ps: seq<Overview>)
    requires |ps| > 0 && AllRanged(ps)
    ensures PyMin(Begins(ps)).Err? || PyMax(Ends(ps)).Err? <==>
              |ps| > 1 && exists i ::
                0 <= i < |ps| && (ps[i].timeRange.value.begin.None? || ps[i].timeRange.value.end.None?)
  {
    assert forall i :: 0 <= i < |ps| ==> Begins(ps)[i] == ps[i].timeRange.value.begin;
    assert forall i :: 0 <= i < |ps| ==> Ends(ps)[i] == ps[i].timeRange.value.end;
  }

  /** A merge of at least one child fails exactly when the footprint union
      fails, when a child has no time range (`AttributeError`, unless a
      comparison of earlier begins raises `TypeError` first; see
      `AddPeriodsMissingRange`), when two or more children are compared and
      one lacks a begin or an end (`TypeError`), or when a child has no CRS
      set (`TypeError`). */
  lemma AddPeriodsFails(lib: Library, periods: seq<Option<Overview>>, maxIndividual: int, now: DateTime)
    requires |Qualifying(periods)| > 0
    ensures var ps := Qualifying(periods);
            AddPeriods(lib, periods, maxIndividual, now).Err? <==>
              || UnionWithRetry(lib, Footprints(WithValidGeometries(lib, ps))).Err?
              || !AllRanged(ps)
              || (|ps| > 1 && exists i ::
                    0 <= i < |ps| && (ps[i].timeRange.value.begin.None? || ps[i].timeRange.value.end.None?))
              || (exists i :: 0 <= i < |ps| && ps[i].crses.None?)
  {
    var ps := Qualifying(periods);
    if AllRanged(ps) {
      SpanFails(ps);
    }
    MinBeginOfChildren(ps);
    assert forall i :: 0 <= i < |ps| ==> CrsSets(ps)[i] == ps[i].crses;
    assert AddPeriods(lib, periods, maxIndividual, now).Err? <==>
             || UnionWithRetry(lib, Footprints(WithValidGeometries(lib, ps))).Err?
             || !AllRanged(ps)
             || PyMin(Begins(ps)).Err? || PyMax(Ends(ps)).Err?
             || PyUnion(CrsSets(ps)).Err? by {
      hide Qualifying, GroupIfNeeded, UpdateAll, WithValidGeometries, UnionWithRetry, CombinedGeojson,
        MinBegin, Ranges, PyMin, PyMax, MaxPresent, MinPresent, PyUnion, Sum, Begins, Ends, CrsSets;
    }
  }

  /** Which error a child without a time range gives, once the footprint
      union has succeeded: `min` reads the begins lazily, so with `k` the
      first such child it is `AttributeError` when the children before it
      compare, and otherwise the earlier comparison's `TypeError`. */
  lemma AddPeriodsMissingRange(lib: Library, periods: seq<Option<Overview>>, maxIndividual: int, now: DateTime, k: nat)
    requires UnionWithRetry(lib, Footprints(WithValidGeometries(lib, Qualifying(periods)))).Ok?
    requires k < |Qualifying(periods)| && Qualifying(periods)[k].timeRange.None?
    requires forall i :: 0 <= i < k ==> Qualifying(periods)[i].timeRange.Some?
    ensures var ps := Qualifying(periods);
            AddPeriods(lib, periods, maxIndividual, now)
            == if k <= 1 || forall i :: 0 <= i < k ==> ps[i].timeRange.value.begin.Some?
               then Err(AttributeError) else Err(TypeError)
  {
    var ps := Qualifying(periods);
    MinBeginMissingRange(Ranges(ps), k);
    hide Qualifying, GroupIfNeeded, UpdateAll, WithValidGeometries, UnionWithRetry, CombinedGeojson,
      MinBegin, Ranges, PyMin, PyMax, MaxPresent, MinPresent, PyUnion, Sum;
  }

  /** The latest creation time among the children that have one. */
  lemma NewestOfChildren(ps: seq<Overview>)
    ensures var m := MaxPresent(NewestTimes(ps));
            && (m.None? <==> forall i :: 0 <= i < |ps| ==> ps[i].newestDatasetCreationTime.None?)
            && (forall i :: 0 <= i < |ps| && ps[i].newestDatasetCreationTime.Some? ==>
                  m.Some? && LessEq(ps[i].newestDatasetCreationTime.value, m.value))
  {
    assert forall i :: 0 <= i < |ps| ==> NewestTimes(ps)[i] == ps[i].newestDatasetCreationTime;
  }

  /** The earliest generation time among the children that have one. */
  lemma EarliestGeneration(ps: seq<Overview>)
    ensures var m := MinPresent(GenTimes(ps));
            && (m.None? <==> forall i :: 0 <= i < |ps| ==> ps[i].summaryGenTime.None?)
            && (forall i :: 0 <= i < |ps| && ps[i].summaryGenTime.Some? ==>
                  m.Some? && LessEq(m.value, ps[i].summaryGenTime.value))
  {
    assert forall i :: 0 <= i < |ps| ==> GenTimes(ps)[i] == ps[i].summaryGenTime;
  }

  /** The newest creation time is the latest one given and the generation
      time the earliest; each is `None` when no child has one. */
  lemma AddPeriodsTimes(lib: Library, periods: seq<Option<Overview>>, maxIndividual: int, now: DateTime)
    requires AddPeriods(lib, periods, maxIndividual, now).Ok? && |Qualifying(periods)| > 0
    ensures var o, ps := AddPeriods(lib, periods, maxIndividual, now).value, Qualifying(periods);
            && (o.newestDatasetCreationTime.None? <==>
                  forall i :: 0 <= i < |ps| ==> ps[i].newestDatasetCreationTime.None?)
            && (forall i :: 0 <= i < |ps| && ps[i].newestDatasetCreationTime.Some? ==>
                  && o.newestDatasetCreationTime.Some?
                  && LessEq(ps[i].newestDatasetCreationTime.value, o.newestDatasetCreationTime.value))
            && (o.summaryGenTime.None? <==> forall i :: 0 <= i < |ps| ==> ps[i].summaryGenTime.None?)
            && (forall i :: 0 <= i < |ps| && ps[i].summaryGenTime.Some? ==>
                  && o.summaryGenTime.Some?
                  && LessEq(o.summaryGenTime.value, ps[i].summaryGenTime.value))
  {
    var ps := Qualifying(periods);
    AddPeriodsFields(lib, periods, maxIndividual, now);
    hide AddPeriods, Qualifying, MaxPresent, MinPresent, NewestTimes, GenTimes;
    NewestOfChildren(ps);
    EarliestGeneration(ps);
  }

  lemma CrsesOfChildren(ps: seq<Overview>)
    requires PyUnion(CrsSets(ps)).Ok?
    ensures forall i :: 0 <= i < |ps| ==> ps[i].crses.Some?
    ensures forall c :: c in PyUnion(CrsSets(ps)).value <==>
              exists i :: 0 <= i < |ps| && c in ps[i].crses.value
  {
    assert forall i :: 0 <= i < |ps| ==> CrsSets(ps)[i] == ps[i].crses;
  }

  /** The CRSes of the merge are those of the children. */
  lemma AddPeriodsCrses(lib: Library, periods: seq<Option<Overview>>, maxIndividual: int, now: DateTime)
    requires AddPeriods(lib, periods, maxIndividual, now).Ok? && |Qualifying(periods)| > 0
    ensures var o, ps := AddPeriods(lib, periods, maxIndividual, now).value, Qualifying(periods);
            && o.crses.Some?
            && (forall i :: 0 <= i < |ps| ==> ps[i].crses.Some?)
            && forall c :: c in o.crses.value <==> exists i :: 0 <= i < |ps| && c in ps[i].crses.value
  {
    var ps := Qualifying(periods);
    AddPeriodsFields(lib, periods, maxIndividual, now);
    hide AddPeriods, Qualifying, PyUnion, CrsSets;
    CrsesOfChildren(ps);
  }

  /** Grouping changes the period exactly when it coarsens, and otherwise
      keeps the counter. */
  lemma GroupIfNeededChanges(counter: Counter<Date>, period: Option<string>)
    ensures GroupIfNeeded(counter, period).1 != period <==>
              |counter| > GroupingThreshold && period in {Some("day"), Some("month")}
    ensures GroupIfNeeded(counter, period).1 == period ==> GroupIfNeeded(counter, period).0 == counter
  {
  }

  /** The timeline is grouped only under a `day` or `month` period with more
      than 365 keys; otherwise it holds each day as often as the children
      together, under the last child's period. */
  lemma AddPeriodsTimeline(lib: Library, periods: seq<Option<Overview>>, maxIndividual: int, now: DateTime, d: Date)
    requires AddPeriods(lib, periods, maxIndividual, now).Ok? && |Qualifying(periods)| > 0
    ensures var o, ps := AddPeriods(lib, periods, maxIndividual, now).value, Qualifying(periods);
            var merged := UpdateAll(Timelines(ps));
            && o.timelineDatasetCounts.Some?
            && (o.timelinePeriod == LastPeriod(ps) ==>
                  Get(o.timelineDatasetCounts.value, d) == Sum(CountsOf(Timelines(ps), d)))
            && (o.timelinePeriod != LastPeriod(ps) <==>
                  |merged| > GroupingThreshold && LastPeriod(ps) in {Some("day"), Some("month")})
  {
    var ps := Qualifying(periods);
    AddPeriodsFields(lib, periods, maxIndividual, now);
    hide AddPeriods, Qualifying, GroupIfNeeded, UpdateAll;
    GroupIfNeededChanges(UpdateAll(Timelines(ps)), LastPeriod(ps));
    UpdateAllCounts(Timelines(ps), d);
  }
}
