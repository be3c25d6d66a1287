/** `TimePeriodOverview` of `cubedash/summary/_model.py`: the revision with
    `size_bytes`, whose merge of no periods is an all-empty overview rather
    than an error. */
module SummaryModel {
  import opened Wrappers
  import opened Calendar
  import opened Counters
  import opened Aggregate
  import opened Geometry

  datatype Overview = Overview(
    datasetCount: int,
    timelineDatasetCounts: Counter<Date>,
    gridDatasetCounts: Counter<GridCell>,
    timelinePeriod: string,
    timeRange: Range,
    footprintGeometry: Option<Shape>,
    footprintCount: int,
    newestDatasetCreationTime: Option<DateTime>,   // the most recently created dataset
    crses: set<string>,
    sizeBytes: Option<int>,
    summaryGenTime: Option<DateTime>)              // `None` until the server sets it

  function DatasetCount(p: Overview): int {
    p.datasetCount
  }

  /** The children that take part in the merge. */
  function Qualifying(periods: seq<Option<Overview>>): seq<Overview> {
    NonEmptyPeriods(periods, DatasetCount)
  }

  function Counts(ps: seq<Overview>): seq<int> {
    seq(|ps|, i requires 0 <= i < |ps| => ps[i].datasetCount)
  }

  function Timelines(ps: seq<Overview>): seq<Counter<Date>> {
    seq(|ps|, i requires 0 <= i < |ps| => ps[i].timelineDatasetCounts)
  }

  function Grids(ps: seq<Overview>): seq<Counter<GridCell>> {
    seq(|ps|, i requires 0 <= i < |ps| => ps[i].gridDatasetCounts)
  }

  function Begins(ps: seq<Overview>): seq<Option<DateTime>> {
    seq(|ps|, i requires 0 <= i < |ps| => ps[i].timeRange.begin)
  }

  function Ends(ps: seq<Overview>): seq<Option<DateTime>> {
    seq(|ps|, i requires 0 <= i < |ps| => ps[i].timeRange.end)
  }

  function NewestTimes(ps: seq<Overview>): seq<Option<DateTime>> {
    seq(|ps|, i requires 0 <= i < |ps| => ps[i].newestDatasetCreationTime)
  }

  function GenTimes(ps: seq<Overview>): seq<Option<DateTime>> {
    seq(|ps|, i requires 0 <= i < |ps| => ps[i].summaryGenTime)
  }

  function Sizes(ps: seq<Overview>): seq<Option<int>> {
    seq(|ps|, i requires 0 <= i < |ps| => ps[i].sizeBytes)
  }

  function CrsSets(ps: seq<Overview>): seq<set<string>> {
    seq(|ps|, i requires 0 <= i < |ps| => ps[i].crses)
  }

  /** `p.footprint_count and p.footprint_geometry and p.footprint_geometry.is_valid
      and not p.footprint_geometry.is_empty`. */
  predicate HasValidFootprint(lib: Library, p: Overview) {
    p.footprintCount != 0 && Usable(lib, p.footprintGeometry)
  }

  /** The periods whose footprint takes part in the union, in order. */
  function WithValidGeometries(lib: Library, ps: seq<Overview>): (r: seq<Overview>)
    ensures forall p :: p in r <==> p in ps && HasValidFootprint(lib, p)
    ensures forall i :: 0 <= i < |r| ==> HasValidFootprint(lib, r[i]) && r[i].footprintGeometry.Some?
  {
    if |ps| == 0 then []
    else
      var init := ps[..|ps| - 1];
      var last := ps[|ps| - 1];
      assert ps == init + [last];
      if HasValidFootprint(lib, last) then WithValidGeometries(lib, init) + [last]
      else WithValidGeometries(lib, init)
  }

  function Footprints(ps: seq<Overview>): seq<Shape>
    requires forall i :: 0 <= i < |ps| ==> ps[i].footprintGeometry.Some?
  {
    seq(|ps|, i requires 0 <= i < |ps| => ps[i].footprintGeometry.value)
  }

  function FootprintCounts(ps: seq<Overview>): seq<int> {
    seq(|ps|, i requires 0 <= i < |ps| => ps[i].footprintCount)
  }

  /** The period of the last child, `day` with none. */
  function LastPeriod(ps: seq<Overview>): string {
    if |ps| == 0 then "day" else ps[|ps| - 1].timelinePeriod
  }

  /** `TimePeriodOverview.add_periods`: the merge of child periods. */
  function AddPeriods(lib: Library, periods: seq<Option<Overview>>): (r: Result<Overview>)
  {
    var ps := Qualifying(periods);
    var (timeline, period) := GroupCounterIfNeeded(UpdateAll(Timelines(ps)), LastPeriod(ps));
    var grid := UpdateAll(Grids(ps));
    var valid := WithValidGeometries(lib, ps);
    var union :- UnionWithRetry(lib, Footprints(valid));
    var begin :- if |ps| == 0 then Ok(None) else PyMin(Begins(ps));
    var end :- if |ps| == 0 then Ok(None) else PyMax(Ends(ps));
    Ok(Overview(
      Sum(Counts(ps)),
      timeline,
      grid,
      period,
      Range(begin, end),
      union,
      Sum(FootprintCounts(valid)),
      MaxPresent(NewestTimes(ps)),
      Union(CrsSets(ps)),
      Some(SumPresent(Sizes(ps))),
      MinPresent(GenTimes(ps))))
  }

  // ---------------------------------------------------------------------
  // Properties of the merge

  /** Each field of a successful merge, as the fold that computes it. */
  lemma AddPeriodsFields(lib: Library, periods: seq<Option<Overview>>)
    requires AddPeriods(lib, periods).Ok?
    ensures var o, ps := AddPeriods(lib, periods).value, Qualifying(periods);
            && o.datasetCount == Sum(Counts(ps))
            && (o.timelineDatasetCounts, o.timelinePeriod)
               == GroupCounterIfNeeded(UpdateAll(Timelines(ps)), LastPeriod(ps))
            && o.gridDatasetCounts == UpdateAll(Grids(ps))
            && (|ps| == 0 ==> o.timeRange == Range(None, None))
            && (|ps| > 0 ==>
                  PyMin(Begins(ps)) == Ok(o.timeRange.begin) && PyMax(Ends(ps)) == Ok(o.timeRange.end))
            && o.footprintCount == Sum(FootprintCounts(WithValidGeometries(lib, ps)))
            && o.newestDatasetCreationTime == MaxPresent(NewestTimes(ps))
            && o.crses == Union(CrsSets(ps))
            && o.sizeBytes == Some(SumPresent(Sizes(ps)))
            && o.summaryGenTime == MinPresent(GenTimes(ps))
  {
    hide Qualifying, GroupCounterIfNeeded, UpdateAll, WithValidGeometries, UnionWithRetry,
      PyMin, PyMax, MaxPresent, MinPresent, Union, SumPresent, Sum;
  }

  /** A `None` or empty child changes nothing. */
  lemma AddPeriodsIgnoresEmpty(lib: Library, periods: seq<Option<Overview>>, x: Option<Overview>)
    requires x.None? || x.value.datasetCount <= 0
    ensures AddPeriods(lib, periods + [x]) == AddPeriods(lib, periods)
  {
    assert (periods + [x])[..|periods|] == periods;
  }

  /** Merging no periods gives an empty overview with period `day`. */
  lemma AddPeriodsNone(lib: Library, periods: seq<Option<Overview>>)
    requires forall i :: 0 <= i < |periods| ==> periods[i].None? || periods[i].value.datasetCount <= 0
    ensures AddPeriods(lib, periods).Ok?
    ensures var o := AddPeriods(lib, periods).value;
            && o.datasetCount == 0 && o.timelineDatasetCounts == map[] && o.gridDatasetCounts == map[]
            && o.timelinePeriod == "day" && o.timeRange == Range(None, None)
            && o.footprintGeometry.None? && o.footprintCount == 0
            && o.newestDatasetCreationTime.None? && o.crses == {} && o.sizeBytes == Some(0)
            && o.summaryGenTime.None?
  {
    NonEmptyPeriodsNone(periods, DatasetCount);
  }

  /** The counts of the merge: the dataset count, the timeline's number of
      elements (grouped or not), every grid cell and the footprint count are
      sums over the qualifying children. */
  lemma AddPeriodsCounts(lib: Library, periods: seq<Option<Overview>>)
    requires AddPeriods(lib, periods).Ok?
    ensures var o, ps := AddPeriods(lib, periods).value, Qualifying(periods);
            && o.datasetCount == Sum(Counts(ps))
            && Total(o.timelineDatasetCounts) == Sum(TotalsOf(Timelines(ps)))
            && (forall g :: Get(o.gridDatasetCounts, g) == Sum(CountsOf(Grids(ps), g)))
            && o.footprintCount == Sum(FootprintCounts(WithValidGeometries(lib, ps)))
  {
    var ps := Qualifying(periods);
    AddPeriodsFields(lib, periods);
    hide AddPeriods;
    UpdateAllTotal(Timelines(ps));
    forall g {
      UpdateAllCounts(Grids(ps), g);
    }
  }

  /** Below the grouping threshold the timeline holds each day as often as
      the children together, under the last child's period. */
  lemma AddPeriodsTimeline(lib: Library, periods: seq<Option<Overview>>, d: Date)
    requires AddPeriods(lib, periods).Ok?
    requires |UpdateAll(Timelines(Qualifying(periods)))| <= GroupingThreshold
    ensures Get(AddPeriods(lib, periods).value.timelineDatasetCounts, d)
            == Sum(CountsOf(Timelines(Qualifying(periods)), d))
    ensures AddPeriods(lib, periods).value.timelinePeriod == LastPeriod(Qualifying(periods))
  {
    AddPeriodsFields(lib, periods);
    hide AddPeriods;
    UpdateAllCounts(Timelines(Qualifying(periods)), d);
  }

  /** `min` of the begins and `max` of the ends over at least one child.
      A separate lemma keeps the `AddPeriods*` proofs from unfolding
      `PyMin`/`PyMax` themselves. */
  lemma SpanOfChildren(ps: seq<Overview>, b: Option<DateTime>, e: Option<DateTime>)
    requires |ps| > 0 && PyMin(Begins(ps)) == Ok(b) && PyMax(Ends(ps)) == Ok(e)
    ensures exists i :: 0 <= i < |ps| && b == ps[i].timeRange.begin
    ensures exists i :: 0 <= i < |ps| && e == ps[i].timeRange.end
    ensures |ps| > 1 ==>
              && b.Some? && e.Some?
              && forall i :: 0 <= i < |ps| ==>
                   && ps[i].timeRange.begin.Some? && ps[i].timeRange.end.Some?
                   && LessEq(b.value, ps[i].timeRange.begin.value)
                   && LessEq(ps[i].timeRange.end.value, e.value)
  {
    assert forall i :: 0 <= i < |ps| ==> Begins(ps)[i] == ps[i].timeRange.begin;
    assert forall i :: 0 <= i < |ps| ==> Ends(ps)[i] == ps[i].timeRange.end;
  }

  /** The time range spans the children: its begin is the earliest begin and
      its end the latest end, each taken from some child; with no children it
      is `(None, None)`. */
  lemma AddPeriodsTimeRange(lib: Library, periods: seq<Option<Overview>>)
    requires AddPeriods(lib, periods).Ok?
    ensures var o, ps := AddPeriods(lib, periods).value, Qualifying(periods);
            && (|ps| == 0 ==> o.timeRange == Range(None, None))
            && (|ps| > 0 ==>
                  && (exists i :: 0 <= i < |ps| && o.timeRange.begin == ps[i].timeRange.begin)
                  && (exists i :: 0 <= i < |ps| && o.timeRange.end == ps[i].timeRange.end))
            && (|ps| > 1 ==>
                  && o.timeRange.begin.Some? && o.timeRange.end.Some?
                  && forall i :: 0 <= i < |ps| ==>
                       && ps[i].timeRange.begin.Some? && ps[i].timeRange.end.Some?
                       && LessEq(o.timeRange.begin.value, ps[i].timeRange.begin.value)
                       && LessEq(ps[i].timeRange.end.value, o.timeRange.end.value))
  {
    var ps := Qualifying(periods);
    var o := AddPeriods(lib, periods).value;
    AddPeriodsFields(lib, periods);
    hide AddPeriods, Qualifying, PyMin, PyMax;
    if |ps| > 0 {
      SpanOfChildren(ps, o.timeRange.begin, o.timeRange.end);
    }
  }

  /** Comparing the begins or the ends fails exactly when two or more
      children are compared and one of them lacks that end. */
  lemma SpanFails(ps: seq<Overview>)
    requires |ps| > 0
    ensures PyMin(Begins(ps)).Err? || PyMax(Ends(ps)).Err? <==>
              |ps| > 1 && exists i :: 0 <= i < |ps| && (ps[i].timeRange.begin.None? || ps[i].timeRange.end.None?)
  {
    assert forall i :: 0 <= i < |ps| ==> Begins(ps)[i] == ps[i].timeRange.begin;
    assert forall i :: 0 <= i < |ps| ==> Ends(ps)[i] == ps[i].timeRange.end;
  }

  /** The merge fails exactly when the footprint union fails, or when two or
      more children are compared and one lacks a begin or an end
      (`TypeError`). */
  lemma AddPeriodsFails(lib: Library, periods: seq<Option<Overview>>)
    ensures var ps := Qualifying(periods);
            AddPeriods(lib, periods).Err? <==>
              || UnionWithRetry(lib, Footprints(WithValidGeometries(lib, ps))).Err?
              || (|ps| > 1 && exists i ::
                    0 <= i < |ps| && (ps[i].timeRange.begin.None? || ps[i].timeRange.end.None?))
  {
    var ps := Qualifying(periods);
    if |ps| > 0 {
      SpanFails(ps);
    }
    assert AddPeriods(lib, periods).Err? <==>
             || UnionWithRetry(lib, Footprints(WithValidGeometries(lib, ps))).Err?
             || (|ps| > 0 && (PyMin(Begins(ps)).Err? || PyMax(Ends(ps)).Err?)) by {
      hide Qualifying, GroupCounterIfNeeded, UpdateAll, WithValidGeometries, UnionWithRetry,
        PyMin, PyMax, MaxPresent, MinPresent, Union, SumPresent, Sum, Begins, Ends;
    }
  }

  /** The latest creation time among the children that have one. The
      statement of `Summarise.NewestOfChildren` over this revision's
      overview record, kept as a lemma so that `AddPeriodsTimes` does not
      unfold `MaxPresent` itself. */
  lemma NewestOfChildren(ps: seq<Overview>)
    ensures var m := MaxPresent(NewestTimes(ps));
            && (m.None? <==> forall i :: 0 <= i < |ps| ==> ps[i].newestDatasetCreationTime.None?)
            && (forall i :: 0 <= i < |ps| && ps[i].newestDatasetCreationTime.Some? ==>
                  m.Some? && LessEq(ps[i].newestDatasetCreationTime.value, m.value))
  {
    assert forall i :: 0 <= i < |ps| ==> NewestTimes(ps)[i] == ps[i].newestDatasetCreationTime;
  }

  /** The earliest generation time among the children that have one. The
      statement of `Summarise.EarliestGeneration` over this revision's
      overview record, kept as a lemma so that `AddPeriodsTimes` does not
      unfold `MinPresent` itself. */
  lemma EarliestGeneration(ps: seq<Overview>)
    ensures var m := MinPresent(GenTimes(ps));
            && (m.None? <==> forall i :: 0 <= i < |ps| ==> ps[i].summaryGenTime.None?)
            && (forall i :: 0 <= i < |ps| && ps[i].summaryGenTime.Some? ==>
                  m.Some? && LessEq(m.value, ps[i].summaryGenTime.value))
  {
    assert forall i :: 0 <= i < |ps| ==> GenTimes(ps)[i] == ps[i].summaryGenTime;
  }

  /** The newest creation time is the latest one given and the generation
      time the earliest; each is `None` when no child has one. */
  lemma AddPeriodsTimes(lib: Library, periods: seq<Option<Overview>>)
    requires AddPeriods(lib, periods).Ok?
    ensures var o, ps := AddPeriods(lib, periods).value, Qualifying(periods);
            && (o.newestDatasetCreationTime.None? <==>
                  forall i :: 0 <= i < |ps| ==> ps[i].newestDatasetCreationTime.None?)
            && (forall i :: 0 <= i < |ps| && ps[i].newestDatasetCreationTime.Some? ==>
                  && o.newestDatasetCreationTime.Some?
                  && LessEq(ps[i].newestDatasetCreationTime.value, o.newestDatasetCreationTime.value))
            && (o.summaryGenTime.None? <==> forall i :: 0 <= i < |ps| ==> ps[i].summaryGenTime.None?)
            && (forall i :: 0 <= i < |ps| && ps[i].summaryGenTime.Some? ==>
                  && o.summaryGenTime.Some?
                  && LessEq(o.summaryGenTime.value, ps[i].summaryGenTime.value))
  {
    var ps := Qualifying(periods);
    AddPeriodsFields(lib, periods);
    hide AddPeriods, Qualifying, MaxPresent, MinPresent, NewestTimes, GenTimes;
    NewestOfChildren(ps);
    EarliestGeneration(ps);
  }

  lemma CrsesOfChildren(ps: seq<Overview>)
    ensures forall c :: c in Union(CrsSets(ps)) <==> exists i :: 0 <= i < |ps| && c in ps[i].crses
  {
    assert forall i :: 0 <= i < |ps| ==> CrsSets(ps)[i] == ps[i].crses;
  }

  /** The CRSes of the merge are those of the children. */
  lemma AddPeriodsCrses(lib: Library, periods: seq<Option<Overview>>)
    requires AddPeriods(lib, periods).Ok?
    ensures var o, ps := AddPeriods(lib, periods).value, Qualifying(periods);
            forall c :: c in o.crses <==> exists i :: 0 <= i < |ps| && c in ps[i].crses
  {
    var ps := Qualifying(periods);
    AddPeriodsFields(lib, periods);
    hide AddPeriods, Qualifying, Union, CrsSets;
    CrsesOfChildren(ps);
  }
}
