/** The summary stores of `cubedash/summary/_stores.py`: the Postgres
    store, an upsert-keyed table of `time_overview` rows, and the later
    `FileSummaryStore`, a folder tree of `timeline.json` and
    `dataset-coverage.shp` files. Both hold the `TimePeriodOverview` of
    `cubedash/summary/_summarise.py`. */
module Stores {
  import opened Wrappers
  import opened Calendar
  import opened Counters
  import opened Aggregate
  import opened Geometry
  import opened IsoTime
  import opened SummaryFiles
  import Summarise

  type Overview = Summarise.Overview

  // ---------------------------------------------------------------------
  // Keys

  /** The `overviewperiod` enum of `time_overview.period_type`. */
  datatype PeriodType = AllTime | YearPeriod | MonthPeriod | DayPeriod

  /** `x or default` for an optional number. */
  function Or(x: Option<int>, default: int): int {
    if GivenNumber(x) then x.value else default
  }

  /** `_start_day`: the period is the most specific truthy part, and the
      day is the first day of that period, `date(year or 1900, month or 1,
      day or 1)`, which raises `ValueError` unless it names a real day. */
  function StartDay(year: Option<int>, month: Option<int>, day: Option<int>): (r: Result<(Date, PeriodType)>)
    ensures r.Ok? <==> ValidDate(Date(Or(year, 1900), Or(month, 1), Or(day, 1)))
    ensures r.Err? ==> r.error.ValueError?
    ensures r.Ok? ==> match r.value.1
                      case AllTime => r.value.0 == Date(1900, 1, 1) && !GivenNumber(year)
                      case YearPeriod => GivenNumber(year) && r.value.0 == Date(year.value, 1, 1)
                      case MonthPeriod => GivenNumber(month) && r.value.0.month == month.value && r.value.0.day == 1
                      case DayPeriod => GivenNumber(day) && r.value.0.day == day.value
    ensures r.Ok? ==> r.value.0 == Date(Or(year, 1900), Or(month, 1), Or(day, 1))
  {
    var period := if GivenNumber(day) then DayPeriod
                  else if GivenNumber(month) then MonthPeriod
                  else if GivenNumber(year) then YearPeriod
                  else AllTime;
    var start :- MakeDate(Or(year, 1900), Or(month, 1), Or(day, 1));
    Ok((start, period))
  }

  /** A key the summaries are generated for: a month only within a year, a
      day only within a month. */
  predicate Nested(year: Option<int>, month: Option<int>, day: Option<int>) {
    (GivenNumber(day) ==> GivenNumber(month)) && (GivenNumber(month) ==> GivenNumber(year))
  }

  /** The truthy value of an optional number. */
  function TruthyPart(x: Option<int>): Option<int> {
    if GivenNumber(x) then x else None
  }

  /** Nested keys never share a row: equal start days and periods come from
      the same truthy year, month and day. */
  lemma StartDayInjective(y1: Option<int>, m1: Option<int>, d1: Option<int>,
                          y2: Option<int>, m2: Option<int>, d2: Option<int>)
    requires Nested(y1, m1, d1) && Nested(y2, m2, d2)
    requires StartDay(y1, m1, d1).Ok? && StartDay(y1, m1, d1) == StartDay(y2, m2, d2)
    ensures TruthyPart(y1) == TruthyPart(y2) && TruthyPart(m1) == TruthyPart(m2) && TruthyPart(d1) == TruthyPart(d2)
  {
  }

  /** Without the nesting the keys alias: a month without a year is stored
      as that month of 1900. */
  lemma StartDayAliases()
    ensures StartDay(None, Some(3), None) == StartDay(Some(1900), Some(3), None)
    ensures StartDay(None, Some(3), None).Ok?
  {
  }

  // ---------------------------------------------------------------------
  // Rows

  /** A `time_overview` row, without its key. */
  datatype Row = Row(
    datasetCount: int,
    startDays: Option<seq<Date>>,
    dayCounts: Option<seq<nat>>,
    datasetsGeojson: Option<seq<Feature>>,
    timelinePeriod: Option<string>,
    timeEarliest: Option<DateTime>,
    timeLatest: Option<DateTime>,
    footprintGeometry: Option<Shape>,
    footprintCount: Option<int>,
    newestDatasetCreationTime: Option<DateTime>,
    generationTime: Option<DateTime>)

  /** The counts of days `ds`, in order. */
  function DayValues(ds: seq<Date>, c: Counter<Date>): (r: seq<nat>)
    requires forall i :: 0 <= i < |ds| ==> ds[i] in c
    ensures |r| == |ds|
    ensures forall i :: 0 <= i < |ds| ==> r[i] == c[ds[i]]
  {
    seq(|ds|, i requires 0 <= i < |ds| => c[ds[i]])
  }

  /** A counter with at least one key. */
  predicate NonEmpty(c: Option<Counter<Date>>) {
    c.Some? && c.value != map[]
  }

  /** `_summary_to_row`: the timeline as two parallel arrays sorted by day
      (`zip(*sorted(counter.items()))`), both `None` for an empty or missing
      counter; the time range split into its two ends. */
  function ToRow(s: Overview): (r: Row)
  {
    var c := s.timelineDatasetCounts;
    var days := if NonEmpty(c) then Some(SortedDates(c.value.Keys)) else None;
    Row(
      s.datasetCount,
      days,
      if NonEmpty(c) then Some(DayValues(days.value, c.value)) else None,
      s.datasetsGeojson,
      s.timelinePeriod,
      if s.timeRange.Some? then s.timeRange.value.begin else None,
      if s.timeRange.Some? then s.timeRange.value.end else None,
      s.footprintGeometry,
      s.footprintCount,
      s.newestDatasetCreationTime,
      s.summaryGenTime)
  }

  /** The two timeline arrays of a row are present together, equally long
      (the `timeline_lengths_equal` check), strictly increasing by day, and
      list exactly the counter's days with their counts. */
  lemma ToRowArrays(s: Overview)
    ensures var r := ToRow(s);
            && (r.startDays.Some? <==> NonEmpty(s.timelineDatasetCounts))
            && (r.dayCounts.Some? <==> NonEmpty(s.timelineDatasetCounts))
            && (r.startDays.Some? ==>
                  && |r.startDays.value| == |r.dayCounts.value| > 0
                  && (forall i, j :: 0 <= i < j < |r.startDays.value| ==>
                        DateLess(r.startDays.value[i], r.startDays.value[j]))
                  && (forall d :: d in r.startDays.value <==> d in s.timelineDatasetCounts.value)
                  && forall i :: 0 <= i < |r.startDays.value| ==>
                       r.dayCounts.value[i] == s.timelineDatasetCounts.value[r.startDays.value[i]])
  {
    var c := s.timelineDatasetCounts;
    if NonEmpty(c) {
      var k :| k in c.value;
      assert k in SortedDates(c.value.Keys);
    }
  }

  /** `dict(zip(days, counts))`: pairs up to the shorter array, a later
      day wins. */
  function ZipCounter(days: seq<Date>, counts: seq<nat>): (r: Counter<Date>)
    ensures forall d :: d in r ==> d in days
    decreases |days|
  {
    var n := if |days| < |counts| then |days| else |counts|;
    if n == 0 then map[]
    else ZipCounter(days[..n - 1], counts[..n - 1])[days[n - 1] := counts[n - 1]]
  }

  /** Zipping days with their own counts gives back the counter restricted
      to those days. */
  lemma {:induction false} ZipDayValues(ds: seq<Date>, c: Counter<Date>)
    requires forall i :: 0 <= i < |ds| ==> ds[i] in c
    ensures forall d :: d in ZipCounter(ds, DayValues(ds, c)) <==> d in ds
    ensures forall d :: d in ZipCounter(ds, DayValues(ds, c)) ==> ZipCounter(ds, DayValues(ds, c))[d] == c[d]
  {
    if |ds| > 0 {
      var n := |ds| - 1;
      assert DayValues(ds, c)[..n] == DayValues(ds[..n], c);
      ZipDayValues(ds[..n], c);
      assert forall d :: d in ds <==> d in ds[..n] || d == ds[n] by {
        assert ds == ds[..n] + [ds[n]];
      }
    }
  }

  /** The counter a row holds: `Counter(dict(zip(...)))` when the day array
      is non-empty, `None` otherwise; `zip` of an array with `None` raises
      `TypeError`. */
  function RowCounts(row: Row): (r: Result<Option<Counter<Date>>>)
    ensures r.Err? <==> row.startDays.Some? && |row.startDays.value| > 0 && row.dayCounts.None?
  {
    if row.startDays.Some? && |row.startDays.value| > 0 then
      if row.dayCounts.None? then Err(TypeError)
      else Ok(Some(ZipCounter(row.startDays.value, row.dayCounts.value)))
    else Ok(None)
  }

  /** `_summary_from_row` as written: it builds the overview without
      `grid_dataset_counts` and `crses`, which the dataclass requires, so
      the constructor raises `TypeError` once the arguments are read. */
  function FromRowAsWritten(row: Row): (r: Result<Overview>)
    ensures r.Err?
  {
    var _ :- RowCounts(row);
    Err(TypeError)
  }

  /** `_summary_from_row` with the two missing fields passed as `None`:
      the table has no column for either. */
  function FromRow(row: Row): (r: Result<Overview>)
    ensures r.Ok? <==> RowCounts(row).Ok?
  {
    var counts :- RowCounts(row);
    Ok(Summarise.Overview(
      row.datasetCount,
      counts,
      None,
      row.datasetsGeojson,
      row.timelinePeriod,
      if row.timeEarliest.Some? then Some(Range(row.timeEarliest, row.timeLatest)) else None,
      row.footprintGeometry,
      row.footprintCount,
      row.newestDatasetCreationTime,
      None,
      row.generationTime))
  }

  /** What a stored summary reads back as: an empty counter is `None`, a
      time range without a begin is `None`, and the grid and CRSes, which
      have no column, are `None`. */
  function Restored(s: Overview): Overview {
    s.(timelineDatasetCounts := if NonEmpty(s.timelineDatasetCounts) then s.timelineDatasetCounts else None,
       gridDatasetCounts := None,
       timeRange := if s.timeRange.Some? && s.timeRange.value.begin.Some? then s.timeRange else None,
       crses := None)
  }

  /** The timeline arrays of a row read back as the counter. */
  lemma RowCountsRoundTrip(s: Overview)
    ensures RowCounts(ToRow(s)) == Ok(if NonEmpty(s.timelineDatasetCounts) then s.timelineDatasetCounts else None)
  {
    var c := s.timelineDatasetCounts;
    ToRowArrays(s);
    if NonEmpty(c) {
      var ds := SortedDates(c.value.Keys);
      ZipDayValues(ds, c.value);
      hide ZipCounter, DayValues, SortedDates;
      var z := ZipCounter(ds, DayValues(ds, c.value));
      assert z == c.value;
    }
  }

  /** A row read back gives the summary that was written, as `Restored`. */
  lemma RowRoundTrip(s: Overview)
    ensures FromRow(ToRow(s)) == Ok(Restored(s))
  {
    RowCountsRoundTrip(s);
    hide RowCounts, SortedDates, DayValues, ZipCounter;
  }

  // ---------------------------------------------------------------------
  // PgSummaryStore

  /** A row's key: the product's name (its `product_ref` stands for it),
      the start day and the period type. */
  type Key = (string, Date, PeriodType)

  type Db = map<Key, Row>

  /** The `timelineperiod` enum. */
  predicate TimelinePeriod(p: string) {
    p == "year" || p == "month" || p == "week" || p == "day"
  }

  /** The range of a Postgres `integer`. */
  predicate Int32(x: int) {
    -0x8000_0000 <= x < 0x8000_0000
  }

  /** The column constraints a row must meet to be inserted. */
  function CheckRow(row: Row): (r: Result<()>)
    ensures r.Ok? <==>
              && row.generationTime.Some?
              && (row.timelinePeriod.Some? ==> TimelinePeriod(row.timelinePeriod.value))
              && Int32(row.datasetCount)
              && (row.footprintCount.Some? ==> Int32(row.footprintCount.value))
              && (row.dayCounts.Some? ==> forall i :: 0 <= i < |row.dayCounts.value| ==> Int32(row.dayCounts.value[i]))
              && (row.startDays.Some? && row.dayCounts.Some? ==> |row.startDays.value| == |row.dayCounts.value|)
  {
    if row.generationTime.None? then Err(IntegrityError("generation_time"))
    else if row.timelinePeriod.Some? && !TimelinePeriod(row.timelinePeriod.value) then
      Err(DatabaseError("invalid input value for enum timelineperiod"))
    else if !Int32(row.datasetCount)
         || (row.footprintCount.Some? && !Int32(row.footprintCount.value))
         || (row.dayCounts.Some? && exists i :: 0 <= i < |row.dayCounts.value| && !Int32(row.dayCounts.value[i])) then
      Err(DatabaseError("integer out of range"))
    else if row.startDays.Some? && row.dayCounts.Some? && |row.startDays.value| != |row.dayCounts.value| then
      Err(IntegrityError("timeline_lengths_equal"))
    else Ok(())
  }

  /** `PgSummaryStore.put`: a product without a name violates
      `product.name NOT NULL`; then the key, then an upsert of the row. */
  function PgPut(db: Db, product: Option<string>, year: Option<int>, month: Option<int>, day: Option<int>,
                 s: Overview): (r: Result<Db>)
  {
    if product.None? then Err(IntegrityError("product.name"))
    else
      var key :- StartDay(year, month, day);
      var row := ToRow(s);
      var _ :- CheckRow(row);
      Ok(db[(product.value, key.0, key.1) := row])
  }

  /** `PgSummaryStore.get` as written. */
  function PgGetAsWritten(db: Db, product: Option<string>, year: Option<int>, month: Option<int>,
                          day: Option<int>): (r: Result<Option<Overview>>)
  {
    var key :- StartDay(year, month, day);
    if product.None? || (product.value, key.0, key.1) !in db then Ok(None)
    else
      match FromRowAsWritten(db[(product.value, key.0, key.1)])
      case Err(e) => Err(e)
      case Ok(s) => Ok(Some(s))
  }

  /** `PgSummaryStore.get` reading rows with `FromRow`: `None` for a key
      with no row (or no product name, which no row has). */
  function PgGet(db: Db, product: Option<string>, year: Option<int>, month: Option<int>,
                 day: Option<int>): (r: Result<Option<Overview>>)
  {
    var key :- StartDay(year, month, day);
    if product.None? || (product.value, key.0, key.1) !in db then Ok(None)
    else
      var s :- FromRow(db[(product.value, key.0, key.1)]);
      Ok(Some(s))
  }

  /** The row key of a store key. */
  function KeyOf(product: string, year: Option<int>, month: Option<int>, day: Option<int>): Key
    requires StartDay(year, month, day).Ok?
  {
    var k := StartDay(year, month, day).value;
    (product, k.0, k.1)
  }

  /** A put fails exactly on a missing product name, an impossible day, or
      a row the table's constraints reject; a summary of the model (with a
      generation time, a known period and counts in range) is accepted. */
  lemma PgPutFails(db: Db, product: Option<string>, year: Option<int>, month: Option<int>, day: Option<int>,
                   s: Overview)
    ensures PgPut(db, product, year, month, day, s).Err? <==>
              product.None? || StartDay(year, month, day).Err? || CheckRow(ToRow(s)).Err?
    ensures product.None? ==> PgPut(db, product, year, month, day, s) == Err(IntegrityError("product.name"))
    ensures s.summaryGenTime.None? ==> PgPut(db, product, year, month, day, s).Err?
  {
  }

  /** Put-then-get through the corrected reader gives back the summary as
      `Restored`. */
  lemma PgPutGet(db: Db, product: Option<string>, year: Option<int>, month: Option<int>, day: Option<int>,
                 s: Overview)
    requires PgPut(db, product, year, month, day, s).Ok?
    ensures PgGet(PgPut(db, product, year, month, day, s).value, product, year, month, day) == Ok(Some(Restored(s)))
  {
    RowRoundTrip(s);
  }

  /** A put changes one row: every other key reads as before. */
  lemma PgPutOthers(db: Db, product: Option<string>, year: Option<int>, month: Option<int>, day: Option<int>,
                    s: Overview, product2: Option<string>, year2: Option<int>, month2: Option<int>, day2: Option<int>)
    requires PgPut(db, product, year, month, day, s).Ok?
    requires StartDay(year2, month2, day2).Ok? && product2.Some?
    requires KeyOf(product2.value, year2, month2, day2) != KeyOf(product.value, year, month, day)
    ensures PgGet(PgPut(db, product, year, month, day, s).value, product2, year2, month2, day2)
            == PgGet(db, product2, year2, month2, day2)
  {
  }

  /** A key never written reads as `None`. */
  lemma PgGetMissing(db: Db, product: Option<string>, year: Option<int>, month: Option<int>, day: Option<int>)
    requires StartDay(year, month, day).Ok?
    requires product.None? || KeyOf(product.value, year, month, day) !in db
    ensures PgGet(db, product, year, month, day) == Ok(None)
  {
  }

  /** As written, reading back any summary that was put raises
      `TypeError`. */
  lemma PgPutGetAsWritten(db: Db, product: Option<string>, year: Option<int>, month: Option<int>,
                          day: Option<int>, s: Overview)
    requires PgPut(db, product, year, month, day, s).Ok?
    ensures PgGetAsWritten(PgPut(db, product, year, month, day, s).value, product, year, month, day) == Err(TypeError)
  {
    ToRowArrays(s);
  }

  // ---------------------------------------------------------------------
  // The later FileSummaryStore

  /** `timeline.json` as the later file store writes it. */
  datatype Timeline = Timeline(
    totalCount: int,
    footprintCount: Option<int>,
    datasetsGeojson: Option<seq<Feature>>,
    period: Option<string>,
    timeRange: Option<(string, string)>,
    series: Option<seq<(string, nat)>>,
    generationTime: Option<string>,
    newestDatasetCreationTime: Option<string>)

  /** `t.isoformat() if t else None`. */
  function WrittenTime(t: Option<DateTime>): Option<string> {
    if t.Some? then Some(IsoFormat(t.value)) else None
  }

  /** `_safe_read_date`: an empty or missing text is `None`. */
  function ReadTime(s: Option<string>): (r: Result<Option<DateTime>>)
    ensures s.None? || s.value == "" ==> r == Ok(None)
  {
    if s.Some? && s.value != "" then
      var t :- Parse(s.value);
      Ok(Some(t))
    else Ok(None)
  }

  lemma TimeRoundTrip(t: Option<DateTime>)
    requires t.Some? ==> ValidDateTime(t.value)
    ensures ReadTime(WrittenTime(t)) == Ok(t)
  {
    if t.Some? {
      ParseFormat(t.value, 'T');
    }
  }

  /** `_summary_to_file`'s JSON document. */
  function ToTimeline(s: Overview): (r: Result<Timeline>)
    ensures r.Err? <==> s.timeRange.Some? && (s.timeRange.value.begin.None? || s.timeRange.value.end.None?)
  {
    var range :- WrittenRange(s.timeRange);
    Ok(Timeline(s.datasetCount, s.footprintCount, s.datasetsGeojson, s.timelinePeriod, range,
                WrittenSeries(s.timelineDatasetCounts), WrittenTime(s.summaryGenTime),
                WrittenTime(s.newestDatasetCreationTime)))
  }

  /** `FileSummaryStore.put`: the folder of the product, year and month is
      created with its parents if needed (the day plays no part), then both
      files are written. */
  function FilePut(lib: Library, fs: Tree<Timeline>, product: Option<string>, year: Option<int>,
                   month: Option<int>, day: Option<int>, s: Overview): (r: Result<Tree<Timeline>>)
  {
    var path := SummaryPath(product, year, month);
    var fs1 := MakeDirs(fs, path);
    var timeline :- ToTimeline(s);
    assert path[..|path|] == path;
    Ok(WriteFiles(fs1, path, timeline, WriteCoverage(lib, s.footprintGeometry)))
  }

  /** The fields read back from a folder whose two files exist. */
  datatype Fields = Fields(
    footprint: Option<Shape>,
    counts: Option<Counter<Date>>,
    timeRange: Option<Range>,
    newest: Option<DateTime>,
    generated: Option<DateTime>)

  /** The arguments `_read_summary` evaluates, in order; `ctime` is the
      creation time of `timeline.json`, used when no generation time was
      recorded. */
  function ReadFields(t: Timeline, coverage: seq<Shape>, ctime: DateTime): (r: Result<Fields>)
    ensures |coverage| > 1 ==> r.Err?
  {
    var footprint :- ReadCoverage(coverage);
    var counts :- ReadCounts(t.series);
    var range :- ReadTimeRange(t.timeRange);
    var newest :- ReadTime(t.newestDatasetCreationTime);
    var generated :- ReadTime(t.generationTime);
    Ok(Fields(footprint, counts, range, newest, if generated.Some? then generated else Some(ctime)))
  }

  /** `_read_summary` as written: `None` when either file is missing, and
      otherwise the `TypeError` of the constructor that is not given
      `grid_dataset_counts` and `crses`. */
  function ReadSummaryAsWritten(folder: Folder<Timeline>, ctime: DateTime): (r: Result<Option<Overview>>)
    ensures folder.timeline.None? || folder.coverage.None? ==> r == Ok(None)
    ensures r.Ok? ==> r.value.None?
  {
    if folder.timeline.None? || folder.coverage.None? then Ok(None)
    else
      var _ :- ReadFields(folder.timeline.value, folder.coverage.value, ctime);
      Err(TypeError)
  }

  /** `_read_summary` with the two missing fields passed as `None`. */
  function ReadSummary(folder: Folder<Timeline>, ctime: DateTime): (r: Result<Option<Overview>>)
    ensures folder.timeline.None? || folder.coverage.None? ==> r == Ok(None)
    ensures folder.timeline.Some? && folder.coverage.Some? && |folder.coverage.value| > 1 ==> r.Err?
  {
    if folder.timeline.None? || folder.coverage.None? then Ok(None)
    else
      var t := folder.timeline.value;
      var f :- ReadFields(t, folder.coverage.value, ctime);
      Ok(Some(Summarise.Overview(t.totalCount, f.counts, None, t.datasetsGeojson, t.period, f.timeRange,
                                 f.footprint, t.footprintCount, f.newest, None, f.generated)))
  }

  /** `FileSummaryStore.get`: a day summary (year, month and day all
      truthy) is computed afresh by `update`, whose result is `computed`;
      otherwise the folder is read, `None` when it does not exist. */
  function FileGet(fs: Tree<Timeline>, product: Option<string>, year: Option<int>, month: Option<int>,
                   day: Option<int>, computed: Result<Option<Overview>>, ctime: DateTime): (r: Result<Option<Overview>>)
    ensures GivenNumber(year) && GivenNumber(month) && GivenNumber(day) ==> r == computed
    ensures !(GivenNumber(year) && GivenNumber(month) && GivenNumber(day)) && SummaryPath(product, year, month) !in fs
            ==> r == Ok(None)
  {
    if GivenNumber(year) && GivenNumber(month) && GivenNumber(day) then computed
    else
      var path := SummaryPath(product, year, month);
      if path !in fs then Ok(None) else ReadSummary(fs[path], ctime)
  }

  /** `FileSummaryStore.get` as written. */
  function FileGetAsWritten(fs: Tree<Timeline>, product: Option<string>, year: Option<int>, month: Option<int>,
                            day: Option<int>, computed: Result<Option<Overview>>, ctime: DateTime): (r: Result<Option<Overview>>)
  {
    if GivenNumber(year) && GivenNumber(month) && GivenNumber(day) then computed
    else
      var path := SummaryPath(product, year, month);
      if path !in fs then Ok(None) else ReadSummaryAsWritten(fs[path], ctime)
  }

  /** A summary whose days and instants are real ones. */
  predicate Storable(s: Overview) {
    && (s.timelineDatasetCounts.Some? ==> forall d :: d in s.timelineDatasetCounts.value ==> ValidDate(d))
    && (s.timeRange.Some? ==>
          && s.timeRange.value.begin.Some? && ValidDateTime(s.timeRange.value.begin.value)
          && s.timeRange.value.end.Some? && ValidDateTime(s.timeRange.value.end.value))
    && (s.newestDatasetCreationTime.Some? ==> ValidDateTime(s.newestDatasetCreationTime.value))
    && (s.summaryGenTime.Some? ==> ValidDateTime(s.summaryGenTime.value))
  }

  /** What a written summary reads back as from its files: empty counters
      and footprints are `None`, a missing generation time becomes the
      file's creation time, and the grid and CRSes, which are not written,
      are `None`. */
  function Reread(lib: Library, s: Overview, ctime: DateTime): Overview {
    s.(timelineDatasetCounts := if NonEmpty(s.timelineDatasetCounts) then s.timelineDatasetCounts else None,
       gridDatasetCounts := None,
       footprintGeometry := if Truthy(lib, s.footprintGeometry) then s.footprintGeometry else None,
       crses := None,
       summaryGenTime := if s.summaryGenTime.Some? then s.summaryGenTime else Some(ctime))
  }

  lemma ToTimelineFields(s: Overview)
    requires s.timeRange.Some? ==> s.timeRange.value.begin.Some? && s.timeRange.value.end.Some?
    ensures WrittenRange(s.timeRange).Ok?
    ensures ToTimeline(s) == Ok(Timeline(s.datasetCount, s.footprintCount, s.datasetsGeojson, s.timelinePeriod,
                                         WrittenRange(s.timeRange).value, WrittenSeries(s.timelineDatasetCounts),
                                         WrittenTime(s.summaryGenTime), WrittenTime(s.newestDatasetCreationTime)))
  {
    hide WrittenSeries, WrittenTime;
  }

  /** Each entry read back as written. */
  lemma EntriesWritten(lib: Library, s: Overview)
    requires Storable(s)
    ensures ReadCoverage(WriteCoverage(lib, s.footprintGeometry))
            == Ok(if Truthy(lib, s.footprintGeometry) then s.footprintGeometry else None)
    ensures ReadCounts(WrittenSeries(s.timelineDatasetCounts))
            == Ok(if NonEmpty(s.timelineDatasetCounts) then s.timelineDatasetCounts else None)
    ensures WrittenRange(s.timeRange).Ok? && ReadTimeRange(WrittenRange(s.timeRange).value) == Ok(s.timeRange)
    ensures ReadTime(WrittenTime(s.newestDatasetCreationTime)) == Ok(s.newestDatasetCreationTime)
    ensures ReadTime(WrittenTime(s.summaryGenTime)) == Ok(s.summaryGenTime)
  {
    CoverageRoundTrip(lib, s.footprintGeometry);
    CountsRoundTrip(s.timelineDatasetCounts);
    TimeRangeRoundTrip(s.timeRange);
    TimeRoundTrip(s.newestDatasetCreationTime);
    TimeRoundTrip(s.summaryGenTime);
  }

  lemma ReadFieldsWritten(lib: Library, s: Overview, ctime: DateTime)
    requires Storable(s)
    ensures ToTimeline(s).Ok?
    ensures ReadFields(ToTimeline(s).value, WriteCoverage(lib, s.footprintGeometry), ctime)
            == Ok(Fields(if Truthy(lib, s.footprintGeometry) then s.footprintGeometry else None,
                         if NonEmpty(s.timelineDatasetCounts) then s.timelineDatasetCounts else None,
                         s.timeRange, s.newestDatasetCreationTime,
                         if s.summaryGenTime.Some? then s.summaryGenTime else Some(ctime)))
  {
    EntriesWritten(lib, s);
    ToTimelineFields(s);
    hide ReadCoverage, WriteCoverage, ReadCounts, WrittenSeries, ReadTimeRange, WrittenRange, ReadTime, WrittenTime,
      ToTimeline, Storable;
  }

  /** A put writes both files into the summary's folder and leaves every
      other folder as it was. */
  lemma FilePutFolder(lib: Library, fs: Tree<Timeline>, product: Option<string>, year: Option<int>,
                      month: Option<int>, day: Option<int>, s: Overview)
    requires ToTimeline(s).Ok?
    ensures FilePut(lib, fs, product, year, month, day, s).Ok?
    ensures var fs2, path := FilePut(lib, fs, product, year, month, day, s).value, SummaryPath(product, year, month);
            && path in fs2
            && fs2[path] == Folder(Some(ToTimeline(s).value), Some(WriteCoverage(lib, s.footprintGeometry)))
            && forall p :: p in fs && p != path ==> p in fs2 && fs2[p] == fs[p]
  {
    var path := SummaryPath(product, year, month);
    assert path[..|path|] == path;
    hide ToTimeline, WriteCoverage, SummaryPath;
  }

  /** Put-then-get of a month, year or overall summary through the
      corrected reader gives back `Reread`; every other folder keeps its
      files. */
  lemma FilePutGet(lib: Library, fs: Tree<Timeline>, product: Option<string>, year: Option<int>,
                   month: Option<int>, day: Option<int>, s: Overview, computed: Result<Option<Overview>>,
                   ctime: DateTime)
    requires Storable(s)
    requires !(GivenNumber(year) && GivenNumber(month) && GivenNumber(day))
    ensures FilePut(lib, fs, product, year, month, day, s).Ok?
    ensures var fs2, path := FilePut(lib, fs, product, year, month, day, s).value, SummaryPath(product, year, month);
            && FileGet(fs2, product, year, month, day, computed, ctime) == Ok(Some(Reread(lib, s, ctime)))
            && forall p :: p in fs && p != path ==> p in fs2 && fs2[p] == fs[p]
  {
    ReadFieldsWritten(lib, s, ctime);
    FilePutFolder(lib, fs, product, year, month, day, s);
    hide ReadFields, ToTimeline, WriteCoverage, SummaryPath, FilePut, Storable;
  }

  /** As written, reading back any summary that was put raises
      `TypeError`. */
  lemma FilePutGetAsWritten(lib: Library, fs: Tree<Timeline>, product: Option<string>, year: Option<int>,
                            month: Option<int>, day: Option<int>, s: Overview, computed: Result<Option<Overview>>,
                            ctime: DateTime)
    requires Storable(s)
    requires !(GivenNumber(year) && GivenNumber(month) && GivenNumber(day))
    ensures FilePut(lib, fs, product, year, month, day, s).Ok?
    ensures FileGetAsWritten(FilePut(lib, fs, product, year, month, day, s).value, product, year, month, day,
                             computed, ctime) == Err(TypeError)
  {
    ReadFieldsWritten(lib, s, ctime);
    FilePutFolder(lib, fs, product, year, month, day, s);
    hide ReadFields, ToTimeline, WriteCoverage, SummaryPath, FilePut, Storable;
  }

  /** The day of a put is not part of the folder: a day summary is written
      where its month's summary is. */
  lemma FilePutIgnoresDay(lib: Library, fs: Tree<Timeline>, product: Option<string>, year: Option<int>,
                          month: Option<int>, day: Option<int>, s: Overview)
    ensures FilePut(lib, fs, product, year, month, day, s) == FilePut(lib, fs, product, year, month, None, s)
  {
  }

  /** Writing keeps the folder tree a tree. */
  lemma FilePutPrefixClosed(lib: Library, fs: Tree<Timeline>, product: Option<string>, year: Option<int>,
                            month: Option<int>, day: Option<int>, s: Overview)
    requires PrefixClosed(fs)
    requires FilePut(lib, fs, product, year, month, day, s).Ok?
    ensures PrefixClosed(FilePut(lib, fs, product, year, month, day, s).value)
  {
    MakeDirsPrefixClosed(fs, SummaryPath(product, year, month));
  }

  /** `get_last_updated`: the date in `generated.txt` when it exists and
      parses, else the overall summary's generation time when there is an
      overall summary, else the creation time of the base folder. */
  function LastUpdated(generatedTxt: Option<string>, overall: Result<Option<Overview>>, baseCtime: DateTime)
    : (r: Result<Option<DateTime>>)
    ensures generatedTxt.Some? && Parse(generatedTxt.value).Ok? ==> r == Ok(Some(Parse(generatedTxt.value).value))
    ensures (generatedTxt.None? || Parse(generatedTxt.value).Err?) && overall.Ok? && overall.value.None? ==>
              r == Ok(Some(baseCtime))
    ensures (generatedTxt.None? || Parse(generatedTxt.value).Err?) && overall.Ok? && overall.value.Some? ==>
              r == Ok(overall.value.value.summaryGenTime)
    ensures (generatedTxt.None? || Parse(generatedTxt.value).Err?) && overall.Err? ==> r == Err(overall.error)
    ensures r.Err? <==> (generatedTxt.None? || Parse(generatedTxt.value).Err?) && overall.Err?
  {
    if generatedTxt.Some? && Parse(generatedTxt.value).Ok? then Ok(Some(Parse(generatedTxt.value).value))
    else
      var s :- overall;
      if s.Some? then Ok(s.value.summaryGenTime) else Ok(Some(baseCtime))
  }
}
