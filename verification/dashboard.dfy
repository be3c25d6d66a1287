/** The pure helpers of the dashboard's own module, `cubedash/__init__.py`:
    the search query of the datasets page, the month bounds and query
    rendering of its templates, the timeline page's year/month grouping,
    and the metadata ordering of the dataset page. */
module Dashboard {
  import opened Wrappers
  import opened Calendar
  import opened Strings
  import opened IsoTime
  import Metadata

  // ---------------------------------------------------------------------
  // parse_query

  /** `ACCEPTABLE_SEARCH_FIELDS`: the only request entries copied as they are. */
  const AcceptableSearchFields: seq<string> := ["platform", "instrument", "product"]

  /** Half the width `range_dodge` gives a lone coordinate. */
  const Dodge: real := 0.00005

  /** A request argument: text, a number or a list. */
  datatype Arg = Text(s: string) | Number(x: real) | List(items: seq<Arg>)

  /** A query entry: a request argument as it is, the time window, or the
      two ends of a coordinate range. */
  datatype QueryValue = Copied(arg: Arg) | Window(from: DateTime, to: DateTime) | Bounds(low: Arg, high: Arg)

  type Request = map<string, Arg>

  type Query = map<string, QueryValue>

  /** `parser.parse(request[key]) if key in request else None`: a value
      that is not text is a `TypeError`. */
  function ParseBound(request: Request, key: string): (r: Result<Option<DateTime>>)
    ensures key !in request ==> r == Ok(None)
    ensures r.Ok? && r.value.Some? ==> key in request && request[key].Text? && Parse(request[key].s) == Ok(r.value.value)
  {
    if key !in request then Ok(None)
    else match request[key]
      case Text(s) =>
        var t :- Parse(s);
        Ok(Some(t))
      case _ => Err(TypeError)
  }

  /** The month count of an instant, `year * 12 + month`. */
  function MonthIndex(t: DateTime): int {
    t.date.year * 12 + t.date.month
  }

  /** The defaults of `parse_query`: no bound at all ends the window now, and
      a missing bound lies one month (`relativedelta(months=1)`) from the
      other. */
  function DefaultWindow(from: Option<DateTime>, to: Option<DateTime>, now: DateTime): (r: Result<(DateTime, DateTime)>)
    requires ValidDateTime(now)
    requires from.Some? ==> ValidDateTime(from.value)
    requires to.Some? ==> ValidDateTime(to.value)
    ensures from.Some? && to.Some? ==> r == Ok((from.value, to.value))
    ensures from.None? && to.None? ==> r.Ok? ==> r.value.1 == now
    ensures r.Ok? && from.Some? ==> r.value.0 == from.value
    ensures r.Ok? && to.Some? ==> r.value.1 == to.value
    ensures r.Ok? && !(from.Some? && to.Some?) ==>
              && ValidDateTime(r.value.0) && ValidDateTime(r.value.1)
              && MonthIndex(r.value.1) == MonthIndex(r.value.0) + 1
    ensures from.Some? && to.None? ==>
              && (r.Ok? <==> AddMonths(from.value, 1).Ok?)
              && (r.Ok? ==> r.value.1 == AddMonths(from.value, 1).value)
    ensures from.None? && to.Some? ==>
              && (r.Ok? <==> AddMonths(to.value, -1).Ok?)
              && (r.Ok? ==> r.value.0 == AddMonths(to.value, -1).value)
    ensures from.None? && to.None? ==>
              && (r.Ok? <==> AddMonths(now, -1).Ok?)
              && (r.Ok? ==> r.value.0 == AddMonths(now, -1).value)
  {
    var to1 := if from.None? && to.None? then Some(now) else to;
    if to1.None? then
      var t :- AddMonths(from.value, 1);
      Ok((from.value, t))
    else if from.None? then
      var f :- AddMonths(to1.value, -1);
      Ok((f, to1.value))
    else Ok((from.value, to1.value))
  }

  /** `range_dodge`: a list gives the range of its first two items (an
      `IndexError` when shorter), a number widens by `Dodge` either way, and
      text cannot be subtracted from (`TypeError`). */
  function RangeDodge(a: Arg): (r: Result<QueryValue>)
    ensures r.Ok? ==> r.value.Bounds?
    ensures a.List? ==> (r.Ok? <==> |a.items| >= 2)
    ensures a.List? && |a.items| >= 2 ==> r == Ok(Bounds(a.items[0], a.items[1]))
    ensures a.Number? ==> r.Ok? && r.value.low.Number? && r.value.high.Number?
                          && r.value.high.x - r.value.low.x == 2.0 * Dodge
                          && (r.value.low.x + r.value.high.x) / 2.0 == a.x
    ensures a.Text? ==> r == Err(TypeError)
  {
    match a
    case List(items) => if |items| < 2 then Err(IndexError) else Ok(Bounds(items[0], items[1]))
    case Number(x) => Ok(Bounds(Number(x - Dodge), Number(x + Dodge)))
    case Text(_) => Err(TypeError)
  }

  /** `parse_query(request)` with `datetime.now()` as `now`. */
  function ParseQuery(request: Request, now: DateTime): (r: Result<Query>)
    requires ValidDateTime(now)
  {
    var to :- ParseBound(request, "before");
    var from :- ParseBound(request, "after");
    var window :- DefaultWindow(from, to, now);
    var copied := map f | f in AcceptableSearchFields && f in request :: Copied(request[f]);
    var q := copied["time" := Window(window.0, window.1)];
    if "lon" in request && "lat" in request then
      var lon :- RangeDodge(request["lon"]);
      var lat :- RangeDodge(request["lat"]);
      Ok(q["lon" := lon]["lat" := lat])
    else Ok(q)
  }

  /** The query holds the accepted fields exactly as given, the time window,
      and `lon`/`lat` exactly when both were given; nothing else. */
  lemma ParseQueryKeys(request: Request, now: DateTime, k: string)
    requires ValidDateTime(now)
    requires ParseQuery(request, now).Ok?
    ensures var q := ParseQuery(request, now).value;
            && (k in AcceptableSearchFields ==> (k in q <==> k in request) && (k in q ==> q[k] == Copied(request[k])))
            && "time" in q && q["time"].Window?
            && ("lon" in q <==> "lon" in request && "lat" in request)
            && ("lat" in q <==> "lon" in request && "lat" in request)
            && (k in q ==> k in AcceptableSearchFields || k == "time" || k == "lon" || k == "lat")
  {
  }

  /** The time window: given bounds are kept, and a missing one lies a
      month from the other (from now when neither is given). */
  lemma ParseQueryWindow(request: Request, now: DateTime)
    requires ValidDateTime(now)
    requires ParseQuery(request, now).Ok?
    ensures var w := ParseQuery(request, now).value["time"];
            && w.Window?
            && ValidDateTime(w.from) && ValidDateTime(w.to)
            && ("before" !in request && "after" !in request ==> w.to == now)
            && ("after" in request ==> Parse(request["after"].s) == Ok(w.from))
            && ("before" in request ==> Parse(request["before"].s) == Ok(w.to))
            && ("before" !in request || "after" !in request ==> MonthIndex(w.to) == MonthIndex(w.from) + 1)
            && ("after" in request && "before" !in request ==> AddMonths(w.from, 1) == Ok(w.to))
            && ("before" in request && "after" !in request ==> AddMonths(w.to, -1) == Ok(w.from))
            && ("before" !in request && "after" !in request ==> AddMonths(now, -1) == Ok(w.from))
  {
    var to := ParseBound(request, "before").value;
    var from := ParseBound(request, "after").value;
    var window := DefaultWindow(from, to, now).value;
    hide DefaultWindow, ParseBound, Parse;
  }

  // ---------------------------------------------------------------------
  // month_bounds

  /** `_month_start`: the first of the month at 00:00:00. */
  function MonthStart(year: int, month: int): (r: Result<DateTime>)
    ensures r.Ok? <==> MinYear <= year <= MaxYear && 1 <= month <= 12
  {
    var d :- MakeDate(year, month, 1);
    Ok(Midnight(d))
  }

  /** `_month_end`: the month's last day, `calendar.monthrange(year,
      month)[1]`, at 23:59:59; an impossible month is a `ValueError`. */
  function MonthEnd(year: int, month: int): (r: Result<DateTime>)
    ensures r.Ok? <==> MinYear <= year <= MaxYear && 1 <= month <= 12
  {
    if !(1 <= month <= 12) then Err(ValueError("bad month number"))
    else
      var d :- MakeDate(year, month, DaysInMonth(year, month));
      Ok(DateTime(d, 23, 59, 59))
  }

  /** Both bounds exist for every real month: the start is midnight on the
      first, the end is 23:59:59 on the last day. */
  lemma MonthBoundsValues(year: int, month: int)
    requires MinYear <= year <= MaxYear && 1 <= month <= 12
    ensures MonthStart(year, month) == Ok(Midnight(Date(year, month, 1)))
    ensures MonthEnd(year, month) == Ok(DateTime(MonthEndDay(year, month), 23, 59, 59))
    ensures ValidDateTime(Midnight(Date(year, month, 1)))
    ensures ValidDateTime(DateTime(MonthEndDay(year, month), 23, 59, 59))
  {
  }

  /** An instant is at or after midnight of a day exactly when its date is
      not earlier. */
  lemma AfterMidnight(d: Date, t: DateTime)
    requires ValidDateTime(t)
    ensures Calendar.LessEq(Midnight(d), t) <==> !DateLess(t.date, d)
  {
  }

  /** An instant is at or before 23:59:59 of a day exactly when its date is
      not later. */
  lemma BeforeDayEnd(d: Date, t: DateTime)
    requires ValidDateTime(t)
    ensures Calendar.LessEq(t, DateTime(d, 23, 59, 59)) <==> !DateLess(d, t.date)
  {
  }

  /** The bounds enclose exactly the instants of the month. */
  lemma MonthBounds(year: int, month: int, t: DateTime)
    requires MinYear <= year <= MaxYear && 1 <= month <= 12
    requires ValidDateTime(t)
    ensures MonthStart(year, month).Ok? && MonthEnd(year, month).Ok?
    ensures var s, e := MonthStart(year, month).value, MonthEnd(year, month).value;
            && Calendar.Less(s, e)
            && (Calendar.LessEq(s, t) && Calendar.LessEq(t, e) <==> t.date.year == year && t.date.month == month)
  {
    MonthBoundsValues(year, month);
    AfterMidnight(Date(year, month, 1), t);
    BeforeDayEnd(MonthEndDay(year, month), t);
  }

  /** One second after the end of a month is midnight on the first of the
      next month. */
  lemma MonthEndThenNextMonth(year: int, month: int)
    requires MinYear <= year <= MaxYear && 1 <= month <= 12
    requires !(year == MaxYear && month == 12)
    ensures MonthEnd(year, month).Ok? && NextMonthStart(Date(year, month, 1)).Ok?
    ensures AddOneSecond(MonthEnd(year, month).value) == Ok(Midnight(NextMonthStart(Date(year, month, 1)).value))
  {
    MonthBoundsValues(year, month);
    MonthEndPrecedesNextMonth(year, month);
  }

  // ---------------------------------------------------------------------
  // _format_query_value

  /** A value a template shows in the query summary. */
  datatype Shown = ShownNone | ShownText(s: string) | ShownInt(n: int) | ShownTime(t: DateTime)
                 | ShownRange(begin: Shown, end: Shown)

  /** `_format_query_value`: a `Range` as `"<begin> to <end>"`, each end
      rendered the same way; a date-time by `strftime("%Y-%m-%d
      %H:%M:%S")`; anything else by `str`. */
  function FormatQueryValue(v: Shown): string {
    match v
    case ShownRange(b, e) => FormatQueryValue(b) + " to " + FormatQueryValue(e)
    case ShownTime(t) => Format(t, ' ')
    case ShownInt(n) => IntToString(n)
    case ShownText(s) => s
    case ShownNone => "None"
  }

  /** Reads a rendered time window back: two displayed instants around
      `" to "`. */
  function ReadWindowText(s: string): Result<(DateTime, DateTime)> {
    if |s| != 42 || s[19..23] != " to " then Err(ValueError("not a time window"))
    else
      var a :- Parse(s[..19]);
      var b :- Parse(s[23..]);
      Ok((a, b))
  }

  /** Cutting `x + " to " + y` back into its parts. */
  lemma SplitWindowText(x: string, y: string)
    requires |x| == 19 && |y| == 19
    ensures var s := x + " to " + y;
            |s| == 42 && s[..19] == x && s[19..23] == " to " && s[23..] == y
  {
  }

  /** Two readable 19-character instants around `" to "` read back as a
      window. */
  lemma ReadWindowOfParts(x: string, y: string, a: DateTime, b: DateTime)
    requires |x| == 19 && |y| == 19
    requires Parse(x) == Ok(a) && Parse(y) == Ok(b)
    ensures ReadWindowText(x + " to " + y) == Ok((a, b))
  {
    SplitWindowText(x, y);
    hide Parse;
  }

  /** A rendered time window reads back as the window. */
  lemma WindowTextRoundTrip(a: DateTime, b: DateTime)
    requires ValidDateTime(a) && ValidDateTime(b)
    ensures ReadWindowText(FormatQueryValue(ShownRange(ShownTime(a), ShownTime(b)))) == Ok((a, b))
  {
    hide Format, Parse, ReadWindowText;
    var x, y := Format(a, ' '), Format(b, ' ');
    ParseFormat(a, ' ');
    ParseFormat(b, ' ');
    ReadWindowOfParts(x, y, a, b);
    assert FormatQueryValue(ShownRange(ShownTime(a), ShownTime(b))) == x + " to " + y;
  }

  // ---------------------------------------------------------------------
  // _timeline_years

  /** One bucket of `count_product_through_time`: its start, end and count. */
  datatype Bucket = Bucket(time: DateTime, endTime: DateTime, count: int)

  function YearOfBucket(b: Bucket): int {
    b.time.date.year
  }

  function MonthOfBucket(b: Bucket): int {
    b.time.date.month
  }

  /** The bucket `i` is the last one of its year and month. */
  predicate LastOfMonth(timeline: seq<Bucket>, i: int)
    requires 0 <= i < |timeline|
  {
    forall j :: i < j < |timeline| ==>
      !(YearOfBucket(timeline[j]) == YearOfBucket(timeline[i]) && MonthOfBucket(timeline[j]) == MonthOfBucket(timeline[i]))
  }

  /** `years[y][m]` holds the count of the last bucket of that month, and
      every bucket's month is present. */
  predicate Grouped(timeline: seq<Bucket>, years: map<int, map<int, int>>) {
    && (forall i :: 0 <= i < |timeline| ==>
          YearOfBucket(timeline[i]) in years && MonthOfBucket(timeline[i]) in years[YearOfBucket(timeline[i])])
    && (forall y, m :: y in years && m in years[y] ==>
          exists i :: 0 <= i < |timeline| && YearOfBucket(timeline[i]) == y && MonthOfBucket(timeline[i]) == m
                      && LastOfMonth(timeline, i) && years[y][m] == timeline[i].count)
  }

  /** `years[time.year][time.month] = count`, creating the year's table. */
  function Record(years: map<int, map<int, int>>, b: Bucket): map<int, map<int, int>> {
    var y := YearOfBucket(b);
    years[y := (if y in years then years[y] else map[])[MonthOfBucket(b) := b.count]]
  }

  /** Recording one more bucket keeps the grouping. */
  lemma GroupedStep(timeline: seq<Bucket>, years: map<int, map<int, int>>, b: Bucket)
    requires Grouped(timeline, years)
    ensures Grouped(timeline + [b], Record(years, b))
  {
    var t, r := timeline + [b], Record(years, b);
    var k := |timeline|;
    assert LastOfMonth(t, k);
    forall y, m | y in r && m in r[y]
      ensures exists i :: 0 <= i < |t| && YearOfBucket(t[i]) == y && MonthOfBucket(t[i]) == m
                          && LastOfMonth(t, i) && r[y][m] == t[i].count
    {
      if !(y == YearOfBucket(b) && m == MonthOfBucket(b)) {
        var i :| 0 <= i < k && YearOfBucket(timeline[i]) == y && MonthOfBucket(timeline[i]) == m
                 && LastOfMonth(timeline, i) && years[y][m] == timeline[i].count;
        assert t[i] == timeline[i];
        assert LastOfMonth(t, i);
      }
    }
    forall i | 0 <= i < |t|
      ensures YearOfBucket(t[i]) in r && MonthOfBucket(t[i]) in r[YearOfBucket(t[i])]
    {
      if i < k {
        assert t[i] == timeline[i];
      }
    }
  }

  /** `_timeline_years`: the counts by year and month (a later bucket of the
      same month replaces an earlier one), the years in order of first
      appearance, and the largest count, at least 0. */
  method TimelineYears(timeline: seq<Bucket>) returns (order: seq<int>, years: map<int, map<int, int>>, maxValue: int)
    ensures forall y :: y in years <==> y in order
    ensures forall i, j :: 0 <= i < j < |order| ==> order[i] != order[j]
    ensures Grouped(timeline, years)
    ensures maxValue >= 0 && forall i :: 0 <= i < |timeline| ==> timeline[i].count <= maxValue
    ensures maxValue == 0 || exists i :: 0 <= i < |timeline| && timeline[i].count == maxValue
  {
    order, years, maxValue := [], map[], 0;
    var k := 0;
    while k < |timeline|
      invariant 0 <= k <= |timeline|
      invariant forall y :: y in years <==> y in order
      invariant forall i, j :: 0 <= i < j < |order| ==> order[i] != order[j]
      invariant Grouped(timeline[..k], years)
      invariant maxValue >= 0 && forall i :: 0 <= i < k ==> timeline[i].count <= maxValue
      invariant maxValue == 0 || exists i :: 0 <= i < k && timeline[i].count == maxValue
    {
      var b := timeline[k];
      if maxValue < b.count {
        maxValue := b.count;
      }
      if YearOfBucket(b) !in years {
        order := order + [YearOfBucket(b)];
      }
      GroupedStep(timeline[..k], years, b);
      assert timeline[..k + 1] == timeline[..k] + [b];
      years := Record(years, b);
      k := k + 1;
    }
    assert timeline[..k] == timeline;
  }

  // ---------------------------------------------------------------------
  // get_ordered_metadata

  /** The dataset page's ordering keeps exactly the document's keys, and a
      document without `lineage` raises `KeyError`. It succeeds exactly when
      the document has a lineage mapping whose source documents all order. */
  lemma InitOrderedMetadataKeys(doc: Metadata.Doc, k: string)
    requires doc.Dict?
    ensures Metadata.OrderedMetadata(Metadata.InitVersion, doc).Ok? <==>
              && Metadata.Lookup(doc.items, "lineage").Some?
              && Metadata.LineageOrderable(Metadata.InitVersion, Metadata.Lookup(doc.items, "lineage").value)
    ensures Metadata.OrderedMetadata(Metadata.InitVersion, doc).Ok? ==>
              (k in Metadata.Keys(Metadata.OrderedMetadata(Metadata.InitVersion, doc).value) <==> k in Metadata.Keys(doc.items))
    ensures "lineage" !in Metadata.Keys(doc.items) ==>
              Metadata.OrderedMetadata(Metadata.InitVersion, doc) == Err(KeyError("lineage"))
  {
    Metadata.KeyInOrderedItems(doc.items, Metadata.InitPropertyOrder, k);
  }
}
