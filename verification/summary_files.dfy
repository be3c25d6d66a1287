/** What the two `FileSummaryStore`s (`cubedash/summary.py` and
    `cubedash/summary/_stores.py`) share: the folder of a summary, the name
    of its coverage record, the folder tree they write into, and the JSON
    and shapefile encodings of the fields they store. */
module SummaryFiles {
  import opened Wrappers
  import opened Calendar
  import opened Counters
  import opened Strings
  import opened IsoTime
  import opened Geometry
  import opened Aggregate

  /** A truthy name: present and not `''`. */
  predicate GivenName(p: Option<string>) {
    p.Some? && p.value != ""
  }

  /** A truthy number: present and not 0. */
  predicate GivenNumber(x: Option<int>) {
    x.Some? && x.value != 0
  }

  // ---------------------------------------------------------------------
  // Paths and names

  /** `_get_summary_path`: `base[/product][/%04d year][/%02d month]`, each
      part only when truthy; the components below the base folder. */
  function SummaryPath(product: Option<string>, year: Option<int>, month: Option<int>): seq<string> {
    (if GivenName(product) then [product.value] else [])
      + (if GivenNumber(year) then [PercentD0(year.value, 4)] else [])
      + (if GivenNumber(month) then [PercentD0(month.value, 2)] else [])
  }

  /** A summary key the program writes: a product with an optional year in
      1..9999 and an optional month in 1..12. */
  predicate WrittenKey(product: Option<string>, year: Option<int>, month: Option<int>) {
    && GivenName(product)
    && (year.None? || 1 <= year.value <= MaxYear)
    && (month.None? || 1 <= month.value <= 12)
  }

  lemma ZeroPaddedDigits(n: nat, w: nat)
    requires 1 <= w && n < Pow10(w)
    ensures |PercentD0(n, w)| == w && AllDigits(PercentD0(n, w))
    ensures ParseDigits(PercentD0(n, w)) == n
  {
    ZeroPaddedWidth(n, w);
    ParseZeroPadded(n, w);
  }

  /** The folder of a written key names the product, then the year as four
      digits, then the month as two, and each reads back as its number. */
  lemma SummaryPathReadsBack(product: Option<string>, year: Option<int>, month: Option<int>)
    requires WrittenKey(product, year, month)
    ensures var path := SummaryPath(product, year, month);
            && |path| == 1 + (if year.Some? then 1 else 0) + (if month.Some? then 1 else 0)
            && path[0] == product.value
            && (year.Some? ==> |path[1]| == 4 && ParseDigits(path[1]) == year.value)
            && (month.Some? ==> |path[|path| - 1]| == 2 && ParseDigits(path[|path| - 1]) == month.value)
  {
    assert Pow10(2) == 100 && Pow10(4) == 10000;
    if year.Some? {
      ZeroPaddedDigits(year.value, 4);
    }
    if month.Some? {
      ZeroPaddedDigits(month.value, 2);
    }
  }

  /** Distinct written keys get distinct folders: the widths of the year
      (4) and month (2) components tell them apart. */
  lemma SummaryPathInjective(p: Option<string>, y: Option<int>, m: Option<int>,
                             q: Option<string>, z: Option<int>, n: Option<int>)
    requires WrittenKey(p, y, m) && WrittenKey(q, z, n)
    requires SummaryPath(p, y, m) == SummaryPath(q, z, n)
    ensures p == q && y == z && m == n
  {
    SummaryPathReadsBack(p, y, m);
    SummaryPathReadsBack(q, z, n);
  }

  /** `"-".join(str(s) for s in (product, year, month) if s)`. */
  function NameParts(product: Option<string>, year: Option<int>, month: Option<int>): seq<string> {
    (if GivenName(product) then [product.value] else [])
      + (if GivenNumber(year) then [IntToString(year.value)] else [])
      + (if GivenNumber(month) then [IntToString(month.value)] else [])
  }

  function SummaryName(product: Option<string>, year: Option<int>, month: Option<int>): string {
    Join(NameParts(product, year, month), '-')
  }

  /** The name of a written key whose product has no dash splits back at
      the dashes into the product, the year and the month. */
  lemma SummaryNameSplits(product: Option<string>, year: Option<int>, month: Option<int>)
    requires WrittenKey(product, year, month) && '-' !in product.value
    ensures Split(SummaryName(product, year, month), '-') == NameParts(product, year, month)
    ensures Split(SummaryName(product, year, month), '-')[0] == product.value
  {
    var parts := NameParts(product, year, month);
    forall i | 0 <= i < |parts|
      ensures '-' !in parts[i]
    {
      if i > 0 {
        DigitsHaveNo(parts[i], '-');
      }
    }
    SplitJoin(parts, '-');
  }

  // ---------------------------------------------------------------------
  // The folder tree below the base folder

  /** A folder's two summary files, when present: `timeline.json` (of the
      store's JSON type) and `dataset-coverage.shp` (its shapes). */
  datatype Folder<T> = Folder(timeline: Option<T>, coverage: Option<seq<Shape>>)

  /** Every existing folder, by its components below the base folder. */
  type Tree<T> = map<seq<string>, Folder<T>>

  /** A real folder tree: the parent of every folder exists. */
  ghost predicate PrefixClosed<T>(fs: Tree<T>) {
    forall p, k :: p in fs && 0 <= k <= |p| ==> p[..k] in fs
  }

  function Prefixes(path: seq<string>): (r: set<seq<string>>)
    ensures forall k :: 0 <= k <= |path| ==> path[..k] in r
    ensures forall p :: p in r ==> exists k :: 0 <= k <= |path| && p == path[..k]
  {
    set k | 0 <= k <= |path| :: path[..k]
  }

  /** `path.mkdir(parents=True, exist_ok=True)`: the folder and every
      missing ancestor appear, empty; existing folders keep their files. */
  function MakeDirs<T>(fs: Tree<T>, path: seq<string>): (r: Tree<T>)
    ensures forall p :: p in fs ==> p in r && r[p] == fs[p]
    ensures forall p :: p in r <==> p in fs || p in Prefixes(path)
    ensures forall p :: p in r && p !in fs ==> r[p] == Folder(None, None)
  {
    var news := Prefixes(path);
    map p | p in fs.Keys + news :: if p in fs then fs[p] else Folder(None, None)
  }

  /** Creating folders keeps the tree a tree. */
  lemma MakeDirsPrefixClosed<T>(fs: Tree<T>, path: seq<string>)
    requires PrefixClosed(fs)
    ensures PrefixClosed(MakeDirs(fs, path))
  {
    var r := MakeDirs(fs, path);
    forall p, k | p in r && 0 <= k <= |p|
      ensures p[..k] in r
    {
      if p !in fs {
        var j :| 0 <= j <= |path| && p == path[..j];
        assert p[..k] == path[..k];
      }
    }
  }

  /** Writing both files of an existing folder. */
  function WriteFiles<T>(fs: Tree<T>, path: seq<string>, timeline: T, coverage: seq<Shape>): (r: Tree<T>)
    requires path in fs
    ensures r.Keys == fs.Keys
    ensures r[path] == Folder(Some(timeline), Some(coverage))
    ensures forall p :: p in fs && p != path ==> r[p] == fs[p]
  {
    fs[path := Folder(Some(timeline), Some(coverage))]
  }

  // ---------------------------------------------------------------------
  // Encodings of the stored fields

  /** The entries `(d.isoformat(), c[d])` for the days `ds`, in order. */
  function DayItems(ds: seq<Date>, c: Counter<Date>): (r: seq<(string, nat)>)
    requires forall i :: 0 <= i < |ds| ==> ds[i] in c
    ensures |r| == |ds|
  {
    if |ds| == 0 then []
    else
      var n := |ds| - 1;
      assert forall i :: 0 <= i < n ==> ds[..n][i] == ds[i];
      DayItems(ds[..n], c) + [(DatePart(ds[n]), c[ds[n]])]
  }

  /** `{d.isoformat(): v for d, v in counter.items()}`, listed in date order
      (the order of a JSON object does not matter to the reader). */
  function WriteSeries(c: Counter<Date>): (r: seq<(string, nat)>)
    ensures |r| == |c|
  {
    DayItems(SortedDates(c.Keys), c)
  }

  /** `Counter({dateutil.parser.parse(d): v for d, v in series.items()})`:
      the first unreadable key raises `ValueError`; a later entry for the
      same day wins. Each key is kept as the day of the instant read. */
  function ReadSeries(items: seq<(string, nat)>): (r: Result<Counter<Date>>)
  {
    if |items| == 0 then Ok(map[])
    else
      var c :- ReadSeries(items[..|items| - 1]);
      var t :- Parse(items[|items| - 1].0);
      Ok(c[t.date := items[|items| - 1].1])
  }

  /** Reading the entries of valid days gives each of those days its count. */
  lemma {:induction false} ReadSeriesOfDays(ds: seq<Date>, c: Counter<Date>)
    requires forall i :: 0 <= i < |ds| ==> ds[i] in c && ValidDate(ds[i])
    ensures ReadSeries(DayItems(ds, c)).Ok?
    ensures forall d :: d in ReadSeries(DayItems(ds, c)).value <==> d in ds
    ensures forall d :: d in ReadSeries(DayItems(ds, c)).value ==> ReadSeries(DayItems(ds, c)).value[d] == c[d]
  {
    if |ds| > 0 {
      var n := |ds| - 1;
      var items := DayItems(ds, c);
      assert items[..n] == DayItems(ds[..n], c);
      assert items[n] == (DatePart(ds[n]), c[ds[n]]);
      ReadSeriesOfDays(ds[..n], c);
      ParseDatePart(ds[n]);
      var prev := ReadSeries(DayItems(ds[..n], c)).value;
      assert ReadSeries(items) == Ok(prev[ds[n] := c[ds[n]]]);
      hide ReadSeries, Parse, DayItems, DatePart;
      ExtendEntries(prev, ds, c);
    }
  }

  /** Adding the entry of the last key of a list to a map holding the
      entries of the others. */
  lemma ExtendEntries<K, V>(prev: map<K, V>, ks: seq<K>, c: map<K, V>)
    requires |ks| > 0 && ks[|ks| - 1] in c
    requires forall k :: k in prev <==> k in ks[..|ks| - 1]
    requires forall k :: k in prev ==> k in c && prev[k] == c[k]
    ensures var m := prev[ks[|ks| - 1] := c[ks[|ks| - 1]]];
            && (forall k :: k in m <==> k in ks)
            && (forall k :: k in m ==> k in c && m[k] == c[k])
  {
    var n := |ks| - 1;
    assert ks == ks[..n] + [ks[n]];
  }

  /** Reading the written series gives the counter back, zero counts
      included. */
  lemma SeriesRoundTrip(c: Counter<Date>)
    requires forall d :: d in c ==> ValidDate(d)
    ensures ReadSeries(WriteSeries(c)) == Ok(c)
  {
    var ds := SortedDates(c.Keys);
    assert WriteSeries(c) == DayItems(ds, c);
    ReadSeriesOfDays(ds, c);
    hide ReadSeries, DayItems, WriteSeries, SortedDates;
    SameEntries(ReadSeries(WriteSeries(c)).value, c, ds);
  }

  /** Two maps with the keys of one list and the same values are equal. */
  lemma SameEntries<K, V>(a: map<K, V>, b: map<K, V>, ks: seq<K>)
    requires forall k :: k in a <==> k in ks
    requires forall k :: k in b <==> k in ks
    requires forall k :: k in a ==> k in b && a[k] == b[k]
    ensures a == b
  {
  }

  /** The coverage shapefile holds the footprint only when it is truthy. */
  function WriteCoverage(lib: Library, g: Option<Shape>): (r: seq<Shape>)
    ensures |r| <= 1
  {
    if Truthy(lib, g) then [g.value] else []
  }

  /** No shape is no footprint, one shape is the footprint, more raise
      `ValueError`. */
  function ReadCoverage(shapes: seq<Shape>): (r: Result<Option<Shape>>)
    ensures r.Err? <==> |shapes| > 1
    ensures r.Ok? && r.value.Some? ==> |shapes| == 1 && r.value.value == shapes[0]
  {
    if |shapes| == 0 then Ok(None)
    else if |shapes| != 1 then Err(ValueError("Unexpected number of shapes in coverage?"))
    else Ok(Some(shapes[0]))
  }

  /** Reading the written coverage gives back a truthy footprint and drops
      an empty one. */
  lemma CoverageRoundTrip(lib: Library, g: Option<Shape>)
    ensures ReadCoverage(WriteCoverage(lib, g)) == Ok(if Truthy(lib, g) then g else None)
  {
  }

  /** `[begin.isoformat(), end.isoformat()]`; a missing end has no
      `isoformat` (`AttributeError`). */
  function WriteRange(begin: Option<DateTime>, end: Option<DateTime>): (r: Result<(string, string)>)
    ensures r.Ok? <==> begin.Some? && end.Some?
  {
    if begin.None? || end.None? then Err(AttributeError)
    else Ok((IsoFormat(begin.value), IsoFormat(end.value)))
  }

  /** `Range(parse(t[0]), parse(t[1]))`. */
  function ReadRange(r: (string, string)): Result<(DateTime, DateTime)> {
    var b :- Parse(r.0);
    var e :- Parse(r.1);
    Ok((b, e))
  }

  lemma RangeRoundTrip(b: DateTime, e: DateTime)
    requires ValidDateTime(b) && ValidDateTime(e)
    ensures ReadRange(WriteRange(Some(b), Some(e)).value) == Ok((b, e))
  {
    ParseFormat(b, 'T');
    ParseFormat(e, 'T');
  }

  // ---------------------------------------------------------------------
  // The optional entries of timeline.json

  /** The `series` entry: a non-empty counter, by date. */
  function WrittenSeries(c: Option<Counter<Date>>): Option<seq<(string, nat)>> {
    if c.Some? && c.value != map[] then Some(WriteSeries(c.value)) else None
  }

  /** `Counter({parse(d): v ...}) if timeline.get("series") else None`. */
  function ReadCounts(series: Option<seq<(string, nat)>>): Result<Option<Counter<Date>>> {
    if series.Some? && |series.value| > 0 then
      var c :- ReadSeries(series.value);
      Ok(Some(c))
    else Ok(None)
  }

  lemma CountsRoundTrip(c: Option<Counter<Date>>)
    requires c.Some? ==> forall d :: d in c.value ==> ValidDate(d)
    ensures ReadCounts(WrittenSeries(c)) == Ok(if c.Some? && c.value != map[] then c else None)
  {
    if c.Some? && c.value != map[] {
      SeriesRoundTrip(c.value);
    }
  }

  /** The `time_range` entry: both ends in ISO 8601, or `null`. */
  function WrittenRange(r: Option<Range>): (w: Result<Option<(string, string)>>)
    ensures w.Err? <==> r.Some? && (r.value.begin.None? || r.value.end.None?)
  {
    if r.None? then Ok(None)
    else
      var ends :- WriteRange(r.value.begin, r.value.end);
      Ok(Some(ends))
  }

  /** `Range(parse(t[0]), parse(t[1])) if timeline.get("time_range") else None`. */
  function ReadTimeRange(r: Option<(string, string)>): Result<Option<Range>> {
    if r.None? then Ok(None)
    else
      var ends :- ReadRange(r.value);
      Ok(Some(Range(Some(ends.0), Some(ends.1))))
  }

  lemma TimeRangeRoundTrip(r: Option<Range>)
    requires r.Some? ==>
               && r.value.begin.Some? && ValidDateTime(r.value.begin.value)
               && r.value.end.Some? && ValidDateTime(r.value.end.value)
    ensures WrittenRange(r).Ok? && ReadTimeRange(WrittenRange(r).value) == Ok(r)
  {
    if r.Some? {
      RangeRoundTrip(r.value.begin.value, r.value.end.value);
    }
  }
}
