/** The `/stac/search` endpoint of `cubedash/_stac.py`: request validation,
    the offset/limit paging window capped at `DatasetLimit`, the page and its
    single optional `next` link, and the ISO time-range syntax.

    The dataset store is represented by `matches`, the datasets matching the
    request's product, time and bounding box in the store's own order; a
    fetch of `n` rows at `offset` returns that window of it, as an SQL
    `LIMIT n OFFSET offset` does. */
module Stac {
  import opened Wrappers
  import opened Calendar
  import IsoTime
  import Strings
  import opened PyOps

  const DatasetLimit: int := 100
  const DefaultPageSize: int := 20

  datatype HttpMethod = Get | Post

  /** The `bbox` argument: absent; GET text that `json.loads` rejects; or
      the decoded JSON value: `null`, a number or boolean (which has no
      `len`), or a list of numbers. A POST body is decoded by Flask before
      the view runs, so it never carries `Malformed`; the model gives that
      case the same `ValueError` as GET. */
  datatype BBoxParam =
    | Absent
    | Malformed
    | JsonNull
    | JsonScalar(truthy: bool)
    | Coords(values: seq<real>)

  /** A search request. `limit`/`offset` are `None` when absent (or, for GET,
      not readable as an integer, which Flask also replaces by the default). */
  datatype SearchRequest = SearchRequest(
    verb: HttpMethod,
    bbox: BBoxParam,
    time: Option<string>,
    product: Option<string>,
    limit: Option<int>,
    offset: Option<int>)

  datatype TimeRange = TimeRange(begin: DateTime, end: DateTime)

  predicate ValidRange(r: TimeRange) {
    ValidDateTime(r.begin) && ValidDateTime(r.end)
  }

  /** A dataset row as the store returns it; `measurements` maps each band to
      its `path`, `None` when the band record has no `path` key. */
  datatype DatasetItem = DatasetItem(
    id: string,
    bbox: seq<real>,
    geometry: string,
    centerTime: DateTime,
    productName: string,
    creationTime: Option<DateTime>,
    regionCode: Option<string>,
    fullDataset: Option<map<string, Option<string>>>)

  datatype StacItem = StacItem(
    id: string,
    bbox: seq<real>,
    geometry: string,
    datetime: DateTime,
    product: string,
    creationTime: Option<DateTime>,
    regionCode: Option<string>,
    assets: Option<map<string, string>>)

  /** The `next` link: the parameters `url_for` puts in its query string. */
  datatype Link = NextLink(product: Option<string>, bbox: seq<real>, time: string, limit: int, offset: int)

  datatype FeatureCollection = FeatureCollection(
    features: seq<StacItem>,
    page: int,
    limit: int,
    links: seq<Link>)

  /** The validated arguments `stac_search` passes on. */
  datatype SearchParams = SearchParams(
    product: Option<string>,
    bbox: seq<real>,
    time: Option<TimeRange>,
    limit: int,
    offset: int)

  // ---------------------------------------------------------------------
  // Time ranges

  /** `_parse_time_range`: `a/b` is the pair; a lone midnight instant widens to
      a day and any other lone instant to one second; three or more parts
      fall through and give `None`. */
  function ParseTimeRange(s: string): (r: Result<Option<TimeRange>>)
    ensures r.Ok? && r.value.Some? ==> ValidRange(r.value.value)
  {
    var parts := Strings.Split(s, '/');
    if |parts| == 2 then
      var a :- IsoTime.Parse(parts[0]);
      var b :- IsoTime.Parse(parts[1]);
      Ok(Some(TimeRange(a, b)))
    else if |parts| == 1 then
      var t :- IsoTime.Parse(parts[0]);
      if IsMidnight(t) then
        var d :- AddOneDay(t.date);
        Ok(Some(TimeRange(t, Midnight(d))))
      else
        var u :- AddOneSecond(t);
        Ok(Some(TimeRange(t, u)))
    else
      Ok(None)
  }

  /** A range comes out of one or two parts, `None` out of three or more; a
      lone instant always widens forwards. */
  lemma ParseTimeRangeParts(s: string)
    ensures var r := ParseTimeRange(s);
            && (r.Ok? && r.value.None? <==> |Strings.Split(s, '/')| >= 3)
            && (r.Ok? && r.value.Some? && |Strings.Split(s, '/')| == 1 ==>
                  Less(r.value.value.begin, r.value.value.end))
  {
    var r := ParseTimeRange(s);
    var parts := Strings.Split(s, '/');
    if r.Ok? && r.value.Some? && |parts| == 1 {
      var t := IsoTime.Parse(parts[0]).value;
      if IsMidnight(t) {
        var d := AddOneDay(t.date).value;
        assert r.value.value == TimeRange(t, Midnight(d));
      } else {
        assert r.value.value == TimeRange(t, AddOneSecond(t).value);
      }
    }
  }

  /** `_unparse_time_range`: both ends in ISO form, joined by `/`. */
  function UnparseTimeRange(r: TimeRange): string {
    IsoTime.IsoFormat(r.begin) + "/" + IsoTime.IsoFormat(r.end)
  }

  /** Parsing an unparsed range returns the range. */
  lemma ParseUnparse(r: TimeRange)
    requires ValidRange(r)
    ensures ParseTimeRange(UnparseTimeRange(r)) == Ok(Some(r))
  {
    var a, b := IsoTime.IsoFormat(r.begin), IsoTime.IsoFormat(r.end);
    IsoTime.FormatHasNoSlash(r.begin, 'T');
    IsoTime.FormatHasNoSlash(r.end, 'T');
    assert Strings.Join([a, b], '/') == a + "/" + b;
    Strings.SplitJoin([a, b], '/');
    IsoTime.ParseFormat(r.begin, 'T');
    IsoTime.ParseFormat(r.end, 'T');
  }

  /** A lone date names that whole day: `[d, d + 1 day)`. */
  lemma ParseLoneDate(d: Date)
    requires ValidDate(d) && d != Date(MaxYear, 12, 31)
    ensures ParseTimeRange(IsoTime.DatePart(d)) == Ok(Some(TimeRange(Midnight(d), Midnight(NextDay(d)))))
  {
    var s := IsoTime.DatePart(d);
    IsoTime.FormatHasNoSlash(Midnight(d), 'T');
    assert s == IsoTime.Format(Midnight(d), 'T')[..10];
    Strings.SplitJoin([s], '/');
    IsoTime.ParseDatePart(d);
  }

  /** A lone instant off midnight names one second: `[t, t + 1 s)`. */
  lemma ParseLoneInstant(t: DateTime)
    requires ValidDateTime(t) && !IsMidnight(t)
    requires t != DateTime(Date(MaxYear, 12, 31), 23, 59, 59)
    ensures AddOneSecond(t).Ok?
    ensures ParseTimeRange(IsoTime.IsoFormat(t)) == Ok(Some(TimeRange(t, AddOneSecond(t).value)))
  {
    var s := IsoTime.IsoFormat(t);
    IsoTime.FormatHasNoSlash(t, 'T');
    Strings.SplitJoin([s], '/');
    IsoTime.ParseFormat(t, 'T');
  }

  // ---------------------------------------------------------------------
  // Validation

  predicate BBoxFalsy(b: BBoxParam) {
    b.Absent? || b.JsonNull? || (b.JsonScalar? && !b.truthy) || (b.Coords? && |b.values| == 0)
  }

  predicate TimeFalsy(t: Option<string>) {
    t.None? || t.value == ""
  }

  /** GET uses the default only for a missing value; POST's `x or default`
      also replaces a zero. */
  function ArgOrDefault(m: HttpMethod, v: Option<int>, default: int): (r: int)
    ensures v.None? ==> r == default
    ensures v.Some? && v.value != 0 ==> r == v.value
    ensures v.Some? && v.value == 0 ==> r == (if m.Post? then default else 0)
  {
    match v
    case None => default
    case Some(x) => if m.Post? && x == 0 then default else x
  }

  /** Shrinks `limit` so that the window ends at `DatasetLimit` at the latest:
      the largest value not above `limit` that keeps `offset + limit` within
      the cap. */
  function ShrinkLimit(offset: int, limit: int): (l: int)
    ensures l <= limit
    ensures offset + l <= DatasetLimit
    ensures l == limit || offset + l == DatasetLimit
  {
    if offset + limit > DatasetLimit then DatasetLimit - offset else limit
  }

  const PagingLimitMessage: string := "Server paging limit reached (first 100 only)"

  /** The checks of `stac_search`, in the order the code makes them. */
  function ValidateSearch(req: SearchRequest): (r: Result<SearchParams>)
    // GET decodes the bbox before looking at it: `json.loads(None)` raises
    // `TypeError`, text that is not JSON `JSONDecodeError`, a `ValueError`.
    ensures req.verb.Get? && req.bbox.Absent? ==> r == Err(TypeError)
    ensures req.bbox.Malformed? ==> r.Err? && r.error.ValueError?
    ensures !(req.verb.Get? && req.bbox.Absent?) && BBoxFalsy(req.bbox) ==>
              r == Err(Abort(400, "bbox must be specified"))
    ensures !req.bbox.Malformed? && !BBoxFalsy(req.bbox) && TimeFalsy(req.time) ==>
              r == Err(Abort(400, "time must be specified"))
    ensures !req.bbox.Malformed? && !BBoxFalsy(req.bbox) && !TimeFalsy(req.time)
            && ArgOrDefault(req.verb, req.offset, 0) >= DatasetLimit ==>
              r == Err(Abort(400, PagingLimitMessage))
    // `len(bbox)` of a number or boolean raises.
    ensures req.bbox.JsonScalar? && req.bbox.truthy && !TimeFalsy(req.time)
            && ArgOrDefault(req.verb, req.offset, 0) < DatasetLimit ==>
              r == Err(TypeError)
    ensures r.Ok? ==> req.bbox.Coords? && !BBoxFalsy(req.bbox) && !TimeFalsy(req.time)
    ensures r.Ok? ==> |r.value.bbox| == 4 && r.value.bbox == req.bbox.values
    ensures r.Ok? ==> r.value.offset == ArgOrDefault(req.verb, req.offset, 0) < DatasetLimit
    ensures r.Ok? ==> r.value.offset + r.value.limit <= DatasetLimit
    ensures r.Ok? ==> r.value.limit <= ArgOrDefault(req.verb, req.limit, DefaultPageSize)
    ensures r.Ok? ==> r.value.limit == ArgOrDefault(req.verb, req.limit, DefaultPageSize)
                      || r.value.offset + r.value.limit == DatasetLimit
    ensures r.Ok? ==> r.value.product == req.product
    ensures r.Ok? ==> ParseTimeRange(req.time.value) == Ok(r.value.time)
    ensures r.Ok? && r.value.time.Some? ==> ValidRange(r.value.time.value)
  {
    if req.verb.Get? && req.bbox.Absent? then Err(TypeError)
    else if req.bbox.Malformed? then Err(ValueError("Expecting value"))
    else if BBoxFalsy(req.bbox) then Err(Abort(400, "bbox must be specified"))
    else if TimeFalsy(req.time) then Err(Abort(400, "time must be specified"))
    else
      var limit := ArgOrDefault(req.verb, req.limit, DefaultPageSize);
      var offset := ArgOrDefault(req.verb, req.offset, 0);
      if offset >= DatasetLimit then Err(Abort(400, PagingLimitMessage))
      else
        var limit' := ShrinkLimit(offset, limit);
        if req.bbox.JsonScalar? then Err(TypeError)
        else if |req.bbox.values| != 4 then
          Err(Abort(400, "Expected bbox of size 4. [min lon, min lat, max long, max lat]"))
        else
          var time :- ParseTimeRange(req.time.value);
          Ok(SearchParams(req.product, req.bbox.values, time, limit', offset))
  }

  // ---------------------------------------------------------------------
  // The page

  function Min(a: int, b: int): int {
    if a < b then a else b
  }

  /** The store's answer to `LIMIT n OFFSET offset`; SQL refuses negative values. */
  function Fetch(matches: seq<DatasetItem>, n: int, offset: int): (r: Result<seq<DatasetItem>>)
    ensures r.Ok? <==> n >= 0 && offset >= 0
    ensures r.Ok? ==> |r.value| <= n
    ensures r.Ok? && offset <= |matches| ==> r.value == matches[offset..Min(offset + n, |matches|)]
    ensures r.Ok? && offset > |matches| ==> r.value == []
  {
    if n < 0 || offset < 0 then Err(DatabaseError("LIMIT and OFFSET must not be negative"))
    else
      var start := Min(offset, |matches|);
      Ok(matches[start..Min(offset + n, |matches|)])
  }

  /** Some band of the full record has no `path`. */
  predicate MissingPath(bands: map<string, Option<string>>) {
    exists b :: b in bands && bands[b].None?
  }

  /** The `assets` of an item: each band's path. */
  function Assets(bands: map<string, Option<string>>): (r: Result<map<string, string>>)
    ensures r.Err? <==> MissingPath(bands)
    ensures r.Ok? ==> r.value.Keys == bands.Keys
    ensures r.Ok? ==> forall b :: b in bands ==> bands[b] == Some(r.value[b])
  {
    if MissingPath(bands) then Err(KeyError("path"))
    else Ok(map b | b in bands :: bands[b].value)
  }

  /** `as_stac_item`: assets only for a dataset with its full record; a band
      without a `path` raises `KeyError`. */
  function AsStacItem(d: DatasetItem): (r: Result<StacItem>)
    ensures r.Ok? ==> r.value.id == d.id && r.value.datetime == d.centerTime
                      && r.value.product == d.productName && r.value.bbox == d.bbox
    ensures r.Ok? ==> (r.value.assets.Some? <==> d.fullDataset.Some?)
    ensures r.Ok? && d.fullDataset.Some? ==> Assets(d.fullDataset.value) == Ok(r.value.assets.value)
    ensures r.Err? <==> d.fullDataset.Some? && MissingPath(d.fullDataset.value)
  {
    var assets: Result<Option<map<string, string>>> :=
      match d.fullDataset
      case None => Ok(None)
      case Some(bands) =>
        (var a :- Assets(bands); Ok(Some(a)));
    if assets.Err? then Err(assets.error)
    else
      Ok(StacItem(d.id, d.bbox, d.geometry, d.centerTime, d.productName,
                  d.creationTime, d.regionCode, assets.value))
  }

  /** The items of a page, in row order; the first failing row's error. */
  function AsStacItems(rows: seq<DatasetItem>): (r: Result<seq<StacItem>>)
    ensures r.Ok? ==> |r.value| == |rows|
  {
    if rows == [] then Ok([])
    else
      var head :- AsStacItem(rows[0]);
      var tail :- AsStacItems(rows[1..]);
      Ok([head] + tail)
  }

  /** The page converts row by row, and fails exactly when some row does. */
  lemma {:induction false} AsStacItemsPointwise(rows: seq<DatasetItem>)
    ensures AsStacItems(rows).Ok? ==>
              forall i :: 0 <= i < |rows| ==> AsStacItem(rows[i]) == Ok(AsStacItems(rows).value[i])
    ensures AsStacItems(rows).Err? <==> exists i :: 0 <= i < |rows| && AsStacItem(rows[i]).Err?
  {
    if rows != [] {
      AsStacItemsPointwise(rows[1..]);
      if AsStacItems(rows[1..]).Err? {
        var i :| 0 <= i < |rows[1..]| && AsStacItem(rows[1..][i]).Err?;
        assert AsStacItem(rows[i + 1]).Err?;
      }
      if AsStacItems(rows).Ok? {
        forall i | 1 <= i < |rows|
          ensures AsStacItem(rows[i]) == Ok(AsStacItems(rows).value[i])
        {
          assert rows[i] == rows[1..][i - 1];
        }
      } else if AsStacItem(rows[0]).Ok? {
        var i :| 0 <= i < |rows[1..]| && AsStacItem(rows[1..][i]).Err?;
        assert rows[1..][i] == rows[i + 1];
      }
    }
  }

  /** Converting two runs of rows converts their concatenation; the first
      failure wins. */
  lemma {:induction false} AsStacItemsAppend(a: seq<DatasetItem>, b: seq<DatasetItem>)
    ensures AsStacItems(a).Err? ==> AsStacItems(a + b) == AsStacItems(a)
    ensures AsStacItems(a).Ok? && AsStacItems(b).Err? ==> AsStacItems(a + b) == AsStacItems(b)
    ensures AsStacItems(a).Ok? && AsStacItems(b).Ok? ==>
              AsStacItems(a + b) == Ok(AsStacItems(a).value + AsStacItems(b).value)
  {
    if a == [] {
      assert a + b == b;
      if AsStacItems(b).Ok? {
        assert [] + AsStacItems(b).value == AsStacItems(b).value;
      }
    } else {
      var ab := a + b;
      assert ab[0] == a[0];
      assert ab[1..] == a[1..] + b;
      AsStacItemsAppend(a[1..], b);
      var h := AsStacItem(a[0]);
      if h.Ok? && AsStacItems(a[1..]).Ok? && AsStacItems(b).Ok? {
        var x, y := AsStacItems(a[1..]).value, AsStacItems(b).value;
        assert AsStacItems(ab) == Ok([h.value] + (x + y));
        assert [h.value] + (x + y) == ([h.value] + x) + y;
      }
    }
  }

  /** The window a page shows: at most `limit` matches from `offset`. */
  function Window(matches: seq<DatasetItem>, offset: int, limit: int): seq<DatasetItem>
    requires 0 <= offset <= |matches| && limit >= 0
  {
    matches[offset..Min(offset + limit, |matches|)]
  }

  predicate HasNext(p: SearchParams, matches: seq<DatasetItem>) {
    p.offset + p.limit + 1 <= |matches| && p.offset + p.limit < DatasetLimit
  }

  /** `search_datasets_stac`: fetch one row more than the page holds, show the
      first `limit`, and link to the next window when the extra row came back
      and the next window still starts below `DatasetLimit`. */
  function SearchDatasets(p: SearchParams, matches: seq<DatasetItem>): (r: Result<FeatureCollection>)
    ensures p.limit == 0 && p.offset >= 0 ==> r == Err(ZeroDivisionError)
    ensures r.Ok? ==> p.limit != 0 && r.value.limit == p.limit
    ensures r.Ok? ==> r.value.page == FloorDiv(p.offset, p.limit)
    ensures r.Ok? && p.limit >= 0 ==> |r.value.features| <= p.limit
    ensures r.Ok? ==> |r.value.links| <= 1
    ensures r.Ok? && 0 <= p.limit && 0 <= p.offset <= |matches| ==>
              AsStacItems(Window(matches, p.offset, p.limit)) == Ok(r.value.features)
    ensures r.Ok? && 0 <= p.limit && 0 <= p.offset ==> (|r.value.links| == 1 <==> HasNext(p, matches))
    ensures r.Ok? && |r.value.links| == 1 ==>
              && p.time.Some?
              && r.value.links[0] == NextLink(p.product, p.bbox, UnparseTimeRange(p.time.value),
                                              p.limit, p.offset + p.limit)
  {
    var rows :- Fetch(matches, p.limit + 1, p.offset);
    var features :- AsStacItems(SliceTo(rows, p.limit));
    if p.limit == 0 then Err(ZeroDivisionError)
    else
      var page := FloorDiv(p.offset, p.limit);
      var thereAreMore := |rows| == p.limit + 1;
      assert p.limit > 0 && p.offset <= |matches| ==> SliceTo(rows, p.limit) == Window(matches, p.offset, p.limit);
      assert p.limit > 0 ==> ((thereAreMore && p.offset + p.limit < DatasetLimit) <==> HasNext(p, matches));
      if thereAreMore && p.offset + p.limit < DatasetLimit then
        match p.time
        case None => Err(TypeError)
        case Some(t) =>
          Ok(FeatureCollection(features, page, p.limit,
                               [NextLink(p.product, p.bbox, UnparseTimeRange(t), p.limit, p.offset + p.limit)]))
      else
        Ok(FeatureCollection(features, page, p.limit, []))
  }

  /** `stac_search` end to end. */
  function StacSearch(req: SearchRequest, matches: seq<DatasetItem>): Result<FeatureCollection> {
    var p :- ValidateSearch(req);
    SearchDatasets(p, matches)
  }

  /** The GET request a client makes by following a `next` link. */
  function FollowLink(l: Link): SearchRequest {
    SearchRequest(Get, Coords(l.bbox), Some(l.time), l.product, Some(l.limit), Some(l.offset))
  }

  /** Everything a client sees by requesting `req` and then following `next`
      links, at most `fuel` times. */
  function Crawl(req: SearchRequest, matches: seq<DatasetItem>, fuel: nat): Result<seq<StacItem>>
    decreases fuel, 1
  {
    var page :- StacSearch(req, matches);
    CrawlOn(page, matches, fuel)
  }

  /** A page's items, then (fuel permitting) what following its `next` link
      yields. */
  function CrawlOn(page: FeatureCollection, matches: seq<DatasetItem>, fuel: nat): Result<seq<StacItem>>
    decreases fuel, 0
  {
    if |page.links| == 0 || fuel == 0 then Ok(page.features)
    else
      var rest :- Crawl(FollowLink(page.links[0]), matches, fuel - 1);
      Ok(page.features + rest)
  }

  /** A page's items ahead of what the rest of the crawl yields. */
  function Prepend(items: seq<StacItem>, rest: Result<seq<StacItem>>): Result<seq<StacItem>> {
    if rest.Err? then rest else Ok(items + rest.value)
  }

  /** A request to a `next` link passes validation with the same product,
      bounding box and time range, at the linked offset. */
  lemma FollowLinkValidates(p: SearchParams, t: TimeRange, limit: int, offset: int)
    requires ValidRange(t) && |p.bbox| == 4 && p.time == Some(t)
    requires 0 <= offset < DatasetLimit && limit >= 1
    ensures ValidateSearch(FollowLink(NextLink(p.product, p.bbox, UnparseTimeRange(t), limit, offset)))
            == Ok(SearchParams(p.product, p.bbox, Some(t), ShrinkLimit(offset, limit), offset))
  {
    var time := UnparseTimeRange(t);
    ParseUnparse(t);
    IsoTime.FormatWidths(t.begin);
    assert time != "";
    hide UnparseTimeRange, ParseTimeRange, IsoTime.IsoFormat;
    ValidateGet(p.product, p.bbox, time, limit, offset);
  }

  /** A GET request with four coordinates, a non-empty time and an offset
      below the cap validates to its own arguments once the time parses. */
  lemma ValidateGet(product: Option<string>, bbox: seq<real>, time: string, limit: int, offset: int)
    requires |bbox| == 4 && time != "" && 0 <= offset < DatasetLimit && limit >= 1
    ensures ParseTimeRange(time).Ok? ==>
              ValidateSearch(SearchRequest(Get, Coords(bbox), Some(time), product, Some(limit), Some(offset)))
              == Ok(SearchParams(product, bbox, ParseTimeRange(time).value, ShrinkLimit(offset, limit), offset))
  {
  }

  /** One page of a valid window, spelled out. */
  lemma SearchPage(p: SearchParams, matches: seq<DatasetItem>)
    requires p.time.Some? && p.limit >= 1 && 0 <= p.offset <= |matches|
    ensures AsStacItems(Window(matches, p.offset, p.limit)).Err? ==>
              SearchDatasets(p, matches) == Err(AsStacItems(Window(matches, p.offset, p.limit)).error)
    ensures AsStacItems(Window(matches, p.offset, p.limit)).Ok? ==>
              SearchDatasets(p, matches) ==
                Ok(FeatureCollection(AsStacItems(Window(matches, p.offset, p.limit)).value,
                                     FloorDiv(p.offset, p.limit), p.limit,
                                     if HasNext(p, matches)
                                     then [NextLink(p.product, p.bbox, UnparseTimeRange(p.time.value),
                                                    p.limit, p.offset + p.limit)]
                                     else []))
  {
    var rows := Fetch(matches, p.limit + 1, p.offset).value;
    assert SliceTo(rows, p.limit) == Window(matches, p.offset, p.limit);
  }

  /** A window whose rows fail to convert fails the whole remaining crawl
      with the same error. */
  lemma WindowFails(matches: seq<DatasetItem>, o: int, l: int)
    requires 0 <= o <= |matches| && l >= 1 && o + l <= DatasetLimit
    requires AsStacItems(Window(matches, o, l)).Err?
    ensures AsStacItems(matches[o..Min(|matches|, DatasetLimit)]) == AsStacItems(Window(matches, o, l))
  {
    var end := Min(|matches|, DatasetLimit);
    var first := Window(matches, o, l);
    var after := matches[Min(o + l, |matches|)..end];
    assert matches[o..end] == first + after;
    AsStacItemsAppend(first, after);
  }

  /** A window followed by the rest of the matches up to the cap. */
  lemma WindowThenRest(matches: seq<DatasetItem>, o: int, l: int)
    requires 0 <= o && l >= 1 && o + l <= |matches| && o + l <= DatasetLimit
    ensures var end := Min(|matches|, DatasetLimit);
            matches[o..end] == Window(matches, o, l) + matches[o + l..end]
  {
  }

  /** A crawl starts with the page of its validated request. */
  lemma CrawlPage(req: SearchRequest, p: SearchParams, matches: seq<DatasetItem>, fuel: nat)
    requires ValidateSearch(req) == Ok(p)
    ensures Crawl(req, matches, fuel) ==
              if SearchDatasets(p, matches).Err? then Err(SearchDatasets(p, matches).error)
              else CrawlOn(SearchDatasets(p, matches).value, matches, fuel)
  {
  }

  /** A page that links onward is followed while fuel lasts. */
  lemma CrawlOnLink(page: FeatureCollection, matches: seq<DatasetItem>, fuel: nat, f: nat)
    requires |page.links| > 0 && fuel == f + 1
    ensures CrawlOn(page, matches, fuel) ==
              Prepend(page.features, Crawl(FollowLink(page.links[0]), matches, f))
  {
    hide ValidateSearch, SearchDatasets, ParseTimeRange, UnparseTimeRange;
  }

  /** From any valid window, the crawl returns exactly the matches from that
      offset up to `DatasetLimit` (or the end of the matches), in store order. */
  lemma {:induction false} CrawlFrom(req: SearchRequest, p: SearchParams, matches: seq<DatasetItem>, fuel: nat)
    requires ValidateSearch(req) == Ok(p)
    requires p.time.Some? && p.limit >= 1 && 0 <= p.offset <= |matches|
    requires fuel >= DatasetLimit - p.offset
    ensures Crawl(req, matches, fuel) == AsStacItems(matches[p.offset..Min(|matches|, DatasetLimit)])
    decreases DatasetLimit - p.offset, 1
  {
    hide ValidateSearch, SearchDatasets, ParseTimeRange, UnparseTimeRange;
    var o, l := p.offset, p.limit;
    var first := Window(matches, o, l);
    if AsStacItems(first).Err? {
      SearchPage(p, matches);
      CrawlPage(req, p, matches, fuel);
      WindowFails(matches, o, l);
    } else if HasNext(p, matches) {
      CrawlFromLinked(req, p, matches, fuel);
    } else {
      SearchPage(p, matches);
      CrawlPage(req, p, matches, fuel);
      assert first == matches[o..Min(|matches|, DatasetLimit)];
    }
  }

  /** The case of `CrawlFrom` where the page links onward: the window's
      items, then the crawl from the next window. */
  lemma {:induction false} CrawlFromLinked(req: SearchRequest, p: SearchParams, matches: seq<DatasetItem>, fuel: nat)
    requires ValidateSearch(req) == Ok(p)
    requires p.time.Some? && p.limit >= 1 && 0 <= p.offset <= |matches|
    requires fuel >= DatasetLimit - p.offset
    requires AsStacItems(Window(matches, p.offset, p.limit)).Ok? && HasNext(p, matches)
    ensures Crawl(req, matches, fuel) == AsStacItems(matches[p.offset..Min(|matches|, DatasetLimit)])
    decreases DatasetLimit - p.offset, 0
  {
    hide ValidateSearch, SearchDatasets, ParseTimeRange, UnparseTimeRange;
    var f: nat := fuel - 1;
    var next, p' := CrawlStep(req, p, matches, fuel, f);
    CrawlFrom(next, p', matches, f);
    var end := Min(|matches|, DatasetLimit);
    WindowThenRest(matches, p.offset, p.limit);
    ConvertAfterWindow(Window(matches, p.offset, p.limit), matches[p'.offset..end], matches[p.offset..end]);
  }

  /** A page that links onward: the crawl is the window's items ahead of the
      crawl from a request that validates to the next window. */
  lemma CrawlStep(req: SearchRequest, p: SearchParams, matches: seq<DatasetItem>, fuel: nat, f: nat)
    returns (next: SearchRequest, p': SearchParams)
    requires ValidateSearch(req) == Ok(p) && fuel == f + 1
    requires p.time.Some? && p.limit >= 1 && 0 <= p.offset <= |matches|
    requires AsStacItems(Window(matches, p.offset, p.limit)).Ok? && HasNext(p, matches)
    ensures ValidateSearch(next) == Ok(p')
    ensures p'.time.Some? && p'.limit >= 1 && p'.offset == p.offset + p.limit
    ensures Crawl(req, matches, fuel) == Prepend(AsStacItems(Window(matches, p.offset, p.limit)).value, Crawl(next, matches, f))
  {
    hide ValidateSearch, SearchDatasets, ParseTimeRange, UnparseTimeRange;
    CrawlPage(req, p, matches, fuel);
    next, p' := NextRequest(p, matches);
    CrawlOnLink(SearchDatasets(p, matches).value, matches, fuel, f);
  }

  /** The page of a window that links onward: its items are the window's,
      and its link is a request that validates to the next window. */
  lemma NextRequest(p: SearchParams, matches: seq<DatasetItem>) returns (next: SearchRequest, p': SearchParams)
    requires p.time.Some? && ValidRange(p.time.value) && |p.bbox| == 4
    requires p.limit >= 1 && 0 <= p.offset < DatasetLimit && p.offset <= |matches|
    requires AsStacItems(Window(matches, p.offset, p.limit)).Ok? && HasNext(p, matches)
    ensures SearchDatasets(p, matches).Ok?
    ensures SearchDatasets(p, matches).value.features == AsStacItems(Window(matches, p.offset, p.limit)).value
    ensures |SearchDatasets(p, matches).value.links| > 0
    ensures next == FollowLink(SearchDatasets(p, matches).value.links[0])
    ensures ValidateSearch(next) == Ok(p')
    ensures p'.time.Some? && p'.limit >= 1 && p'.offset == p.offset + p.limit
  {
    hide ValidateSearch, SearchDatasets, ParseTimeRange, UnparseTimeRange;
    var o, l, t := p.offset, p.limit, p.time.value;
    next := FollowLink(NextLink(p.product, p.bbox, UnparseTimeRange(t), l, o + l));
    FollowLinkValidates(p, t, l, o + l);
    p' := SearchParams(p.product, p.bbox, Some(t), ShrinkLimit(o + l, l), o + l);
    SearchPage(p, matches);
  }

  /** Converting a window and then the rows after it. */
  lemma ConvertAfterWindow(first: seq<DatasetItem>, after: seq<DatasetItem>, whole: seq<DatasetItem>)
    requires whole == first + after && AsStacItems(first).Ok?
    ensures AsStacItems(whole) == Prepend(AsStacItems(first).value, AsStacItems(after))
  {
    AsStacItemsAppend(first, after);
  }

  /** Following `next` links from a first page never yields more than
      `DatasetLimit` items: it yields exactly the first `DatasetLimit`
      matches (all of them when there are fewer), each once, in store order. */
  lemma CrawlYieldsFirstDatasetLimit(req: SearchRequest, matches: seq<DatasetItem>)
    requires ValidateSearch(req).Ok?
    requires ValidateSearch(req).value.time.Some?
    requires ValidateSearch(req).value.offset == 0
    requires ValidateSearch(req).value.limit >= 1
    ensures Crawl(req, matches, DatasetLimit) == AsStacItems(matches[..Min(|matches|, DatasetLimit)])
  {
    CrawlFrom(req, ValidateSearch(req).value, matches, DatasetLimit);
  }
}
