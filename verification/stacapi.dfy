/** The older STAC endpoints of `cubedash/_stac_api.py`: the search's limit
    clamp and query building, the choice of a remote URI, the collection
    properties built from a product's metadata fields, and the item
    document's guards. */
module StacApi {
  import opened Wrappers
  import opened Calendar
  import opened Strings
  import IsoTime
  import Stac
  import Geometry

  /** `_PAGE_SIZE`. */
  const PageSize: int := 50

  // ---------------------------------------------------------------------
  // stac_search: the limit

  /** `limit` as the request gives it: absent, a JSON number, or the text of
      a query argument. */
  datatype LimitArg = NoLimit | IntLimit(n: int) | TextLimit(s: string)

  predicate LimitFalsy(l: LimitArg) {
    l.NoLimit? || l == IntLimit(0) || l == TextLimit("")
  }

  /** `if not limit or (limit > _PAGE_SIZE): limit = _PAGE_SIZE`: text that
      is not empty cannot be compared with a number (`TypeError`). */
  function ClampLimit(l: LimitArg): (r: Result<int>)
    ensures LimitFalsy(l) ==> r == Ok(PageSize)
    ensures l.IntLimit? && l.n > PageSize ==> r == Ok(PageSize)
    ensures l.IntLimit? && l.n != 0 && l.n <= PageSize ==> r == Ok(l.n)
    ensures r.Err? <==> l.TextLimit? && l.s != ""
    ensures r.Err? ==> r.error == TypeError
  {
    if LimitFalsy(l) then Ok(PageSize)
    else match l
      case IntLimit(n) => if n > PageSize then Ok(PageSize) else Ok(n)
      case _ => Err(TypeError)
  }

  /** A clamped limit never exceeds the page size, and clamping it again
      changes nothing. */
  lemma ClampLimitIdempotent(l: LimitArg)
    requires ClampLimit(l).Ok?
    ensures ClampLimit(l).value <= PageSize
    ensures ClampLimit(IntLimit(ClampLimit(l).value)) == ClampLimit(l)
  {
  }

  // ---------------------------------------------------------------------
  // load_datasets: the search query

  /** An entry of `bbox`: a number of a JSON body, or a character when the
      box arrives as query-argument text. */
  datatype Coord = Num(x: real) | Chr(c: char)

  /** A search term. */
  datatype Term = ProductTerm(name: string) | TimeTerm(begin: DateTime, end: DateTime) | CoordTerm(low: Coord, high: Coord)

  /** A box given as query-argument text is indexed character by character. */
  function TextBox(s: string): (r: seq<Coord>)
    ensures |r| == |s| && forall i :: 0 <= i < |s| ==> r[i] == Chr(s[i])
  {
    seq(|s|, i requires 0 <= i < |s| => Chr(s[i]))
  }

  /** `Range(parse(parts[0]), parse(parts[1]))` of `time.split('/')`: the
      first part is parsed before the second is looked up, so a bad first
      part is a `ValueError` even without a second (`IndexError`); parts
      after the second are ignored. */
  function TimeSpan(time: string): (r: Result<Term>)
    ensures r.Ok? ==> r.value.TimeTerm?
    ensures |Split(time, '/')| < 2 ==> r.Err?
  {
    var parts := Split(time, '/');
    var begin :- IsoTime.Parse(parts[0]);
    if |parts| < 2 then Err(IndexError)
    else
      var end :- IsoTime.Parse(parts[1]);
      Ok(TimeTerm(begin, end))
  }

  /** Adds the time range when `time` is not empty. */
  function WithTime(q: map<string, Term>, time: Option<string>): (r: Result<map<string, Term>>)
    ensures r.Ok? ==> r.value.Keys == q.Keys + (if time.Some? && time.value != "" then {"time"} else {})
    ensures r.Ok? ==> forall k :: k in q && k != "time" ==> r.value[k] == q[k]
  {
    if time.Some? && time.value != "" then
      var t :- TimeSpan(time.value);
      Ok(q["time" := t])
    else Ok(q)
  }

  /** Adds the longitude and latitude ranges when the box is not empty. */
  function WithBox(q: map<string, Term>, bbox: Option<seq<Coord>>): (r: Result<map<string, Term>>)
    ensures r.Ok? ==> r.value.Keys == q.Keys + (if bbox.Some? && bbox.value != [] then {"lon", "lat"} else {})
    ensures r.Ok? ==> forall k :: k in q && k != "lon" && k != "lat" ==> r.value[k] == q[k]
    ensures r.Ok? && bbox.Some? && bbox.value != [] ==>
              && |bbox.value| >= 4
              && r.value["lon"] == CoordTerm(bbox.value[0], bbox.value[2])
              && r.value["lat"] == CoordTerm(bbox.value[1], bbox.value[3])
    ensures r.Err? <==> bbox.Some? && 0 < |bbox.value| < 4
  {
    if bbox.Some? && bbox.value != [] then
      var b := bbox.value;
      if |b| < 4 then Err(IndexError)
      else Ok(q["lon" := CoordTerm(b[0], b[2])]["lat" := CoordTerm(b[1], b[3])])
    else Ok(q)
  }

  /** The query `load_datasets` passes to the search: `product` when given,
      the time range of `"a/b"`, and `lon = Range(x0, x1)`,
      `lat = Range(y0, y1)` of `[x0, y0, x1, y1]`. Empty values are
      skipped, and a box of fewer than four entries is an `IndexError`. */
  function LoadQuery(bbox: Option<seq<Coord>>, product: Option<string>, time: Option<string>): (r: Result<map<string, Term>>)
    ensures r.Ok? ==> r.value.Keys == (if product.Some? && product.value != "" then {"product"} else {})
                                      + (if time.Some? && time.value != "" then {"time"} else {})
                                      + (if bbox.Some? && bbox.value != [] then {"lon", "lat"} else {})
    ensures r.Ok? && "product" in r.value ==> r.value["product"] == ProductTerm(product.value)
    ensures r.Ok? && "lon" in r.value ==>
              && |bbox.value| >= 4
              && r.value["lon"] == CoordTerm(bbox.value[0], bbox.value[2])
              && r.value["lat"] == CoordTerm(bbox.value[1], bbox.value[3])
    ensures bbox.Some? && 0 < |bbox.value| < 4 ==> r.Err?
  {
    var q1 := if product.Some? && product.value != "" then map["product" := ProductTerm(product.value)] else map[];
    var q2 :- WithTime(q1, time);
    WithBox(q2, bbox)
  }

  /** A range written as `_unparse_time_range` writes it is searched as that
      range. */
  lemma LoadQueryTime(r: Stac.TimeRange)
    requires Stac.ValidRange(r)
    ensures LoadQuery(None, None, Some(Stac.UnparseTimeRange(r))) == Ok(map["time" := TimeTerm(r.begin, r.end)])
  {
    var a, b := IsoTime.IsoFormat(r.begin), IsoTime.IsoFormat(r.end);
    IsoTime.FormatHasNoSlash(r.begin, 'T');
    IsoTime.FormatHasNoSlash(r.end, 'T');
    assert Join([a, b], '/') == a + "/" + b;
    SplitJoin([a, b], '/');
    IsoTime.ParseFormat(r.begin, 'T');
    IsoTime.ParseFormat(r.end, 'T');
  }

  /** A numeric box becomes the longitude and latitude ranges, and nothing
      else is searched on. */
  lemma LoadQueryBox(x0: real, y0: real, x1: real, y1: real)
    ensures LoadQuery(Some([Num(x0), Num(y0), Num(x1), Num(y1)]), None, None)
            == Ok(map["lon" := CoordTerm(Num(x0), Num(x1)), "lat" := CoordTerm(Num(y0), Num(y1))])
  {
  }

  /** `stac_search`: the limit is clamped before the query is built (`from`
      is read but never used). */
  function StacSearchQuery(bbox: Option<seq<Coord>>, product: Option<string>, time: Option<string>, limit: LimitArg): (r: Result<(int, map<string, Term>)>)
    ensures r.Ok? <==> ClampLimit(limit).Ok? && LoadQuery(bbox, product, time).Ok?
    ensures r.Ok? ==> r.value == (ClampLimit(limit).value, LoadQuery(bbox, product, time).value)
    ensures ClampLimit(limit).Err? ==> r == Err(TypeError)
  {
    var l :- ClampLimit(limit);
    var q :- LoadQuery(bbox, product, time);
    Ok((l, q))
  }

  // ---------------------------------------------------------------------
  // pick_remote_uri

  /** The schemes served from elsewhere. */
  const RemoteSchemes: set<string> := {"https", "http", "ftp", "s3", "gfs"}

  /** `scheme, *_ = uri.split(':')`: the text before the first colon. */
  function Scheme(uri: string): (s: string)
    ensures ':' !in s
    ensures ':' !in uri ==> s == uri
    ensures ':' in uri ==> s == uri[..IndexOf(uri, ':')]
  {
    Split(uri, ':')[0]
  }

  predicate IsRemote(uri: string) {
    Scheme(uri) in RemoteSchemes
  }

  /** `pick_remote_uri`: the first URI with a remote scheme, else `None`. */
  function PickRemoteUri(uris: seq<string>): (r: Option<string>)
    ensures r.None? <==> forall i :: 0 <= i < |uris| ==> !IsRemote(uris[i])
    ensures r.Some? ==> exists i :: 0 <= i < |uris| && uris[i] == r.value && IsRemote(uris[i])
                                    && forall j :: 0 <= j < i ==> !IsRemote(uris[j])
  {
    if |uris| == 0 then None
    else if IsRemote(uris[0]) then Some(uris[0])
    else
      var rest := uris[1..];
      var r := PickRemoteUri(rest);
      if r.Some? then
        var i :| 0 <= i < |rest| && rest[i] == r.value && IsRemote(rest[i])
                 && forall j :: 0 <= j < i ==> !IsRemote(rest[j]);
        assert uris[i + 1] == r.value && IsRemote(uris[i + 1]);
        assert forall j :: 1 <= j < i + 1 ==> uris[j] == rest[j - 1];
        r
      else
        assert forall j :: 1 <= j < |uris| ==> uris[j] == rest[j - 1];
        r
  }

  /** A local file path comes second to any remote copy, wherever the copy
      is listed. */
  lemma PickRemoteSkipsFiles(path: string, remote: string)
    requires Scheme(path) == "file" && IsRemote(remote)
    ensures PickRemoteUri([path, remote]) == Some(remote)
    ensures PickRemoteUri([remote, path]) == Some(remote)
  {
  }

  /** A remote URI names its scheme, so it is never empty text. */
  lemma RemoteNotEmpty(uri: string)
    requires IsRemote(uri)
    ensures uri != ""
  {
  }

  // ---------------------------------------------------------------------
  // Collection properties

  /** `field_platform`: lower case, `_` becoming `-`. */
  function FieldPlatform(value: string): (r: (string, string))
    ensures r.0 == "eo:platform" && |r.1| == |value|
    ensures forall i :: 0 <= i < |value| ==> r.1[i] == (if value[i] == '_' then '-' else LowerChar(value[i]))
  {
    ("eo:platform", ReplaceChar(LowerAscii(value), '_', '-'))
  }

  /** A platform name comes out without underscores or upper-case letters,
      so converting it again changes nothing. */
  lemma FieldPlatformIdempotent(value: string)
    ensures forall i :: 0 <= i < |value| ==> FieldPlatform(value).1[i] != '_' && !('A' <= FieldPlatform(value).1[i] <= 'Z')
    ensures FieldPlatform(FieldPlatform(value).1) == FieldPlatform(value)
  {
    var p := FieldPlatform(value).1;
    assert FieldPlatform(p).1 == p;
  }

  /** The example the tests give: `LANDSAT_8` is `landsat-8`. */
  lemma FieldPlatformLandsat()
    ensures FieldPlatform("LANDSAT_8") == ("eo:platform", "landsat-8")
  {
    hide LowerAscii, ReplaceChar;
    var p := FieldPlatform("LANDSAT_8").1;
    assert |p| == 9;
    forall i | 0 <= i < 9
      ensures p[i] == "landsat-8"[i]
    {
    }
    assert p == "landsat-8";
  }

  /** `field_bands`: each band reduced to its name, in order; a band without
      a name is a `KeyError`. */
  function FieldBands(value: seq<map<string, string>>): (r: Result<(string, seq<map<string, string>>)>)
    ensures r.Ok? <==> forall i :: 0 <= i < |value| ==> "name" in value[i]
    ensures r.Ok? ==> r.value.0 == "eo:bands" && |r.value.1| == |value|
    ensures r.Err? ==> r.error == KeyError("name")
  {
    if forall i :: 0 <= i < |value| ==> "name" in value[i] then
      Ok(("eo:bands", seq(|value|, i requires 0 <= i < |value| => map["name" := value[i]["name"]])))
    else Err(KeyError("name"))
  }

  /** The bands keep their names and order, and nothing else. */
  lemma FieldBandsNames(value: seq<map<string, string>>, i: int)
    requires FieldBands(value).Ok? && 0 <= i < |value|
    ensures FieldBands(value).value.1[i].Keys == {"name"}
    ensures FieldBands(value).value.1[i]["name"] == value[i]["name"]
  {
  }

  /** A metadata field's value. */
  datatype FieldValue = NoValue | TextValue(s: string) | BandsValue(bands: seq<map<string, string>>) | OtherValue

  /** A collection property's value. */
  datatype PropValue = PropText(s: string) | PropBands(bands: seq<map<string, string>>) | PropOther

  /** The fields `_STAC_PROPERTY_MAP` has a converter for. */
  const ConvertedFields: set<string> := {"platform", "instrument", "measurements"}

  /** The converter of `_STAC_PROPERTY_MAP` for a field that has one:
      `lower` of a non-text platform is an `AttributeError`, and bands that
      are not a list of records cannot be indexed by name (`TypeError`;
      empty text has no elements to index). */
  function Convert(key: string, v: FieldValue): (r: Result<(string, PropValue)>)
    requires key in ConvertedFields && !v.NoValue?
    ensures r.Ok? && key == "platform" ==> v.TextValue? && r.value.0 == "eo:platform"
    ensures r.Ok? && key == "instrument" ==> r.value.0 == "eo:instrument"
    ensures r.Ok? && key == "measurements" ==> r.value.0 == "eo:bands"
  {
    if key == "platform" then
      if v.TextValue? then var p := FieldPlatform(v.s); Ok((p.0, PropText(p.1))) else Err(AttributeError)
    else if key == "instrument" then
      Ok(("eo:instrument", match v case TextValue(s) => PropText(s) case BandsValue(b) => PropBands(b) case _ => PropOther))
    else
      match v
      case BandsValue(b) => var p :- FieldBands(b); Ok((p.0, PropBands(p.1)))
      case TextValue(s) => if s == "" then Ok(("eo:bands", PropBands([]))) else Err(TypeError)
      case _ => Err(TypeError)
  }

  /** `_build_properties`: the converted fields, in field order, skipping
      `None` values and fields without a converter. */
  function BuildProperties(fields: seq<(string, FieldValue)>): (r: Result<seq<(string, PropValue)>>)
    ensures r.Ok? ==> forall i :: 0 <= i < |r.value| ==> r.value[i].0 in {"eo:platform", "eo:instrument", "eo:bands"}
  {
    if |fields| == 0 then Ok([])
    else
      var (key, v) := fields[0];
      if v.NoValue? || key !in ConvertedFields then BuildProperties(fields[1..])
      else
        var p :- Convert(key, v);
        var rest :- BuildProperties(fields[1..]);
        Ok([p] + rest)
  }

  /** The fields `_build_properties` converts. */
  function Kept(fields: seq<(string, FieldValue)>): (r: seq<(string, FieldValue)>)
    ensures forall i :: 0 <= i < |r| ==> r[i].0 in ConvertedFields && !r[i].1.NoValue?
  {
    if |fields| == 0 then []
    else if fields[0].1.NoValue? || fields[0].0 !in ConvertedFields then Kept(fields[1..])
    else [fields[0]] + Kept(fields[1..])
  }

  /** Each of a list of fields converted, in order, stopping at the first
      failure. */
  function ConvertEach(k: seq<(string, FieldValue)>): Result<seq<(string, PropValue)>>
    requires forall i :: 0 <= i < |k| ==> k[i].0 in ConvertedFields && !k[i].1.NoValue?
  {
    if |k| == 0 then Ok([])
    else
      var p :- Convert(k[0].0, k[0].1);
      var rest :- ConvertEach(k[1..]);
      Ok([p] + rest)
  }

  /** `_build_properties` converts exactly the kept fields. */
  lemma {:induction false} BuildPropertiesConvertsKept(fields: seq<(string, FieldValue)>)
    ensures BuildProperties(fields) == ConvertEach(Kept(fields))
  {
    if |fields| > 0 {
      BuildPropertiesConvertsKept(fields[1..]);
      if !(fields[0].1.NoValue? || fields[0].0 !in ConvertedFields) {
        var k := Kept(fields);
        assert k[0] == fields[0] && k[1..] == Kept(fields[1..]);
      }
    }
  }

  lemma {:induction false} ConvertEachSpec(k: seq<(string, FieldValue)>)
    requires forall i :: 0 <= i < |k| ==> k[i].0 in ConvertedFields && !k[i].1.NoValue?
    ensures ConvertEach(k).Ok? <==> forall i :: 0 <= i < |k| ==> Convert(k[i].0, k[i].1).Ok?
    ensures ConvertEach(k).Ok? ==>
              && |ConvertEach(k).value| == |k|
              && forall i :: 0 <= i < |k| ==> ConvertEach(k).value[i] == Convert(k[i].0, k[i].1).value
  {
    if |k| > 0 {
      ConvertEachSpec(k[1..]);
      var c, rest := Convert(k[0].0, k[0].1), ConvertEach(k[1..]);
      assert forall i :: 1 <= i < |k| ==> k[i] == k[1..][i - 1];
      if c.Ok? && rest.Err? {
        var i :| 0 <= i < |k[1..]| && !Convert(k[1..][i].0, k[1..][i].1).Ok?;
        assert k[i + 1] == k[1..][i];
      }
    }
  }

  /** The properties are exactly the kept fields, each converted, in order;
      the first kept field whose conversion fails is the error. */
  lemma BuildPropertiesKept(fields: seq<(string, FieldValue)>)
    ensures var k, r := Kept(fields), BuildProperties(fields);
            && (r.Ok? <==> forall i :: 0 <= i < |k| ==> Convert(k[i].0, k[i].1).Ok?)
            && (r.Ok? ==> |r.value| == |k| && forall i :: 0 <= i < |k| ==> r.value[i] == Convert(k[i].0, k[i].1).value)
  {
    BuildPropertiesConvertsKept(fields);
    ConvertEachSpec(Kept(fields));
  }

  // ---------------------------------------------------------------------
  // stac_item and item

  /** What the item document is built from. */
  datatype Dataset = Dataset(
    datasetId: string,
    productName: string,
    uris: seq<string>,
    localUri: Option<string>,
    shape: Option<Geometry.Shape>,
    centerTime: DateTime,
    begin: DateTime,
    end: DateTime,
    measurements: map<string, Option<string>>)

  /** The item document: the links and geometry are left to the web and
      geometry libraries. */
  datatype Item = Item(
    itemId: string,
    collection: string,
    datetime: DateTime,
    span: Option<(DateTime, DateTime)>,
    baseUri: Option<string>,
    bandNames: set<string>)

  /** `pick_remote_uri(ds) or ds.local_uri`. */
  function BaseUri(ds: Dataset): (r: Option<string>)
    ensures PickRemoteUri(ds.uris).Some? ==> r == PickRemoteUri(ds.uris)
    ensures PickRemoteUri(ds.uris).None? ==> r == ds.localUri
  {
    var remote := PickRemoteUri(ds.uris);
    if remote.Some? then
      var i :| 0 <= i < |ds.uris| && ds.uris[i] == remote.value && IsRemote(ds.uris[i]);
      RemoteNotEmpty(ds.uris[i]);
      if remote.value != "" then remote else ds.localUri
    else ds.localUri
  }

  /** `stac_item`: `None` for a dataset without a usable shape; otherwise an
      item whose start and end are added only when the dataset's time range
      is not empty. */
  function StacItem(lib: Geometry.Library, ds: Dataset): (r: Option<Item>)
    ensures r.None? <==> !Geometry.Truthy(lib, ds.shape)
    ensures r.Some? ==> r.value.itemId == ds.datasetId && r.value.collection == ds.productName
    ensures r.Some? ==> r.value.datetime == ds.centerTime
    ensures r.Some? ==> (r.value.span.Some? <==> Calendar.Less(ds.begin, ds.end))
    ensures r.Some? && r.value.span.Some? ==> r.value.span.value == (ds.begin, ds.end)
    ensures r.Some? ==> r.value.bandNames == ds.measurements.Keys
    ensures r.Some? ==> r.value.baseUri == BaseUri(ds)
  {
    if !Geometry.Truthy(lib, ds.shape) then None
    else
      var span := if Calendar.Less(ds.begin, ds.end) then Some((ds.begin, ds.end)) else None;
      Some(Item(ds.datasetId, ds.productName, ds.centerTime, span, BaseUri(ds), ds.measurements.Keys))
  }

  /** `item(product_name, dataset_id)`: 404 for an unknown dataset or one
      asked for under another product's name. */
  function ItemPage(lib: Geometry.Library, index: map<string, Dataset>, productName: string, datasetId: string): (r: Result<Option<Item>>)
    ensures datasetId !in index ==> r == Err(Abort(404, "No such dataset"))
    ensures r.Ok? ==> datasetId in index && index[datasetId].productName == productName
    ensures r.Ok? ==> r.value == StacItem(lib, index[datasetId])
    ensures r.Err? ==> r.error.Abort? && r.error.status == 404
  {
    if datasetId !in index then Err(Abort(404, "No such dataset"))
    else
      var ds := index[datasetId];
      if productName != ds.productName then
        Err(Abort(404, "No such dataset in collection.\nPerhaps you meant collection " + ds.productName))
      else Ok(StacItem(lib, ds))
  }

  /** The `meta` of `_as_feature_collection`: `found` only for a truthy
      total. */
  datatype Meta = Meta(page: int, limit: int, found: Option<int>)

  function FeatureCollectionMeta(totalCount: Option<int>, limit: int): (r: Meta)
    ensures r.page == 1 && r.limit == limit
    ensures r.found.Some? <==> totalCount.Some? && totalCount.value != 0
    ensures r.found.Some? ==> r.found == totalCount
  {
    Meta(1, limit, if totalCount.Some? && totalCount.value != 0 then totalCount else None)
  }
}
