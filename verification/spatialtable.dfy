/** The per-dataset extent and CRS of `cubedash/spatialtable.py`, which the
    source writes as SQL over each dataset's JSONB metadata document. The
    SQL is modelled as pure functions on a JSON value: `#>` (`doc[path]`),
    `#>>` (`.astext`), `CASE`, `COALESCE` and the integer cast, with
    PostgreSQL's NULL rules. The PostGIS constructors are kept symbolic:
    an extent is either the GeoJSON text handed to `ST_GeomFromGeoJSON`
    or the ring of corner points handed to `ST_MakeLine`. */
module SpatialTable {
  import opened Wrappers
  import opened Strings

  /** A JSONB value; numbers keep their literal text. */
  datatype Json =
    | JNull
    | JBool(b: bool)
    | JNumber(literal: string)
    | JText(s: string)
    | JArray(items: seq<Json>)
    | JObject(fields: map<string, Json>)

  /** `j #> path`: SQL NULL (`None`) when a step names a missing key or
      steps into a value that is not an object. A JSON `null` found at the
      path is a value, not SQL NULL. */
  function Get(j: Json, path: seq<string>): Option<Json>
    decreases |path|
  {
    if path == [] then Some(j)
    else
      match j
      case JObject(fields) => if path[0] in fields then Get(fields[path[0]], path[1..]) else None
      case _ => None
  }

  /** `#>` on a result that may already be SQL NULL. */
  function Then(o: Option<Json>, path: seq<string>): Option<Json> {
    if o.Some? then Get(o.value, path) else None
  }

  /** `#>>` of a found value: strings unquoted, numbers and booleans as
      written, JSON `null` as SQL NULL, arrays and objects as their JSON
      text (`render`, the database's serialiser). */
  function AsText(render: Json -> string, o: Option<Json>): (r: Option<string>)
    ensures o.None? || o == Some(JNull) ==> r.None?
    ensures o.Some? && o.value.JText? ==> r == Some(o.value.s)
  {
    match o
    case None => None
    case Some(JNull) => None
    case Some(JBool(b)) => Some(if b then "true" else "false")
    case Some(JNumber(literal)) => Some(literal)
    case Some(JText(s)) => Some(s)
    case Some(v) => Some(render(v))
  }

  /** A path can be followed in two parts. */
  lemma {:induction false} GetAppend(j: Json, p: seq<string>, q: seq<string>)
    ensures Get(j, p + q) == Then(Get(j, p), q)
    decreases |p|
  {
    if p == [] {
      assert p + q == q;
    } else {
      assert (p + q)[0] == p[0] && (p + q)[1..] == p[1..] + q;
      if j.JObject? && p[0] in j.fields {
        GetAppend(j.fields[p[0]], p[1..], q);
      }
    }
  }

  // ---------------------------------------------------------------------
  // The extent

  /** `_gis_point`: the `x` and `y` texts cast to double precision; the
      cast itself is PostGIS's and is not modelled. */
  datatype Point = Point(x: Option<string>, y: Option<string>)

  /** The geometry handed to PostGIS. */
  datatype Extent =
    | FromGeoJson(geojson: Option<string>)   // ST_GeomFromGeoJSON(text)
    | CornerRing(points: seq<Point>)         // ST_MakePolygon(ST_MakeLine(points))

  /** The corners of the ring, in ring order, back to the start. */
  const CornerKeys: seq<string> := ["ll", "ul", "ur", "lr", "ll"]

  /** `_gis_point(doc[offset + ['geo_ref_points', key]])`. */
  function Corner(render: Json -> string, doc: Json, offset: seq<string>, key: string): Point {
    var obj := Get(doc, offset + ["geo_ref_points", key]);
    Point(AsText(render, Then(obj, ["x"])), AsText(render, Then(obj, ["y"])))
  }

  function Ring(render: Json -> string, doc: Json, offset: seq<string>): (ring: seq<Point>)
    ensures |ring| == |CornerKeys|
  {
    seq(|CornerKeys|, i requires 0 <= i < |CornerKeys| => Corner(render, doc, offset, CornerKeys[i]))
  }

  /** `get_dataset_extent_alchemy_expression` as written: the test indexes
      the projection value with the full offset again
      (`projection[valid_data_offset]`), so it asks for the offset twice
      over. */
  function ExtentAsWritten(render: Json -> string, doc: Json, offset: seq<string>): Extent {
    var projection := Get(doc, offset);
    if Then(projection, offset + ["valid_data"]).Some? then
      FromGeoJson(AsText(render, Get(doc, offset + ["valid_data"])))
    else CornerRing(Ring(render, doc, offset))
  }

  /** The intended extent: the `valid_data` geometry when the document has
      one, otherwise the corner ring. */
  function DatasetExtent(render: Json -> string, doc: Json, offset: seq<string>): Extent {
    if Get(doc, offset + ["valid_data"]).Some? then
      FromGeoJson(AsText(render, Get(doc, offset + ["valid_data"])))
    else CornerRing(Ring(render, doc, offset))
  }

  /** The extent is the `valid_data` text exactly when the document has
      `valid_data` under the offset; otherwise it is the closed ring of the
      corners ll, ul, ur, lr, ll. */
  lemma ExtentSpec(render: Json -> string, doc: Json, offset: seq<string>)
    ensures var e := DatasetExtent(render, doc, offset);
            && (e.FromGeoJson? <==> Get(doc, offset + ["valid_data"]).Some?)
            && (e.FromGeoJson? ==> e.geojson == AsText(render, Get(doc, offset + ["valid_data"])))
            && (e.CornerRing? ==>
                  && |e.points| == 5 && e.points[0] == e.points[4]
                  && e.points[0] == Corner(render, doc, offset, "ll")
                  && e.points[1] == Corner(render, doc, offset, "ul")
                  && e.points[2] == Corner(render, doc, offset, "ur")
                  && e.points[3] == Corner(render, doc, offset, "lr"))
  {
  }

  /** As written, the GeoJSON branch is taken exactly when the document
      holds `valid_data` under the offset repeated twice. */
  lemma ExtentAsWrittenDoublesPath(render: Json -> string, doc: Json, offset: seq<string>)
    ensures ExtentAsWritten(render, doc, offset).FromGeoJson?
            <==> Get(doc, offset + (offset + ["valid_data"])).Some?
  {
    GetAppend(doc, offset, offset + ["valid_data"]);
  }

  /** An eo document with `valid_data` under `grid_spatial.projection`. */
  function EoDoc(validData: Json): Json {
    JObject(map["grid_spatial" := JObject(map["projection" := JObject(map["valid_data" := validData])])])
  }

  /** The document the eo metadata type describes: as written it gets the
      corner ring although it has a `valid_data` polygon, which the
      intended extent uses. */
  lemma ExtentAsWrittenMissesValidData(render: Json -> string)
    ensures var doc, offset := EoDoc(JObject(map["type" := JText("Polygon")])), ["grid_spatial", "projection"];
            && ExtentAsWritten(render, doc, offset).CornerRing?
            && DatasetExtent(render, doc, offset) == FromGeoJson(Some(render(JObject(map["type" := JText("Polygon")]))))
  {
    var vd := JObject(map["type" := JText("Polygon")]);
    var doc, offset := EoDoc(vd), ["grid_spatial", "projection"];
    var projection := JObject(map["valid_data" := vd]);
    assert Get(doc, offset) == Some(projection) by {
      assert offset[1..] == ["projection"] && offset[1..][1..] == [];
    }
    assert Get(projection, offset + ["valid_data"]) == None;
    GetAppend(doc, offset, ["valid_data"]);
    assert Get(projection, ["valid_data"]) == Some(vd) by {
      assert ["valid_data"][1..] == [];
    }
  }

  // ---------------------------------------------------------------------
  // The CRS

  const Int4Min: int := -0x8000_0000
  const Int4Max: int := 0x7FFF_FFFF

  /** The characters PostgreSQL's integer input skips around the number. */
  predicate IsSpace(c: char) {
    c == ' ' || c == '\t' || c == '\n' || c == '\r' || c == '\U{000B}' || c == '\U{000C}'
  }

  function TrimStart(s: string): (r: string)
    ensures |r| <= |s| && r == s[|s| - |r|..]
    ensures r == [] || !IsSpace(r[0])
  {
    if s != [] && IsSpace(s[0]) then TrimStart(s[1..]) else s
  }

  function TrimEnd(s: string): (r: string)
    ensures |r| <= |s| && r == s[..|r|]
    ensures r == [] || !IsSpace(r[|r| - 1])
  {
    if s != [] && IsSpace(s[|s| - 1]) then TrimEnd(s[..|s| - 1]) else s
  }

  /** A string that starts and ends with something other than a blank is
      not trimmed. */
  lemma TrimUnblanked(s: string)
    requires s != [] && !IsSpace(s[0]) && !IsSpace(s[|s| - 1])
    ensures TrimEnd(TrimStart(s)) == s
  {
  }

  /** An optional sign, at least one decimal digit, and a value that fits
      32 bits. */
  function ReadInt4(t: string): (r: Result<int>)
    ensures r.Ok? ==> Int4Min <= r.value <= Int4Max
  {
    var signed := t != [] && (t[0] == '-' || t[0] == '+');
    var digits := if signed then t[1..] else t;
    if digits == [] || !AllDigits(digits) then Err(DatabaseError("invalid input syntax for type integer"))
    else
      var v: int := if signed && t[0] == '-' then -(ParseDigits(digits) as int) else ParseDigits(digits);
      if v < Int4Min || v > Int4Max then Err(DatabaseError("value out of range for type integer"))
      else Ok(v)
  }

  /** `CAST(text AS INTEGER)`: the number may have blanks around it. */
  function CastInt4(s: string): (r: Result<int>)
    ensures r.Ok? ==> Int4Min <= r.value <= Int4Max
  {
    ReadInt4(TrimEnd(TrimStart(s)))
  }

  /** `str` of a 32-bit integer reads back as it. */
  lemma ReadInt4OfString(n: int)
    requires Int4Min <= n <= Int4Max
    ensures ReadInt4(IntToString(n)) == Ok(n)
  {
    var m: nat := if n < 0 then -n else n;
    var digits := NatToString(m);
    ParseNatToString(m);
    var s := IntToString(n);
    assert s == if n < 0 then "-" + digits else digits;
    hide NatToString, ParseDigits;
    if n < 0 {
      assert s[1..] == digits;
    } else {
      assert IsDigit(digits[0]);
    }
  }

  /** The text of an integer casts back to it. */
  lemma CastInt4OfString(n: int)
    requires Int4Min <= n <= Int4Max
    ensures CastInt4(IntToString(n)) == Ok(n)
  {
    var m: nat := if n < 0 then -n else n;
    var digits := NatToString(m);
    var s := IntToString(n);
    assert s == if n < 0 then "-" + digits else digits;
    assert IsDigit(digits[0]) && IsDigit(digits[|digits| - 1]);
    assert s[|s| - 1] == digits[|digits| - 1];
    TrimUnblanked(s);
    ReadInt4OfString(n);
  }

  /** `abs` on a 32-bit integer: the most negative one has no 32-bit
      absolute value. */
  function Int4Abs(n: int): (r: Result<int>)
    requires Int4Min <= n <= Int4Max
    ensures r.Ok? <==> n != Int4Min
    ensures r.Ok? ==> r.value >= 0 && (r.value == n || r.value == -n)
  {
    if n == Int4Min then Err(DatabaseError("integer out of range"))
    else if n < 0 then Ok(-n) else Ok(n)
  }

  /** `get_dataset_crs_alchemy_expression`:
      `COALESCE(spatial_reference, CASE WHEN datum = 'GDA94' THEN 'EPSG:283' || abs(zone::int) END)`.
      `COALESCE` and `CASE` only evaluate the branch they need, so a bad
      zone only fails when it is used; a NULL zone gives NULL. */
  function Crs(render: Json -> string, doc: Json, offset: seq<string>): (r: Result<Option<string>>) {
    var spatialReference := AsText(render, Get(doc, offset + ["spatial_reference"]));
    if spatialReference.Some? then Ok(spatialReference)
    else if AsText(render, Get(doc, offset + ["datum"])) != Some("GDA94") then Ok(None)
    else
      match AsText(render, Get(doc, offset + ["zone"]))
      case None => Ok(None)
      case Some(zone) =>
        var z :- CastInt4(zone);
        var a :- Int4Abs(z);
        Ok(Some("EPSG:283" + IntToString(a)))
  }

  /** A spatial reference wins, whatever the datum and zone say. */
  lemma CrsPrefersSpatialReference(render: Json -> string, doc: Json, offset: seq<string>, sr: string)
    requires Get(doc, offset + ["spatial_reference"]) == Some(JText(sr))
    ensures Crs(render, doc, offset) == Ok(Some(sr))
  {
  }

  /** Without a spatial reference, a datum other than GDA94 (or none) gives
      no CRS. */
  lemma CrsOtherDatum(render: Json -> string, doc: Json, offset: seq<string>)
    requires AsText(render, Get(doc, offset + ["spatial_reference"])).None?
    requires AsText(render, Get(doc, offset + ["datum"])) != Some("GDA94")
    ensures Crs(render, doc, offset) == Ok(None)
  {
  }

  /** A GDA94 document with a 32-bit zone (a number or a string) gets the EPSG code
      `283` followed by the zone's absolute value, whose digits read back
      as that value; the one zone without a 32-bit absolute value fails. */
  lemma CrsGda94(render: Json -> string, doc: Json, offset: seq<string>, zone: int)
    requires AsText(render, Get(doc, offset + ["spatial_reference"])).None?
    requires AsText(render, Get(doc, offset + ["datum"])) == Some("GDA94")
    requires AsText(render, Get(doc, offset + ["zone"])) == Some(IntToString(zone))
    requires Int4Min <= zone <= Int4Max
    ensures zone == Int4Min ==> Crs(render, doc, offset).Err?
    ensures zone != Int4Min ==>
              var a: nat := if zone < 0 then -zone else zone;
              && Crs(render, doc, offset) == Ok(Some("EPSG:283" + NatToString(a)))
              && ParseDigits(Crs(render, doc, offset).value.value[8..]) == a
  {
    CastInt4OfString(zone);
    hide CastInt4, NatToString, ParseDigits, Get, AsText;
    if zone != Int4Min {
      var a: nat := if zone < 0 then -zone else zone;
      assert Int4Abs(zone) == Ok(a);
      assert IntToString(a) == NatToString(a);
      ParseNatToString(a);
      assert ("EPSG:283" + NatToString(a))[8..] == NatToString(a);
    }
  }

  /** The metadata of an older GDA94 dataset, zone -55. */
  function Zone55Doc(): Json {
    JObject(map["grid_spatial" := JObject(map["projection" := JObject(map[
      "datum" := JText("GDA94"), "zone" := JNumber("-55")])])])
  }

  /** What the CRS expression reads of that document. */
  lemma Zone55Fields(render: Json -> string)
    ensures var doc, offset := Zone55Doc(), ["grid_spatial", "projection"];
            && AsText(render, Get(doc, offset + ["spatial_reference"])).None?
            && AsText(render, Get(doc, offset + ["datum"])) == Some("GDA94")
            && AsText(render, Get(doc, offset + ["zone"])) == Some("-55")
  {
    var offset := ["grid_spatial", "projection"];
    var projection := JObject(map["datum" := JText("GDA94"), "zone" := JNumber("-55")]);
    var doc := Zone55Doc();
    assert Get(doc, offset) == Some(projection) by {
      assert offset[1..] == ["projection"] && offset[1..][1..] == [];
    }
    GetAppend(doc, offset, ["spatial_reference"]);
    GetAppend(doc, offset, ["datum"]);
    GetAppend(doc, offset, ["zone"]);
  }

  /** Zone -55 in GDA94 is EPSG:28355. */
  lemma CrsZoneMinus55(render: Json -> string)
    ensures Crs(render, Zone55Doc(), ["grid_spatial", "projection"]) == Ok(Some("EPSG:28355"))
  {
    hide NatToString, IntToString, Get, Zone55Doc, Crs, ParseDigits, AsText;
    Zone55Fields(render);
    Text55();
    CrsGda94(render, Zone55Doc(), ["grid_spatial", "projection"], -55);
    assert "EPSG:283" + "55" == "EPSG:28355";
  }

  lemma Text55()
    ensures NatToString(55) == "55" && IntToString(-55) == "-55"
  {
    assert NatToString(55) == NatToString(5) + [DigitChar(5)];
  }
}
