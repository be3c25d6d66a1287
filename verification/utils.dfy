/** The query and calendar helpers of `cubedash/_utils.py`: grouping of
    `field-classifier` argument names, conversion of URL arguments into index
    search terms, backwards-range swapping, dataset labels and the
    year/month/day time ranges. */
module Utils {
  import opened Wrappers
  import opened Calendar
  import Strings

  /** A request or search value. `Null` is Python's `None`. */
  datatype Value = Null | Text(s: string) | Number(n: int) | Time(t: DateTime)

  /** A search term: a single value or a `datacube.model.Range`. */
  datatype QueryValue = Val(v: Value) | Range(begin: Value, end: Value)

  /** Python truthiness of a value. */
  predicate Truthy(v: Value) {
    match v
    case Null => false
    case Text(s) => s != ""
    case Number(n) => n != 0
    case Time(_) => true
  }

  // ---------------------------------------------------------------------
  // group_field_names

  /** `val is None or val == ''`. */
  predicate Blank(v: Value) {
    v == Null || v == Text("")
  }

  /** Splits `field-classifier` at its dash; a name without a dash has the
      classifier `val`, a name with two or more dashes is corrupt. */
  function Classify(name: string): (r: Result<(string, string)>)
    ensures r.Ok? <==> Strings.Count(name, '-') <= 1
    ensures r.Ok? && '-' !in name ==> r.value == (name, "val")
    ensures r.Ok? && '-' in name ==> Strings.Join([r.value.0, r.value.1], '-') == name
    ensures r.Ok? ==> '-' !in r.value.0
    ensures r.Err? ==> r.error == ValueError("Corrupt field name " + name)
  {
    var comps := Strings.Split(name, '-');
    Strings.SplitCount(name, '-');
    Strings.CountZeroIffAbsent(name, '-');
    if |comps| == 1 then Ok((comps[0], "val"))
    else if |comps| == 2 then Ok((comps[0], comps[1]))
    else Err(ValueError("Corrupt field name " + name))
  }

  /** A field name and classifier joined by a dash split back apart. */
  lemma ClassifyDashed(field: string, classifier: string)
    requires '-' !in field && '-' !in classifier
    ensures Classify(field + "-" + classifier) == Ok((field, classifier))
  {
    assert field + "-" + classifier == Strings.Join([field, classifier], '-');
    Strings.SplitJoin([field, classifier], '-');
  }

  type Groups = map<string, map<string, Value>>

  /** `out[field][constraint] = val` on a `defaultdict(dict)`. */
  function Put(out: Groups, field: string, constraint: string, v: Value): Groups {
    out[field := (if field in out then out[field] else map[])[constraint := v]]
  }

  /** The first name with two or more dashes, if any. */
  predicate HasCorruptName(request: seq<(string, Value)>) {
    exists i :: 0 <= i < |request| && Strings.Count(request[i].0, '-') > 1
  }

  /** `group_field_names` over the request's items in order. The name is
      checked before blank values are skipped, so a corrupt name fails even
      with a blank value. */
  function GroupFieldNames(request: seq<(string, Value)>): (r: Result<Groups>)
    ensures r.Err? ==> r.error.ValueError?
  {
    if request == [] then Ok(map[])
    else
      var n := |request| - 1;
      var out :- GroupFieldNames(request[..n]);
      var fc :- Classify(request[n].0);
      if Blank(request[n].1) then Ok(out) else Ok(Put(out, fc.0, fc.1, request[n].1))
  }

  /** Grouping fails exactly when some name has two or more dashes, whatever
      its value. */
  lemma {:induction false} GroupFieldNamesFails(request: seq<(string, Value)>)
    ensures GroupFieldNames(request).Err? <==> HasCorruptName(request)
  {
    if request != [] {
      var n := |request| - 1;
      GroupFieldNamesFails(request[..n]);
      if HasCorruptName(request[..n]) {
        var i :| 0 <= i < n && Strings.Count(request[..n][i].0, '-') > 1;
        assert request[i] == request[..n][i];
      }
    }
  }

  /** Every non-blank entry's field and classifier are grouped. */
  ghost predicate FiledAll(request: seq<(string, Value)>, out: Groups) {
    forall i :: 0 <= i < |request| && !Blank(request[i].1) ==>
      Classify(request[i].0).Ok?
      && Classify(request[i].0).value.0 in out
      && Classify(request[i].0).value.1 in out[Classify(request[i].0).value.0]
  }

  /** Every non-blank entry is filed under its field and classifier. */
  lemma {:induction false} GroupFieldNamesKeepsValues(request: seq<(string, Value)>)
    requires GroupFieldNames(request).Ok?
    ensures FiledAll(request, GroupFieldNames(request).value)
  {
    if request != [] {
      var n := |request| - 1;
      var prefix := request[..n];
      assert request == prefix + [request[n]];
      GroupFieldNamesKeepsValues(prefix);
      var out := GroupFieldNames(prefix).value;
      assert Classify(request[n].0).Ok?;
      var fc := Classify(request[n].0).value;
      assert GroupFieldNames(request).value ==
        if Blank(request[n].1) then out else Put(out, fc.0, fc.1, request[n].1);
      hide GroupFieldNames, Put, Classify, FiledAll;
      FiledAllStep(prefix, request[n], out, GroupFieldNames(request).value);
    }
  }

  /** Filing one more entry keeps the earlier entries filed. */
  lemma FiledAllStep(prefix: seq<(string, Value)>, x: (string, Value), out: Groups, r: Groups)
    requires FiledAll(prefix, out)
    requires Blank(x.1) ==> r == out
    requires !Blank(x.1) ==> Classify(x.0).Ok? && r == Put(out, Classify(x.0).value.0, Classify(x.0).value.1, x.1)
    ensures FiledAll(prefix + [x], r)
  {
    var request := prefix + [x];
    var n := |prefix|;
    if !Blank(x.1) {
      PutSpec(out, Classify(x.0).value.0, Classify(x.0).value.1, x.1);
    }
    hide Put, Classify;
    forall i | 0 <= i < |request| && !Blank(request[i].1)
      ensures Classify(request[i].0).Ok? && Classify(request[i].0).value.0 in r
              && Classify(request[i].0).value.1 in r[Classify(request[i].0).value.0]
    {
      if i < n {
        assert prefix[i] == request[i];
      } else {
        assert request[i] == x;
      }
    }
  }

  /** Filing one more value keeps every earlier one except at its own slot. */
  lemma PutSpec(out: Groups, f: string, c: string, v: Value)
    ensures f in Put(out, f, c, v) && c in Put(out, f, c, v)[f] && Put(out, f, c, v)[f][c] == v
    ensures forall g, d :: g in out && d in out[g] && (g, d) != (f, c) ==>
              g in Put(out, f, c, v) && d in Put(out, f, c, v)[g] && Put(out, f, c, v)[g][d] == out[g][d]
    ensures forall g, d :: g in Put(out, f, c, v) && d in Put(out, f, c, v)[g] && (g, d) != (f, c) ==>
              g in out && d in out[g]
    ensures forall g :: g in Put(out, f, c, v) && g != f ==> g in out && Put(out, f, c, v)[g] == out[g]
  {
  }

  /** The grouped values of a request. */
  ghost predicate FromRequest(request: seq<(string, Value)>, out: Groups) {
    forall f, c :: f in out && c in out[f] ==>
      exists i :: 0 <= i < |request| && !Blank(request[i].1)
                  && Classify(request[i].0) == Ok((f, c)) && out[f][c] == request[i].1
  }

  lemma FromRequestExtend(request: seq<(string, Value)>, out: Groups, x: (string, Value))
    requires FromRequest(request, out)
    ensures FromRequest(request + [x], out)
  {
    forall f, c | f in out && c in out[f]
      ensures exists i :: 0 <= i < |request + [x]| && !Blank((request + [x])[i].1)
                          && Classify((request + [x])[i].0) == Ok((f, c)) && out[f][c] == (request + [x])[i].1
    {
      var i :| 0 <= i < |request| && !Blank(request[i].1)
               && Classify(request[i].0) == Ok((f, c)) && out[f][c] == request[i].1;
      assert (request + [x])[i] == request[i];
    }
  }

  /** Every grouped value comes from a non-blank entry with that field and
      classifier, and no field is grouped without a value. */
  lemma {:induction false} GroupFieldNamesOnlyValues(request: seq<(string, Value)>)
    requires GroupFieldNames(request).Ok?
    ensures FromRequest(request, GroupFieldNames(request).value)
    ensures forall f :: f in GroupFieldNames(request).value ==> |GroupFieldNames(request).value[f]| > 0
  {
    if request != [] {
      var n := |request| - 1;
      var prefix := request[..n];
      assert request == prefix + [request[n]];
      GroupFieldNamesOnlyValues(prefix);
      var out := GroupFieldNames(prefix).value;
      assert Classify(request[n].0).Ok?;
      var fc := Classify(request[n].0).value;
      assert GroupFieldNames(request).value ==
        if Blank(request[n].1) then out else Put(out, fc.0, fc.1, request[n].1);
      hide GroupFieldNames, Put, Classify, FromRequest;
      FromRequestStep(prefix, request[n], out, GroupFieldNames(request).value);
    }
  }

  /** Filing one more entry keeps every grouped value traceable to an entry
      and every field non-empty. */
  lemma FromRequestStep(prefix: seq<(string, Value)>, x: (string, Value), out: Groups, r: Groups)
    requires FromRequest(prefix, out)
    requires forall f :: f in out ==> |out[f]| > 0
    requires Blank(x.1) ==> r == out
    requires !Blank(x.1) ==> Classify(x.0).Ok? && r == Put(out, Classify(x.0).value.0, Classify(x.0).value.1, x.1)
    ensures FromRequest(prefix + [x], r)
    ensures forall f :: f in r ==> |r[f]| > 0
  {
    var request := prefix + [x];
    var n := |prefix|;
    FromRequestExtend(prefix, out, x);
    if !Blank(x.1) {
      var fc := Classify(x.0).value;
      PutSpec(out, fc.0, fc.1, x.1);
      hide Put;
      assert request[n] == x;
      forall f, c | f in r && c in r[f]
        ensures exists i :: 0 <= i < |request| && !Blank(request[i].1)
                            && Classify(request[i].0) == Ok((f, c)) && r[f][c] == request[i].1
      {
        if (f, c) == fc {
          assert r[f][c] == request[n].1;
        } else {
          assert r[f][c] == out[f][c];
        }
      }
    }
  }

  /** Grouping one more entry files it (or skips a blank one) on top of the
      grouping of the entries before it. */
  lemma GroupFieldNamesSnoc(request: seq<(string, Value)>, name: string, v: Value)
    requires GroupFieldNames(request).Ok? && Classify(name).Ok?
    ensures GroupFieldNames(request + [(name, v)]) ==
              if Blank(v) then GroupFieldNames(request)
              else Ok(Put(GroupFieldNames(request).value, Classify(name).value.0, Classify(name).value.1, v))
  {
    assert (request + [(name, v)])[..|request|] == request;
  }

  // ---------------------------------------------------------------------
  // _parse_url_query_args and query_to_search

  /** The kind of a product's search field, which selects the value parser. */
  datatype FieldKind = RangeDocField | PgDocField | OtherField

  /** The value parser `_parse_url_query_args` picks: the field's own
      parser (`field.lower.parse_value` for a range field, `field.parse_value`
      for a document field), which may reject the text, and the identity for
      any other field. */
  function ParserFor(kind: FieldKind, parse: (FieldKind, Value) -> Result<Value>, v: Value): (r: Result<Value>)
    ensures kind.OtherField? ==> r == Ok(v)
    ensures !kind.OtherField? ==> r == parse(kind, v)
  {
    if kind.OtherField? then Ok(v) else parse(kind, v)
  }

  /** One side of a range: parsed when truthy, `None` otherwise. */
  function RangeSide(kind: FieldKind, parse: (FieldKind, Value) -> Result<Value>, vals: map<string, Value>, side: string): (r: Result<Value>)
    ensures (side !in vals || !Truthy(vals[side])) ==> r == Ok(Null)
    ensures side in vals && Truthy(vals[side]) ==> r == ParserFor(kind, parse, vals[side])
  {
    if side in vals && Truthy(vals[side]) then ParserFor(kind, parse, vals[side]) else Ok(Null)
  }

  /** The search term of one field from its classifiers: `val` alone, else a
      range from `begin`/`end` (the begin parsed first), else a `ValueError`
      for the unknown classifier. */
  function TermOf(kind: FieldKind, parse: (FieldKind, Value) -> Result<Value>, vals: map<string, Value>): (r: Result<QueryValue>)
    ensures "val" in vals ==>
              && (r.Ok? <==> ParserFor(kind, parse, vals["val"]).Ok?)
              && (r.Ok? ==> r.value == Val(ParserFor(kind, parse, vals["val"]).value))
    ensures "val" !in vals && ("begin" in vals || "end" in vals) ==>
              && (r.Ok? <==> RangeSide(kind, parse, vals, "begin").Ok? && RangeSide(kind, parse, vals, "end").Ok?)
              && (r.Ok? ==> r.value == Range(RangeSide(kind, parse, vals, "begin").value,
                                             RangeSide(kind, parse, vals, "end").value))
              && (RangeSide(kind, parse, vals, "begin").Err? ==> r == Err(RangeSide(kind, parse, vals, "begin").error))
    ensures "val" !in vals && "begin" !in vals && "end" !in vals ==> r == Err(ValueError("Unknown field classifier"))
  {
    if "val" in vals then
      var v :- ParserFor(kind, parse, vals["val"]);
      Ok(Val(v))
    else if "begin" in vals || "end" in vals then
      var begin :- RangeSide(kind, parse, vals, "begin");
      var end :- RangeSide(kind, parse, vals, "end");
      Ok(Range(begin, end))
    else Err(ValueError("Unknown field classifier"))
  }

  /** `_parse_url_query_args`: every grouped field must be a field of the
      product, carry `val` or `begin`/`end`, and hold text its parser
      accepts; anything else is a `ValueError`. A missing or falsy end of a
      range is `None`. */
  function ParseUrlQueryArgs(request: seq<(string, Value)>, fields: map<string, FieldKind>,
                             parse: (FieldKind, Value) -> Result<Value>): (r: Result<map<string, QueryValue>>)
    ensures GroupFieldNames(request).Err? ==> r == Err(GroupFieldNames(request).error)
    ensures GroupFieldNames(request).Ok? ==>
              var groups := GroupFieldNames(request).value;
              (r.Err? <==> exists f :: f in groups && (f !in fields || TermOf(fields[f], parse, groups[f]).Err?))
    ensures GroupFieldNames(request).Ok? && r.Err? ==> r.error.ValueError?
    ensures r.Ok? ==> GroupFieldNames(request).Ok?
    ensures r.Ok? ==> r.value.Keys == GroupFieldNames(request).value.Keys
    ensures r.Ok? ==> forall f :: f in r.value ==>
              (f in fields && TermOf(fields[f], parse, GroupFieldNames(request).value[f]) == Ok(r.value[f]))
  {
    var groups :- GroupFieldNames(request);
    if exists f :: f in groups && f !in fields then Err(ValueError("No field for product"))
    else if exists f :: f in groups && TermOf(fields[f], parse, groups[f]).Err? then
      Err(ValueError("Invalid field value"))
    else
      Ok(map f | f in groups :: TermOf(fields[f], parse, groups[f]).value)
  }

  /** Python's `a < b` on two search values: numbers, strings and date-times
      compare among themselves; any other pairing raises `TypeError`. */
  function ValueLess(a: Value, b: Value): (r: Result<bool>)
    ensures r.Ok? <==> (a.Number? && b.Number?) || (a.Text? && b.Text?) || (a.Time? && b.Time?)
  {
    match (a, b)
    case (Number(x), Number(y)) => Ok(x < y)
    case (Text(x), Text(y)) => Ok(Strings.Less(x, y))
    case (Time(x), Time(y)) => Ok(Calendar.Less(x, y))
    case _ => Err(TypeError)
  }

  predicate Comparable(q: QueryValue) {
    q.Range? && q.begin != Null && q.end != Null ==> ValueLess(q.end, q.begin).Ok?
  }

  /** A range with both ends set and its end below its begin, reversed. */
  function Unreverse(q: QueryValue): QueryValue
    requires Comparable(q)
  {
    if q.Range? && q.begin != Null && q.end != Null && ValueLess(q.end, q.begin).value
    then Range(q.end, q.begin) else q
  }

  /** Both ends set and in order (end not below begin), or not a closed range. */
  predicate Ordered(q: QueryValue) {
    q.Range? && q.begin != Null && q.end != Null ==> ValueLess(q.end, q.begin) == Ok(false)
  }

  lemma ValueLessAsymmetric(a: Value, b: Value)
    requires ValueLess(a, b) == Ok(true)
    ensures ValueLess(b, a) == Ok(false)
  {
    match (a, b)
    case (Number(x), Number(y)) =>
    case (Text(x), Text(y)) => Strings.LessAsymmetric(x, y);
    case (Time(x), Time(y)) => Calendar.LessIsStrictTotalOrder(x, y, x);
  }

  /** The swap loop of `query_to_search`. */
  function SwapBackwardRanges(args: map<string, QueryValue>): (r: Result<map<string, QueryValue>>)
    ensures r.Err? <==> exists k :: k in args && !Comparable(args[k])
    ensures r.Ok? ==> r.value.Keys == args.Keys
    ensures r.Ok? ==> forall k :: k in args ==> r.value[k] == Unreverse(args[k])
  {
    if exists k :: k in args && !Comparable(args[k]) then Err(TypeError)
    else Ok(map k | k in args :: Unreverse(args[k]))
  }

  /** `query_to_search`. */
  function QueryToSearch(request: seq<(string, Value)>, fields: map<string, FieldKind>,
                         parse: (FieldKind, Value) -> Result<Value>): Result<map<string, QueryValue>>
  {
    var args :- ParseUrlQueryArgs(request, fields, parse);
    SwapBackwardRanges(args)
  }

  /** After the swap every closed range is in order; ranges already in order
      and all other terms are untouched, and a swapped range holds the same
      two ends. */
  lemma SwapOrdersRanges(args: map<string, QueryValue>)
    requires SwapBackwardRanges(args).Ok?
    ensures forall k :: k in args ==> Ordered(SwapBackwardRanges(args).value[k])
    ensures forall k :: k in args && Ordered(args[k]) ==> SwapBackwardRanges(args).value[k] == args[k]
    ensures forall k :: k in args && !Ordered(args[k]) ==>
              SwapBackwardRanges(args).value[k] == Range(args[k].end, args[k].begin)
  {
    forall k | k in args
      ensures Ordered(SwapBackwardRanges(args).value[k])
    {
      var q := args[k];
      if q.Range? && q.begin != Null && q.end != Null && ValueLess(q.end, q.begin).value {
        ValueLessAsymmetric(q.end, q.begin);
      }
    }
  }

  /** Swapping twice is swapping once. */
  lemma SwapIdempotent(args: map<string, QueryValue>)
    requires SwapBackwardRanges(args).Ok?
    ensures SwapBackwardRanges(SwapBackwardRanges(args).value) == SwapBackwardRanges(args)
  {
    SwapOrdersRanges(args);
    var once := SwapBackwardRanges(args).value;
    assert forall k :: k in once ==> Comparable(once[k]) && Unreverse(once[k]) == once[k];
    assert SwapBackwardRanges(once).value == once;
  }

  // ---------------------------------------------------------------------
  // dataset_label

  /** The components of a POSIX path as `pathlib` sees them: empty and `.`
      components vanish. */
  function PathParts(path: string): (parts: seq<string>)
    ensures forall i :: 0 <= i < |parts| ==> parts[i] != "" && parts[i] != "." && '/' !in parts[i]
  {
    Keep(Strings.Split(path, '/'))
  }

  function Keep(comps: seq<string>): (r: seq<string>)
    requires forall i :: 0 <= i < |comps| ==> '/' !in comps[i]
    ensures forall i :: 0 <= i < |r| ==> r[i] != "" && r[i] != "." && '/' !in r[i]
  {
    if comps == [] then []
    else if comps[0] == "" || comps[0] == "." then Keep(comps[1..])
    else [comps[0]] + Keep(comps[1..])
  }

  /** `Path(p).name`: the last component, or `""`. */
  function PathName(path: string): string {
    var parts := PathParts(path);
    if parts == [] then "" else parts[|parts| - 1]
  }

  /** `Path(p).parent.name`. */
  function ParentName(path: string): string {
    var parts := PathParts(path);
    if |parts| < 2 then "" else parts[|parts| - 2]
  }

  predicate IsMetadataFileName(name: string) {
    name == "ga-metadata.yaml" || name == "agdc-metadata.yaml"
  }

  /** `dataset_label`: the `label` field (even an empty one), else the file or
      folder name of a non-empty `local_uri`, else the id as text. */
  function DatasetLabel(labelField: Option<string>, localUri: Option<string>, id: string): (r: string)
    ensures labelField.Some? ==> r == labelField.value
    ensures labelField.None? && (localUri.None? || localUri.value == "") ==> r == id
    ensures labelField.None? && localUri.Some? && localUri.value != "" ==>
              && '/' !in r
              && (IsMetadataFileName(PathName(localUri.value)) ==> r == ParentName(localUri.value))
              && (!IsMetadataFileName(PathName(localUri.value)) ==> r == PathName(localUri.value))
  {
    match labelField
    case Some(l) => l
    case None =>
      match localUri
      case Some(uri) =>
        if uri == "" then id
        else
          var name := PathName(uri);
          if IsMetadataFileName(name) then ParentName(uri) else name
      case None => id
  }

  /** Components that are neither empty nor `.` are all kept. */
  lemma {:induction false} KeepPlain(comps: seq<string>)
    requires forall i :: 0 <= i < |comps| ==> comps[i] != "" && comps[i] != "." && '/' !in comps[i]
    ensures Keep(comps) == comps
  {
    if comps != [] {
      KeepPlain(comps[1..]);
      assert comps == [comps[0]] + comps[1..];
    }
  }

  lemma SplitPackagePath(folder: string, file: string)
    requires '/' !in folder && '/' !in file
    ensures Strings.Split("/data/" + folder + "/" + file, '/') == ["", "data", folder, file]
  {
    JoinPackagePath(folder, file);
    Strings.SplitJoin(["", "data", folder, file], '/');
  }

  /** The parts of `/data/<folder>/<file>`. */
  lemma PathPartsOfPackagePath(folder: string, file: string)
    requires folder != "" && folder != "." && '/' !in folder
    requires file != "" && file != "." && '/' !in file
    ensures PathParts("/data/" + folder + "/" + file) == ["data", folder, file]
  {
    var comps := ["", "data", folder, file];
    SplitPackagePath(folder, file);
    KeepPlain(comps[1..]);
  }

  lemma JoinPackagePath(folder: string, file: string)
    ensures Strings.Join(["", "data", folder, file], '/') == "/data/" + folder + "/" + file
  {
    var comps := ["", "data", folder, file];
    assert Strings.Join(comps[3..], '/') == file;
    assert Strings.Join(comps[2..], '/') == folder + "/" + file;
    assert Strings.Join(comps[1..], '/') == "data/" + folder + "/" + file;
  }

  /** A package's metadata file is labelled by its folder. */
  lemma LabelOfMetadataFile(folder: string, file: string, id: string)
    requires folder != "" && folder != "." && '/' !in folder
    requires IsMetadataFileName(file)
    ensures DatasetLabel(None, Some("/data/" + folder + "/" + file), id) == folder
  {
    PathPartsOfPackagePath(folder, file);
  }

  /** Any other file in a package is labelled by its own name. */
  lemma LabelOfPlainFile(folder: string, file: string, id: string)
    requires folder != "" && folder != "." && '/' !in folder
    requires file != "" && file != "." && '/' !in file && !IsMetadataFileName(file)
    ensures DatasetLabel(None, Some("/data/" + folder + "/" + file), id) == file
  {
    PathPartsOfPackagePath(folder, file);
  }

  // ---------------------------------------------------------------------
  // Time ranges

  /** `_utils._next_month`: midnight on the first of the following month. */
  function NextMonth(t: DateTime): (r: Result<DateTime>)
    requires ValidDateTime(t)
    ensures r.Err? <==> t.date.year == MaxYear && t.date.month == 12
    ensures r.Ok? ==> ValidDateTime(r.value) && IsMidnight(r.value) && r.value.date.day == 1 && Less(t, r.value)
    ensures r.Ok? ==> DayNumber(r.value.date) == DayNumber(t.date) - t.date.day + 1 + DaysInMonth(t.date.year, t.date.month)
  {
    var d :- NextMonthStart(t.date);
    MonthEndPrecedesNextMonth(t.date.year, t.date.month);
    Ok(Midnight(d))
  }

  /** `if x` on an optional integer. */
  predicate Given(x: Option<int>) {
    x.Some? && x.value != 0
  }

  /** `as_time_range`: the most specific period given, as a range with an
      exclusive end; `None` without a year; invalid components or a period
      ending past year 9999 raise. */
  function AsTimeRange(year: Option<int>, month: Option<int>, day: Option<int>): (r: Result<Option<(DateTime, DateTime)>>)
    ensures !Given(year) <==> r == Ok(None)
    ensures r.Ok? && r.value.Some? ==>
              var (b, e) := r.value.value;
              ValidDateTime(b) && ValidDateTime(e) && IsMidnight(b) && IsMidnight(e) && Less(b, e)
              && b.date.year == year.value
    ensures r.Ok? && r.value.Some? && Given(month) && Given(day) ==>
              var (b, e) := r.value.value;
              b.date == Date(year.value, month.value, day.value)
              && DayNumber(e.date) == DayNumber(b.date) + 1
    ensures r.Ok? && r.value.Some? && Given(month) && !Given(day) ==>
              var (b, e) := r.value.value;
              b.date == Date(year.value, month.value, 1)
              && DayNumber(e.date) == DayNumber(b.date) + DaysInMonth(year.value, month.value)
    ensures r.Ok? && r.value.Some? && !Given(month) ==>
              var (b, e) := r.value.value;
              b.date == Date(year.value, 1, 1) && e.date == Date(year.value + 1, 1, 1)
    ensures Given(year) && Given(month) && Given(day) ==>
              (r.Ok? <==> ValidDate(Date(year.value, month.value, day.value))
                          && Date(year.value, month.value, day.value) != Date(MaxYear, 12, 31))
    ensures Given(year) && Given(month) && !Given(day) ==>
              (r.Ok? <==> MinYear <= year.value <= MaxYear && 1 <= month.value <= 12
                          && !(year.value == MaxYear && month.value == 12))
    ensures Given(year) && !Given(month) ==> (r.Ok? <==> MinYear <= year.value < MaxYear)
  {
    if Given(year) && Given(month) && Given(day) then
      var start :- MakeDate(year.value, month.value, day.value);
      var end :- AddOneDay(start);
      Ok(Some((Midnight(start), Midnight(end))))
    else if Given(year) && Given(month) then
      var start :- MakeDate(year.value, month.value, 1);
      var end :- NextMonth(Midnight(start));
      Ok(Some((Midnight(start), end)))
    else if Given(year) then
      var start :- MakeDate(year.value, 1, 1);
      var end :- MakeDate(year.value + 1, 1, 1);
      Ok(Some((Midnight(start), Midnight(end))))
    else
      Ok(None)
  }

  /** A year's range holds exactly its days. */
  lemma YearRangeLength(y: int)
    requires MinYear <= y < MaxYear
    ensures AsTimeRange(Some(y), None, None).Ok?
    ensures var (b, e) := AsTimeRange(Some(y), None, None).value.value;
            DayNumber(e.date) - DayNumber(b.date) == DaysInYear(y)
  {
    YearRangeDates(y);
    hide AsTimeRange, DayNumber;
    NewYearDayNumber(y);
  }

  /** A year's range runs from its January 1st to the next one. */
  lemma YearRangeDates(y: int)
    requires MinYear <= y < MaxYear
    ensures AsTimeRange(Some(y), None, None) == Ok(Some((Midnight(Date(y, 1, 1)), Midnight(Date(y + 1, 1, 1)))))
  {
  }
}
