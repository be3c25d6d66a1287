/** What the summary code needs from shapely. Geometries are opaque; the
    library's validity and emptiness tests, its `unary_union` and its
    `buffer(0.001)` are parameters, since they are float-heavy foreign
    code. */
module Geometry {
  import opened Wrappers

  /** An opaque shapely geometry, known only by its text. */
  datatype Shape = Shape(wkt: string)

  /** A GeoJSON feature: a geometry and its string properties. */
  datatype Feature = Feature(geometry: Shape, properties: map<string, string>)

  /** The shapely operations the summaries call. `union` may raise (a
      non-noded intersection raises `ValueError`). */
  datatype Library = Library(
    isValid: Shape -> bool,
    isEmpty: Shape -> bool,
    union: seq<Shape> -> Result<Shape>,
    buffer: Shape -> Shape)

  /** Python truthiness of an optional geometry: present and not empty. */
  predicate Truthy(lib: Library, g: Option<Shape>) {
    g.Some? && !lib.isEmpty(g.value)
  }

  /** `g and g.is_valid and not g.is_empty`. */
  predicate Usable(lib: Library, g: Option<Shape>) {
    Truthy(lib, g) && lib.isValid(g.value)
  }

  /** `[g.buffer(0.001) for g in shapes]`. */
  function Buffered(lib: Library, shapes: seq<Shape>): (r: seq<Shape>)
    ensures |r| == |shapes| && forall i :: 0 <= i < |shapes| ==> r[i] == lib.buffer(shapes[i])
  {
    seq(|shapes|, i requires 0 <= i < |shapes| => lib.buffer(shapes[i]))
  }

  /** `unary_union(shapes) if shapes else None`, retried once on the
      `buffer(0.001)` of every shape when the first attempt raises
      `ValueError`; any other error, or a second failure, propagates. */
  function UnionWithRetry(lib: Library, shapes: seq<Shape>): (r: Result<Option<Shape>>)
    ensures r.Ok? && r.value.None? <==> |shapes| == 0
    ensures |shapes| > 0 && lib.union(shapes).Ok? ==> r == Ok(Some(lib.union(shapes).value))
    ensures |shapes| > 0 && lib.union(shapes).Err? && !lib.union(shapes).error.ValueError? ==>
              r == Err(lib.union(shapes).error)
    ensures |shapes| > 0 && lib.union(shapes).Err? && lib.union(shapes).error.ValueError? ==>
              var second := lib.union(Buffered(lib, shapes));
              r == (if second.Ok? then Ok(Some(second.value)) else Err(second.error))
    ensures r.Ok? <==> |shapes| == 0 || lib.union(shapes).Ok?
                       || (lib.union(shapes).error.ValueError? && lib.union(Buffered(lib, shapes)).Ok?)
  {
    if |shapes| == 0 then Ok(None)
    else
      var first := lib.union(shapes);
      if first.Ok? then Ok(Some(first.value))
      else if !first.error.ValueError? then Err(first.error)
      else
        var second := lib.union(Buffered(lib, shapes));
        if second.Ok? then Ok(Some(second.value)) else Err(second.error)
  }
}
