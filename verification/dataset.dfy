/** The dataset page of `cubedash/_dataset.py`: a dataset's ordered
    metadata next to its source and derived datasets, each list cut at the
    provenance display limit together with the number of entries cut. */
module DatasetView {
  import opened Wrappers
  import Strings
  import Sorting
  import Utils
  import Metadata

  /** The configuration key of the display limit, and its default. */
  const LimitKey: string := "CUBEDASH_PROVENANCE_DISPLAY_LIMIT"
  const DefaultLimit: int := 25

  /** `app.config.get(LimitKey, 25)`. */
  function ProvenanceLimit(config: map<string, int>): (n: int)
    ensures LimitKey in config ==> n == config[LimitKey]
    ensures LimitKey !in config ==> n == DefaultLimit
  {
    if LimitKey in config then config[LimitKey] else DefaultLimit
  }

  // ---------------------------------------------------------------------
  // Cutting a list at the limit

  /** Python's `xs[:n]`: a negative `n` counts from the end. */
  function Prefix<T>(xs: seq<T>, n: int): (r: seq<T>)
    ensures r <= xs
    ensures 0 <= n ==> |r| == if n < |xs| then n else |xs|
    ensures n < 0 ==> |r| == if |xs| + n < 0 then 0 else |xs| + n
  {
    var end := if n < 0 then |xs| + n else n;
    if end <= 0 then [] else if end < |xs| then xs[..end] else xs
  }

  /** `if len(xs) > limit: overflow = len(xs) - limit; xs = xs[:limit]`:
      the entries shown and the number not shown. */
  function Truncate<T>(xs: seq<T>, limit: int): (r: (seq<T>, int))
    ensures |xs| <= limit ==> r == (xs, 0)
    ensures r.1 > 0 <==> |xs| > limit
    ensures r.0 <= xs
    ensures 0 <= limit ==> |r.0| + r.1 == |xs| && |r.0| <= limit
    ensures 0 <= limit && |xs| > limit ==> |r.0| == limit
  {
    if |xs| > limit then (Prefix(xs, limit), |xs| - limit) else (xs, 0)
  }

  /** What `Truncate` keeps and counts for a non-negative limit. */
  lemma TruncateLengths<T>(xs: seq<T>, limit: int)
    requires 0 <= limit
    ensures |Truncate(xs, limit).0| + Truncate(xs, limit).1 == |xs| && |Truncate(xs, limit).0| <= limit
  {
  }

  /** A cut list is not cut again. */
  lemma TruncateIdempotent<T>(xs: seq<T>, limit: int)
    requires 0 <= limit
    ensures var shown := Truncate(xs, limit).0;
            Truncate(shown, limit) == (shown, 0)
  {
  }

  /** A negative limit (a misconfiguration the code does not reject) cuts
      more entries from the end than it counts as not shown: the overflow
      exceeds the list's length. */
  lemma TruncateNegative<T>(xs: seq<T>, limit: int)
    requires limit < 0
    ensures Truncate(xs, limit).1 > |xs|
    ensures |Truncate(xs, limit).0| < |xs| || xs == []
  {
  }

  // ---------------------------------------------------------------------
  // Source datasets

  /** `dataset_d['id']`: a mapping without `id` raises `KeyError`, a value
      that is not a mapping cannot be indexed by a string. */
  function IdOf(d: Metadata.Doc): (r: Result<Metadata.Doc>)
    ensures r.Ok? ==> d.Dict? && ("id", r.value) in d.items
    ensures r.Err? ==> r.error == if d.Dict? then KeyError("id") else TypeError
  {
    match d
    case Scalar(_) => Err(TypeError)
    case Dict(items) =>
      match Metadata.Lookup(items, "id")
      case None => Err(KeyError("id"))
      case Some(id) => Ok(id)
  }

  /** An id is found exactly when the entry is a mapping with an `id` key. */
  lemma IdOfFound(d: Metadata.Doc)
    ensures IdOf(d).Ok? <==> d.Dict? && "id" in Metadata.Keys(d.items)
  {
  }

  /** The types of the first `n` entries. */
  function TypesOf<E>(entries: seq<(string, E)>, n: nat): set<string>
    requires n <= |entries|
  {
    if n == 0 then {} else TypesOf(entries, n - 1) + {entries[n - 1].0}
  }

  lemma {:induction false} TypesOfSpec<E>(entries: seq<(string, E)>, n: nat, t: string)
    requires n <= |entries|
    ensures t in TypesOf(entries, n) <==> exists i :: 0 <= i < n && entries[i].0 == t
  {
    if n > 0 {
      TypesOfSpec(entries, n - 1, t);
      if t in TypesOf(entries, n - 1) {
        var i :| 0 <= i < n - 1 && entries[i].0 == t;
        assert 0 <= i < n && entries[i].0 == t;
      }
    }
  }

  /** `{type_: get(dataset_d['id']) for type_, dataset_d in entries}`: built
      in list order, a later entry replacing an earlier one of the same
      type; the first entry without an id stops it. */
  function SourceDatasets<D>(entries: Metadata.Items, get: Metadata.Doc -> D): (r: Result<map<string, D>>)
    ensures r.Ok? <==> forall i :: 0 <= i < |entries| ==> IdOf(entries[i].1).Ok?
    ensures r.Ok? ==> r.value.Keys == TypesOf(entries, |entries|)
  {
    FirstEntries(entries, |entries|, IdOf, get)
  }

  /** The comprehension after its first `n` entries, for any way `idOf` of
      reading an entry's id. */
  function FirstEntries<E, I, D>(entries: seq<(string, E)>, n: nat, idOf: E -> Result<I>, get: I -> D)
    : (r: Result<map<string, D>>)
    requires n <= |entries|
    ensures r.Ok? <==> forall i :: 0 <= i < n ==> idOf(entries[i].1).Ok?
    ensures r.Ok? ==> r.value.Keys == TypesOf(entries, n)
  {
    if n == 0 then Ok(map[])
    else
      var m :- FirstEntries(entries, n - 1, idOf, get);
      var id :- idOf(entries[n - 1].1);
      Ok(m[entries[n - 1].0 := get(id)])
  }

  /** The first failing entry decides the error. */
  lemma {:induction false} FirstEntriesError<E, I, D>(entries: seq<(string, E)>, n: nat, idOf: E -> Result<I>,
                                                      get: I -> D, i: nat)
    requires i < n <= |entries| && idOf(entries[i].1).Err?
    requires forall j :: 0 <= j < i ==> idOf(entries[j].1).Ok?
    ensures FirstEntries(entries, n, idOf, get) == Err(idOf(entries[i].1).error)
  {
    if i < n - 1 {
      FirstEntriesError(entries, n - 1, idOf, get, i);
    }
  }

  /** One more entry sets its type's dataset. */
  lemma FirstEntriesStep<E, I, D>(entries: seq<(string, E)>, n: nat, idOf: E -> Result<I>, get: I -> D)
    requires 0 < n <= |entries|
    requires FirstEntries(entries, n, idOf, get).Ok?
    ensures FirstEntries(entries, n - 1, idOf, get).Ok? && idOf(entries[n - 1].1).Ok?
    ensures FirstEntries(entries, n, idOf, get).value
            == FirstEntries(entries, n - 1, idOf, get).value[entries[n - 1].0 := get(idOf(entries[n - 1].1).value)]
  {
  }

  /** Each type is mapped to the dataset of its last entry. */
  lemma {:induction false} FirstEntriesLast<E, I, D>(entries: seq<(string, E)>, n: nat, idOf: E -> Result<I>,
                                                     get: I -> D, i: nat)
    requires i < n <= |entries|
    requires FirstEntries(entries, n, idOf, get).Ok?
    requires forall j :: i < j < n ==> entries[j].0 != entries[i].0
    ensures idOf(entries[i].1).Ok?
    ensures entries[i].0 in FirstEntries(entries, n, idOf, get).value
    ensures FirstEntries(entries, n, idOf, get).value[entries[i].0] == get(idOf(entries[i].1).value)
  {
    FirstEntriesStep(entries, n, idOf, get);
    hide FirstEntries;
    if i < n - 1 {
      FirstEntriesLast(entries, n - 1, idOf, get, i);
    }
  }

  /** Every type of an entry is a key: the keys are exactly the types. */
  lemma SourceDatasetsKeys<D>(entries: Metadata.Items, get: Metadata.Doc -> D, t: string)
    requires SourceDatasets(entries, get).Ok?
    ensures t in SourceDatasets(entries, get).value <==> t in Metadata.Keys(entries)
  {
    TypesOfSpec(entries, |entries|, t);
    if t in Metadata.Keys(entries) {
      var i :| 0 <= i < |entries| && Metadata.Keys(entries)[i] == t;
      assert entries[i].0 == t;
    }
  }

  /** There are no more keys than entries. */
  lemma {:induction false} TypesOfSize(entries: Metadata.Items, n: nat)
    requires n <= |entries|
    ensures |TypesOf(entries, n)| <= n
  {
    if n > 0 {
      TypesOfSize(entries, n - 1);
    }
  }

  /** `SourceDatasets` fails with the first failing entry's error, and maps
      each type to the dataset of its last entry. */
  lemma SourceDatasetsSpec<D>(entries: Metadata.Items, get: Metadata.Doc -> D, i: nat)
    requires i < |entries|
    ensures IdOf(entries[i].1).Err? && (forall j :: 0 <= j < i ==> IdOf(entries[j].1).Ok?) ==>
              SourceDatasets(entries, get) == Err(IdOf(entries[i].1).error)
    ensures SourceDatasets(entries, get).Ok? && (forall j :: i < j < |entries| ==> entries[j].0 != entries[i].0) ==>
              && IdOf(entries[i].1).Ok? && entries[i].0 in SourceDatasets(entries, get).value
              && SourceDatasets(entries, get).value[entries[i].0] == get(IdOf(entries[i].1).value)
  {
    if IdOf(entries[i].1).Err? && (forall j :: 0 <= j < i ==> IdOf(entries[j].1).Ok?) {
      FirstEntriesError(entries, |entries|, IdOf, get, i);
    }
    if SourceDatasets(entries, get).Ok? && (forall j :: i < j < |entries| ==> entries[j].0 != entries[i].0) {
      FirstEntriesLast(entries, |entries|, IdOf, get, i);
    }
  }

  // ---------------------------------------------------------------------
  // Derived datasets

  /** What `dataset_label` reads of a derived dataset. */
  datatype Derived = Derived(labelField: Option<string>, localUri: Option<string>, id: string)

  function Label(d: Derived): string {
    Utils.DatasetLabel(d.labelField, d.localUri, d.id)
  }

  /** `sorted(derived, key=dataset_label)`. */
  function SortedDerived(derived: seq<Derived>): (r: seq<Derived>)
    ensures multiset(r) == multiset(derived)
  {
    Sorting.SortBy(derived, Label, Strings.Less)
  }

  /** `sorted(derived, key=dataset_label)`, then cut at the limit. */
  function DerivedShown(derived: seq<Derived>, limit: int): (r: (seq<Derived>, int))
    ensures r.0 <= SortedDerived(derived)
  {
    Truncate(SortedDerived(derived), limit)
  }

  /** The shown derived datasets are in label order, equal labels in the
      order the index returned them. */
  lemma DerivedShownOrdered(derived: seq<Derived>, limit: int)
    ensures var shown := DerivedShown(derived, limit).0;
            && Sorting.SortedBy(shown, Label, Strings.Less)
            && forall k :: Sorting.WithKey(shown, Label, k) <= Sorting.WithKey(derived, Label, k)
  {
    var sorted := SortedDerived(derived);
    var shown := DerivedShown(derived, limit).0;
    var rest := sorted[|shown|..];
    assert sorted == shown + rest;
    Sorting.StringLessIsStrictTotal();
    Sorting.SortBySorted(derived, Label, Strings.Less);
    hide SortedDerived, DerivedShown, Label, Sorting.SortBy;
    forall k
      ensures Sorting.WithKey(shown, Label, k) <= Sorting.WithKey(derived, Label, k)
    {
      Sorting.SortByStable(derived, Label, Strings.Less, k);
      Sorting.WithKeyAppend(shown, rest, Label, k);
    }
  }

  /** In a sorted list, everything after the first `n` is no smaller than
      anything among them. */
  lemma SortedPrefixFirst<T, K>(sorted: seq<T>, n: nat, key: T -> K, less: (K, K) -> bool)
    requires Sorting.SortedBy(sorted, key, less)
    requires n <= |sorted|
    ensures forall d, e :: d in multiset(sorted) - multiset(sorted[..n]) && e in sorted[..n] ==>
              !less(key(d), key(e))
  {
    var shown, rest := sorted[..n], sorted[n..];
    assert sorted == shown + rest;
    assert multiset(sorted) == multiset(shown) + multiset(rest);
    forall d, e | d in multiset(sorted) - multiset(shown) && e in shown
      ensures !less(key(d), key(e))
    {
      assert d in rest;
      var j :| 0 <= j < |rest| && rest[j] == d;
      var i :| 0 <= i < n && shown[i] == e;
      assert sorted[n + j] == d && sorted[i] == e;
    }
  }

  /** Every derived dataset not shown has a label no smaller than every
      shown one: the page shows the first ones by label. */
  lemma DerivedShownFirst(derived: seq<Derived>, limit: int)
    ensures var shown := DerivedShown(derived, limit).0;
            && multiset(shown) <= multiset(derived)
            && forall d, e :: d in multiset(derived) - multiset(shown) && e in shown ==>
                 !Strings.Less(Label(d), Label(e))
  {
    var sorted := SortedDerived(derived);
    var shown := DerivedShown(derived, limit).0;
    assert shown == sorted[..|shown|];
    Sorting.StringLessIsStrictTotal();
    Sorting.SortBySorted(derived, Label, Strings.Less);
    assert sorted == shown + sorted[|shown|..];
    SortedPrefixFirst(sorted, |shown|, Label, Strings.Less);
  }

  // ---------------------------------------------------------------------
  // The page

  /** What the template is given; the archived location times come from the
      index and are not part of this model. */
  datatype Page<D> = Page(
    metadata: Metadata.Items,
    sources: map<string, D>,
    sourceOverflow: int,
    derived: seq<Derived>,
    derivedOverflow: int)

  /** The source entries shown, looked up by id, and how many were cut. */
  function ShownSources<D>(limit: int, sources: Metadata.Items, get: Metadata.Doc -> D)
    : (r: Result<(map<string, D>, int)>)
  {
    var (sourceList, overflow) := Truncate(sources, limit);
    var m :- SourceDatasets(sourceList, get);
    Ok((m, overflow))
  }

  /** A shown type is the type of one of the entries. */
  lemma ShownSourceListed<D>(limit: int, sources: Metadata.Items, get: Metadata.Doc -> D, t: string)
    requires ShownSources(limit, sources, get).Ok? && t in ShownSources(limit, sources, get).value.0
    ensures t in Metadata.Keys(sources)
  {
    var sourceList := Truncate(sources, limit).0;
    TypesOfSpec(sourceList, |sourceList|, t);
    hide ShownSources, SourceDatasets, Truncate;
    var i :| 0 <= i < |sourceList| && sourceList[i].0 == t;
    assert sources[i] == sourceList[i];
  }

  /** The sources fail exactly when a shown entry has no id. */
  lemma ShownSourcesOk<D>(limit: int, sources: Metadata.Items, get: Metadata.Doc -> D)
    requires 0 <= limit
    ensures ShownSources(limit, sources, get).Ok?
            <==> forall i :: 0 <= i < |sources| && i < limit ==> IdOf(sources[i].1).Ok?
  {
    var sourceList := Truncate(sources, limit).0;
    assert ShownSources(limit, sources, get).Ok? <==> SourceDatasets(sourceList, get).Ok?;
    hide ShownSources, SourceDatasets, IdOf, Truncate;
    assert forall i :: 0 <= i < |sourceList| ==> sourceList[i] == sources[i];
  }

  /** At most `limit` types are shown, and the overflow counts the entries
      cut. */
  lemma ShownSourcesCounts<D>(limit: int, sources: Metadata.Items, get: Metadata.Doc -> D)
    requires 0 <= limit
    requires ShownSources(limit, sources, get).Ok?
    ensures |ShownSources(limit, sources, get).value.0| <= limit
    ensures ShownSources(limit, sources, get).value.1 == if |sources| > limit then |sources| - limit else 0
  {
    var sourceList := Truncate(sources, limit).0;
    TypesOfSize(sourceList, |sourceList|);
  }

  /** `dataset_page`: `sources` are the dataset's source entries in document
      order, `doc` its metadata document with the sources already emptied,
      `derived` what the index returns as derived, and `get` the index's
      lookup by id. */
  function DatasetPage<D>(config: map<string, int>, sources: Metadata.Items, doc: Metadata.Doc,
                          derived: seq<Derived>, get: Metadata.Doc -> D): (r: Result<Page<D>>)
  {
    var limit := ProvenanceLimit(config);
    var (sourceDatasets, sourceOverflow) :- ShownSources(limit, sources, get);
    var ordered :- Metadata.OrderedMetadata(Metadata.UtilsVersion, doc);
    var (shown, derivedOverflow) := DerivedShown(derived, limit);
    Ok(Page(ordered, sourceDatasets, sourceOverflow, shown, derivedOverflow))
  }

  /** The page fails exactly when a shown source entry has no id or the
      metadata document cannot be ordered. It then shows at most `limit`
      sources and `limit` derived datasets, the derived ones in label
      order, and the overflow counts make up the rest; the sources are
      keyed by their types. */
  lemma DatasetPageSpec<D>(config: map<string, int>, sources: Metadata.Items, doc: Metadata.Doc,
                           derived: seq<Derived>, get: Metadata.Doc -> D)
    requires 0 <= ProvenanceLimit(config)
    ensures var r, limit := DatasetPage(config, sources, doc, derived, get), ProvenanceLimit(config);
            && (r.Ok? <==> (forall i :: 0 <= i < |sources| && i < limit ==> IdOf(sources[i].1).Ok?)
                           && Metadata.OrderedMetadata(Metadata.UtilsVersion, doc).Ok?)
            && (r.Ok? ==> && |r.value.sources| <= limit
                          && (forall t :: t in r.value.sources ==> t in Metadata.Keys(sources))
                          && r.value.sourceOverflow == (if |sources| > limit then |sources| - limit else 0)
                          && |r.value.derived| + r.value.derivedOverflow == |derived|
                          && |r.value.derived| <= limit
                          && Sorting.SortedBy(r.value.derived, Label, Strings.Less))
  {
    var limit := ProvenanceLimit(config);
    ShownSourcesOk(limit, sources, get);
    var shown := ShownSources(limit, sources, get);
    if shown.Ok? {
      ShownSourcesCounts(limit, sources, get);
      forall t | t in shown.value.0
        ensures t in Metadata.Keys(sources)
      {
        ShownSourceListed(limit, sources, get, t);
      }
    }
    DerivedShownOrdered(derived, limit);
    hide Metadata.OrderedMetadata, ShownSources, DerivedShown, IdOf, Truncate;
    TruncateLengths(SortedDerived(derived), limit);
  }
}
