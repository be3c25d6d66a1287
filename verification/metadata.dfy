/** `get_ordered_metadata`, in its two versions: `cubedash/_utils.py` and
    `cubedash/__init__.py`. A metadata document's keys are put in the order
    eo-datasets writes them: keys named in a priority list come first, in
    list order, and every other key follows (priority 999) in its original
    relative order. Embedded lineage, source-dataset and product-metadata
    documents are ordered the same way. */
module Metadata {
  import opened Wrappers
  import Sorting

  /** A YAML/JSON document: a mapping (its items in document order) or any
      other value. */
  datatype Doc = Dict(items: seq<(string, Doc)>) | Scalar(text: string)

  type Items = seq<(string, Doc)>

  /** `EODATASETS_PROPERTY_ORDER` of `cubedash/_utils.py`. */
  const PropertyOrder: seq<string> :=
    ["id", "ga_label", "name", "description", "product_type", "metadata_type",
     "product_level", "product_doi",
     "creation_dt", "size_bytes", "checksum_path",
     "platform", "instrument", "format", "usgs",
     "rms_string", "acquisition", "extent", "grid_spatial", "gqa", "browse", "image", "lineage",
     "product_flags"]

  /** `EODATASETS_PROPERTY_ORDER` of `cubedash/__init__.py`. */
  const InitPropertyOrder: seq<string> :=
    ["id", "ga_label", "ga_level", "product_type", "product_level", "product_doi",
     "creation_dt", "size_bytes", "checksum_path", "platform", "instrument", "format",
     "usgs", "rms_string", "acquisition", "extent", "grid_spatial", "gqa", "browse",
     "image", "lineage", "product_flags"]

  /** `EODATASETS_LINEAGE_PROPERTY_ORDER` (the same list in both files). */
  const LineageOrder: seq<string> :=
    ["algorithm", "machine", "ancillary_quality", "ancillary", "source_datasets"]

  const Unlisted: nat := 999

  /** `get_property_priority`: the key's position in the list, else 999. */
  function Priority(order: seq<string>, key: string): (p: nat)
    ensures key in order ==> p < |order| && order[p] == key && key !in order[..p]
    ensures key !in order ==> p == Unlisted
  {
    if key !in order then Unlisted
    else if order[0] == key then 0
    else
      assert key in order[1..];
      var p := 1 + Priority(order[1..], key);
      assert order[..p] == [order[0]] + order[1..][..p - 1];
      p
  }

  function ByPriority(order: seq<string>): ((string, Doc)) -> int {
    (kv: (string, Doc)) => Priority(order, kv.0)
  }

  /** `sorted(items, key=partial(get_property_priority, order))`. */
  function OrderItems(items: Items, order: seq<string>): (r: Items)
    ensures multiset(r) == multiset(items)
  {
    Sorting.SortBy(items, ByPriority(order), Sorting.IntLess)
  }

  lemma FromOrderedItems(items: Items, order: seq<string>, kv: (string, Doc))
    requires kv in OrderItems(items, order)
    ensures kv in items
  {
    assert kv in multiset(OrderItems(items, order));
  }

  function Keys(items: Items): (ks: seq<string>)
    ensures |ks| == |items|
    ensures forall i :: 0 <= i < |items| ==> ks[i] == items[i].0
  {
    seq(|items|, i requires 0 <= i < |items| => items[i].0)
  }

  /** The first position of `k` in `ks`. */
  function KeyIndex(ks: seq<string>, k: string): (i: nat)
    requires k in ks
    ensures i < |ks| && ks[i] == k && k !in ks[..i]
  {
    if ks[0] == k then 0
    else
      assert k in ks[1..];
      var i := 1 + KeyIndex(ks[1..], k);
      assert ks[..i] == [ks[0]] + ks[1..][..i - 1];
      i
  }

  /** `d[k]` on an ordered dict: the value of the first entry under `k`. */
  function Lookup(items: Items, k: string): (r: Option<Doc>)
    ensures r.Some? ==> (k, r.value) in items
    ensures r.None? <==> k !in Keys(items)
  {
    if k in Keys(items) then Some(items[KeyIndex(Keys(items), k)].1) else None
  }

  /** `d[k]` looks at the first entry, then at the rest. */
  lemma LookupCons(items: Items, k: string)
    requires items != []
    ensures Lookup(items, k) == if items[0].0 == k then Some(items[0].1) else Lookup(items[1..], k)
  {
  }

  /** `d[k] = v` for a key already present: the value changes in place. */
  function Replace(items: Items, k: string, v: Doc): (r: Items)
    ensures |r| == |items|
    ensures Keys(r) == Keys(items)
    ensures forall i :: 0 <= i < |items| ==>
              r[i] == (if items[i].0 == k then (k, v) else items[i])
  {
    if items == [] then [] else [if items[0].0 == k then (k, v) else items[0]] + Replace(items[1..], k, v)
  }

  /** The priority order is a stable sort: a permutation, ordered by
      priority, and keeping the input order among keys of equal priority. */
  lemma OrderItemsSpec(items: Items, order: seq<string>)
    ensures multiset(OrderItems(items, order)) == multiset(items)
    ensures forall i, j :: 0 <= i < j < |items| ==>
              Priority(order, OrderItems(items, order)[i].0) <= Priority(order, OrderItems(items, order)[j].0)
    ensures forall p :: Sorting.WithKey(OrderItems(items, order), ByPriority(order), p)
                        == Sorting.WithKey(items, ByPriority(order), p)
  {
    Sorting.IntLessIsStrictTotal();
    Sorting.SortBySorted(items, ByPriority(order), Sorting.IntLess);
    var r := OrderItems(items, order);
    forall i, j | 0 <= i < j < |items|
      ensures Priority(order, r[i].0) <= Priority(order, r[j].0)
    {
      assert !Sorting.IntLess(ByPriority(order)(r[j]), ByPriority(order)(r[i]));
    }
    forall p
      ensures Sorting.WithKey(r, ByPriority(order), p) == Sorting.WithKey(items, ByPriority(order), p)
    {
      Sorting.SortByStable(items, ByPriority(order), Sorting.IntLess, p);
    }
  }

  /** The entries under one key all share a priority, so keeping only that
      priority's entries does not change what `d[k]` finds. */
  lemma {:induction false} LookupWithPriority(items: Items, order: seq<string>, k: string)
    ensures Lookup(Sorting.WithKey(items, ByPriority(order), Priority(order, k)), k) == Lookup(items, k)
  {
    if items != [] {
      var p := Priority(order, k);
      var rest := Sorting.WithKey(items[1..], ByPriority(order), p);
      var w := Sorting.WithKey(items, ByPriority(order), p);
      LookupWithPriority(items[1..], order, k);
      LookupCons(items, k);
      hide Keys, Lookup;
      if ByPriority(order)(items[0]) == p {
        assert w == [items[0]] + rest;
        assert w[0] == items[0] && w[1..] == rest;
        LookupCons(w, k);
      } else {
        assert items[0].0 != k;
        assert w == rest;
      }
    }
  }

  /** The stable sort keeps the first entry under every key first, so `d[k]`
      reads the same value before and after ordering. */
  lemma LookupOrdered(items: Items, order: seq<string>, k: string)
    ensures Lookup(OrderItems(items, order), k) == Lookup(items, k)
  {
    OrderItemsSpec(items, order);
    LookupWithPriority(items, order, k);
    LookupWithPriority(OrderItems(items, order), order, k);
  }

  /** Two listed keys come out in list order. */
  lemma ListedKeysInListOrder(items: Items, order: seq<string>, i: nat, j: nat)
    requires i < j < |items|
    requires OrderItems(items, order)[i].0 in order && OrderItems(items, order)[j].0 in order
    ensures Priority(order, OrderItems(items, order)[i].0) <= Priority(order, OrderItems(items, order)[j].0)
  {
    OrderItemsSpec(items, order);
  }

  /** The two copies of `get_ordered_metadata`: `cubedash/_utils.py`
      orders lineage only when present and also orders an embedded product
      `metadata` document; `cubedash/__init__.py` indexes `lineage`
      unconditionally. */
  datatype Copy = UtilsCopy | InitCopy

  /** A version of `get_ordered_metadata`: its copy and the two priority
      lists it sorts by. */
  datatype Version = Version(copy: Copy, properties: seq<string>, lineageOrder: seq<string>)

  /** `cubedash/_utils.py`'s version. */
  const UtilsVersion: Version := Version(UtilsCopy, PropertyOrder, LineageOrder)

  /** `cubedash/__init__.py`'s version, with its own property list. */
  const InitVersion: Version := Version(InitCopy, InitPropertyOrder, LineageOrder)

  lemma KeyInOrderedItems(items: Items, order: seq<string>, k: string)
    ensures k in Keys(OrderItems(items, order)) <==> k in Keys(items)
  {
    var ordered := OrderItems(items, order);
    if k in Keys(items) {
      var i :| 0 <= i < |items| && Keys(items)[i] == k;
      assert items[i] in multiset(ordered);
      var j :| 0 <= j < |ordered| && ordered[j] == items[i];
      assert Keys(ordered)[j] == k;
    }
    if k in Keys(ordered) {
      var j :| 0 <= j < |ordered| && Keys(ordered)[j] == k;
      FromOrderedItems(items, order, ordered[j]);
      var i :| 0 <= i < |items| && items[i] == ordered[j];
      assert Keys(items)[i] == k;
    }
  }

  /** Keys of an entry put in front of `rest`, against the keys of the
      input from position `i`. */
  lemma KeysStep(items: Items, i: nat, d: Doc, rest: Items)
    requires i < |items|
    ensures Keys([(items[i].0, d)] + rest) == [items[i].0] + Keys(rest)
    ensures Keys(items[i..]) == [items[i].0] + Keys(items[i + 1..])
  {
  }

  // ---------------------------------------------------------------------
  // When the ordering succeeds: Python raises only where a value that
  // should be a mapping is not one (`.items()` on it), and the `__init__`
  // version also where `lineage` is missing.

  /** `get_ordered_metadata(doc)` returns without raising. */
  predicate Orderable(v: Version, doc: Doc)
    decreases doc, 1
  {
    doc.Dict? && LineagePartOrderable(v, doc) && (v.copy.UtilsCopy? ==> MetadataPartOrderable(v, doc))
  }

  /** The document's `lineage` value orders: it is a mapping whose sources
      order, or it is absent and the version checks for it. */
  predicate LineagePartOrderable(v: Version, doc: Doc)
    requires doc.Dict?
    decreases doc, 0
  {
    match Lookup(doc.items, "lineage")
    case None => v.copy.UtilsCopy?
    case Some(l) => LineageOrderable(v, l)
  }

  /** The document's embedded product `metadata` value, if any, orders. */
  predicate MetadataPartOrderable(v: Version, doc: Doc)
    requires doc.Dict?
    decreases doc, 0
  {
    match Lookup(doc.items, "metadata")
    case None => true
    case Some(m) => Orderable(v, m)
  }

  /** A lineage document orders: it is a mapping, and its `source_datasets`
      value, if any, is a mapping whose every document orders. */
  predicate LineageOrderable(v: Version, l: Doc)
    decreases l, 0
  {
    && l.Dict?
    && match Lookup(l.items, "source_datasets")
       case None => true
       case Some(src) => src.Dict? && SourcesOrderable(v, src, 0)
  }

  /** Every source document from position `i` on orders. */
  predicate SourcesOrderable(v: Version, src: Doc, i: nat)
    requires src.Dict?
    decreases src, 0
  {
    forall j :: i <= j < |src.items| ==> Orderable(v, src.items[j].1)
  }

  /** Orders each source dataset (with the same version), keeping the
      source-type keys where they are. */
  function OrderSources(v: Version, src: Doc, i: nat): (r: Result<Items>)
    requires src.Dict? && i <= |src.items|
    ensures r.Ok? <==> SourcesOrderable(v, src, i)
    ensures r.Err? ==> r.error in {AttributeError, KeyError("lineage")}
    ensures r.Ok? ==> Keys(r.value) == Keys(src.items[i..])
    decreases src, |src.items| - i
  {
    if i == |src.items| then Ok([])
    else
      var kv := src.items[i];
      assert kv in src.items;
      var d :- OrderedMetadata(v, kv.1);
      var rest :- OrderSources(v, src, i + 1);
      KeysStep(src.items, i, Dict(d), rest);
      Ok([(kv.0, Dict(d))] + rest)
  }

  /** Two lists with the same keys that agree on every entry not under `k`
      give the same value under any other key `k'`. */
  lemma LookupOutsideReplaced(a: Items, b: Items, k: string, k': string)
    requires Keys(a) == Keys(b) && k != k'
    requires forall i :: 0 <= i < |b| && b[i].0 != k ==> b[i] == a[i]
    ensures Lookup(a, k') == Lookup(b, k')
  {
    if a != [] {
      assert Keys(a) == [a[0].0] + Keys(a[1..]);
      assert Keys(b) == [b[0].0] + Keys(b[1..]);
      LookupOutsideReplaced(a[1..], b[1..], k, k');
    }
  }

  /** The ordered lineage document: its own keys by the version's lineage list, and every
      source dataset ordered recursively; a lineage or source-dataset value
      that is not a mapping has no `.items()`. */
  function OrderLineage(v: Version, lineage: Doc): (r: Result<Items>)
    ensures lineage.Scalar? ==> r == Err(AttributeError)
    ensures r.Ok? <==> LineageOrderable(v, lineage)
    ensures r.Err? ==> r.error in {AttributeError, KeyError("lineage")}
    ensures r.Ok? ==> lineage.Dict? && Keys(r.value) == Keys(OrderItems(lineage.items, v.lineageOrder))
    ensures r.Ok? ==> forall i :: 0 <= i < |r.value| && r.value[i].0 != "source_datasets"
                        ==> r.value[i] == OrderItems(lineage.items, v.lineageOrder)[i]
    decreases lineage, 1
  {
    match lineage
    case Scalar(_) => Err(AttributeError)
    case Dict(items) =>
      var ordered := OrderItems(items, v.lineageOrder);
      LookupOrdered(items, v.lineageOrder, "source_datasets");
      match Lookup(ordered, "source_datasets")
      case None => Ok(ordered)
      case Some(src) =>
        FromOrderedItems(items, v.lineageOrder, ("source_datasets", src));
        if src.Scalar? then Err(AttributeError)
        else
          var src' :- OrderSources(v, src, 0);
          Ok(Replace(ordered, "source_datasets", Dict(src')))
  }

  /** The `_utils` version's last step: an embedded product `metadata`
      document is ordered in place, by the same version. */
  function OrderProductMetadata(v: Version, doc: Doc, withLineage: Items): (r: Result<Items>)
    requires doc.Dict?
    requires Keys(withLineage) == Keys(OrderItems(doc.items, v.properties))
    requires forall i :: 0 <= i < |withLineage| && withLineage[i].0 != "lineage"
               ==> withLineage[i] == OrderItems(doc.items, v.properties)[i]
    ensures r.Ok? <==> MetadataPartOrderable(v, doc)
    ensures r.Err? ==> r.error in {AttributeError, KeyError("lineage")}
    ensures r.Ok? ==> Keys(r.value) == Keys(withLineage)
    ensures r.Ok? ==> forall i :: 0 <= i < |r.value| && r.value[i].0 != "metadata" ==> r.value[i] == withLineage[i]
    decreases doc, 1
  {
    LookupOutsideReplaced(OrderItems(doc.items, v.properties), withLineage, "lineage", "metadata");
    LookupOrdered(doc.items, v.properties, "metadata");
    match Lookup(withLineage, "metadata")
    case None => Ok(withLineage)
    case Some(m) =>
      var m' :- OrderedMetadata(v, m);
      Ok(Replace(withLineage, "metadata", Dict(m')))
  }

  /** The document sorted by the version's property list with its `lineage`
      value ordered in turn. The `__init__` version indexes `lineage`
      without a check, so a document without one is a `KeyError` there. */
  function WithOrderedLineage(v: Version, doc: Doc): (r: Result<Items>)
    requires doc.Dict?
    ensures v.copy.InitCopy? && "lineage" !in Keys(doc.items) ==> r == Err(KeyError("lineage"))
    ensures r.Ok? <==> LineagePartOrderable(v, doc)
    ensures r.Err? ==> r.error in {AttributeError, KeyError("lineage")}
    ensures r.Ok? ==> Keys(r.value) == Keys(OrderItems(doc.items, v.properties))
    ensures r.Ok? ==> forall i :: 0 <= i < |r.value| && r.value[i].0 != "lineage"
                        ==> r.value[i] == OrderItems(doc.items, v.properties)[i]
    decreases doc, 2
  {
    var ordered := OrderItems(doc.items, v.properties);
    LookupOrdered(doc.items, v.properties, "lineage");
    KeyInOrderedItems(doc.items, v.properties, "lineage");
    match Lookup(ordered, "lineage")
    case None => if v.copy.InitCopy? then Err(KeyError("lineage")) else Ok(ordered)
    case Some(lineage) =>
      var lineage' :- OrderLineage(v, lineage);
      Ok(Replace(ordered, "lineage", Dict(lineage')))
  }

  /** `get_ordered_metadata`: the document's keys by the version's property
      list. The `lineage` value (and, in the `_utils` version, the
      `metadata` value) is the recursively ordered input value; every other
      entry is the sorted input entry. */
  function OrderedMetadata(v: Version, doc: Doc): (r: Result<Items>)
    ensures doc.Scalar? ==> r == Err(AttributeError)
    ensures r.Ok? <==> Orderable(v, doc)
    ensures r.Err? ==> r.error in {AttributeError, KeyError("lineage")}
    ensures v.copy.InitCopy? && doc.Dict? && "lineage" !in Keys(doc.items) ==> r == Err(KeyError("lineage"))
    ensures r.Ok? ==> doc.Dict? && Keys(r.value) == Keys(OrderItems(doc.items, v.properties))
    ensures r.Ok? ==> forall i :: 0 <= i < |r.value| && r.value[i].0 != "lineage"
                        && (v.copy.InitCopy? || r.value[i].0 != "metadata")
                        ==> r.value[i] == OrderItems(doc.items, v.properties)[i]
    decreases doc, 3
  {
    match doc
    case Scalar(_) => Err(AttributeError)
    case Dict(_) =>
      var withLineage :- WithOrderedLineage(v, doc);
      if v.copy.InitCopy? then Ok(withLineage)
      else OrderProductMetadata(v, doc, withLineage)
  }

  // ---------------------------------------------------------------------
  // The ordering recurses into every embedded document

  /** A source document ordered in turn, with no contract of its own, so
      that the induction below does not carry `OrderedMetadata`'s. */
  function OrderedSource(v: Version, d: Doc): Result<Items> {
    OrderedMetadata(v, d)
  }

  /** One step of `OrderSources`: the first remaining source ordered,
      followed by the rest. */
  lemma OrderSourcesStep(v: Version, src: Doc, i: nat)
    requires src.Dict? && i < |src.items|
    requires OrderSources(v, src, i).Ok?
    ensures OrderedSource(v, src.items[i].1).Ok? && OrderSources(v, src, i + 1).Ok?
    ensures OrderSources(v, src, i).value ==
              [(src.items[i].0, Dict(OrderedSource(v, src.items[i].1).value))] + OrderSources(v, src, i + 1).value
  {
  }

  lemma {:induction false} OrderSourcesEntries(v: Version, src: Doc, i: nat)
    requires src.Dict? && i <= |src.items|
    requires OrderSources(v, src, i).Ok?
    ensures var r := OrderSources(v, src, i).value;
            forall j :: 0 <= j < |r| ==>
              && OrderedSource(v, src.items[i + j].1).Ok?
              && r[j] == (src.items[i + j].0, Dict(OrderedSource(v, src.items[i + j].1).value))
    decreases |src.items| - i
  {
    hide OrderSources, OrderedSource, SourcesOrderable, Orderable;
    if i < |src.items| {
      OrderSourcesStep(v, src, i);
      OrderSourcesEntries(v, src, i + 1);
      var rest := OrderSources(v, src, i + 1).value;
      var r := OrderSources(v, src, i).value;
      forall j | 0 < j < |r|
        ensures r[j] == (src.items[i + j].0, Dict(OrderedSource(v, src.items[i + j].1).value))
      {
        assert r[j] == rest[j - 1] && i + j == (i + 1) + (j - 1);
      }
    } else {
      assert Keys(OrderSources(v, src, i).value) == Keys(src.items[i..]) == [];
    }
  }

  /** Each source dataset's document is the recursively ordered input
      document under the same type key. */
  lemma {:induction false} OrderSourcesRecurse(v: Version, src: Doc, i: nat)
    requires src.Dict? && i <= |src.items|
    requires OrderSources(v, src, i).Ok?
    ensures var r := OrderSources(v, src, i).value;
            forall j :: 0 <= j < |r| ==>
              && OrderedMetadata(v, src.items[i + j].1).Ok?
              && r[j] == (src.items[i + j].0, Dict(OrderedMetadata(v, src.items[i + j].1).value))
  {
    OrderSourcesEntries(v, src, i);
  }

  /** The ordered lineage's `source_datasets` entry holds the lineage's own
      source documents, each ordered recursively. */
  lemma OrderLineageRecurse(v: Version, lineage: Doc)
    requires OrderLineage(v, lineage).Ok?
    ensures lineage.Dict?
    ensures Lookup(lineage.items, "source_datasets").Some? ==>
              var src := Lookup(lineage.items, "source_datasets").value;
              var r := OrderLineage(v, lineage).value;
              && src.Dict? && OrderSources(v, src, 0).Ok?
              && forall i :: 0 <= i < |r| && r[i].0 == "source_datasets"
                   ==> r[i].1 == Dict(OrderSources(v, src, 0).value)
  {
    LookupOrdered(lineage.items, v.lineageOrder, "source_datasets");
  }

  /** The embedded product `metadata` entry is the input `metadata` document
      ordered recursively. */
  lemma OrderProductMetadataRecurse(v: Version, doc: Doc, withLineage: Items)
    requires doc.Dict?
    requires Keys(withLineage) == Keys(OrderItems(doc.items, v.properties))
    requires forall i :: 0 <= i < |withLineage| && withLineage[i].0 != "lineage"
               ==> withLineage[i] == OrderItems(doc.items, v.properties)[i]
    requires OrderProductMetadata(v, doc, withLineage).Ok?
    ensures Lookup(doc.items, "metadata").Some? ==>
              var m := Lookup(doc.items, "metadata").value;
              var r := OrderProductMetadata(v, doc, withLineage).value;
              && OrderedMetadata(v, m).Ok?
              && forall i :: 0 <= i < |r| && r[i].0 == "metadata"
                   ==> r[i].1 == Dict(OrderedMetadata(v, m).value)
  {
    LookupOutsideReplaced(OrderItems(doc.items, v.properties), withLineage, "lineage", "metadata");
    LookupOrdered(doc.items, v.properties, "metadata");
  }

  /** The `lineage` entry is the input lineage ordered by `OrderLineage`. */
  lemma WithOrderedLineageRecurse(v: Version, doc: Doc)
    requires doc.Dict? && WithOrderedLineage(v, doc).Ok?
    ensures Lookup(doc.items, "lineage").Some? ==>
              var l := Lookup(doc.items, "lineage").value;
              var r := WithOrderedLineage(v, doc).value;
              && OrderLineage(v, l).Ok?
              && forall i :: 0 <= i < |r| && r[i].0 == "lineage"
                   ==> r[i].1 == Dict(OrderLineage(v, l).value)
  {
    LookupOrdered(doc.items, v.properties, "lineage");
  }

  /** `get_ordered_metadata` applied recursively: the `lineage` entry is the
      input lineage ordered by `OrderLineage` (whose source documents are
      ordered by `OrderedMetadata` again), and in the `_utils` version the
      `metadata` entry is the input `metadata` document ordered the same way. */
  lemma OrderedMetadataRecurse(v: Version, doc: Doc)
    requires OrderedMetadata(v, doc).Ok?
    ensures doc.Dict?
    ensures Lookup(doc.items, "lineage").Some? ==>
              var l := Lookup(doc.items, "lineage").value;
              var r := OrderedMetadata(v, doc).value;
              && OrderLineage(v, l).Ok?
              && forall i :: 0 <= i < |r| && r[i].0 == "lineage"
                   ==> r[i].1 == Dict(OrderLineage(v, l).value)
    ensures v.copy.UtilsCopy? && Lookup(doc.items, "metadata").Some? ==>
              var m := Lookup(doc.items, "metadata").value;
              var r := OrderedMetadata(v, doc).value;
              && OrderedMetadata(v, m).Ok?
              && forall i :: 0 <= i < |r| && r[i].0 == "metadata"
                   ==> r[i].1 == Dict(OrderedMetadata(v, m).value)
  {
    var withLineage := WithOrderedLineage(v, doc).value;
    WithOrderedLineageRecurse(v, doc);
    if v.copy.UtilsCopy? {
      OrderProductMetadataRecurse(v, doc, withLineage);
    }
  }
}
