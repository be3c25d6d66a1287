# cubedash core, modelled in Dafny

This project models the request-parameter, time-range and summary-aggregation
logic of cubedash, the Open Data Cube dashboard. It proves properties of that
model. The database, the geometry library and the web framework are outside
the model. Store rows, geometry validity and the current time enter as
parameters.

Modules, one per component of the program:

- `Wrappers`: `Option` and `Result`. Every Python exception the modelled code raises becomes an `Err` carrying its kind.
- `Calendar`: naive proleptic-Gregorian dates and date-times (years 1..9999), with ordering, day numbers and month arithmetic.
- `PyOps`: Python's `s[:n]` and `//`.
- `Strings`: split/join, decimal rendering and reading, zero padding, lower-casing and code-point order.
- `IsoTime`: `isoformat()`/`strftime` rendering and the ISO reader the code calls, with a round trip.
- `Sorting`: a stable insertion sort by key (Python's `sorted(..., key=...)`).
- `Metadata`: both versions of `get_ordered_metadata`.
- `Utils`: the helpers of `cubedash/_utils.py`.
- `Stac`: the `/stac/search` endpoint of `cubedash/_stac.py`.
- `Counters`: `collections.Counter` as a map from keys to counts: `update`, totals, counting a list, and regrouping dates through `Counter(f(d) for d in c.elements())`.
- `Aggregate`: the folds every version of `add_periods` is built from: `sum`, repeated `update`, `min`/`max` with and without `default=None`, `set.union`, and `_group_counter_if_needed`.
- `Geometry`: the shapely operations the summaries use (validity, emptiness, `unary_union`, `buffer`), taken as parameters, and the union retried on buffered shapes.
- `SummaryModel`: `TimePeriodOverview.add_periods` of `cubedash/summary/_model.py`.
- `Summarise`: `TimePeriodOverview` of `cubedash/summary/_summarise.py`: `add_periods` with its GeoJSON threshold, `_combined_geojson` and `empty`.
- `SummaryFiles`: the summary folder path, the coverage record name, the folder tree, and the JSON and shapefile encodings both file stores share.
- `SummaryLegacy`: `cubedash/summary.py`: `add_periods(group_by_month)`, `calculate_summary`, its `FileSummaryStore` and `list_complete_products`.
- `Stores`: `cubedash/summary/_stores.py`: `_start_day`, the row encoding, `PgSummaryStore` as a keyed map, the later `FileSummaryStore` and `get_last_updated`.
- `Dashboard`: `cubedash/__init__.py`: `parse_query`, the month bounds, `_format_query_value`, `_timeline_years` and the older `get_ordered_metadata`.
- `StacApi`: `cubedash/_stac_api.py`: the limit clamp, `load_datasets`, `pick_remote_uri`, the property converters and `stac_item`.
- `Show`: `print_count_table` of `cubedash/summary/show.py`.
- `DatasetView`: the provenance lists of the dataset page in `cubedash/_dataset.py`.
- `SpatialTable`: the extent and CRS expressions of `cubedash/spatialtable.py`.

## Model

| member | source | states |
|---|---|---|
| Calendar.MakeDate | cubedash/_utils.py:103-111 | `datetime(y, m, d)` succeeds exactly for a real calendar day and otherwise raises `ValueError` |
| Calendar.AddOneDay | cubedash/_utils.py:104-105 | adding one day moves the day number up by one; it overflows only from 9999-12-31 |
| Calendar.AddOneSecond | cubedash/_stac.py:140-141 | adding one second gives a later valid instant on the same day unless it was 23:59:59; it overflows only at the very last second |
| Calendar.NextMonthStart | cubedash/__init__.py:115-119 | the first of the next month, December rolling over to January of the next year; it fails only for December 9999 |
| Calendar.MonthEndPrecedesNextMonth | cubedash/__init__.py:61-69 | the month's last day (`calendar.monthrange(y, m)[1]`) is a valid date, and the day after it is the first of the next month |
| Calendar.AddMonths | cubedash/__init__.py:87-89 | `relativedelta(months=k)` moves the month count by exactly k and keeps the time of day; the day is kept when the new month has it and is otherwise that month's last day; it fails (`ValueError`) exactly when the new year leaves 1..9999 |
| Calendar.DayNumberInjective | cubedash/_utils.py:100-112 | day numbers order valid dates chronologically and identify them uniquely |
| Strings.SplitJoin | cubedash/_utils.py:40 | splitting a join of dash-free parts at the separator gives the parts back |
| Strings.ParseNatToString | cubedash/summary/_stores.py:47-49 | reading the decimal rendering of a number gives the number back |
| IsoTime.ParseFormat | cubedash/_stac.py:146-155 | reading an `isoformat()` rendering (with `T` or a space) gives the instant back |
| IsoTime.ParseDatePart | cubedash/_stac.py:136-139 | reading `YYYY-MM-DD` gives midnight of that day |
| Sorting.SortBySorted | cubedash/_utils.py:155-158 | the key sort yields a permutation of its input, ordered by key |
| Sorting.SortByStable | cubedash/_utils.py:155-158 | among elements of equal key, the sort keeps the input order |
| Metadata.Priority | cubedash/_utils.py:148-152 | a listed key's priority is its first position in the list; an unlisted key's is 999 |
| Metadata.OrderItemsSpec | cubedash/_utils.py:155-158 | the ordered items are a permutation of the input, non-decreasing in priority, and stable among equal priorities |
| Metadata.ListedKeysInListOrder | cubedash/_utils.py:155-158 | two listed keys come out in the order of the property list |
| Metadata.KeyInOrderedItems | cubedash/_utils.py:155-158 | ordering neither adds nor drops a key |
| Metadata.LookupOrdered | cubedash/_utils.py:155-161 | ordering a document does not change the value found under any key |
| Metadata.OrderSources | cubedash/_utils.py:167-169 | the ordering succeeds exactly when every source document from the given position orders (`SourcesOrderable`), otherwise with `AttributeError` or the `__init__` version's `KeyError('lineage')`; the source datasets keep their type keys, in order |
| Metadata.WithOrderedLineage | cubedash/_utils.py:155-169 | succeeds exactly when the `lineage` value is absent in the `_utils` version or is a mapping whose sources all order (`LineagePartOrderable`); the keys follow the version's property list and every entry except `lineage` is the sorted input entry; the `__init__` version without a lineage is a `KeyError` |
| Metadata.OrderLineage | cubedash/_utils.py:161-169 | succeeds exactly when the lineage is a mapping whose `source_datasets` value, if any, is a mapping of documents that all order (`LineageOrderable`); lineage keys follow the lineage order; every entry except `source_datasets` is the sorted input entry; a non-mapping lineage fails with `AttributeError` |
| Metadata.OrderedMetadata | cubedash/_utils.py:147-174 | succeeds exactly when the document is `Orderable`: a mapping whose lineage part orders and, in the `_utils` version, whose embedded `metadata` orders; otherwise `AttributeError` or `KeyError('lineage')`; the document's keys follow the version's property list; every entry other than `lineage` (and, in the `_utils` version, `metadata`) is the sorted input entry; a non-mapping document is an `AttributeError`, and the `__init__` version fails with `KeyError` without a lineage |
| Metadata.OrderProductMetadata | cubedash/_utils.py:171-173 | succeeds exactly when the embedded `metadata` value is absent or orders (`MetadataPartOrderable`); the keys and every entry except the embedded `metadata` one are unchanged |
| Metadata.OrderSourcesRecurse | cubedash/_utils.py:167-169 | each source dataset's entry is its type key with the input source document ordered by `get_ordered_metadata` again |
| Metadata.OrderLineageRecurse | cubedash/_utils.py:161-169 | the ordered lineage's `source_datasets` entry holds the input lineage's source documents, each ordered recursively |
| Metadata.OrderProductMetadataRecurse | cubedash/_utils.py:171-173 | the embedded `metadata` entry is the input `metadata` document ordered recursively |
| Metadata.WithOrderedLineageRecurse | cubedash/_utils.py:161-165 | the `lineage` entry is the input lineage ordered by `OrderLineage` |
| Metadata.OrderedMetadataRecurse | cubedash/_utils.py:147-174 | `get_ordered_metadata` recurses: the `lineage` entry is the input lineage ordered with its source documents, and in the `_utils` version the `metadata` entry is the input `metadata` document ordered the same way |
| Utils.Classify | cubedash/_utils.py:40-48 | a name with no dash has classifier `val`; a name with one dash splits at it into field and classifier; two or more dashes raise `ValueError` |
| Utils.ClassifyDashed | cubedash/_utils.py:40-46 | `field-classifier` built from dash-free parts splits back into those parts |
| Utils.GroupFieldNamesFails | cubedash/_utils.py:39-52 | grouping fails exactly when some name has two or more dashes, even when its value is blank |
| Utils.GroupFieldNamesKeepsValues | cubedash/_utils.py:50-54 | every non-blank entry is filed under its field and classifier |
| Utils.GroupFieldNamesOnlyValues | cubedash/_utils.py:50-55 | every grouped value comes from a non-blank request entry with that field and classifier, so `None` and `''` are never filed |
| Utils.GroupFieldNamesSnoc | cubedash/_utils.py:39-54 | one more entry is skipped when blank and otherwise stored at `out[field][classifier]` |
| Utils.ParserFor | cubedash/_utils.py:128-133 | a range or document field's value goes through the field's own parser, which may reject it; any other field's value passes through unchanged |
| Utils.TermOf | cubedash/_utils.py:135-142 | `val` gives the parsed value; `begin`/`end` give a `Range` of the parsed sides with `None` for a missing or falsy side, and a side the parser rejects (the begin first) fails the term; neither classifier is a `ValueError` |
| Utils.ParseUrlQueryArgs | cubedash/_utils.py:115-144 | one term per grouped field, each the field's `TermOf`; the call fails exactly when a grouped field is unknown to the product or its term fails (an unknown classifier or text its parser rejects), as `ValueError`, and a corrupt name fails as the grouping does |
| Utils.ValueLess | cubedash/_utils.py:67 | `<` is defined on numbers, strings and date-times among themselves; any other pairing raises `TypeError` |
| Utils.SwapBackwardRanges | cubedash/_utils.py:63-68 | the keys are kept and each term is un-reversed; an incomparable range raises `TypeError` |
| Utils.SwapOrdersRanges | cubedash/_utils.py:63-70 | after the swap every closed range has begin <= end; ordered ranges and other terms are untouched; a swapped range holds the same two ends |
| Utils.SwapIdempotent | cubedash/_utils.py:58-70 | swapping the result again changes nothing |
| Utils.PathParts | cubedash/_utils.py:84 | `pathlib` components are never empty, `.` or slash-bearing |
| Utils.DatasetLabel | cubedash/_utils.py:73-90 | the `label` field wins; else, for a non-empty `local_uri`, the folder name when the file is `ga-metadata.yaml`/`agdc-metadata.yaml` and the file name otherwise; else the id |
| Utils.LabelOfMetadataFile | cubedash/_utils.py:84-86 | a `ga-metadata.yaml`/`agdc-metadata.yaml` file is labelled by its folder's name |
| Utils.LabelOfPlainFile | cubedash/_utils.py:84-89 | any other file in a package folder is labelled by its own name |
| Utils.NextMonth | cubedash/_utils.py:93-97 | midnight on the first of the next month, later than the input and exactly one month-length of days after the month's first |
| Utils.AsTimeRange | cubedash/_utils.py:100-112 | year+month+day gives `[d, d + 1 day)` and succeeds exactly for a real day before 9999-12-31; year+month gives `[1st, 1st of next month)` and succeeds exactly for a real month before 9999-12; year alone gives `[Jan 1, Jan 1 next year)` and succeeds exactly for years 1..9998; no year gives `None` |
| Utils.YearRangeLength | cubedash/_utils.py:109-111 | a year's range holds exactly that year's 365 or 366 days |
| Stac.ParseTimeRange | cubedash/_stac.py:126-143 | every parsed range has valid ends |
| Stac.ParseTimeRangeParts | cubedash/_stac.py:134-143 | three or more `/`-parts give `None`; a lone instant always widens forwards |
| Stac.ParseUnparse | cubedash/_stac.py:126-155 | parsing an unparsed range gives the range back |
| Stac.ParseLoneDate | cubedash/_stac.py:127-139 | a lone date `d` parses to `[d, d + 1 day)` |
| Stac.ParseLoneInstant | cubedash/_stac.py:130-141 | a lone instant off midnight parses to `[t, t + 1 s)` |
| Stac.ArgOrDefault | cubedash/_stac.py:28-41 | a missing value takes the default; on POST a zero does too; any other value is kept |
| Stac.ShrinkLimit | cubedash/_stac.py:54-56 | after shrinking `offset + limit <= 100`; the limit is unchanged when it fit and otherwise is `100 - offset` |
| Stac.ValidateSearch | cubedash/_stac.py:27-62 | a GET bbox that is missing raises `TypeError` and one that is not JSON `ValueError`; a falsy bbox or a missing time aborts 400; an offset at or past 100 aborts 400 "Server paging limit reached"; a number or boolean bbox then raises `TypeError` at `len`; a list not of length 4 aborts 400; accepted parameters keep product, bbox and time and fit the cap |
| Stac.Fetch | cubedash/_stac.py:89-96 | the fetched rows are the window `LIMIT n OFFSET offset` of the matches |
| Stac.Assets | cubedash/_stac.py:176-181 | assets map each band to its path; a band without a path raises `KeyError` |
| Stac.AsStacItem | cubedash/_stac.py:158-183 | an item keeps the row's id, time, product and bbox, and has assets exactly when the full record was loaded |
| Stac.AsStacItemsPointwise | cubedash/_stac.py:98-99 | a page converts row by row and fails exactly when some row does |
| Stac.AsStacItemsAppend | cubedash/_stac.py:98-99 | converting two runs of rows converts their concatenation |
| Stac.SearchDatasets | cubedash/_stac.py:75-123 | a page holds the first `limit` rows of the window; `page = offset // limit` (limit 0 divides by zero); at most one `next` link, present exactly when `limit + 1` rows came back and `offset + limit < 100`, carrying `offset + limit` and the same limit, product, bbox and time |
| Stac.FollowLinkValidates | cubedash/_stac.py:110-121 | a request to a `next` link validates to the same product, bbox and time at the linked offset |
| Stac.CrawlYieldsFirstDatasetLimit | cubedash/_stac.py:49-56 | following `next` links from the first page yields exactly the first 100 matches (or all when fewer), each once, in store order |
| Counters.Update | cubedash/summary/_model.py:63 | `update` keeps every key of either side and adds the counts key by key |
| Counters.TotalUpdate | cubedash/summary/_model.py:61-63 | the number of elements after `update` is the sum of both sides' numbers |
| Counters.RegroupTotal | cubedash/summary/_model.py:136-144 | regrouping the elements of a counter keeps the number of elements |
| Counters.RegroupBuckets | cubedash/summary/_model.py:136-144 | each regrouped key counts exactly the elements the grouping sends to it |
| Counters.RegroupKeys | cubedash/summary/_model.py:136-144 | a key exists after regrouping exactly when some element with a positive count is sent to it, so zero-count days vanish |
| Counters.RegroupPositive | cubedash/summary/_model.py:136-144 | every count after regrouping is positive |
| Counters.SortedDates | cubedash/summary/_stores.py:356-357 | `sorted` of a set of dates lists each date once, in strictly increasing order |
| Counters.CounterOf | cubedash/summary.py:114-117 | counting a list gives each element its number of occurrences and has exactly the list's elements as keys |
| Counters.CounterOfTotal | cubedash/summary.py:114-117 | a counted list holds as many elements as the list |
| Aggregate.SumAppend | cubedash/summary/_model.py:103 | the sum of two runs of counts is the sum of their sums |
| Aggregate.UpdateAll | cubedash/summary/_model.py:61-63 | a key is in the merged counter exactly when it is in some child's counter |
| Aggregate.UpdateAllCounts | cubedash/summary/_model.py:61-71 | each key's merged count is the sum of the children's counts for it (a multiset sum) |
| Aggregate.UpdateAllTotal | cubedash/summary/_model.py:61-63 | the merged counter holds the sum of the children's totals |
| Aggregate.PyMin | cubedash/summary/_model.py:111 | `min` succeeds exactly when there is one value or no value is `None` (else `TypeError`); the result is one of the values and below all of them |
| Aggregate.PyMax | cubedash/summary/_model.py:112 | `max` succeeds exactly when there is one value or no value is `None`; the result is one of the values and above all of them |
| Aggregate.MinBegin | cubedash/summary/_summarise.py:106-107 | the lazy `min` over children's begins succeeds only when every child has a range, and fails only with `AttributeError` or `TypeError` |
| Aggregate.MinBeginAllRanged | cubedash/summary/_summarise.py:106-107 | when every child has a range, the lazy `min` equals `min` over the begins |
| Aggregate.MinBeginMissingRange | cubedash/summary/_summarise.py:106-107 | with `k` the first child without a range, the error is `AttributeError` exactly when the children before it compare, else `TypeError` |
| Aggregate.MinBeginComparesFirst | cubedash/summary/_summarise.py:106-107 | `[Range(None, e), Range(x, e), None]` raises `TypeError`, not `AttributeError` |
| Aggregate.MaxPresent | cubedash/summary/_model.py:116-123 | `max(..., default=None)` over the present values: `None` exactly when all are `None`, else a present value at or above every present value |
| Aggregate.MinPresent | cubedash/summary/_model.py:125-128 | `min(..., default=None)` over the present values: `None` exactly when all are `None`, else a present value at or below every present value |
| Aggregate.Union | cubedash/summary/_model.py:124 | a CRS is in the union exactly when it is in some child's set |
| Aggregate.PyUnion | cubedash/summary/_summarise.py:119 | `set.union(*sets)` fails on no sets or on a `None` set; otherwise a CRS is in it exactly when it is in some set |
| Aggregate.GroupCounterIfNeeded | cubedash/summary/_model.py:133-147 | the counter is unchanged unless it has more than 365 keys and the period is `day` or `month`; `day` becomes `month` and each first-of-month key counts exactly the elements of its month, `month` becomes `year` and each January-1st key counts exactly the elements of its year; grouped counts are positive; the total is always kept |
| Geometry.UnionWithRetry | cubedash/summary/_model.py:82-101 | no shapes give `None`; a successful union is returned; an error other than `ValueError` propagates; after a `ValueError` the result is that of the union of every shape's `buffer(0.001)`, its error included; so it succeeds exactly when there are no shapes, the first union succeeds, or it raised `ValueError` and the buffered union succeeds |
| Aggregate.NonEmptyPeriods | cubedash/summary/_model.py:58 | a child takes part in a merge exactly when it is present with a positive count; the same filter opens `add_periods` in `cubedash/summary/_summarise.py` |
| Aggregate.NonEmptyPeriodsNone | cubedash/summary/_model.py:58 | when every child is `None` or empty, nothing takes part |
| SummaryModel.WithValidGeometries | cubedash/summary/_model.py:73-80 | a period is kept exactly when its footprint count is nonzero and its geometry is present, valid and not empty |
| SummaryModel.AddPeriodsIgnoresEmpty | cubedash/summary/_model.py:58 | appending a `None` or zero-count period does not change the merge |
| SummaryModel.AddPeriodsNone | cubedash/summary/_model.py:58-130 | merging only empty periods succeeds with count 0, empty counters, period `day`, `(None, None)` time range, no footprint and footprint count 0, no newest time, no CRSes, size 0 and no generation time |
| SummaryModel.AddPeriodsCounts | cubedash/summary/_model.py:61-115 | the count is the sum of the qualifying counts; the timeline total is the sum of the children's totals; each grid cell's count is the sum of the children's counts; the footprint count sums the periods with valid geometry |
| SummaryModel.AddPeriodsTimeline | cubedash/summary/_model.py:61-67 | when the merged timeline has at most 365 keys, each day's count is the sum of the children's counts and the period is the last child's |
| SummaryModel.SpanOfChildren | cubedash/summary/_model.py:110-113 | the begin and end are children's ends; with two or more children they are present and bound every child's range |
| SummaryModel.AddPeriodsTimeRange | cubedash/summary/_model.py:110-113 | no qualifying period gives `(None, None)`; otherwise the range runs from a child's begin to a child's end and, with two or more children, covers every child's range |
| SummaryModel.SpanFails | cubedash/summary/_model.py:111-112 | `min`/`max` of the ends fail exactly when there are two or more children and some child has a `None` end |
| SummaryModel.AddPeriodsFails | cubedash/summary/_model.py:82-113 | the merge fails exactly when the footprint union fails or `min`/`max` meet a `None` end among two or more children |
| SummaryModel.AddPeriodsTimes | cubedash/summary/_model.py:116-128 | the merged newest creation time and generation time are the latest and earliest present children's times |
| SummaryModel.CrsesOfChildren | cubedash/summary/_model.py:124 | a CRS is in the union of the children's sets exactly when some child has it |
| SummaryModel.AddPeriodsCrses | cubedash/summary/_model.py:124 | the merged CRSes are exactly those of the qualifying children |
| Summarise.Empty | cubedash/summary/_summarise.py:140-142 | `empty()` has count 0, the current time as its generation time, and every other field `None` |
| Summarise.WithValidGeometries | cubedash/summary/_summarise.py:77-80 | a period is kept exactly when its footprint count is truthy and its geometry is present, valid and not empty |
| Summarise.GroupIfNeededChanges | cubedash/summary/_summarise.py:144-160 | the period changes exactly when there are more than 365 keys and the period is `day` or `month`; an unchanged period keeps the counter as it is |
| Summarise.CombinedGeojson | cubedash/summary/_summarise.py:129-138 | a feature is in the collection exactly when it is in some child's collection |
| Summarise.CombinedGeojsonLength | cubedash/summary/_summarise.py:129-138 | the collection's length is the sum of the children's feature counts, `None` counting 0 |
| Summarise.CombinedGeojsonAppend | cubedash/summary/_summarise.py:135-137 | the children's features are concatenated in period order |
| Summarise.AddPeriodsNone | cubedash/summary/_summarise.py:61-65 | merging only `None` or empty periods gives `empty()` |
| Summarise.AddPeriodsIgnoresEmpty | cubedash/summary/_summarise.py:61 | appending a `None` or zero-count period does not change the merge |
| Summarise.AddPeriodsCounts | cubedash/summary/_summarise.py:67-111 | the count is the sum of the children's counts; the timeline total is the sum of the children's totals; each grid cell sums the children's counts; the footprint count sums the periods with valid geometry |
| Summarise.AddPeriodsGeojson | cubedash/summary/_summarise.py:97-98 | the GeoJSON is present exactly when the total is below `max_individual_datasets`, and then holds every child's features |
| Summarise.SpanOfChildren | cubedash/summary/_summarise.py:106-109 | the begin and end are children's ends; with two or more children they are present and bound every child's range |
| Summarise.AddPeriodsTimeRange | cubedash/summary/_summarise.py:106-109 | the range runs from a child's begin to a child's end and, with two or more children, covers every child's range |
| Summarise.SpanFails | cubedash/summary/_summarise.py:107-108 | `min`/`max` fail exactly when there are two or more children and some child has a `None` end |
| Summarise.AddPeriodsFails | cubedash/summary/_summarise.py:82-119 | a non-empty merge fails exactly when the union fails, a child has no time range, `min`/`max` meet a `None` end, or a child's CRS set is `None` |
| Summarise.AddPeriodsMissingRange | cubedash/summary/_summarise.py:60-107 | once the union succeeds, the first child without a time range gives `AttributeError` exactly when the earlier begins compare, else `TypeError` |
| Summarise.NewestOfChildren | cubedash/summary/_summarise.py:112-118 | the newest creation time is `None` exactly when every child's is, and is at or after every child's |
| Summarise.EarliestGeneration | cubedash/summary/_summarise.py:120-126 | the generation time is `None` exactly when every child's is, and is at or before every child's |
| Summarise.AddPeriodsTimes | cubedash/summary/_summarise.py:112-126 | the merged newest creation time and generation time are the latest and earliest present children's times |
| Summarise.CrsesOfChildren | cubedash/summary/_summarise.py:119 | when the union succeeds every child has a CRS set, and a CRS is in the union exactly when some child has it |
| Summarise.AddPeriodsCrses | cubedash/summary/_summarise.py:119 | the merged CRSes are exactly those of the children |
| Summarise.AddPeriodsTimeline | cubedash/summary/_summarise.py:67-71 | an ungrouped timeline counts each day as the sum of the children's counts; the period differs from the last child's exactly when there are more than 365 keys and it was `day` or `month` |
| SummaryFiles.ZeroPaddedDigits | cubedash/summary.py:238-241 | `%04d`/`%02d` of a number that fits gives that many digits, which read back as the number |
| SummaryFiles.SummaryPathReadsBack | cubedash/summary.py:229-242 | the folder path has one component per truthy part: the product, then a 4-digit year and a 2-digit month that read back as the numbers |
| SummaryFiles.SummaryPathInjective | cubedash/summary.py:229-242 | two written keys with the same folder are the same key |
| SummaryFiles.SummaryNameSplits | cubedash/summary/_stores.py:47-49 | the coverage record name is the `-`-join of the truthy parts, and splits back into them when the product has no dash |
| SummaryFiles.Prefixes | cubedash/summary.py:214 | the folders `mkdir(parents=True)` needs are exactly the path's prefixes |
| SummaryFiles.MakeDirs | cubedash/summary.py:214 | making the folders keeps every existing folder, adds exactly the missing prefixes, and leaves the new ones empty |
| SummaryFiles.MakeDirsPrefixClosed | cubedash/summary.py:214 | making the folders keeps every folder's parent present |
| SummaryFiles.WriteFiles | cubedash/summary.py:244-277 | writing a summary replaces only its folder's two files; no folder is added or changed otherwise |
| SummaryFiles.WriteSeries | cubedash/summary.py:259-261 | the series has one entry per counter key |
| SummaryFiles.ReadSeriesOfDays | cubedash/summary.py:300-304 | reading back the entries of some days gives a counter with exactly those days and their counts |
| SummaryFiles.SeriesRoundTrip | cubedash/summary.py:259-261 | reading back a written series gives the counter back |
| SummaryFiles.WriteCoverage | cubedash/summary.py:269-277 | the coverage file holds at most one shape |
| SummaryFiles.ReadCoverage | cubedash/summary.py:288-296 | reading the coverage fails exactly when there is more than one shape; a footprint read is the only shape |
| SummaryFiles.CoverageRoundTrip | cubedash/summary.py:266-296 | reading the written coverage gives a truthy footprint back and an empty one as `None` |
| SummaryFiles.WriteRange | cubedash/summary.py:253-258 | writing a time range succeeds exactly when both ends are present |
| SummaryFiles.RangeRoundTrip | cubedash/summary.py:253-258 | reading back two written ends gives the two instants back |
| SummaryFiles.CountsRoundTrip | cubedash/summary.py:300-304 | the `series` entry reads back as the counter, with an empty or missing counter as `None` |
| SummaryFiles.WrittenRange | cubedash/summary/_stores.py:99-102 | the `time_range` entry fails exactly for a range with a missing end |
| SummaryFiles.TimeRangeRoundTrip | cubedash/summary/_stores.py:157-160 | a range with both ends, or none, reads back as itself |
| SummaryLegacy.Qualifying | cubedash/summary.py:50 | a period is kept exactly when its count is positive |
| SummaryLegacy.QualifyingNone | cubedash/summary.py:50 | when every count is at most 0 nothing qualifies |
| SummaryLegacy.WithValidGeometries | cubedash/summary.py:67-73 | a period is kept exactly when its geometry is present, valid and not empty |
| SummaryLegacy.UnionOrNone | cubedash/summary.py:84-88 | no shapes give `None`; otherwise the merge fails exactly when the union does |
| SummaryLegacy.SumStrict | cubedash/summary.py:89 | `sum` succeeds exactly when no footprint count is `None` |
| SummaryLegacy.SumStrictPresent | cubedash/summary.py:89 | a successful sum equals the sum of the present values |
| SummaryLegacy.AddPeriodsNonePeriod | cubedash/summary.py:50 | a `None` period raises `AttributeError` |
| SummaryLegacy.MergeMissingRange | cubedash/summary.py:49-81 | the first qualifying child without a time range gives `AttributeError` exactly when the earlier begins compare, else `TypeError` |
| SummaryLegacy.AddPeriodsEmpty | cubedash/summary.py:50-55 | merging only zero-count periods gives count 0 with every other field `None` |
| SummaryLegacy.AddPeriodsIgnoresEmpty | cubedash/summary.py:50 | appending a zero-count period does not change the merge |
| SummaryLegacy.AddPeriodsCounts | cubedash/summary.py:57-58 | the count is the sum of the qualifying counts and the counter's total is the sum of their totals |
| SummaryLegacy.AddPeriodsGroupByMonth | cubedash/summary.py:61-65 | with `group_by_month` the period is `month`, every key is a first of month, and each month counts the merged elements of its days |
| SummaryLegacy.AddPeriodsUngrouped | cubedash/summary.py:57-59 | without grouping each day sums the children's counts and the period is the last child's |
| SummaryLegacy.AddPeriodsTimeRange | cubedash/summary.py:80-83 | the range runs from a child's begin to a child's end and, with two or more children, covers every child's range |
| SummaryLegacy.AddPeriodsFootprintCount | cubedash/summary.py:67-89 | the footprint count sums the present counts of the periods with valid geometry, every one of which is present |
| SummaryLegacy.DaysFrom | cubedash/summary.py:111-113 | every listed day is a real day, not before the start, whose time of `begin` falls before `end` |
| SummaryLegacy.DaysFromMembers | cubedash/summary.py:111-113 | a day is listed exactly when it is not before the start and its time falls before `end` (`closed="left"`) |
| SummaryLegacy.ToFeaturesMembers | cubedash/summary.py:144-148 | a feature is produced exactly for each dataset with a truthy shape |
| SummaryLegacy.CalculateSummaryCounts | cubedash/summary.py:93-129 | the count is the number of datasets; the days are the range's days and the datasets' days; each day counts its datasets; the footprint count is at most the count; the GeoJSON is present exactly when `0 < footprint count < 600`; the period is `day` |
| SummaryLegacy.ZerosTotal | cubedash/summary.py:111-113 | a counter of zeros holds no elements |
| SummaryLegacy.ToTimeline | cubedash/summary.py:246-264 | writing fails exactly when a time range has a missing end |
| SummaryLegacy.ReadSummary | cubedash/summary.py:279-296 | a missing `timeline.json` or shapefile raises; more than one coverage shape raises |
| SummaryLegacy.Get | cubedash/summary.py:220-227 | a missing folder reads as `None` |
| SummaryLegacy.ReadWritten | cubedash/summary.py:244-315 | reading back a written folder gives the summary, with an empty counter and an empty footprint as `None` |
| SummaryLegacy.PutGet | cubedash/summary.py:200-227 | after a successful put, get returns the stored summary and every other folder is unchanged |
| SummaryLegacy.PutEmptyIsNoop | cubedash/summary.py:209-211 | putting a zero-count summary for a year or month changes nothing |
| SummaryLegacy.PutFolderErrors | cubedash/summary.py:213-218 | a month folder that exists raises `FileExistsError`; an overall or year folder that does not exist raises `FileNotFoundError` |
| SummaryLegacy.PutPrefixClosed | cubedash/summary.py:213-214 | a put keeps every folder's parent present |
| SummaryLegacy.WithSummaries | cubedash/summary.py:184-193 | a product is listed exactly when it has an overall summary, as often as it occurs in the product list |
| SummaryLegacy.ListCompleteProductsSpec | cubedash/summary.py:184-193 | the listed products are exactly those with an overall summary, each as often as it occurs in the product list, in sorted order |
| Stores.StartDay | cubedash/summary/_stores.py:314-323 | the key exists exactly when `date(year or 1900, month or 1, day or 1)` is a real day (else `ValueError`), and that date is the start day; the period is the most specific truthy part |
| Stores.StartDayInjective | cubedash/summary/_stores.py:314-323 | two nested keys with the same row key agree on which parts are truthy |
| Stores.StartDayAliases | cubedash/summary/_stores.py:314-323 | month 3 without a year shares the row key of March 1900 |
| Stores.ToRowArrays | cubedash/summary/_stores.py:351-364 | the day and count arrays are present exactly for a non-empty counter; then they have equal positive length, the days are strictly increasing, they are the counter's keys, and each count is its day's |
| Stores.ZipDayValues | cubedash/summary/_stores.py:327-330 | zipping a key list with its counts gives back a counter with exactly those keys and counts |
| Stores.RowCounts | cubedash/summary/_stores.py:327-330 | reading the arrays fails exactly when the days are non-empty and the counts are `NULL` |
| Stores.FromRowAsWritten | cubedash/summary/_stores.py:332-349 | as written, reading a row never yields a summary |
| Stores.FromRow | cubedash/summary/_stores.py:325-349 | the corrected reader succeeds exactly when the arrays can be read |
| Stores.RowCountsRoundTrip | cubedash/summary/_stores.py:327-358 | the arrays of a written row read back as the counter, an empty counter as `None` |
| Stores.RowRoundTrip | cubedash/summary/_stores.py:325-378 | a written row reads back as the summary, except that an empty counter and a begin-less range come back as `None` and the grid and CRSes, which the row does not hold, as `None` |
| Stores.CheckRow | cubedash/summary/_stores.py:216-260 | a row is accepted exactly when it has a generation time, a known period, 32-bit counts and equal-length arrays |
| Stores.PgPutFails | cubedash/summary/_stores.py:406-429 | a put fails exactly on a missing product name, an impossible day or a rejected row; a missing generation time is rejected |
| Stores.PgPutGet | cubedash/summary/_stores.py:294-312 | a get after a put with the same key returns the stored summary |
| Stores.PgPutOthers | cubedash/summary/_stores.py:406-429 | a put leaves every other key's get unchanged |
| Stores.PgGetMissing | cubedash/summary/_stores.py:309-310 | a key never written reads as `None` |
| Stores.PgPutGetAsWritten | cubedash/summary/_stores.py:325-349 | as written, reading back any stored summary raises `TypeError` |
| Stores.ReadTime | cubedash/summary/_stores.py:198-202 | a missing or empty text reads as `None` |
| Stores.TimeRoundTrip | cubedash/summary/_stores.py:106-113 | a written instant, or its absence, reads back as itself |
| Stores.ToTimeline | cubedash/summary/_stores.py:92-116 | writing fails exactly when a time range has a missing end |
| Stores.ToTimelineFields | cubedash/summary/_stores.py:92-116 | `timeline.json` holds the count, footprint count, GeoJSON, period, range, series and both times of the summary |
| Stores.ReadFields | cubedash/summary/_stores.py:140-146 | more than one coverage shape raises |
| Stores.ReadSummaryAsWritten | cubedash/summary/_stores.py:126-171 | a missing file reads as `None`; otherwise, as written, reading never yields a summary |
| Stores.ReadSummary | cubedash/summary/_stores.py:126-171 | a missing file reads as `None`; more than one coverage shape raises |
| Stores.FileGet | cubedash/summary/_stores.py:54-68 | a day summary is computed by `update`; otherwise a missing folder reads as `None` |
| Stores.EntriesWritten | cubedash/summary/_stores.py:92-170 | each written entry reads back as the summary's field, empty counters and footprints as `None` |
| Stores.ReadFieldsWritten | cubedash/summary/_stores.py:150-171 | the written files read back as the summary's fields, a missing generation time as the file's creation time |
| Stores.FilePutFolder | cubedash/summary/_stores.py:39-52 | a put of a summary whose time range can be written succeeds, writes its two files into its folder and leaves every other folder unchanged |
| Stores.FilePutGet | cubedash/summary/_stores.py:39-68 | a get after a put returns the summary as reread, and every other folder is unchanged |
| Stores.FilePutGetAsWritten | cubedash/summary/_stores.py:150-171 | as written, getting back any put summary raises `TypeError` |
| Stores.FilePutIgnoresDay | cubedash/summary/_stores.py:45 | the day plays no part in where a put writes |
| Stores.FilePutPrefixClosed | cubedash/summary/_stores.py:87 | a put keeps every folder's parent present |
| Stores.LastUpdated | cubedash/summary/_stores.py:173-192 | a readable `generated.txt` wins; failing that, an existing overall summary gives its `summary_gen_time`, a missing one gives the folder's creation time, and a failing read of it propagates; it fails exactly in that last case |
| Dashboard.ParseBound | cubedash/__init__.py:80-81 | a missing bound is `None`; a parsed bound is the parse of the request's text |
| Dashboard.DefaultWindow | cubedash/__init__.py:83-91 | given bounds are kept; no bounds end now; a missing `to` is `AddMonths(from, 1)` and a missing `from` is `AddMonths(to, -1)` (with `to` now when neither is given), and the window fails exactly when that shift does |
| Dashboard.RangeDodge | cubedash/__init__.py:93-97 | a list gives its first two items (fewer raise); a number gives a range of width 0.0001 centred on it; text raises `TypeError` |
| Dashboard.ParseQueryKeys | cubedash/__init__.py:74-102 | the query copies exactly the given acceptable fields, always has `time`, and has `lon`/`lat` exactly when both are given; nothing else |
| Dashboard.ParseQueryWindow | cubedash/__init__.py:80-91 | the window's ends are valid; given bounds are the parsed texts; no bounds end now; a missing side is the other side moved by `AddMonths` one month forward or back |
| Dashboard.MonthStart | cubedash/__init__.py:58-59 | `_month_start` succeeds exactly for a real year and month |
| Dashboard.MonthEnd | cubedash/__init__.py:61-69 | `_month_end` succeeds exactly for a real year and month |
| Dashboard.MonthBoundsValues | cubedash/__init__.py:58-69 | the month starts at the 1st, 00:00:00 and ends on its last calendar day, 23:59:59 |
| Dashboard.MonthBounds | cubedash/__init__.py:58-69 | an instant lies between the two bounds exactly when it is in that month |
| Dashboard.MonthEndThenNextMonth | cubedash/__init__.py:61-69 | one second after the month's end is midnight of the next month's first |
| Dashboard.WindowTextRoundTrip | cubedash/__init__.py:34-47 | a time window rendered as `"<begin> to <end>"` reads back as the two instants |
| Dashboard.GroupedStep | cubedash/__init__.py:175-180 | recording one more bucket keeps every month's count that of its last bucket |
| Dashboard.TimelineYears | cubedash/__init__.py:173-182 | each bucket's year and month is present with the count of its month's last bucket; years are listed once each; `max_value` is the largest count, or 0 |
| Dashboard.InitOrderedMetadataKeys | cubedash/__init__.py:239-270 | the dataset page's ordering succeeds exactly when the document has a `lineage` mapping whose source documents all order; it keeps the document's keys; a document without `lineage` raises `KeyError` |
| StacApi.ClampLimit | cubedash/_stac_api.py:120-121 | a missing or falsy limit, or one above 50, becomes 50; any other number is kept; a non-empty text raises `TypeError` |
| StacApi.ClampLimitIdempotent | cubedash/_stac_api.py:120-121 | the clamped limit is at most 50 and clamping it again changes nothing |
| StacApi.TextBox | cubedash/_stac_api.py:144-147 | a GET bbox is indexed character by character |
| StacApi.TimeSpan | cubedash/_stac_api.py:139-142 | a time without `/` raises; a parsed one is a time range |
| StacApi.WithTime | cubedash/_stac_api.py:139-142 | a truthy time adds only the `time` key |
| StacApi.WithBox | cubedash/_stac_api.py:144-147 | a truthy bbox adds `lon = (x0, x1)` and `lat = (y0, y1)` and nothing else; a bbox of 1 to 3 entries raises |
| StacApi.LoadQuery | cubedash/_stac_api.py:129-149 | the query has `product`, `time` and `lon`/`lat` exactly for the truthy arguments, holding the product and the bbox's ends |
| StacApi.LoadQueryTime | cubedash/_stac_api.py:139-142 | `"a/b"` gives the time range `(a, b)` |
| StacApi.LoadQueryBox | cubedash/_stac_api.py:144-147 | `[x0, y0, x1, y1]` gives `lon = (x0, x1)` and `lat = (y0, y1)` |
| StacApi.StacSearchQuery | cubedash/_stac_api.py:105-126 | the search succeeds exactly when the limit clamps and the query builds, and uses both |
| StacApi.Scheme | cubedash/_stac_api.py:218 | the scheme is the text before the first `:`, or the whole URI without one |
| StacApi.PickRemoteUri | cubedash/_stac_api.py:215-222 | `None` exactly when no URI has a remote scheme; else the first one that does |
| StacApi.PickRemoteSkipsFiles | cubedash/_stac_api.py:215-222 | a `file:` URI is passed over for a remote one, in either order |
| StacApi.FieldPlatform | cubedash/_stac_api.py:293-294 | the key is `eo:platform` and each character is lower-cased, `_` becoming `-` |
| StacApi.FieldPlatformIdempotent | cubedash/_stac_api.py:293-294 | the result has no `_` or upper-case letter, so converting it again changes nothing |
| StacApi.FieldPlatformLandsat | cubedash/_stac_api.py:293-294 | `LANDSAT_8` becomes `landsat-8` |
| StacApi.FieldBands | cubedash/_stac_api.py:301-302 | the bands convert exactly when each has a `name` (else `KeyError`), one entry per band |
| StacApi.FieldBandsNames | cubedash/_stac_api.py:301-302 | each converted band holds only its name |
| StacApi.Convert | cubedash/_stac_api.py:328-332 | each converter produces its own STAC key |
| StacApi.BuildProperties | cubedash/_stac_api.py:335-341 | every property built has a STAC key |
| StacApi.Kept | cubedash/_stac_api.py:336-340 | only fields with a value and a converter are kept |
| StacApi.BuildPropertiesConvertsKept | cubedash/_stac_api.py:335-341 | the properties are the conversions of the kept fields |
| StacApi.ConvertEachSpec | cubedash/_stac_api.py:339-341 | converting in order succeeds exactly when each conversion does, giving one property per field |
| StacApi.BuildPropertiesKept | cubedash/_stac_api.py:335-341 | building succeeds exactly when every kept field converts, giving each kept field's conversion in order |
| StacApi.BaseUri | cubedash/_stac_api.py:227 | the base URI is the remote URI when there is one, else the local URI |
| StacApi.StacItem | cubedash/_stac_api.py:225-290 | no item exactly for a shapeless dataset; an item keeps the id, product, centre time, bands and base URI, and has start/end times exactly when `begin < end` |
| StacApi.ItemPage | cubedash/_stac_api.py:188-212 | an unknown id or a dataset of another product aborts 404; otherwise the dataset's item |
| StacApi.FeatureCollectionMeta | cubedash/_stac_api.py:170-181 | the meta has page 1 and the limit, and `found` exactly for a truthy total |
| Show.Least | cubedash/summary/show.py:80-82 | `min` of a non-empty set is in it and below all its elements |
| Show.Greatest | cubedash/summary/show.py:80-82 | `max` of a non-empty set is in it and above all its elements |
| Show.RangesContain | cubedash/summary/show.py:77-82 | every cell lies in `[min x, max x + 1)` and `[min y, max y + 1)`, and its count in the count range |
| Show.RangesAttained | cubedash/summary/show.py:77-82 | the ranges are non-empty and each bound is attained by some cell |
| Show.WidthOf | cubedash/summary/show.py:84-86 | the width is the longest rendering among the range ends and the count bounds |
| Show.Fits | cubedash/summary/show.py:84-86 | every x, y and count within the ranges fits in the width |
| Show.CountsFit | cubedash/summary/show.py:84-86 | every count fits in the width |
| Show.HeadCell | cubedash/summary/show.py:88-89 | a header cell that fits is `width + 1` characters |
| Show.CountCell | cubedash/summary/show.py:91-96 | a zero cell, or one that fits, is `width + 1` characters |
| Show.CountCellReadsBack | cubedash/summary/show.py:91-96 | a zero prints as blanks; any other count prints right-aligned, followed by a space, and reads back as the count |
| Show.RowParts | cubedash/summary/show.py:107-113 | a row has one cell per column plus its header cell |
| Show.PartsWidth | cubedash/summary/show.py:107-112 | every cell of a row is `width + 1` characters |
| Show.RowPartsWidth | cubedash/summary/show.py:107-113 | every cell of a table row is `width + 1` characters |
| Show.PrintCountTable | cubedash/summary/show.py:76-113 | an empty counter fails; otherwise one line per row plus the header |
| Show.LinesAt | cubedash/summary/show.py:98-113 | line 0 is the header and line `j` is row `min y + j - 1` |
| Show.TableIsLines | cubedash/summary/show.py:76-113 | a non-empty counter prints its header and rows |
| Show.TableLines | cubedash/summary/show.py:98-113 | the table has `max y - min y + 2` lines: the header, then one per row |
| Show.TableCell | cubedash/summary/show.py:107-112 | the cell at `(x, y)` prints that grid cell's count, missing cells as 0 |
| Show.TableHeader | cubedash/summary/show.py:100-104 | the header starts with a blank corner and then shows each x |
| DatasetView.ProvenanceLimit | cubedash/_dataset.py:14 | the configured limit, or 25 |
| DatasetView.Prefix | cubedash/_dataset.py:27 | `xs[:n]` is a prefix of `n` items, or `len + n` for a negative `n` |
| DatasetView.Truncate | cubedash/_dataset.py:24-27 | a list that fits is kept with overflow 0; the overflow is positive exactly when the list is too long; the shown part is a prefix; shown + overflow is the total and the shown part fits |
| DatasetView.TruncateLengths | cubedash/_dataset.py:24-27 | shown + overflow is the total and the shown part is at most the limit |
| DatasetView.TruncateIdempotent | cubedash/_dataset.py:24-27 | truncating the shown part again cuts nothing |
| DatasetView.TruncateNegative | cubedash/_dataset.py:24-27 | a negative limit reports more overflow than there are items |
| DatasetView.IdOf | cubedash/_dataset.py:29-30 | a source document's `id` entry; a missing one raises `KeyError`, a non-mapping `TypeError` |
| DatasetView.IdOfFound | cubedash/_dataset.py:29-30 | the id is found exactly when the document is a mapping with an `id` |
| DatasetView.SourceDatasets | cubedash/_dataset.py:29-30 | the map succeeds exactly when every source has an id, and has exactly the sources' types as keys |
| DatasetView.SourceDatasetsKeys | cubedash/_dataset.py:29-30 | a type is in the map exactly when some source has it |
| DatasetView.SourceDatasetsSpec | cubedash/_dataset.py:29-30 | the first source without an id raises its error; each type maps to the dataset of its last source |
| DatasetView.SortedDerived | cubedash/_dataset.py:37 | sorting keeps the derived datasets |
| DatasetView.DerivedShown | cubedash/_dataset.py:37-40 | the shown derived datasets are a prefix of the sorted list |
| DatasetView.DerivedShownOrdered | cubedash/_dataset.py:37-40 | the shown derived datasets are ordered by label, and stable among equal labels |
| DatasetView.DerivedShownFirst | cubedash/_dataset.py:37-40 | the shown datasets come from the input, and none cut has a label before a shown one |
| DatasetView.ShownSourceListed | cubedash/_dataset.py:24-30 | every shown source type is a source of the dataset |
| DatasetView.ShownSourcesOk | cubedash/_dataset.py:24-30 | the sources load exactly when each shown source has an id |
| DatasetView.ShownSourcesCounts | cubedash/_dataset.py:24-27 | at most the limit are shown, with overflow `len - limit` when the list is too long, else 0 |
| DatasetView.DatasetPageSpec | cubedash/_dataset.py:17-52 | the page fails exactly when a shown source lacks an id or the metadata cannot be ordered; otherwise both lists fit the limit, the counts add up, the overflows are right, and the derived list is ordered by label |
| SpatialTable.AsText | cubedash/spatialtable.py:38 | `.astext` of a missing value or JSON `null` is `NULL`; of a string, the string |
| SpatialTable.GetAppend | cubedash/spatialtable.py:27-29 | indexing a sub-document by a path is indexing the document by the joined path |
| SpatialTable.Ring | cubedash/spatialtable.py:44-50 | the ring has one point per corner key, five in all |
| SpatialTable.ExtentSpec | cubedash/spatialtable.py:33-52 | the extent is the `valid_data` GeoJSON exactly when it is present; otherwise a closed ring ll, ul, ur, lr, ll |
| SpatialTable.ExtentAsWrittenDoublesPath | cubedash/spatialtable.py:27-36 | as written, the `valid_data` branch is taken exactly when the doubled path exists |
| SpatialTable.ExtentAsWrittenMissesValidData | cubedash/spatialtable.py:33-41 | a document with `valid_data` gets a corner ring as written, but its GeoJSON once corrected |
| SpatialTable.ReadInt4 | cubedash/spatialtable.py:72 | a read integer lies in the 32-bit range |
| SpatialTable.CastInt4 | cubedash/spatialtable.py:72 | a cast integer lies in the 32-bit range |
| SpatialTable.ReadInt4OfString | cubedash/spatialtable.py:72 | a 32-bit number's text reads back as the number |
| SpatialTable.CastInt4OfString | cubedash/spatialtable.py:72 | casting a 32-bit number's text gives the number |
| SpatialTable.Int4Abs | cubedash/spatialtable.py:71 | `abs` fails only for the least 32-bit integer; otherwise it is `n` or `-n` and not negative |
| SpatialTable.CrsPrefersSpatialReference | cubedash/spatialtable.py:63-65 | a `spatial_reference` text is the CRS, whatever the datum and zone |
| SpatialTable.CrsOtherDatum | cubedash/spatialtable.py:67-76 | without a spatial reference, a datum other than `GDA94` gives `NULL` |
| SpatialTable.CrsGda94 | cubedash/spatialtable.py:66-76 | without a spatial reference, `GDA94` gives `EPSG:283` followed by the zone's absolute value, which reads back from the text; the least 32-bit zone fails in `abs` |
| SpatialTable.CrsZoneMinus55 | cubedash/spatialtable.py:66-76 | zone -55 in `GDA94` gives `EPSG:28355` |

## Left out

- Microseconds and time zones: `Calendar` dates are naive, as the integer calendar records of the model.
- Floating-point coordinates are carried as `real` and never computed with.
- JSON rendering, Flask routing, templates, `url_for` and caching.
- The dataset store and its ordering across pages: the store is a sequence parameter in store order.
- `cubedash/footprint.py`: a notebook export doing orbital float maths and network downloads.
- Geometry: shapely union, buffering, validity and bounds are opaque.
- Database table definitions and the product-id retry loop.
- `dateutil.parser.parse` and `ciso8601` accept far more formats than `IsoTime.Parse`, which reads only the two forms the program itself writes.
- Stac.ParseTimeRange: states validity of the result and, through `Stac.ParseUnparse`, `Stac.ParseLoneDate` and `Stac.ParseLoneInstant`, what each produced form reads as; inputs in other formats are out of the model.
- `ciso8601.parse_datetime` (the reader of `cubedash/summary/_stores.py`) accepts more than the two written forms `IsoTime.Parse` reads; only written values are read back in the model.
- `str.lower()` is modelled on ASCII letters only; other letters keep their case.
- `uri_resolve`, `url_for` and the JSON `links` and `assets` of a STAC item: they build URLs, and the model keeps only the base URI they start from.
- The `/stac/search` route of `cubedash/_stac_api.py` is commented out in the source (line 104); its body is still modelled as `StacApi.StacSearchQuery`.
- A GET `bbox` arrives as text; `StacApi.TextBox` models how the code then indexes it, and parsing it as a list is out of the model.
- `strftime('%Y')` pads years below 1000 differently on different C libraries; the model renders four digits.
- JSON arrays inside PostgreSQL `#>` paths: documents are modelled as nested objects with text leaves.
- PostGIS float casts, geometry constructors and WKB output: `SpatialTable` builds the expression's parts and leaves them as symbolic points.
- SQLAlchemy's `+` on text columns is concatenation; the model writes the concatenated text directly.
- PostgreSQL's error messages, and its newer integer literal syntax (underscores, hex), are not modelled: `SpatialTable.CastInt4` reads an optional sign and decimal digits.
- The collection and root JSON documents of the STAC API are not modelled.
- The URL in the text of the 404 message is not modelled; only the status and the message's fixed part.
- `SummaryFiles.ReadSeriesOfDays`: the series keys read back as dates; the source reads them as midnight `datetime`s, which the model identifies with the date.
- A truncated or hand-edited `timeline.json`: the model reads only what the stores wrote.
- The shapefile's `id` property is written but never read back.
- Products are keyed by name in every store; the product-id lookup and insert (`_get_product_id`) are left out.
- Stores.CheckRow: when several column constraints fail at once, PostgreSQL reports one of them; the model only says that the insert fails.
- Aggregate.PyMin: which `None` comparison raises first is not recorded; every such failure is a `TypeError`.
- Stac.ValidateSearch: a GET or POST `bbox` that decodes to a JSON string, an object, or a list holding anything but numbers is not modelled; such a value of length 4 passes validation and fails later in the search, which is outside the model. A POST body is decoded before the view runs, so `Malformed` arises only for GET; the model gives it the same `ValueError` for POST.
- Time zones in `calculate_summary`: the day a dataset counts under (grouped in the Darwin time zone in the source) is a parameter of each dataset.
- `SummaryStore.update` (the day summary computed from the database) is a parameter of `Stores.FileGet`, named `computed`.
- Archived locations and their times, and the clearing of `sources` before the dataset page renders its metadata, are not modelled.
- `index.datasets.get` and `get_derived` are parameters of `DatasetView.DatasetPage`.
- The `time` column, `_insert_spatial_records` and the DDL of `cubedash/spatialtable.py`: only the two expressions that compute extents and CRSes are modelled.
- `write_total_summary`, `write_product_summary`, `_write_year_summary` and `_write_month_summary` (`cubedash/summary.py`:321-374): loops of store calls stamped with `datetime.today()`; each call they make is modelled.
- The `SummaryStore` base class that `cubedash/summary/_stores.py` imports from `cubedash/summary/_summarise.py`: no file of this revision defines it, so its database queries are not part of this model, and their results enter as parameters.
- The `cubedash-view` command line prints the table with `click.echo`; the model returns its lines.
- Utils.ParseUrlQueryArgs: every failure is a `ValueError`, but the model does not say which failing field is reported or give its message. The source raises at the first failing field, in the order the names first appear; the grouping is modelled as a map, which has no order. The field parsers (`parse_value`) are a parameter, and any failure of theirs is folded into that one `ValueError`.

## Findings

| source | as written | input that shows it | evidently intended | confidence | as-written member | corrected member |
|---|---|---|---|---|---|---|
| cubedash/spatialtable.py:27-41 | the `valid_data` key is looked up under `projection[valid_data_offset]`, where the offset already starts with the projection's own path, so the path is doubled | a document whose `grid_spatial.projection.valid_data` holds a polygon gets the corner ring, not its valid data | use the valid-data GeoJSON whenever the projection has one | not executed | SpatialTable.ExtentAsWrittenMissesValidData | SpatialTable.ExtentSpec |
| cubedash/summary/_stores.py:325-349 | `_summary_from_row` builds a `TimePeriodOverview` without `grid_dataset_counts` or `crses`, both required fields, so every read of a stored row raises `TypeError` | any summary put into the store and read back | read the row into a summary, with the fields the row does not hold set to `None` | not executed | Stores.PgPutGetAsWritten | Stores.PgPutGet |
| cubedash/summary/_stores.py:150-171 | `_read_summary` omits the same two fields, so every get of a written summary raises `TypeError` | any summary put into the file store and read back | read the files into a summary, with the fields the files do not hold set to `None` | not executed | Stores.FilePutGetAsWritten | Stores.FilePutGet |
