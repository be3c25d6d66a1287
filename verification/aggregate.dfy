/** The folds `TimePeriodOverview.add_periods` is built from, in every
    revision: `sum`, `Counter.update` over a list, `min`/`max` over
    date-times (which raise `TypeError` once `None` meets a date-time), the
    `default=None` variants that skip `None`, and `set.union`. */
module Aggregate {
  import opened Wrappers
  import opened Calendar
  import opened Counters

  /** `datacube.model.Range`: a pair whose ends may be `None`. */
  datatype Range = Range(begin: Option<DateTime>, end: Option<DateTime>)

  /** A cell of the dataset grid; the code only ever builds it from integer
      tile indices. */
  datatype GridCell = GridCell(x: int, y: int)

  /** `sum(xs)`, added up from the left. */
  function Sum(xs: seq<int>): int {
    if |xs| == 0 then 0 else Sum(xs[..|xs| - 1]) + xs[|xs| - 1]
  }

  lemma {:induction false} SumAppend(xs: seq<int>, ys: seq<int>)
    ensures Sum(xs + ys) == Sum(xs) + Sum(ys)
    decreases |ys|
  {
    if |ys| == 0 {
      assert xs + ys == xs;
    } else {
      var n := |ys| - 1;
      assert (xs + ys)[..|xs + ys| - 1] == xs + ys[..n];
      SumAppend(xs, ys[..n]);
    }
  }

  lemma {:induction false} SumNonNegative(xs: seq<int>)
    requires forall i :: 0 <= i < |xs| ==> xs[i] >= 0
    ensures Sum(xs) >= 0
  {
    if |xs| > 0 {
      SumNonNegative(xs[..|xs| - 1]);
    }
  }

  /** `sum(x for x in xs if x is not None)`. */
  function SumPresent(xs: seq<Option<int>>): (r: int)
    ensures (forall i :: 0 <= i < |xs| ==> xs[i].None?) ==> r == 0
  {
    if |xs| == 0 then 0
    else SumPresent(xs[..|xs| - 1]) + xs[|xs| - 1].GetOr(0)
  }

  // ---------------------------------------------------------------------
  // The children that take part in a merge

  /** `[p for p in periods if p is not None and p.dataset_count > 0]`, the
      count of a child read by `count`. */
  function NonEmptyPeriods<T(!new)>(periods: seq<Option<T>>, count: T -> int): (ps: seq<T>)
    ensures forall p :: p in ps <==> Some(p) in periods && count(p) > 0
  {
    if |periods| == 0 then []
    else
      var init := periods[..|periods| - 1];
      var last := periods[|periods| - 1];
      assert periods == init + [last];
      if last.Some? && count(last.value) > 0 then NonEmptyPeriods(init, count) + [last.value]
      else NonEmptyPeriods(init, count)
  }

  /** Without a non-empty child nothing takes part. */
  lemma {:induction false} NonEmptyPeriodsNone<T(!new)>(periods: seq<Option<T>>, count: T -> int)
    requires forall i :: 0 <= i < |periods| ==> periods[i].None? || count(periods[i].value) <= 0
    ensures NonEmptyPeriods(periods, count) == []
  {
    if |periods| > 0 {
      NonEmptyPeriodsNone(periods[..|periods| - 1], count);
    }
  }

  // ---------------------------------------------------------------------
  // Counter.update over a list

  /** `c = Counter(); for x in cs: c.update(x)`. */
  function UpdateAll<K(!new)>(cs: seq<Counter<K>>): (r: Counter<K>)
    ensures forall k :: k in r <==> exists i :: 0 <= i < |cs| && k in cs[i]
  {
    if |cs| == 0 then map[]
    else
      var r := Update(UpdateAll(cs[..|cs| - 1]), cs[|cs| - 1]);
      assert forall i :: 0 <= i < |cs| - 1 ==> cs[..|cs| - 1][i] == cs[i];
      r
  }

  /** How often `k` occurs in each counter. */
  function CountsOf<K>(cs: seq<Counter<K>>, k: K): (r: seq<int>)
    ensures |r| == |cs|
  {
    seq(|cs|, i requires 0 <= i < |cs| => Get(cs[i], k))
  }

  /** The folded counter holds each key as often as all counters together. */
  lemma {:induction false} UpdateAllCounts<K(!new)>(cs: seq<Counter<K>>, k: K)
    ensures Get(UpdateAll(cs), k) == Sum(CountsOf(cs, k))
  {
    if |cs| > 0 {
      var n := |cs| - 1;
      UpdateAllCounts(cs[..n], k);
      assert CountsOf(cs, k)[..n] == CountsOf(cs[..n], k);
    }
  }

  /** Every element of every counter, as a number. */
  ghost function TotalsOf<K>(cs: seq<Counter<K>>): (r: seq<int>)
    ensures |r| == |cs|
  {
    seq(|cs|, i requires 0 <= i < |cs| => Total(cs[i]))
  }

  /** The folded counter has as many elements as all counters together. */
  lemma {:induction false} UpdateAllTotal<K(!new)>(cs: seq<Counter<K>>)
    ensures Total(UpdateAll(cs)) == Sum(TotalsOf(cs))
  {
    if |cs| > 0 {
      var n := |cs| - 1;
      UpdateAllTotal(cs[..n]);
      assert TotalsOf(cs)[..n] == TotalsOf(cs[..n]);
      TotalUpdate(UpdateAll(cs[..n]), cs[n]);
    }
  }

  // ---------------------------------------------------------------------
  // min and max

  /** `min(xs)` over date-times that may be `None`: a single element is
      returned without comparing it; otherwise every element is compared and
      any `None` raises `TypeError`. */
  function PyMin(xs: seq<Option<DateTime>>): (r: Result<Option<DateTime>>)
    requires |xs| > 0
    ensures r.Ok? <==> |xs| == 1 || forall i :: 0 <= i < |xs| ==> xs[i].Some?
    ensures r.Err? ==> r.error == TypeError
    ensures r.Ok? ==> r.value in xs
    ensures r.Ok? && |xs| > 1 ==>
              r.value.Some? && forall i :: 0 <= i < |xs| ==> LessEq(r.value.value, xs[i].value)
  {
    if |xs| == 1 then Ok(xs[0])
    else
      var init := xs[..|xs| - 1];
      var x := xs[|xs| - 1];
      assert forall i :: 0 <= i < |init| ==> init[i] == xs[i];
      var m := PyMin(init);
      if m.Err? || m.value.None? || x.None? then Err(TypeError)
      else
        forall i | 0 <= i < |xs|
          ensures LessEq(Min(m.value.value, x.value), xs[i].value)
        {
          if i < |init| {
            LessIsStrictTotalOrder(Min(m.value.value, x.value), m.value.value, xs[i].value);
          }
        }
        Ok(Some(Min(m.value.value, x.value)))
  }

  /** `max(xs)`, with the same `TypeError` rule as `PyMin`. */
  function PyMax(xs: seq<Option<DateTime>>): (r: Result<Option<DateTime>>)
    requires |xs| > 0
    ensures r.Ok? <==> |xs| == 1 || forall i :: 0 <= i < |xs| ==> xs[i].Some?
    ensures r.Err? ==> r.error == TypeError
    ensures r.Ok? ==> r.value in xs
    ensures r.Ok? && |xs| > 1 ==>
              r.value.Some? && forall i :: 0 <= i < |xs| ==> LessEq(xs[i].value, r.value.value)
  {
    if |xs| == 1 then Ok(xs[0])
    else
      var init := xs[..|xs| - 1];
      var x := xs[|xs| - 1];
      assert forall i :: 0 <= i < |init| ==> init[i] == xs[i];
      var m := PyMax(init);
      if m.Err? || m.value.None? || x.None? then Err(TypeError)
      else
        forall i | 0 <= i < |xs|
          ensures LessEq(xs[i].value, Max(m.value.value, x.value))
        {
          if i < |init| {
            LessIsStrictTotalOrder(xs[i].value, m.value.value, Max(m.value.value, x.value));
          }
        }
        Ok(Some(Max(m.value.value, x.value)))
  }

  /** The begins of ranges that are all present. */
  function BeginsOf(rs: seq<Option<Range>>): (r: seq<Option<DateTime>>)
    requires forall i :: 0 <= i < |rs| ==> rs[i].Some?
    ensures |r| == |rs| && forall i :: 0 <= i < |rs| ==> r[i] == rs[i].value.begin
  {
    seq(|rs|, i requires 0 <= i < |rs| && rs[i].Some? => rs[i].value.begin)
  }

  /** `min(r.time_range.begin for r in periods)`, where a child's range may
      be `None`. The generator reads a child's range only when `min` asks
      for it, after every earlier comparison: a missing range raises
      `AttributeError` only if no comparison has already raised
      `TypeError`. */
  function MinBegin(rs: seq<Option<Range>>): (r: Result<Option<DateTime>>)
    requires |rs| > 0
    ensures r.Ok? ==> forall i :: 0 <= i < |rs| ==> rs[i].Some?
    ensures r.Err? ==> r.error == AttributeError || r.error == TypeError
  {
    if |rs| == 1 then
      if rs[0].None? then Err(AttributeError) else Ok(rs[0].value.begin)
    else
      var init := rs[..|rs| - 1];
      var x := rs[|rs| - 1];
      var m :- MinBegin(init);
      if x.None? then Err(AttributeError)
      else if m.None? || x.value.begin.None? then Err(TypeError)
      else Ok(Some(Min(m.value, x.value.begin.value)))
  }

  /** When every child has a range, the lazy `min` is `min` over the
      begins. */
  lemma {:induction false} MinBeginAllRanged(rs: seq<Option<Range>>)
    requires |rs| > 0 && forall i :: 0 <= i < |rs| ==> rs[i].Some?
    ensures MinBegin(rs) == PyMin(BeginsOf(rs))
  {
    if |rs| > 1 {
      var init := rs[..|rs| - 1];
      MinBeginAllRanged(init);
      assert BeginsOf(rs)[..|rs| - 1] == BeginsOf(init);
    }
  }

  /** Which error a missing range gives: with `k` the first child without
      a range, `AttributeError` exactly when the children before it
      compare (one of them, or all with a begin); otherwise the earlier
      `TypeError`. */
  lemma {:induction false} MinBeginMissingRange(rs: seq<Option<Range>>, k: nat)
    requires k < |rs| && rs[k].None?
    requires forall i :: 0 <= i < k ==> rs[i].Some?
    ensures MinBegin(rs) == (if k <= 1 || forall i :: 0 <= i < k ==> rs[i].value.begin.Some?
                             then Err(AttributeError) else Err(TypeError))
  {
    if |rs| > 1 {
      var init := rs[..|rs| - 1];
      if k < |rs| - 1 {
        MinBeginMissingRange(init, k);
      } else {
        MinBeginAllRanged(init);
        assert forall i :: 0 <= i < |init| ==> BeginsOf(init)[i] == rs[i].value.begin;
      }
    }
  }

  /** The lazy order on a concrete case: the second child's begin is
      compared with the first one's `None` before the third child's missing
      range is read. */
  lemma MinBeginComparesFirst(x: DateTime, e: Option<DateTime>)
    ensures MinBegin([Some(Range(None, e)), Some(Range(Some(x), e)), None]) == Err(TypeError)
  {
    var rs := [Some(Range(None, e)), Some(Range(Some(x), e)), None];
    MinBeginMissingRange(rs, 2);
    assert rs[0].value.begin.None?;
  }

  /** `max((x for x in xs if x is not None), default=None)`. */
  function MaxPresent(xs: seq<Option<DateTime>>): (r: Option<DateTime>)
    ensures r.None? <==> forall i :: 0 <= i < |xs| ==> xs[i].None?
    ensures r.Some? ==> r in xs
    ensures r.Some? ==> forall i :: 0 <= i < |xs| && xs[i].Some? ==> LessEq(xs[i].value, r.value)
  {
    if |xs| == 0 then None
    else
      var init := xs[..|xs| - 1];
      var x := xs[|xs| - 1];
      assert forall i :: 0 <= i < |init| ==> init[i] == xs[i];
      var m := MaxPresent(init);
      if x.None? then m
      else if m.None? then x
      else
        forall i | 0 <= i < |xs| && xs[i].Some?
          ensures LessEq(xs[i].value, Max(m.value, x.value))
        {
          if i < |init| {
            LessIsStrictTotalOrder(xs[i].value, m.value, Max(m.value, x.value));
          }
        }
        Some(Max(m.value, x.value))
  }

  /** `min((x for x in xs if x is not None), default=None)`. */
  function MinPresent(xs: seq<Option<DateTime>>): (r: Option<DateTime>)
    ensures r.None? <==> forall i :: 0 <= i < |xs| ==> xs[i].None?
    ensures r.Some? ==> r in xs
    ensures r.Some? ==> forall i :: 0 <= i < |xs| && xs[i].Some? ==> LessEq(r.value, xs[i].value)
  {
    if |xs| == 0 then None
    else
      var init := xs[..|xs| - 1];
      var x := xs[|xs| - 1];
      assert forall i :: 0 <= i < |init| ==> init[i] == xs[i];
      var m := MinPresent(init);
      if x.None? then m
      else if m.None? then x
      else
        forall i | 0 <= i < |xs| && xs[i].Some?
          ensures LessEq(Min(m.value, x.value), xs[i].value)
        {
          if i < |init| {
            LessIsStrictTotalOrder(Min(m.value, x.value), m.value, xs[i].value);
          }
        }
        Some(Min(m.value, x.value))
  }

  // ---------------------------------------------------------------------
  // set.union

  /** The union of a list of sets. */
  function Union(xs: seq<set<string>>): (r: set<string>)
    ensures forall c :: c in r <==> exists i :: 0 <= i < |xs| && c in xs[i]
  {
    if |xs| == 0 then {}
    else
      var init := xs[..|xs| - 1];
      assert forall i :: 0 <= i < |init| ==> init[i] == xs[i];
      Union(init) + xs[|xs| - 1]
  }

  /** `set.union(*xs)`: `TypeError` without arguments or when one of them is
      `None`. */
  function PyUnion(xs: seq<Option<set<string>>>): (r: Result<set<string>>)
    ensures r.Ok? <==> |xs| > 0 && forall i :: 0 <= i < |xs| ==> xs[i].Some?
    ensures r.Ok? ==> forall c :: c in r.value <==> exists i :: 0 <= i < |xs| && c in xs[i].value
  {
    if |xs| > 0 && forall i :: 0 <= i < |xs| ==> xs[i].Some? then
      var sets := seq(|xs|, i requires 0 <= i < |xs| => xs[i].value);
      assert forall i :: 0 <= i < |xs| ==> sets[i] == xs[i].value;
      Ok(Union(sets))
    else Err(TypeError)
  }

  // ---------------------------------------------------------------------
  // _group_counter_if_needed (the same in summary/_model.py and
  // summary/_summarise.py)

  /** More keys than this and a day or month timeline is coarsened. */
  const GroupingThreshold: int := 365

  /** Coarsens a timeline of more than 365 keys: days become first-of-month
      buckets with period `month`, months become January-1st buckets with
      period `year`. Zero-count keys count towards the threshold (`len`), but
      disappear in the regrouped counter (`elements()`). */
  function GroupCounterIfNeeded(counter: Counter<Date>, period: string): (r: (Counter<Date>, string))
    ensures !(|counter| > GroupingThreshold && (period == "day" || period == "month")) ==>
              r == (counter, period)
    ensures |counter| > GroupingThreshold && period == "day" ==>
              r.1 == "month" && forall g :: g in r.0 ==> g.day == 1
    ensures |counter| > GroupingThreshold && period == "month" ==>
              r.1 == "year" && forall g :: g in r.0 ==> g.month == 1 && g.day == 1
    ensures r.1 != period ==> forall g :: g in r.0 ==> r.0[g] > 0
    ensures Total(r.0) == Total(counter)
    ensures |counter| > GroupingThreshold && period == "day" ==>
              && r.0 == Regroup(counter, MonthOf)
              && forall g :: Get(r.0, g) == Total(Bucket(counter, MonthOf, g))
    ensures |counter| > GroupingThreshold && period == "month" ==>
              && r.0 == Regroup(counter, YearOf)
              && forall g :: Get(r.0, g) == Total(Bucket(counter, YearOf, g))
  {
    if |counter| > GroupingThreshold && period == "day" then
      var c := Regroup(counter, MonthOf);
      RegroupTotal(counter, MonthOf);
      RegroupPositive(counter, MonthOf);
      forall g | g in c
        ensures g.day == 1
      {
        RegroupKeys(counter, MonthOf, g);
      }
      forall g
        ensures Get(c, g) == Total(Bucket(counter, MonthOf, g))
      {
        RegroupBuckets(counter, MonthOf, g);
      }
      (c, "month")
    else if |counter| > GroupingThreshold && period == "month" then
      var c := Regroup(counter, YearOf);
      RegroupTotal(counter, YearOf);
      RegroupPositive(counter, YearOf);
      forall g | g in c
        ensures g.month == 1 && g.day == 1
      {
        RegroupKeys(counter, YearOf, g);
      }
      forall g
        ensures Get(c, g) == Total(Bucket(counter, YearOf, g))
      {
        RegroupBuckets(counter, YearOf, g);
      }
      (c, "year")
    else
      (counter, period)
  }
}
