/** `collections.Counter` as a finite map from keys to counts.

    A key may be present with count 0: `Counter({d: 0})` keeps it, `update`
    copies it, and `len(counter)` counts it. `Counter(iterable)` only creates
    keys that occur, so regrouping through `elements()` drops them. */
module Counters {
  import opened Calendar

  type Counter<K> = map<K, nat>

  /** `c[k]`: a missing key counts 0. */
  function Get<K>(c: Counter<K>, k: K): nat {
    if k in c then c[k] else 0
  }

  /** `a.update(b)`: counts add up key by key, and every key of either side
      is kept. */
  function Update<K(!new)>(a: Counter<K>, b: Counter<K>): (r: Counter<K>)
    ensures r.Keys == a.Keys + b.Keys
    ensures forall k :: Get(r, k) == Get(a, k) + Get(b, k)
  {
    map k | k in a.Keys + b.Keys :: Get(a, k) + Get(b, k)
  }

  /** The number of elements: the sum of all counts. */
  ghost function Total<K>(c: Counter<K>): nat
    decreases |c.Keys|
  {
    if c == map[] then 0
    else
      var k :| k in c;
      c[k] + Total(c - {k})
  }

  /** The total can be taken starting from any key. */
  lemma {:induction false} TotalRemove<K>(c: Counter<K>, k: K)
    requires k in c
    ensures Total(c) == c[k] + Total(c - {k})
    decreases |c.Keys|
  {
    var j :| j in c && Total(c) == c[j] + Total(c - {j});
    if j != k {
      TotalRemove(c - {j}, k);
      TotalRemove(c - {k}, j);
      assert c - {j} - {k} == c - {k} - {j};
    }
  }

  /** Setting one key's count. */
  lemma TotalSet<K>(c: Counter<K>, k: K, n: nat)
    ensures Total(c[k := n]) == n + Total(c - {k})
  {
    TotalRemove(c[k := n], k);
    assert c[k := n] - {k} == c - {k};
  }

  /** Adding `n` to one key's count adds `n` to the total. */
  lemma TotalAdd<K>(c: Counter<K>, k: K, n: nat)
    ensures Total(c[k := Get(c, k) + n]) == Total(c) + n
  {
    TotalSet(c, k, Get(c, k) + n);
    if k in c {
      TotalRemove(c, k);
    } else {
      assert c - {k} == c;
    }
  }

  /** `update` with one key taken out of the left side, then put back. */
  lemma UpdateSplit<K(!new)>(a: Counter<K>, b: Counter<K>, k: K)
    requires k in a
    ensures var u := Update(a - {k}, b);
            Update(a, b) == u[k := Get(u, k) + a[k]]
  {
  }

  /** One key of the left side adds its count to the total of `update`. */
  lemma TotalUpdateStep<K(!new)>(a: Counter<K>, b: Counter<K>, k: K)
    requires k in a
    ensures Total(Update(a, b)) == Total(Update(a - {k}, b)) + a[k]
  {
    hide Update, Get, Total;
    var u := Update(a - {k}, b);
    UpdateSplit(a, b, k);
    TotalAdd(u, k, a[k]);
  }

  /** `update` adds the totals. */
  lemma {:induction false} TotalUpdate<K(!new)>(a: Counter<K>, b: Counter<K>)
    ensures Total(Update(a, b)) == Total(a) + Total(b)
    decreases |a.Keys|
  {
    if a == map[] {
      assert Update(a, b) == b;
    } else {
      var k :| k in a;
      var a' := a - {k};
      assert |a'.Keys| < |a.Keys|;
      TotalUpdate(a', b);
      TotalUpdateStep(a, b, k);
      TotalRemove(a, k);
    }
  }

  // ---------------------------------------------------------------------
  // Regrouping date keys: `Counter(f(d) for d in counter.elements())`

  lemma DateLessTransitive(a: Date, b: Date, c: Date)
    requires DateLess(a, b) && DateLess(b, c)
    ensures DateLess(a, c)
  {
  }

  lemma DateLessIrreflexive(a: Date)
    ensures !DateLess(a, a)
  {
  }

  lemma DateLessTotal(a: Date, b: Date)
    ensures a == b || DateLess(a, b) || DateLess(b, a)
  {
  }

  /** Every finite non-empty set of dates has a chronologically first one. */
  lemma {:induction false} HasFirstDate(s: set<Date>)
    requires s != {}
    ensures exists d :: d in s && forall e :: e in s ==> !DateLess(e, d)
    decreases |s|
  {
    var x :| x in s;
    DateLessIrreflexive(x);
    hide DateLess;
    if s == {x} {
      assert forall e :: e in s ==> !DateLess(e, x);
    } else {
      HasFirstDate(s - {x});
      var m :| m in s - {x} && forall e :: e in s - {x} ==> !DateLess(e, m);
      if DateLess(x, m) {
        forall e | e in s
          ensures !DateLess(e, x)
        {
          if e != x && DateLess(e, x) {
            DateLessTransitive(e, x, m);
          }
        }
      } else {
        assert forall e :: e in s ==> !DateLess(e, m);
      }
    }
  }

  /** The chronologically first date of a non-empty set. */
  function FirstDate(s: set<Date>): (d: Date)
    requires s != {}
    ensures d in s
    ensures forall e :: e in s ==> !DateLess(e, d)
  {
    HasFirstDate(s);
    var d :| d in s && forall e :: e in s ==> !DateLess(e, d);
    d
  }

  /** The dates of a set in increasing order: `sorted(s)`. */
  function SortedDates(s: set<Date>): (r: seq<Date>)
    ensures |r| == |s|
    ensures forall d :: d in s <==> d in r
    ensures forall i, j :: 0 <= i < j < |r| ==> DateLess(r[i], r[j])
    decreases |s|
  {
    if s == {} then []
    else
      var d := FirstDate(s);
      var rest := SortedDates(s - {d});
      assert forall e :: e in rest ==> DateLess(d, e) by {
        forall e | e in rest
          ensures DateLess(d, e)
        {
          DateLessTotal(d, e);
        }
      }
      [d] + rest
  }

  /** `n` more elements under key `g`; adding none creates no key. */
  function Bump<K>(m: Counter<K>, g: K, n: nat): Counter<K> {
    if n == 0 then m else m[g := Get(m, g) + n]
  }

  lemma TotalBump<K>(m: Counter<K>, g: K, n: nat)
    ensures Total(Bump(m, g, n)) == Total(m) + n
  {
    if n > 0 {
      TotalAdd(m, g, n);
    }
  }

  /** The elements of `c` (each key repeated by its count), each mapped by
      `f`, counted afresh. */
  function Regroup(c: Counter<Date>, f: Date -> Date): Counter<Date>
    decreases |c.Keys|
  {
    if c == map[] then map[]
    else
      var d := FirstDate(c.Keys);
      Bump(Regroup(c - {d}, f), f(d), c[d])
  }

  /** The part of `c` that `f` sends to `g`. */
  function Bucket(c: Counter<Date>, f: Date -> Date, g: Date): Counter<Date> {
    map d | d in c && f(d) == g :: c[d]
  }

  /** Regrouping keeps the number of elements. */
  lemma {:induction false} RegroupTotal(c: Counter<Date>, f: Date -> Date)
    ensures Total(Regroup(c, f)) == Total(c)
    decreases |c.Keys|
  {
    if c != map[] {
      var d := FirstDate(c.Keys);
      var r := Regroup(c - {d}, f);
      assert Regroup(c, f) == Bump(r, f(d), c[d]);
      hide Total, Regroup;
      RegroupTotal(c - {d}, f);
      TotalRemove(c, d);
      TotalBump(r, f(d), c[d]);
    }
  }

  /** Taking the first date out of the bucket it falls in. */
  lemma BucketSplit(c: Counter<Date>, f: Date -> Date, g: Date, d: Date)
    requires d in c
    ensures f(d) == g ==> Bucket(c, f, g) == Bucket(c - {d}, f, g)[d := c[d]]
    ensures f(d) != g ==> Bucket(c, f, g) == Bucket(c - {d}, f, g)
    ensures d !in Bucket(c - {d}, f, g)
  {
  }

  /** Each new key counts exactly the elements `f` sends to it. */
  lemma {:induction false} RegroupBuckets(c: Counter<Date>, f: Date -> Date, g: Date)
    ensures Get(Regroup(c, f), g) == Total(Bucket(c, f, g))
    decreases |c.Keys|
  {
    if c == map[] {
      assert Bucket(c, f, g) == map[];
    } else {
      var d := FirstDate(c.Keys);
      RegroupBuckets(c - {d}, f, g);
      BucketSplit(c, f, g, d);
      if f(d) == g {
        var b := Bucket(c - {d}, f, g);
        TotalSet(b, d, c[d]);
        assert b - {d} == b;
      }
    }
  }

  /** A key is present after regrouping exactly when some element is sent
      to it. */
  lemma {:induction false} RegroupKeys(c: Counter<Date>, f: Date -> Date, g: Date)
    ensures g in Regroup(c, f) <==> exists d :: d in c && c[d] > 0 && f(d) == g
    decreases |c.Keys|
  {
    if c != map[] {
      var d := FirstDate(c.Keys);
      var c' := c - {d};
      RegroupKeys(c', f, g);
      if g in Regroup(c', f) {
        var e :| e in c' && c'[e] > 0 && f(e) == g;
        assert e in c && c[e] > 0;
      }
      if exists e :: e in c && c[e] > 0 && f(e) == g {
        var e :| e in c && c[e] > 0 && f(e) == g;
        if e != d {
          assert e in c' && c'[e] > 0;
        }
      }
    }
  }

  /** Every count after regrouping is positive. */
  lemma {:induction false} RegroupPositive(c: Counter<Date>, f: Date -> Date)
    ensures forall g :: g in Regroup(c, f) ==> Regroup(c, f)[g] > 0
    decreases |c.Keys|
  {
    if c != map[] {
      RegroupPositive(c - {FirstDate(c.Keys)}, f);
    }
  }

  /** The first of a date's month. */
  function MonthOf(d: Date): Date {
    Date(d.year, d.month, 1)
  }

  /** January 1st of a date's year. */
  function YearOf(d: Date): Date {
    Date(d.year, 1, 1)
  }

  // ---------------------------------------------------------------------
  // Counting a list: `Counter(xs)`

  /** `Counter(xs)`: each element counted as often as it occurs. */
  function CounterOf<K(!new)>(xs: seq<K>): (r: Counter<K>)
    ensures forall k :: k in r <==> k in xs
    ensures forall k :: Get(r, k) == multiset(xs)[k]
  {
    if |xs| == 0 then map[]
    else
      var n := |xs| - 1;
      assert xs == xs[..n] + [xs[n]];
      Bump(CounterOf(xs[..n]), xs[n], 1)
  }

  /** A counted list has as many elements as the list. */
  lemma {:induction false} CounterOfTotal<K(!new)>(xs: seq<K>)
    ensures Total(CounterOf(xs)) == |xs|
  {
    if |xs| > 0 {
      var n := |xs| - 1;
      CounterOfTotal(xs[..n]);
      TotalBump(CounterOf(xs[..n]), xs[n], 1);
    }
  }
}
