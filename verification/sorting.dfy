/** Python's `sorted(xs, key=f)`: a stable sort by a key under a strict total
    order. Stability is stated as "for every key value, the elements with that
    key appear in the same relative order as in the input". */
module Sorting {
  import Strings

  ghost predicate StrictTotalOrder<K(!new)>(less: (K, K) -> bool) {
    && (forall a :: !less(a, a))
    && (forall a, b, c :: less(a, b) && less(b, c) ==> less(a, c))
    && (forall a, b :: a == b || less(a, b) || less(b, a))
  }

  predicate SortedBy<T, K>(s: seq<T>, key: T -> K, less: (K, K) -> bool) {
    forall i, j :: 0 <= i < j < |s| ==> !less(key(s[j]), key(s[i]))
  }

  /** The elements of `s` whose key is `k`, in order. */
  function WithKey<T, K(==)>(s: seq<T>, key: T -> K, k: K): (r: seq<T>)
    ensures |r| <= |s|
    ensures forall i :: 0 <= i < |r| ==> key(r[i]) == k
  {
    if s == [] then []
    else (if key(s[0]) == k then [s[0]] else []) + WithKey(s[1..], key, k)
  }

  /** Puts `x` before the first element whose key is not below its own. */
  function Insert<T, K>(x: T, s: seq<T>, key: T -> K, less: (K, K) -> bool): (r: seq<T>)
    ensures multiset(r) == multiset(s) + multiset{x}
    ensures |r| == |s| + 1
  {
    if s == [] || !less(key(s[0]), key(x)) then [x] + s
    else
      assert s == [s[0]] + s[1..];
      [s[0]] + Insert(x, s[1..], key, less)
  }

  /** `sorted(s, key=key)`: insertion from the back keeps equal keys in
      input order. */
  function SortBy<T, K>(s: seq<T>, key: T -> K, less: (K, K) -> bool): (r: seq<T>)
    ensures multiset(r) == multiset(s)
    ensures |r| == |s|
  {
    if s == [] then []
    else
      assert s == [s[0]] + s[1..];
      Insert(s[0], SortBy(s[1..], key, less), key, less)
  }

  lemma {:induction false} InsertSorted<T, K(!new)>(x: T, s: seq<T>, key: T -> K, less: (K, K) -> bool)
    requires StrictTotalOrder(less)
    requires SortedBy(s, key, less)
    ensures SortedBy(Insert(x, s, key, less), key, less)
  {
    if s != [] && less(key(s[0]), key(x)) {
      var tail := Insert(x, s[1..], key, less);
      InsertSorted(x, s[1..], key, less);
      var r := [s[0]] + tail;
      forall j | 0 < j < |r|
        ensures !less(key(r[j]), key(s[0]))
      {
        assert r[j] in multiset(tail);
        assert r[j] in multiset(s[1..]) + multiset{x};
        if r[j] == x {
          assert !less(key(x), key(s[0]));
        } else {
          assert r[j] in s[1..];
          var k :| 0 <= k < |s[1..]| && s[1..][k] == r[j];
          assert s[k + 1] == r[j];
        }
      }
    }
  }

  /** The result of `SortBy` is ordered by key. */
  lemma {:induction false} SortBySorted<T, K(!new)>(s: seq<T>, key: T -> K, less: (K, K) -> bool)
    requires StrictTotalOrder(less)
    ensures SortedBy(SortBy(s, key, less), key, less)
  {
    if s != [] {
      SortBySorted(s[1..], key, less);
      InsertSorted(s[0], SortBy(s[1..], key, less), key, less);
    }
  }

  lemma {:induction false} WithKeyAppend<T, K>(a: seq<T>, b: seq<T>, key: T -> K, k: K)
    ensures WithKey(a + b, key, k) == WithKey(a, key, k) + WithKey(b, key, k)
  {
    if a == [] {
      assert a + b == b;
    } else {
      assert (a + b)[1..] == a[1..] + b;
      WithKeyAppend(a[1..], b, key, k);
    }
  }

  lemma {:induction false} InsertWithKey<T, K(!new)>(x: T, s: seq<T>, key: T -> K, less: (K, K) -> bool, k: K)
    requires StrictTotalOrder(less)
    ensures WithKey(Insert(x, s, key, less), key, k)
            == (if key(x) == k then [x] else []) + WithKey(s, key, k)
  {
    if s == [] || !less(key(s[0]), key(x)) {
      WithKeyAppend([x], s, key, k);
    } else {
      InsertWithKey(x, s[1..], key, less, k);
      var tail := Insert(x, s[1..], key, less);
      assert ([s[0]] + tail)[1..] == tail;
      assert key(s[0]) != key(x);
    }
  }

  /** `SortBy` is stable: equal keys keep their input order. */
  lemma {:induction false} SortByStable<T, K(!new)>(s: seq<T>, key: T -> K, less: (K, K) -> bool, k: K)
    requires StrictTotalOrder(less)
    ensures WithKey(SortBy(s, key, less), key, k) == WithKey(s, key, k)
  {
    if s != [] {
      SortByStable(s[1..], key, less, k);
      InsertWithKey(s[0], SortBy(s[1..], key, less), key, less, k);
    }
  }

  /** Already ordered input is returned unchanged. */
  lemma {:induction false} SortBySortedInput<T, K(!new)>(s: seq<T>, key: T -> K, less: (K, K) -> bool)
    requires StrictTotalOrder(less)
    requires SortedBy(s, key, less)
    ensures SortBy(s, key, less) == s
  {
    if s != [] {
      assert SortedBy(s[1..], key, less);
      SortBySortedInput(s[1..], key, less);
      assert s == [s[0]] + s[1..];
      if |s| > 1 {
        assert !less(key(s[1]), key(s[0]));
      }
    }
  }

  predicate IntLess(a: int, b: int) {
    a < b
  }

  lemma IntLessIsStrictTotal()
    ensures StrictTotalOrder(IntLess)
  {
  }

  /** Code-point order on strings is a strict total order. */
  lemma StringLessIsStrictTotal()
    ensures StrictTotalOrder(Strings.Less)
  {
    forall a
      ensures !Strings.Less(a, a)
    {
      Strings.LessIrreflexive(a);
    }
    forall a, b, c | Strings.Less(a, b) && Strings.Less(b, c)
      ensures Strings.Less(a, c)
    {
      Strings.LessTransitive(a, b, c);
    }
    forall a, b
      ensures a == b || Strings.Less(a, b) || Strings.Less(b, a)
    {
      Strings.LessTotal(a, b);
    }
  }
}
