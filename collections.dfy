/** Sequence helpers standing in for the JavaScript array library calls the
    source uses: `filter`, `findIndex`/`indexOf`, and `sort` with a numeric
    comparator `(a, b) => key(a) - key(b)`.

    Since ES2019 `Array.prototype.sort` is stable, so a comparator sort is
    modelled by a stable insertion sort on an integer key. */
module Collections {

  /** `s.filter(p)`: the elements of `s` satisfying `p`, in their order. */
  function Filter<T>(s: seq<T>, p: T -> bool): (r: seq<T>)
    ensures |r| <= |s|
    ensures forall i :: 0 <= i < |r| ==> p(r[i])
  {
    if s == [] then []
    else
      assert s == [s[0]] + s[1..];
      if p(s[0]) then [s[0]] + Filter(s[1..], p) else Filter(s[1..], p)
  }

  lemma {:induction false} FilterAppend<T>(a: seq<T>, b: seq<T>, p: T -> bool)
    ensures Filter(a + b, p) == Filter(a, p) + Filter(b, p)
  {
    if a == [] {
      assert a + b == b;
    } else {
      assert (a + b)[1..] == a[1..] + b;
      FilterAppend(a[1..], b, p);
    }
  }

  /** The filter keeps exactly the members of `s` that satisfy `p`. */
  lemma {:induction false} FilterMembership<T>(s: seq<T>, p: T -> bool)
    ensures forall x :: x in Filter(s, p) <==> x in s && p(x)
  {
    if s != [] {
      FilterMembership(s[1..], p);
      assert forall x :: x in s ==> x == s[0] || x in s[1..];
    }
  }

  /** `s.indexOf(v)` / `s.findIndex(x => x === v)`: the first index holding
      `v`, or -1 when there is none. */
  function IndexOf<T(==)>(s: seq<T>, v: T): (i: int)
    ensures -1 <= i < |s|
    ensures i >= 0 ==> s[i] == v && forall j :: 0 <= j < i ==> s[j] != v
    ensures i == -1 <==> v !in s
  {
    if s == [] then -1
    else if s[0] == v then 0
    else
      var k := IndexOf(s[1..], v);
      if k == -1 then -1 else k + 1
  }

  /** Appending an element leaves the first index of an earlier value
      alone, and a new value is first found at the end. */
  lemma IndexOfSnoc<T>(s: seq<T>, x: T, v: T)
    requires v in s || v == x
    ensures IndexOf(s + [x], v) == if v in s then IndexOf(s, v) else |s|
  {
    var k := IndexOf(s, v);
    if v in s {
      assert (s + [x])[k] == v;
    } else {
      assert (s + [x])[|s|] == v;
    }
  }

  /** `Array.from({ length: n }, (_, i) => i)`. */
  function Range(n: nat): seq<int>
  {
    seq(n, i => i)
  }

  ghost predicate SortedByKey<T>(s: seq<T>, key: T -> int)
  {
    forall i, j :: 0 <= i < j < |s| ==> key(s[i]) <= key(s[j])
  }

  /** Where a stable insertion puts `x`: before the first element whose key
      is greater than `key(x)`. */
  function InsertionPoint<T>(x: T, s: seq<T>, key: T -> int): (k: nat)
    ensures k <= |s|
    ensures forall i :: 0 <= i < k ==> key(s[i]) <= key(x)
    ensures k < |s| ==> key(x) < key(s[k])
  {
    if s == [] || key(x) < key(s[0]) then 0
    else 1 + InsertionPoint(x, s[1..], key)
  }

  function Insert<T>(x: T, s: seq<T>, key: T -> int): (r: seq<T>)
    ensures |r| == |s| + 1
  {
    var k := InsertionPoint(x, s, key);
    s[..k] + [x] + s[k..]
  }

  /** Insertion adds `x` and keeps every element of `s`. */
  lemma InsertPermutes<T>(x: T, s: seq<T>, key: T -> int)
    ensures multiset(Insert(x, s, key)) == multiset(s) + multiset{x}
  {
    var k := InsertionPoint(x, s, key);
    assert s == s[..k] + s[k..];
  }

  /** Insertion into a key-sorted sequence keeps it key-sorted. */
  lemma InsertSorted<T>(x: T, s: seq<T>, key: T -> int)
    requires SortedByKey(s, key)
    ensures SortedByKey(Insert(x, s, key), key)
  {
    var k := InsertionPoint(x, s, key);
    var r := Insert(x, s, key);
    assert forall m :: 0 <= m < k ==> r[m] == s[m];
    assert r[k] == x;
    assert forall m :: k < m < |r| ==> r[m] == s[m - 1];
    forall i, j | 0 <= i < j < |r|
      ensures key(r[i]) <= key(r[j])
    {
      if j < k {
        assert r[i] == s[i] && r[j] == s[j];
      } else if j == k {
        assert r[i] == s[i];
      } else if i < k {
        assert r[i] == s[i] && r[j] == s[j - 1];
      } else if i == k {
        assert r[j] == s[j - 1] && key(s[k]) <= key(s[j - 1]);
      } else {
        assert r[i] == s[i - 1] && r[j] == s[j - 1];
      }
    }
  }

  /** `s.sort((a, b) => key(a) - key(b))`: each element, in input order, is
      inserted after every element already placed whose key is not greater. */
  function SortByKey<T>(s: seq<T>, key: T -> int): (r: seq<T>)
    ensures |r| == |s|
    ensures multiset(r) == multiset(s)
    ensures SortedByKey(r, key)
  {
    if s == [] then []
    else
      var init, last := s[..|s| - 1], s[|s| - 1];
      var t := SortByKey(init, key);
      assert multiset(s) == multiset(init) + multiset{last} by { assert s == init + [last]; }
      assert multiset(Insert(last, t, key)) == multiset(s) by { InsertPermutes(last, t, key); }
      assert SortedByKey(Insert(last, t, key), key) by { InsertSorted(last, t, key); }
      Insert(last, t, key)
  }

  /** A single element is already sorted. */
  lemma SortOfOne<T>(x: T, key: T -> int)
    ensures SortByKey([x], key) == [x]
  {
    assert [x][..0] == [];
  }

  /** Sorting keeps every element, so a property of all elements survives it. */
  lemma SortByKeyAll<T>(s: seq<T>, key: T -> int, p: T -> bool)
    requires forall i :: 0 <= i < |s| ==> p(s[i])
    ensures forall i :: 0 <= i < |SortByKey(s, key)| ==> p(SortByKey(s, key)[i])
  {
    var r := SortByKey(s, key);
    forall i | 0 <= i < |r|
      ensures p(r[i])
    {
      assert r[i] in multiset(r);
      assert r[i] in multiset(s);
      var j :| 0 <= j < |s| && s[j] == r[i];
    }
  }

  /** The elements of `s` whose key is `k`, in their order. */
  function WithKey<T>(s: seq<T>, key: T -> int, k: int): seq<T>
  {
    if s == [] then []
    else if key(s[0]) == k then [s[0]] + WithKey(s[1..], key, k)
    else WithKey(s[1..], key, k)
  }

  lemma {:induction false} WithKeyAppend<T>(a: seq<T>, b: seq<T>, key: T -> int, k: int)
    ensures WithKey(a + b, key, k) == WithKey(a, key, k) + WithKey(b, key, k)
  {
    if a == [] {
      assert a + b == b;
    } else {
      assert (a + b)[1..] == a[1..] + b;
      WithKeyAppend(a[1..], b, key, k);
    }
  }

  lemma {:induction false} WithKeyAbsent<T>(s: seq<T>, key: T -> int, k: int)
    requires forall i :: 0 <= i < |s| ==> key(s[i]) != k
    ensures WithKey(s, key, k) == []
  {
    if s != [] {
      WithKeyAbsent(s[1..], key, k);
    }
  }

  lemma AboveInsertionPoint<T>(x: T, s: seq<T>, key: T -> int)
    requires SortedByKey(s, key)
    ensures forall i :: InsertionPoint(x, s, key) <= i < |s| ==> key(x) < key(s[i])
  {
    var p := InsertionPoint(x, s, key);
    forall i | p <= i < |s|
      ensures key(x) < key(s[i])
    {
      assert key(s[p]) <= key(s[i]);
    }
  }

  /** Insertion splits `s` at the insertion point, and so does selecting a
      key. */
  lemma WithKeyAtInsertionPoint<T>(x: T, s: seq<T>, key: T -> int, k: int)
    ensures var p := InsertionPoint(x, s, key);
      && WithKey(Insert(x, s, key), key, k) == WithKey(s[..p], key, k) + WithKey([x], key, k) + WithKey(s[p..], key, k)
      && WithKey(s, key, k) == WithKey(s[..p], key, k) + WithKey(s[p..], key, k)
  {
    var p := InsertionPoint(x, s, key);
    var lo, hi := s[..p], s[p..];
    assert s == lo + hi;
    assert Insert(x, s, key) == lo + ([x] + hi);
    WithKeyAppend(lo, [x] + hi, key, k);
    WithKeyAppend([x], hi, key, k);
    WithKeyAppend(lo, hi, key, k);
  }

  /** Past the insertion point of `x` in a sorted sequence no key equals
      `key(x)`. */
  lemma KeyAbsentAfterInsertionPoint<T>(x: T, s: seq<T>, key: T -> int)
    requires SortedByKey(s, key)
    ensures WithKey(s[InsertionPoint(x, s, key)..], key, key(x)) == []
  {
    var hi := s[InsertionPoint(x, s, key)..];
    AboveInsertionPoint(x, s, key);
    assert forall i :: 0 <= i < |hi| ==> key(hi[i]) != key(x) by {
      assert forall i :: 0 <= i < |hi| ==> hi[i] == s[InsertionPoint(x, s, key) + i];
    }
    WithKeyAbsent(hi, key, key(x));
  }

  lemma InsertWithKey<T>(x: T, s: seq<T>, key: T -> int, k: int)
    requires SortedByKey(s, key)
    ensures WithKey(Insert(x, s, key), key, k)
         == WithKey(s, key, k) + (if key(x) == k then [x] else [])
  {
    var p := InsertionPoint(x, s, key);
    WithKeyAtInsertionPoint(x, s, key, k);
    var wl, wx, wh := WithKey(s[..p], key, k), WithKey([x], key, k), WithKey(s[p..], key, k);
    assert wx == if key(x) == k then [x] else [] by {
      assert [x][1..] == [];
    }
    if key(x) == k {
      KeyAbsentAfterInsertionPoint(x, s, key);
      assert wl + wx + wh == (wl + wh) + [x];
    } else {
      assert wl + wx + wh == wl + wh;
    }
  }

  /** One insertion step of the stable sort: inserting `x` into a sorted
      arrangement of `s` selects, for each key, what `s + [x]` selects. */
  lemma StableStep<T>(s: seq<T>, x: T, t: seq<T>, key: T -> int, k: int)
    requires SortedByKey(t, key)
    requires WithKey(t, key, k) == WithKey(s, key, k)
    ensures WithKey(Insert(x, t, key), key, k) == WithKey(s + [x], key, k)
  {
    InsertWithKey(x, t, key, k);
    WithKeyAppend(s, [x], key, k);
    assert WithKey([x], key, k) == if key(x) == k then [x] else [] by {
      assert [x][1..] == [];
    }
  }

  /** Stability: among elements with equal keys the sort keeps input order. */
  lemma {:induction false} SortByKeyStable<T>(s: seq<T>, key: T -> int, k: int)
    ensures WithKey(SortByKey(s, key), key, k) == WithKey(s, key, k)
  {
    if s != [] {
      var init, last := s[..|s| - 1], s[|s| - 1];
      SortByKeyStable(init, key, k);
      StableStep(init, last, SortByKey(init, key), key, k);
      assert s == init + [last];
    }
  }

  /** Sorting a sequence that is already in key order changes nothing. */
  lemma {:induction false} SortByKeyOfSorted<T>(s: seq<T>, key: T -> int)
    requires SortedByKey(s, key)
    ensures SortByKey(s, key) == s
  {
    if s != [] {
      var init, last := s[..|s| - 1], s[|s| - 1];
      assert SortedByKey(init, key) by {
        forall i, j | 0 <= i < j < |init| ensures key(init[i]) <= key(init[j]) {
          assert init[i] == s[i] && init[j] == s[j];
        }
      }
      SortByKeyOfSorted(init, key);
      InsertAtEnd(last, init, key);
      assert s == init + [last];
    }
  }

  lemma InsertAtEnd<T>(x: T, s: seq<T>, key: T -> int)
    requires forall i :: 0 <= i < |s| ==> key(s[i]) <= key(x)
    ensures Insert(x, s, key) == s + [x]
  {
    var p := InsertionPoint(x, s, key);
    assert p == |s|;
    assert s[..p] == s;
  }

  /** A key-sorted sequence of n elements whose keys are distinct and lie in
      1..n has key i + 1 at index i. */
  lemma SortedDistinctKeysAt<T>(r: seq<T>, key: T -> int, n: nat)
    requires |r| == n
    requires SortedByKey(r, key)
    requires forall i, j :: 0 <= i < j < n ==> key(r[i]) != key(r[j])
    requires forall i :: 0 <= i < n ==> 1 <= key(r[i]) <= n
    ensures forall i :: 0 <= i < n ==> key(r[i]) == i + 1
  {
    forall i | 0 <= i < n
      ensures key(r[i]) == i + 1
    {
      StrictlyIncreasingLower(r, key, i);
      StrictlyIncreasingUpper(r, key, n, i);
    }
  }

  lemma {:induction false} StrictlyIncreasingLower<T>(r: seq<T>, key: T -> int, i: nat)
    requires i < |r|
    requires SortedByKey(r, key)
    requires forall a, b :: 0 <= a < b < |r| ==> key(r[a]) != key(r[b])
    requires forall a :: 0 <= a < |r| ==> 1 <= key(r[a])
    ensures key(r[i]) >= i + 1
  {
    if i > 0 {
      StrictlyIncreasingLower(r, key, i - 1);
      assert key(r[i - 1]) <= key(r[i]) && key(r[i - 1]) != key(r[i]);
    }
  }

  lemma {:induction false} StrictlyIncreasingUpper<T>(r: seq<T>, key: T -> int, n: nat, i: nat)
    requires i < |r| == n
    requires SortedByKey(r, key)
    requires forall a, b :: 0 <= a < b < |r| ==> key(r[a]) != key(r[b])
    requires forall a :: 0 <= a < |r| ==> key(r[a]) <= n
    ensures key(r[i]) <= i + 1
    decreases n - i
  {
    if i < n - 1 {
      StrictlyIncreasingUpper(r, key, n, i + 1);
      assert key(r[i]) <= key(r[i + 1]) && key(r[i]) != key(r[i + 1]);
    }
  }

  ghost predicate Distinct<T>(s: seq<T>)
  {
    forall i, j :: 0 <= i < j < |s| ==> s[i] != s[j]
  }

  lemma {:induction false} DistinctMultiplicity<T>(s: seq<T>, x: T)
    requires Distinct(s)
    ensures multiset(s)[x] <= 1
  {
    if s != [] {
      assert s == [s[0]] + s[1..];
      assert Distinct(s[1..]) by {
        forall i, j | 0 <= i < j < |s[1..]| ensures s[1..][i] != s[1..][j] {
          assert s[1..][i] == s[i + 1] && s[1..][j] == s[j + 1];
        }
      }
      DistinctMultiplicity(s[1..], x);
      if x == s[0] {
        assert x !in s[1..] by {
          forall k | 0 <= k < |s[1..]| ensures s[1..][k] != x {
            assert s[1..][k] == s[k + 1];
          }
        }
      }
    }
  }

  lemma RepeatMultiplicity<T>(s: seq<T>, i: nat, j: nat)
    requires i < j < |s| && s[i] == s[j]
    ensures multiset(s)[s[i]] >= 2
  {
    var lo := s[..j];
    assert s == lo + [s[j]] + s[j + 1..];
    assert s[i] == lo[i];
    assert s[i] in lo;
  }

  /** A sequence with the same elements, counted with multiplicity, as a
      repetition-free sequence is itself repetition-free. */
  lemma DistinctOfSameMultiset<T>(a: seq<T>, b: seq<T>)
    requires multiset(a) == multiset(b) && Distinct(b)
    ensures Distinct(a)
  {
    forall i, j | 0 <= i < j < |a|
      ensures a[i] != a[j]
    {
      if a[i] == a[j] {
        RepeatMultiplicity(a, i, j);
        DistinctMultiplicity(b, a[i]);
      }
    }
  }

  /** The sum of `f` over the elements of `s`. */
  function SumOf<T>(s: seq<T>, f: T -> int): int
  {
    if s == [] then 0 else SumOf(s[..|s| - 1], f) + f(s[|s| - 1])
  }

  lemma {:induction false} SumOfAppend<T>(a: seq<T>, b: seq<T>, f: T -> int)
    ensures SumOf(a + b, f) == SumOf(a, f) + SumOf(b, f)
    decreases |b|
  {
    if b == [] {
      assert a + b == a;
    } else {
      assert (a + b)[..|a + b| - 1] == a + b[..|b| - 1];
      SumOfAppend(a, b[..|b| - 1], f);
    }
  }

  /** `s.map(f)`. */
  function MapSeq<T, U>(s: seq<T>, f: T -> U): (r: seq<U>)
    ensures |r| == |s| && forall k :: 0 <= k < |s| ==> r[k] == f(s[k])
  {
    seq(|s|, k requires 0 <= k < |s| => f(s[k]))
  }

  lemma MapSeqCons<T, U>(x: T, s: seq<T>, f: T -> U)
    ensures MapSeq([x] + s, f) == [f(x)] + MapSeq(s, f)
  {
    var a, b := MapSeq([x] + s, f), [f(x)] + MapSeq(s, f);
    forall k | 0 <= k < |a|
      ensures a[k] == b[k]
    {
      if k > 0 {
        assert ([x] + s)[k] == s[k - 1];
      }
    }
  }

  /** Filtering a repetition-free sequence leaves it repetition-free. */
  lemma {:induction false} FilterDistinct<T>(s: seq<T>, p: T -> bool)
    requires Distinct(s)
    ensures Distinct(Filter(s, p))
  {
    if s != [] {
      var t := s[1..];
      assert Distinct(t) by {
        forall i, j | 0 <= i < j < |t| ensures t[i] != t[j] {
          assert t[i] == s[i + 1] && t[j] == s[j + 1];
        }
      }
      FilterDistinct(t, p);
      FilterMembership(t, p);
      if p(s[0]) {
        var f := Filter(t, p);
        assert s[0] !in t by {
          forall k | 0 <= k < |t| ensures t[k] != s[0] {
            assert t[k] == s[k + 1];
          }
        }
        var g := [s[0]] + f;
        forall i, j | 0 <= i < j < |g| ensures g[i] != g[j] {
          if i == 0 {
            assert g[j] == f[j - 1] && f[j - 1] in f;
          } else {
            assert g[i] == f[i - 1] && g[j] == f[j - 1];
          }
        }
      }
    }
  }


  /** `s.flatMap(f)`: the sequences `f` gives for the elements, in order. */
  function FlatMap<T, U>(s: seq<T>, f: T -> seq<U>): seq<U>
  {
    if s == [] then [] else FlatMap(s[..|s| - 1], f) + f(s[|s| - 1])
  }

  /** Flat-mapping a concatenation concatenates the results. */
  lemma {:induction false} FlatMapAppend<T, U>(a: seq<T>, b: seq<T>, f: T -> seq<U>)
    ensures FlatMap(a + b, f) == FlatMap(a, f) + FlatMap(b, f)
    decreases |b|
  {
    if b == [] {
      assert a + b == a;
    } else {
      assert (a + b)[..|a + b| - 1] == a + b[..|b| - 1];
      FlatMapAppend(a, b[..|b| - 1], f);
    }
  }

  /** The length of a flat map is the sum of the lengths of the pieces. */
  lemma {:induction false} FlatMapLength<T, U>(s: seq<T>, f: T -> seq<U>)
    ensures |FlatMap(s, f)| == SumOf(s, (x: T) => |f(x)|)
  {
    if s != [] {
      FlatMapLength(s[..|s| - 1], f);
    }
  }

  /** Inserting `x` adds `f(x)` to a sum over the elements. */
  lemma SumOfInsert<T>(x: T, t: seq<T>, key: T -> int, f: T -> int)
    ensures SumOf(Insert(x, t, key), f) == SumOf(t, f) + f(x)
  {
    var k := InsertionPoint(x, t, key);
    assert t == t[..k] + t[k..];
    assert Insert(x, t, key) == t[..k] + [x] + t[k..];
    SumOfAppend(t[..k] + [x], t[k..], f);
    SumOfAppend(t[..k], [x], f);
    SumOfAppend(t[..k], t[k..], f);
    assert SumOf([x], f) == f(x) by {
      assert [x][..0] == [];
    }
  }

  /** Sorting does not change a sum over the elements. */
  lemma {:induction false} SumOfSortByKey<T>(s: seq<T>, key: T -> int, f: T -> int)
    ensures SumOf(SortByKey(s, key), f) == SumOf(s, f)
  {
    if s != [] {
      var init, x := s[..|s| - 1], s[|s| - 1];
      SumOfSortByKey(init, key, f);
      SumOfInsert(x, SortByKey(init, key), key, f);
    }
  }

  /** Replacing one element changes a sum by the difference. */
  lemma {:induction false} SumOfUpdate<T>(s: seq<T>, k: nat, x: T, f: T -> int)
    requires k < |s|
    ensures SumOf(s[k := x], f) == SumOf(s, f) - f(s[k]) + f(x)
  {
    var n := |s|;
    if k == n - 1 {
      assert s[k := x][..n - 1] == s[..n - 1];
    } else {
      assert s[k := x][..n - 1] == s[..n - 1][k := x];
      SumOfUpdate(s[..n - 1], k, x, f);
    }
  }
}
