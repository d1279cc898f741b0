/** Kotlin collection operations the core uses, as functions on sequences:
    `find`/`indexOfFirst`, `distinctBy`, `take`, and the stable
    `sortedByDescending` with a nullable selector. */
module Lists {

  datatype Option<+T> = None | Some(value: T)

  /** `indexOfFirst`: the least index whose element satisfies `p`. */
  function FirstIndex<T>(s: seq<T>, p: T -> bool): (r: Option<nat>)
    ensures r.Some? ==> r.value < |s| && p(s[r.value])
    ensures r.Some? ==> forall j :: 0 <= j < r.value ==> !p(s[j])
    ensures r.None? ==> forall j :: 0 <= j < |s| ==> !p(s[j])
  {
    if s == [] then None
    else if p(s[0]) then Some(0)
    else match FirstIndex(s[1..], p)
      case None => None
      case Some(k) => Some(k + 1)
  }

  /** `find`: the first element satisfying `p`, if any. */
  function Find<T>(s: seq<T>, p: T -> bool): (r: Option<T>)
    ensures r.Some? <==> exists i :: 0 <= i < |s| && p(s[i])
    ensures r.Some? ==> exists i :: 0 <= i < |s| && s[i] == r.value && p(s[i]) &&
                                    forall j :: 0 <= j < i ==> !p(s[j])
  {
    match FirstIndex(s, p)
    case None => None
    case Some(i) => Some(s[i])
  }

  /** `take(n)`: the first `min(n, |s|)` elements. */
  function Take<T>(s: seq<T>, n: nat): (r: seq<T>)
    ensures |r| == if n < |s| then n else |s|
    ensures r <= s
  {
    if n < |s| then s[..n] else s
  }

  /** `filter(p)`: the elements satisfying `p`, in their order. */
  function Filter<T>(s: seq<T>, p: T -> bool): (r: seq<T>)
    ensures |r| <= |s|
    ensures forall i :: 0 <= i < |r| ==> r[i] in s && p(r[i])
    ensures forall i :: 0 <= i < |s| && p(s[i]) ==> s[i] in r
  {
    if s == [] then []
    else
      var rest := Filter(s[1..], p);
      assert forall i :: 1 <= i < |s| ==> s[i] == s[1..][i - 1];
      (if p(s[0]) then [s[0]] else []) + rest
  }

  /** Filtering a concatenation filters each part and keeps them in order, so
      `Filter` keeps the order and the multiplicity of what it keeps. */
  lemma {:induction false} FilterAppend<T>(a: seq<T>, b: seq<T>, p: T -> bool)
    ensures Filter(a + b, p) == Filter(a, p) + Filter(b, p)
  {
    if a == [] {
      assert a + b == b;
    } else {
      assert (a + b)[1..] == a[1..] + b;
      FilterAppend(a[1..], b, p);
    }
  }

  /** One element is kept exactly when it satisfies `p`. */
  lemma FilterSingleton<T>(x: T, p: T -> bool)
    ensures Filter([x], p) == if p(x) then [x] else []
  {
  }

  /** The set of keys the elements of `s` have. */
  function Keys<T, K>(s: seq<T>, key: T -> K): set<K> {
    set i | 0 <= i < |s| :: key(s[i])
  }

  /** No two elements share a key. */
  ghost predicate UniqueBy<T, K>(s: seq<T>, key: T -> K) {
    forall i, j :: 0 <= i < j < |s| ==> key(s[i]) != key(s[j])
  }

  /** `s[i]` is the first element of `s` with its key. */
  ghost predicate FirstOfItsKey<T, K>(s: seq<T>, key: T -> K, i: int)
    requires 0 <= i < |s|
  {
    forall j :: 0 <= j < i ==> key(s[j]) != key(s[i])
  }

  lemma KeysSnoc<T, K>(s: seq<T>, x: T, key: T -> K)
    ensures Keys(s + [x], key) == Keys(s, key) + {key(x)}
  {
    var t := s + [x];
    assert key(t[|s|]) == key(x);
    forall k | k in Keys(t, key) ensures k in Keys(s, key) + {key(x)} {
      var i :| 0 <= i < |t| && key(t[i]) == k;
      if i < |s| { assert t[i] == s[i]; }
    }
    forall k | k in Keys(s, key) ensures k in Keys(t, key) {
      var i :| 0 <= i < |s| && key(s[i]) == k;
      assert t[i] == s[i];
    }
  }

  /** Reordering keeps the set of keys. */
  lemma KeysOfPermutation<T, K>(s: seq<T>, r: seq<T>, key: T -> K)
    requires multiset(r) == multiset(s)
    ensures Keys(r, key) == Keys(s, key)
  {
    forall k | k in Keys(r, key) ensures k in Keys(s, key) {
      var i :| 0 <= i < |r| && key(r[i]) == k;
      assert r[i] in multiset(s);
      var j :| 0 <= j < |s| && s[j] == r[i];
    }
    forall k | k in Keys(s, key) ensures k in Keys(r, key) {
      var i :| 0 <= i < |s| && key(s[i]) == k;
      assert s[i] in multiset(r);
      var j :| 0 <= j < |r| && r[j] == s[i];
    }
  }

  /** `distinctBy`: walks `s` from the front and keeps an element only when no
      earlier kept element has its key. */
  function DistinctBy<T, K(==)>(s: seq<T>, key: T -> K): (r: seq<T>)
    ensures |r| <= |s|
    ensures UniqueBy(r, key)
    ensures Keys(r, key) == Keys(s, key)
    ensures forall x :: x in r ==> x in s
    decreases |s|
  {
    if s == [] then []
    else
      var init := s[..|s| - 1];
      var x := s[|s| - 1];
      var p := DistinctBy(init, key);
      KeysSnoc(init, x, key);
      assert s == init + [x];
      if key(x) in Keys(p, key) then p
      else
        KeysSnoc(p, x, key);
        p + [x]
  }

  /** What `distinctBy` keeps of a prefix it keeps of the whole, in order. */
  lemma {:induction false} DistinctByPrefix<T, K>(a: seq<T>, b: seq<T>, key: T -> K)
    ensures DistinctBy(a, key) <= DistinctBy(a + b, key)
    decreases |b|
  {
    if b != [] {
      var b' := b[..|b| - 1];
      assert (a + b)[..|a + b| - 1] == a + b';
      DistinctByPrefix(a, b', key);
    } else {
      assert a + b == a;
    }
  }

  /** A sequence that is already unique by key passes through unchanged. */
  lemma {:induction false} DistinctByUnique<T, K>(s: seq<T>, key: T -> K)
    requires UniqueBy(s, key)
    ensures DistinctBy(s, key) == s
    decreases |s|
  {
    if s != [] {
      var init := s[..|s| - 1];
      DistinctByUnique(init, key);
      forall i | 0 <= i < |init| ensures key(init[i]) != key(s[|s| - 1]) {
        assert init[i] == s[i];
      }
      assert key(s[|s| - 1]) !in Keys(init, key);
      assert s == init + [s[|s| - 1]];
    }
  }

  /** Appending elements whose keys are all present already changes nothing. */
  lemma {:induction false} DistinctByIgnoresKnownKeys<T, K>(a: seq<T>, b: seq<T>, key: T -> K)
    requires Keys(b, key) <= Keys(a, key)
    ensures DistinctBy(a + b, key) == DistinctBy(a, key)
    decreases |b|
  {
    if b == [] {
      assert a + b == a;
    } else {
      var b' := b[..|b| - 1];
      KeysSnoc(b', b[|b| - 1], key);
      assert b == b' + [b[|b| - 1]];
      assert (a + b)[..|a + b| - 1] == a + b';
      assert (a + b)[|a + b| - 1] == b[|b| - 1];
      DistinctByIgnoresKnownKeys(a, b', key);
      KeysOfPrefix(a, b', key);
    }
  }

  lemma KeysOfPrefix<T, K>(a: seq<T>, b: seq<T>, key: T -> K)
    ensures Keys(a, key) <= Keys(a + b, key)
  {
    forall k | k in Keys(a, key) ensures k in Keys(a + b, key) {
      var i :| 0 <= i < |a| && key(a[i]) == k;
      assert (a + b)[i] == a[i];
    }
  }

  /** For a sequence unique by key: appending elements whose keys are all
      present already gives the sequence back. */
  lemma DistinctByAbsorbs<T, K>(a: seq<T>, b: seq<T>, key: T -> K)
    requires UniqueBy(a, key)
    requires Keys(b, key) <= Keys(a, key)
    ensures DistinctBy(a + b, key) == a
  {
    DistinctByIgnoresKnownKeys(a, b, key);
    DistinctByUnique(a, key);
  }

  /** Every element that is the first of its key in `s` is kept. */
  lemma {:induction false} DistinctByKeepsFirst<T, K>(s: seq<T>, key: T -> K, i: int)
    requires 0 <= i < |s| && FirstOfItsKey(s, key, i)
    ensures s[i] in DistinctBy(s, key)
    decreases |s|
  {
    var init := s[..|s| - 1];
    if i < |s| - 1 {
      assert FirstOfItsKey(init, key, i);
      DistinctByKeepsFirst(init, key, i);
      DistinctByPrefix(init, [s[|s| - 1]], key);
      assert s == init + [s[|s| - 1]];
    } else {
      forall j | 0 <= j < |init| ensures key(init[j]) != key(s[i]) {
        assert init[j] == s[j];
      }
      assert key(s[i]) !in Keys(init, key);
    }
  }

  /** Every kept element is the first of its key in `s`. */
  lemma {:induction false} DistinctByOnlyFirst<T, K>(s: seq<T>, key: T -> K, x: T)
    requires x in DistinctBy(s, key)
    ensures exists i :: 0 <= i < |s| && s[i] == x && FirstOfItsKey(s, key, i)
    decreases |s|
  {
    var init := s[..|s| - 1];
    var p := DistinctBy(init, key);
    if x in p {
      DistinctByOnlyFirst(init, key, x);
      var i :| 0 <= i < |init| && init[i] == x && FirstOfItsKey(init, key, i);
      assert s[i] == x && FirstOfItsKey(s, key, i);
    } else {
      assert x == s[|s| - 1] && key(x) !in Keys(init, key);
      forall j | 0 <= j < |s| - 1 ensures key(s[j]) != key(x) {
        assert key(init[j]) in Keys(init, key);
      }
      assert FirstOfItsKey(s, key, |s| - 1);
    }
  }

  /** Kotlin's `compareValues` seen from `sortedByDescending`: a null key is
      smaller than every non-null one. `KeyAtLeast(a, b)` is "a >= b". */
  predicate KeyAtLeast(a: Option<int>, b: Option<int>) {
    b.None? || (a.Some? && a.value >= b.value)
  }

  /** Non-increasing by the selected key. */
  ghost predicate SortedDescending<T>(s: seq<T>, sel: T -> Option<int>) {
    forall i, j :: 0 <= i < j < |s| ==> KeyAtLeast(sel(s[i]), sel(s[j]))
  }

  /** The elements of `s` whose key is `k`, in their order in `s`. */
  function WithKey<T>(s: seq<T>, sel: T -> Option<int>, k: Option<int>): seq<T> {
    if s == [] then []
    else (if sel(s[0]) == k then [s[0]] else []) + WithKey(s[1..], sel, k)
  }

  /** Puts `x` in front of the first element of `t` whose key it is at least. */
  function InsertDescending<T>(x: T, t: seq<T>, sel: T -> Option<int>): (r: seq<T>)
    ensures multiset(r) == multiset(t) + multiset{x}
  {
    if t == [] || KeyAtLeast(sel(x), sel(t[0])) then [x] + t
    else
      assert t == [t[0]] + t[1..];
      [t[0]] + InsertDescending(x, t[1..], sel)
  }

  lemma {:induction false} InsertKeepsSorted<T>(x: T, t: seq<T>, sel: T -> Option<int>)
    requires SortedDescending(t, sel)
    ensures SortedDescending(InsertDescending(x, t, sel), sel)
  {
    if t != [] && !KeyAtLeast(sel(x), sel(t[0])) {
      var tail := t[1..];
      assert SortedDescending(tail, sel) by {
        forall i, j | 0 <= i < j < |tail| ensures KeyAtLeast(sel(tail[i]), sel(tail[j])) {
          assert tail[i] == t[i + 1] && tail[j] == t[j + 1];
        }
      }
      InsertKeepsSorted(x, tail, sel);
      var rest := InsertDescending(x, tail, sel);
      forall y | y in rest ensures KeyAtLeast(sel(t[0]), sel(y)) {
        assert y in multiset(rest);
        if y != x {
          assert y in multiset(tail);
          var k :| 0 <= k < |tail| && tail[k] == y;
          assert t[k + 1] == y;
        }
      }
      var r := [t[0]] + rest;
      forall i, j | 0 <= i < j < |r| ensures KeyAtLeast(sel(r[i]), sel(r[j])) {
        assert r[j] == rest[j - 1];
        if i > 0 {
          assert r[i] == rest[i - 1];
        }
      }
    }
  }

  lemma {:induction false} InsertKeepsUnique<T, K>(x: T, t: seq<T>, sel: T -> Option<int>, key: T -> K)
    requires UniqueBy(t, key)
    requires forall j :: 0 <= j < |t| ==> key(t[j]) != key(x)
    ensures UniqueBy(InsertDescending(x, t, sel), key)
  {
    if t != [] && !KeyAtLeast(sel(x), sel(t[0])) {
      var tail := t[1..];
      assert UniqueBy(tail, key) by {
        forall i, j | 0 <= i < j < |tail| ensures key(tail[i]) != key(tail[j]) {
          assert tail[i] == t[i + 1] && tail[j] == t[j + 1];
        }
      }
      InsertKeepsUnique(x, tail, sel, key);
      var rest := InsertDescending(x, tail, sel);
      forall y | y in rest ensures key(t[0]) != key(y) {
        assert y in multiset(rest);
        if y != x {
          assert y in multiset(tail);
          var k :| 0 <= k < |tail| && tail[k] == y;
          assert t[k + 1] == y;
        }
      }
      var r := [t[0]] + rest;
      forall i, j | 0 <= i < j < |r| ensures key(r[i]) != key(r[j]) {
        assert r[j] == rest[j - 1];
        if i > 0 {
          assert r[i] == rest[i - 1];
        }
      }
    } else {
      var r := [x] + t;
      forall i, j | 0 <= i < j < |r| ensures key(r[i]) != key(r[j]) {
        assert r[j] == t[j - 1];
        if i > 0 {
          assert r[i] == t[i - 1];
        }
      }
    }
  }

  /** `sortedByDescending(sel)`: an insertion sort that keeps elements with
      equal keys in their original order, as Kotlin's stable sort does. */
  function SortedByDescending<T>(s: seq<T>, sel: T -> Option<int>): (r: seq<T>)
    ensures multiset(r) == multiset(s)
  {
    if s == [] then []
    else
      assert s == [s[0]] + s[1..];
      InsertDescending(s[0], SortedByDescending(s[1..], sel), sel)
  }

  /** The result of the sort is non-increasing by the key. */
  lemma {:induction false} SortIsSorted<T>(s: seq<T>, sel: T -> Option<int>)
    ensures SortedDescending(SortedByDescending(s, sel), sel)
  {
    if s != [] {
      SortIsSorted(s[1..], sel);
      InsertKeepsSorted(s[0], SortedByDescending(s[1..], sel), sel);
    }
  }

  /** Sorting keeps a sequence unique by any key. */
  lemma {:induction false} SortKeepsUnique<T, K>(s: seq<T>, sel: T -> Option<int>, key: T -> K)
    requires UniqueBy(s, key)
    ensures UniqueBy(SortedByDescending(s, sel), key)
  {
    if s != [] {
      var tail := s[1..];
      assert UniqueBy(tail, key) by {
        forall i, j | 0 <= i < j < |tail| ensures key(tail[i]) != key(tail[j]) {
          assert tail[i] == s[i + 1] && tail[j] == s[j + 1];
        }
      }
      SortKeepsUnique(tail, sel, key);
      var sorted := SortedByDescending(tail, sel);
      forall j | 0 <= j < |sorted| ensures key(sorted[j]) != key(s[0]) {
        assert sorted[j] in multiset(tail);
        var k :| 0 <= k < |tail| && tail[k] == sorted[j];
        assert s[k + 1] == sorted[j];
      }
      InsertKeepsUnique(s[0], sorted, sel, key);
    }
  }

  lemma {:induction false} WithKeyInsert<T>(x: T, t: seq<T>, sel: T -> Option<int>, k: Option<int>)
    ensures WithKey(InsertDescending(x, t, sel), sel, k)
         == (if sel(x) == k then [x] else []) + WithKey(t, sel, k)
  {
    if t == [] || KeyAtLeast(sel(x), sel(t[0])) {
      assert ([x] + t)[1..] == t;
    } else {
      var rest := InsertDescending(x, t[1..], sel);
      assert ([t[0]] + rest)[1..] == rest;
      WithKeyInsert(x, t[1..], sel, k);
      // t[0] is strictly greater than x, so the two never share a key
      assert sel(t[0]) != sel(x);
    }
  }

  /** Stability: the sort keeps the relative order of the elements of each key. */
  lemma {:induction false} SortIsStable<T>(s: seq<T>, sel: T -> Option<int>, k: Option<int>)
    ensures WithKey(SortedByDescending(s, sel), sel, k) == WithKey(s, sel, k)
  {
    if s != [] {
      SortIsStable(s[1..], sel, k);
      WithKeyInsert(s[0], SortedByDescending(s[1..], sel), sel, k);
    }
  }

  /** Sorting an already sorted sequence changes nothing. */
  lemma {:induction false} SortSorted<T>(s: seq<T>, sel: T -> Option<int>)
    requires SortedDescending(s, sel)
    ensures SortedByDescending(s, sel) == s
  {
    if s != [] {
      assert SortedDescending(s[1..], sel) by {
        forall i, j | 0 <= i < j < |s[1..]| ensures KeyAtLeast(sel(s[1..][i]), sel(s[1..][j])) {
          assert s[1..][i] == s[i + 1] && s[1..][j] == s[j + 1];
        }
      }
      SortSorted(s[1..], sel);
      if |s| > 1 {
        assert KeyAtLeast(sel(s[0]), sel(s[1]));
      }
      assert s == [s[0]] + s[1..];
    }
  }
}
