/** List operations the pages apply to their state arrays: a stable sort by
    a key under a total preorder (`Array.prototype.sort` with a consistent
    comparator), lookup of the first element with a key (`find`), removal of
    the elements with a key (`filter`) and replacement of the elements that
    share a key with a new value (`map`). */
module Lists {
  import opened Common

  /** A comparison that is total and transitive, as `Array.prototype.sort`
      demands of its comparator: `leq(a, b)` means `a` may precede `b`. */
  ghost predicate TotalPreorder<K(!new)>(leq: (K, K) -> bool) {
    && (forall a, b :: leq(a, b) || leq(b, a))
    && (forall a, b, c :: leq(a, b) && leq(b, c) ==> leq(a, c))
  }

  /** The comparator answers 0: neither key goes first. */
  predicate Equivalent<K>(leq: (K, K) -> bool, a: K, b: K) {
    leq(a, b) && leq(b, a)
  }

  predicate SortedBy<T, K>(s: seq<T>, key: T -> K, leq: (K, K) -> bool) {
    forall i, j :: 0 <= i < j < |s| ==> leq(key(s[i]), key(s[j]))
  }

  /** The elements of `s` whose key is equivalent to `k`, in their order in `s`.
      A sort is stable when it keeps every such subsequence as it was. */
  function SameKey<T, K>(s: seq<T>, key: T -> K, leq: (K, K) -> bool, k: K): seq<T> {
    if s == [] then []
    else (if Equivalent(leq, key(s[0]), k) then [s[0]] else []) + SameKey(s[1..], key, leq, k)
  }

  /** Puts `x` in front of the first element whose key it may precede. */
  function Insert<T, K>(x: T, s: seq<T>, key: T -> K, leq: (K, K) -> bool): (r: seq<T>)
    ensures multiset(r) == multiset(s) + multiset{x}
    ensures |r| == |s| + 1
  {
    if s == [] || leq(key(x), key(s[0])) then [x] + s
    else
      assert s == [s[0]] + s[1..];
      [s[0]] + Insert(x, s[1..], key, leq)
  }

  /** Insertion sort: each element goes in front of every later element
      whose key it may precede, so elements with equivalent keys keep their
      order. */
  function StableSort<T, K>(s: seq<T>, key: T -> K, leq: (K, K) -> bool): (r: seq<T>)
    ensures multiset(r) == multiset(s)
    ensures |r| == |s|
  {
    if s == [] then []
    else
      assert s == [s[0]] + s[1..];
      Insert(s[0], StableSort(s[1..], key, leq), key, leq)
  }

  lemma {:induction false} InsertSorted<T, K(!new)>(x: T, s: seq<T>, key: T -> K, leq: (K, K) -> bool)
    requires TotalPreorder(leq) && SortedBy(s, key, leq)
    ensures SortedBy(Insert(x, s, key, leq), key, leq)
  {
    var r := Insert(x, s, key, leq);
    if s == [] || leq(key(x), key(s[0])) {
      assert r == [x] + s;
      forall i, j | 0 <= i < j < |r| ensures leq(key(r[i]), key(r[j])) {
        if i == 0 && j > 1 {
          assert leq(key(s[0]), key(s[j - 1]));
        } else if i > 0 {
          assert r[i] == s[i - 1] && r[j] == s[j - 1];
        }
      }
    } else {
      var t := Insert(x, s[1..], key, leq);
      InsertSorted(x, s[1..], key, leq);
      assert r == [s[0]] + t;
      forall i, j | 0 <= i < j < |r| ensures leq(key(r[i]), key(r[j])) {
        if i == 0 {
          var y := t[j - 1];
          assert y in multiset(t);
          if y != x {
            assert y in multiset(s[1..]);
            var m :| 0 <= m < |s[1..]| && s[1..][m] == y;
            assert s[m + 1] == y;
          }
        } else {
          assert r[i] == t[i - 1] && r[j] == t[j - 1];
        }
      }
    }
  }

  /** The result of the sort is in order. */
  lemma {:induction false} SortSorted<T, K(!new)>(s: seq<T>, key: T -> K, leq: (K, K) -> bool)
    requires TotalPreorder(leq)
    ensures SortedBy(StableSort(s, key, leq), key, leq)
  {
    if s != [] {
      SortSorted(s[1..], key, leq);
      InsertSorted(s[0], StableSort(s[1..], key, leq), key, leq);
    }
  }

  lemma {:induction false} InsertSameKey<T, K(!new)>(x: T, s: seq<T>, key: T -> K, leq: (K, K) -> bool, k: K)
    requires TotalPreorder(leq)
    ensures SameKey(Insert(x, s, key, leq), key, leq, k)
         == (if Equivalent(leq, key(x), k) then [x] else []) + SameKey(s, key, leq, k)
  {
    var r := Insert(x, s, key, leq);
    var ex := if Equivalent(leq, key(x), k) then [x] else [];
    if s == [] || leq(key(x), key(s[0])) {
      assert r == [x] + s && r[1..] == s;
    } else {
      var t := Insert(x, s[1..], key, leq);
      var e0 := if Equivalent(leq, key(s[0]), k) then [s[0]] else [];
      var rest := SameKey(s[1..], key, leq, k);
      assert r == [s[0]] + t && r[1..] == t;
      assert SameKey(r, key, leq, k) == e0 + SameKey(t, key, leq, k);
      InsertSameKey(x, s[1..], key, leq, k);
      assert SameKey(s, key, leq, k) == e0 + rest;
      // s[0] goes strictly before x, so the two cannot both be equivalent to k
      assert e0 + (ex + rest) == ex + (e0 + rest);
    }
  }

  /** Stability: the elements with keys equivalent to any `k` keep their
      relative order. */
  lemma {:induction false} SortStable<T, K(!new)>(s: seq<T>, key: T -> K, leq: (K, K) -> bool, k: K)
    requires TotalPreorder(leq)
    ensures SameKey(StableSort(s, key, leq), key, leq, k) == SameKey(s, key, leq, k)
  {
    if s != [] {
      var t := StableSort(s[1..], key, leq);
      SortStable(s[1..], key, leq, k);
      InsertSameKey(s[0], t, key, leq, k);
    }
  }

  /** Unfolds `SameKey` over a sequence that starts with `x`. */
  lemma SameKeyCons<T, K>(x: T, s: seq<T>, key: T -> K, leq: (K, K) -> bool, k: K)
    ensures SameKey([x] + s, key, leq, k)
         == (if Equivalent(leq, key(x), k) then [x] else []) + SameKey(s, key, leq, k)
  {
    assert ([x] + s)[1..] == s;
  }

  /** The first elements of two sorted sequences with the same elements have
      equivalent keys. */
  lemma SortedHeads<T, K(!new)>(a: seq<T>, b: seq<T>, key: T -> K, leq: (K, K) -> bool)
    requires TotalPreorder(leq)
    requires SortedBy(a, key, leq) && SortedBy(b, key, leq)
    requires multiset(a) == multiset(b) && a != []
    ensures b != [] && Equivalent(leq, key(a[0]), key(b[0]))
  {
    assert a[0] in multiset(b);
    assert b[0] in multiset(a);
    var i :| 0 <= i < |a| && a[i] == b[0];
    var j :| 0 <= j < |b| && b[j] == a[0];
    assert leq(key(a[0]), key(b[0])) by { if i > 0 { assert leq(key(a[0]), key(a[i])); } }
    assert leq(key(b[0]), key(a[0])) by { if j > 0 { assert leq(key(b[0]), key(b[j])); } }
  }

  lemma SortedTail<T, K>(s: seq<T>, key: T -> K, leq: (K, K) -> bool)
    requires SortedBy(s, key, leq) && s != []
    ensures SortedBy(s[1..], key, leq)
  {
    forall i, j | 0 <= i < j < |s[1..]| ensures leq(key(s[1..][i]), key(s[1..][j])) {
      assert s[1..][i] == s[i + 1] && s[1..][j] == s[j + 1];
    }
  }

  /** Equal projections of `[x] + a` and `[x] + b` give equal projections of
      `a` and `b`. */
  lemma SameKeyTails<T, K(!new)>(x: T, a: seq<T>, b: seq<T>, key: T -> K, leq: (K, K) -> bool)
    requires forall k :: SameKey([x] + a, key, leq, k) == SameKey([x] + b, key, leq, k)
    ensures forall k :: SameKey(a, key, leq, k) == SameKey(b, key, leq, k)
  {
    forall k ensures SameKey(a, key, leq, k) == SameKey(b, key, leq, k) {
      var e := if Equivalent(leq, key(x), k) then [x] else [];
      SameKeyCons(x, a, key, leq, k);
      SameKeyCons(x, b, key, leq, k);
      assert SameKey(a, key, leq, k) == SameKey([x] + a, key, leq, k)[|e|..];
      assert SameKey(b, key, leq, k) == SameKey([x] + b, key, leq, k)[|e|..];
    }
  }

  /** The first elements of two sorted sequences with the same elements and
      the same projections are the same. */
  lemma SortedSameHead<T, K(!new)>(a: seq<T>, b: seq<T>, key: T -> K, leq: (K, K) -> bool)
    requires TotalPreorder(leq)
    requires SortedBy(a, key, leq) && SortedBy(b, key, leq)
    requires multiset(a) == multiset(b) && a != []
    requires SameKey(a, key, leq, key(a[0])) == SameKey(b, key, leq, key(a[0]))
    ensures b != [] && a[0] == b[0]
  {
    SortedHeads(a, b, key, leq);
    var k0 := key(a[0]);
    assert a == [a[0]] + a[1..] && b == [b[0]] + b[1..];
    SameKeyCons(a[0], a[1..], key, leq, k0);
    SameKeyCons(b[0], b[1..], key, leq, k0);
    assert a[0] == SameKey(a, key, leq, k0)[0];
    assert b[0] == SameKey(b, key, leq, k0)[0];
  }

  /** Two sorted sequences with the same elements and the same order among
      elements of equivalent keys are equal. */
  lemma {:induction false} SortedStableUnique<T, K(!new)>(a: seq<T>, b: seq<T>, key: T -> K, leq: (K, K) -> bool)
    requires TotalPreorder(leq)
    requires SortedBy(a, key, leq) && SortedBy(b, key, leq)
    requires multiset(a) == multiset(b)
    requires forall k :: SameKey(a, key, leq, k) == SameKey(b, key, leq, k)
    ensures a == b
  {
    if a != [] {
      SortedSameHead(a, b, key, leq);
      var x := a[0];
      assert a == [x] + a[1..] && b == [x] + b[1..];
      SameKeyTails(x, a[1..], b[1..], key, leq);
      assert multiset(a[1..]) == multiset(a) - multiset{x};
      assert multiset(b[1..]) == multiset(b) - multiset{x};
      SortedTail(a, key, leq);
      SortedTail(b, key, leq);
      SortedStableUnique(a[1..], b[1..], key, leq);
    }
  }

  /** Any stable sort of `s` gives `StableSort(s)`: a sorted permutation of
      `s` that keeps the order among equivalent keys is this one. */
  lemma StableSortUnique<T, K(!new)>(s: seq<T>, r: seq<T>, key: T -> K, leq: (K, K) -> bool)
    requires TotalPreorder(leq)
    requires SortedBy(r, key, leq) && multiset(r) == multiset(s)
    requires forall k :: SameKey(r, key, leq, k) == SameKey(s, key, leq, k)
    ensures r == StableSort(s, key, leq)
  {
    SortSorted(s, key, leq);
    forall k ensures SameKey(StableSort(s, key, leq), key, leq, k) == SameKey(s, key, leq, k) {
      SortStable(s, key, leq, k);
    }
    SortedStableUnique(r, StableSort(s, key, leq), key, leq);
  }

  /** No two elements share a key (ids issued by the store). */
  predicate UniqueKeys<T, K(==)>(s: seq<T>, key: T -> K) {
    forall i, j :: 0 <= i < j < |s| ==> key(s[i]) != key(s[j])
  }

  /** `i` is the first index of `s` whose element has key `k`. */
  predicate FirstWith<T, K(==)>(s: seq<T>, key: T -> K, k: K, i: int) {
    0 <= i < |s| && key(s[i]) == k && forall j :: 0 <= j < i ==> key(s[j]) != k
  }

  /** The first element of `s` whose key is `k` (`find`). */
  function Find<T(!new), K(==)>(s: seq<T>, key: T -> K, k: K): (r: Option<T>)
    ensures r.None? <==> forall x :: x in s ==> key(x) != k
    ensures r.Some? ==> r.value in s && key(r.value) == k
    ensures forall i :: FirstWith(s, key, k, i) ==> r == Some(s[i])
  {
    if s == [] then None
    else if key(s[0]) == k then Some(s[0])
    else Find(s[1..], key, k)
  }

  /** With unique keys, looking up an element's key finds that element. */
  lemma FindUnique<T(!new), K>(s: seq<T>, key: T -> K, x: T)
    requires UniqueKeys(s, key) && x in s
    ensures Find(s, key, key(x)) == Some(x)
  {
    var r := Find(s, key, key(x));
    var i :| 0 <= i < |s| && s[i] == x;
    var j :| 0 <= j < |s| && s[j] == r.value;
    assert key(s[i]) == key(s[j]);
  }

  /** The elements of `s` whose key is not `k`, in order (`filter`). */
  function RemoveMatching<T(!new), K(==)>(s: seq<T>, key: T -> K, k: K): (r: seq<T>)
    ensures forall x :: x in r <==> x in s && key(x) != k
    ensures (forall x :: x in s ==> key(x) != k) ==> r == s
    ensures |r| <= |s|
  {
    if s == [] then []
    else
      assert s == [s[0]] + s[1..];
      (if key(s[0]) == k then [] else [s[0]]) + RemoveMatching(s[1..], key, k)
  }

  /** Removal works element by element, so the kept ones stay in order. */
  lemma {:induction false} RemoveMatchingAppend<T(!new), K>(a: seq<T>, b: seq<T>, key: T -> K, k: K)
    ensures RemoveMatching(a + b, key, k) == RemoveMatching(a, key, k) + RemoveMatching(b, key, k)
  {
    if a != [] {
      assert (a + b)[1..] == a[1..] + b;
      RemoveMatchingAppend(a[1..], b, key, k);
    } else {
      assert a + b == b;
    }
  }

  /** Removing elements from a sorted sequence leaves it sorted. */
  lemma {:induction false} RemoveMatchingSorted<T(!new), K, L>(s: seq<T>, key: T -> K, leq: (K, K) -> bool, id: T -> L, k: L)
    requires SortedBy(s, key, leq)
    ensures SortedBy(RemoveMatching(s, id, k), key, leq)
  {
    if s != [] {
      var t := RemoveMatching(s[1..], id, k);
      SortedTail(s, key, leq);
      RemoveMatchingSorted(s[1..], key, leq, id, k);
      if id(s[0]) != k {
        var r := [s[0]] + t;
        forall i, j | 0 <= i < j < |r| ensures leq(key(r[i]), key(r[j])) {
          if i == 0 {
            assert r[j] in t;
            var m :| 0 <= m < |s[1..]| && s[1..][m] == r[j];
            assert s[m + 1] == r[j];
          } else {
            assert r[i] == t[i - 1] && r[j] == t[j - 1];
          }
        }
      }
    }
  }

  /** Every element sharing `v`'s key becomes `v`; the others stay (`map`). */
  function ReplaceMatching<T(!new), K(==)>(s: seq<T>, key: T -> K, v: T): (r: seq<T>)
    ensures |r| == |s|
    ensures forall i :: 0 <= i < |s| ==> r[i] == (if key(s[i]) == key(v) then v else s[i])
    ensures (forall x :: x in s ==> key(x) != key(v)) ==> r == s
  {
    if s == [] then []
    else
      assert s == [s[0]] + s[1..];
      [if key(s[0]) == key(v) then v else s[0]] + ReplaceMatching(s[1..], key, v)
  }

  /** With unique keys, replacing swaps exactly one element when `v`'s key is present. */
  lemma ReplaceUnique<T(!new), K>(s: seq<T>, key: T -> K, v: T, i: nat)
    requires UniqueKeys(s, key) && i < |s| && key(s[i]) == key(v)
    ensures multiset(ReplaceMatching(s, key, v)) == multiset(s) - multiset{s[i]} + multiset{v}
  {
    var r := ReplaceMatching(s, key, v);
    assert r == s[i := v];
  }
}
