/**
  A stable sort by an integer key, the meaning of Rust's `slice::sort_by`
  with a comparator that compares keys: the result is ascending by key,
  and elements with equal keys keep their input order. Both SS+m parsers
  sort their notes this way by time.

  `SortBy` is insertion sort written as a function. `SortedStableUnique`
  shows that a sorted sequence keeping every equal-key group in input order
  is exactly `SortBy` of the input, so the model does not depend on which
  stable algorithm the library uses.
*/
module StableSort {

  /** `s` is ascending by `key`. */
  predicate SortedBy<T>(s: seq<T>, key: T -> int) {
    forall i, j | 0 <= i < j < |s| :: key(s[i]) <= key(s[j])
  }

  /** The elements of `s` whose key is `k`, in their order in `s`. */
  function WithKey<T>(s: seq<T>, key: T -> int, k: int): seq<T> {
    if s == [] then [] else (if key(s[0]) == k then [s[0]] else []) + WithKey(s[1..], key, k)
  }

  /** Places `x` in front of the first element whose key is not below its own. */
  function Insert<T>(x: T, s: seq<T>, key: T -> int): seq<T> {
    if s == [] || key(x) <= key(s[0]) then [x] + s else [s[0]] + Insert(x, s[1..], key)
  }

  function SortBy<T>(s: seq<T>, key: T -> int): seq<T> {
    if s == [] then [] else Insert(s[0], SortBy(s[1..], key), key)
  }

  /** Every key of `Insert(x, s)` is at least `lo` when `x` and all of `s` are. */
  lemma {:induction false} InsertBound<T>(x: T, s: seq<T>, key: T -> int, lo: int)
    requires lo <= key(x) && forall i | 0 <= i < |s| :: lo <= key(s[i])
    ensures forall i | 0 <= i < |Insert(x, s, key)| :: lo <= key(Insert(x, s, key)[i])
    decreases |s|
  {
    if s != [] && key(s[0]) < key(x) {
      InsertBound(x, s[1..], key, lo);
      var r := Insert(x, s, key);
      assert r == [s[0]] + Insert(x, s[1..], key);
      forall i | 0 < i < |r| ensures lo <= key(r[i]) {
        assert r[i] == Insert(x, s[1..], key)[i - 1];
      }
    }
  }

  /** An element no greater than the head of a sorted sequence can go in front of it. */
  lemma ConsSorted<T>(x: T, s: seq<T>, key: T -> int)
    requires SortedBy(s, key) && (s == [] || key(x) <= key(s[0]))
    ensures SortedBy([x] + s, key)
  {
    var r := [x] + s;
    forall i, j | 0 <= i < j < |r| ensures key(r[i]) <= key(r[j]) {
      assert r[j] == s[j - 1];
      if i > 0 {
        assert r[i] == s[i - 1];
      } else if j > 1 {
        assert key(s[0]) <= key(s[j - 1]);
      }
    }
  }

  /** Inserting into an ascending sequence keeps it ascending. */
  lemma {:induction false} InsertAscending<T>(x: T, s: seq<T>, key: T -> int)
    requires SortedBy(s, key)
    ensures SortedBy(Insert(x, s, key), key)
    decreases |s|
  {
    if s == [] || key(x) <= key(s[0]) {
      ConsSorted(x, s, key);
    } else {
      var tail := s[1..];
      assert SortedBy(tail, key) by {
        forall i, j | 0 <= i < j < |tail| ensures key(tail[i]) <= key(tail[j]) {
          assert tail[i] == s[i + 1] && tail[j] == s[j + 1];
        }
      }
      InsertAscending(x, tail, key);
      forall i | 0 <= i < |tail| ensures key(s[0]) <= key(tail[i]) {
        assert tail[i] == s[i + 1];
      }
      InsertBound(x, tail, key, key(s[0]));
      ConsSorted(s[0], Insert(x, tail, key), key);
    }
  }

  /** Inserting adds `x` and loses nothing. */
  lemma {:induction false} InsertPermutes<T>(x: T, s: seq<T>, key: T -> int)
    ensures multiset(Insert(x, s, key)) == multiset(s) + multiset{x}
    decreases |s|
  {
    if s != [] && key(s[0]) < key(x) {
      InsertPermutes(x, s[1..], key);
      assert s == [s[0]] + s[1..];
    }
  }

  lemma {:induction false} InsertWithKey<T>(x: T, s: seq<T>, key: T -> int, k: int)
    ensures WithKey(Insert(x, s, key), key, k) == (if key(x) == k then [x] else []) + WithKey(s, key, k)
    decreases |s|
  {
    if s == [] || key(x) <= key(s[0]) {
      var r := [x] + s;
      assert r[0] == x && r[1..] == s;
    } else {
      var r := [s[0]] + Insert(x, s[1..], key);
      assert r[0] == s[0] && r[1..] == Insert(x, s[1..], key);
      InsertWithKey(x, s[1..], key, k);
    }
  }

  /** `SortBy` yields an ascending permutation of its input. */
  lemma SortBySortedPermutation<T>(s: seq<T>, key: T -> int)
    ensures SortedBy(SortBy(s, key), key)
    ensures multiset(SortBy(s, key)) == multiset(s)
    ensures |SortBy(s, key)| == |s|
  {
    SortByAscending(s, key);
    SortByPermutes(s, key);
    assert |multiset(SortBy(s, key))| == |SortBy(s, key)|;
  }

  lemma {:induction false} SortByAscending<T>(s: seq<T>, key: T -> int)
    ensures SortedBy(SortBy(s, key), key)
    decreases |s|
  {
    if s != [] {
      SortByAscending(s[1..], key);
      InsertAscending(s[0], SortBy(s[1..], key), key);
    }
  }

  lemma {:induction false} SortByPermutes<T>(s: seq<T>, key: T -> int)
    ensures multiset(SortBy(s, key)) == multiset(s)
    decreases |s|
  {
    if s != [] {
      SortByPermutes(s[1..], key);
      InsertPermutes(s[0], SortBy(s[1..], key), key);
      assert s == [s[0]] + s[1..];
    }
  }

  /** `SortBy` keeps the elements of every key in their input order. */
  lemma {:induction false} SortByStable<T>(s: seq<T>, key: T -> int, k: int)
    ensures WithKey(SortBy(s, key), key, k) == WithKey(s, key, k)
    decreases |s|
  {
    if s != [] {
      SortByStable(s[1..], key, k);
      InsertWithKey(s[0], SortBy(s[1..], key), key, k);
    }
  }

  lemma {:induction false} WithKeyIn<T>(s: seq<T>, key: T -> int, k: int, y: T)
    requires y in WithKey(s, key, k)
    ensures y in s && key(y) == k
    decreases |s|
  {
    if s[0] == y && key(y) == k {
    } else {
      if key(s[0]) == k {
        assert WithKey(s, key, k) == [s[0]] + WithKey(s[1..], key, k);
      }
      WithKeyIn(s[1..], key, k, y);
    }
  }

  /** The first element of a sorted sequence has the least key, so it heads the group of its key. */
  lemma SortedHead<T>(a: seq<T>, b: seq<T>, key: T -> int)
    requires a != [] && SortedBy(b, key)
    requires WithKey(a, key, key(a[0])) == WithKey(b, key, key(a[0]))
    ensures b != [] && key(b[0]) <= key(a[0])
  {
    var g := WithKey(a, key, key(a[0]));
    assert g[0] == a[0];
    WithKeyIn(b, key, key(a[0]), a[0]);
  }

  lemma GroupOfHead<T>(b: seq<T>, key: T -> int)
    requires b != []
    ensures WithKey(b, key, key(b[0])) != []
  {
  }

  /**
    Two ascending sequences that agree on every key group are equal: a
    stable sort has exactly one possible result.
  */
  lemma {:induction false} SortedStableUnique<T>(a: seq<T>, b: seq<T>, key: T -> int)
    requires SortedBy(a, key) && SortedBy(b, key)
    requires forall k :: WithKey(a, key, k) == WithKey(b, key, k)
    ensures a == b
    decreases |a|
  {
    if a == [] {
      if b != [] {
        GroupOfHead(b, key);
        assert false;
      }
    } else {
      SortedHead(a, b, key);
      SortedHead(b, a, key);
      var m := key(a[0]);
      assert WithKey(a, key, m) == WithKey(b, key, m);
      assert WithKey(a, key, m)[0] == a[0] && WithKey(b, key, m)[0] == b[0];
      forall k ensures WithKey(a[1..], key, k) == WithKey(b[1..], key, k) {
        assert WithKey(a, key, k) == WithKey(b, key, k);
        if k == m {
          assert WithKey(a, key, k) == [a[0]] + WithKey(a[1..], key, k);
          assert WithKey(b, key, k) == [b[0]] + WithKey(b[1..], key, k);
          assert WithKey(a[1..], key, k) == WithKey(a, key, k)[1..];
          assert WithKey(b[1..], key, k) == WithKey(b, key, k)[1..];
        } else {
          assert key(b[0]) == m;
          assert WithKey(a, key, k) == WithKey(a[1..], key, k);
          assert WithKey(b, key, k) == WithKey(b[1..], key, k);
        }
      }
      SortedStableUnique(a[1..], b[1..], key);
      assert a == [a[0]] + a[1..] && b == [b[0]] + b[1..];
    }
  }

  /** Any sorted, group-preserving rearrangement of `s` is `SortBy(s)`. */
  lemma StableSortIsSortBy<T>(s: seq<T>, r: seq<T>, key: T -> int)
    requires SortedBy(r, key)
    requires forall k :: WithKey(r, key, k) == WithKey(s, key, k)
    ensures r == SortBy(s, key)
  {
    SortBySortedPermutation(s, key);
    forall k ensures WithKey(r, key, k) == WithKey(SortBy(s, key), key, k) {
      SortByStable(s, key, k);
    }
    SortedStableUnique(r, SortBy(s, key), key);
  }
}
