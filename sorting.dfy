/**
 * `Array.prototype.sort` with a comparator that orders elements by an integer
 * key. The language requires the sort to be stable, so its result is fully
 * determined: sorted by key, and elements with equal keys in their original
 * order. A stable insertion sort computes that result.
 */
module Sorting {

  ghost predicate SortedBy<T>(s: seq<T>, key: T -> int) {
    forall i, j :: 0 <= i < j < |s| ==> key(s[i]) <= key(s[j])
  }

  /** The elements whose key is k, in their order in s. */
  function WithKey<T>(s: seq<T>, key: T -> int, k: int): seq<T> {
    if |s| == 0 then []
    else (if key(s[0]) == k then [s[0]] else []) + WithKey(s[1..], key, k)
  }

  /** `s.filter(p)`. */
  function Filter<T>(s: seq<T>, p: T -> bool): seq<T> {
    if |s| == 0 then []
    else (if p(s[0]) then [s[0]] else []) + Filter(s[1..], p)
  }

  /** Sum of f over the elements of s. */
  function SumOf<T>(s: seq<T>, f: T -> int): int {
    if |s| == 0 then 0 else f(s[0]) + SumOf(s[1..], f)
  }

  /** Puts x before the first element whose key is not smaller than its own. */
  function Insert<T>(x: T, s: seq<T>, key: T -> int): seq<T> {
    if |s| == 0 || key(x) <= key(s[0]) then [x] + s
    else [s[0]] + Insert(x, s[1..], key)
  }

  function SortBy<T>(s: seq<T>, key: T -> int): seq<T> {
    if |s| == 0 then [] else Insert(s[0], SortBy(s[1..], key), key)
  }

  // ---- insertion ----

  lemma {:induction false} InsertPermutes<T>(x: T, s: seq<T>, key: T -> int)
    ensures multiset(Insert(x, s, key)) == multiset{x} + multiset(s)
  {
    if |s| > 0 && key(x) > key(s[0]) {
      InsertPermutes(x, s[1..], key);
      assert s == [s[0]] + s[1..];
      assert Insert(x, s, key) == [s[0]] + Insert(x, s[1..], key);
    }
  }

  lemma {:induction false} InsertSorted<T>(x: T, s: seq<T>, key: T -> int)
    requires SortedBy(s, key)
    ensures SortedBy(Insert(x, s, key), key)
  {
    if |s| > 0 && key(x) > key(s[0]) {
      var t := Insert(x, s[1..], key);
      var r := [s[0]] + t;
      assert Insert(x, s, key) == r;
      assert SortedBy(s[1..], key);
      InsertSorted(x, s[1..], key);
      InsertPermutes(x, s[1..], key);
      forall j | 0 <= j < |t| ensures key(s[0]) <= key(t[j]) {
        assert t[j] in multiset(t);
        if t[j] != x {
          assert t[j] in multiset(s[1..]);
          var i :| 0 <= i < |s[1..]| && s[1..][i] == t[j];
          assert s[1..][i] == s[i + 1];
        }
      }
      forall i, j | 0 <= i < j < |r| ensures key(r[i]) <= key(r[j]) {
        assert r[j] == t[j - 1];
        if i > 0 {
          assert r[i] == t[i - 1];
        }
      }
    } else {
      var r := Insert(x, s, key);
      assert r == [x] + s;
      forall i, j | 0 <= i < j < |r| ensures key(r[i]) <= key(r[j]) {
        assert r[j] == s[j - 1];
        if i > 0 {
          assert r[i] == s[i - 1];
        }
      }
    }
  }

  lemma {:induction false} InsertSum<T>(x: T, s: seq<T>, key: T -> int, f: T -> int)
    ensures SumOf(Insert(x, s, key), f) == f(x) + SumOf(s, f)
  {
    var r := Insert(x, s, key);
    if |s| > 0 && key(x) > key(s[0]) {
      InsertSum(x, s[1..], key, f);
      assert r[0] == s[0] && r[1..] == Insert(x, s[1..], key);
    } else {
      assert r[0] == x && r[1..] == s;
    }
  }

  /** Inserting an element with key k into a sorted list puts it first among those with key k. */
  lemma {:induction false} InsertWithKey<T>(x: T, s: seq<T>, key: T -> int, k: int)
    requires SortedBy(s, key)
    ensures WithKey(Insert(x, s, key), key, k)
         == (if key(x) == k then [x] else []) + WithKey(s, key, k)
  {
    if |s| > 0 && key(x) > key(s[0]) {
      assert SortedBy(s[1..], key);
      InsertWithKey(x, s[1..], key, k);
      var r := Insert(x, s, key);
      assert r[0] == s[0] && r[1..] == Insert(x, s[1..], key);
      if key(x) == k {
        assert WithKey(s, key, k) == WithKey(s[1..], key, k);
      }
    } else {
      var r := Insert(x, s, key);
      assert r[0] == x && r[1..] == s;
    }
  }

  // ---- sorting ----

  /**
   * The sorted list is in ascending key order, is a permutation of the input,
   * keeps equal keys in input order, and keeps every sum.
   */
  lemma {:induction false} SortByCorrect<T>(s: seq<T>, key: T -> int)
    ensures SortedBy(SortBy(s, key), key)
    ensures multiset(SortBy(s, key)) == multiset(s)
    ensures forall k :: WithKey(SortBy(s, key), key, k) == WithKey(s, key, k)
    ensures forall f :: SumOf(SortBy(s, key), f) == SumOf(s, f)
  {
    if |s| > 0 {
      var t := SortBy(s[1..], key);
      SortByCorrect(s[1..], key);
      InsertPermutes(s[0], t, key);
      InsertSorted(s[0], t, key);
      assert s == [s[0]] + s[1..];
      forall f ensures SumOf(SortBy(s, key), f) == SumOf(s, f) {
        InsertSum(s[0], t, key, f);
      }
      forall k ensures WithKey(SortBy(s, key), key, k) == WithKey(s, key, k) {
        InsertWithKey(s[0], t, key, k);
      }
    }
  }

  /** With every key equal, a stable sort leaves the list as it was. */
  lemma SortByConstantKey<T>(s: seq<T>, key: T -> int, c: int)
    requires forall x :: key(x) == c
    ensures SortBy(s, key) == s
  {
    SortByCorrect(s, key);
    WithKeyAll(s, key, c);
    WithKeyAll(SortBy(s, key), key, c);
  }

  lemma {:induction false} WithKeyAll<T>(s: seq<T>, key: T -> int, c: int)
    requires forall x :: key(x) == c
    ensures WithKey(s, key, c) == s
  {
    if |s| > 0 {
      WithKeyAll(s[1..], key, c);
      assert s == [s[0]] + s[1..];
    }
  }

  // ---- filtering and summing ----

  lemma {:induction false} FilterAppend<T>(a: seq<T>, b: seq<T>, p: T -> bool)
    ensures Filter(a + b, p) == Filter(a, p) + Filter(b, p)
  {
    if |a| > 0 {
      FilterAppend(a[1..], b, p);
      assert (a + b)[1..] == a[1..] + b;
    } else {
      assert a + b == b;
    }
  }

  lemma {:induction false} FilterMembers<T>(s: seq<T>, p: T -> bool, x: T)
    ensures x in Filter(s, p) <==> x in s && p(x)
  {
    if |s| > 0 {
      FilterMembers(s[1..], p, x);
      assert s == [s[0]] + s[1..];
    }
  }

  lemma {:induction false} SumOfAppend<T>(a: seq<T>, b: seq<T>, f: T -> int)
    ensures SumOf(a + b, f) == SumOf(a, f) + SumOf(b, f)
  {
    if |a| > 0 {
      SumOfAppend(a[1..], b, f);
      assert (a + b)[1..] == a[1..] + b;
    } else {
      assert a + b == b;
    }
  }

  /** Filtering a stably sorted list gives the stably sorted filtered list. */
  lemma {:induction false} SortByFilter<T>(s: seq<T>, key: T -> int, p: T -> bool)
    ensures Filter(SortBy(s, key), p) == SortBy(Filter(s, p), key)
  {
    if |s| > 0 {
      var t := SortBy(s[1..], key);
      assert SortBy(s, key) == Insert(s[0], t, key);
      SortByFilter(s[1..], key, p);
      SortByCorrect(s[1..], key);
      InsertFilter(s[0], t, key, p);
      var fs := Filter(s, p);
      assert fs == (if p(s[0]) then [s[0]] else []) + Filter(s[1..], p);
      if p(s[0]) {
        assert fs[0] == s[0] && fs[1..] == Filter(s[1..], p);
        assert SortBy(fs, key) == Insert(s[0], SortBy(Filter(s[1..], p), key), key);
      } else {
        assert fs == Filter(s[1..], p);
      }
    }
  }

  lemma {:induction false} InsertFilter<T>(x: T, s: seq<T>, key: T -> int, p: T -> bool)
    requires SortedBy(s, key)
    ensures Filter(Insert(x, s, key), p)
         == if p(x) then Insert(x, Filter(s, p), key) else Filter(s, p)
  {
    var r := Insert(x, s, key);
    var fs := Filter(s, p);
    if |s| == 0 || key(x) <= key(s[0]) {
      assert r == [x] + s;
      assert Filter(r, p) == (if p(x) then [x] else []) + fs by {
        assert r[0] == x && r[1..] == s;
      }
      if p(x) && |fs| > 0 {
        FilterMembers(s, p, fs[0]);
        var j :| 0 <= j < |s| && s[j] == fs[0];
        assert key(s[0]) <= key(s[j]);
      }
    } else {
      assert r == [s[0]] + Insert(x, s[1..], key);
      assert SortedBy(s[1..], key);
      InsertFilter(x, s[1..], key, p);
      assert Filter(r, p) == (if p(s[0]) then [s[0]] else []) + Filter(Insert(x, s[1..], key), p) by {
        assert r[0] == s[0] && r[1..] == Insert(x, s[1..], key);
      }
      assert fs == (if p(s[0]) then [s[0]] else []) + Filter(s[1..], p);
      if p(s[0]) {
        assert fs[0] == s[0] && fs[1..] == Filter(s[1..], p);
        if p(x) {
          assert Insert(x, fs, key) == [s[0]] + Insert(x, Filter(s[1..], p), key);
        }
      } else {
        assert fs == Filter(s[1..], p);
        assert Filter(r, p) == Filter(Insert(x, s[1..], key), p);
      }
    }
  }

  /** Filters that agree on every element select the same elements. */
  lemma {:induction false} FilterSame<T>(s: seq<T>, p: T -> bool, q: T -> bool)
    requires forall i :: 0 <= i < |s| ==> p(s[i]) == q(s[i])
    ensures Filter(s, p) == Filter(s, q)
  {
    if |s| > 0 {
      FilterSame(s[1..], p, q);
    }
  }

  /** A filter that keeps every element changes nothing. */
  lemma {:induction false} FilterKeepsAll<T>(s: seq<T>, p: T -> bool)
    requires forall i :: 0 <= i < |s| ==> p(s[i])
    ensures Filter(s, p) == s
  {
    if |s| > 0 {
      FilterKeepsAll(s[1..], p);
      assert s == [s[0]] + s[1..];
    }
  }

  lemma FilterSingle<T>(x: T, p: T -> bool)
    ensures Filter([x], p) == if p(x) then [x] else []
  {
    assert [x][1..] == [];
  }

  lemma SumOfSingle<T>(x: T, f: T -> int)
    ensures SumOf([x], f) == f(x)
  {
    assert [x][1..] == [];
  }

  lemma FilterSnoc<T>(s: seq<T>, x: T, p: T -> bool)
    ensures Filter(s + [x], p) == Filter(s, p) + (if p(x) then [x] else [])
  {
    FilterAppend(s, [x], p);
    FilterSingle(x, p);
  }

  lemma SumOfSnoc<T>(s: seq<T>, x: T, f: T -> int)
    ensures SumOf(s + [x], f) == SumOf(s, f) + f(x)
  {
    SumOfAppend(s, [x], f);
    SumOfSingle(x, f);
  }

  /** Appending one element adds its value to a filtered sum exactly when the filter keeps it. */
  lemma FilterSumSnoc<T>(s: seq<T>, x: T, p: T -> bool, f: T -> int)
    ensures SumOf(Filter(s + [x], p), f) == SumOf(Filter(s, p), f) + (if p(x) then f(x) else 0)
  {
    FilterSnoc(s, x, p);
    if p(x) {
      SumOfSnoc(Filter(s, p), x, f);
    } else {
      assert Filter(s, p) + [] == Filter(s, p);
    }
  }
}
