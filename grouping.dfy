/**
 * Group-by-sum over an insertion-ordered dictionary.
 *
 * The explorer builds its spend summaries with `reduce` over a JavaScript
 * object, writing `{ ...acc, [key]: (acc[key] ?? 0) + value }` at each step.
 * Such an object is an ordered list of distinct keys with values: spreading
 * keeps every existing key in place, overwriting a key keeps its position,
 * and a new key goes to the end. `Object.entries` then returns the list as it
 * stands. Entries here are that list. An integer-like key such as "42" would
 * be listed first instead; the keys the explorer uses (date labels and
 * category ids) never are.
 */
module Grouping {

  /** Position of the first entry with key k, or -1 when there is none. */
  function IndexOf<K(==)>(e: seq<(K, int)>, k: K): (i: int)
    ensures -1 <= i < |e|
    ensures 0 <= i ==> e[i].0 == k && forall j :: 0 <= j < i ==> e[j].0 != k
    ensures i < 0 ==> forall j :: 0 <= j < |e| ==> e[j].0 != k
  {
    if |e| == 0 then -1
    else if e[0].0 == k then 0
    else
      var r := IndexOf(e[1..], k);
      if r < 0 then -1 else r + 1
  }

  function KeysOf<K>(e: seq<(K, int)>): seq<K> {
    seq(|e|, i requires 0 <= i < |e| => e[i].0)
  }

  ghost predicate DistinctKeys<K>(e: seq<(K, int)>) {
    forall i, j :: 0 <= i < j < |e| ==> e[i].0 != e[j].0
  }

  /** `acc[k] ?? 0`. */
  function Lookup<K(==)>(e: seq<(K, int)>, k: K): int {
    var i := IndexOf(e, k);
    if i < 0 then 0 else e[i].1
  }

  /** `{ ...e, [k]: (e[k] ?? 0) + v }`. */
  function Add<K(==)>(e: seq<(K, int)>, k: K, v: int): seq<(K, int)> {
    var i := IndexOf(e, k);
    if i < 0 then e + [(k, v)] else e[i := (k, e[i].1 + v)]
  }

  /** `items.reduce((acc, [k, v]) => Add(acc, k, v), {})`: a left fold. */
  function GroupSum<K(==)>(items: seq<(K, int)>): seq<(K, int)> {
    if |items| == 0 then []
    else
      var last := items[|items| - 1];
      Add(GroupSum(items[..|items| - 1]), last.0, last.1)
  }

  /** Sum of all values, `reduce((total, [, v]) => total + v, 0)`. */
  function Total<K>(e: seq<(K, int)>): int {
    if |e| == 0 then 0 else Total(e[..|e| - 1]) + e[|e| - 1].1
  }

  /** Sum of the values that carry key k. */
  function SumWhere<K(==)>(items: seq<(K, int)>, k: K): int {
    if |items| == 0 then 0
    else
      var last := items[|items| - 1];
      SumWhere(items[..|items| - 1], k) + (if last.0 == k then last.1 else 0)
  }

  /** The keys in order of first occurrence. */
  function FirstSeen<K(==)>(ks: seq<K>): seq<K> {
    if |ks| == 0 then []
    else
      var p := FirstSeen(ks[..|ks| - 1]);
      if ks[|ks| - 1] in p then p else p + [ks[|ks| - 1]]
  }

  // ---- one step of the reduce ----

  lemma TotalUpdate<K>(e: seq<(K, int)>, i: nat, x: (K, int))
    requires i < |e|
    ensures Total(e[i := x]) == Total(e) - e[i].1 + x.1
  {
    if i < |e| - 1 {
      assert e[i := x][..|e| - 1] == e[..|e| - 1][i := x];
      TotalUpdate(e[..|e| - 1], i, x);
    } else {
      assert e[i := x][..|e| - 1] == e[..|e| - 1];
    }
  }

  /** The first position of a key depends on the keys alone. */
  lemma IndexOfSameKeys<K>(a: seq<(K, int)>, b: seq<(K, int)>, k: K)
    requires KeysOf(a) == KeysOf(b)
    ensures IndexOf(a, k) == IndexOf(b, k)
  {
    assert |a| == |KeysOf(a)| == |b|;
    forall j | 0 <= j < |a| ensures a[j].0 == b[j].0 {
      assert KeysOf(a)[j] == a[j].0 && KeysOf(b)[j] == b[j].0;
    }
  }

  /** One spread-and-overwrite step keeps the existing keys in place and appends a new one. */
  lemma AddKeys<K>(e: seq<(K, int)>, k: K, v: int)
    ensures KeysOf(Add(e, k, v)) == if k in KeysOf(e) then KeysOf(e) else KeysOf(e) + [k]
    ensures DistinctKeys(e) ==> DistinctKeys(Add(e, k, v))
  {
    var i := IndexOf(e, k);
    var r := Add(e, k, v);
    if i < 0 {
      assert k !in KeysOf(e);
      assert KeysOf(r) == KeysOf(e) + [k];
    } else {
      assert k in KeysOf(e) by { assert KeysOf(e)[i] == k; }
      assert KeysOf(r) == KeysOf(e);
    }
  }

  /** One step adds the value to its own key and to no other. */
  lemma AddLookup<K>(e: seq<(K, int)>, k: K, v: int, k': K)
    ensures Lookup(Add(e, k, v), k') == Lookup(e, k') + (if k' == k then v else 0)
  {
    var i := IndexOf(e, k);
    var r := Add(e, k, v);
    if i < 0 {
      assert r[..|r| - 1] == e;
      if IndexOf(e, k') < 0 && k' != k {
        assert IndexOf(r, k') < 0;
      } else if IndexOf(e, k') < 0 {
        assert r[|e|].0 == k';
        assert forall j :: 0 <= j < |e| ==> r[j] == e[j];
        assert IndexOf(r, k') == |e|;
      } else {
        assert IndexOf(r, k') == IndexOf(e, k');
      }
    } else {
      AddKeys(e, k, v);
      IndexOfSameKeys(r, e, k');
    }
  }

  /** One step adds its value to the total. */
  lemma AddTotal<K>(e: seq<(K, int)>, k: K, v: int)
    ensures Total(Add(e, k, v)) == Total(e) + v
  {
    var i := IndexOf(e, k);
    if i < 0 {
      assert Add(e, k, v)[..|e|] == e;
    } else {
      TotalUpdate(e, i, (k, e[i].1 + v));
    }
  }

  // ---- what the reduce computes ----

  /**
   * The grouped entries have distinct keys, listed in order of first
   * occurrence in the input.
   */
  lemma {:induction false} GroupSumKeys<K>(items: seq<(K, int)>)
    ensures KeysOf(GroupSum(items)) == FirstSeen(KeysOf(items))
    ensures DistinctKeys(GroupSum(items))
  {
    if |items| > 0 {
      var init := items[..|items| - 1];
      var last := items[|items| - 1];
      var e := GroupSum(init);
      var ks := KeysOf(items);
      GroupSumKeys(init);
      AddKeys(e, last.0, last.1);
      assert GroupSum(items) == Add(e, last.0, last.1);
      assert ks[..|ks| - 1] == KeysOf(init) && ks[|ks| - 1] == last.0;
    }
  }

  /** Every key's entry holds the sum of the values given for that key. */
  lemma {:induction false} GroupSumLookup<K>(items: seq<(K, int)>, k: K)
    ensures Lookup(GroupSum(items), k) == SumWhere(items, k)
  {
    if |items| > 0 {
      var init := items[..|items| - 1];
      var last := items[|items| - 1];
      GroupSumLookup(init, k);
      AddLookup(GroupSum(init), last.0, last.1, k);
    }
  }

  /** Grouping neither loses nor invents any amount. */
  lemma {:induction false} GroupSumTotal<K>(items: seq<(K, int)>)
    ensures Total(GroupSum(items)) == Total(items)
  {
    if |items| > 0 {
      var init := items[..|items| - 1];
      var last := items[|items| - 1];
      GroupSumTotal(init);
      AddTotal(GroupSum(init), last.0, last.1);
    }
  }

  /** A key has an entry exactly when some input item carries it. */
  lemma {:induction false} FirstSeenMembers<K>(ks: seq<K>, k: K)
    ensures k in FirstSeen(ks) <==> k in ks
  {
    if |ks| > 0 {
      FirstSeenMembers(ks[..|ks| - 1], k);
      assert ks == ks[..|ks| - 1] + [ks[|ks| - 1]];
    }
  }

  /** When every item is positive, so is every entry. */
  lemma {:induction false} GroupSumPositive<K>(items: seq<(K, int)>)
    requires forall i :: 0 <= i < |items| ==> items[i].1 > 0
    ensures forall i :: 0 <= i < |GroupSum(items)| ==> GroupSum(items)[i].1 > 0
  {
    if |items| > 0 {
      var init := items[..|items| - 1];
      var last := items[|items| - 1];
      GroupSumPositive(init);
      var e := GroupSum(init);
      var j := IndexOf(e, last.0);
      assert GroupSum(items) == if j < 0 then e + [last] else e[j := (last.0, e[j].1 + last.1)];
    }
  }

  lemma {:induction false} TotalAppend<K>(a: seq<(K, int)>, b: seq<(K, int)>)
    ensures Total(a + b) == Total(a) + Total(b)
    decreases |b|
  {
    if |b| > 0 {
      assert (a + b)[..|a + b| - 1] == a + b[..|b| - 1];
      TotalAppend(a, b[..|b| - 1]);
    } else {
      assert a + b == a;
    }
  }

  /** Two amounts under one key group into a single entry holding their sum. */
  lemma GroupSumTwo<K>(k: K, a: int, b: int)
    ensures GroupSum([(k, a), (k, b)]) == [(k, a + b)]
  {
    var items := [(k, a), (k, b)];
    assert items[..1] == [(k, a)] && items[..1][..0] == [];
    assert GroupSum(items[..1]) == [(k, a)];
    assert IndexOf(GroupSum(items[..1]), k) == 0;
  }

  lemma SumWhereSnoc<K>(e: seq<(K, int)>, x: (K, int), k: K)
    ensures SumWhere(e + [x], k) == SumWhere(e, k) + (if x.0 == k then x.1 else 0)
  {
    assert (e + [x])[..|e|] == e;
  }

  lemma TotalSnoc<K>(e: seq<(K, int)>, x: (K, int))
    ensures Total(e + [x]) == Total(e) + x.1
  {
    assert (e + [x])[..|e|] == e;
  }
}
