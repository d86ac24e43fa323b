/**
 * The explorer's spending pipeline: the transactions it counts, the spend
 * per day or month and per category, the two chart data sets, the total,
 * and the narrowing to one selected category.
 *
 * Money is kept in integer cents (`valueInBaseUnits`); the explorer divides
 * by 100 before summing, which only rescales every figure here.
 */
module Spending {
  import opened Wrappers
  import opened Calendar
  import opened UpApi
  import opened TimeWindow
  import opened Grouping
  import opened Sorting

  // ---- lookups ----

  /**
   * `categoriesObject`: a left fold writing each category's name under its
   * id, so when an id repeats the last name given for it stays.
   */
  function NamesById(categories: seq<Category>): (names: map<string, string>)
    ensures forall id :: id in names <==> exists i :: 0 <= i < |categories| && categories[i].id == id
  {
    if |categories| == 0 then map[]
    else
      var init := categories[..|categories| - 1];
      var last := categories[|categories| - 1];
      assert forall i :: 0 <= i < |init| ==> init[i] == categories[i];
      NamesById(init)[last.id := last.name]
  }

  /** A category's name is the one given by the last category carrying its id. */
  lemma {:induction false} NamesByIdLastWins(categories: seq<Category>, i: nat)
    requires i < |categories|
    requires forall j :: i < j < |categories| ==> categories[j].id != categories[i].id
    ensures NamesById(categories)[categories[i].id] == categories[i].name
  {
    var n := |categories|;
    if i < n - 1 {
      var init := categories[..n - 1];
      assert init[i] == categories[i];
      assert forall j :: i < j < |init| ==> init[j] == categories[j];
      NamesByIdLastWins(init, i);
      assert categories[n - 1].id != categories[i].id;
    }
  }

  /** Without a category listing the lookup is empty. */
  function CategoryNames(categories: Option<seq<Category>>): (names: map<string, string>)
    ensures categories.None? ==> names == map[]
    ensures forall id :: id in names <==> categories.Some? && exists i :: 0 <= i < |categories.value| && categories.value[i].id == id
  {
    match categories
    case None => map[]
    case Some(cs) => NamesById(cs)
  }

  /** `transactionAccount`: the first transactional account, if any. */
  function FirstTransactional(accounts: seq<Account>): (r: Option<Account>)
    ensures r.None? <==> forall i :: 0 <= i < |accounts| ==> accounts[i].accountType != Transactional
    ensures r.Some? ==>
      exists i :: 0 <= i < |accounts| && accounts[i] == r.value
        && r.value.accountType == Transactional
        && forall j :: 0 <= j < i ==> accounts[j].accountType != Transactional
  {
    if |accounts| == 0 then None
    else if accounts[0].accountType == Transactional then Some(accounts[0])
    else
      var r := FirstTransactional(accounts[1..]);
      assert r.Some? ==> exists i :: 1 <= i < |accounts| && accounts[i] == r.value
                                 && forall j :: 0 <= j < i ==> accounts[j].accountType != Transactional;
      r
  }

  // ---- the transactions that count ----

  /** A debit that has a category. */
  predicate Included(t: Transaction) {
    t.amount < 0 && t.category.Some?
  }

  /** `Math.abs(valueInBaseUnits)`. */
  function Spend(t: Transaction): int {
    if t.amount < 0 then -t.amount else t.amount
  }

  /** The pages' transactions, page after page, each page in its own order. */
  function Flatten(pages: seq<Page>): seq<Transaction> {
    if |pages| == 0 then []
    else Flatten(pages[..|pages| - 1]) + pages[|pages| - 1].data
  }

  /** `allTransactionsArray`: no pages yet gives no transactions. */
  function AllTransactions(pages: Option<seq<Page>>): seq<Transaction> {
    match pages
    case None => []
    case Some(ps) => Filter(Flatten(ps), Included)
  }

  lemma FlattenSnoc(ps: seq<Page>, p: Page)
    ensures Flatten(ps + [p]) == Flatten(ps) + p.data
  {
    assert (ps + [p])[..|ps|] == ps;
  }

  lemma {:induction false} FlattenAppend(ps: seq<Page>, qs: seq<Page>)
    ensures Flatten(ps + qs) == Flatten(ps) + Flatten(qs)
    decreases |qs|
  {
    if |qs| == 0 {
      assert ps + qs == ps;
    } else {
      var init, last := qs[..|qs| - 1], qs[|qs| - 1];
      assert qs == init + [last];
      assert ps + qs == (ps + init) + [last];
      FlattenAppend(ps, init);
      FlattenSnoc(ps + init, last);
      FlattenSnoc(init, last);
      assert Flatten(ps) + Flatten(init) + last.data == Flatten(ps) + (Flatten(init) + last.data);
    }
  }

  lemma {:induction false} FlattenMembers(ps: seq<Page>, t: Transaction)
    ensures t in Flatten(ps) <==> exists i :: 0 <= i < |ps| && t in ps[i].data
  {
    if |ps| > 0 {
      var init := ps[..|ps| - 1];
      FlattenMembers(init, t);
      assert forall i :: 0 <= i < |init| ==> init[i] == ps[i];
    }
  }

  /**
   * A transaction is listed exactly when it is a categorised debit found on
   * one of the pages.
   */
  lemma AllTransactionsMembers(ps: seq<Page>, t: Transaction)
    ensures t in AllTransactions(Some(ps)) <==>
      Included(t) && exists i :: 0 <= i < |ps| && t in ps[i].data
  {
    FlattenMembers(ps, t);
    FilterMembers(Flatten(ps), Included, t);
  }

  /** Fetching more pages appends their transactions after the ones already listed. */
  lemma AllTransactionsByPage(ps: seq<Page>, qs: seq<Page>)
    ensures AllTransactions(Some(ps + qs)) == AllTransactions(Some(ps)) + AllTransactions(Some(qs))
  {
    FlattenAppend(ps, qs);
    FilterAppend(Flatten(ps), Flatten(qs), Included);
  }

  lemma ExcludedDropped(a: seq<Transaction>, t: Transaction, b: seq<Transaction>)
    requires !Included(t)
    ensures Filter(a + [t] + b, Included) == Filter(a + b, Included)
  {
    FilterAppend(a + [t], b, Included);
    FilterAppend(a, [t], Included);
    FilterAppend(a, b, Included);
    FilterSingle(t, Included);
  }

  lemma FlattenOne(p: Page)
    ensures Flatten([p]) == p.data
  {
    assert [p][..0] == [];
  }

  lemma FlattenThree(a: seq<Page>, p: Page, b: seq<Page>)
    ensures Flatten(a + [p] + b) == Flatten(a) + p.data + Flatten(b)
  {
    FlattenAppend(a + [p], b);
    FlattenAppend(a, [p]);
    FlattenOne(p);
  }

  /** Removing an excluded transaction from a page changes nothing downstream. */
  lemma ExcludedIgnored(ps: seq<Page>, i: nat, xs: seq<Transaction>, t: Transaction, ys: seq<Transaction>)
    requires i < |ps| && ps[i].data == xs + [t] + ys
    requires !Included(t)
    ensures AllTransactions(Some(ps)) == AllTransactions(Some(ps[i := Page(xs + ys, ps[i].next)]))
  {
    var qs := ps[i := Page(xs + ys, ps[i].next)];
    var before, after := ps[..i], ps[i + 1..];
    assert ps == before + [ps[i]] + after;
    assert qs == before + [qs[i]] + after;
    FlattenThree(before, ps[i], after);
    FlattenThree(before, qs[i], after);
    var a, b := Flatten(before) + xs, ys + Flatten(after);
    assert Flatten(ps) == a + [t] + b;
    assert Flatten(qs) == a + b;
    ExcludedDropped(a, t, b);
  }

  // ---- spend over time ----

  /** A day (`toLocaleDateString`) or a month (`MMM yyyy`) of local time. */
  datatype BucketKey = DayBucket(date: Date) | MonthBucket(year: int, month: int)

  function BucketOf(filter: TimeFilter, t: Transaction): BucketKey {
    if UsesMonthBuckets(filter) then MonthBucket(t.createdAt.date.year, t.createdAt.date.month)
    else DayBucket(t.createdAt.date)
  }

  function BucketsOf(filter: TimeFilter, ts: seq<Transaction>): seq<BucketKey> {
    seq(|ts|, i requires 0 <= i < |ts| => BucketOf(filter, ts[i]))
  }

  function TimeItems(filter: TimeFilter, ts: seq<Transaction>): seq<(BucketKey, int)> {
    seq(|ts|, i requires 0 <= i < |ts| => (BucketOf(filter, ts[i]), Spend(ts[i])))
  }

  /** `spendByDayOrMonth`: the spend added up per bucket, buckets in first-seen order. */
  function SpendByDayOrMonth(filter: TimeFilter, ts: seq<Transaction>): seq<(BucketKey, int)> {
    GroupSum(TimeItems(filter, ts))
  }

  function InBucket(filter: TimeFilter, k: BucketKey): Transaction -> bool {
    (t: Transaction) => BucketOf(filter, t) == k
  }

  lemma TimeItemsSnoc(filter: TimeFilter, init: seq<Transaction>, last: Transaction)
    ensures TimeItems(filter, init + [last]) == TimeItems(filter, init) + [(BucketOf(filter, last), Spend(last))]
  {
  }

  lemma {:induction false} TimeItemsSumWhere(filter: TimeFilter, ts: seq<Transaction>, k: BucketKey)
    ensures SumWhere(TimeItems(filter, ts), k) == SumOf(Filter(ts, InBucket(filter, k)), Spend)
  {
    if |ts| > 0 {
      var init, last := ts[..|ts| - 1], ts[|ts| - 1];
      TimeItemsSumWhere(filter, init, k);
      assert ts == init + [last];
      TimeItemsSnoc(filter, init, last);
      SumWhereSnoc(TimeItems(filter, init), (BucketOf(filter, last), Spend(last)), k);
      FilterSumSnoc(init, last, InBucket(filter, k), Spend);
    }
  }

  lemma {:induction false} TimeItemsTotal(filter: TimeFilter, ts: seq<Transaction>)
    ensures Total(TimeItems(filter, ts)) == SumOf(ts, Spend)
  {
    if |ts| > 0 {
      var init, last := ts[..|ts| - 1], ts[|ts| - 1];
      TimeItemsTotal(filter, init);
      assert ts == init + [last];
      TimeItemsSnoc(filter, init, last);
      TotalSnoc(TimeItems(filter, init), (BucketOf(filter, last), Spend(last)));
      SumOfSnoc(init, last, Spend);
    }
  }

  /**
   * Each bucket appears once, buckets in order of first appearance, and a
   * bucket holds the spend of exactly the transactions falling in it.
   */
  lemma SpendByDayOrMonthBuckets(filter: TimeFilter, ts: seq<Transaction>)
    ensures KeysOf(SpendByDayOrMonth(filter, ts)) == FirstSeen(BucketsOf(filter, ts))
    ensures DistinctKeys(SpendByDayOrMonth(filter, ts))
    ensures forall k :: Lookup(SpendByDayOrMonth(filter, ts), k)
                     == SumOf(Filter(ts, InBucket(filter, k)), Spend)
  {
    assert KeysOf(TimeItems(filter, ts)) == BucketsOf(filter, ts);
    GroupSumKeys(TimeItems(filter, ts));
    forall k ensures Lookup(SpendByDayOrMonth(filter, ts), k) == SumOf(Filter(ts, InBucket(filter, k)), Spend) {
      GroupSumLookup(TimeItems(filter, ts), k);
      TimeItemsSumWhere(filter, ts, k);
    }
  }

  /** Buckets follow the calendar month exactly for `this-year`, `last-year` and `all-time`. */
  lemma BucketGranularity(filter: TimeFilter, t: Transaction)
    ensures BucketOf(filter, t).MonthBucket? <==> filter in {ThisYear, LastYear, AllTime}
  {
    MonthBucketsExactly(filter);
  }

  /** Over debits only, every bucket's spend is positive. */
  lemma SpendByDayOrMonthPositive(filter: TimeFilter, ts: seq<Transaction>)
    requires forall i :: 0 <= i < |ts| ==> ts[i].amount < 0
    ensures forall i :: 0 <= i < |SpendByDayOrMonth(filter, ts)| ==> SpendByDayOrMonth(filter, ts)[i].1 > 0
  {
    GroupSumPositive(TimeItems(filter, ts));
  }

  // ---- spend per category ----

  /**
   * The reduce behind `spendSummaryByCategory`: a transaction adds its spend
   * under its category id when it has a category and when it is a debit, and
   * is passed over otherwise.
   */
  function CategoryItems(ts: seq<Transaction>): seq<(string, int)> {
    if |ts| == 0 then []
    else
      var t := ts[|ts| - 1];
      CategoryItems(ts[..|ts| - 1])
        + if t.category.Some? then (if t.amount < 0 then [(t.category.value, Spend(t))] else []) else []
  }

  function SpendByCategory(ts: seq<Transaction>): seq<(string, int)> {
    GroupSum(CategoryItems(ts))
  }

  function CategoryIdsOf(ts: seq<Transaction>): seq<string>
    requires forall i :: 0 <= i < |ts| ==> Included(ts[i])
  {
    seq(|ts|, i requires 0 <= i < |ts| && Included(ts[i]) => ts[i].category.value)
  }

  function InCategory(c: string): Transaction -> bool {
    (t: Transaction) => t.category == Some(c)
  }

  /** The two checks inside the reduce pass over exactly the transactions the inclusion filter drops. */
  lemma {:induction false} CategoryChecksAreInclusion(ts: seq<Transaction>)
    ensures CategoryItems(ts) == CategoryItems(Filter(ts, Included))
  {
    if |ts| > 0 {
      var init, last := ts[..|ts| - 1], ts[|ts| - 1];
      CategoryChecksAreInclusion(init);
      assert ts == init + [last];
      FilterAppend(init, [last], Included);
      CategoryItemsAppend(Filter(init, Included), Filter([last], Included));
      CategoryItemsAppend(init, [last]);
      CategoryItemsAppend(Filter(init, Included), []);
      assert Filter(init, Included) + [] == Filter(init, Included);
    }
  }

  lemma {:induction false} CategoryItemsAppend(a: seq<Transaction>, b: seq<Transaction>)
    ensures CategoryItems(a + b) == CategoryItems(a) + CategoryItems(b)
    decreases |b|
  {
    if |b| == 0 {
      assert a + b == a;
    } else {
      assert (a + b)[..|a + b| - 1] == a + b[..|b| - 1];
      CategoryItemsAppend(a, b[..|b| - 1]);
    }
  }

  /** Over included transactions the reduce never passes one over. */
  lemma {:induction false} CategoryItemsIncluded(ts: seq<Transaction>)
    requires forall i :: 0 <= i < |ts| ==> Included(ts[i])
    ensures KeysOf(CategoryItems(ts)) == CategoryIdsOf(ts)
    ensures forall i :: 0 <= i < |ts| ==> CategoryItems(ts)[i].1 == Spend(ts[i])
  {
    if |ts| > 0 {
      var init, last := ts[..|ts| - 1], ts[|ts| - 1];
      CategoryItemsIncluded(init);
      assert CategoryItems(ts) == CategoryItems(init) + [(last.category.value, Spend(last))];
      assert CategoryIdsOf(ts) == CategoryIdsOf(init) + [last.category.value];
    }
  }

  /** What the last transaction adds to the category items. */
  lemma CategoryItemsSnoc(init: seq<Transaction>, last: Transaction)
    ensures CategoryItems(init + [last])
         == CategoryItems(init) + if Included(last) then [(last.category.value, Spend(last))] else []
  {
    assert (init + [last])[..|init|] == init;
  }

  lemma {:induction false} CategoryItemsSumWhere(ts: seq<Transaction>, c: string)
    ensures SumWhere(CategoryItems(ts), c) == SumOf(Filter(Filter(ts, Included), InCategory(c)), Spend)
  {
    if |ts| > 0 {
      var init, last := ts[..|ts| - 1], ts[|ts| - 1];
      var gain := if Included(last) && last.category == Some(c) then Spend(last) else 0;
      CategoryItemsSumWhere(init, c);
      assert ts == init + [last];
      assert SumWhere(CategoryItems(ts), c) == SumWhere(CategoryItems(init), c) + gain by {
        var before := CategoryItems(init);
        CategoryItemsSnoc(init, last);
        if Included(last) {
          SumWhereSnoc(before, (last.category.value, Spend(last)), c);
        } else {
          assert before + [] == before;
        }
      }
      assert SumOf(Filter(Filter(ts, Included), InCategory(c)), Spend)
          == SumOf(Filter(Filter(init, Included), InCategory(c)), Spend) + gain by {
        FilterSnoc(init, last, Included);
        if Included(last) {
          FilterSumSnoc(Filter(init, Included), last, InCategory(c), Spend);
        } else {
          assert Filter(init, Included) + [] == Filter(init, Included);
        }
      }
    }
  }

  lemma {:induction false} CategoryItemsTotal(ts: seq<Transaction>)
    ensures Total(CategoryItems(ts)) == SumOf(Filter(ts, Included), Spend)
  {
    if |ts| > 0 {
      var init, last := ts[..|ts| - 1], ts[|ts| - 1];
      CategoryItemsTotal(init);
      assert ts == init + [last];
      CategoryItemsSnoc(init, last);
      FilterSumSnoc(init, last, Included, Spend);
      var before := CategoryItems(init);
      if Included(last) {
        TotalSnoc(before, (last.category.value, Spend(last)));
      } else {
        assert before + [] == before;
      }
    }
  }

  /**
   * Each category appears once, in order of its first included transaction,
   * and holds the spend of exactly the included transactions in it.
   */
  lemma SpendByCategoryBuckets(ts: seq<Transaction>)
    ensures DistinctKeys(SpendByCategory(ts))
    ensures (forall i :: 0 <= i < |ts| ==> Included(ts[i])) ==>
      KeysOf(SpendByCategory(ts)) == FirstSeen(CategoryIdsOf(ts))
    ensures forall c :: Lookup(SpendByCategory(ts), c)
                     == SumOf(Filter(Filter(ts, Included), InCategory(c)), Spend)
    ensures forall i :: 0 <= i < |SpendByCategory(ts)| ==> SpendByCategory(ts)[i].1 > 0
  {
    GroupSumKeys(CategoryItems(ts));
    if forall i :: 0 <= i < |ts| ==> Included(ts[i]) {
      CategoryItemsIncluded(ts);
    }
    forall c ensures Lookup(SpendByCategory(ts), c) == SumOf(Filter(Filter(ts, Included), InCategory(c)), Spend) {
      GroupSumLookup(CategoryItems(ts), c);
      CategoryItemsSumWhere(ts, c);
    }
    CategoryItemsPositive(ts);
    GroupSumPositive(CategoryItems(ts));
  }

  lemma {:induction false} CategoryItemsPositive(ts: seq<Transaction>)
    ensures forall i :: 0 <= i < |CategoryItems(ts)| ==> CategoryItems(ts)[i].1 > 0
  {
    if |ts| > 0 {
      CategoryItemsPositive(ts[..|ts| - 1]);
    }
  }

  /** Every counted transaction is a categorised debit. */
  lemma AllTransactionsIncluded(pages: Option<seq<Page>>)
    ensures forall i :: 0 <= i < |AllTransactions(pages)| ==> Included(AllTransactions(pages)[i])
  {
    var ts := AllTransactions(pages);
    if pages.Some? {
      forall i | 0 <= i < |ts| ensures Included(ts[i]) {
        FilterMembers(Flatten(pages.value), Included, ts[i]);
      }
    }
  }

  /**
   * `totalSpend`: the category totals add up to the spend of every included
   * transaction, which is also what the time buckets add up to.
   */
  lemma TotalsAgree(filter: TimeFilter, pages: Option<seq<Page>>)
    ensures Total(SpendByCategory(AllTransactions(pages))) == SumOf(AllTransactions(pages), Spend)
    ensures Total(SpendByDayOrMonth(filter, AllTransactions(pages))) == SumOf(AllTransactions(pages), Spend)
  {
    var ts := AllTransactions(pages);
    AllTransactionsIncluded(pages);
    FilterKeepsAll(ts, Included);
    GroupSumTotal(CategoryItems(ts));
    CategoryItemsTotal(ts);
    GroupSumTotal(TimeItems(filter, ts));
    TimeItemsTotal(filter, ts);
  }

  // ---- chart data ----

  datatype BarDatum = BarDatum(amount: int, date: BucketKey)

  /**
   * `.sort()` with no comparator compares the elements' strings, and every
   * datum converts to the same string, "[object Object]".
   */
  function ObjectStringRank(d: BarDatum): int {
    0
  }

  function BarChartData(byBucket: seq<(BucketKey, int)>): seq<BarDatum> {
    SortBy(seq(|byBucket|, i requires 0 <= i < |byBucket| => BarDatum(byBucket[i].1, byBucket[i].0)),
           ObjectStringRank)
  }

  /** The bars stay in the buckets' first-seen order; the sort moves nothing. */
  lemma BarChartKeepsBucketOrder(byBucket: seq<(BucketKey, int)>)
    ensures |BarChartData(byBucket)| == |byBucket|
    ensures forall i :: 0 <= i < |byBucket| ==>
      BarChartData(byBucket)[i] == BarDatum(byBucket[i].1, byBucket[i].0)
  {
    var bars := seq(|byBucket|, i requires 0 <= i < |byBucket| => BarDatum(byBucket[i].1, byBucket[i].0));
    SortByConstantKey(bars, ObjectStringRank, 0);
  }

  /** A pie slice; the name is missing when the category lookup has no entry. */
  datatype PieDatum = PieDatum(amount: int, categoryId: string, categoryName: Option<string>)

  function Slices(byCategory: seq<(string, int)>, names: map<string, string>): seq<PieDatum> {
    seq(|byCategory|, i requires 0 <= i < |byCategory| =>
      PieDatum(byCategory[i].1, byCategory[i].0,
               if byCategory[i].0 in names then Some(names[byCategory[i].0]) else None))
  }

  function SliceAmount(d: PieDatum): int {
    d.amount
  }

  /** `pieChartData`: the slices sorted by `a.amount - b.amount`. */
  function PieChartData(byCategory: seq<(string, int)>, names: map<string, string>): seq<PieDatum> {
    SortBy(Slices(byCategory, names), SliceAmount)
  }

  /**
   * The slices come smallest amount first, are the categories' slices
   * rearranged, and slices of equal amount keep their first-seen order.
   */
  lemma PieChartOrder(byCategory: seq<(string, int)>, names: map<string, string>)
    ensures SortedBy(PieChartData(byCategory, names), SliceAmount)
    ensures multiset(PieChartData(byCategory, names)) == multiset(Slices(byCategory, names))
    ensures forall a :: WithKey(PieChartData(byCategory, names), SliceAmount, a)
                     == WithKey(Slices(byCategory, names), SliceAmount, a)
  {
    SortByCorrect(Slices(byCategory, names), SliceAmount);
  }

  // ---- narrowing to a selected category ----

  function SelectedSlice(selected: Option<string>): PieDatum -> bool {
    (d: PieDatum) => !IsTruthy(selected) || d.categoryId == selected.value
  }

  /** The pie's data: every slice, or only the selected category's. */
  function NarrowPie(pie: seq<PieDatum>, selected: Option<string>): seq<PieDatum> {
    Filter(pie, SelectedSlice(selected))
  }

  function SelectedTransaction(selected: Option<string>): Transaction -> bool {
    (t: Transaction) => !IsTruthy(selected) || (t.category.Some? && selected.value == t.category.value)
  }

  function CreatedAtKey(t: Transaction): int {
    InstantKey(t.createdAt)
  }

  /** The transaction list: the selected category's transactions, oldest first. */
  function Listing(ts: seq<Transaction>, selected: Option<string>): seq<Transaction> {
    SortBy(Filter(ts, SelectedTransaction(selected)), CreatedAtKey)
  }

  /** With no selection (or an empty one) nothing is narrowed. */
  lemma NoSelectionShowsAll(pie: seq<PieDatum>, ts: seq<Transaction>, selected: Option<string>)
    requires !IsTruthy(selected)
    ensures NarrowPie(pie, selected) == pie
    ensures Listing(ts, selected) == SortBy(ts, CreatedAtKey)
  {
    FilterKeepsAll(pie, SelectedSlice(selected));
    FilterKeepsAll(ts, SelectedTransaction(selected));
  }

  lemma {:induction false} SlicesWithout(byCategory: seq<(string, int)>, names: map<string, string>, c: string)
    requires forall i :: 0 <= i < |byCategory| ==> byCategory[i].0 != c
    requires c != ""
    ensures Filter(Slices(byCategory, names), SelectedSlice(Some(c))) == []
  {
    if |byCategory| > 0 {
      assert Slices(byCategory, names)[1..] == Slices(byCategory[1..], names);
      SlicesWithout(byCategory[1..], names, c);
    }
  }

  lemma {:induction false} SlicesSelect(byCategory: seq<(string, int)>, names: map<string, string>, c: string)
    requires DistinctKeys(byCategory)
    requires c != ""
    ensures Filter(Slices(byCategory, names), SelectedSlice(Some(c)))
         == if c in KeysOf(byCategory)
            then [PieDatum(Lookup(byCategory, c), c, if c in names then Some(names[c]) else None)]
            else []
  {
    if |byCategory| == 0 {
    } else {
      var rest := byCategory[1..];
      assert Slices(byCategory, names)[1..] == Slices(rest, names);
      assert KeysOf(byCategory) == [byCategory[0].0] + KeysOf(rest);
      if byCategory[0].0 == c {
        assert forall i :: 0 <= i < |rest| ==> rest[i].0 != c by {
          forall i | 0 <= i < |rest| ensures rest[i].0 != c {
            assert rest[i] == byCategory[i + 1];
          }
        }
        SlicesWithout(rest, names, c);
      } else {
        assert DistinctKeys(rest) by {
          forall i, j | 0 <= i < j < |rest| ensures rest[i].0 != rest[j].0 {
            assert rest[i] == byCategory[i + 1] && rest[j] == byCategory[j + 1];
          }
        }
        SlicesSelect(rest, names, c);
        assert Lookup(byCategory, c) == Lookup(rest, c);
      }
    }
  }

  /**
   * Selecting a category leaves the pie with that category's slice alone,
   * carrying the category's whole spend, or with no slice when the category
   * has no spend in the window.
   */
  lemma SelectedPie(ts: seq<Transaction>, names: map<string, string>, c: string)
    requires c != ""
    ensures NarrowPie(PieChartData(SpendByCategory(ts), names), Some(c))
         == if c in KeysOf(SpendByCategory(ts))
            then [PieDatum(SumOf(Filter(Filter(ts, Included), InCategory(c)), Spend), c,
                           if c in names then Some(names[c]) else None)]
            else []
  {
    var e := SpendByCategory(ts);
    SpendByCategoryBuckets(ts);
    SortByFilter(Slices(e, names), SliceAmount, SelectedSlice(Some(c)));
    SlicesSelect(e, names, c);
  }

  /** A non-empty selection picks the transactions of that category. */
  lemma SelectionIsCategory(ts: seq<Transaction>, c: string)
    requires c != ""
    ensures Filter(ts, SelectedTransaction(Some(c))) == Filter(ts, InCategory(c))
  {
    FilterSame(ts, SelectedTransaction(Some(c)), InCategory(c));
  }

  /**
   * The selected category's transaction list is oldest first and holds
   * exactly the category's transactions, equal timestamps in fetched order.
   */
  lemma SelectedListing(ts: seq<Transaction>, c: string)
    requires c != ""
    ensures SortedBy(Listing(ts, Some(c)), CreatedAtKey)
    ensures forall t :: t in Listing(ts, Some(c)) <==> t in ts && t.category == Some(c)
    ensures forall k :: WithKey(Listing(ts, Some(c)), CreatedAtKey, k)
                     == WithKey(Filter(ts, InCategory(c)), CreatedAtKey, k)
  {
    var f := Filter(ts, InCategory(c));
    SelectionIsCategory(ts, c);
    SortByCorrect(f, CreatedAtKey);
    forall t ensures t in Listing(ts, Some(c)) <==> t in ts && t.category == Some(c) {
      FilterMembers(ts, InCategory(c), t);
      assert t in Listing(ts, Some(c)) <==> t in multiset(f);
    }
  }

  /**
   * The line under the pie while a category is selected: `valueFormatter` of
   * that category's entry in the spend summary. `RenderThrows` stands for the
   * `TypeError` raised when there is no entry and `undefined` is formatted.
   */
  datatype Caption = NoCaption | Shows(amount: int) | RenderThrows

  /** The caption as written: a selected category without an entry throws. */
  function SelectedCaption(byCategory: seq<(string, int)>, selected: Option<string>): (r: Caption)
    ensures r.NoCaption? <==> !IsTruthy(selected)
    ensures r.RenderThrows? <==> IsTruthy(selected) && selected.value !in KeysOf(byCategory)
    ensures r.Shows? ==> r.amount == Lookup(byCategory, selected.value)
  {
    if !IsTruthy(selected) then NoCaption
    else if selected.value in KeysOf(byCategory) then Shows(Lookup(byCategory, selected.value))
    else RenderThrows
  }

  /** The caption corrected: a selected category without an entry shows 0. */
  function SelectedCaptionFixed(byCategory: seq<(string, int)>, selected: Option<string>): (r: Caption)
    ensures r.NoCaption? <==> !IsTruthy(selected)
    ensures !r.RenderThrows?
  {
    if !IsTruthy(selected) then NoCaption
    else Shows(Lookup(byCategory, selected.value))
  }

  /** The corrected caption is the total of the selected listing. */
  lemma SelectedListingTotal(ts: seq<Transaction>, c: string)
    requires c != ""
    requires forall i :: 0 <= i < |ts| ==> Included(ts[i])
    ensures SelectedCaptionFixed(SpendByCategory(ts), Some(c)) == Shows(SumOf(Listing(ts, Some(c)), Spend))
  {
    var f := Filter(ts, InCategory(c));
    assert SumOf(Listing(ts, Some(c)), Spend) == SumOf(f, Spend) by {
      SelectionIsCategory(ts, c);
      SortByCorrect(f, CreatedAtKey);
    }
    assert Lookup(SpendByCategory(ts), c) == SumOf(f, Spend) by {
      GroupSumLookup(CategoryItems(ts), c);
      CategoryItemsSumWhere(ts, c);
      FilterKeepsAll(ts, Included);
    }
  }

  /**
   * The summary has an entry for the selected category exactly when its
   * listing is non-empty, so the caption as written throws exactly when the
   * listing is empty.
   */
  lemma SelectedCategoryHasEntry(ts: seq<Transaction>, c: string)
    requires c != ""
    requires forall i :: 0 <= i < |ts| ==> Included(ts[i])
    ensures c in KeysOf(SpendByCategory(ts)) <==> Listing(ts, Some(c)) != []
  {
    SpendByCategoryBuckets(ts);
    var ids := CategoryIdsOf(ts);
    FirstSeenMembers(ids, c);
    SelectedListing(ts, c);
    var l := Listing(ts, Some(c));
    if c in ids {
      var i :| 0 <= i < |ids| && ids[i] == c;
      assert ts[i] in l;
    }
    if l != [] {
      assert l[0] in ts && l[0].category == Some(c);
      var i :| 0 <= i < |ts| && ts[i] == l[0];
      assert ids[i] == c;
    }
  }

  /** As written, selecting a category that has no transactions in the window throws. */
  lemma CaptionThrowsWithoutSpend(ts: seq<Transaction>, c: string)
    requires c != ""
    requires forall i :: 0 <= i < |ts| ==> Included(ts[i]) && ts[i].category != Some(c)
    ensures SelectedCaption(SpendByCategory(ts), Some(c)) == RenderThrows
  {
    SpendByCategoryBuckets(ts);
    var ids := CategoryIdsOf(ts);
    FirstSeenMembers(ids, c);
    assert forall i :: 0 <= i < |ids| ==> ids[i] != c;
  }

  /** Over valid timestamps, sorted by key is chronological. */
  lemma ListingChronological(ts: seq<Transaction>, selected: Option<string>)
    requires forall i :: 0 <= i < |ts| ==> ValidInstant(ts[i].createdAt)
    ensures forall i, j :: 0 <= i < j < |Listing(ts, selected)| ==>
      InstantLe(Listing(ts, selected)[i].createdAt, Listing(ts, selected)[j].createdAt)
  {
    var l := Listing(ts, selected);
    SortByCorrect(Filter(ts, SelectedTransaction(selected)), CreatedAtKey);
    forall i, j | 0 <= i < j < |l| ensures InstantLe(l[i].createdAt, l[j].createdAt) {
      assert l[i] in multiset(Filter(ts, SelectedTransaction(selected)));
      assert l[j] in multiset(Filter(ts, SelectedTransaction(selected)));
      FilterMembers(ts, SelectedTransaction(selected), l[i]);
      FilterMembers(ts, SelectedTransaction(selected), l[j]);
      InstantKeyOrder(l[i].createdAt, l[j].createdAt);
    }
  }

  // ---- a worked example ----

  /** Two debits in category A, a credit in B and an uncategorised debit, on one page. */
  function ExamplePage(): Page {
    Page([Transaction("1", "", Instant(Date(2024, 3, 1), 0), -1000, Some("A")),
          Transaction("2", "", Instant(Date(2024, 3, 2), 0), -500, Some("A")),
          Transaction("3", "", Instant(Date(2024, 3, 1), 0), 2000, Some("B")),
          Transaction("4", "", Instant(Date(2024, 3, 1), 0), -300, None)],
         None)
  }

  /**
   * Only the two category-A debits count: A holds all 1500 cents of spend,
   * and over `all-time` they share the one month bucket of March 2024.
   */
  lemma ExampleSpend()
    ensures var ts := AllTransactions(Some([ExamplePage()]));
      && ts == ExamplePage().data[..2]
      && SpendByCategory(ts) == [("A", 1500)]
      && SumOf(ts, Spend) == 1500
      && SpendByDayOrMonth(AllTime, ts) == [(MonthBucket(2024, 3), 1500)]
  {
    ExampleIncluded();
    var ts := ExamplePage().data[..2];
    ExampleByCategory(ts, "A");
    ExampleByMonth(ts, AllTime, 2024, 3);
    assert ts[1..][1..] == [];
  }

  /** Only the two category-A debits are included. */
  lemma ExampleIncluded()
    ensures AllTransactions(Some([ExamplePage()])) == ExamplePage().data[..2]
  {
    var d := ExamplePage().data;
    FlattenOne(ExamplePage());
    assert d[1..][1..][1..][1..] == [];
  }

  /** Two included debits of one category make one slice holding both. */
  lemma ExampleByCategory(ts: seq<Transaction>, c: string)
    requires |ts| == 2 && Included(ts[0]) && Included(ts[1])
    requires ts[0].category == Some(c) && ts[1].category == Some(c)
    ensures SpendByCategory(ts) == [(c, Spend(ts[0]) + Spend(ts[1]))]
  {
    var first := [ts[0]];
    assert [] + [ts[0]] == first && first + [ts[1]] == ts;
    CategoryItemsSnoc([], ts[0]);
    CategoryItemsSnoc(first, ts[1]);
    assert CategoryItems(first) == [(c, Spend(ts[0]))];
    assert CategoryItems(ts) == [(c, Spend(ts[0])), (c, Spend(ts[1]))];
    GroupSumTwo(c, Spend(ts[0]), Spend(ts[1]));
  }

  /** Two transactions of one month make one monthly bar holding both. */
  lemma ExampleByMonth(ts: seq<Transaction>, filter: TimeFilter, y: int, m: int)
    requires |ts| == 2 && UsesMonthBuckets(filter)
    requires ts[0].createdAt.date.year == y && ts[0].createdAt.date.month == m
    requires ts[1].createdAt.date.year == y && ts[1].createdAt.date.month == m
    ensures SpendByDayOrMonth(filter, ts) == [(MonthBucket(y, m), Spend(ts[0]) + Spend(ts[1]))]
  {
    var times := TimeItems(filter, ts);
    assert times == [(MonthBucket(y, m), Spend(ts[0])), (MonthBucket(y, m), Spend(ts[1]))];
    GroupSumTwo(MonthBucket(y, m), Spend(ts[0]), Spend(ts[1]));
  }
}
