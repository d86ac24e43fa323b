/**
 * The explorer component's own state, the quick filter and the selected
 * category, and one render: the window, the fetch request, and everything
 * drawn from the fetched pages.
 */
module ExplorerState {
  import opened Wrappers
  import opened Calendar
  import opened UpApi
  import opened TimeWindow
  import opened Grouping
  import opened Sorting
  import opened Spending
  import opened TransactionsHook

  /** What one render computes. */
  datatype View = View(
    since: Date,
    until: Date,
    account: Option<string>,
    fetchSince: Option<Date>,
    fetchUntil: Option<Date>,
    bars: seq<BarDatum>,
    pie: seq<PieDatum>,
    total: int,
    listing: seq<Transaction>,
    shown: bool,
    caption: Caption)

  function AccountId(a: Option<Account>): Option<string> {
    match a
    case None => None
    case Some(acc) => Some(acc.id)
  }

  class Explorer {
    var timeFilter: TimeFilter
    var selectedCategory: Option<string>

    /** Opens on today's spend with no category selected. */
    constructor()
      ensures timeFilter == Today && selectedCategory == None
    {
      timeFilter := Today;
      selectedCategory := None;
    }

    /** A quick-filter button; the category selection is kept. */
    method SetTimeFilter(f: TimeFilter)
      modifies this
      ensures timeFilter == f && selectedCategory == old(selectedCategory)
    {
      timeFilter := f;
    }

    /**
     * Clicking a pie slice selects its category, narrowing the pie to that
     * category's slices; an empty id selects nothing, being falsy.
     */
    method SelectSlice(d: PieDatum)
      modifies this
      ensures selectedCategory == Some(d.categoryId) && timeFilter == old(timeFilter)
      ensures d.categoryId != "" ==> forall pie: seq<PieDatum>, s ::
        s in NarrowPie(pie, selectedCategory) <==> s in pie && s.categoryId == d.categoryId
      ensures d.categoryId == "" ==> forall pie: seq<PieDatum> :: NarrowPie(pie, selectedCategory) == pie
    {
      selectedCategory := Some(d.categoryId);
      forall pie: seq<PieDatum>, s | true
        ensures s in NarrowPie(pie, selectedCategory) <==> s in pie && (d.categoryId == "" || s.categoryId == d.categoryId)
      {
        FilterMembers(pie, SelectedSlice(selectedCategory), s);
      }
      if d.categoryId == "" {
        forall pie: seq<PieDatum> ensures NarrowPie(pie, selectedCategory) == pie {
          FilterKeepsAll(pie, SelectedSlice(selectedCategory));
        }
      }
    }

    /** "Clear Category": the pie shows every slice again. */
    method ClearCategory()
      modifies this
      ensures selectedCategory == None && timeFilter == old(timeFilter)
      ensures forall pie: seq<PieDatum> :: NarrowPie(pie, selectedCategory) == pie
    {
      selectedCategory := None;
      forall pie: seq<PieDatum> ensures NarrowPie(pie, selectedCategory) == pie {
        FilterKeepsAll(pie, SelectedSlice(selectedCategory));
      }
    }

    /**
     * One render, given the clock's day and what the three fetches returned.
     * The window is the one the quick filter selects; the request goes to the
     * first transactional account with the window's bounds (none for
     * `all-time`); the bars and the pie come from the included transactions,
     * the pie narrowed to the selection; the total is their whole spend;
     * the listing is the selection's transactions oldest first. The spending
     * section, and with it the caption, is drawn only once the transactions
     * have stopped loading and the category listing has arrived; `shown`
     * records that, and a hidden section carries no caption.
     */
    method Render(now: Date, categories: Option<seq<Category>>, accounts: Option<seq<Account>>,
                  pages: Option<seq<Page>>, error: bool, size: nat) returns (v: View)
      requires ValidDate(now)
      ensures ValidDate(v.since) && ValidDate(v.until) && DateLe(v.since, v.until)
      ensures (timeFilter == Today || timeFilter == AllTime) ==> v.since == now && v.until == now
      ensures accounts.None? ==> v.account.None?
      ensures accounts.Some? ==> v.account == AccountId(FirstTransactional(accounts.value))
      ensures (v.fetchSince, v.fetchUntil) == FetchBounds(timeFilter, v.since, v.until)
      ensures v.bars == BarChartData(SpendByDayOrMonth(timeFilter, AllTransactions(pages)))
      ensures v.pie == NarrowPie(PieChartData(SpendByCategory(AllTransactions(pages)), CategoryNames(categories)),
                                 selectedCategory)
      ensures v.total == SumOf(AllTransactions(pages), Spend)
      ensures v.total == Total(SpendByDayOrMonth(timeFilter, AllTransactions(pages)))
      ensures v.listing == Listing(AllTransactions(pages), selectedCategory)
      ensures v.shown <==> !IsLoading(pages, error, size) && categories.Some?
      ensures !v.shown ==> v.caption == NoCaption
      ensures v.shown ==> v.caption == SelectedCaption(SpendByCategory(AllTransactions(pages)), selectedCategory)
      ensures v.shown && IsTruthy(selectedCategory) ==>
                v.caption == (if v.listing == [] then RenderThrows else Shows(SumOf(v.listing, Spend)))
    {
      var since, until := ResolveWindow(timeFilter, now);
      var account := if accounts.Some? then AccountId(FirstTransactional(accounts.value)) else None;
      var bounds := FetchBounds(timeFilter, since, until);
      var ts := AllTransactions(pages);
      var byCategory := SpendByCategory(ts);
      var shown := !IsLoading(pages, error, size) && categories.Some?;
      assert Total(byCategory) == SumOf(ts, Spend) == Total(SpendByDayOrMonth(timeFilter, ts)) by {
        TotalsAgree(timeFilter, pages);
      }
      var caption := if shown then SelectedCaption(byCategory, selectedCategory) else NoCaption;
      assert shown && IsTruthy(selectedCategory) ==>
               caption == (if Listing(ts, selectedCategory) == [] then RenderThrows
                           else Shows(SumOf(Listing(ts, selectedCategory), Spend))) by {
        if shown && IsTruthy(selectedCategory) {
          AllTransactionsIncluded(pages);
          SelectedListingTotal(ts, selectedCategory.value);
          SelectedCategoryHasEntry(ts, selectedCategory.value);
        }
      }
      v := View(since, until, account, bounds.0, bounds.1,
                BarChartData(SpendByDayOrMonth(timeFilter, ts)),
                NarrowPie(PieChartData(byCategory, CategoryNames(categories)), selectedCategory),
                Total(byCategory),
                Listing(ts, selectedCategory),
                shown,
                caption);
    }
  }

  /**
   * The caption as written is reachable in its throwing state: click a slice,
   * then pick a quick filter whose window has no transactions at all. Once
   * that window and the category listing are loaded, the selection has
   * survived the filter change and the summary has no entry for it.
   */
  method StaleSelectionThrows() returns (caption: Caption)
    ensures caption == RenderThrows
  {
    var explorer := new Explorer();
    explorer.SelectSlice(PieDatum(1500, "groceries", Some("Groceries")));
    explorer.SetTimeFilter(ThisWeek);
    assert Flatten([Page([], None)]) == [];
    var v := explorer.Render(Date(2024, 3, 1), Some([Category("groceries", "Groceries")]), None,
                             Some([Page([], None)]), false, 1);
    caption := v.caption;
  }
}
