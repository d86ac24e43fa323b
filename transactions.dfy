/**
 * The transactions hook: the listing URL, its search parameters, the
 * page-by-page keys handed to the infinite loader, and the rule that asks
 * the loader for one more page.
 *
 * Search parameters are kept as the ordered list of name/value pairs a
 * `URLSearchParams` holds; their percent-encoded text form is not modelled.
 */
module TransactionsHook {
  import opened Wrappers
  import opened UpApi

  const ApiBase: string := "https://api.up.com.au/api/v1/"
  const AccountsPrefix: string := ApiBase + "accounts/"
  const TransactionsSuffix: string := "/transactions"

  /** `PAGE_SIZE`, and the text `${PAGE_SIZE}` it becomes in the URL. */
  const PageSize: nat := 100
  const PageSizeText: string := "100"

  const SinceKey: string := "filter[since]"
  const UntilKey: string := "filter[until]"
  const PageSizeKey: string := "page[size]"

  type Params = seq<(string, string)>

  /** What the loader is given for a page: a URL built here, or the API's `next` link as it came. */
  datatype PageKey = FirstPage(path: string, query: Params) | NextLink(href: string)

  // ---- the URL ----

  /** The account's transactions when an account id is given, all transactions otherwise. */
  function BaseUrl(account: Option<string>): (u: string)
    ensures IsTruthy(account) ==> u == AccountsPrefix + account.value + TransactionsSuffix
    ensures !IsTruthy(account) ==> u == ApiBase + "transactions"
  {
    if IsTruthy(account) then AccountsPrefix + account.value + TransactionsSuffix
    else ApiBase + "transactions"
  }

  predicate HasPrefix(s: string, prefix: string) {
    |prefix| <= |s| && s[..|prefix|] == prefix
  }

  /** Reads the account id back out of a listing URL. */
  function AccountOf(u: string): (a: Option<string>)
    ensures a.Some? ==> HasPrefix(u, AccountsPrefix)
  {
    if HasPrefix(u, AccountsPrefix) && |u| >= |AccountsPrefix| + |TransactionsSuffix|
    then Some(u[|AccountsPrefix|..|u| - |TransactionsSuffix|])
    else None
  }

  /**
   * The URL is scoped to an account exactly when the account id is truthy,
   * and then names that account.
   */
  lemma BaseUrlScope(account: Option<string>)
    ensures HasPrefix(BaseUrl(account), AccountsPrefix) <==> IsTruthy(account)
    ensures AccountOf(BaseUrl(account)) == if IsTruthy(account) then account else None
  {
    var u := BaseUrl(account);
    if IsTruthy(account) {
      assert u[..|AccountsPrefix|] == AccountsPrefix;
      assert u[|AccountsPrefix|..|u| - |TransactionsSuffix|] == account.value;
    } else {
      assert u[|ApiBase|] == 't' != AccountsPrefix[|ApiBase|];
    }
  }

  // ---- search parameters ----

  /** The values a parameter list gives for one name, in order. */
  function ValuesOf(params: Params, name: string): seq<string> {
    if |params| == 0 then []
    else (if params[0].0 == name then [params[0].1] else []) + ValuesOf(params[1..], name)
  }

  /** The filter bounds, each present only when truthy, `since` before `until`. */
  function InitialParams(since: Option<string>, until: Option<string>): (params: Params)
    ensures ValuesOf(params, SinceKey) == if IsTruthy(since) then [since.value] else []
    ensures ValuesOf(params, UntilKey) == if IsTruthy(until) then [until.value] else []
    ensures ValuesOf(params, PageSizeKey) == []
    ensures forall name :: name != SinceKey && name != UntilKey ==> ValuesOf(params, name) == []
    ensures |params| <= 2
  {
    var s := if IsTruthy(since) then [(SinceKey, since.value)] else [];
    var u := if IsTruthy(until) then [(UntilKey, until.value)] else [];
    ValuesOfAppend(s, u, SinceKey);
    ValuesOfAppend(s, u, UntilKey);
    ValuesOfAppend(s, u, PageSizeKey);
    forall name | name != SinceKey && name != UntilKey
      ensures ValuesOf(s + u, name) == []
    {
      ValuesOfAppend(s, u, name);
      if IsTruthy(since) { ValuesOfOne((SinceKey, since.value), name); }
      if IsTruthy(until) { ValuesOfOne((UntilKey, until.value), name); }
    }
    s + u
  }

  lemma {:induction false} ValuesOfAppend(a: Params, b: Params, name: string)
    ensures ValuesOf(a + b, name) == ValuesOf(a, name) + ValuesOf(b, name)
  {
    if |a| > 0 {
      ValuesOfAppend(a[1..], b, name);
      assert (a + b)[1..] == a[1..] + b;
    } else {
      assert a + b == b;
    }
  }

  lemma ValuesOfOne(p: (string, string), name: string)
    ensures ValuesOf([p], name) == if p.0 == name then [p.1] else []
  {
    assert [p][1..] == [];
  }

  // ---- page keys ----

  /**
   * The key for page `pageIndex` after `previous` was loaded, for a hook
   * whose search parameters are `params`: no key once a loaded page has no
   * `next` link; for the first page the listing URL with the page size
   * added; otherwise the previous page's `next` link.
   */
  function PageKeyFor(path: string, params: Params, pageIndex: nat, previous: Option<Page>): (key: Option<PageKey>)
    ensures key.None? <==> previous.Some? && !IsTruthy(previous.value.next)
    ensures key.Some? ==> (key.value.FirstPage? <==> previous.None? || pageIndex == 0)
    ensures key.Some? && key.value.NextLink? ==> previous.Some? && key.value.href == previous.value.next.value
    ensures key.Some? && key.value.FirstPage? ==>
      && (previous.None? || pageIndex == 0)
      && key.value.path == path
      && ValuesOf(key.value.query, PageSizeKey) == ValuesOf(params, PageSizeKey) + [PageSizeText]
      && forall name :: name != PageSizeKey ==> ValuesOf(key.value.query, name) == ValuesOf(params, name)
  {
    if previous.Some? && !IsTruthy(previous.value.next) then None
    else if previous.None? || pageIndex == 0 then
      var q := params + [(PageSizeKey, PageSizeText)];
      assert forall name :: ValuesOf(q, name) == ValuesOf(params, name) + ValuesOf([(PageSizeKey, PageSizeText)], name) by {
        forall name ensures ValuesOf(q, name) == ValuesOf(params, name) + ValuesOf([(PageSizeKey, PageSizeText)], name) {
          ValuesOfAppend(params, [(PageSizeKey, PageSizeText)], name);
        }
      }
      assert forall name :: ValuesOf([(PageSizeKey, PageSizeText)], name) == if name == PageSizeKey then [PageSizeText] else [] by {
        forall name ensures ValuesOf([(PageSizeKey, PageSizeText)], name) == if name == PageSizeKey then [PageSizeText] else [] {
          ValuesOfOne((PageSizeKey, PageSizeText), name);
        }
      }
      Some(FirstPage(path, q))
    else Some(NextLink(previous.value.next.value))
  }

  /** The first page's key asks for exactly one page size, keeps both filter bounds and carries nothing else. */
  lemma FirstPageKey(account: Option<string>, since: Option<string>, until: Option<string>)
    ensures PageKeyFor(BaseUrl(account), InitialParams(since, until), 0, None).Some?
    ensures var k := PageKeyFor(BaseUrl(account), InitialParams(since, until), 0, None).value;
      && k.FirstPage?
      && ValuesOf(k.query, PageSizeKey) == [PageSizeText]
      && ValuesOf(k.query, SinceKey) == (if IsTruthy(since) then [since.value] else [])
      && ValuesOf(k.query, UntilKey) == (if IsTruthy(until) then [until.value] else [])
      && forall name :: name != SinceKey && name != UntilKey && name != PageSizeKey ==> ValuesOf(k.query, name) == []
  {
  }

  // ---- loading more pages ----

  /** `!data && !error`. */
  predicate IsLoadingInitialData(data: Option<seq<Page>>, error: bool) {
    data.None? && !error
  }

  /** Still waiting for the first data, or for page number `size`. */
  predicate IsLoadingMore(data: Option<seq<Page>>, error: bool, size: nat) {
    IsLoadingInitialData(data, error) || (size > 0 && data.Some? && size - 1 >= |data.value|)
  }

  /** The first page came back empty. */
  predicate IsEmpty(data: Option<seq<Page>>) {
    data.Some? && |data.value| > 0 && |data.value[0].data| == 0
  }

  /** The first page is empty or the last loaded page is short. */
  predicate IsReachingEnd(data: Option<seq<Page>>) {
    || IsEmpty(data)
    || (data.Some? && |data.value| > 0 && |data.value[|data.value| - 1].data| < PageSize)
  }

  /** The `isLoading` flag the hook returns: `isLoadingInitialData || isLoadingMore`. */
  predicate IsLoading(data: Option<seq<Page>>, error: bool, size: nat) {
    IsLoadingInitialData(data, error) || IsLoadingMore(data, error, size)
  }

  predicate ShouldLoadMore(data: Option<seq<Page>>, error: bool, size: nat) {
    !IsLoadingMore(data, error, size) && !IsReachingEnd(data)
  }

  /**
   * Another page is requested exactly when: an error arrived before any
   * data; or every requested page is in, no page has been loaded yet or the
   * first is non-empty and the last is full.
   */
  lemma ShouldLoadMoreIff(data: Option<seq<Page>>, error: bool, size: nat)
    ensures ShouldLoadMore(data, error, size) <==>
      || (data.None? && error)
      || (&& data.Some? && size <= |data.value|
          && (|data.value| == 0
              || (|data.value[0].data| > 0 && |data.value[|data.value| - 1].data| >= PageSize)))
  {
  }

  /**
   * The hook as rendered once: its URL and search parameters, and the number
   * of pages the loader holds. `getKey` appends to the one parameter list it
   * shares across calls.
   */
  class Hook {
    const path: string
    var searchParams: Params
    var size: nat

    constructor(account: Option<string>, since: Option<string>, until: Option<string>, pages: nat)
      ensures path == BaseUrl(account)
      ensures searchParams == InitialParams(since, until)
      ensures size == pages
    {
      path := BaseUrl(account);
      searchParams := InitialParams(since, until);
      size := pages;
    }

    /** `getKey`: appends the page size to the shared parameters each time it builds a first-page key. */
    method GetKey(pageIndex: nat, previous: Option<Page>) returns (key: Option<PageKey>)
      modifies this
      ensures key == PageKeyFor(path, old(searchParams), pageIndex, previous)
      ensures key.Some? && key.value.FirstPage? ==>
        searchParams == old(searchParams) + [(PageSizeKey, PageSizeText)] && key.value.query == searchParams
      ensures !(key.Some? && key.value.FirstPage?) ==> searchParams == old(searchParams)
      ensures size == old(size)
    {
      if previous.Some? && !IsTruthy(previous.value.next) {
        return None;
      }
      if previous.None? || pageIndex == 0 {
        searchParams := searchParams + [(PageSizeKey, PageSizeText)];
        return Some(FirstPage(path, searchParams));
      }
      return Some(NextLink(previous.value.next.value));
    }

    /** The render-time check: ask for one more page when none is pending and the end is not in sight. */
    method Continue(data: Option<seq<Page>>, error: bool)
      modifies this
      ensures size == if ShouldLoadMore(data, error, old(size)) then old(size) + 1 else old(size)
      ensures searchParams == old(searchParams)
    {
      if !IsLoadingMore(data, error, size) && !IsReachingEnd(data) {
        size := size + 1;
      }
    }
  }

  // ---- findings ----

  /**
   * Two first-page keys asked of one render differ: the second carries the
   * page size twice.
   */
  method RepeatedFirstPageKeys(account: Option<string>, since: Option<string>, until: Option<string>)
    returns (first: Option<PageKey>, second: Option<PageKey>)
    ensures first.Some? && first.value.FirstPage? && second.Some? && second.value.FirstPage?
    ensures ValuesOf(first.value.query, PageSizeKey) == [PageSizeText]
    ensures ValuesOf(second.value.query, PageSizeKey) == [PageSizeText, PageSizeText]
    ensures first != second
  {
    var hook := new Hook(account, since, until, 0);
    first := hook.GetKey(0, None);
    second := hook.GetKey(0, None);
  }

  /**
   * A last page that is exactly full and has no `next` link: the check asks
   * for one more page, there is no key to load it with, and with the loaded
   * pages unchanged the hook then reports loading at every later render.
   */
  lemma FullLastPageStalls(path: string, params: Params, pages: seq<Page>)
    requires |pages| > 0 && |pages[0].data| > 0
    requires |pages[|pages| - 1].data| == PageSize && !IsTruthy(pages[|pages| - 1].next)
    ensures ShouldLoadMore(Some(pages), false, |pages|)
    ensures PageKeyFor(path, params, |pages|, Some(pages[|pages| - 1])).None?
    ensures IsLoadingMore(Some(pages), false, |pages| + 1)
    ensures forall n: nat :: n > |pages| ==> IsLoading(Some(pages), false, n)
  {
  }

  /** The end is also reached when the last loaded page has no `next` link. */
  predicate IsReachingEndFixed(data: Option<seq<Page>>) {
    || IsReachingEnd(data)
    || (data.Some? && |data.value| > 0 && !IsTruthy(data.value[|data.value| - 1].next))
  }

  predicate ShouldLoadMoreFixed(data: Option<seq<Page>>, error: bool, size: nat) {
    !IsLoadingMore(data, error, size) && !IsReachingEndFixed(data)
  }

  /**
   * With the corrected end check, every page asked for after the loaded ones
   * has a key to load it with, and the check still stops on short and empty
   * pages and asks exactly when the written check does on pages that link on.
   */
  lemma FixedNeverStalls(path: string, params: Params, pages: seq<Page>, error: bool, size: nat)
    requires |pages| > 0
    ensures ShouldLoadMoreFixed(Some(pages), error, size) ==>
      PageKeyFor(path, params, size, Some(pages[|pages| - 1])).Some?
    ensures ShouldLoadMoreFixed(Some(pages), error, size) ==> ShouldLoadMore(Some(pages), error, size)
    ensures IsTruthy(pages[|pages| - 1].next) ==>
      (ShouldLoadMoreFixed(Some(pages), error, size) <==> ShouldLoadMore(Some(pages), error, size))
  {
  }
}
