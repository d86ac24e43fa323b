/**
 * The explorer's quick filters and the date window each one selects.
 *
 * A window is a pair of days: `since` stands for the start of its day and
 * `until` for the end of its day, so a day x is in the window when
 * since <= x <= until.
 */
module TimeWindow {
  import opened Wrappers
  import opened Calendar

  datatype TimeFilter = Today | ThisWeek | LastWeek | ThisMonth | LastMonth | ThisYear | LastYear | AllTime

  /** The string the filter state holds. */
  function FilterName(f: TimeFilter): string {
    match f
    case Today => "today"
    case ThisWeek => "this-week"
    case LastWeek => "last-week"
    case ThisMonth => "this-month"
    case LastMonth => "last-month"
    case ThisYear => "this-year"
    case LastYear => "last-year"
    case AllTime => "all-time"
  }

  predicate OccursAt(s: string, part: string, i: int) {
    0 <= i <= |s| - |part| && s[i..i + |part|] == part
  }

  /** `s.includes(part)`. */
  predicate Includes(s: string, part: string) {
    exists i | 0 <= i <= |s| - |part| :: OccursAt(s, part, i)
  }

  /** Spend is bucketed by month for `all-time` and for the filters whose name mentions a year. */
  predicate UsesMonthBuckets(f: TimeFilter) {
    f == AllTime || Includes(FilterName(f), "year")
  }

  predicate InWindow(x: Date, since: Date, until: Date) {
    DateLe(since, x) && DateLe(x, until)
  }

  /** The window is one whole Sunday-to-Saturday week, starting at `since`. */
  ghost predicate WholeWeek(since: Date, until: Date) {
    && ValidDate(since) && ValidDate(until)
    && DayOfWeek(since) == 0
    && DayNumber(until) == DayNumber(since) + 6
    && forall x :: ValidDate(x) ==> (InWindow(x, since, until) <==> StartOfWeek(x) == since)
  }

  /** The window is exactly the days of month m of year y. */
  ghost predicate WholeMonth(since: Date, until: Date, y: int, m: int) {
    && ValidDate(since) && ValidDate(until)
    && forall x :: ValidDate(x) ==> (InWindow(x, since, until) <==> x.year == y && x.month == m)
  }

  /** The window is exactly the days of year y. */
  ghost predicate WholeYear(since: Date, until: Date, y: int) {
    && ValidDate(since) && ValidDate(until)
    && forall x :: ValidDate(x) ==> (InWindow(x, since, until) <==> x.year == y)
  }

  /** The year and month before month m of year y. */
  function PreviousMonth(y: int, m: int): (r: (int, int))
    requires 1 <= m <= 12
    ensures 1 <= r.1 <= 12
    ensures r.0 * 12 + r.1 == y * 12 + m - 1
  {
    if m == 1 then (y - 1, 12) else (y, m - 1)
  }

  // ---- windows ----

  lemma MonthWindow(d: Date)
    requires ValidDate(d)
    ensures WholeMonth(StartOfMonth(d), EndOfMonth(d), d.year, d.month)
  {
  }

  lemma YearWindow(d: Date)
    requires ValidDate(d)
    ensures WholeYear(StartOfYear(d), EndOfYear(d), d.year)
  {
  }

  lemma WeekWindow(d: Date)
    requires ValidDate(d)
    ensures WholeWeek(StartOfWeek(d), EndOfWeek(d))
    ensures InWindow(d, StartOfWeek(d), EndOfWeek(d))
  {
    var s, u := StartOfWeek(d), EndOfWeek(d);
    WeekOf(d);
    DateLeIffDayNumber(s, d);
    DateLeIffDayNumber(d, u);
    forall x | ValidDate(x) ensures InWindow(x, s, u) <==> StartOfWeek(x) == s {
      DateLeIffDayNumber(s, x);
      DateLeIffDayNumber(x, u);
      SameWeekIff(x, s);
    }
  }

  /**
   * Resolves the quick filter against `now`, reassigning `since` and `until`
   * case by case: both start as today, and the filters other than `today`
   * and `all-time` widen them to a week, month or year, the `last-` ones
   * after stepping `now` back by one such period.
   */
  method ResolveWindow(filter: TimeFilter, now: Date) returns (since: Date, until: Date)
    requires ValidDate(now)
    ensures ValidDate(since) && ValidDate(until) && DateLe(since, until)
    ensures filter == Today || filter == AllTime ==> since == now && until == now
    ensures filter == ThisWeek ==> WholeWeek(since, until) && InWindow(now, since, until)
    ensures filter == LastWeek ==>
      WholeWeek(since, until) && DayNumber(until) + 1 == DayNumber(StartOfWeek(now))
    ensures filter == ThisMonth ==> WholeMonth(since, until, now.year, now.month)
    ensures filter == LastMonth ==>
      WholeMonth(since, until, PreviousMonth(now.year, now.month).0, PreviousMonth(now.year, now.month).1)
    ensures filter == ThisYear ==> WholeYear(since, until, now.year)
    ensures filter == LastYear ==> WholeYear(since, until, now.year - 1)
  {
    since := now;
    until := now;
    match filter {
      case ThisWeek =>
        WeekWindow(since);
        since := StartOfWeek(since);
        until := EndOfWeek(until);
      case LastWeek =>
        var weekAgo := SubWeek(now);
        SubWeekIsPreviousWeek(now);
        WeekWindow(weekAgo);
        WeekOf(weekAgo);
        since := StartOfWeek(SubWeek(since));
        until := EndOfWeek(SubWeek(until));
      case ThisMonth =>
        MonthWindow(since);
        since := StartOfMonth(since);
        until := EndOfMonth(until);
      case LastMonth =>
        MonthWindow(SubMonth(since));
        since := StartOfMonth(SubMonth(since));
        until := EndOfMonth(SubMonth(until));
      case ThisYear =>
        YearWindow(since);
        since := StartOfYear(since);
        until := EndOfYear(until);
      case LastYear =>
        YearWindow(SubYear(since));
        since := StartOfYear(SubYear(since));
        until := EndOfYear(SubYear(until));
      case _ =>
    }
    if filter == ThisWeek || filter == LastWeek {
      DateLeIffDayNumber(since, until);
    }
  }

  /**
   * The bounds handed to the transaction fetch: both bounds of the resolved
   * window, except that `all-time` sends neither.
   */
  function FetchBounds(filter: TimeFilter, since: Date, until: Date): (b: (Option<Date>, Option<Date>))
    ensures b.0.None? <==> filter == AllTime
    ensures b.1.None? <==> filter == AllTime
    ensures b.0.Some? ==> b.0.value == since
    ensures b.1.Some? ==> b.1.value == until
  {
    if filter != AllTime then (Some(since), Some(until)) else (None, None)
  }

  // ---- bucket granularity ----

  lemma NotIncludesYear(s: string)
    requires forall i :: 0 <= i <= |s| - 4 ==> s[i] != 'y'
    ensures !Includes(s, "year")
  {
    forall i | 0 <= i <= |s| - 4 ensures !OccursAt(s, "year", i) {
      assert s[i..i + 4][0] == s[i];
    }
  }

  /** Month buckets are used exactly for `all-time`, `this-year` and `last-year`. */
  lemma MonthBucketsExactly(f: TimeFilter)
    ensures UsesMonthBuckets(f) <==> f == AllTime || f == ThisYear || f == LastYear
  {
    var name := FilterName(f);
    if f == ThisYear || f == LastYear {
      assert OccursAt(name, "year", 5);
    } else if f != AllTime {
      NotIncludesYear(name);
    }
  }
}
