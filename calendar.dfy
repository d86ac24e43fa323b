/**
 * Day-granularity proleptic Gregorian calendar, with the period operations the
 * explorer takes from date-fns: start/end of week, month and year, and
 * subtraction of weeks, months and years.
 *
 * Years are unbounded integers (astronomical numbering); a date is identified
 * with a day count from 0001-01-01, which is what makes weeks computable.
 * Weeks start on Sunday, the default of date-fns under its default locale.
 */
module Calendar {

  datatype Date = Date(year: int, month: int, day: int)

  predicate IsLeapYear(y: int) {
    y % 4 == 0 && (y % 100 != 0 || y % 400 == 0)
  }

  function DaysInMonth(y: int, m: int): (n: int)
    ensures 28 <= n <= 31
  {
    if m == 2 then (if IsLeapYear(y) then 29 else 28)
    else if m == 4 || m == 6 || m == 9 || m == 11 then 30
    else 31
  }

  function YearLength(y: int): int {
    if IsLeapYear(y) then 366 else 365
  }

  predicate ValidDate(d: Date) {
    1 <= d.month <= 12 && 1 <= d.day <= DaysInMonth(d.year, d.month)
  }

  /** Calendar order: year, then month, then day. */
  predicate DateLe(a: Date, b: Date) {
    a.year < b.year
    || (a.year == b.year && a.month < b.month)
    || (a.year == b.year && a.month == b.month && a.day <= b.day)
  }

  /** Days of the year before the first day of month m (1 <= m <= 12). */
  function DaysBeforeMonth(y: int, m: int): int {
    var leap := if m > 2 && IsLeapYear(y) then 1 else 0;
    leap + (
      if m <= 1 then 0 else if m == 2 then 31 else if m == 3 then 59
      else if m == 4 then 90 else if m == 5 then 120 else if m == 6 then 151
      else if m == 7 then 181 else if m == 8 then 212 else if m == 9 then 243
      else if m == 10 then 273 else if m == 11 then 304 else 334)
  }

  /** Days from 0001-01-01 to the first day of year y (negative before year 1). */
  function DaysBeforeYear(y: int): int
    decreases if y >= 1 then y - 1 else 1 - y
  {
    if y == 1 then 0
    else if y > 1 then DaysBeforeYear(y - 1) + YearLength(y - 1)
    else DaysBeforeYear(y + 1) - YearLength(y)
  }

  /** Number of days from 0001-01-01 to d. */
  function DayNumber(d: Date): int {
    DaysBeforeYear(d.year) + DaysBeforeMonth(d.year, d.month) + d.day - 1
  }

  /** n modulo 7, in steps of seven. */
  function Mod7(n: int): (r: int)
    ensures 0 <= r < 7
    decreases if n >= 0 then n else 7 - n
  {
    if 0 <= n < 7 then n else if n >= 7 then Mod7(n - 7) else Mod7(n + 7)
  }

  /** 0 = Sunday, 1 = Monday, ..., 6 = Saturday (0001-01-01 is a Monday). */
  function DayOfWeek(d: Date): (w: int)
    ensures 0 <= w < 7
  {
    Mod7(DayNumber(d) + 1)
  }

  function NextDay(d: Date): Date {
    if d.day < DaysInMonth(d.year, d.month) then Date(d.year, d.month, d.day + 1)
    else if d.month < 12 then Date(d.year, d.month + 1, 1)
    else Date(d.year + 1, 1, 1)
  }

  function PrevDay(d: Date): Date {
    if d.day > 1 then Date(d.year, d.month, d.day - 1)
    else if d.month > 1 then Date(d.year, d.month - 1, DaysInMonth(d.year, d.month - 1))
    else Date(d.year - 1, 12, 31)
  }

  function AddDays(d: Date, n: nat): Date
    decreases n
  {
    if n == 0 then d else AddDays(NextDay(d), n - 1)
  }

  function SubDays(d: Date, n: nat): Date
    decreases n
  {
    if n == 0 then d else SubDays(PrevDay(d), n - 1)
  }

  // ---- date-fns period operations ----

  function StartOfWeek(d: Date): Date {
    SubDays(d, DayOfWeek(d))
  }

  function EndOfWeek(d: Date): Date {
    AddDays(d, 6 - DayOfWeek(d))
  }

  function StartOfMonth(d: Date): Date {
    Date(d.year, d.month, 1)
  }

  function EndOfMonth(d: Date): Date {
    Date(d.year, d.month, DaysInMonth(d.year, d.month))
  }

  function StartOfYear(d: Date): Date {
    Date(d.year, 1, 1)
  }

  function EndOfYear(d: Date): Date {
    Date(d.year, 12, 31)
  }

  const DaysPerWeek: nat := 7

  /** `sub(d, { weeks: 1 })`: seven days earlier. */
  function SubWeek(d: Date): Date {
    SubDays(d, DaysPerWeek)
  }

  /**
   * `sub(d, { months: 1 })`: the same day of the previous month, clamped to
   * that month's last day.
   */
  function SubMonth(d: Date): (r: Date)
    requires ValidDate(d)
    ensures ValidDate(r)
    ensures r.month == (if d.month == 1 then 12 else d.month - 1)
    ensures r.year == (if d.month == 1 then d.year - 1 else d.year)
    ensures r.day == if d.day <= DaysInMonth(r.year, r.month) then d.day else DaysInMonth(r.year, r.month)
  {
    var y := if d.month == 1 then d.year - 1 else d.year;
    var m := if d.month == 1 then 12 else d.month - 1;
    var last := DaysInMonth(y, m);
    Date(y, m, if d.day < last then d.day else last)
  }

  /**
   * `sub(d, { years: 1 })`: date-fns subtracts twelve months, so 29 February
   * becomes 28 February of the previous year.
   */
  function SubYear(d: Date): (r: Date)
    requires ValidDate(d)
    ensures ValidDate(r)
    ensures r.year == d.year - 1 && r.month == d.month
    ensures r.day == d.day || (d.month == 2 && d.day == 29 && r.day == 28)
  {
    var last := DaysInMonth(d.year - 1, d.month);
    Date(d.year - 1, d.month, if d.day < last then d.day else last)
  }

  // ---- lemmas ----

  /** The defining step of the year count, in both directions of the recursion. */
  lemma DaysBeforeYearStep(y: int)
    ensures DaysBeforeYear(y + 1) == DaysBeforeYear(y) + YearLength(y)
  {
  }

  lemma {:induction false} DaysBeforeYearMonotonic(a: int, b: int)
    requires a <= b
    ensures DaysBeforeYear(a) <= DaysBeforeYear(b)
    decreases b - a
  {
    if a < b {
      DaysBeforeYearMonotonic(a, b - 1);
      DaysBeforeYearStep(b - 1);
    }
  }

  lemma DaysBeforeMonthStep(y: int, m: int)
    requires 1 <= m < 12
    ensures DaysBeforeMonth(y, m + 1) == DaysBeforeMonth(y, m) + DaysInMonth(y, m)
  {
  }

  lemma DaysBeforeMonthMonotonic(y: int, a: int, b: int)
    requires 1 <= a < b <= 12
    ensures DaysBeforeMonth(y, a) + DaysInMonth(y, a) <= DaysBeforeMonth(y, b)
  {
  }

  /** A valid date's day number lies inside its own year. */
  lemma DayNumberWithinYear(d: Date)
    requires ValidDate(d)
    ensures DaysBeforeYear(d.year) <= DayNumber(d) < DaysBeforeYear(d.year + 1)
  {
    DaysBeforeYearStep(d.year);
    if d.month < 12 {
      DaysBeforeMonthMonotonic(d.year, d.month, 12);
    }
  }

  /** The calendar order of valid dates is the order of their day numbers. */
  lemma {:induction false} DateLeIffDayNumber(a: Date, b: Date)
    requires ValidDate(a) && ValidDate(b)
    ensures DateLe(a, b) <==> DayNumber(a) <= DayNumber(b)
    ensures a == b <==> DayNumber(a) == DayNumber(b)
  {
    DayNumberWithinYear(a);
    DayNumberWithinYear(b);
    if a.year < b.year {
      DaysBeforeYearMonotonic(a.year + 1, b.year);
    } else if b.year < a.year {
      DaysBeforeYearMonotonic(b.year + 1, a.year);
    } else if a.month < b.month {
      DaysBeforeMonthMonotonic(a.year, a.month, b.month);
    } else if b.month < a.month {
      DaysBeforeMonthMonotonic(a.year, b.month, a.month);
    }
  }

  lemma NextDayCounts(d: Date)
    requires ValidDate(d)
    ensures ValidDate(NextDay(d))
    ensures DayNumber(NextDay(d)) == DayNumber(d) + 1
  {
    if d.day == DaysInMonth(d.year, d.month) {
      if d.month < 12 {
        DaysBeforeMonthStep(d.year, d.month);
      } else {
        DaysBeforeYearStep(d.year);
      }
    }
  }

  lemma PrevDayCounts(d: Date)
    requires ValidDate(d)
    ensures ValidDate(PrevDay(d))
    ensures DayNumber(PrevDay(d)) == DayNumber(d) - 1
  {
    if d.day == 1 {
      if d.month > 1 {
        DaysBeforeMonthStep(d.year, d.month - 1);
      } else {
        DaysBeforeYearStep(d.year - 1);
      }
    }
  }

  lemma {:induction false} AddDaysCounts(d: Date, n: nat)
    requires ValidDate(d)
    ensures ValidDate(AddDays(d, n))
    ensures DayNumber(AddDays(d, n)) == DayNumber(d) + n
    decreases n
  {
    if n > 0 {
      NextDayCounts(d);
      AddDaysCounts(NextDay(d), n - 1);
    }
  }

  lemma {:induction false} SubDaysCounts(d: Date, n: nat)
    requires ValidDate(d)
    ensures ValidDate(SubDays(d, n))
    ensures DayNumber(SubDays(d, n)) == DayNumber(d) - n
    decreases n
  {
    if n > 0 {
      PrevDayCounts(d);
      SubDaysCounts(PrevDay(d), n - 1);
    }
  }

  lemma {:induction false} Mod7IsMod(n: int)
    ensures Mod7(n) == n % 7
    decreases if n >= 0 then n else 7 - n
  {
    if n >= 7 {
      Mod7IsMod(n - 7);
    } else if n < 0 {
      Mod7IsMod(n + 7);
    }
  }

  /** Stepping back from day n by its weekday lands on a Sunday. */
  lemma SundayBefore(n: int)
    ensures Mod7(n - Mod7(n + 1) + 1) == 0
  {
    var w := Mod7(n + 1);
    Mod7IsMod(n + 1);
    Mod7IsMod(n - w + 1);
    assert n + 1 == 7 * ((n + 1) / 7) + w;
  }

  /** Stepping forward from day n to six past its Sunday lands on a Saturday. */
  lemma SaturdayAfter(n: int)
    ensures Mod7(n + 6 - Mod7(n + 1) + 1) == 6
  {
    var w := Mod7(n + 1);
    Mod7IsMod(n + 1);
    Mod7IsMod(n + 6 - w + 1);
    assert n + 1 == 7 * ((n + 1) / 7) + w;
  }

  lemma SundayOn(s: Date, n: int, w: int)
    requires w == Mod7(n + 1) && DayNumber(s) == n - w
    ensures DayOfWeek(s) == 0
  {
    SundayBefore(n);
  }

  lemma SaturdayOn(e: Date, n: int, w: int)
    requires w == Mod7(n + 1) && DayNumber(e) == n + 6 - w
    ensures DayOfWeek(e) == 6
  {
    SaturdayAfter(n);
  }

  /** Seven days earlier is the same weekday. */
  lemma WeekdayShift(n: int)
    ensures Mod7(n - 7 + 1) == Mod7(n + 1)
  {
    Mod7IsMod(n - 6);
    Mod7IsMod(n + 1);
  }

  /**
   * The week of d runs from a Sunday to the following Saturday and contains d.
   */
  lemma WeekOf(d: Date)
    requires ValidDate(d)
    ensures ValidDate(StartOfWeek(d)) && ValidDate(EndOfWeek(d))
    ensures DayOfWeek(StartOfWeek(d)) == 0 && DayOfWeek(EndOfWeek(d)) == 6
    ensures DayNumber(StartOfWeek(d)) <= DayNumber(d) <= DayNumber(EndOfWeek(d))
    ensures DayNumber(EndOfWeek(d)) == DayNumber(StartOfWeek(d)) + 6
  {
    StartOfWeekCounts(d);
    EndOfWeekCounts(d);
  }

  lemma StartOfWeekCounts(d: Date)
    requires ValidDate(d)
    ensures ValidDate(StartOfWeek(d)) && DayNumber(StartOfWeek(d)) == DayNumber(d) - DayOfWeek(d)
    ensures DayOfWeek(StartOfWeek(d)) == 0
  {
    SubDaysCounts(d, DayOfWeek(d));
    SundayOn(StartOfWeek(d), DayNumber(d), DayOfWeek(d));
  }

  lemma EndOfWeekCounts(d: Date)
    requires ValidDate(d)
    ensures ValidDate(EndOfWeek(d)) && DayNumber(EndOfWeek(d)) == DayNumber(d) + 6 - DayOfWeek(d)
    ensures DayOfWeek(EndOfWeek(d)) == 6
  {
    AddDaysCounts(d, 6 - DayOfWeek(d));
    SaturdayOn(EndOfWeek(d), DayNumber(d), DayOfWeek(d));
  }

  /** A week earlier is the same weekday, and its week is the previous week. */
  lemma SubWeekIsPreviousWeek(d: Date)
    requires ValidDate(d)
    ensures ValidDate(SubWeek(d))
    ensures DayNumber(SubWeek(d)) == DayNumber(d) - 7
    ensures DayOfWeek(SubWeek(d)) == DayOfWeek(d)
    ensures DayNumber(StartOfWeek(SubWeek(d))) == DayNumber(StartOfWeek(d)) - 7
  {
    var p := SubWeek(d);
    SubDaysCounts(d, DaysPerWeek);
    SameWeekday(p, d, DayNumber(d));
    StartOfWeekCounts(d);
    StartOfWeekCounts(p);
  }

  lemma SameWeekday(p: Date, d: Date, n: int)
    requires DayNumber(d) == n && DayNumber(p) == n - 7
    ensures DayOfWeek(p) == DayOfWeek(d)
  {
    WeekdayShift(n);
  }

  lemma SundaysCoincide(a: int, b: int)
    requires Mod7(a + 1) == 0 && Mod7(b + 1) == 0
    requires a - 6 <= b <= a + 6
    ensures a == b
  {
    Mod7IsMod(a + 1);
    Mod7IsMod(b + 1);
    var p, q := (a + 1) / 7, (b + 1) / 7;
    assert a + 1 == 7 * p && b + 1 == 7 * q;
    assert -1 < p - q < 1;
  }

  /**
   * Given a Sunday s, a date lies in the seven days starting at s exactly when
   * its own week starts at s.
   */
  lemma SameWeekIff(x: Date, s: Date)
    requires ValidDate(x) && ValidDate(s) && DayOfWeek(s) == 0
    ensures DayNumber(s) <= DayNumber(x) <= DayNumber(s) + 6 <==> StartOfWeek(x) == s
  {
    var w := StartOfWeek(x);
    var ns, nw, nx := DayNumber(s), DayNumber(w), DayNumber(x);
    assert Mod7(ns + 1) == 0 && Mod7(nw + 1) == 0 && nw <= nx <= nw + 6 && (w == s <==> nw == ns) by {
      StartOfWeekCounts(x);
      SameDayIff(w, s);
    }
    SameWeekNumbers(ns, nw, nx);
  }

  /** Valid dates are equal exactly when their day numbers are. */
  lemma SameDayIff(a: Date, b: Date)
    requires ValidDate(a) && ValidDate(b)
    ensures a == b <==> DayNumber(a) == DayNumber(b)
  {
    DateLeIffDayNumber(a, b);
  }

  lemma SameWeekNumbers(ns: int, nw: int, nx: int)
    requires Mod7(ns + 1) == 0 && Mod7(nw + 1) == 0
    requires nw <= nx <= nw + 6
    ensures ns <= nx <= ns + 6 <==> ns == nw
  {
    if ns <= nx <= ns + 6 {
      SundaysCoincide(ns, nw);
    }
  }

  /** Subtracting a month from 31 March lands on the last day of February. */
  lemma SubMonthFromMarch31(y: int)
    ensures SubMonth(Date(y, 3, 31)) == Date(y, 2, if IsLeapYear(y) then 29 else 28)
  {
  }
}
