/**
 * The banking API's resources, reduced to the attributes the explorer reads.
 */
module UpApi {
  import opened Wrappers
  import opened Calendar

  const MillisPerDay: int := 86400000

  /**
   * A transaction's `createdAt`, read in the local time zone: a calendar day
   * and the milliseconds elapsed in it.
   */
  datatype Instant = Instant(date: Date, millis: int)

  predicate ValidInstant(t: Instant) {
    ValidDate(t.date) && 0 <= t.millis < MillisPerDay
  }

  /** Chronological order: by day, then by time of day. */
  predicate InstantLe(a: Instant, b: Instant) {
    (DateLe(a.date, b.date) && a.date != b.date) || (a.date == b.date && a.millis <= b.millis)
  }

  /** Milliseconds since 0001-01-01 00:00 local time. */
  function InstantKey(t: Instant): int {
    DayNumber(t.date) * MillisPerDay + t.millis
  }

  /** Comparing the keys of valid instants is comparing them chronologically. */
  lemma InstantKeyOrder(a: Instant, b: Instant)
    requires ValidInstant(a) && ValidInstant(b)
    ensures InstantKey(a) <= InstantKey(b) <==> InstantLe(a, b)
    ensures InstantKey(a) == InstantKey(b) <==> a == b
  {
    DateLeIffDayNumber(a.date, b.date);
    var da, db := DayNumber(a.date), DayNumber(b.date);
    if da < db {
      assert da * MillisPerDay + MillisPerDay <= db * MillisPerDay;
    } else if db < da {
      assert db * MillisPerDay + MillisPerDay <= da * MillisPerDay;
    }
  }

  /** `amount.valueInBaseUnits` is in cents; negative amounts are debits. */
  datatype Transaction = Transaction(
    id: string,
    description: string,
    createdAt: Instant,
    amount: int,
    category: Option<string>)

  datatype Category = Category(id: string, name: string)

  datatype AccountType = Saver | Transactional

  datatype Account = Account(id: string, displayName: string, accountType: AccountType, balance: int)

  /** One page of a transaction listing, with its `links.next` cursor. */
  datatype Page = Page(data: seq<Transaction>, next: Option<string>)
}
