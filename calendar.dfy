/**
 * UTC calendar dates as the backend stores them in `Date` fields, and calendar months.
 * A date is kept as its calendar fields; `Ordinal` orders dates the way the instants they
 * denote are ordered, which is what Mongo's `$gte`/`$lt`/`$lte` and `sort` compare.
 */
module Calendar {

  datatype Date = Date(year: int, month: int, day: int, ms: int)

  /** A calendar month: the `YYYY-MM` of the month keys and of moment's `startOf('month')`. */
  datatype YearMonth = YearMonth(year: int, month: int)

  predicate IsLeapYear(y: int) {
    y % 4 == 0 && (y % 100 != 0 || y % 400 == 0)
  }

  function DaysInMonth(y: int, m: int): (n: int)
    requires 1 <= m <= 12
    ensures 28 <= n <= 31
    ensures n == 29 <==> m == 2 && IsLeapYear(y)
  {
    if m == 2 then (if IsLeapYear(y) then 29 else 28)
    else if m == 4 || m == 6 || m == 9 || m == 11 then 30
    else 31
  }

  /** A real instant in the proleptic Gregorian calendar, to the millisecond. */
  predicate ValidDate(d: Date) {
    1 <= d.month <= 12 && 1 <= d.day <= DaysInMonth(d.year, d.month) && 0 <= d.ms < 86400000
  }

  predicate ValidMonth(ym: YearMonth) {
    1 <= ym.month <= 12
  }

  /** Months counted from January of year 0. */
  function MonthIndex(ym: YearMonth): int {
    ym.year * 12 + ym.month - 1
  }

  function FromIndex(k: int): (ym: YearMonth)
    ensures ValidMonth(ym) && MonthIndex(ym) == k
  {
    YearMonth(k / 12, k % 12 + 1)
  }

  /** Two valid months with the same index are the same month. */
  lemma MonthIndexInjective(a: YearMonth, b: YearMonth)
    requires ValidMonth(a) && ValidMonth(b) && MonthIndex(a) == MonthIndex(b)
    ensures a == b
  {
  }

  /** moment's `add(n, 'months')` on a month. */
  function AddMonths(ym: YearMonth, n: int): (r: YearMonth)
    ensures ValidMonth(r) && MonthIndex(r) == MonthIndex(ym) + n
  {
    FromIndex(MonthIndex(ym) + n)
  }

  function MonthOf(d: Date): YearMonth {
    YearMonth(d.year, d.month)
  }

  /**
   * A strictly increasing numbering of valid dates (a day slot of 32 per month leaves gaps,
   * which do not matter for comparisons).
   */
  function Ordinal(d: Date): int {
    ((d.year * 12 + d.month - 1) * 32 + d.day) * 86400000 + d.ms
  }

  /** moment's `startOf('month')`: midnight of the first day. */
  function StartOfMonth(ym: YearMonth): (d: Date)
    requires ValidMonth(ym)
    ensures ValidDate(d) && MonthOf(d) == ym
  {
    Date(ym.year, ym.month, 1, 0)
  }

  /** moment's `endOf('month')`: the last millisecond of the last day. */
  function EndOfMonth(ym: YearMonth): (d: Date)
    requires ValidMonth(ym)
    ensures ValidDate(d) && MonthOf(d) == ym
  {
    Date(ym.year, ym.month, DaysInMonth(ym.year, ym.month), 86399999)
  }

  /** Dates of an earlier month come first, whatever their day and time. */
  lemma OrdinalByMonth(a: Date, b: Date)
    requires ValidDate(a) && ValidDate(b)
    requires MonthIndex(MonthOf(a)) < MonthIndex(MonthOf(b))
    ensures Ordinal(a) < Ordinal(b)
  {
  }

  /** Ordering on `Ordinal` is the calendar order of valid dates. */
  lemma OrdinalIsCalendarOrder(a: Date, b: Date)
    requires ValidDate(a) && ValidDate(b)
    ensures Ordinal(a) < Ordinal(b) <==>
              MonthIndex(MonthOf(a)) < MonthIndex(MonthOf(b))
              || (MonthOf(a) == MonthOf(b) && (a.day < b.day || (a.day == b.day && a.ms < b.ms)))
  {
    if MonthIndex(MonthOf(a)) < MonthIndex(MonthOf(b)) {
      OrdinalByMonth(a, b);
    } else if MonthIndex(MonthOf(b)) < MonthIndex(MonthOf(a)) {
      OrdinalByMonth(b, a);
    } else {
      MonthIndexInjective(MonthOf(a), MonthOf(b));
    }
  }

  /**
   * The window [startOf('month'), endOf('month')], closed at both ends, holds exactly the
   * dates of that month.
   */
  lemma InMonthWindow(d: Date, ym: YearMonth)
    requires ValidDate(d) && ValidMonth(ym)
    ensures Ordinal(StartOfMonth(ym)) <= Ordinal(d) <= Ordinal(EndOfMonth(ym)) <==> MonthOf(d) == ym
  {
    var s, e := StartOfMonth(ym), EndOfMonth(ym);
    if MonthIndex(MonthOf(d)) < MonthIndex(ym) {
      OrdinalByMonth(d, s);
    } else if MonthIndex(ym) < MonthIndex(MonthOf(d)) {
      OrdinalByMonth(e, d);
    } else {
      MonthIndexInjective(MonthOf(d), ym);
    }
  }

  /** A date is before the start of a month exactly when its month is an earlier one. */
  lemma BeforeMonthStart(d: Date, ym: YearMonth)
    requires ValidDate(d) && ValidMonth(ym)
    ensures Ordinal(d) < Ordinal(StartOfMonth(ym)) <==> MonthIndex(MonthOf(d)) < MonthIndex(ym)
  {
    var s := StartOfMonth(ym);
    if MonthIndex(MonthOf(d)) < MonthIndex(ym) {
      OrdinalByMonth(d, s);
    } else if MonthIndex(ym) < MonthIndex(MonthOf(d)) {
      OrdinalByMonth(s, d);
    } else {
      MonthIndexInjective(MonthOf(d), ym);
    }
  }

  /**
   * The half-open window [start of month n - k, start of month n) holds exactly the dates of
   * the k months before month n.
   */
  lemma InMonthsBefore(d: Date, ym: YearMonth, k: int)
    requires ValidDate(d) && ValidMonth(ym)
    ensures (Ordinal(StartOfMonth(AddMonths(ym, -k))) <= Ordinal(d) < Ordinal(StartOfMonth(ym)))
        <==> (MonthIndex(ym) - k <= MonthIndex(MonthOf(d)) < MonthIndex(ym))
  {
    BeforeMonthStart(d, ym);
    BeforeMonthStart(d, AddMonths(ym, -k));
  }

  /**
   * Within fewer than twelve consecutive months, the month number (Mongo's `$month`) tells
   * the months apart: two dates with the same number lie in the same month.
   */
  lemma MonthNumberDistinguishes(a: Date, b: Date, ym: YearMonth, k: int)
    requires ValidDate(a) && ValidDate(b) && k <= 12
    requires MonthIndex(ym) - k <= MonthIndex(MonthOf(a)) < MonthIndex(ym)
    requires MonthIndex(ym) - k <= MonthIndex(MonthOf(b)) < MonthIndex(ym)
    requires a.month == b.month
    ensures MonthOf(a) == MonthOf(b)
  {
  }

  /** moment's `format("MMMM")`. */
  function MonthName(m: int): (r: string)
    requires 1 <= m <= 12
    ensures '*' !in r
  {
    ["January", "February", "March", "April", "May", "June", "July",
     "August", "September", "October", "November", "December"][m - 1]
  }
}
