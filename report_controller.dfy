/**
 * `getMonthlyExpenses`: the caller's expenses of the current year, grouped by month number
 * and summed, in ascending month order. The current year is a parameter (the server's
 * clock), and so is the failure of the database call.
 */
module ReportController {
  import opened Wrappers
  import opened Http
  import opened Calendar
  import opened Collections
  import opened TransactionModel

  /** One row of the reply: the group `_id` (a month number) and its `total`. */
  datatype MonthRow = MonthRow(month: int, total: real)

  /** The reply: 200 with the rows, or 500 with `{ error: err.message }`. */
  datatype ReportReply = ReportReply(status: Status, rows: seq<MonthRow>, error: Option<string>)

  /** `new Date(`${year}-01-01`)`: a date-only string is read as UTC midnight. */
  function YearStart(year: int): (d: Date)
    ensures ValidDate(d)
  {
    Date(year, 1, 1, 0)
  }

  /** `new Date(`${year}-12-31`)`: midnight at the start of December 31. */
  function YearEnd(year: int): (d: Date)
    ensures ValidDate(d)
  {
    Date(year, 12, 31, 0)
  }

  /** The `$match`: the caller's expenses dated in [YearStart, YearEnd]. */
  predicate InReport(t: Transaction, user: nat, year: int) {
    && t.user == user && t.kind == "expense"
    && Ordinal(YearStart(year)) <= Ordinal(t.date) <= Ordinal(YearEnd(year))
  }

  function ReportExpenses(ts: seq<Transaction>, user: nat, year: int): seq<Transaction> {
    Filter(ts, (t: Transaction) => InReport(t, user, year))
  }

  /**
   * The window holds the dates of the year up to midnight of December 31; the rest of
   * December 31 falls outside it.
   */
  lemma ReportWindowSpec(d: Date, year: int)
    requires ValidDate(d)
    ensures Ordinal(YearStart(year)) <= Ordinal(d) <= Ordinal(YearEnd(year))
            <==> d.year == year && !(d.month == 12 && d.day == 31 && d.ms > 0)
  {
    OrdinalIsCalendarOrder(d, YearStart(year));
    OrdinalIsCalendarOrder(YearEnd(year), d);
  }

  /** Only the caller's expenses count: any other transaction leaves the matched list as it was. */
  lemma ReportIgnoresOthers(ts: seq<Transaction>, t: Transaction, user: nat, year: int)
    requires t.user != user || t.kind != "expense"
    ensures ReportExpenses(ts + [t], user, year) == ReportExpenses(ts, user, year)
  {
    FilterAppend(ts, [t], (x: Transaction) => InReport(x, user, year));
    assert Filter([t], (x: Transaction) => InReport(x, user, year)) == [] by {
      assert [t][..0] == [];
    }
  }

  /** Some transaction's date has month number `k`. */
  predicate MonthOccurs(ws: seq<Transaction>, k: int) {
    exists j :: 0 <= j < |ws| && ws[j].date.month == k
  }

  /** Some row is the group of month number `k`. */
  predicate HasRowFor(rows: seq<MonthRow>, k: int) {
    exists i :: 0 <= i < |rows| && rows[i].month == k
  }

  /** A month number has a group exactly when some transaction falls in it. */
  lemma MonthPresent(ws: seq<Transaction>, k: int)
    ensures |InMonthNumber(ws, k)| > 0 <==> MonthOccurs(ws, k)
  {
    var g := InMonthNumber(ws, k);
    if |g| > 0 {
      assert g[0] in ws && MonthIs(k)(g[0]);
    }
    if MonthOccurs(ws, k) {
      var j :| 0 <= j < |ws| && ws[j].date.month == k;
      assert MonthIs(k)(ws[j]);
    }
  }

  /**
   * `$group` by `$month` and `$sort: { _id: 1 }`, for the month numbers 1 to `m`: one row per
   * month number some transaction falls in, in ascending order, with that month's sum.
   */
  function RowsUpTo(ws: seq<Transaction>, m: nat): (r: seq<MonthRow>)
    requires m <= 12
    ensures forall i :: 0 <= i < |r| ==> 1 <= r[i].month <= m
    ensures forall i, j :: 0 <= i < j < |r| ==> r[i].month < r[j].month
    ensures forall i :: 0 <= i < |r| ==> r[i].total == Total(InMonthNumber(ws, r[i].month))
    ensures forall k :: 1 <= k <= m ==> (HasRowFor(r, k) <==> MonthOccurs(ws, k))
    decreases m
  {
    if m == 0 then []
    else
      var init := RowsUpTo(ws, m - 1);
      MonthPresent(ws, m);
      var g := InMonthNumber(ws, m);
      if |g| > 0 then
        var r := init + [MonthRow(m, Total(g))];
        assert r[|init|].month == m;
        forall k | 1 <= k < m ensures HasRowFor(r, k) <==> HasRowFor(init, k) {
          if HasRowFor(init, k) {
            var i :| 0 <= i < |init| && init[i].month == k;
            assert r[i] == init[i];
          }
        }
        r
      else
        init
  }

  /** The rows of the reply. */
  function MonthlyRows(ws: seq<Transaction>): seq<MonthRow> {
    RowsUpTo(ws, 12)
  }

  function RowMonths(rows: seq<MonthRow>): (r: seq<int>)
    ensures |r| == |rows| && forall i :: 0 <= i < |rows| ==> r[i] == rows[i].month
  {
    seq(|rows|, i requires 0 <= i < |rows| => rows[i].month)
  }

  function RowTotals(rows: seq<MonthRow>): (r: seq<real>)
    ensures |r| == |rows| && forall i :: 0 <= i < |rows| ==> r[i] == rows[i].total
  {
    seq(|rows|, i requires 0 <= i < |rows| => rows[i].total)
  }

  /** The row totals are the month-number totals of the months present. */
  lemma {:induction false} RowsAreMonthTotals(ws: seq<Transaction>, m: nat)
    requires m <= 12
    ensures RowTotals(RowsUpTo(ws, m)) == MonthTotals(ws, RowMonths(RowsUpTo(ws, m)))
    decreases m
  {
    if m > 0 {
      RowsAreMonthTotals(ws, m - 1);
      var init := RowsUpTo(ws, m - 1);
      var g := InMonthNumber(ws, m);
      if |g| > 0 {
        var row := MonthRow(m, Total(g));
        RowAppend(init, row);
        assert (RowMonths(init) + [m])[..|init|] == RowMonths(init);
      }
    }
  }

  lemma RowAppend(rows: seq<MonthRow>, row: MonthRow)
    ensures RowMonths(rows + [row]) == RowMonths(rows) + [row.month]
    ensures RowTotals(rows + [row]) == RowTotals(rows) + [row.total]
  {
  }

  /** With valid dates, every transaction's month number has a row. */
  lemma EveryMonthListed(ws: seq<Transaction>, i: nat)
    requires i < |ws| && ValidDate(ws[i].date)
    ensures ws[i].date.month in RowMonths(MonthlyRows(ws))
  {
    var rows := MonthlyRows(ws);
    var m := ws[i].date.month;
    assert MonthOccurs(ws, m);
    var k :| 0 <= k < |rows| && rows[k].month == m;
    assert RowMonths(rows)[k] == m;
  }

  /** With valid dates, the report loses nothing: its totals sum to the total of the expenses. */
  lemma ReportSumsToTotal(ws: seq<Transaction>)
    requires forall i :: 0 <= i < |ws| ==> ValidDate(ws[i].date)
    ensures SumOf(RowTotals(MonthlyRows(ws))) == Total(ws)
  {
    var ms := RowMonths(MonthlyRows(ws));
    RowsAreMonthTotals(ws, 12);
    forall i | 0 <= i < |ws| ensures ws[i].date.month in ms {
      EveryMonthListed(ws, i);
    }
    MonthTotalsSum(ws, ms);
  }

  /** Within the window every date lies in the report's year, so a month number is a calendar month. */
  lemma ReportMonthIsCalendarMonth(ts: seq<Transaction>, user: nat, year: int, t: Transaction)
    requires t in ReportExpenses(ts, user, year) && ValidDate(t.date)
    ensures MonthOf(t.date) == YearMonth(year, t.date.month)
  {
    ReportWindowSpec(t.date, year);
  }

  /**
   * `getMonthlyExpenses`: 500 with the message when the database call fails; otherwise 200
   * with rows in ascending month order, one per month number of the year.
   */
  function GetMonthlyExpenses(ts: seq<Transaction>, caller: nat, year: int, fault: Option<string>): (r: ReportReply)
    ensures fault.Some? ==> r.status == ServerError && r.error == fault && r.rows == []
    ensures fault.None? ==> r.status == Ok && r.error.None?
    ensures forall i, j :: 0 <= i < j < |r.rows| ==> r.rows[i].month < r.rows[j].month
    ensures forall i :: 0 <= i < |r.rows| ==> 1 <= r.rows[i].month <= 12
  {
    match fault
    case Some(message) => ReportReply(ServerError, [], Some(message))
    case None => ReportReply(Ok, MonthlyRows(ReportExpenses(ts, caller, year)), None)
  }

  /**
   * A successful report has a row for month `k` exactly when the caller has an expense in
   * the window with that month number, and the row holds the sum of those expenses.
   */
  lemma ReportRowsSpec(ts: seq<Transaction>, caller: nat, year: int, k: int)
    requires 1 <= k <= 12
    ensures var r := GetMonthlyExpenses(ts, caller, year, None);
            && (HasRowFor(r.rows, k) <==> exists j :: 0 <= j < |ts| && InReport(ts[j], caller, year) && ts[j].date.month == k)
            && forall i :: 0 <= i < |r.rows| && r.rows[i].month == k ==>
                 r.rows[i].total == Total(InMonthNumber(ReportExpenses(ts, caller, year), k))
  {
    var ws := ReportExpenses(ts, caller, year);
    if exists j :: 0 <= j < |ts| && InReport(ts[j], caller, year) && ts[j].date.month == k {
      var j :| 0 <= j < |ts| && InReport(ts[j], caller, year) && ts[j].date.month == k;
      assert ts[j] in ws;
      var i :| 0 <= i < |ws| && ws[i] == ts[j];
      assert MonthOccurs(ws, k);
    }
    if MonthOccurs(ws, k) {
      var i :| 0 <= i < |ws| && ws[i].date.month == k;
      assert ws[i] in ts;
    }
  }
}
