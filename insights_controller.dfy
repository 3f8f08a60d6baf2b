/**
 * `getInsights`: for a target month, an `info` insight naming the top expense category of
 * the month, followed by a `warning` for each category whose spending this month is well
 * above its average over the six months before. The aggregation pipelines are stated as
 * functions over the transactions; the `reduce` into the average map and the `forEach` that
 * pushes warnings are methods with loops proved against them.
 */
module InsightsController {
  import opened Wrappers
  import opened Text
  import opened Calendar
  import opened Collections
  import opened TransactionModel

  /** An insight object; `kind` is its `type` (`'info'` or `'warning'`). */
  datatype Insight = Insight(kind: string, message: string)

  /** `DEFAULT_AVERAGES`: the averages assumed for a user with no history in a category. */
  const DefaultAverages: map<string, real> :=
    map["Food" := 3000.0, "Transport" := 1500.0, "Utilities" := 15000.0, "Shopping" := 1000.0, "Entertainment" := 1000.0]

  // ---- the windows ----

  predicate ExpenseOfIn(t: Transaction, user: nat, lo: Date, hi: Date, closed: bool) {
    && t.user == user && t.kind == "expense"
    && Ordinal(lo) <= Ordinal(t.date)
    && (if closed then Ordinal(t.date) <= Ordinal(hi) else Ordinal(t.date) < Ordinal(hi))
  }

  /** The `$match` of the two current-month pipelines: `date` in [startOfMonth, endOfMonth]. */
  function CurrentWindowExpenses(ts: seq<Transaction>, user: nat, ym: YearMonth): seq<Transaction>
    requires ValidMonth(ym)
  {
    var lo, hi := StartOfMonth(ym), EndOfMonth(ym);
    Filter(ts, (t: Transaction) => ExpenseOfIn(t, user, lo, hi, true))
  }

  /** The `$match` of the average pipeline: `date` in [sixMonthsAgo, startOfMonth). */
  function AverageWindowExpenses(ts: seq<Transaction>, user: nat, ym: YearMonth): seq<Transaction>
    requires ValidMonth(ym)
  {
    var lo, hi := StartOfMonth(AddMonths(ym, -6)), StartOfMonth(ym);
    Filter(ts, (t: Transaction) => ExpenseOfIn(t, user, lo, hi, false))
  }

  /** The closed current window holds exactly the caller's expenses dated in the target month. */
  lemma CurrentWindowIsTargetMonth(ts: seq<Transaction>, user: nat, ym: YearMonth, t: Transaction)
    requires ValidMonth(ym) && t in ts && ValidDate(t.date)
    ensures t in CurrentWindowExpenses(ts, user, ym) <==> t.user == user && t.kind == "expense" && MonthOf(t.date) == ym
  {
    InMonthWindow(t.date, ym);
  }

  /** The average window holds exactly the caller's expenses of the six months before the target. */
  lemma AverageWindowIsSixMonths(ts: seq<Transaction>, user: nat, ym: YearMonth, t: Transaction)
    requires ValidMonth(ym) && t in ts && ValidDate(t.date)
    ensures t in AverageWindowExpenses(ts, user, ym) <==>
              && t.user == user && t.kind == "expense"
              && MonthIndex(ym) - 6 <= MonthIndex(MonthOf(t.date)) < MonthIndex(ym)
  {
    InMonthsBefore(t.date, ym, 6);
  }

  /**
   * The first average `$group` keys on the month number alone; over six consecutive months
   * that never puts two different calendar months in one group.
   */
  lemma MonthNumberGroupsAreMonths(ts: seq<Transaction>, user: nat, ym: YearMonth, a: Transaction, b: Transaction)
    requires ValidMonth(ym) && ValidDate(a.date) && ValidDate(b.date)
    requires a in AverageWindowExpenses(ts, user, ym) && b in AverageWindowExpenses(ts, user, ym)
    requires a.date.month == b.date.month
    ensures MonthOf(a.date) == MonthOf(b.date)
  {
    InMonthsBefore(a.date, ym, 6);
    InMonthsBefore(b.date, ym, 6);
    MonthNumberDistinguishes(a.date, b.date, ym, 6);
  }

  // ---- grouping by category ----

  function CategoriesOf(ws: seq<Transaction>): (r: seq<string>)
    ensures |r| == |ws| && forall i :: 0 <= i < |ws| ==> r[i] == ws[i].category
  {
    seq(|ws|, i requires 0 <= i < |ws| => ws[i].category)
  }

  /** `{ $group: { _id: '$category', totalSpent: { $sum: '$amount' } } }`. */
  function CategoryTotals(ws: seq<Transaction>): (r: seq<(string, real)>)
    ensures Firsts(r) == Distinct(CategoriesOf(ws))
    ensures forall i :: 0 <= i < |r| ==> r[i].1 == CategoryTotal(ws, r[i].0)
  {
    var cs := Distinct(CategoriesOf(ws));
    seq(|cs|, i requires 0 <= i < |cs| => (cs[i], CategoryTotal(ws, cs[i])))
  }

  lemma GroupOf<V>(cs: seq<string>, names: seq<string>, pairs: seq<(string, V)>, j: nat)
    requires Firsts(pairs) == cs && j < |names| && names[j] in cs
    ensures exists m :: 0 <= m < |pairs| && pairs[m].0 == names[j]
  {
    var m :| 0 <= m < |cs| && cs[m] == names[j];
    assert pairs[m].0 == Firsts(pairs)[m];
  }

  lemma MemberOf<V>(cs: seq<string>, names: seq<string>, pairs: seq<(string, V)>, m: nat)
    requires Firsts(pairs) == cs && m < |pairs| && cs[m] in names
    ensures exists i :: 0 <= i < |names| && names[i] == pairs[m].0
  {
    var i :| 0 <= i < |names| && names[i] == cs[m];
    assert pairs[m].0 == Firsts(pairs)[m];
  }

  /** There are no groups exactly when there are no transactions. */
  lemma CategoryTotalsEmpty(ws: seq<Transaction>)
    ensures |CategoryTotals(ws)| == 0 <==> |ws| == 0
  {
    if |ws| > 0 {
      assert CategoriesOf(ws)[0] in Distinct(CategoriesOf(ws));
    }
  }

  /** Each group is the category of some transaction. */
  lemma GroupHasTransaction(ws: seq<Transaction>, k: nat)
    requires k < |CategoryTotals(ws)|
    ensures exists i :: 0 <= i < |ws| && ws[i].category == CategoryTotals(ws)[k].0
  {
    var cs := Distinct(CategoriesOf(ws));
    assert cs[k] in CategoriesOf(ws);
    MemberOf(cs, CategoriesOf(ws), CategoryTotals(ws), k);
  }

  /** Each transaction's category has a group. */
  lemma GroupOfTransaction(ws: seq<Transaction>, j: nat)
    requires j < |ws|
    ensures exists m :: 0 <= m < |CategoryTotals(ws)| && CategoryTotals(ws)[m].0 == ws[j].category
  {
    var cs := Distinct(CategoriesOf(ws));
    assert CategoriesOf(ws)[j] in cs;
    GroupOf(cs, CategoriesOf(ws), CategoryTotals(ws), j);
  }

  // ---- insight 1: the top category ----

  /** `$sort: { totalSpent: -1 }, $limit: 1`: a group with the largest total. */
  function TopIndex(totals: seq<(string, real)>): (k: nat)
    requires |totals| > 0
    ensures k < |totals| && forall j :: 0 <= j < |totals| ==> totals[j].1 <= totals[k].1
    decreases |totals|
  {
    if |totals| == 1 then 0
    else
      var k := TopIndex(totals[..|totals| - 1]);
      if totals[|totals| - 1].1 > totals[k].1 then |totals| - 1 else k
  }

  function TopMessage(ym: YearMonth, c: string): string
    requires ValidMonth(ym)
  {
    "Your top spending category for " + MonthName(ym.month) + " was **" + c + "**."
  }

  /** `c` is spent on in `ws`, and no category spent on in `ws` totals more. */
  predicate IsTopCategory(ws: seq<Transaction>, c: string) {
    && (exists i :: 0 <= i < |ws| && ws[i].category == c)
    && forall j :: 0 <= j < |ws| ==> CategoryTotal(ws, ws[j].category) <= CategoryTotal(ws, c)
  }

  /**
   * The `_id` of the one group the top-category pipeline returns: none when there are no
   * expenses, otherwise a category with the largest total.
   */
  function TopCategory(ws: seq<Transaction>): (r: Option<string>)
    ensures r.None? <==> |ws| == 0
    ensures r.Some? ==> IsTopCategory(ws, r.value)
  {
    var totals := CategoryTotals(ws);
    CategoryTotalsEmpty(ws);
    if |totals| == 0 then None
    else
      TopGroupIsTopCategory(ws);
      Some(totals[TopIndex(totals)].0)
  }

  /**
   * The info insight: pushed only when the pipeline found a top category, so there is one
   * exactly when the month has expenses, and it names a top category.
   */
  function TopCategoryInsight(ts: seq<Transaction>, user: nat, ym: YearMonth): (r: seq<Insight>)
    requires ValidMonth(ym)
    ensures |r| <= 1
    ensures |r| == 1 <==> |CurrentWindowExpenses(ts, user, ym)| > 0
    ensures |r| == 1 ==> (r[0].kind == "info" &&
              exists c :: IsTopCategory(CurrentWindowExpenses(ts, user, ym), c) && r[0] == Insight("info", TopMessage(ym, c)))
  {
    match TopCategory(CurrentWindowExpenses(ts, user, ym))
    case None => []
    case Some(c) => [Insight("info", TopMessage(ym, c))]
  }

  /** The group `TopIndex` picks is the category of some transaction, with the largest total. */
  lemma TopGroupIsTopCategory(ws: seq<Transaction>)
    requires |CategoryTotals(ws)| > 0
    ensures var totals := CategoryTotals(ws);
            var c := totals[TopIndex(totals)].0;
            exists i :: && 0 <= i < |ws| && ws[i].category == c
                        && forall j :: 0 <= j < |ws| ==> CategoryTotal(ws, ws[j].category) <= CategoryTotal(ws, c)
  {
    var totals := CategoryTotals(ws);
    var k := TopIndex(totals);
    GroupHasTransaction(ws, k);
    var i :| 0 <= i < |ws| && ws[i].category == totals[k].0;
    forall j | 0 <= j < |ws| ensures CategoryTotal(ws, ws[j].category) <= CategoryTotal(ws, totals[k].0) {
      TopGroupBeats(ws, j);
    }
  }

  /** Every transaction's category totals no more than the top group. */
  lemma TopGroupBeats(ws: seq<Transaction>, j: nat)
    requires |CategoryTotals(ws)| > 0 && j < |ws|
    ensures var totals := CategoryTotals(ws);
            CategoryTotal(ws, ws[j].category) <= CategoryTotal(ws, totals[TopIndex(totals)].0)
  {
    var totals := CategoryTotals(ws);
    var k := TopIndex(totals);
    GroupOfTransaction(ws, j);
    var m :| 0 <= m < |totals| && totals[m].0 == ws[j].category;
    assert totals[m].1 <= totals[k].1;
  }

  // ---- the six-month average ----

  /** The month numbers in which a category has expenses: the groups of the first `$group`. */
  function ActiveMonths(ws: seq<Transaction>, c: string): seq<int> {
    Distinct(MonthNumbers(InCategory(ws, c)))
  }

  /** A month number belongs to a category's groups iff some expense of the category falls in it. */
  lemma ActiveMonthsSpec(ws: seq<Transaction>, c: string, m: int)
    ensures m in ActiveMonths(ws, c) <==> exists i :: 0 <= i < |ws| && ws[i].category == c && ws[i].date.month == m
  {
    var inC := InCategory(ws, c);
    var ns := MonthNumbers(inC);
    if m in ActiveMonths(ws, c) {
      var k :| 0 <= k < |ns| && ns[k] == m;
      assert inC[k] in ws && inC[k].category == c;
      var i :| 0 <= i < |ws| && ws[i] == inC[k];
    }
    if exists i :: 0 <= i < |ws| && ws[i].category == c && ws[i].date.month == m {
      var i :| 0 <= i < |ws| && ws[i].category == c && ws[i].date.month == m;
      assert ws[i] in inC;
      var k :| 0 <= k < |inC| && inC[k] == ws[i];
      assert ns[k] in ActiveMonths(ws, c);
    }
  }

  /** `$avg: '$monthlyTotal'` of a category that has expenses in the window. */
  function CategoryAverage(ws: seq<Transaction>, c: string): real
    requires c in CategoriesOf(ws)
  {
    ActiveMonthsNonEmpty(ws, c);
    var ms := ActiveMonths(ws, c);
    SumOf(MonthTotals(InCategory(ws, c), ms)) / (|ms| as real)
  }

  lemma ActiveMonthsNonEmpty(ws: seq<Transaction>, c: string)
    requires c in CategoriesOf(ws)
    ensures |ActiveMonths(ws, c)| > 0
  {
    var i :| 0 <= i < |ws| && CategoriesOf(ws)[i] == c;
    ActiveMonthsSpec(ws, c, ws[i].date.month);
  }

  /**
   * A category's average is its total over the window divided by the number of months in
   * which it has expenses, not by six.
   */
  lemma AverageOverActiveMonths(ws: seq<Transaction>, c: string)
    requires c in CategoriesOf(ws)
    ensures |ActiveMonths(ws, c)| > 0
    ensures CategoryAverage(ws, c) == CategoryTotal(ws, c) / (|ActiveMonths(ws, c)| as real)
  {
    ActiveMonthsNonEmpty(ws, c);
    var inC := InCategory(ws, c);
    var ms := ActiveMonths(ws, c);
    forall i | 0 <= i < |inC| ensures inC[i].date.month in ms {
      assert MonthNumbers(inC)[i] in ms;
    }
    MonthTotalsSum(inC, ms);
  }

  /** The second average `$group`: one (category, average) per category with expenses in the window. */
  function AverageData(ws: seq<Transaction>): (r: seq<(string, real)>)
    ensures Firsts(r) == Distinct(CategoriesOf(ws))
  {
    var cs := Distinct(CategoriesOf(ws));
    seq(|cs|, i requires 0 <= i < |cs| => (cs[i], CategoryAverage(ws, cs[i])))
  }

  lemma AverageDataValue(ws: seq<Transaction>, i: nat)
    requires i < |AverageData(ws)|
    ensures AverageData(ws)[i].0 in CategoriesOf(ws)
    ensures AverageData(ws)[i].1 == CategoryAverage(ws, AverageData(ws)[i].0)
  {
  }

  /**
   * `averageSpendingMap`, the `reduce` over `AverageData`: it has an entry for exactly the
   * categories with expenses in the window, holding their average.
   */
  lemma AverageMapSpec(ws: seq<Transaction>, c: string)
    ensures c in ToMap(AverageData(ws)) <==> c in CategoriesOf(ws)
    ensures c in ToMap(AverageData(ws)) ==> ToMap(AverageData(ws))[c] == CategoryAverage(ws, c)
  {
    var data := AverageData(ws);
    if c in CategoriesOf(ws) {
      var i := AverageDataIndex(ws, c);
      assert c in ToMap(data);
    }
    if c in ToMap(data) {
      var i :| 0 <= i < |data| && data[i].0 == c;
    }
  }

  /** The position of a category's pair in `AverageData`; no later pair has the same key. */
  lemma AverageDataIndex(ws: seq<Transaction>, c: string) returns (i: nat)
    requires c in CategoriesOf(ws)
    ensures var data := AverageData(ws);
            && i < |data| && data[i].0 == c
            && ToMap(data)[c] == data[i].1 == CategoryAverage(ws, c)
  {
    var data := AverageData(ws);
    var cs := Distinct(CategoriesOf(ws));
    assert c in cs;
    i :| 0 <= i < |cs| && cs[i] == c;
    assert data[i].0 == Firsts(data)[i];
    ToMapDistinct(data, i);
    AverageDataValue(ws, i);
  }

  // ---- insight 2: the warnings ----

  /**
   * `let avgSpent = averageSpendingMap[c]; if (!avgSpent) avgSpent = DEFAULT_AVERAGES[c]`:
   * a missing or zero personal average falls back to the default; `None` when that is missing too.
   */
  function EffectiveAverage(avgMap: map<string, real>, c: string): (r: Option<real>)
    ensures r.Some? ==> r.value != 0.0
    ensures r.None? <==> (c !in avgMap || avgMap[c] == 0.0) && c !in DefaultAverages
    ensures c in avgMap && avgMap[c] != 0.0 ==> r == Some(avgMap[c])
    ensures (c !in avgMap || avgMap[c] == 0.0) && c in DefaultAverages ==> r == Some(DefaultAverages[c])
  {
    if c in avgMap && avgMap[c] != 0.0 then Some(avgMap[c])
    else if c in DefaultAverages then Some(DefaultAverages[c])
    else None
  }

  function PercentIncrease(current: real, avg: real): real
    requires avg != 0.0
  {
    (current - avg) / avg * 100.0
  }

  /** `currentSpent > avgSpent * 1.2` and then `percentIncrease > 25`. */
  predicate WarnRule(current: real, avg: real)
    requires avg != 0.0
  {
    current > avg * 1.2 && PercentIncrease(current, avg) > 25.0
  }

  /**
   * The rule warns exactly when the average is positive and spending exceeds it by more
   * than a quarter: the 1.2 test adds nothing, and a negative average never warns.
   */
  lemma WarnRuleIff(current: real, avg: real)
    requires avg != 0.0
    ensures WarnRule(current, avg) <==> avg > 0.0 && current > avg * 1.25
  {
    var q := (current - avg) / avg;
    assert q * avg == current - avg;
    assert PercentIncrease(current, avg) == q * 100.0;
    if avg > 0.0 {
      ScaleOrder(q, 0.25, avg);
      assert q > 0.25 <==> current > avg * 1.25;
    } else {
      ScaleOrder(q, 0.25, -avg);
      assert q * -avg == avg - current && 0.25 * -avg == -(avg * 0.25);
      assert q > 0.25 ==> current < avg * 1.25;
      assert avg * 1.2 > avg * 1.25;
    }
  }

  /** Multiplying by a positive number keeps the order. */
  lemma ScaleOrder(x: real, y: real, a: real)
    requires a > 0.0
    ensures x > y <==> x * a > y * a
  {
    if x > y {
      ProductSigns(x - y, a);
      assert (x - y) * a == x * a - y * a;
    } else {
      ProductSigns(y - x, a);
      assert (y - x) * a == y * a - x * a;
    }
  }

  lemma ProductSigns(x: real, y: real)
    requires x >= 0.0 && y > 0.0
    ensures x * y >= 0.0 && (x > 0.0 ==> x * y > 0.0)
  {
  }

  /** `percentIncrease.toFixed(0)` for a percentage above 25: rounded half up. */
  function RoundedPercent(p: real): (n: nat)
    requires p > 25.0
    ensures n as real <= p + 0.5 < n as real + 1.0
  {
    (p + 0.5).Floor
  }

  function WarningMessage(c: string, percent: nat): string {
    "Heads up! Your spending on **" + c + "** is **" + NatToString(percent) + "% higher** than your average."
  }

  /** Whether the group (category, current total) draws a warning. */
  predicate WarnsFor(p: (string, real), avgMap: map<string, real>) {
    var avg := EffectiveAverage(avgMap, p.0);
    avg.Some? && WarnRule(p.1, avg.value)
  }

  function WarningInsight(p: (string, real), avgMap: map<string, real>): Insight
    requires WarnsFor(p, avgMap)
  {
    var avg := EffectiveAverage(avgMap, p.0).value;
    Insight("warning", WarningMessage(p.0, RoundedPercent(PercentIncrease(p.1, avg))))
  }

  function WarningFor(p: (string, real), avgMap: map<string, real>): seq<Insight> {
    if WarnsFor(p, avgMap) then [WarningInsight(p, avgMap)] else []
  }

  /** The warnings of the `forEach`, in the order of the groups. */
  function Warnings(totals: seq<(string, real)>, avgMap: map<string, real>): (r: seq<Insight>)
    ensures |r| <= |totals|
    ensures forall k :: 0 <= k < |r| ==> r[k].kind == "warning"
    decreases |totals|
  {
    if |totals| == 0 then []
    else Warnings(totals[..|totals| - 1], avgMap) + WarningFor(totals[|totals| - 1], avgMap)
  }

  /** Every warning comes from a group the rule fires on. */
  lemma {:induction false} WarningsSound(totals: seq<(string, real)>, avgMap: map<string, real>, k: nat)
    requires k < |Warnings(totals, avgMap)|
    ensures exists i :: 0 <= i < |totals| && WarnsFor(totals[i], avgMap) && Warnings(totals, avgMap)[k] == WarningInsight(totals[i], avgMap)
    decreases |totals|
  {
    var init := totals[..|totals| - 1];
    var w := Warnings(init, avgMap);
    if k < |w| {
      WarningsSound(init, avgMap, k);
      var i :| 0 <= i < |init| && WarnsFor(init[i], avgMap) && w[k] == WarningInsight(init[i], avgMap);
      assert init[i] == totals[i];
    } else {
      assert WarnsFor(totals[|totals| - 1], avgMap);
    }
  }

  /** Every group the rule fires on has its warning in the list. */
  lemma {:induction false} WarningsComplete(totals: seq<(string, real)>, avgMap: map<string, real>, i: nat)
    requires i < |totals| && WarnsFor(totals[i], avgMap)
    ensures WarningInsight(totals[i], avgMap) in Warnings(totals, avgMap)
    decreases |totals|
  {
    var init := totals[..|totals| - 1];
    if i < |init| {
      assert init[i] == totals[i];
      WarningsComplete(init, avgMap, i);
    }
  }

  /** A category with neither a personal average nor a default draws no warning. */
  lemma NoBaselineNoWarning(totals: seq<(string, real)>, avgMap: map<string, real>, c: string)
    requires c !in DefaultAverages && (c !in avgMap || avgMap[c] == 0.0)
    ensures forall i :: 0 <= i < |totals| && totals[i].0 == c ==> !WarnsFor(totals[i], avgMap)
  {
  }

  /**
   * The `forEach` over the current-month groups: each warning the rule calls for is pushed
   * after what `start` already holds.
   */
  method CollectWarnings(start: seq<Insight>, totals: seq<(string, real)>, avgMap: map<string, real>)
    returns (insights: seq<Insight>)
    ensures insights == start + Warnings(totals, avgMap)
  {
    insights := start;
    for i := 0 to |totals|
      invariant insights == start + Warnings(totals[..i], avgMap)
    {
      var pushed := CheckGroup(totals[i].0, totals[i].1, avgMap);
      assert totals[..i + 1][..i] == totals[..i];
      insights := insights + pushed;
    }
    assert totals[..|totals|] == totals;
  }

  /**
   * The `forEach` callback for one group: the personal average or its fallback, the 1.2
   * test, the percentage, the 25 test, and the warning it pushes, if any.
   */
  method CheckGroup(category: string, currentSpent: real, avgMap: map<string, real>) returns (pushed: seq<Insight>)
    ensures pushed == WarningFor((category, currentSpent), avgMap)
  {
    var avgSpent: Option<real> := if category in avgMap then Some(avgMap[category]) else None;
    if avgSpent.None? || avgSpent.value == 0.0 {
      avgSpent := if category in DefaultAverages then Some(DefaultAverages[category]) else None;
    }
    assert avgSpent == EffectiveAverage(avgMap, category);
    pushed := [];
    if avgSpent.Some? && currentSpent > avgSpent.value * 1.2 {
      var percentIncrease := (currentSpent - avgSpent.value) / avgSpent.value * 100.0;
      if percentIncrease > 25.0 {
        pushed := [Insight("warning", WarningMessage(category, RoundedPercent(percentIncrease)))];
      }
    }
  }

  /** One pass of the `reduce` that builds `averageSpendingMap`. */
  method AverageSpendingMap(data: seq<(string, real)>) returns (m: map<string, real>)
    ensures m == ToMap(data)
  {
    m := AssignAll(data);
  }

  /**
   * `getInsights` for the target month: the info insight, if any, and then the warnings;
   * so the info insight can only come first.
   */
  method GetInsights(ts: seq<Transaction>, user: nat, target: YearMonth) returns (insights: seq<Insight>)
    requires ValidMonth(target)
    ensures insights == TopCategoryInsight(ts, user, target)
                        + Warnings(CategoryTotals(CurrentWindowExpenses(ts, user, target)),
                                   ToMap(AverageData(AverageWindowExpenses(ts, user, target))))
    ensures forall i :: 0 <= i < |insights| ==> insights[i].kind in {"info", "warning"}
    ensures forall i :: 0 < i < |insights| ==> insights[i].kind == "warning"
  {
    insights := TopCategoryInsight(ts, user, target);
    var averageSpendingMap := AverageSpendingMap(AverageData(AverageWindowExpenses(ts, user, target)));
    var currentMonthSpendingData := CategoryTotals(CurrentWindowExpenses(ts, user, target));
    insights := CollectWarnings(insights, currentMonthSpendingData, averageSpendingMap);
    InfoThenWarnings(TopCategoryInsight(ts, user, target), Warnings(currentMonthSpendingData, averageSpendingMap));
  }

  /** At most one `info` insight followed by warnings: only the first can be anything but a warning. */
  lemma InfoThenWarnings(info: seq<Insight>, warnings: seq<Insight>)
    requires |info| <= 1 && forall i :: 0 <= i < |info| ==> info[i].kind == "info"
    requires forall i :: 0 <= i < |warnings| ==> warnings[i].kind == "warning"
    ensures forall i :: 0 <= i < |info + warnings| ==> (info + warnings)[i].kind in {"info", "warning"}
    ensures forall i :: 0 < i < |info + warnings| ==> (info + warnings)[i].kind == "warning"
  {
    var all := info + warnings;
    forall i | 0 <= i < |all| ensures all[i].kind in {"info", "warning"} && (i > 0 ==> all[i].kind == "warning") {
      if i >= |info| {
        assert all[i] == warnings[i - |info|];
      }
    }
  }
}
