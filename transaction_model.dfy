/** The `Transaction` collection's schema, and the sums and filters computed over transactions. */
module TransactionModel {
  import opened Wrappers
  import opened Text
  import opened Calendar
  import opened Collections

  /** The `type` enum. */
  const TransactionTypes: seq<string> := ["income", "expense"]

  /** The `category` enum: seven income and ten expense categories. */
  const CategoryEnum: seq<string> := [
    "Salary", "Bonus", "Freelance", "Investments", "Gifts", "Rental Income", "Other Income",
    "Food", "Transport", "Entertainment", "Utilities", "Shopping", "Health", "Housing",
    "Education", "Subscriptions", "Other Expense"
  ]

  const DescriptionMaxLength: nat := 50

  /** A stored transaction document; `kind` is the schema's `type` field. */
  datatype Transaction = Transaction(
    id: nat, user: nat, description: string, amount: real, kind: string, category: string, date: Date)

  /**
   * The request body fields a transaction is built from. A field is `None` when the body
   * omits it or when Mongoose cannot cast it to the schema type.
   */
  datatype TransactionBody = TransactionBody(
    description: Option<string>, amount: Option<real>, category: Option<string>,
    kind: Option<string>, date: Option<Date>)

  /**
   * What the schema admits: a required, trimmed description whose JavaScript `length` (UTF-16
   * code units, so an emoji counts twice) is at most 50, a
   * required amount of any sign, a `type` and a `category` from their enums (checked
   * independently of each other), and a date.
   */
  predicate ValidTransaction(t: Transaction) {
    && t.description != "" && IsTrimmed(t.description) && Utf16Length(t.description) <= DescriptionMaxLength
    && t.kind in TransactionTypes
    && t.category in CategoryEnum
    && ValidDate(t.date)
  }

  /**
   * `new Transaction({ user, description, amount, category, type }).save()` as
   * `addTransaction` calls it: the `trim` setter runs, `date` takes its default (the creation
   * time `now`), then the document is validated. `None` when validation fails.
   */
  function NewTransaction(id: nat, user: nat, body: TransactionBody, now: Date): (r: Option<Transaction>)
    requires ValidDate(now)
    ensures r.Some? ==> ValidTransaction(r.value)
    ensures r.Some? ==> r.value.id == id && r.value.user == user && r.value.date == now
    ensures r.Some? ==> && body.description.Some? && r.value.description == Trim(body.description.value)
                        && body.amount == Some(r.value.amount)
                        && body.kind == Some(r.value.kind) && body.category == Some(r.value.category)
    ensures r.None? <==> || body.description.None? || body.amount.None? || body.kind.None? || body.category.None?
                         || Trim(body.description.value) == ""
                         || Utf16Length(Trim(body.description.value)) > DescriptionMaxLength
                         || body.kind.value !in TransactionTypes
                         || body.category.value !in CategoryEnum
  {
    if body.description.None? || body.amount.None? || body.kind.None? || body.category.None? then None
    else
      var t := Transaction(id, user, Trim(body.description.value), body.amount.value,
                           body.kind.value, body.category.value, now);
      if ValidTransaction(t) then Some(t) else None
  }

  /** The body's own `date` plays no part: only the schema default is used. */
  lemma BodyDateIgnored(id: nat, user: nat, body: TransactionBody, now: Date, d: Option<Date>)
    requires ValidDate(now)
    ensures NewTransaction(id, user, body.(date := d), now) == NewTransaction(id, user, body, now)
  {
  }

  /** Nothing ties `type` to `category`: an income with an expense category is admitted. */
  lemma TypeAndCategoryIndependent(id: nat, user: nat, now: Date)
    requires ValidDate(now)
    ensures NewTransaction(id, user, TransactionBody(Some("Lunch"), Some(12.0), Some("Food"), Some("income"), None), now).Some?
  {
    assert "Lunch"[0] == 'L';
    assert Trim("Lunch") == "Lunch" by { TrimPadded("", "Lunch", ""); assert "" + "Lunch" + "" == "Lunch"; }
  }

  /** The schema sets no minimum: a negative amount is admitted. */
  lemma NegativeAmountAdmitted(id: nat, user: nat, now: Date)
    requires ValidDate(now)
    ensures NewTransaction(id, user, TransactionBody(Some("Refund"), Some(-5.0), Some("Salary"), Some("income"), None), now).Some?
  {
    assert CategoryEnum[0] == "Salary" && TransactionTypes[0] == "income";
    assert IsTrimmed("Refund") by { assert "Refund"[0] == 'R' && "Refund"[5] == 'd'; }
    assert Trim("Refund") == "Refund" by { TrimPadded("", "Refund", ""); assert "" + "Refund" + "" == "Refund"; }
  }

  /** A description of white space only is empty after trimming, so `required` rejects it. */
  lemma BlankDescriptionRejected(id: nat, user: nat, body: TransactionBody, now: Date)
    requires ValidDate(now) && body.description.Some? && AllSpace(body.description.value)
    ensures NewTransaction(id, user, body, now).None?
  {
    var s := body.description.value;
    TrimPadded(s, "", "");
    assert s + "" + "" == s;
  }

  /**
   * `maxLength` counts UTF-16 code units: 26 emoji are 26 characters but 52 code units, so
   * such a description is rejected although it has fewer than 50 characters.
   */
  lemma AstralDescriptionCountsTwice(id: nat, user: nat, now: Date)
    requires ValidDate(now)
    ensures var d := seq(26, _ => '\U{1F600}');
            |d| < DescriptionMaxLength &&
            NewTransaction(id, user, TransactionBody(Some(d), Some(1.0), Some("Food"), Some("expense"), None), now).None?
  {
    var d := seq(26, _ => '\U{1F600}');
    Utf16LengthOfAstral(d);
    assert IsTrimmed(d) by { assert !IsSpace(d[0]) && !IsSpace(d[25]); }
    TrimPadded("", d, "");
    assert "" + d + "" == d;
  }

  /** `ts.reduce((acc, t) => acc + t.amount, 0)`. */
  function Total(ts: seq<Transaction>): real
    decreases |ts|
  {
    if |ts| == 0 then 0.0 else Total(ts[..|ts| - 1]) + ts[|ts| - 1].amount
  }

  lemma {:induction false} TotalAppend(a: seq<Transaction>, b: seq<Transaction>)
    ensures Total(a + b) == Total(a) + Total(b)
    decreases |b|
  {
    if |b| > 0 {
      assert (a + b)[..|a + b| - 1] == a + b[..|b| - 1];
      TotalAppend(a, b[..|b| - 1]);
    } else {
      assert a + b == a;
    }
  }

  /** `ts.filter(t => t.type === kind)`. */
  function OfKind(ts: seq<Transaction>, kind: string): seq<Transaction> {
    Filter(ts, (t: Transaction) => t.kind == kind)
  }

  /** `ts.filter(t => t.category === c)`. */
  function InCategory(ts: seq<Transaction>, c: string): seq<Transaction> {
    Filter(ts, (t: Transaction) => t.category == c)
  }

  /** The sum of the amounts of the transactions with category `c`, whatever their type. */
  function CategoryTotal(ts: seq<Transaction>, c: string): real {
    Total(InCategory(ts, c))
  }

  /** The sum of the amounts of the expenses with category `c`. */
  function ExpenseTotal(ts: seq<Transaction>, c: string): real {
    Total(Filter(ts, (t: Transaction) => t.kind == "expense" && t.category == c))
  }

  /** A category no transaction has sums to zero. */
  lemma {:induction false} CategoryTotalAbsent(ts: seq<Transaction>, c: string)
    requires forall i :: 0 <= i < |ts| ==> ts[i].category != c
    ensures CategoryTotal(ts, c) == 0.0
  {
    FilterNone(ts, (t: Transaction) => t.category == c);
  }

  /** One more transaction adds its amount to its own category's total and to no other. */
  lemma CategoryTotalAppend(ts: seq<Transaction>, t: Transaction, c: string)
    ensures CategoryTotal(ts + [t], c) == CategoryTotal(ts, c) + (if t.category == c then t.amount else 0.0)
  {
    var p := (x: Transaction) => x.category == c;
    FilterAppend(ts, [t], p);
    assert Filter([t], p) == (if t.category == c then [t] else []) by { assert [t][..0] == []; }
    TotalAppend(Filter(ts, p), Filter([t], p));
    assert Total([t]) == t.amount by { assert [t][..0] == []; }
  }

  /** The category totals of the expense sublist are the expense totals of the whole list. */
  lemma ExpenseTotalOfExpenses(ts: seq<Transaction>, c: string)
    ensures CategoryTotal(OfKind(ts, "expense"), c) == ExpenseTotal(ts, c)
  {
    FilterCompose(ts, (t: Transaction) => t.kind == "expense", (t: Transaction) => t.category == c,
                  (t: Transaction) => t.kind == "expense" && t.category == c);
  }

  /** Adding a transaction of another category leaves a category's total as it was. */
  lemma CategoryTotalOther(ts: seq<Transaction>, t: Transaction, c: string)
    requires t.category != c
    ensures CategoryTotal(ts + [t], c) == CategoryTotal(ts, c)
  {
    assert (ts + [t])[..|ts|] == ts;
    assert InCategory(ts + [t], c) == InCategory(ts, c);
  }

  // ---- grouping by month number (`$month: '$date'`) ----

  function SumOf(xs: seq<real>): real
    decreases |xs|
  {
    if |xs| == 0 then 0.0 else SumOf(xs[..|xs| - 1]) + xs[|xs| - 1]
  }

  function MonthIs(m: int): Transaction -> bool {
    (t: Transaction) => t.date.month == m
  }

  /** The transactions whose date has month number `m` (`$month: '$date'`). */
  function InMonthNumber(ts: seq<Transaction>, m: int): seq<Transaction> {
    Filter(ts, MonthIs(m))
  }

  function MonthNumbers(ts: seq<Transaction>): (r: seq<int>)
    ensures |r| == |ts| && forall i :: 0 <= i < |ts| ==> r[i] == ts[i].date.month
  {
    seq(|ts|, i requires 0 <= i < |ts| => ts[i].date.month)
  }

  /** A `$group` on `$month: '$date'` with `$sum: '$amount'`: the total of each listed month number. */
  function MonthTotals(ts: seq<Transaction>, ms: seq<int>): (r: seq<real>)
    ensures |r| == |ms|
    decreases |ms|
  {
    if |ms| == 0 then [] else MonthTotals(ts, ms[..|ms| - 1]) + [Total(InMonthNumber(ts, ms[|ms| - 1]))]
  }

  lemma {:induction false} MonthTotalsOfNone(ms: seq<int>)
    ensures SumOf(MonthTotals([], ms)) == 0.0
    decreases |ms|
  {
    if |ms| > 0 {
      MonthTotalsOfNone(ms[..|ms| - 1]);
      var init := MonthTotals([], ms[..|ms| - 1]);
      assert (init + [0.0])[..|init|] == init;
    }
  }

  /** One more transaction adds its amount to its own month's total, if that month is listed. */
  lemma {:induction false} MonthTotalsAppend(ts: seq<Transaction>, t: Transaction, ms: seq<int>)
    requires NoDuplicates(ms)
    ensures SumOf(MonthTotals(ts + [t], ms)) == SumOf(MonthTotals(ts, ms)) + (if t.date.month in ms then t.amount else 0.0)
    decreases |ms|
  {
    if |ms| > 0 {
      var init, m := ms[..|ms| - 1], ms[|ms| - 1];
      assert ms == init + [m];
      assert NoDuplicates(init);
      assert m !in init;
      MonthTotalsAppend(ts, t, init);
      FilterAppend(ts, [t], MonthIs(m));
      FilterSingleton(t, MonthIs(m));
      TotalAppend(InMonthNumber(ts, m), InMonthNumber([t], m));
      var a, b := MonthTotals(ts + [t], init), MonthTotals(ts, init);
      assert (a + [Total(InMonthNumber(ts + [t], m))])[..|a|] == a;
      assert (b + [Total(InMonthNumber(ts, m))])[..|b|] == b;
    }
  }

  /** When the listed months are distinct and cover every transaction, their totals sum to the whole. */
  lemma {:induction false} MonthTotalsSum(ts: seq<Transaction>, ms: seq<int>)
    requires NoDuplicates(ms)
    requires forall i :: 0 <= i < |ts| ==> ts[i].date.month in ms
    ensures SumOf(MonthTotals(ts, ms)) == Total(ts)
    decreases |ts|
  {
    if |ts| == 0 {
      MonthTotalsOfNone(ms);
    } else {
      var init, t := ts[..|ts| - 1], ts[|ts| - 1];
      assert ts == init + [t];
      MonthTotalsSum(init, ms);
      MonthTotalsAppend(init, t, ms);
    }
  }

  // ---- one total per listed category (the chart series) ----

  /** `labels.map(cat => ts.filter(t => t.category === cat).reduce(...))`. */
  function CategorySeries(ts: seq<Transaction>, labels: seq<string>): (r: seq<real>)
    ensures |r| == |labels|
    ensures forall i :: 0 <= i < |labels| ==> r[i] == CategoryTotal(ts, labels[i])
    decreases |labels|
  {
    if |labels| == 0 then [] else CategorySeries(ts, labels[..|labels| - 1]) + [CategoryTotal(ts, labels[|labels| - 1])]
  }

  function InLabels(labels: seq<string>): Transaction -> bool {
    (t: Transaction) => t.category in labels
  }

  lemma {:induction false} CategorySeriesOfNone(labels: seq<string>)
    ensures SumOf(CategorySeries([], labels)) == 0.0
    decreases |labels|
  {
    if |labels| > 0 {
      CategorySeriesOfNone(labels[..|labels| - 1]);
      var init := CategorySeries([], labels[..|labels| - 1]);
      assert (init + [0.0])[..|init|] == init;
    }
  }

  /** One more transaction adds its amount to the sum of the series when its category is listed. */
  lemma {:induction false} CategorySeriesAppend(ts: seq<Transaction>, t: Transaction, labels: seq<string>)
    requires NoDuplicates(labels)
    ensures SumOf(CategorySeries(ts + [t], labels)) == SumOf(CategorySeries(ts, labels)) + (if t.category in labels then t.amount else 0.0)
    decreases |labels|
  {
    if |labels| > 0 {
      var init, c := labels[..|labels| - 1], labels[|labels| - 1];
      assert labels == init + [c];
      assert NoDuplicates(init);
      assert c !in init;
      CategorySeriesAppend(ts, t, init);
      CategoryTotalAppend(ts, t, c);
      var a, b := CategorySeries(ts + [t], init), CategorySeries(ts, init);
      assert (a + [CategoryTotal(ts + [t], c)])[..|a|] == a;
      assert (b + [CategoryTotal(ts, c)])[..|b|] == b;
    }
  }

  /**
   * With distinct labels, the series sums to the total of the transactions whose category
   * is listed: nothing is counted twice and an unlisted category adds nothing.
   */
  lemma {:induction false} CategorySeriesSum(ts: seq<Transaction>, labels: seq<string>)
    requires NoDuplicates(labels)
    ensures SumOf(CategorySeries(ts, labels)) == Total(Filter(ts, InLabels(labels)))
    decreases |ts|
  {
    if |ts| == 0 {
      CategorySeriesOfNone(labels);
    } else {
      var init, t := ts[..|ts| - 1], ts[|ts| - 1];
      assert ts == init + [t];
      CategorySeriesSum(init, labels);
      CategorySeriesAppend(init, t, labels);
      ListedTotalAppend(init, t, labels);
    }
  }

  lemma ListedTotalAppend(ts: seq<Transaction>, t: Transaction, labels: seq<string>)
    ensures Total(Filter(ts + [t], InLabels(labels))) == Total(Filter(ts, InLabels(labels))) + (if t.category in labels then t.amount else 0.0)
  {
    FilterAppend(ts, [t], InLabels(labels));
    assert Filter([t], InLabels(labels)) == (if t.category in labels then [t] else []) by { assert [t][..0] == []; }
    TotalAppend(Filter(ts, InLabels(labels)), Filter([t], InLabels(labels)));
    assert Total([t]) == t.amount by { assert [t][..0] == []; }
  }
}
