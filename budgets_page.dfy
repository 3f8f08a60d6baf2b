/**
 * The frontend `BudgetsPage`: the fetched budgets of the selected month, the spending per
 * expense category computed from the held transactions, the budget inputs, their
 * validation on save, and the "Remaining" figure of each category row.
 */
module BudgetsPage {
  import opened Wrappers
  import opened Collections
  import opened TransactionModel
  import opened BudgetModel
  import opened BudgetController
  import opened BudgetComparisonChart
  import opened Categories

  /**
   * A value of the `budgets` state: a number from the fetched list, or the text typed into
   * the input together with `Number(text)` (`None` when that is NaN).
   */
  datatype BudgetEntry = Fetched(amount: real) | Typed(text: string, number: Option<real>)

  /** How the budgets request ends: an array body, a body that is not an array, or an error. */
  datatype FetchReply = ArrayBody(items: seq<Budget>) | OtherBody | FetchFailed

  const InvalidAmountMessage: string := "Please enter a valid budget amount."

  function SavedMessage(category: string): string {
    category + " budget saved successfully!"
  }

  function FailedMessage(category: string): string {
    "Failed to save " + category + " budget."
  }

  // ---- the spending map ----

  /** The object the spending `reduce` builds, one expense at a time in list order. */
  function SpendingOf(es: seq<Transaction>): map<string, real>
    decreases |es|
  {
    if |es| == 0 then map[]
    else
      var m, t := SpendingOf(es[..|es| - 1]), es[|es| - 1];
      m[t.category := (if t.category in m then m[t.category] else 0.0) + t.amount]
  }

  /** `spendingMap[cat] || 0`: a category missing from the map reads as zero. */
  function SpentOf(m: map<string, real>, c: string): real {
    if c in m then m[c] else 0.0
  }

  /**
   * The reduce keys the map by exactly the categories of the list, and each category's
   * entry, read as zero when absent, is that category's total.
   */
  lemma SpendingOfSpec(es: seq<Transaction>, c: string)
    ensures c in SpendingOf(es) <==> exists j :: 0 <= j < |es| && es[j].category == c
    ensures SpentOf(SpendingOf(es), c) == CategoryTotal(es, c)
  {
    SpendingOfKeys(es, c);
    SpendingOfValues(es, c);
  }

  lemma {:induction false} SpendingOfKeys(es: seq<Transaction>, c: string)
    ensures c in SpendingOf(es) <==> exists j :: 0 <= j < |es| && es[j].category == c
    decreases |es|
  {
    if |es| > 0 {
      var init, t := es[..|es| - 1], es[|es| - 1];
      SpendingOfKeys(init, c);
      if exists j :: 0 <= j < |init| && init[j].category == c {
        var j :| 0 <= j < |init| && init[j].category == c;
        assert es[j] == init[j];
      }
      if exists j :: 0 <= j < |es| && es[j].category == c {
        var j :| 0 <= j < |es| && es[j].category == c;
        if j < |init| { assert init[j] == es[j]; }
      }
    }
  }

  lemma {:induction false} SpendingOfValues(es: seq<Transaction>, c: string)
    ensures SpentOf(SpendingOf(es), c) == CategoryTotal(es, c)
    decreases |es|
  {
    if |es| == 0 {
      CategoryTotalAbsent(es, c);
    } else {
      var init, t := es[..|es| - 1], es[|es| - 1];
      SpendingOfValues(init, c);
      CategoryTotalLast(es, c);
      SpentOfAdd(SpendingOf(init), t.category, t.amount, c);
    }
  }

  lemma CategoryTotalLast(es: seq<Transaction>, c: string)
    requires |es| > 0
    ensures CategoryTotal(es, c) == CategoryTotal(es[..|es| - 1], c) + (if es[|es| - 1].category == c then es[|es| - 1].amount else 0.0)
  {
    assert es == es[..|es| - 1] + [es[|es| - 1]];
    CategoryTotalAppend(es[..|es| - 1], es[|es| - 1], c);
  }

  /** Adding to one category's entry changes what that category reads and nothing else. */
  lemma SpentOfAdd(m: map<string, real>, k: string, a: real, c: string)
    ensures SpentOf(m[k := (if k in m then m[k] else 0.0) + a], c) == SpentOf(m, c) + (if k == c then a else 0.0)
  {
  }

  /**
   * `spendingMap`: the expenses of the held list summed per category. A category is a key
   * exactly when some expense has it, and every category reads as its expense total
   * (zero when it has none); income plays no part.
   */
  method SpendingMap(transactions: seq<Transaction>) returns (m: map<string, real>)
    ensures forall c :: c in m <==> exists j :: 0 <= j < |transactions| && transactions[j].kind == "expense" && transactions[j].category == c
    ensures forall c :: SpentOf(m, c) == ExpenseTotal(transactions, c)
  {
    var expenses := OfKind(transactions, "expense");
    m := map[];
    for i := 0 to |expenses|
      invariant m == SpendingOf(expenses[..i])
    {
      var category := expenses[i].category;
      assert expenses[..i + 1][..i] == expenses[..i];
      m := m[category := (if category in m then m[category] else 0.0) + expenses[i].amount];
    }
    assert expenses[..|expenses|] == expenses;
    forall c ensures (c in m <==> exists j :: 0 <= j < |transactions| && transactions[j].kind == "expense" && transactions[j].category == c)
                     && SpentOf(m, c) == ExpenseTotal(transactions, c) {
      SpendingOfSpec(expenses, c);
      ExpenseTotalOfExpenses(transactions, c);
      ExpensePresent(transactions, c);
    }
  }

  /** Some expense has category `c` exactly when the expense sublist has an entry of category `c`. */
  lemma ExpensePresent(ts: seq<Transaction>, c: string)
    ensures (exists j :: 0 <= j < |OfKind(ts, "expense")| && OfKind(ts, "expense")[j].category == c)
            <==> exists j :: 0 <= j < |ts| && ts[j].kind == "expense" && ts[j].category == c
  {
    var es := OfKind(ts, "expense");
    if exists j :: 0 <= j < |es| && es[j].category == c {
      var j :| 0 <= j < |es| && es[j].category == c;
      assert es[j] in ts;
      var k :| 0 <= k < |ts| && ts[k] == es[j];
    }
    if exists j :: 0 <= j < |ts| && ts[j].kind == "expense" && ts[j].category == c {
      var j :| 0 <= j < |ts| && ts[j].kind == "expense" && ts[j].category == c;
      assert ts[j] in es;
      var k :| 0 <= k < |es| && es[k] == ts[j];
    }
  }

  /**
   * The `month=…` argument is dropped by the zero-argument `getTransactions`, so spending is
   * over every held expense whatever its date: one more expense of any month adds its amount.
   */
  lemma SpendingIgnoresMonth(ts: seq<Transaction>, t: Transaction)
    requires t.kind == "expense"
    ensures ExpenseTotal(ts + [t], t.category) == ExpenseTotal(ts, t.category) + t.amount
  {
    var p := (x: Transaction) => x.kind == "expense" && x.category == t.category;
    FilterAppend(ts, [t], p);
    assert Filter([t], p) == [t] by { assert [t][..0] == []; }
    TotalAppend(Filter(ts, p), [t]);
    assert Total([t]) == t.amount by { assert [t][..0] == []; }
  }

  // ---- the fetched budgets ----

  /** The (category, amount) assignments of the fetched-budgets `reduce`. */
  function BudgetPairs(items: seq<Budget>): (r: seq<(string, BudgetEntry)>)
    ensures |r| == |items| && forall i :: 0 <= i < |items| ==> r[i] == (items[i].category, Fetched(items[i].amount))
  {
    seq(|items|, i requires 0 <= i < |items| => (items[i].category, Fetched(items[i].amount)))
  }

  /**
   * The budgets `getBudgets` answers for one user and month, listed without repeats, have
   * distinct categories: the unique index allows one budget per (user, category, month).
   */
  lemma ServerBudgetsHaveDistinctCategories(table: map<BudgetKey, Budget>, nextId: nat, caller: nat, month: string, items: seq<Budget>)
    requires BudgetTableInvariant(table, nextId) && month != ""
    requires NoDuplicates(items)
    requires forall i :: 0 <= i < |items| ==> items[i] in GetBudgets(table, caller, Some(month)).1
    ensures NoDuplicates(Firsts(BudgetPairs(items)))
  {
    var ks := Firsts(BudgetPairs(items));
    forall i, j | 0 <= i < j < |ks| ensures ks[i] != ks[j] {
      var a, b := items[i], items[j];
      assert a in table.Values && b in table.Values;
      var k1 :| k1 in table && table[k1] == a;
      var k2 :| k2 in table && table[k2] == b;
      if a.category == b.category {
        OneBudgetPerKey(table, nextId, k1, k2);
      }
    }
  }

  /** With distinct categories, each fetched budget's amount is what the page holds for its category. */
  lemma FetchedBudgetsSpec(items: seq<Budget>, i: nat)
    requires NoDuplicates(Firsts(BudgetPairs(items))) && i < |items|
    ensures ToMap(BudgetPairs(items)).Keys == set b | b in items :: b.category
    ensures ToMap(BudgetPairs(items))[items[i].category] == Fetched(items[i].amount)
  {
    var pairs := BudgetPairs(items);
    ToMapDistinct(pairs, i);
    assert (set k | 0 <= k < |pairs| :: pairs[k].0) == set b | b in items :: b.category by {
      forall b | b in items ensures b.category in set k | 0 <= k < |pairs| :: pairs[k].0 {
        var k :| 0 <= k < |items| && items[k] == b;
        assert pairs[k].0 == b.category;
      }
    }
  }

  // ---- the rows ----

  /**
   * `budgets[cat] || 0` as `budgetAmount - spentAmount` uses it: typed text is coerced by
   * `Number`. A falsy entry (the `!amount` of `handleSave`) reads as 0, any other as the
   * number `handleSave` would send; so a row an allowed save is about shows that number.
   */
  function BudgetValue(e: Option<BudgetEntry>): (r: Option<real>)
    ensures r == if Falsy(e) then Some(0.0) else NumberOf(e.value)
    ensures SaveAllowed(e) ==> r == NumberOf(e.value) && (r.Some? ==> r.value > 0.0)
    ensures e.None? ==> r == Some(0.0)
    ensures e.Some? && e.value.Fetched? ==> r == Some(e.value.amount)
    ensures e.Some? && e.value.Typed? ==> r == (if e.value.text == "" then Some(0.0) else e.value.number)
  {
    match e
    case None => Some(0.0)
    case Some(Fetched(a)) => Some(a)
    case Some(Typed(text, n)) => if text == "" then Some(0.0) else n
  }

  function Lookup(budgets: map<string, BudgetEntry>, c: string): Option<BudgetEntry> {
    if c in budgets then Some(budgets[c]) else None
  }

  /** `amountLeft = budgetAmount - spentAmount`; `None` when the typed text is not a number (NaN). */
  function AmountLeft(budgets: map<string, BudgetEntry>, spending: map<string, real>, c: string): Option<real> {
    match BudgetValue(Lookup(budgets, c))
    case None => None
    case Some(b) => Some(b - SpentOf(spending, c))
  }

  /** The class test `amountLeft >= 0`: a NaN remainder fails it. */
  predicate RemainingIsGreen(budgets: map<string, BudgetEntry>, spending: map<string, real>, c: string) {
    var left := AmountLeft(budgets, spending, c);
    left.Some? && left.value >= 0.0
  }

  /**
   * With the spending map of the held transactions, a row is green exactly when its budget
   * is a number no smaller than what was spent on the category; a category without a
   * budget is green exactly when nothing was spent on it or the spending is not positive.
   */
  lemma GreenIff(budgets: map<string, BudgetEntry>, ts: seq<Transaction>, spending: map<string, real>, c: string)
    requires forall k :: SpentOf(spending, k) == ExpenseTotal(ts, k)
    ensures RemainingIsGreen(budgets, spending, c) <==>
              BudgetValue(Lookup(budgets, c)).Some? && BudgetValue(Lookup(budgets, c)).value >= ExpenseTotal(ts, c)
    ensures c !in budgets ==> (RemainingIsGreen(budgets, spending, c) <==> ExpenseTotal(ts, c) <= 0.0)
  {
    assert SpentOf(spending, c) == ExpenseTotal(ts, c);
  }

  /** One row of the category list: the category, its remainder (`None` for NaN) and its colour. */
  datatype BudgetRow = BudgetRow(category: string, remaining: Option<real>, green: bool)

  /** `expenseCategories.map(cat => ...)`: one row per expense-form category, in list order. */
  function Rows(budgets: map<string, BudgetEntry>, spending: map<string, real>): (r: seq<BudgetRow>)
    ensures |r| == |ExpenseCategories|
    ensures forall i :: 0 <= i < |r| ==>
              && r[i].category == ExpenseCategories[i]
              && r[i].remaining == AmountLeft(budgets, spending, ExpenseCategories[i])
              && (r[i].green <==> RemainingIsGreen(budgets, spending, ExpenseCategories[i]))
  {
    seq(|ExpenseCategories|, i requires 0 <= i < |ExpenseCategories| =>
      BudgetRow(ExpenseCategories[i], AmountLeft(budgets, spending, ExpenseCategories[i]),
                RemainingIsGreen(budgets, spending, ExpenseCategories[i])))
  }

  /**
   * The form's `'Other'` row can never show spending: the schema admits no transaction of
   * that category, so over saved transactions its expense total is zero.
   */
  lemma OtherRowNeverSpent(ts: seq<Transaction>)
    requires forall k :: 0 <= k < |ts| ==> ValidTransaction(ts[k])
    ensures ExpenseTotal(ts, "Other") == 0.0
  {
    var p := (t: Transaction) => t.kind == "expense" && t.category == "Other";
    forall k | 0 <= k < |ts| ensures !p(ts[k]) {
      assert ts[k].category in CategoryEnum;
    }
    FilterNone(ts, p);
  }

  // ---- saving ----

  /** `!amount`: a missing entry, a fetched zero, or empty text. */
  predicate Falsy(e: Option<BudgetEntry>) {
    match e
    case None => true
    case Some(Fetched(a)) => a == 0.0
    case Some(Typed(text, _)) => text == ""
  }

  /** `Number(amount)`: `None` for NaN. */
  function NumberOf(e: BudgetEntry): Option<real> {
    match e
    case Fetched(a) => Some(a)
    case Typed(_, n) => n
  }

  /**
   * `handleSave`'s guard `!(!amount || Number(amount) <= 0)`: the entry is truthy and its
   * number is not at most zero, which a NaN passes.
   */
  predicate SaveAllowed(e: Option<BudgetEntry>) {
    !Falsy(e) && !(NumberOf(e.value).Some? && NumberOf(e.value).value <= 0.0)
  }

  /**
   * The amount as the server reads it: `JSON.stringify` sends NaN as `null`, and
   * `Number(null)` is 0.
   */
  function WireAmount(n: Option<real>): (r: Option<real>)
    ensures r.Some?
  {
    if n.None? then Some(0.0) else n
  }

  /**
   * What the client lets through, the server accepts exactly when it is a number: a
   * positive number passes both checks, while a NaN passes the client's and is refused
   * with 400 by the server's.
   */
  lemma ClientAndServerChecks(e: Option<BudgetEntry>)
    requires SaveAllowed(e)
    ensures AcceptedAmount(WireAmount(NumberOf(e.value))) <==> NumberOf(e.value).Some?
    ensures NumberOf(e.value).Some? ==> NumberOf(e.value).value > 0.0
  {
  }

  /** Text that is not a number gets past the client's check and is sent to the server. */
  lemma NaNTextIsSent()
    ensures SaveAllowed(Some(Typed("abc", None)))
    ensures !AcceptedAmount(WireAmount(NumberOf(Typed("abc", None))))
  {
  }

  /** A number entry is saved by the client exactly when it is positive and, for typed text, non-empty. */
  lemma SaveAllowedForNumbers(e: BudgetEntry, v: real)
    requires NumberOf(e) == Some(v)
    ensures SaveAllowed(Some(e)) <==> v > 0.0 && !(e.Typed? && e.text == "")
  {
  }

  /**
   * The page renders the comparison chart with `budgets` and `spendingMap` props and no
   * `data`, so whatever it holds the chart shows its loading text.
   */
  function ComparisonChart(budgets: map<string, BudgetEntry>, spending: map<string, real>): (r: ComparisonView)
    ensures r.LoadingChart?
  {
    Render(None)
  }

  class BudgetsPageState {
    var budgets: map<string, BudgetEntry>
    var message: string
    const token: Option<string>
    var month: string

    predicate HasToken()
      reads this
    {
      token.Some? && token.value != ""
    }

    constructor (token: Option<string>, month: string)
      ensures this.token == token && this.month == month
      ensures budgets == map[] && message == ""
    {
      this.token := token;
      this.month := month;
      budgets := map[];
      message := "";
    }

    /**
     * `fetchBudgets`: without a token nothing is requested. An array reply replaces the
     * budgets with its (category, amount) assignments; any other reply leaves them as they were.
     */
    method FetchBudgets(reply: FetchReply)
      modifies this
      ensures message == old(message) && month == old(month)
      ensures HasToken() && reply.ArrayBody? ==> budgets == ToMap(BudgetPairs(reply.items))
      ensures !(HasToken() && reply.ArrayBody?) ==> budgets == old(budgets)
    {
      if !HasToken() {
        return;
      }
      if reply.ArrayBody? {
        budgets := AssignAll(BudgetPairs(reply.items));
      }
    }

    /**
     * The month input's `setMonth`, with the effect it triggers: the budgets are fetched again
     * for the new month (`reply`). A reply that is not an array, or a page without a token,
     * leaves the previous month's budgets on screen.
     */
    method SetMonth(m: string, reply: FetchReply)
      modifies this
      ensures month == m && message == old(message)
      ensures HasToken() && reply.ArrayBody? ==> budgets == ToMap(BudgetPairs(reply.items))
      ensures !(HasToken() && reply.ArrayBody?) ==> budgets == old(budgets)
    {
      month := m;
      FetchBudgets(reply);
    }

    /** `handleBudgetChange`: the category's entry becomes the typed text; no other entry changes. */
    method HandleBudgetChange(category: string, text: string, number: Option<real>)
      modifies this
      ensures budgets == old(budgets)[category := Typed(text, number)]
      ensures forall c :: c != category ==> Lookup(budgets, c) == Lookup(old(budgets), c)
      ensures message == old(message) && month == old(month)
    {
      budgets := budgets[category := Typed(text, number)];
    }

    /**
     * `handleSave`: an entry the guard refuses sets the error message and sends nothing;
     * otherwise the request (category, the amount as sent, the month) is posted, and the
     * message reports whether the post succeeded (`posted`).
     */
    method HandleSave(category: string, posted: bool) returns (sent: Option<BudgetRequest>)
      modifies this
      ensures budgets == old(budgets) && month == old(month)
      ensures !SaveAllowed(Lookup(budgets, category)) ==> sent.None? && message == InvalidAmountMessage
      ensures SaveAllowed(Lookup(budgets, category)) ==>
                && sent == Some(BudgetRequest(category, WireAmount(NumberOf(budgets[category])), month))
                && message == (if posted then SavedMessage(category) else FailedMessage(category))
    {
      var amount := Lookup(budgets, category);
      if Falsy(amount) || (NumberOf(amount.value).Some? && NumberOf(amount.value).value <= 0.0) {
        message := InvalidAmountMessage;
        return None;
      }
      sent := Some(BudgetRequest(category, WireAmount(NumberOf(amount.value)), month));
      if posted {
        message := SavedMessage(category);
      } else {
        message := FailedMessage(category);
      }
    }
  }
}
