/**
 * The frontend `Dashboard`: the income, expense and balance cards, the two type sublists the
 * charts receive, the five most recent transactions, and the view-all and loading tests.
 */
module Dashboard {
  import opened Collections
  import opened TransactionModel

  /** What the page renders: the loading text, or the cards, the recent list and the chart inputs. */
  datatype View =
    | LoadingScreen
    | Page(totalIncome: real, totalExpense: real, balance: real,
           recent: seq<Transaction>, showViewAll: bool,
           incomeTransactions: seq<Transaction>, expenseTransactions: seq<Transaction>)

  /** How many transactions the recent list shows. */
  const RecentCount: nat := 5

  /**
   * The balance as the signed sum of the list: income counts up, an expense counts down, and
   * a transaction of any other type does not count.
   */
  function Net(ts: seq<Transaction>): real
    decreases |ts|
  {
    if |ts| == 0 then 0.0
    else
      var t := ts[|ts| - 1];
      Net(ts[..|ts| - 1]) + (if t.kind == "income" then t.amount else if t.kind == "expense" then -t.amount else 0.0)
  }

  /** `transactions.slice(0, 5)`. */
  function Recent(ts: seq<Transaction>): (r: seq<Transaction>)
    ensures |r| == if |ts| < RecentCount then |ts| else RecentCount
    ensures forall i :: 0 <= i < |r| ==> r[i] == ts[i]
  {
    if |ts| < RecentCount then ts else ts[..RecentCount]
  }

  /**
   * The page: the loading text exactly while loading with nothing held; otherwise the
   * totals of the two type sublists and their difference, the first five transactions, and
   * the view-all button exactly when there are more than five.
   */
  function Render(ts: seq<Transaction>, loading: bool): (r: View)
    ensures r.LoadingScreen? <==> loading && |ts| == 0
    ensures r.Page? ==> && r.totalIncome == Total(OfKind(ts, "income"))
                        && r.totalExpense == Total(OfKind(ts, "expense"))
                        && r.balance == r.totalIncome - r.totalExpense
                        && r.recent == Recent(ts)
                        && r.incomeTransactions == OfKind(ts, "income")
                        && r.expenseTransactions == OfKind(ts, "expense")
    ensures r.Page? ==> (r.showViewAll <==> |ts| > RecentCount)
  {
    if loading && |ts| == 0 then LoadingScreen
    else
      var income := Total(OfKind(ts, "income"));
      var expense := Total(OfKind(ts, "expense"));
      Page(income, expense, income - expense, Recent(ts), |ts| > RecentCount, OfKind(ts, "income"), OfKind(ts, "expense"))
  }

  /** The income total less the expense total is the signed sum of the list. */
  lemma {:induction false} NetOfKinds(ts: seq<Transaction>)
    ensures Total(OfKind(ts, "income")) - Total(OfKind(ts, "expense")) == Net(ts)
    decreases |ts|
  {
    if |ts| > 0 {
      var init, t := ts[..|ts| - 1], ts[|ts| - 1];
      assert ts == init + [t];
      NetOfKinds(init);
      OfKindStep(init, t, "income");
      OfKindStep(init, t, "expense");
    }
  }

  /** Appending one transaction moves the total of its type by its amount and leaves other types alone. */
  lemma OfKindStep(init: seq<Transaction>, t: Transaction, kind: string)
    ensures Total(OfKind(init + [t], kind)) == Total(OfKind(init, kind)) + (if t.kind == kind then t.amount else 0.0)
  {
    var p := (x: Transaction) => x.kind == kind;
    FilterAppend(init, [t], p);
    FilterSingleton(t, p);
    TotalAppend(Filter(init, p), Filter([t], p));
  }

  /** The balance card shows the signed sum of the held list. */
  lemma BalanceIsNet(ts: seq<Transaction>, loading: bool)
    requires Render(ts, loading).Page?
    ensures Render(ts, loading).balance == Net(ts)
  {
    NetOfKinds(ts);
  }

  /** The recent list leaves something out exactly when the view-all button is shown. */
  lemma ViewAllIffTruncated(ts: seq<Transaction>, loading: bool)
    requires Render(ts, loading).Page?
    ensures Render(ts, loading).showViewAll <==> |Render(ts, loading).recent| < |ts|
  {
  }

  /**
   * With every type `income` or `expense`, the two sublists split the list: between them
   * they hold each transaction exactly as often as the list does.
   */
  lemma TypeSublistsPartition(ts: seq<Transaction>)
    requires forall i :: 0 <= i < |ts| ==> ts[i].kind in TransactionTypes
    ensures multiset(OfKind(ts, "income")) + multiset(OfKind(ts, "expense")) == multiset(ts)
    ensures forall i, j :: 0 <= i < |OfKind(ts, "income")| && 0 <= j < |OfKind(ts, "expense")|
                           ==> OfKind(ts, "income")[i] != OfKind(ts, "expense")[j]
  {
    FilterPartition(ts, (t: Transaction) => t.kind == "income", (t: Transaction) => t.kind == "expense");
  }

  /**
   * The provider's initial state (nothing held, loading) shows the loading text; once anything
   * is held the page shows even while a fetch is running.
   */
  lemma InitialStateLoads()
    ensures Render([], true).LoadingScreen?
    ensures forall ts :: |ts| > 0 ==> Render(ts, true).Page?
  {
  }
}
