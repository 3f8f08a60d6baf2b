/** The frontend `ExpenseChart`: five pie slices, each the sum of the expenses of one category. */
module ExpenseChart {
  import opened Collections
  import opened TransactionModel
  import opened Categories

  const ExpenseChartLabels: seq<string> := ["Food", "Transport", "Entertainment", "Utilities", "Other"]

  /** The five `filter`/`reduce` sums, one per label in label order. */
  function ExpenseChartData(expenses: seq<Transaction>): (r: seq<real>)
    ensures |r| == |ExpenseChartLabels| == 5
    ensures forall i :: 0 <= i < 5 ==> r[i] == CategoryTotal(expenses, ExpenseChartLabels[i])
  {
    CategorySeries(expenses, ExpenseChartLabels)
  }

  /**
   * The last label, `'Other'`, is not a category the schema admits, so over saved
   * transactions its slice is always zero.
   */
  lemma OtherSliceOfSavedIsZero(expenses: seq<Transaction>)
    requires forall k :: 0 <= k < |expenses| ==> ValidTransaction(expenses[k])
    ensures ExpenseChartData(expenses)[4] == 0.0
  {
    forall k | 0 <= k < |expenses| ensures expenses[k].category != "Other" {
      assert expenses[k].category in CategoryEnum;
    }
    CategoryTotalAbsent(expenses, "Other");
  }

  /** An expense of a category without a slice, such as `Shopping` or `Other Expense`, changes no slice. */
  lemma UnchartedCategoryIgnored(expenses: seq<Transaction>, t: Transaction)
    requires t.category !in ExpenseChartLabels
    ensures ExpenseChartData(expenses + [t]) == ExpenseChartData(expenses)
  {
    var a, b := ExpenseChartData(expenses + [t]), ExpenseChartData(expenses);
    forall i | 0 <= i < 5 ensures a[i] == b[i] {
      CategoryTotalOther(expenses, t, ExpenseChartLabels[i]);
    }
  }

  /** An expense of a charted category adds its amount to that slice only. */
  lemma ChartedCategoryCounted(expenses: seq<Transaction>, t: Transaction, i: nat)
    requires i < 5 && t.category == ExpenseChartLabels[i]
    ensures ExpenseChartData(expenses + [t])[i] == ExpenseChartData(expenses)[i] + t.amount
    ensures forall j :: 0 <= j < 5 && j != i ==> ExpenseChartData(expenses + [t])[j] == ExpenseChartData(expenses)[j]
  {
    CategoryTotalAppend(expenses, t, ExpenseChartLabels[i]);
    forall j | 0 <= j < 5 && j != i
      ensures ExpenseChartData(expenses + [t])[j] == ExpenseChartData(expenses)[j]
    {
      CategoryTotalOther(expenses, t, ExpenseChartLabels[j]);
    }
  }

  lemma LabelsDistinct()
    ensures NoDuplicates(ExpenseChartLabels)
  {
  }

  /** The slices together hold exactly the amounts of the five charted categories. */
  lemma SlicesSumToChartedTotal(expenses: seq<Transaction>)
    ensures SumOf(ExpenseChartData(expenses)) == Total(Filter(expenses, InLabels(ExpenseChartLabels)))
  {
    LabelsDistinct();
    CategorySeriesSum(expenses, ExpenseChartLabels);
  }

  /** The dashboard feeds the chart its expense sublist, so slice `i` is the expense total of label `i`. */
  lemma DashboardSlicesAreExpenses(transactions: seq<Transaction>, i: nat)
    requires i < 5
    ensures ExpenseChartData(OfKind(transactions, "expense"))[i] == ExpenseTotal(transactions, ExpenseChartLabels[i])
  {
    ExpenseTotalOfExpenses(transactions, ExpenseChartLabels[i]);
  }

  /** Two of the expense form's seven categories, `Shopping` and `Health`, have no slice. */
  lemma FormCategoriesWithoutSlice(c: string)
    requires c in ExpenseCategories
    ensures c !in ExpenseChartLabels <==> c == "Shopping" || c == "Health"
  {
  }
}
