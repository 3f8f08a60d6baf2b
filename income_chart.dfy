/** The frontend `IncomeChart`: one pie slice per charted income category, summing its amounts. */
module IncomeChart {
  import opened Collections
  import opened TransactionModel
  import opened Categories

  /** `incomeCategories`: the four income categories the chart has slices for. */
  const IncomeChartLabels: seq<string> := ["Salary", "Bonus", "Freelance", "Other Income"]

  /** The slice values: for each label, the total of the transactions of that category. */
  function IncomeChartData(transactions: seq<Transaction>): (r: seq<real>)
    ensures |r| == |IncomeChartLabels| == 4
    ensures forall i :: 0 <= i < 4 ==> r[i] == CategoryTotal(transactions, IncomeChartLabels[i])
  {
    CategorySeries(transactions, IncomeChartLabels)
  }

  /** The labels are four of the seven income categories; the other three have no slice. */
  lemma LabelsAmongIncomeCategories(c: string)
    requires c in IncomeCategories
    ensures c !in IncomeChartLabels <==> c in ["Investments", "Gifts", "Rental Income"]
  {
  }

  /** A label no transaction carries has a zero slice. */
  lemma EmptySliceIsZero(transactions: seq<Transaction>, i: nat)
    requires i < 4 && forall k :: 0 <= k < |transactions| ==> transactions[k].category != IncomeChartLabels[i]
    ensures IncomeChartData(transactions)[i] == 0.0
  {
    CategoryTotalAbsent(transactions, IncomeChartLabels[i]);
  }

  /** A transaction of an uncharted category, such as `Investments`, leaves every slice as it was. */
  lemma UnchartedCategoryIgnored(transactions: seq<Transaction>, t: Transaction)
    requires t.category !in IncomeChartLabels
    ensures IncomeChartData(transactions + [t]) == IncomeChartData(transactions)
  {
    var a, b := IncomeChartData(transactions + [t]), IncomeChartData(transactions);
    forall i | 0 <= i < 4 ensures a[i] == b[i] {
      CategoryTotalOther(transactions, t, IncomeChartLabels[i]);
    }
  }

  lemma LabelsDistinct()
    ensures NoDuplicates(IncomeChartLabels)
  {
  }

  /** The slices together hold exactly the amounts of the charted categories. */
  lemma SlicesSumToChartedTotal(transactions: seq<Transaction>)
    ensures SumOf(IncomeChartData(transactions)) == Total(Filter(transactions, InLabels(IncomeChartLabels)))
  {
    LabelsDistinct();
    CategorySeriesSum(transactions, IncomeChartLabels);
  }

  /**
   * The dashboard feeds the chart its income sublist, so slice `i` is the income total of
   * category `i`: an expense filed under a charted name does not count.
   */
  lemma DashboardSlicesAreIncome(transactions: seq<Transaction>, i: nat)
    requires i < 4
    ensures IncomeChartData(OfKind(transactions, "income"))[i]
            == Total(Filter(transactions, (t: Transaction) => t.kind == "income" && t.category == IncomeChartLabels[i]))
  {
    FilterCompose(transactions, (t: Transaction) => t.kind == "income", (t: Transaction) => t.category == IncomeChartLabels[i],
                  (t: Transaction) => t.kind == "income" && t.category == IncomeChartLabels[i]);
  }
}
