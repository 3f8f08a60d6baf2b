/** The category lists the frontend forms offer, checked against the backend schema's enum. */
module Categories {
  import opened Collections
  import opened Wrappers
  import opened Calendar
  import opened TransactionModel

  const IncomeCategories: seq<string> := [
    "Salary", "Bonus", "Freelance", "Investments", "Gifts", "Rental Income", "Other Income"
  ]

  const ExpenseCategories: seq<string> := [
    "Food", "Transport", "Shopping", "Utilities", "Health", "Entertainment", "Other"
  ]

  /** Seven distinct entries in each list, and no category in both. */
  lemma ListsDistinctAndDisjoint()
    ensures |IncomeCategories| == 7 && NoDuplicates(IncomeCategories)
    ensures |ExpenseCategories| == 7 && NoDuplicates(ExpenseCategories)
    ensures forall i, j :: 0 <= i < |IncomeCategories| && 0 <= j < |ExpenseCategories|
                           ==> IncomeCategories[i] != ExpenseCategories[j]
  {
  }

  /** Every income category is one the schema admits. */
  lemma IncomeCategoriesAdmitted()
    ensures forall i :: 0 <= i < |IncomeCategories| ==> IncomeCategories[i] in CategoryEnum
  {
  }

  /**
   * Six of the seven expense categories are in the schema's enum; the last, `'Other'`, is
   * not, so a transaction filed under it is never saved.
   */
  lemma ExpenseCategoriesAdmitted(id: nat, user: nat, body: TransactionBody, now: Date)
    requires ValidDate(now) && body.category == Some("Other")
    ensures forall i :: 0 <= i < 6 ==> ExpenseCategories[i] in CategoryEnum
    ensures ExpenseCategories[6] == "Other" && "Other" !in CategoryEnum
    ensures NewTransaction(id, user, body, now).None?
  {
  }
}
