/**
 * The budget handlers: `setBudget` validates the amount and upserts the entry for
 * (caller, category, month); `getBudgets` lists the caller's budgets for one month. The
 * `Budget` collection is a table keyed on the unique index.
 */
module BudgetController {
  import opened Wrappers
  import opened Http
  import opened BudgetModel

  /**
   * The body of a `setBudget` request. `amount` is `Number(body.amount)`, `None` when that is
   * NaN.
   */
  datatype BudgetRequest = BudgetRequest(category: string, amount: Option<real>, month: string)

  /** The guard `!(isNaN(numericAmount) || numericAmount <= 0)`. */
  predicate AcceptedAmount(amount: Option<real>) {
    amount.Some? && amount.value > 0.0
  }

  /**
   * `findOneAndUpdate(key, { amount }, { upsert: true })`: an existing entry keeps its id and
   * gets the new amount; a missing one is inserted with a fresh id. No validator runs, so the
   * month is stored whatever its format.
   */
  function Upsert(table: map<BudgetKey, Budget>, key: BudgetKey, amount: real, freshId: nat): (r: map<BudgetKey, Budget>)
    ensures r.Keys == table.Keys + {key}
    ensures r[key].amount == amount
    ensures (key in table ==> KeyOf(table[key]) == key) ==> KeyOf(r[key]) == key
    ensures key in table ==> |r| == |table| && r[key] == table[key].(amount := amount)
    ensures key !in table ==> |r| == |table| + 1 && r[key] == Budget(freshId, key.0, key.1, amount, key.2)
    ensures forall k :: k in table && k != key ==> r[k] == table[k]
  {
    if key in table then
      table[key := table[key].(amount := amount)]
    else
      var r := table[key := Budget(freshId, key.0, key.1, amount, key.2)];
      assert r.Keys == table.Keys + {key};
      r
  }

  /** Repeating the same upsert changes nothing. */
  lemma UpsertIdempotent(table: map<BudgetKey, Budget>, key: BudgetKey, amount: real, id1: nat, id2: nat)
    ensures Upsert(Upsert(table, key, amount, id1), key, amount, id2) == Upsert(table, key, amount, id1)
  {
    var once := Upsert(table, key, amount, id1);
    var twice := Upsert(once, key, amount, id2);
    assert twice.Keys == once.Keys;
    assert twice[key] == once[key];
  }

  predicate DistinctBudgetIds(table: map<BudgetKey, Budget>) {
    forall k1, k2 :: k1 in table && k2 in table && k1 != k2 ==> table[k1].id != table[k2].id
  }

  /**
   * Every entry sits under its own key, so no two budgets share (user, category, month),
   * and ids are distinct and below `nextId`.
   */
  predicate BudgetTableInvariant(table: map<BudgetKey, Budget>, nextId: nat) {
    && (forall k :: k in table ==> KeyOf(table[k]) == k && table[k].id < nextId)
    && DistinctBudgetIds(table)
  }

  /** The unique index holds in a table kept in the invariant. */
  lemma OneBudgetPerKey(table: map<BudgetKey, Budget>, nextId: nat, k1: BudgetKey, k2: BudgetKey)
    requires BudgetTableInvariant(table, nextId) && k1 in table && k2 in table
    requires KeyOf(table[k1]) == KeyOf(table[k2])
    ensures k1 == k2 && table[k1] == table[k2]
  {
  }

  lemma UpsertKeepsInvariant(table: map<BudgetKey, Budget>, nextId: nat, key: BudgetKey, amount: real)
    requires BudgetTableInvariant(table, nextId)
    ensures BudgetTableInvariant(Upsert(table, key, amount, nextId), nextId + 1)
  {
    var r := Upsert(table, key, amount, nextId);
    forall k | k in r ensures KeyOf(r[k]) == k && r[k].id < nextId + 1 {
      if k != key { assert r[k] == table[k]; }
    }
    forall k1, k2 | k1 in r && k2 in r && k1 != k2 ensures r[k1].id != r[k2].id {
      UpsertIdsDiffer(table, nextId, key, amount, k1, k2);
    }
  }

  lemma UpsertIdsDiffer(table: map<BudgetKey, Budget>, nextId: nat, key: BudgetKey, amount: real, k1: BudgetKey, k2: BudgetKey)
    requires BudgetTableInvariant(table, nextId)
    requires k1 in Upsert(table, key, amount, nextId) && k2 in Upsert(table, key, amount, nextId) && k1 != k2
    ensures Upsert(table, key, amount, nextId)[k1].id != Upsert(table, key, amount, nextId)[k2].id
  {
    var r := Upsert(table, key, amount, nextId);
    if k1 != key && k2 != key {
      assert r[k1] == table[k1] && r[k2] == table[k2];
    } else if k1 == key {
      assert r[k2] == table[k2];
      if key in table { assert r[k1].id == table[k1].id; }
    } else {
      assert r[k1] == table[k1];
      if key in table { assert r[k2].id == table[k2].id; }
    }
  }

  /** Nothing checks the month on this path: a key that is not `YYYY-MM` is stored as given. */
  lemma UpsertStoresAnyMonth(user: nat, amount: real)
    ensures var key := (user, "Food", "March");
            var r := Upsert(map[], key, amount, 0);
            key in r && !ValidBudget(r[key])
  {
  }

  /**
   * `getBudgets`: 400 when the `month` query parameter is missing or empty; otherwise
   * exactly the caller's budgets for that month.
   */
  function GetBudgets(table: map<BudgetKey, Budget>, caller: nat, month: Option<string>): (r: (Status, set<Budget>))
    ensures r.0 == BadRequest <==> month.None? || month.value == ""
    ensures r.0 == BadRequest ==> r.1 == {}
    ensures r.0 != BadRequest ==> r.0 == Ok && forall b :: b in r.1 <==> b in table.Values && b.user == caller && b.month == month.value
  {
    if month.None? || month.value == "" then (BadRequest, {})
    else (Ok, set k | k in table && table[k].user == caller && table[k].month == month.value :: table[k])
  }

  /** A store of budgets, kept in `BudgetTableInvariant`. */
  class BudgetStore {
    var table: map<BudgetKey, Budget>
    var nextId: nat

    ghost predicate Valid()
      reads this
    {
      BudgetTableInvariant(table, nextId)
    }

    constructor ()
      ensures Valid() && table == map[] && nextId == 0
    {
      table := map[];
      nextId := 0;
    }

    /**
     * `setBudget`: a NaN or non-positive amount is answered 400 with the table unchanged;
     * otherwise the (caller, category, month) entry is upserted with the amount and echoed
     * with 200.
     */
    method SetBudget(caller: nat, req: BudgetRequest) returns (status: Status, saved: Option<Budget>)
      requires Valid()
      modifies this
      ensures Valid()
      ensures !AcceptedAmount(req.amount) ==> status == BadRequest && saved.None? && table == old(table) && nextId == old(nextId)
      ensures AcceptedAmount(req.amount) ==>
                var key := (caller, req.category, req.month);
                && status == Ok
                && table == Upsert(old(table), key, req.amount.value, old(nextId))
                && saved == Some(table[key]) && saved.value.amount == req.amount.value
    {
      if req.amount.None? || req.amount.value <= 0.0 {
        return BadRequest, None;
      }
      var key := (caller, req.category, req.month);
      UpsertKeepsInvariant(table, nextId, key, req.amount.value);
      table := Upsert(table, key, req.amount.value, nextId);
      nextId := nextId + 1;
      status, saved := Ok, Some(table[key]);
    }
  }
}
