/**
 * The debt handlers: list the caller's debts, add one, toggle a debt's status, delete one.
 * The `Debt` collection is the `records` field of a store object.
 */
module DebtController {
  import opened Wrappers
  import opened Http
  import opened Calendar
  import opened Collections
  import opened DebtModel

  /** The sort key of `sort({ createdAt: -1 })`. */
  function CreatedKey(d: Debt): int {
    Ordinal(d.createdAt)
  }

  /** The `find({ user })` filter, in collection order. */
  function DebtsOwnedBy(ds: seq<Debt>, user: nat): seq<Debt> {
    Filter(ds, (d: Debt) => d.user == user)
  }

  /** `getDebts`: exactly the caller's debts, most recently created first. */
  function DebtsOf(ds: seq<Debt>, user: nat): (r: seq<Debt>)
    ensures SortedDesc(r, CreatedKey)
    ensures multiset(r) == multiset(DebtsOwnedBy(ds, user))
    ensures forall i :: 0 <= i < |r| ==> r[i] in ds && r[i].user == user
    ensures forall i :: 0 <= i < |ds| && ds[i].user == user ==> ds[i] in r
  {
    var owned := DebtsOwnedBy(ds, user);
    var r := SortDesc(owned, CreatedKey);
    forall i | 0 <= i < |r| ensures r[i] in ds && r[i].user == user {
      assert r[i] in multiset(owned);
    }
    forall i | 0 <= i < |ds| && ds[i].user == user ensures ds[i] in r {
      assert ds[i] in multiset(r);
    }
    r
  }

  function HasDebtId(id: nat): Debt -> bool {
    (d: Debt) => d.id == id
  }

  /** `Debt.findById(id)`. */
  function FindDebt(ds: seq<Debt>, id: nat): Option<nat> {
    FirstIndex(ds, HasDebtId(id))
  }

  /** The status assignment of `updateDebt`: `'pending'` becomes `'paid'`, anything else `'pending'`. */
  function Toggle(status: string): (r: string)
    ensures r in DebtStatuses
    ensures status == "pending" <==> r == "paid"
  {
    if status == "pending" then "paid" else "pending"
  }

  /** On the status enum, toggling swaps the two values and undoes itself. */
  lemma ToggleInvolution(status: string)
    requires status in DebtStatuses
    ensures Toggle(status) != status
    ensures Toggle(Toggle(status)) == status
  {
  }

  /** The saved document: the new status, and `updatedAt` stamped by `timestamps: true`. */
  function Toggled(d: Debt, now: Date): (r: Debt)
    ensures r.status == Toggle(d.status) && r.updatedAt == now
    ensures r.(status := d.status, updatedAt := d.updatedAt) == d
  {
    d.(status := Toggle(d.status), updatedAt := now)
  }

  predicate DistinctDebtIds(ds: seq<Debt>) {
    forall i, j :: 0 <= i < j < |ds| ==> ds[i].id != ds[j].id
  }

  /** Every debt is valid, and ids are distinct and below `nextId`. */
  ghost predicate DebtStoreInvariant(ds: seq<Debt>, nextId: nat) {
    && (forall i :: 0 <= i < |ds| ==> ValidDebt(ds[i]) && ds[i].id < nextId)
    && DistinctDebtIds(ds)
  }

  lemma AppendKeepsDebtInvariant(ds: seq<Debt>, nextId: nat, d: Debt)
    requires DebtStoreInvariant(ds, nextId) && ValidDebt(d) && d.id == nextId
    ensures DebtStoreInvariant(ds + [d], nextId + 1)
  {
    var r := ds + [d];
    forall i | 0 <= i < |r| ensures ValidDebt(r[i]) && r[i].id < nextId + 1 {
      if i < |ds| { assert r[i] == ds[i]; }
    }
  }

  lemma RemoveKeepsDebtInvariant(ds: seq<Debt>, nextId: nat, i: nat)
    requires DebtStoreInvariant(ds, nextId) && i < |ds|
    ensures DebtStoreInvariant(ds[..i] + ds[i + 1..], nextId)
  {
    var r := ds[..i] + ds[i + 1..];
    forall k | 0 <= k < |r| ensures r[k] == ds[if k < i then k else k + 1] {
    }
  }

  /** The toggled document passes validation again, so `save` stores it. */
  lemma ToggleKeepsDebtInvariant(ds: seq<Debt>, nextId: nat, i: nat, now: Date)
    requires DebtStoreInvariant(ds, nextId) && i < |ds| && ValidDate(now)
    ensures DebtStoreInvariant(ds[i := Toggled(ds[i], now)], nextId)
  {
    var r := ds[i := Toggled(ds[i], now)];
    assert ValidDebt(r[i]);
    forall k | 0 <= k < |r| ensures ValidDebt(r[k]) && r[k].id < nextId {
      if k != i { assert r[k] == ds[k]; }
    }
    assert forall k :: 0 <= k < |r| ==> r[k].id == ds[k].id;
  }

  /**
   * The outcome of `updateDebt`: 404 when no debt has the id, 401 when it belongs to
   * someone else (both leave the records as they were); otherwise 200, and that one debt is
   * replaced by its toggled copy.
   */
  function Updated(ds: seq<Debt>, caller: nat, id: nat, now: Date): (r: (Status, seq<Debt>))
    ensures r.0 == NotFound <==> forall k :: 0 <= k < |ds| ==> ds[k].id != id
    ensures r.0 in {NotFound, Unauthorized, Ok}
    ensures r.0 != Ok ==> r.1 == ds
    ensures r.0 == Unauthorized ==> exists k :: 0 <= k < |ds| && ds[k].id == id && ds[k].user != caller
    ensures r.0 == Ok ==> exists k :: 0 <= k < |ds| && ds[k].id == id && ds[k].user == caller
                                      && r.1 == ds[k := Toggled(ds[k], now)]
  {
    match FindDebt(ds, id)
    case None => (NotFound, ds)
    case Some(i) => if ds[i].user != caller then (Unauthorized, ds) else (Ok, ds[i := Toggled(ds[i], now)])
  }

  /**
   * Two successful updates of the same debt restore its status; every other field but
   * `updatedAt`, and every other debt, is as it was.
   */
  lemma UpdateTwiceRestores(ds: seq<Debt>, caller: nat, id: nat, now1: Date, now2: Date)
    requires DistinctDebtIds(ds)
    requires Updated(ds, caller, id, now1).0 == Ok
    ensures var once := Updated(ds, caller, id, now1).1;
            var twice := Updated(once, caller, id, now2);
            && twice.0 == Ok
            && |twice.1| == |ds|
            && forall k :: 0 <= k < |ds| ==>
                 twice.1[k] == (if ds[k].id == id then ds[k].(status := Toggle(Toggle(ds[k].status)), updatedAt := now2) else ds[k])
  {
    var i := FindDebt(ds, id).value;
    var once := ds[i := Toggled(ds[i], now1)];
    assert forall k :: 0 <= k < |once| ==> once[k].id == ds[k].id && once[k].user == ds[k].user;
    assert FindDebt(once, id) == Some(i) by {
      assert forall j :: 0 <= j < i ==> !HasDebtId(id)(once[j]);
    }
    assert forall k :: 0 <= k < |ds| && ds[k].id == id ==> k == i;
  }

  /**
   * The outcome of `deleteDebt`: 404 for an unknown id, 401 for another user's debt (both
   * leave the records as they were); otherwise 200 and exactly that debt is removed.
   */
  function DebtDeleted(ds: seq<Debt>, caller: nat, id: nat): (r: (Status, seq<Debt>))
    ensures r.0 == NotFound <==> forall k :: 0 <= k < |ds| ==> ds[k].id != id
    ensures r.0 in {NotFound, Unauthorized, Ok}
    ensures r.0 != Ok ==> r.1 == ds
    ensures r.0 == Unauthorized ==> exists k :: 0 <= k < |ds| && ds[k].id == id && ds[k].user != caller
    ensures r.0 == Ok ==> exists k :: 0 <= k < |ds| && ds[k].id == id && ds[k].user == caller
                                      && r.1 == ds[..k] + ds[k + 1..]
  {
    match FindDebt(ds, id)
    case None => (NotFound, ds)
    case Some(i) => if ds[i].user != caller then (Unauthorized, ds) else (Ok, ds[..i] + ds[i + 1..])
  }

  /** With distinct ids, a successful delete leaves no debt with the id and keeps every other. */
  lemma DebtDeleteRemovesExactlyOne(ds: seq<Debt>, caller: nat, id: nat)
    requires DistinctDebtIds(ds)
    requires DebtDeleted(ds, caller, id).0 == Ok
    ensures var r := DebtDeleted(ds, caller, id).1;
            && |r| == |ds| - 1
            && (forall k :: 0 <= k < |r| ==> r[k].id != id)
            && (forall k :: 0 <= k < |ds| && ds[k].id != id ==> ds[k] in r)
  {
    var i := FindDebt(ds, id).value;
    assert AtMostOne(ds, HasDebtId(id));
    RemoveTheOne(ds, i, HasDebtId(id));
    RemovedKeepsOthers(ds, i);
  }

  /** A store of debts, kept in `DebtStoreInvariant`. */
  class DebtStore {
    var records: seq<Debt>
    var nextId: nat

    ghost predicate Valid()
      reads this
    {
      DebtStoreInvariant(records, nextId)
    }

    constructor ()
      ensures Valid() && records == [] && nextId == 0
    {
      records := [];
      nextId := 0;
    }

    /**
     * `addDebt`: the debt built from the body is appended and echoed with 201; a debt the
     * schema rejects is not stored and the answer is 500.
     */
    method AddDebt(caller: nat, body: DebtBody, now: Date) returns (status: Status, saved: Option<Debt>)
      requires Valid() && ValidDate(now)
      modifies this
      ensures Valid()
      ensures saved == NewDebt(old(nextId), caller, body, now)
      ensures saved.Some? ==> status == Created && records == old(records) + [saved.value] && nextId == old(nextId) + 1
      ensures saved.None? ==> status == ServerError && records == old(records) && nextId == old(nextId)
    {
      saved := NewDebt(nextId, caller, body, now);
      if saved.None? {
        return ServerError, saved;
      }
      Append(saved.value);
      status := Created;
    }

    /** Stores a valid debt carrying the next id. */
    method Append(d: Debt)
      requires Valid() && ValidDebt(d) && d.id == nextId
      modifies this
      ensures Valid() && records == old(records) + [d] && nextId == old(nextId) + 1
    {
      AppendKeepsDebtInvariant(records, nextId, d);
      records := records + [d];
      nextId := nextId + 1;
    }

    /** `updateDebt`, proved against `Updated`; on success the saved debt is echoed. */
    method UpdateDebt(caller: nat, id: nat, now: Date) returns (status: Status, saved: Option<Debt>)
      requires Valid() && ValidDate(now)
      modifies this
      ensures Valid() && nextId == old(nextId)
      ensures (status, records) == Updated(old(records), caller, id, now)
      ensures saved.Some? <==> status == Ok
      ensures saved.Some? ==> saved.value in records && saved.value.id == id
    {
      var found := FindDebt(records, id);
      if found.None? {
        return NotFound, None;
      }
      var i := found.value;
      if records[i].user != caller {
        return Unauthorized, None;
      }
      ToggleKeepsDebtInvariant(records, nextId, i, now);
      records := records[i := Toggled(records[i], now)];
      status, saved := Ok, Some(records[i]);
    }

    /** `deleteDebt`, proved against `DebtDeleted`. */
    method DeleteDebt(caller: nat, id: nat) returns (status: Status)
      requires Valid()
      modifies this
      ensures Valid() && nextId == old(nextId)
      ensures (status, records) == DebtDeleted(old(records), caller, id)
    {
      var found := FindDebt(records, id);
      if found.None? {
        return NotFound;
      }
      var i := found.value;
      if records[i].user != caller {
        return Unauthorized;
      }
      RemoveKeepsDebtInvariant(records, nextId, i);
      records := records[..i] + records[i + 1..];
      status := Ok;
    }
  }
}
