/**
 * The transaction handlers: list the caller's transactions, add one, delete one. The
 * `Transaction` collection is the `records` field of a store object; the request's
 * authenticated user id is `caller`.
 */
module TransactionController {
  import opened Wrappers
  import opened Http
  import opened Calendar
  import opened Collections
  import opened TransactionModel

  /** The sort key of `sort({ date: -1 })`. */
  function DateKey(t: Transaction): int {
    Ordinal(t.date)
  }

  /** The `find({ user })` filter, in collection order. */
  function OwnedBy(ts: seq<Transaction>, user: nat): seq<Transaction> {
    Filter(ts, (t: Transaction) => t.user == user)
  }

  /**
   * `getTransactions`: exactly the caller's transactions, newest date first. (The order of
   * transactions with equal dates is not fixed by the database; the model keeps them in
   * collection order.)
   */
  function TransactionsOf(ts: seq<Transaction>, user: nat): (r: seq<Transaction>)
    ensures SortedDesc(r, DateKey)
    ensures multiset(r) == multiset(OwnedBy(ts, user))
    ensures forall i :: 0 <= i < |r| ==> r[i] in ts && r[i].user == user
    ensures forall i :: 0 <= i < |ts| && ts[i].user == user ==> ts[i] in r
  {
    var owned := OwnedBy(ts, user);
    var r := SortDesc(owned, DateKey);
    forall i | 0 <= i < |r| ensures r[i] in ts && r[i].user == user {
      assert r[i] in multiset(owned);
    }
    forall i | 0 <= i < |ts| && ts[i].user == user ensures ts[i] in r {
      assert ts[i] in multiset(r);
    }
    r
  }

  /** The record-matching test of `findById`. */
  function HasId(id: nat): Transaction -> bool {
    (t: Transaction) => t.id == id
  }

  /** `Transaction.findById(id)`: the position of the record with that id, if any. */
  function FindTransaction(ts: seq<Transaction>, id: nat): Option<nat> {
    FirstIndex(ts, HasId(id))
  }

  /** Every record is valid, and ids are distinct and below `nextId`. */
  ghost predicate StoreInvariant(records: seq<Transaction>, nextId: nat) {
    && (forall i :: 0 <= i < |records| ==> ValidTransaction(records[i]) && records[i].id < nextId)
    && DistinctIds(records)
  }

  predicate DistinctIds(records: seq<Transaction>) {
    forall i, j :: 0 <= i < j < |records| ==> records[i].id != records[j].id
  }

  lemma AppendKeepsInvariant(records: seq<Transaction>, nextId: nat, t: Transaction)
    requires StoreInvariant(records, nextId) && ValidTransaction(t) && t.id == nextId
    ensures StoreInvariant(records + [t], nextId + 1)
  {
    var r := records + [t];
    forall i | 0 <= i < |r| ensures ValidTransaction(r[i]) && r[i].id < nextId + 1 {
      if i < |records| { assert r[i] == records[i]; }
    }
  }

  lemma RemoveKeepsInvariant(records: seq<Transaction>, nextId: nat, i: nat)
    requires StoreInvariant(records, nextId) && i < |records|
    ensures StoreInvariant(records[..i] + records[i + 1..], nextId)
  {
    var r := records[..i] + records[i + 1..];
    forall k | 0 <= k < |r| ensures r[k] == records[if k < i then k else k + 1] {
    }
  }

  /** Distinct ids: at most one record matches an id. */
  lemma InvariantUniqueIds(records: seq<Transaction>, id: nat)
    requires DistinctIds(records)
    ensures AtMostOne(records, HasId(id))
  {
  }

  /** A store of transactions, kept in `StoreInvariant`. */
  class TransactionStore {
    var records: seq<Transaction>
    var nextId: nat

    ghost predicate Valid()
      reads this
    {
      StoreInvariant(records, nextId)
    }

    constructor ()
      ensures Valid() && records == [] && nextId == 0
    {
      records := [];
      nextId := 0;
    }

    /**
     * `addTransaction`: the record built from the body (owner = caller, date = `now`) is
     * appended and echoed with 200; a record the schema rejects is not stored and the
     * answer is 500.
     */
    method AddTransaction(caller: nat, body: TransactionBody, now: Date) returns (status: Status, saved: Option<Transaction>)
      requires Valid() && ValidDate(now)
      modifies this
      ensures Valid()
      ensures saved == NewTransaction(old(nextId), caller, body, now)
      ensures saved.Some? ==> status == Ok && records == old(records) + [saved.value] && nextId == old(nextId) + 1
      ensures saved.None? ==> status == ServerError && records == old(records) && nextId == old(nextId)
    {
      saved := NewTransaction(nextId, caller, body, now);
      if saved.None? {
        return ServerError, saved;
      }
      Append(saved.value);
      status := Ok;
    }

    /** Stores a valid record carrying the next id. */
    method Append(t: Transaction)
      requires Valid() && ValidTransaction(t) && t.id == nextId
      modifies this
      ensures Valid() && records == old(records) + [t] && nextId == old(nextId) + 1
    {
      AppendKeepsInvariant(records, nextId, t);
      records := records + [t];
      nextId := nextId + 1;
    }

    /** `deleteTransaction`, proved against `Deleted`. */
    method DeleteTransaction(caller: nat, id: nat) returns (status: Status)
      requires Valid()
      modifies this
      ensures Valid() && nextId == old(nextId)
      ensures (status, records) == Deleted(old(records), caller, id)
    {
      var found := FindTransaction(records, id);
      if found.None? {
        return NotFound;
      }
      var i := found.value;
      if records[i].user != caller {
        return Unauthorized;
      }
      RemoveKeepsInvariant(records, nextId, i);
      records := records[..i] + records[i + 1..];
      status := Ok;
    }
  }

  /**
   * The outcome of `deleteTransaction`: 404 when no record has the id, 401 when it belongs
   * to someone else (both leave the records as they were); otherwise 200, and exactly that
   * record is removed with the others kept in order.
   */
  function Deleted(ts: seq<Transaction>, caller: nat, id: nat): (r: (Status, seq<Transaction>))
    ensures r.0 == NotFound <==> forall k :: 0 <= k < |ts| ==> ts[k].id != id
    ensures r.0 == Unauthorized <==> exists k :: 0 <= k < |ts| && ts[k].id == id && ts[k].user != caller && FindTransaction(ts, id) == Some(k)
    ensures r.0 != Ok ==> r.1 == ts
    ensures r.0 == Ok ==> exists k :: 0 <= k < |ts| && ts[k].id == id && ts[k].user == caller && r.1 == ts[..k] + ts[k + 1..]
    ensures r.0 in {NotFound, Unauthorized, Ok}
  {
    match FindTransaction(ts, id)
    case None => (NotFound, ts)
    case Some(i) => if ts[i].user != caller then (Unauthorized, ts) else (Ok, ts[..i] + ts[i + 1..])
  }

  /**
   * With distinct ids, a successful delete leaves no record with the id and keeps every
   * other record.
   */
  lemma DeleteRemovesExactlyOne(ts: seq<Transaction>, caller: nat, id: nat)
    requires DistinctIds(ts)
    requires Deleted(ts, caller, id).0 == Ok
    ensures var r := Deleted(ts, caller, id).1;
            && |r| == |ts| - 1
            && (forall k :: 0 <= k < |r| ==> r[k].id != id)
            && (forall k :: 0 <= k < |ts| && ts[k].id != id ==> ts[k] in r)
  {
    var i := FindTransaction(ts, id).value;
    InvariantUniqueIds(ts, id);
    RemoveTheOne(ts, i, HasId(id));
    RemovedKeepsOthers(ts, i);
  }

  /**
   * What a successful add means for the listings: the new record is in its owner's list,
   * and every other user's list holds the same records as before.
   */
  lemma AddIsListed(ts: seq<Transaction>, t: Transaction, user: nat)
    ensures t in TransactionsOf(ts + [t], t.user)
    ensures user != t.user ==> multiset(TransactionsOf(ts + [t], user)) == multiset(TransactionsOf(ts, user))
  {
    assert (ts + [t])[|ts|] == t;
    FilterAppend(ts, [t], (x: Transaction) => x.user == user);
    assert Filter([t], (x: Transaction) => x.user == user) == (if t.user == user then [t] else []) by {
      assert [t][..0] == [];
    }
  }
}
