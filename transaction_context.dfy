/**
 * The frontend `TransactionProvider`: the client-side list of transactions, the `loading`
 * and `error` state, and the three calls that change them. Each HTTP call is replaced by its
 * reply, given as a parameter; the auth token is fixed for the provider's lifetime.
 */
module TransactionContext {
  import opened Wrappers
  import opened Collections
  import opened TransactionModel

  /** What an axios call yields: the response body, or the error it rejects with. */
  datatype Reply<T> = Success(data: T) | Failure(error: string)

  /** What `addTransaction` gives its caller: the saved record, `undefined`, or a rethrown error. */
  datatype AddOutcome = Returned(saved: Option<Transaction>) | Rethrown(error: string)

  /** The `_id !== id` test of the delete update. */
  function NotId(id: nat): Transaction -> bool {
    (t: Transaction) => t.id != id
  }

  /** `prev.filter(t => t._id !== id)`. */
  function WithoutId(ts: seq<Transaction>, id: nat): seq<Transaction> {
    Filter(ts, NotId(id))
  }

  /**
   * The delete update removes every entry with the id and nothing else: the removed entries
   * and the kept ones together are the old list.
   */
  lemma WithoutIdSpec(ts: seq<Transaction>, id: nat)
    ensures forall k :: 0 <= k < |WithoutId(ts, id)| ==> WithoutId(ts, id)[k].id != id
    ensures forall k :: 0 <= k < |ts| && ts[k].id != id ==> ts[k] in WithoutId(ts, id)
    ensures multiset(WithoutId(ts, id)) + multiset(Filter(ts, (t: Transaction) => t.id == id)) == multiset(ts)
    ensures (forall k :: 0 <= k < |ts| ==> ts[k].id != id) ==> WithoutId(ts, id) == ts
  {
    FilterPartition(ts, NotId(id), (t: Transaction) => t.id == id);
    if forall k :: 0 <= k < |ts| ==> ts[k].id != id {
      FilterAll(ts, NotId(id));
    }
  }

  /** Deleting an id twice is the same as deleting it once. */
  lemma WithoutIdIdempotent(ts: seq<Transaction>, id: nat)
    ensures WithoutId(WithoutId(ts, id), id) == WithoutId(ts, id)
  {
    var once := WithoutId(ts, id);
    FilterAll(once, NotId(id));
  }

  class TransactionProvider {
    var transactions: seq<Transaction>
    var loading: bool
    var error: Option<string>
    const token: Option<string>

    /** `if (!token) return`: a missing or empty token stops every call. */
    predicate HasToken()
      reads this
    {
      token.Some? && token.value != ""
    }

    /** The initial state: no transactions, loading, no error. */
    constructor (token: Option<string>)
      ensures this.token == token
      ensures transactions == [] && loading && error.None?
    {
      this.token := token;
      transactions := [];
      loading := true;
      error := None;
    }

    /**
     * `getTransactions`: without a token nothing changes. Otherwise a reply replaces the
     * list, a failure is recorded as the error, and `loading` ends false either way.
     */
    method GetTransactions(reply: Reply<seq<Transaction>>)
      modifies this
      ensures !HasToken() ==> transactions == old(transactions) && loading == old(loading) && error == old(error)
      ensures HasToken() ==> !loading
      ensures HasToken() && reply.Success? ==> transactions == reply.data && error == old(error)
      ensures HasToken() && reply.Failure? ==> transactions == old(transactions) && error == Some(reply.error)
    {
      if !HasToken() {
        return;
      }
      loading := true;
      match reply {
        case Success(data) =>
          transactions := data;
        case Failure(e) =>
          error := Some(e);
      }
      loading := false;
    }

    /**
     * `addTransaction`: without a token nothing changes and nothing is returned. A saved
     * record goes to the front of the list and is returned; a failure leaves the list as it
     * was, is recorded, and is thrown on to the caller.
     */
    method AddTransaction(reply: Reply<Transaction>) returns (outcome: AddOutcome)
      modifies this
      ensures loading == old(loading)
      ensures !HasToken() ==> outcome == Returned(None) && transactions == old(transactions) && error == old(error)
      ensures HasToken() && reply.Success? ==>
                && outcome == Returned(Some(reply.data))
                && transactions == [reply.data] + old(transactions)
                && error == old(error)
      ensures HasToken() && reply.Failure? ==>
                outcome == Rethrown(reply.error) && transactions == old(transactions) && error == Some(reply.error)
    {
      if !HasToken() {
        return Returned(None);
      }
      match reply
      case Success(data) =>
        transactions := [data] + transactions;
        outcome := Returned(Some(data));
      case Failure(e) =>
        error := Some(e);
        outcome := Rethrown(e);
    }

    /**
     * `deleteTransaction`: without a token nothing changes. A successful delete drops every
     * entry with the id, keeping the others in order; a failure leaves the list as it was
     * and is recorded.
     */
    method DeleteTransaction(id: nat, reply: Reply<()>)
      modifies this
      ensures loading == old(loading)
      ensures !HasToken() ==> transactions == old(transactions) && error == old(error)
      ensures HasToken() && reply.Success? ==> transactions == WithoutId(old(transactions), id) && error == old(error)
      ensures HasToken() && reply.Failure? ==> transactions == old(transactions) && error == Some(reply.error)
    {
      if !HasToken() {
        return;
      }
      match reply
      case Success(_) =>
        transactions := WithoutId(transactions, id);
      case Failure(e) =>
        error := Some(e);
    }
  }
}
