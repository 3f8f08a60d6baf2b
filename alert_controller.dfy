/**
 * The alert handlers: list the caller's unread alerts, mark all of them read. The `Alert`
 * collection is the `records` field of a store object.
 */
module AlertController {
  import opened Http
  import opened Calendar
  import opened Collections
  import opened AlertModel

  /** The sort key of `sort({ createdAt: -1 })`. */
  function AlertCreatedKey(a: Alert): int {
    Ordinal(a.createdAt)
  }

  /** The `{ user, isRead: false }` filter. */
  predicate UnreadOf(a: Alert, user: nat) {
    a.user == user && !a.isRead
  }

  function UnreadFiltered(als: seq<Alert>, user: nat): seq<Alert> {
    Filter(als, (a: Alert) => UnreadOf(a, user))
  }

  /** `getAlerts`: exactly the caller's unread alerts, newest first. */
  function UnreadAlerts(als: seq<Alert>, user: nat): (r: seq<Alert>)
    ensures SortedDesc(r, AlertCreatedKey)
    ensures multiset(r) == multiset(UnreadFiltered(als, user))
    ensures forall i :: 0 <= i < |r| ==> r[i] in als && UnreadOf(r[i], user)
    ensures forall i :: 0 <= i < |als| && UnreadOf(als[i], user) ==> als[i] in r
  {
    var unread := UnreadFiltered(als, user);
    var r := SortDesc(unread, AlertCreatedKey);
    forall i | 0 <= i < |r| ensures r[i] in als && UnreadOf(r[i], user) {
      assert r[i] in multiset(unread);
    }
    forall i | 0 <= i < |als| && UnreadOf(als[i], user) ensures als[i] in r {
      assert als[i] in multiset(r);
    }
    r
  }

  /**
   * `updateMany({ user, isRead: false }, { $set: { isRead: true } })`: every matching alert
   * gets `isRead` set; the rest are untouched.
   */
  function MarkRead(als: seq<Alert>, user: nat): (r: seq<Alert>)
    ensures |r| == |als|
    ensures forall i :: 0 <= i < |r| ==> r[i] == (if UnreadOf(als[i], user) then als[i].(isRead := true) else als[i])
  {
    seq(|als|, i requires 0 <= i < |als| => if UnreadOf(als[i], user) then als[i].(isRead := true) else als[i])
  }

  /**
   * After marking, none of the caller's alerts is unread, so `getAlerts` returns nothing;
   * other users' alerts are unchanged, and each alert differs at most in `isRead`.
   */
  lemma MarkReadEffect(als: seq<Alert>, user: nat)
    ensures var r := MarkRead(als, user);
            && (forall i :: 0 <= i < |r| ==> !UnreadOf(r[i], user))
            && (forall i :: 0 <= i < |r| && als[i].user != user ==> r[i] == als[i])
            && (forall i :: 0 <= i < |r| ==> r[i].(isRead := als[i].isRead) == als[i])
            && UnreadAlerts(r, user) == []
  {
    var r := MarkRead(als, user);
    FilterNone(r, (a: Alert) => UnreadOf(a, user));
  }

  /** A second `markAllAsRead` changes nothing. */
  lemma MarkReadIdempotent(als: seq<Alert>, user: nat)
    ensures MarkRead(MarkRead(als, user), user) == MarkRead(als, user)
  {
    var r := MarkRead(als, user);
    assert forall i :: 0 <= i < |r| ==> MarkRead(r, user)[i] == r[i];
  }

  /** Every alert is valid, and ids are distinct. */
  ghost predicate AlertStoreInvariant(als: seq<Alert>) {
    && (forall i :: 0 <= i < |als| ==> ValidAlert(als[i]))
    && (forall i, j :: 0 <= i < j < |als| ==> als[i].id != als[j].id)
  }

  /** Marking keeps every alert valid and every id where it was. */
  lemma MarkReadKeepsInvariant(als: seq<Alert>, user: nat)
    requires AlertStoreInvariant(als)
    ensures AlertStoreInvariant(MarkRead(als, user))
  {
    var r := MarkRead(als, user);
    assert forall i :: 0 <= i < |r| ==> r[i].id == als[i].id;
    forall i | 0 <= i < |r| ensures ValidAlert(r[i]) {
      assert ValidAlert(als[i]);
    }
  }

  /** A store of alerts. No handler of the ledger inserts alerts; the store starts from given records. */
  class AlertStore {
    var records: seq<Alert>

    ghost predicate Valid()
      reads this
    {
      AlertStoreInvariant(records)
    }

    constructor (initial: seq<Alert>)
      requires AlertStoreInvariant(initial)
      ensures Valid() && records == initial
    {
      records := initial;
    }

    /** `markAllAsRead`: 200, and the records become `MarkRead` of what they were. */
    method MarkAllAsRead(caller: nat) returns (status: Status)
      requires Valid()
      modifies this
      ensures Valid()
      ensures status == Ok && records == MarkRead(old(records), caller)
    {
      MarkReadKeepsInvariant(records, caller);
      records := MarkRead(records, caller);
      status := Ok;
    }
  }
}
