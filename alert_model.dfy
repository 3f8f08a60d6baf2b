/**
 * The live `Alert` schema (the commented-out earlier one without `threshold` is not in
 * effect). No handler in the ledger creates alerts; they are only listed and marked read.
 */
module AlertModel {
  import opened Wrappers
  import opened Calendar

  /** The `threshold` enum: percentages of a budget. */
  const Thresholds: seq<int> := [50, 90, 100]

  datatype Alert = Alert(id: nat, user: nat, message: string, isRead: bool, threshold: int, createdAt: Date)

  /** What the schema admits: a required non-empty message and a threshold from its enum. */
  predicate ValidAlert(a: Alert) {
    a.message != "" && a.threshold in Thresholds && ValidDate(a.createdAt)
  }

  /**
   * A new alert document: `isRead` defaults to false and `createdAt` to the creation time
   * when the fields are not given; `None` when validation fails.
   */
  function NewAlert(id: nat, user: nat, message: Option<string>, threshold: Option<int>,
                    isRead: Option<bool>, createdAt: Option<Date>, now: Date): (r: Option<Alert>)
    requires ValidDate(now)
    ensures r.Some? ==> ValidAlert(r.value) && r.value.id == id && r.value.user == user
    ensures r.Some? ==> r.value.isRead == isRead.GetOr(false) && r.value.createdAt == createdAt.GetOr(now)
    ensures r.Some? <==> && message.Some? && message.value != "" && threshold.Some?
                         && threshold.value in {50, 90, 100}
                         && (createdAt.Some? ==> ValidDate(createdAt.value))
  {
    if message.None? || threshold.None? then None
    else
      var a := Alert(id, user, message.value, isRead.GetOr(false), threshold.value, createdAt.GetOr(now));
      if ValidAlert(a) then Some(a) else None
  }

  /** An alert created with only the required fields is unread. */
  lemma NewAlertUnread(id: nat, user: nat, threshold: int, now: Date)
    requires ValidDate(now) && threshold in Thresholds
    ensures NewAlert(id, user, Some("Budget alert"), Some(threshold), None, None, now)
            == Some(Alert(id, user, "Budget alert", false, threshold, now))
  {
  }
}
