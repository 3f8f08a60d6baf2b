/** The `Debt` collection's schema: money lent to or borrowed from a person. */
module DebtModel {
  import opened Wrappers
  import opened Text
  import opened Calendar

  /** The `type` enum: `'lent'` is money given, `'borrowed'` money taken. */
  const DebtTypes: seq<string> := ["lent", "borrowed"]

  const DebtStatuses: seq<string> := ["pending", "paid"]

  /** `status`'s default. */
  const DefaultStatus: string := "pending"

  /**
   * A stored debt document; `kind` is the schema's `type` field. `createdAt` and `updatedAt`
   * are the fields `timestamps: true` maintains.
   */
  datatype Debt = Debt(
    id: nat, user: nat, kind: string, person: string, description: Option<string>, amount: real,
    dueDate: Option<Date>, status: string, createdAt: Date, updatedAt: Date)

  /**
   * An optional body field as Mongoose sees it: left out (or `undefined`), present but not
   * castable to the schema type (which makes `save` reject), or present with a castable value.
   */
  datatype Field<T> = Omitted | Uncastable | Given(value: T)

  /**
   * The body fields `addDebt` reads. A required field is `None` when omitted or not castable,
   * since either way `save` rejects; the optional ones keep the two apart. A due date that
   * is not a valid calendar date is not castable.
   */
  datatype DebtBody = DebtBody(
    kind: Option<string>, person: Option<string>, description: Field<string>, amount: Option<real>,
    dueDate: Field<Date>)

  /**
   * What the schema admits: a `type` from its enum, a required trimmed `person`, an optional
   * trimmed `description`, a required amount of any sign, an optional due date, a `status`
   * from its enum, and the two timestamps.
   */
  predicate ValidDebt(d: Debt) {
    && d.kind in DebtTypes
    && d.person != "" && IsTrimmed(d.person)
    && (d.description.Some? ==> IsTrimmed(d.description.value))
    && (d.dueDate.Some? ==> ValidDate(d.dueDate.value))
    && d.status in DebtStatuses
    && ValidDate(d.createdAt) && ValidDate(d.updatedAt)
  }

  /** An optional string as the `trim` setter stores it. */
  function TrimField(f: Field<string>): (r: Option<string>)
    ensures r.Some? ==> f.Given? && r.value == Trim(f.value) && IsTrimmed(r.value)
    ensures r.None? <==> !f.Given?
  {
    if f.Given? then Some(Trim(f.value)) else None
  }

  function FieldValue<T>(f: Field<T>): Option<T> {
    if f.Given? then Some(f.value) else None
  }

  /**
   * When `save` rejects the body: a required field is missing or uncastable, the type is
   * outside its enum, the person is blank once trimmed, or an optional field is present but
   * cannot be cast.
   */
  predicate Rejected(body: DebtBody) {
    || body.kind.None? || body.person.None? || body.amount.None?
    || body.kind.value !in DebtTypes || Trim(body.person.value) == ""
    || body.description.Uncastable? || body.dueDate.Uncastable?
    || (body.dueDate.Given? && !ValidDate(body.dueDate.value))
  }

  /**
   * `new Debt({...}).save()` as `addDebt` calls it: setters trim the strings, `status` takes
   * its default and both timestamps are the creation time; then the document is validated.
   */
  function NewDebt(id: nat, user: nat, body: DebtBody, now: Date): (r: Option<Debt>)
    requires ValidDate(now)
    ensures r.Some? ==> ValidDebt(r.value)
    ensures r.Some? ==> && r.value.id == id && r.value.user == user && r.value.status == DefaultStatus
                        && r.value.createdAt == now && r.value.updatedAt == now
                        && body.kind == Some(r.value.kind) && body.person.Some?
                        && r.value.person == Trim(body.person.value) && body.amount == Some(r.value.amount)
                        && r.value.description == TrimField(body.description) && r.value.dueDate == FieldValue(body.dueDate)
    ensures r.None? <==> Rejected(body)
  {
    if body.kind.None? || body.person.None? || body.amount.None?
       || body.description.Uncastable? || body.dueDate.Uncastable? then None
    else
      var person := Trim(body.person.value);
      var d := Debt(id, user, body.kind.value, person, TrimField(body.description),
                    body.amount.value, FieldValue(body.dueDate), DefaultStatus, now, now);
      assert ValidDebt(d) <==> d.kind in DebtTypes && person != "" && (d.dueDate.Some? ==> ValidDate(d.dueDate.value));
      if ValidDebt(d) then Some(d) else None
  }

  /** Description and due date may be left out: a debt is still built, without them. */
  lemma OptionalFieldsMayBeOmitted(id: nat, user: nat, now: Date)
    requires ValidDate(now)
    ensures var r := NewDebt(id, user, DebtBody(Some("lent"), Some("Ali"), Omitted, Some(20.0), Omitted), now);
            r.Some? && r.value.description.None? && r.value.dueDate.None?
  {
    assert DebtTypes[0] == "lent";
    assert IsTrimmed("Ali") by { assert "Ali"[0] == 'A' && "Ali"[2] == 'i'; }
    assert Trim("Ali") == "Ali" by { TrimPadded("", "Ali", ""); assert "" + "Ali" + "" == "Ali"; }
  }
}
