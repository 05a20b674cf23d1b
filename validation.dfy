/**
 * The request-payload validators of the back end (backend/src/utils/validation.js).
 * Each validator walks a fixed list of fields; a field either is skipped,
 * adds one error message, or puts one entry into the sanitised body.
 *
 * The list of fields is written down once as a table of `Rule`s and
 * `Validate` interprets it; the methods `ValidateJobPayload` and
 * `ValidateUserPayload` are the validators as written, one `if` block per
 * field, and are proved to compute what the table says.
 */
module Validation {
  import opened Js

  const JobTypes: seq<string> := ["Wartung", "Reparatur", "Installation"]
  const JobStatuses: seq<string> := ["offen", "geplant", "erledigt", "überfällig"]
  const Roles: seq<string> := ["buero", "handwerker"]
  const UserStatuses: seq<string> := ["aktiv", "krank", "urlaub"]

  /** `allowed.includes(v)`: only a string equal to one of the allowed ones is included. */
  predicate Includes(allowed: seq<string>, v: Value) {
    v.Str? && v.s in allowed
  }

  /** How one field of the payload is checked. */
  datatype Rule =
    | RequiredString(field: string, trimmed: bool)
      // a non-empty string, stored trimmed or as given; skipped in partial mode when absent
    | OneOf(field: string, allowed: seq<string>, requiredWhenFull: bool)
      // one of the allowed strings, stored as given; skipped when absent, unless
      // the rule is required and the mode is not partial
    | Stringified(field: string)   // stored as `String(value)` when present
    | Copied(field: string)        // stored as given when present
    | Numeric(field: string)       // stored as `Number(value)` when present

  /** The rules of one validator, in the order its blocks run. */
  datatype Rules = End | Then(rule: Rule, rest: Rules)

  /** A value of the sanitised body; `NumberOf(v)` stands for `Number(v)`, which is not evaluated. */
  datatype Entry = Given(value: Value) | NumberOf(source: Value)

  datatype Outcome = Skipped | Rejected(message: string) | Accepted(entry: Entry)

  /** `{ errors, body }` */
  datatype Validation = Validation(errors: seq<string>, body: map<string, Entry>)

  predicate Rejectable(r: Rule) {
    r.RequiredString? || r.OneOf?
  }

  /** Whether the rule checks its field even when the payload lacks it, outside partial mode. */
  predicate RequiredInFull(r: Rule) {
    r.RequiredString? || (r.OneOf? && r.requiredWhenFull)
  }

  /** The error a rejected field adds. */
  function Message(r: Rule): string
    requires Rejectable(r)
  {
    if r.RequiredString? then r.field + " is required and must be a string"
    else r.field + " must be one of: " + Join(r.allowed, ", ")
  }

  /** What one rule does with the payload. */
  function Check(r: Rule, p: Payload, partial: bool): (o: Outcome)
    ensures o.Skipped? <==> Get(p, r.field) == Undefined && (partial || !RequiredInFull(r))
    ensures o.Rejected? ==> Rejectable(r) && o.message == Message(r)
  {
    var v := Get(p, r.field);
    match r
    case RequiredString(_, trimmed) =>
      if partial && v == Undefined then Skipped
      else if !Truthy(v) || !v.Str? then Rejected(Message(r))
      else Accepted(Given(if trimmed then Str(Trim(v.s)) else v))
    case OneOf(_, allowed, requiredWhenFull) =>
      if (partial || !requiredWhenFull) && v == Undefined then Skipped
      else if Includes(allowed, v) then Accepted(Given(v))
      else Rejected(Message(r))
    case Stringified(_) =>
      if v == Undefined then Skipped else Accepted(Given(Str(ToJsString(v))))
    case Copied(_) =>
      if v == Undefined then Skipped else Accepted(Given(v))
    case Numeric(_) =>
      if v == Undefined then Skipped else Accepted(NumberOf(v))
  }

  /** The effect of one field's outcome on the result so far. */
  function Apply(v: Validation, field: string, o: Outcome): Validation {
    match o
    case Skipped => v
    case Rejected(m) => v.(errors := v.errors + [m])
    case Accepted(e) => v.(body := v.body[field := e])
  }

  /** The rules applied in order to the result so far. */
  function ValidateFrom(v: Validation, rules: Rules, p: Payload, partial: bool): Validation
    decreases rules
  {
    if rules.End? then v
    else ValidateFrom(Apply(v, rules.rule.field, Check(rules.rule, p, partial)), rules.rest, p, partial)
  }

  /** The rules applied in order, starting from no errors and an empty body. */
  function Validate(rules: Rules, p: Payload, partial: bool): Validation {
    ValidateFrom(Validation([], map[]), rules, p, partial)
  }

  // ---------------------------------------------------------------------------
  // The two validators' tables

  // Each table is written entry by entry: `JobRulesK` is the job table
  // without its first K entries, so that a proof about the table can take
  // one entry at a time.

  const JobRules: Rules := Then(RequiredString("title", true), JobRules1)
  const JobRules1: Rules := Then(Stringified("description"), JobRules2)
  const JobRules2: Rules := Then(OneOf("job_type", JobTypes, false), JobRules3)
  const JobRules3: Rules := Then(OneOf("status", JobStatuses, false), JobRules4)
  const JobRules4: Rules := Then(Copied("planned_start"), JobRules5)
  const JobRules5: Rules := Then(Copied("planned_end"), JobRules6)
  const JobRules6: Rules := Then(Copied("customer_id"), JobRules7)
  const JobRules7: Rules := Then(Copied("created_by"), JobRules8)
  const JobRules8: Rules := Then(Copied("assigned_by"), End)

  const UserRules: Rules := Then(RequiredString("username", true), UserRules1)
  const UserRules1: Rules := Then(RequiredString("email", true), UserRules2)
  const UserRules2: Rules := Then(RequiredString("password_hash", false), UserRules3)
  const UserRules3: Rules := Then(OneOf("role", Roles, true), UserRules4)
  const UserRules4: Rules := Then(OneOf("status", UserStatuses, true), UserRules5)
  const UserRules5: Rules := Then(Numeric("vacation_days_total"), UserRules6)
  const UserRules6: Rules := Then(Numeric("vacation_days_left"), UserRules7)
  const UserRules7: Rules := Then(Numeric("sick_days_total"), End)

  // ---------------------------------------------------------------------------
  // The validators as written: one `if` block per field

  /** The block for a required string field: an error unless it is a non-empty string. */
  method RequiredStringField(v: Validation, payload: Payload, partial: bool, field: string, trimmed: bool)
    returns (w: Validation)
    ensures w == Apply(v, field, Check(RequiredString(field, trimmed), payload, partial))
  {
    var errors, body := v.errors, v.body;
    var value := Get(payload, field);
    if !partial || value != Undefined {
      if !Truthy(value) || !value.Str? {
        errors := errors + [field + " is required and must be a string"];
      } else if trimmed {
        body := body[field := Given(Str(Trim(value.s)))];
      } else {
        body := body[field := Given(value)];
      }
    }
    w := Validation(errors, body);
  }

  /** The block for a field restricted to a list of allowed values. */
  method AllowedValueField(v: Validation, payload: Payload, partial: bool, field: string,
                           allowed: seq<string>, requiredWhenFull: bool)
    returns (w: Validation)
    ensures w == Apply(v, field, Check(OneOf(field, allowed, requiredWhenFull), payload, partial))
  {
    var errors, body := v.errors, v.body;
    var value := Get(payload, field);
    if (!partial && requiredWhenFull) || value != Undefined {
      if !Includes(allowed, value) {
        errors := errors + [field + " must be one of: " + Join(allowed, ", ")];
      } else {
        body := body[field := Given(value)];
      }
    }
    w := Validation(errors, body);
  }

  /** The block storing `String(value)` for a present field. */
  method StringifiedField(v: Validation, payload: Payload, ghost partial: bool, field: string)
    returns (w: Validation)
    ensures w == Apply(v, field, Check(Stringified(field), payload, partial))
  {
    var body := v.body;
    var value := Get(payload, field);
    if value != Undefined {
      body := body[field := Given(Str(ToJsString(value)))];
    }
    w := Validation(v.errors, body);
  }

  /** The block copying a present field unchanged. */
  method CopiedField(v: Validation, payload: Payload, ghost partial: bool, field: string)
    returns (w: Validation)
    ensures w == Apply(v, field, Check(Copied(field), payload, partial))
  {
    var body := v.body;
    var value := Get(payload, field);
    if value != Undefined {
      body := body[field := Given(value)];
    }
    w := Validation(v.errors, body);
  }

  /** The block storing `Number(value)` for a present field. */
  method NumericField(v: Validation, payload: Payload, ghost partial: bool, field: string)
    returns (w: Validation)
    ensures w == Apply(v, field, Check(Numeric(field), payload, partial))
  {
    var body := v.body;
    var value := Get(payload, field);
    if value != Undefined {
      body := body[field := NumberOf(value)];
    }
    w := Validation(v.errors, body);
  }

  /** `validateJobPayload(payload, { partial })` */
  method ValidateJobPayload(payload: Payload, partial: bool) returns (result: Validation)
    ensures result == Validate(JobRules, payload, partial)
  {
    result := Validation([], map[]);
    ghost var goal := Validate(JobRules, payload, partial);
    ghost var todo := JobRules;
    result := RequiredStringField(result, payload, partial, "title", true);
    todo := todo.rest;
    assert goal == ValidateFrom(result, todo, payload, partial);
    result := StringifiedField(result, payload, partial, "description");
    todo := todo.rest;
    assert goal == ValidateFrom(result, todo, payload, partial);
    result := AllowedValueField(result, payload, partial, "job_type", JobTypes, false);
    todo := todo.rest;
    assert goal == ValidateFrom(result, todo, payload, partial);
    result := AllowedValueField(result, payload, partial, "status", JobStatuses, false);
    todo := todo.rest;
    assert goal == ValidateFrom(result, todo, payload, partial);
    result := CopiedField(result, payload, partial, "planned_start");
    todo := todo.rest;
    assert goal == ValidateFrom(result, todo, payload, partial);
    result := CopiedField(result, payload, partial, "planned_end");
    todo := todo.rest;
    assert goal == ValidateFrom(result, todo, payload, partial);
    result := CopiedField(result, payload, partial, "customer_id");
    todo := todo.rest;
    assert goal == ValidateFrom(result, todo, payload, partial);
    result := CopiedField(result, payload, partial, "created_by");
    todo := todo.rest;
    assert goal == ValidateFrom(result, todo, payload, partial);
    result := CopiedField(result, payload, partial, "assigned_by");
    todo := todo.rest;
    assert goal == ValidateFrom(result, todo, payload, partial);
  }

  /** `validateUserPayload(payload, { partial })` */
  method ValidateUserPayload(payload: Payload, partial: bool) returns (result: Validation)
    ensures result == Validate(UserRules, payload, partial)
  {
    result := Validation([], map[]);
    ghost var goal := Validate(UserRules, payload, partial);
    ghost var todo := UserRules;
    result := RequiredStringField(result, payload, partial, "username", true);
    todo := todo.rest;
    assert goal == ValidateFrom(result, todo, payload, partial);
    result := RequiredStringField(result, payload, partial, "email", true);
    todo := todo.rest;
    assert goal == ValidateFrom(result, todo, payload, partial);
    result := RequiredStringField(result, payload, partial, "password_hash", false);
    todo := todo.rest;
    assert goal == ValidateFrom(result, todo, payload, partial);
    result := AllowedValueField(result, payload, partial, "role", Roles, true);
    todo := todo.rest;
    assert goal == ValidateFrom(result, todo, payload, partial);
    result := AllowedValueField(result, payload, partial, "status", UserStatuses, true);
    todo := todo.rest;
    assert goal == ValidateFrom(result, todo, payload, partial);
    result := NumericField(result, payload, partial, "vacation_days_total");
    todo := todo.rest;
    assert goal == ValidateFrom(result, todo, payload, partial);
    result := NumericField(result, payload, partial, "vacation_days_left");
    todo := todo.rest;
    assert goal == ValidateFrom(result, todo, payload, partial);
    result := NumericField(result, payload, partial, "sick_days_total");
    todo := todo.rest;
    assert goal == ValidateFrom(result, todo, payload, partial);
  }

  // ---------------------------------------------------------------------------
  // What any table promises

  /** The field names the rules mention. */
  function FieldNames(rules: Rules): set<string> {
    if rules.End? then {} else {rules.rule.field} + FieldNames(rules.rest)
  }

  /** The messages the rules can add. */
  function Messages(rules: Rules): set<string> {
    if rules.End? then {}
    else if Rejectable(rules.rule) then {Message(rules.rule)} + Messages(rules.rest)
    else Messages(rules.rest)
  }

  predicate Contains(rules: Rules, r: Rule) {
    rules.Then? && (rules.rule == r || Contains(rules.rest, r))
  }

  /** No two rules name the same field, and no field name holds a space. */
  predicate WellFormed(rules: Rules) {
    rules.Then? ==>
      && rules.rule.field !in FieldNames(rules.rest)
      && ' ' !in rules.rule.field
      && WellFormed(rules.rest)
  }

  /** A message starts with its field name followed by a space. */
  lemma MessageNamesField(r: Rule)
    requires Rejectable(r)
    ensures |Message(r)| > |r.field| && Message(r)[..|r.field|] == r.field && Message(r)[|r.field|] == ' '
  {
  }

  /** Rules on different fields whose names hold no space add different messages. */
  lemma MessagesDiffer(a: Rule, b: Rule)
    requires Rejectable(a) && Rejectable(b) && a.field != b.field
    requires ' ' !in a.field && ' ' !in b.field
    ensures Message(a) != Message(b)
  {
    MessageNamesField(a);
    MessageNamesField(b);
  }

  /** In a well-formed table no other rule can add the message of a rule on a new field. */
  lemma {:induction false} MessageNotIn(rules: Rules, a: Rule)
    requires WellFormed(rules) && Rejectable(a) && ' ' !in a.field && a.field !in FieldNames(rules)
    ensures Message(a) !in Messages(rules)
    decreases rules
  {
    if rules.Then? {
      if Rejectable(rules.rule) {
        MessagesDiffer(a, rules.rule);
      }
      MessageNotIn(rules.rest, a);
    }
  }

  lemma {:induction false} ContainedNamed(rules: Rules, r: Rule)
    requires Contains(rules, r)
    ensures r.field in FieldNames(rules)
    ensures Rejectable(r) ==> Message(r) in Messages(rules)
  {
    if rules.rule != r {
      ContainedNamed(rules.rest, r);
    }
  }

  /** Only the rules' own fields become keys of the body. */
  lemma {:induction false} BodyKeysFromRules(v: Validation, rules: Rules, p: Payload, partial: bool)
    ensures ValidateFrom(v, rules, p, partial).body.Keys <= v.body.Keys + FieldNames(rules)
    decreases rules
  {
    if rules.Then? {
      BodyKeysFromRules(Apply(v, rules.rule.field, Check(rules.rule, p, partial)), rules.rest, p, partial);
    }
  }

  /** Only the rules' own messages become errors. */
  lemma {:induction false} ErrorsFromRules(v: Validation, rules: Rules, p: Payload, partial: bool)
    ensures forall m :: m in ValidateFrom(v, rules, p, partial).errors ==> m in v.errors || m in Messages(rules)
    decreases rules
  {
    if rules.Then? {
      ErrorsFromRules(Apply(v, rules.rule.field, Check(rules.rule, p, partial)), rules.rest, p, partial);
    }
  }

  /** Rules that do not name a field leave its entry as it was. */
  lemma {:induction false} OtherFieldsKept(v: Validation, rules: Rules, p: Payload, partial: bool, f: string)
    requires f !in FieldNames(rules)
    ensures var w := ValidateFrom(v, rules, p, partial);
      (f in w.body <==> f in v.body) && (f in v.body ==> w.body[f] == v.body[f])
    decreases rules
  {
    if rules.Then? {
      OtherFieldsKept(Apply(v, rules.rule.field, Check(rules.rule, p, partial)), rules.rest, p, partial, f);
    }
  }

  /** Rules that cannot add a message leave its presence among the errors as it was. */
  lemma {:induction false} OtherMessagesKept(v: Validation, rules: Rules, p: Payload, partial: bool, m: string)
    requires m !in Messages(rules)
    ensures m in ValidateFrom(v, rules, p, partial).errors <==> m in v.errors
    decreases rules
  {
    if rules.Then? {
      OtherMessagesKept(Apply(v, rules.rule.field, Check(rules.rule, p, partial)), rules.rest, p, partial, m);
    }
  }

  /** In partial mode the rules of fields the payload lacks change nothing. */
  lemma {:induction false} PartialSkipsAbsent(v: Validation, rules: Rules, p: Payload)
    requires forall f :: f in FieldNames(rules) ==> f !in p
    ensures ValidateFrom(v, rules, p, true) == v
    decreases rules
  {
    if rules.Then? {
      assert rules.rule.field !in p;
      PartialSkipsAbsent(v, rules.rest, p);
    }
  }

  lemma {:induction false} FieldOutcomeFrom(v: Validation, rules: Rules, p: Payload, partial: bool, r: Rule)
    requires WellFormed(rules) && Contains(rules, r)
    requires r.field !in v.body && (Rejectable(r) ==> Message(r) !in v.errors)
    ensures var w := ValidateFrom(v, rules, p, partial);
      var o := Check(r, p, partial);
      && (r.field in w.body <==> o.Accepted?)
      && (o.Accepted? ==> w.body[r.field] == o.entry)
      && (Rejectable(r) ==> (Message(r) in w.errors <==> o.Rejected?))
    decreases rules
  {
    var next := Apply(v, rules.rule.field, Check(rules.rule, p, partial));
    if Rejectable(rules.rule) {
      MessageNotIn(rules.rest, rules.rule);
    }
    if rules.rule == r {
      OtherFieldsKept(next, rules.rest, p, partial, r.field);
      if Rejectable(r) {
        OtherMessagesKept(next, rules.rest, p, partial, Message(r));
      }
    } else {
      ContainedNamed(rules.rest, r);
      FieldOutcomeFrom(next, rules.rest, p, partial, r);
    }
  }

  /**
   * In a well-formed table each checked field produces an error or a body
   * entry, never both: it is in the body exactly when accepted, with the
   * entry its rule computed, and its message is among the errors exactly
   * when it is rejected.
   */
  lemma FieldOutcome(rules: Rules, p: Payload, partial: bool, r: Rule)
    requires WellFormed(rules) && Contains(rules, r)
    ensures var v := Validate(rules, p, partial);
      var o := Check(r, p, partial);
      && (r.field in v.body <==> o.Accepted?)
      && (o.Accepted? ==> v.body[r.field] == o.entry)
      && (Rejectable(r) ==> (Message(r) in v.errors <==> o.Rejected?))
      && !(r.field in v.body && Rejectable(r) && Message(r) in v.errors)
  {
    FieldOutcomeFrom(Validation([], map[]), rules, p, partial, r);
  }

  // ---------------------------------------------------------------------------
  // What the two validators promise

  const JobFields: set<string> := {"title", "description", "job_type", "status", "planned_start",
                                   "planned_end", "customer_id", "created_by", "assigned_by"}

  const UserFields: set<string> := {"username", "email", "password_hash", "role", "status",
                                    "vacation_days_total", "vacation_days_left", "sick_days_total"}

  const TitleError := "title" + " is required and must be a string"
  const JobTypeError := "job_type" + " must be one of: " + "Wartung, Reparatur, Installation"
  const JobStatusError := "status" + " must be one of: " + "offen, geplant, erledigt, überfällig"
  const RoleError := "role" + " must be one of: " + "buero, handwerker"
  const UserStatusError := "status" + " must be one of: " + "aktiv, krank, urlaub"
  const UsernameError := "username" + " is required and must be a string"
  const EmailError := "email" + " is required and must be a string"
  const PasswordHashError := "password_hash" + " is required and must be a string"

  /** `validateJobPayload` throws: `String(payload.description)` does. */
  predicate JobPayloadThrows(p: Payload) {
    ConversionThrows(Get(p, "description"))
  }

  /** `validateUserPayload` throws: one of its three `Number(...)` calls does. */
  predicate UserPayloadThrows(p: Payload) {
    || ConversionThrows(Get(p, "vacation_days_total"))
    || ConversionThrows(Get(p, "vacation_days_left"))
    || ConversionThrows(Get(p, "sick_days_total"))
  }

  lemma JobTypeText() ensures Join(JobTypes, ", ") == "Wartung, Reparatur, Installation" { }
  lemma JobStatusText() ensures Join(JobStatuses, ", ") == "offen, geplant, erledigt, überfällig" { }
  lemma RoleText() ensures Join(Roles, ", ") == "buero, handwerker" { }
  lemma UserStatusText() ensures Join(UserStatuses, ", ") == "aktiv, krank, urlaub" { }

  /** The job validator's three possible errors. */
  lemma JobMessages()
    ensures Messages(JobRules) == {TitleError, JobTypeError, JobStatusError}
  {
    JobTypeText();
    JobStatusText();
  }

  /** One more entry on a new field whose name holds no space keeps a table well formed. */
  lemma WellFormedThen(r: Rule, rest: Rules)
    requires WellFormed(rest) && r.field !in FieldNames(rest) && ' ' !in r.field
    ensures WellFormed(Then(r, rest)) && FieldNames(Then(r, rest)) == {r.field} + FieldNames(rest)
  {
  }

  lemma JobRules7WellFormed()
    ensures WellFormed(JobRules7) && FieldNames(JobRules7) == {"created_by", "assigned_by"}
  {
    WellFormedThen(JobRules8.rule, End);
    WellFormedThen(JobRules7.rule, JobRules8);
  }

  lemma JobRules5WellFormed()
    ensures WellFormed(JobRules5)
    ensures FieldNames(JobRules5) == {"planned_end", "customer_id", "created_by", "assigned_by"}
  {
    JobRules7WellFormed();
    WellFormedThen(JobRules6.rule, JobRules7);
    WellFormedThen(JobRules5.rule, JobRules6);
  }

  lemma JobRules3WellFormed()
    ensures WellFormed(JobRules3)
    ensures FieldNames(JobRules3) == {"status", "planned_start", "planned_end", "customer_id", "created_by", "assigned_by"}
  {
    JobRules5WellFormed();
    WellFormedThen(JobRules4.rule, JobRules5);
    WellFormedThen(JobRules3.rule, JobRules4);
  }

  /** The job validator checks each whitelisted job field once. */
  lemma JobRulesWellFormed()
    ensures WellFormed(JobRules) && FieldNames(JobRules) == JobFields
  {
    JobRules3WellFormed();
    WellFormedThen(JobRules2.rule, JobRules3);
    WellFormedThen(JobRules1.rule, JobRules2);
    WellFormedThen(JobRules.rule, JobRules1);
  }

  /** The user validator's five possible errors. */
  lemma UserMessages()
    ensures Messages(UserRules) == {"username" + " is required and must be a string",
                                    "email" + " is required and must be a string",
                                    "password_hash" + " is required and must be a string",
                                    RoleError, UserStatusError}
  {
    RoleText();
    UserStatusText();
  }

  lemma UserRules6WellFormed()
    ensures WellFormed(UserRules6) && FieldNames(UserRules6) == {"vacation_days_left", "sick_days_total"}
  {
    WellFormedThen(UserRules7.rule, End);
    WellFormedThen(UserRules6.rule, UserRules7);
  }

  lemma UserRules4WellFormed()
    ensures WellFormed(UserRules4)
    ensures FieldNames(UserRules4) == {"status", "vacation_days_total", "vacation_days_left", "sick_days_total"}
  {
    UserRules6WellFormed();
    WellFormedThen(UserRules5.rule, UserRules6);
    WellFormedThen(UserRules4.rule, UserRules5);
  }

  lemma UserRules2WellFormed()
    ensures WellFormed(UserRules2)
    ensures FieldNames(UserRules2) == {"password_hash", "role", "status", "vacation_days_total", "vacation_days_left", "sick_days_total"}
  {
    UserRules4WellFormed();
    WellFormedThen(UserRules3.rule, UserRules4);
    WellFormedThen(UserRules2.rule, UserRules3);
  }

  /** The user validator checks each whitelisted user field once. */
  lemma UserRulesWellFormed()
    ensures WellFormed(UserRules) && FieldNames(UserRules) == UserFields
  {
    UserRules2WellFormed();
    WellFormedThen(UserRules1.rule, UserRules2);
    WellFormedThen(UserRules.rule, UserRules1);
  }

  /** Only whitelisted job fields reach the body, whatever else the payload holds. */
  lemma JobBodyWhitelisted(p: Payload, partial: bool)
    ensures Validate(JobRules, p, partial).body.Keys <= JobFields
  {
    JobRulesWellFormed();
    BodyKeysFromRules(Validation([], map[]), JobRules, p, partial);
  }

  /** Only whitelisted user fields reach the body, whatever else the payload holds. */
  lemma UserBodyWhitelisted(p: Payload, partial: bool)
    ensures Validate(UserRules, p, partial).body.Keys <= UserFields
  {
    UserRulesWellFormed();
    BodyKeysFromRules(Validation([], map[]), UserRules, p, partial);
  }

  /** A validator whose messages are all allowed reports only allowed errors. */
  lemma ErrorsWithin(rules: Rules, p: Payload, partial: bool, allowed: set<string>)
    requires Messages(rules) <= allowed
    ensures forall m :: m in Validate(rules, p, partial).errors ==> m in allowed
  {
    ErrorsFromRules(Validation([], map[]), rules, p, partial);
  }

  /** Errors drawn from the job validator's messages are among its three messages. */
  lemma JobMessagesOnly(errors: seq<string>)
    requires forall m :: m in errors ==> m in Messages(JobRules)
    ensures forall m :: m in errors ==> m == TitleError || m == JobTypeError || m == JobStatusError
  {
    JobMessages();
  }

  /** Every error of the job validator is one of its three messages. */
  lemma JobErrorsListed(p: Payload, partial: bool)
    ensures forall m :: m in Validate(JobRules, p, partial).errors ==>
              m == TitleError || m == JobTypeError || m == JobStatusError
  {
    ErrorsWithin(JobRules, p, partial, Messages(JobRules));
    JobMessagesOnly(Validate(JobRules, p, partial).errors);
  }

  /** Outside partial mode a missing, empty or non-string title is an error and no title is stored. */
  lemma TitleRequired(p: Payload)
    requires !Truthy(Get(p, "title")) || !Get(p, "title").Str?
    ensures TitleError in Validate(JobRules, p, false).errors
    ensures "title" !in Validate(JobRules, p, false).body
  {
    JobRulesWellFormed();
    FieldOutcome(JobRules, p, false, RequiredString("title", true));
  }

  /** A non-empty string title is stored trimmed; one of white space only is stored as "". */
  lemma TitleTrimmed(p: Payload, partial: bool)
    requires Get(p, "title").Str? && Get(p, "title").s != ""
    ensures var v := Validate(JobRules, p, partial);
      && TitleError !in v.errors
      && "title" in v.body && v.body["title"] == Given(Str(Trim(Get(p, "title").s)))
      && (AllSpace(Get(p, "title").s) ==> v.body["title"] == Given(Str("")))
  {
    JobRulesWellFormed();
    FieldOutcome(JobRules, p, partial, RequiredString("title", true));
    TrimEmptyIffAllSpace(Get(p, "title").s);
  }

  /** In partial mode an absent title is neither an error nor stored. */
  lemma PartialWithoutTitle(p: Payload)
    requires "title" !in p
    ensures TitleError !in Validate(JobRules, p, true).errors
    ensures "title" !in Validate(JobRules, p, true).body
  {
    JobRulesWellFormed();
    FieldOutcome(JobRules, p, true, RequiredString("title", true));
  }

  /**
   * A present `job_type` or job `status` is stored unchanged when it is an
   * allowed value and is otherwise an error and not stored.
   */
  lemma JobEnumFields(p: Payload, partial: bool)
    ensures var v := Validate(JobRules, p, partial);
      var t := Get(p, "job_type");
      var s := Get(p, "status");
      && (t != Undefined && Includes(JobTypes, t) ==> "job_type" in v.body && v.body["job_type"] == Given(t))
      && (t != Undefined && !Includes(JobTypes, t) ==> "job_type" !in v.body && JobTypeError in v.errors)
      && (s != Undefined && Includes(JobStatuses, s) ==> "status" in v.body && v.body["status"] == Given(s))
      && (s != Undefined && !Includes(JobStatuses, s) ==> "status" !in v.body && JobStatusError in v.errors)
  {
    JobRulesWellFormed();
    JobTypeText();
    JobStatusText();
    FieldOutcome(JobRules, p, partial, OneOf("job_type", JobTypes, false));
    FieldOutcome(JobRules, p, partial, OneOf("status", JobStatuses, false));
  }

  /** When a job payload passes, its `status` is stored exactly when given, unchanged. */
  lemma JobStatusPassed(p: Payload, partial: bool)
    requires Validate(JobRules, p, partial).errors == []
    ensures var v := Validate(JobRules, p, partial);
      && (Get(p, "status") == Undefined ==> "status" !in v.body)
      && (Get(p, "status") != Undefined ==> "status" in v.body && v.body["status"] == Given(Get(p, "status")))
  {
    JobRulesWellFormed();
    FieldOutcome(JobRules, p, partial, OneOf("status", JobStatuses, false));
  }

  /** Outside partial mode an absent role or user status is always an error, as no table allows `undefined`. */
  lemma UserRoleAndStatusRequired(p: Payload)
    ensures var v := Validate(UserRules, p, false);
      && ("role" !in p ==> "role" !in v.body && RoleError in v.errors)
      && ("status" !in p ==> "status" !in v.body && UserStatusError in v.errors)
  {
    UserRulesWellFormed();
    RoleText();
    UserStatusText();
    FieldOutcome(UserRules, p, false, OneOf("role", Roles, true));
    FieldOutcome(UserRules, p, false, OneOf("status", UserStatuses, true));
  }

  /**
   * What a required-string rule of a well-formed table does with its field:
   * a non-empty string is stored, trimmed if the rule says so, without an
   * error; anything else the rule checks is an error and is not stored.
   */
  lemma RequiredStringOutcome(rules: Rules, p: Payload, partial: bool, field: string, trimmed: bool)
    requires WellFormed(rules) && Contains(rules, RequiredString(field, trimmed))
    ensures var v := Validate(rules, p, partial);
      var x := Get(p, field);
      var message := field + " is required and must be a string";
      && (x.Str? && x.s != "" ==>
            && field in v.body && v.body[field] == Given(if trimmed then Str(Trim(x.s)) else x)
            && message !in v.errors)
      && (!(partial && x == Undefined) && !(x.Str? && x.s != "") ==>
            field !in v.body && message in v.errors)
  {
    FieldOutcome(rules, p, partial, RequiredString(field, trimmed));
  }

  /**
   * A non-empty string `username` or `email` is stored trimmed, and a
   * non-empty string `password_hash` exactly as given. Any other value of
   * one of the three, or its absence outside partial mode, is that field's
   * error and is not stored.
   */
  lemma UserStringFields(p: Payload, partial: bool)
    ensures var v := Validate(UserRules, p, partial);
      var u := Get(p, "username");
      var e := Get(p, "email");
      var w := Get(p, "password_hash");
      && (u.Str? && u.s != "" ==> "username" in v.body && v.body["username"] == Given(Str(Trim(u.s))))
      && (!(partial && u == Undefined) && !(u.Str? && u.s != "") ==> "username" !in v.body && UsernameError in v.errors)
      && (e.Str? && e.s != "" ==> "email" in v.body && v.body["email"] == Given(Str(Trim(e.s))))
      && (!(partial && e == Undefined) && !(e.Str? && e.s != "") ==> "email" !in v.body && EmailError in v.errors)
      && (w.Str? && w.s != "" ==> "password_hash" in v.body && v.body["password_hash"] == Given(w))
      && (!(partial && w == Undefined) && !(w.Str? && w.s != "") ==> "password_hash" !in v.body && PasswordHashError in v.errors)
  {
    UserRulesWellFormed();
    RequiredStringOutcome(UserRules, p, partial, "username", true);
    RequiredStringOutcome(UserRules, p, partial, "email", true);
    RequiredStringOutcome(UserRules, p, partial, "password_hash", false);
  }

  /**
   * A present `role` or user `status` is stored unchanged when it is an
   * allowed value, and is otherwise an error and not stored.
   */
  lemma UserEnumFields(p: Payload, partial: bool)
    ensures var v := Validate(UserRules, p, partial);
      var r := Get(p, "role");
      var s := Get(p, "status");
      && (r != Undefined && Includes(Roles, r) ==> "role" in v.body && v.body["role"] == Given(r))
      && (r != Undefined && !Includes(Roles, r) ==> "role" !in v.body && RoleError in v.errors)
      && (s != Undefined && Includes(UserStatuses, s) ==> "status" in v.body && v.body["status"] == Given(s))
      && (s != Undefined && !Includes(UserStatuses, s) ==> "status" !in v.body && UserStatusError in v.errors)
  {
    UserRulesWellFormed();
    RoleText();
    UserStatusText();
    FieldOutcome(UserRules, p, partial, OneOf("role", Roles, true));
    FieldOutcome(UserRules, p, partial, OneOf("status", UserStatuses, true));
  }

  /** Outside partial mode a user payload lacking any of the five required fields has errors. */
  lemma FullUserNeedsAllRequired(p: Payload)
    requires "username" !in p || "email" !in p || "password_hash" !in p || "role" !in p || "status" !in p
    ensures Validate(UserRules, p, false).errors != []
  {
    UserRulesWellFormed();
    var r := if "username" !in p then RequiredString("username", true)
             else if "email" !in p then RequiredString("email", true)
             else if "password_hash" !in p then RequiredString("password_hash", false)
             else if "role" !in p then OneOf("role", Roles, true)
             else OneOf("status", UserStatuses, true);
    FieldOutcome(UserRules, p, false, r);
  }
}
