/**
 * The JavaScript backend's request-body validation. A schema lists body
 * fields with their rules; each field is checked on its own, and the
 * request either fails with every field's error or continues with a body
 * holding exactly the fields that passed, as transformed.
 */
module ValidateRequestJs {

  import opened Base
  import opened JsValues

  const REQUIRED: string := "Field is required"
  const VALIDATION_FAILED: string := "Validation failed"

  /**
   * A field's rules: whether it must be present, the `typeof` the
   * transformed value must have, the transform, and a check that answers
   * an error message or nothing.
   */
  datatype Rule = Rule(
    required: bool,
    typ: Option<string>,
    transform: Option<JsValue -> JsValue>,
    validate: Option<JsValue -> Option<string>>)

  type Schema = seq<(string, Rule)>
  type Body = map<string, JsValue>

  /** `req.body[field]`: a missing key reads as `undefined`. */
  function Get(body: Body, field: string): JsValue
  {
    if field in body then body[field] else Undefined
  }

  /** What one field contributes: nothing, an error, or its transformed value. */
  datatype Check = Omit | Reject(message: string) | Keep(value: JsValue)

  /** The transform, when the rule has one. */
  function Transformed(rule: Rule, raw: JsValue): JsValue
  {
    if rule.transform.Some? then rule.transform.value(raw) else raw
  }

  /** A message the check answers that is truthy: an empty message is no error. */
  function Complaint(rule: Rule, v: JsValue): Option<string>
  {
    if rule.validate.Some? && rule.validate.value(v).Some? && rule.validate.value(v).value != "" then rule.validate.value(v)
    else None
  }

  /**
   * One field. `undefined` and `null` count as missing: an error when the
   * field is required and otherwise silently left out. A present value is
   * transformed first; a value of the wrong `typeof` is reported as
   * "Expected <type>" and not checked further; then the check's message,
   * if any, is the error.
   */
  function CheckField(rule: Rule, raw: JsValue): (r: Check)
    ensures (raw.Undefined? || raw.Null?) ==> r == (if rule.required then Reject(REQUIRED) else Omit)
    ensures !(raw.Undefined? || raw.Null?) ==> !r.Omit?
    ensures r.Keep? ==> r.value == Transformed(rule, raw) && Complaint(rule, r.value).None? &&
                        (rule.typ.Some? && rule.typ.value != "" ==> TypeOf(r.value) == rule.typ.value)
    ensures (!(raw.Undefined? || raw.Null?) && rule.typ.Some? && rule.typ.value != "" &&
             TypeOf(Transformed(rule, raw)) != rule.typ.value) ==> r == Reject("Expected " + rule.typ.value)
  {
    if raw.Undefined? || raw.Null? then (if rule.required then Reject(REQUIRED) else Omit)
    else
      var v := Transformed(rule, raw);
      if rule.typ.Some? && rule.typ.value != "" && TypeOf(v) != rule.typ.value then Reject("Expected " + rule.typ.value)
      else
        match Complaint(rule, v)
        case Some(m) => Reject(m)
        case None => Keep(v)
  }

  /** The outcome for the `i`-th schema field. */
  function Outcome(schema: Schema, body: Body, i: nat): Check
    requires i < |schema|
  {
    CheckField(schema[i].1, Get(body, schema[i].0))
  }

  /** The errors and the accepted values after the fields in order, a later field of the same name winning. */
  function Run(schema: Schema, body: Body): (r: (map<string, string>, Body))
    ensures forall f :: f in r.0 ==> exists i :: 0 <= i < |schema| && schema[i].0 == f
    ensures forall f :: f in r.1 ==> exists i :: 0 <= i < |schema| && schema[i].0 == f
  {
    if schema == [] then (map[], map[])
    else
      var n := |schema| - 1;
      var (errors, values) := Run(schema[..n], body);
      assert forall i :: 0 <= i < n ==> schema[..n][i] == schema[i];
      match CheckField(schema[n].1, Get(body, schema[n].0))
      case Omit => (errors, values)
      case Reject(m) => (errors[schema[n].0 := m], values)
      case Keep(v) => (errors, values[schema[n].0 := v])
  }

  datatype Verdict = Invalid(errors: map<string, string>) | Valid(body: Body)

  /** `buildBodyValidator(schema)(req)`: any error fails the whole body. */
  function BuildBodyValidator(schema: Schema, body: Body): (r: Verdict)
    ensures r.Invalid? ==> r.errors != map[]
    ensures r.Valid? ==> forall f :: f in r.body ==> exists i :: 0 <= i < |schema| && schema[i].0 == f
  {
    var (errors, values) := Run(schema, body);
    if errors != map[] then Invalid(errors) else Valid(values)
  }

  predicate DistinctNames(schema: Schema)
  {
    forall i, j :: 0 <= i < j < |schema| ==> schema[i].0 != schema[j].0
  }

  /**
   * With distinct field names, a field has an error exactly when its own
   * check rejects it, with that message, and a value exactly when its own
   * check keeps it, with that value.
   */
  lemma {:induction false} RunField(schema: Schema, body: Body, i: nat)
    requires DistinctNames(schema) && i < |schema|
    ensures var (errors, values) := Run(schema, body);
      var o := Outcome(schema, body, i);
      (schema[i].0 in errors <==> o.Reject?) && (schema[i].0 in values <==> o.Keep?) &&
      (o.Reject? ==> errors[schema[i].0] == o.message) && (o.Keep? ==> values[schema[i].0] == o.value)
  {
    var n := |schema| - 1;
    if i < n {
      var prefix := schema[..n];
      assert prefix[i] == schema[i];
      assert DistinctNames(prefix);
      RunField(prefix, body, i);
      assert schema[n].0 != schema[i].0;
    }
  }

  lemma RunFields(schema: Schema, body: Body)
    requires DistinctNames(schema)
    ensures forall i :: 0 <= i < |schema| ==>
      (schema[i].0 in Run(schema, body).0 <==> Outcome(schema, body, i).Reject?) &&
      (schema[i].0 in Run(schema, body).1 <==> Outcome(schema, body, i).Keep?) &&
      (Outcome(schema, body, i).Reject? ==> Run(schema, body).0[schema[i].0] == Outcome(schema, body, i).message) &&
      (Outcome(schema, body, i).Keep? ==> Run(schema, body).1[schema[i].0] == Outcome(schema, body, i).value)
  {
    forall i | 0 <= i < |schema| {
      RunField(schema, body, i);
    }
  }

  /**
   * The body is accepted exactly when no field is rejected, and then it
   * holds exactly the kept fields with their transformed values; fields
   * the schema does not name are dropped.
   */
  lemma ValidIffNoField(schema: Schema, body: Body)
    requires DistinctNames(schema)
    ensures BuildBodyValidator(schema, body).Valid? <==> forall i :: 0 <= i < |schema| ==> !Outcome(schema, body, i).Reject?
    ensures BuildBodyValidator(schema, body).Valid? ==> forall i :: 0 <= i < |schema| ==>
      (schema[i].0 in BuildBodyValidator(schema, body).body <==> Outcome(schema, body, i).Keep?) &&
      (Outcome(schema, body, i).Keep? ==> BuildBodyValidator(schema, body).body[schema[i].0] == Outcome(schema, body, i).value)
  {
    RunFields(schema, body);
    var errors := Run(schema, body).0;
    if errors != map[] {
      var f :| f in errors;
      var i :| 0 <= i < |schema| && schema[i].0 == f;
      assert Outcome(schema, body, i).Reject?;
    }
  }

  /** On failure every failing field is reported with its own message, and nothing else is. */
  lemma InvalidReportsEachField(schema: Schema, body: Body)
    requires DistinctNames(schema)
    ensures var r := BuildBodyValidator(schema, body);
      r.Invalid? ==> forall i :: 0 <= i < |schema| ==>
        (schema[i].0 in r.errors <==> Outcome(schema, body, i).Reject?) &&
        (Outcome(schema, body, i).Reject? ==> r.errors[schema[i].0] == Outcome(schema, body, i).message)
  {
    RunFields(schema, body);
  }

  /** The response of `validateRequest`: a 400 carrying the field errors, or the request continuing with the validated body. */
  datatype Gate = Refuse(status: int, message: string, details: map<string, string>) | Continue(body: Body)

  /** `validateRequest(validator)`: the validated body replaces the request's. */
  function ValidateRequest(schema: Schema, body: Body): (r: Gate)
    ensures r.Refuse? <==> BuildBodyValidator(schema, body).Invalid?
    ensures r.Refuse? ==> r.status == 400 && r.message == VALIDATION_FAILED &&
                          r.details == BuildBodyValidator(schema, body).errors
    ensures r.Continue? ==> r.body == BuildBodyValidator(schema, body).body
  {
    match BuildBodyValidator(schema, body)
    case Invalid(errors) => Refuse(400, VALIDATION_FAILED, errors)
    case Valid(b) => Continue(b)
  }
}
