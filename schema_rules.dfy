/**
 * The object-schema validator the DTOs declare their rules for, as a
 * declarative rule table read by one exhaustive validator
 * (`abortEarly: false`). Its behaviour:
 * - the declared keys are checked in declaration order; a missing key fails
 *   only if it is required;
 * - a value of the wrong base type, or an empty string, gives one error and
 *   the field's other rules are skipped;
 * - otherwise every rule of the field runs, and each one that fails adds an
 *   error;
 * - keys the schema does not declare are each reported, in object order;
 * - the object-level rule (at least n keys) runs only when no key failed;
 * - an error's message is the field's custom text for its code, else the
 *   schema's, else the library's default text.
 * The email syntax check is a parameter: the model does not interpret it.
 */
module SchemaRules {
  import opened Wrappers
  import opened JsText
  import opened JsObject

  /** A JSON value as far as the rules look at it: a string, a number, or anything else. */
  datatype Value = Str(text: string) | Num(number: real) | OtherValue

  datatype BaseType = StringType | NumberType

  datatype Rule =
    | MinLength(length: nat)    // string.min
    | Email                     // string.email
    | Integer                   // number.integer
    | MinValue(least: int)      // number.min

  datatype FieldRule = FieldRule(
    key: string,
    base: BaseType,
    required: bool,
    rules: seq<Rule>,
    messages: map<ErrorCode, string>)

  datatype ObjectSchema = ObjectSchema(
    fields: seq<FieldRule>,
    minKeys: Option<nat>,
    messages: map<ErrorCode, string>)

  datatype PathSegment = KeySegment(key: string) | IndexSegment(index: nat)

  /** The error codes the schemas can raise. */
  datatype ErrorCode =
    | AnyRequired | StringBase | StringEmpty | StringMin | StringEmail
    | NumberBase | NumberInteger | NumberMin | ObjectUnknown | ObjectMin

  /** The code's name, under which a schema overrides the code's message. */
  function CodeName(c: ErrorCode): string {
    match c
    case AnyRequired => "any.required"
    case StringBase => "string.base"
    case StringEmpty => "string.empty"
    case StringMin => "string.min"
    case StringEmail => "string.email"
    case NumberBase => "number.base"
    case NumberInteger => "number.integer"
    case NumberMin => "number.min"
    case ObjectUnknown => "object.unknown"
    case ObjectMin => "object.min"
  }

  /** One violation: its message, the path of the offending value and the error code. */
  datatype Detail = Detail(message: string, path: seq<PathSegment>, code: ErrorCode)

  /** The email syntax check, left uninterpreted. */
  type EmailCheck = string -> bool

  function Quoted(s: string): string {
    "\"" + s + "\""
  }

  /** The library's default text for each error code the schemas can raise. */
  function DefaultMessage(code: ErrorCode, subject: string, limit: int): string {
    match code
    case AnyRequired => subject + " is required"
    case StringBase => subject + " must be a string"
    case StringEmpty => subject + " is not allowed to be empty"
    case StringMin => subject + " length must be at least " + IntToString(limit) + " characters long"
    case StringEmail => subject + " must be a valid email"
    case NumberBase => subject + " must be a number"
    case NumberInteger => subject + " must be an integer"
    case NumberMin => subject + " must be greater than or equal to " + IntToString(limit)
    case ObjectUnknown => subject + " is not allowed"
    case ObjectMin => subject + " must have at least " + IntToString(limit) + (if limit == 1 then " key" else " keys")
  }

  /** The field's own text for the code, else the schema's, else the default text. */
  function Message(custom: map<ErrorCode, string>, inherited: map<ErrorCode, string>, code: ErrorCode, subject: string, limit: int): string {
    if code in custom then custom[code]
    else if code in inherited then inherited[code]
    else DefaultMessage(code, subject, limit)
  }

  function FieldError(schema: ObjectSchema, f: FieldRule, code: ErrorCode, limit: int): (d: Detail)
    ensures d.path == [KeySegment(f.key)] && d.code == code
  {
    Detail(Message(f.messages, schema.messages, code, Quoted(f.key), limit), [KeySegment(f.key)], code)
  }

  /** Whether one rule rejects a value of the field's base type. */
  predicate RuleFails(rule: Rule, v: Value, isEmail: EmailCheck) {
    match rule
    case MinLength(n) => v.Str? && Utf16Length(v.text) < n
    case Email => v.Str? && !isEmail(v.text)
    case Integer => v.Num? && v.number != v.number.Floor as real
    case MinValue(n) => v.Num? && v.number < n as real
  }

  function RuleCode(rule: Rule): ErrorCode {
    match rule
    case MinLength(_) => StringMin
    case Email => StringEmail
    case Integer => NumberInteger
    case MinValue(_) => NumberMin
  }

  function RuleLimit(rule: Rule): int {
    match rule
    case MinLength(n) => n
    case MinValue(n) => n
    case _ => 0
  }

  /** Every rule runs; each failing one contributes its error, in rule order. */
  function RuleDetails(schema: ObjectSchema, f: FieldRule, rules: seq<Rule>, v: Value, isEmail: EmailCheck): (ds: seq<Detail>)
    ensures |ds| <= |rules|
    ensures forall i :: 0 <= i < |rules| && RuleFails(rules[i], v, isEmail) ==> FieldError(schema, f, RuleCode(rules[i]), RuleLimit(rules[i])) in ds
    ensures forall d :: d in ds ==> exists i :: 0 <= i < |rules| && RuleFails(rules[i], v, isEmail) && d == FieldError(schema, f, RuleCode(rules[i]), RuleLimit(rules[i]))
  {
    if rules == [] then []
    else
      var rest := RuleDetails(schema, f, rules[1..], v, isEmail);
      assert forall i :: 1 <= i < |rules| ==> rules[i] == rules[1..][i - 1];
      (if RuleFails(rules[0], v, isEmail) then [FieldError(schema, f, RuleCode(rules[0]), RuleLimit(rules[0]))] else []) + rest
  }

  /** The errors of one declared field, given the object's value for it (None when absent). */
  function FieldDetails(schema: ObjectSchema, f: FieldRule, v: Option<Value>, isEmail: EmailCheck): seq<Detail>
  {
    match v
    case None => if f.required then [FieldError(schema, f, AnyRequired, 0)] else []
    case Some(x) =>
      match f.base
      case StringType =>
        if !x.Str? then [FieldError(schema, f, StringBase, 0)]
        else if x.text == "" then [FieldError(schema, f, StringEmpty, 0)]
        else RuleDetails(schema, f, f.rules, x, isEmail)
      case NumberType =>
        if !x.Num? then [FieldError(schema, f, NumberBase, 0)]
        else RuleDetails(schema, f, f.rules, x, isEmail)
  }

  /** The errors of the declared fields, in field order. */
  function ChildrenDetails(schema: ObjectSchema, fields: seq<FieldRule>, obj: Props<Value>, isEmail: EmailCheck): seq<Detail>
  {
    if fields == [] then []
    else FieldDetails(schema, fields[0], Get(obj, fields[0].key), isEmail) + ChildrenDetails(schema, fields[1..], obj, isEmail)
  }

  /** Every field's errors are among the children's, and there are none exactly when every field passes. */
  lemma {:induction false} ChildrenFacts(schema: ObjectSchema, fields: seq<FieldRule>, obj: Props<Value>, isEmail: EmailCheck)
    ensures forall i, d :: 0 <= i < |fields| && d in FieldDetails(schema, fields[i], Get(obj, fields[i].key), isEmail) ==>
      d in ChildrenDetails(schema, fields, obj, isEmail)
    ensures ChildrenDetails(schema, fields, obj, isEmail) == [] <==>
      forall i :: 0 <= i < |fields| ==> FieldDetails(schema, fields[i], Get(obj, fields[i].key), isEmail) == []
  {
    if fields != [] {
      ChildrenFacts(schema, fields[1..], obj, isEmail);
      assert forall i :: 1 <= i < |fields| ==> fields[i] == fields[1..][i - 1];
    }
  }

  function DeclaredKeys(fields: seq<FieldRule>): (ks: seq<string>)
    ensures |ks| == |fields| && forall i :: 0 <= i < |fields| ==> ks[i] == fields[i].key
  {
    if fields == [] then [] else [fields[0].key] + DeclaredKeys(fields[1..])
  }

  function UnknownError(schema: ObjectSchema, key: string): Detail {
    Detail(Message(map[], schema.messages, ObjectUnknown, Quoted(key), 0), [KeySegment(key)], ObjectUnknown)
  }

  /** One error per undeclared key, in the order `Object.keys` lists the object's keys. */
  function UnknownDetails(schema: ObjectSchema, obj: Props<Value>): (ds: seq<Detail>)
    ensures ds == [] <==> forall i :: 0 <= i < |obj| ==> obj[i].0 in DeclaredKeys(schema.fields)
    ensures forall i :: 0 <= i < |obj| && obj[i].0 !in DeclaredKeys(schema.fields) ==> UnknownError(schema, obj[i].0) in ds
  {
    EnumerationOrderFacts(Keys(obj));
    UnknownInOrder(schema, EnumerationOrder(Keys(obj)))
  }

  /** One error per undeclared key of ks, in the order of ks. */
  function UnknownInOrder(schema: ObjectSchema, ks: seq<string>): (ds: seq<Detail>)
    ensures ds == [] <==> forall k :: k in ks ==> k in DeclaredKeys(schema.fields)
    ensures forall k :: k in ks && k !in DeclaredKeys(schema.fields) ==> UnknownError(schema, k) in ds
  {
    if ks == [] then []
    else
      assert ks == [ks[0]] + ks[1..];
      (if ks[0] in DeclaredKeys(schema.fields) then [] else [UnknownError(schema, ks[0])]) + UnknownInOrder(schema, ks[1..])
  }

  function ObjectMinError(schema: ObjectSchema, limit: nat): Detail {
    Detail(Message(map[], schema.messages, ObjectMin, "\"value\"", limit), [], ObjectMin)
  }

  /** The full, exhaustive validation of an object against a schema. */
  function ValidateObject(schema: ObjectSchema, obj: Props<Value>, isEmail: EmailCheck): (ds: seq<Detail>)
    // no violation at all exactly when every field passes, no key is undeclared and the object rule holds
    ensures ds == [] <==>
      && (forall i :: 0 <= i < |schema.fields| ==> FieldDetails(schema, schema.fields[i], Get(obj, schema.fields[i].key), isEmail) == [])
      && (forall i :: 0 <= i < |obj| ==> obj[i].0 in DeclaredKeys(schema.fields))
      && (schema.minKeys.Some? ==> |obj| >= schema.minKeys.value)
    // exhaustive: every field's errors are reported, not only the first field's
    ensures forall i, d :: 0 <= i < |schema.fields| && d in FieldDetails(schema, schema.fields[i], Get(obj, schema.fields[i].key), isEmail) ==> d in ds
    ensures forall i :: 0 <= i < |obj| && obj[i].0 !in DeclaredKeys(schema.fields) ==> UnknownError(schema, obj[i].0) in ds
  {
    ChildrenFacts(schema, schema.fields, obj, isEmail);
    var keyErrors := ChildrenDetails(schema, schema.fields, obj, isEmail) + UnknownDetails(schema, obj);
    if keyErrors != [] then keyErrors
    else if schema.minKeys.Some? && |obj| < schema.minKeys.value then [ObjectMinError(schema, schema.minKeys.value)]
    else []
  }

  /** A non-empty string checked by a single rule: that rule's error if it fails, nothing otherwise. */
  lemma SingleStringRule(schema: ObjectSchema, f: FieldRule, x: Value, isEmail: EmailCheck)
    requires f.base == StringType && |f.rules| == 1
    requires x.Str? && x.text != ""
    ensures FieldDetails(schema, f, Some(x), isEmail) ==
      if RuleFails(f.rules[0], x, isEmail) then [FieldError(schema, f, RuleCode(f.rules[0]), RuleLimit(f.rules[0]))] else []
  {
    assert f.rules[1..] == [];
  }

  /** A number checked by two rules: both run, and their errors come in rule order. */
  lemma TwoNumberRules(schema: ObjectSchema, f: FieldRule, x: Value, isEmail: EmailCheck)
    requires f.base == NumberType && |f.rules| == 2
    requires x.Num?
    ensures FieldDetails(schema, f, Some(x), isEmail) ==
      (if RuleFails(f.rules[0], x, isEmail) then [FieldError(schema, f, RuleCode(f.rules[0]), RuleLimit(f.rules[0]))] else []) +
      (if RuleFails(f.rules[1], x, isEmail) then [FieldError(schema, f, RuleCode(f.rules[1]), RuleLimit(f.rules[1]))] else [])
  {
    var tail := f.rules[1..];
    assert tail[0] == f.rules[1] && tail[1..] == [];
    assert RuleDetails(schema, f, tail, x, isEmail) ==
      (if RuleFails(tail[0], x, isEmail) then [FieldError(schema, f, RuleCode(tail[0]), RuleLimit(tail[0]))] else []) + [];
  }

  /** The verdict on an object against a schema of three fields, field by field. */
  lemma VerdictOfThree(schema: ObjectSchema, obj: Props<Value>, isEmail: EmailCheck)
    requires |schema.fields| == 3
    ensures ValidateObject(schema, obj, isEmail) == [] <==> ThreeFieldsPass(schema, obj, isEmail)
  {
    if ThreeFieldsPass(schema, obj, isEmail) {
      ThreeFieldsPassSuffices(schema, obj, isEmail);
    }
  }

  /** Each of the three fields passes, every key is declared and the key count is met. */
  predicate ThreeFieldsPass(schema: ObjectSchema, obj: Props<Value>, isEmail: EmailCheck)
    requires |schema.fields| == 3
  {
    && FieldDetails(schema, schema.fields[0], Get(obj, schema.fields[0].key), isEmail) == []
    && FieldDetails(schema, schema.fields[1], Get(obj, schema.fields[1].key), isEmail) == []
    && FieldDetails(schema, schema.fields[2], Get(obj, schema.fields[2].key), isEmail) == []
    && (forall i :: 0 <= i < |obj| ==> obj[i].0 in DeclaredKeys(schema.fields))
    && (schema.minKeys.Some? ==> |obj| >= schema.minKeys.value)
  }

  lemma ThreeFieldsPassSuffices(schema: ObjectSchema, obj: Props<Value>, isEmail: EmailCheck)
    requires |schema.fields| == 3 && ThreeFieldsPass(schema, obj, isEmail)
    ensures ValidateObject(schema, obj, isEmail) == []
  {
    var fields := schema.fields;
    forall i | 0 <= i < |fields| ensures FieldDetails(schema, fields[i], Get(obj, fields[i].key), isEmail) == [] {
      assert i == 0 || i == 1 || i == 2;
    }
  }

  /** An error of one field is among the reported errors. */
  lemma FieldErrorReported(schema: ObjectSchema, obj: Props<Value>, isEmail: EmailCheck, i: nat, d: Detail)
    requires i < |schema.fields|
    requires d in FieldDetails(schema, schema.fields[i], Get(obj, schema.fields[i].key), isEmail)
    ensures d in ValidateObject(schema, obj, isEmail)
  {
  }

  /** An undeclared key is among the reported errors. */
  lemma UnknownKeyError(schema: ObjectSchema, obj: Props<Value>, isEmail: EmailCheck, k: string)
    requires k in Keys(obj) && k !in DeclaredKeys(schema.fields)
    ensures UnknownError(schema, k) in ValidateObject(schema, obj, isEmail)
  {
    var i :| 0 <= i < |obj| && Keys(obj)[i] == k;
    assert obj[i].0 == k;
  }

  /** The verdict on an object against a schema of one field. */
  lemma VerdictOfOne(schema: ObjectSchema, obj: Props<Value>, isEmail: EmailCheck)
    requires |schema.fields| == 1
    ensures ValidateObject(schema, obj, isEmail) == [] <==>
      && FieldDetails(schema, schema.fields[0], Get(obj, schema.fields[0].key), isEmail) == []
      && (forall i :: 0 <= i < |obj| ==> obj[i].0 in DeclaredKeys(schema.fields))
      && (schema.minKeys.Some? ==> |obj| >= schema.minKeys.value)
  {
    ChildrenStep(schema, schema.fields, obj, isEmail);
  }

  /**
   * The full report on an object without undeclared keys, against a schema
   * of one field: that field's errors, or else the object-level error when
   * the key count falls short.
   */
  lemma ReportOfOne(schema: ObjectSchema, obj: Props<Value>, isEmail: EmailCheck)
    requires |schema.fields| == 1
    requires forall i :: 0 <= i < |obj| ==> obj[i].0 in DeclaredKeys(schema.fields)
    ensures OneFieldErrors(schema, obj, isEmail) != [] ==>
      ValidateObject(schema, obj, isEmail) == OneFieldErrors(schema, obj, isEmail)
    ensures OneFieldErrors(schema, obj, isEmail) == [] ==>
      ValidateObject(schema, obj, isEmail) ==
        if |obj| < schema.minKeys.GetOr(0) then [ObjectMinError(schema, schema.minKeys.GetOr(0))] else []
  {
    ChildrenStep(schema, schema.fields, obj, isEmail);
  }

  /** The errors of the only field. */
  function OneFieldErrors(schema: ObjectSchema, obj: Props<Value>, isEmail: EmailCheck): seq<Detail>
    requires |schema.fields| == 1
  {
    FieldDetails(schema, schema.fields[0], Get(obj, schema.fields[0].key), isEmail)
  }

  /**
   * The full report on an object without undeclared keys, against a schema
   * of three fields: the fields' errors in field order, or else the
   * object-level error when the key count falls short.
   */
  lemma ReportOfThree(schema: ObjectSchema, obj: Props<Value>, isEmail: EmailCheck)
    requires |schema.fields| == 3
    requires forall i :: 0 <= i < |obj| ==> obj[i].0 in DeclaredKeys(schema.fields)
    ensures ThreeFieldErrors(schema, obj, isEmail) != [] ==>
      ValidateObject(schema, obj, isEmail) == ThreeFieldErrors(schema, obj, isEmail)
    ensures ThreeFieldErrors(schema, obj, isEmail) == [] ==>
      ValidateObject(schema, obj, isEmail) ==
        if |obj| < schema.minKeys.GetOr(0) then [ObjectMinError(schema, schema.minKeys.GetOr(0))] else []
  {
    ChildrenOfThree(schema, obj, isEmail);
  }

  /** The errors of the three fields, in field order. */
  function ThreeFieldErrors(schema: ObjectSchema, obj: Props<Value>, isEmail: EmailCheck): seq<Detail>
    requires |schema.fields| == 3
  {
    FieldDetails(schema, schema.fields[0], Get(obj, schema.fields[0].key), isEmail) +
    FieldDetails(schema, schema.fields[1], Get(obj, schema.fields[1].key), isEmail) +
    FieldDetails(schema, schema.fields[2], Get(obj, schema.fields[2].key), isEmail)
  }

  lemma ChildrenOfThree(schema: ObjectSchema, obj: Props<Value>, isEmail: EmailCheck)
    requires |schema.fields| == 3
    ensures ChildrenDetails(schema, schema.fields, obj, isEmail) == ThreeFieldErrors(schema, obj, isEmail)
  {
    var fields := schema.fields;
    ChildrenStep(schema, fields, obj, isEmail);
    ChildrenStep(schema, fields[1..], obj, isEmail);
    ChildrenStep(schema, fields[2..], obj, isEmail);
    assert fields[1..][1..] == fields[2..] && fields[2..][1..] == [];
    assert fields[1..][0] == fields[1] && fields[2..][0] == fields[2];
  }

  /** The errors of a list of fields: the first field's, then the others'. */
  lemma ChildrenStep(schema: ObjectSchema, fields: seq<FieldRule>, obj: Props<Value>, isEmail: EmailCheck)
    requires fields != []
    ensures ChildrenDetails(schema, fields, obj, isEmail) ==
      FieldDetails(schema, fields[0], Get(obj, fields[0].key), isEmail) + ChildrenDetails(schema, fields[1..], obj, isEmail)
    ensures |fields| == 1 ==> ChildrenDetails(schema, fields, obj, isEmail) == FieldDetails(schema, fields[0], Get(obj, fields[0].key), isEmail)
  {
    if |fields| == 1 {
      assert fields[1..] == [];
    }
  }
}
