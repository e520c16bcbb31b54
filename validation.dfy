/**
 * Request validation middleware (src/middleware/validation.ts): the three
 * express-validator rule chains and the `validateRequest` gate.
 *
 * A rule chain is data: per field, a list of validation steps. Each failing
 * validator adds one violation with its message; a chain does not stop at
 * the first failure. `trim()` is a sanitizer: it replaces the value with the
 * trimmed text of its string form, so later steps see a string.
 */
module Validation {
  import opened Wrappers

  /** A request-body field: absent, a JSON string, or another JSON value with its string form. */
  datatype BodyValue = Missing | Str(s: string) | NonString(text: string)

  /** express-validator's string form of a value: '' for an absent one. */
  function AsText(v: BodyValue): string {
    match v
    case Missing => ""
    case Str(s) => s
    case NonString(t) => t
  }

  function Lookup(body: map<string, BodyValue>, field: string): BodyValue {
    if field in body then body[field] else Missing
  }

  /** The characters JavaScript's `\s` (and so `trim`) treats as white space. */
  predicate IsWhitespace(c: char) {
    c == ' ' || c == '\t' || c == '\n' || c == '\U{B}' || c == '\U{C}' || c == '\r'
    || c == '\U{A0}' || c == '\U{1680}' || ('\U{2000}' <= c <= '\U{200A}')
    || c == '\U{2028}' || c == '\U{2029}' || c == '\U{202F}' || c == '\U{205F}'
    || c == '\U{3000}' || c == '\U{FEFF}'
  }

  function TrimStart(s: string): (r: string)
    ensures |r| <= |s|
    ensures r != [] ==> !IsWhitespace(r[0])
  {
    if s != [] && IsWhitespace(s[0]) then TrimStart(s[1..]) else s
  }

  function TrimEnd(s: string): (r: string)
    ensures |r| <= |s|
    ensures r != [] ==> !IsWhitespace(r[|r| - 1])
  {
    if s != [] && IsWhitespace(s[|s| - 1]) then TrimEnd(s[..|s| - 1]) else s
  }

  /** `String.prototype.trim`. */
  function Trim(s: string): (r: string)
    ensures |r| <= |s|
  {
    TrimEnd(TrimStart(s))
  }

  /** The validators the chains use; `Satisfies` stands for a library check (`isEmail`, `isISO8601`). */
  datatype Check =
    | IsEmpty
    | IsString
    | MinLength(min: nat)
    | MaxLength(max: nat)
    | IsIn(values: seq<string>)
    | Satisfies(p: string -> bool)

  /** One link of a chain: a validator (possibly after `.not()`) with its message, or the `trim()` sanitizer. */
  datatype Step = Validate(check: Check, negated: bool, message: string) | TrimValue

  datatype FieldRule = FieldRule(field: string, steps: seq<Step>)

  /** One entry of `validationResult(req).array()`. */
  datatype Violation = Violation(field: string, message: string)

  function Holds(c: Check, v: BodyValue): bool {
    match c
    case IsEmpty => |AsText(v)| == 0
    case IsString => v.Str?
    case MinLength(min) => |AsText(v)| >= min
    case MaxLength(max) => |AsText(v)| <= max
    case IsIn(values) => AsText(v) in values
    case Satisfies(p) => p(AsText(v))
  }

  /** The violations one chain reports, in chain order. */
  function RunSteps(field: string, steps: seq<Step>, v: BodyValue): (r: seq<Violation>)
    ensures |r| <= |steps|
    ensures forall i :: 0 <= i < |r| ==> r[i].field == field
  {
    if steps == [] then []
    else match steps[0]
      case TrimValue => RunSteps(field, steps[1..], Str(Trim(AsText(v))))
      case Validate(c, negated, message) =>
        var failed := Holds(c, v) == negated;
        (if failed then [Violation(field, message)] else []) + RunSteps(field, steps[1..], v)
  }

  function FieldViolations(rule: FieldRule, body: map<string, BodyValue>): seq<Violation> {
    RunSteps(rule.field, rule.steps, Lookup(body, rule.field))
  }

  /** `validationResult(req)` after running every chain of a rule set. */
  function ValidationResult(rules: seq<FieldRule>, body: map<string, BodyValue>): seq<Violation> {
    if rules == [] then [] else FieldViolations(rules[0], body) + ValidationResult(rules[1..], body)
  }

  /** A request passes a rule set exactly when every one of its chains passes. */
  lemma {:induction false} ValidationResultEmpty(rules: seq<FieldRule>, body: map<string, BodyValue>)
    ensures ValidationResult(rules, body) == []
      <==> forall i :: 0 <= i < |rules| ==> FieldViolations(rules[i], body) == []
  {
    if rules != [] {
      ValidationResultEmpty(rules[1..], body);
      assert forall i :: 1 <= i < |rules| ==> rules[i] == rules[1..][i - 1];
    }
  }

  /** `.not().isEmpty().withMessage(m)` */
  function Required(message: string): Step { Validate(IsEmpty, true, message) }

  function Must(c: Check, message: string): Step { Validate(c, false, message) }

  /** `values.join(', ')` */
  function CommaList(values: seq<string>): string {
    if values == [] then "" else if |values| == 1 then values[0] else values[0] + ", " + CommaList(values[1..])
  }

  /** `taskValidator`, given the values of the `Priority` and `Status` enums and the `isISO8601` check. */
  function TaskValidator(isISO8601: string -> bool, priorities: seq<string>, statuses: seq<string>): seq<FieldRule> {
    [ FieldRule("title", [Required("Title is required"), TrimValue, Must(IsString, "Title must be a string")]),
      FieldRule("date", [Required("Date is required"), Must(Satisfies(isISO8601), "Date must be a date")]),
      FieldRule("description", [Required("Description is required"), Must(IsString, "Description must be a string")]),
      FieldRule("priority", [Required("Priority is required"),
                             Must(IsIn(priorities), "Priority must be one of: " + CommaList(priorities))]),
      FieldRule("status", [Required("Status is required"),
                           Must(IsIn(statuses), "Status must be one of: " + CommaList(statuses))]) ]
  }

  function EmailRule(isEmail: string -> bool): FieldRule {
    FieldRule("email", [Required("Email is required"), Must(Satisfies(isEmail), "Email must be a valid email address")])
  }

  /** `loginValidator`. */
  function LoginValidator(isEmail: string -> bool): seq<FieldRule> {
    [ EmailRule(isEmail),
      FieldRule("password", [Required("Password is required"),
                             Must(MinLength(8), "Password must be at least 8 characters long")]) ]
  }

  /** The chain of a signup name field: required, a string, 2 to 50 characters. */
  function NameRule(field: string, required: string, notString: string, tooShort: string, tooLong: string): FieldRule {
    FieldRule(field, [Required(required), Must(IsString, notString),
                      Must(MinLength(2), tooShort), Must(MaxLength(50), tooLong)])
  }

  /** `signupValidator`. */
  function SignupValidator(isEmail: string -> bool): seq<FieldRule> {
    [ EmailRule(isEmail),
      FieldRule("password", [Required("Password is required"),
                             Must(IsString, "Password must be a string"),
                             Must(MinLength(8), "Password must be at least 8 characters long")]),
      NameRule("firstName", "First name is required", "First name must be a string",
               "First name must be at least 2 characters long", "First name must not exceed 50 characters"),
      NameRule("secondName", "Second name is required", "Second name must be a string",
               "Second name must be at least 2 characters long", "Second name must not exceed 50 characters") ]
  }

  /** The outcome of `validateRequest`: a 400 reply with the violations, or `next()`. */
  datatype Gate = Rejected(httpStatus: int, message: string, errors: seq<Violation>) | CallNext

  /** `validateRequest`: rejects exactly when there is at least one violation, and then reports all of them. */
  function ValidateRequest(violations: seq<Violation>): (g: Gate)
    ensures g.Rejected? <==> |violations| > 0
    ensures g.Rejected? ==> g.httpStatus == 400 && g.errors == violations && g.message == "Validation failed"
  {
    if |violations| > 0 then Rejected(400, "Validation failed", violations) else CallNext
  }

  /** Whether one validation step passes on `v`. */
  predicate Passes(step: Step, v: BodyValue)
    requires step.Validate?
  {
    Holds(step.check, v) != step.negated
  }

  /** A chain without sanitizers reports nothing exactly when each of its validators passes. */
  lemma {:induction false} ChainPasses(field: string, steps: seq<Step>, v: BodyValue)
    requires forall i :: 0 <= i < |steps| ==> steps[i].Validate?
    ensures RunSteps(field, steps, v) == [] <==> forall i :: 0 <= i < |steps| ==> Passes(steps[i], v)
  {
    if steps != [] {
      ChainPasses(field, steps[1..], v);
      assert forall i :: 1 <= i < |steps| ==> steps[i] == steps[1..][i - 1];
    }
  }

  /** The login password passes exactly when its text has at least 8 characters; there is no upper bound. */
  lemma LoginPasswordAccepted(isEmail: string -> bool, body: map<string, BodyValue>)
    ensures FieldViolations(LoginValidator(isEmail)[1], body) == []
      <==> |AsText(Lookup(body, "password"))| >= 8
  {
    var steps := LoginValidator(isEmail)[1].steps;
    ChainPasses("password", steps, Lookup(body, "password"));
  }

  /** A signup name passes exactly when it is a string of 2 to 50 characters. */
  lemma SignupNameAccepted(isEmail: string -> bool, body: map<string, BodyValue>, i: nat)
    requires i == 2 || i == 3
    ensures var v := Lookup(body, SignupValidator(isEmail)[i].field);
      FieldViolations(SignupValidator(isEmail)[i], body) == [] <==> v.Str? && 2 <= |v.s| <= 50
  {
    var rule := SignupValidator(isEmail)[i];
    var v := Lookup(body, rule.field);
    ChainPasses(rule.field, rule.steps, v);
    assert Passes(rule.steps[0], v) && Passes(rule.steps[1], v) && Passes(rule.steps[2], v) && Passes(rule.steps[3], v)
      <==> v.Str? && 2 <= |v.s| <= 50;
  }

  /** The signup password passes exactly when it is a string of at least 8 characters: no character classes. */
  lemma SignupPasswordAccepted(isEmail: string -> bool, body: map<string, BodyValue>)
    ensures var v := Lookup(body, "password");
      FieldViolations(SignupValidator(isEmail)[1], body) == [] <==> v.Str? && |v.s| >= 8
  {
    var rule := SignupValidator(isEmail)[1];
    var v := Lookup(body, "password");
    ChainPasses(rule.field, rule.steps, v);
    assert Passes(rule.steps[0], v) && Passes(rule.steps[1], v) && Passes(rule.steps[2], v)
      <==> v.Str? && |v.s| >= 8;
  }

  /** Task priority and status pass exactly when their text is one of the enum's values (and not empty). */
  lemma TaskEnumsAccepted(isISO8601: string -> bool, priorities: seq<string>, statuses: seq<string>,
                          body: map<string, BodyValue>)
    ensures var v := AsText(Lookup(body, "priority"));
      FieldViolations(TaskValidator(isISO8601, priorities, statuses)[3], body) == [] <==> v != "" && v in priorities
    ensures var v := AsText(Lookup(body, "status"));
      FieldViolations(TaskValidator(isISO8601, priorities, statuses)[4], body) == [] <==> v != "" && v in statuses
  {
    var rules := TaskValidator(isISO8601, priorities, statuses);
    ChainPasses("priority", rules[3].steps, Lookup(body, "priority"));
    ChainPasses("status", rules[4].steps, Lookup(body, "status"));
  }

  /**
   * Because `trim()` turns the title into a string, 'Title must be a string'
   * is never reported: the title passes exactly when it is not empty.
   */
  lemma TaskTitleAccepted(isISO8601: string -> bool, priorities: seq<string>, statuses: seq<string>,
                          body: map<string, BodyValue>)
    ensures FieldViolations(TaskValidator(isISO8601, priorities, statuses)[0], body) == []
      <==> AsText(Lookup(body, "title")) != ""
    ensures forall k :: 0 <= k < |FieldViolations(TaskValidator(isISO8601, priorities, statuses)[0], body)| ==>
      FieldViolations(TaskValidator(isISO8601, priorities, statuses)[0], body)[k].message == "Title is required"
  {
    var steps := TaskValidator(isISO8601, priorities, statuses)[0].steps;
    var v := Lookup(body, "title");
    assert steps[1..][1..] == steps[2..];
    assert RunSteps("title", steps[2..], Str(Trim(AsText(v)))) == [];
    assert RunSteps("title", steps[1..], v) == [];
    assert FieldViolations(TaskValidator(isISO8601, priorities, statuses)[0], body)
      == if AsText(v) == "" then [Violation("title", "Title is required")] else [];
  }

  /** A missing signup name is reported as required and as too short, but not as too long. */
  lemma MissingNameViolations(isEmail: string -> bool, body: map<string, BodyValue>)
    requires "firstName" !in body
    ensures FieldViolations(SignupValidator(isEmail)[2], body) ==
      [ Violation("firstName", "First name is required"),
        Violation("firstName", "First name must be a string"),
        Violation("firstName", "First name must be at least 2 characters long") ]
  {
    var steps := SignupValidator(isEmail)[2].steps;
    var f := "firstName";
    assert Lookup(body, f) == Missing;
    assert RunSteps(f, steps[3..], Missing) == [];
    assert steps[2..][1..] == steps[3..];
    assert steps[1..][1..] == steps[2..];
  }
}
