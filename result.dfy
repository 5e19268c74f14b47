/**
 * What a validation produces: errors with traces, the reasons a validation
 * is rejected outright, and the human-readable report.
 */
module Results {
  import opened Outcomes
  import opened Text
  import opened JsonValues

  /** One step of a trace: a property or schema name, the array position, the resolved subtype. */
  datatype TraceStep = TraceStep(stepName: string, arrayPos: Option<nat>, concreteModel: Option<string>)

  type Trace = seq<TraceStep>

  function Step(name: string): TraceStep {
    TraceStep(name, None, None)
  }

  /**
   * `longer` begins with the step names of `trace`: what copying a trace and
   * pushing steps onto the copy, or annotating its steps, keeps.
   */
  predicate NamesExtend(trace: Trace, longer: Trace) {
    |trace| <= |longer| && forall i :: 0 <= i < |trace| ==> longer[i].stepName == trace[i].stepName
  }

  datatype ConstraintName =
    | MinItems | MaxItems | UniqueItems | Maximum | Minimum | MultipleOf | MinLength | MaxLength | Pattern

  function ConstraintText(c: ConstraintName): string {
    match c
    case MinItems => "minItems"
    case MaxItems => "maxItems"
    case UniqueItems => "uniqueItems"
    case Maximum => "maximum"
    case Minimum => "minimum"
    case MultipleOf => "multipleOf"
    case MinLength => "minLength"
    case MaxLength => "maxLength"
    case Pattern => "pattern"
  }

  /**
   * One validation error. The array checker's misspelt constraint kind is the
   * constraint-violation kind here. `OtherError` is an error of a kind none
   * of the others names, as a custom hook may produce.
   */
  datatype ValidationError =
    | MissingRequired(trace: Trace)
    | AdditionalProperty(trace: Trace)
    | TypeMismatch(trace: Trace, typeIs: string, typeShouldBe: string)
    | EnumMismatch(trace: Trace, enumIs: Json, enumShouldBe: Json)
    | DateFormat(trace: Trace)
    | ConstraintsViolation(trace: Trace, constraintName: ConstraintName, constraintValue: Json)
    | Custom(trace: Trace, content: Json)
    | OtherError(trace: Trace)

  /** Why a validation produced no error list at all (a rejected promise or a throw). */
  datatype Rejection =
    | SchemaCorrupted(schema: Json)
    | TypeNotImplemented(typ: Json, title: Json)
    | ConfusingDiscriminator(at: Trace)
    | NoConcreteObject(at: Trace)
    | MoreThanOneConcreteObject(at: Trace)
    | TypeError
    | InvalidPath(path: string)
    | NotHashedPath(path: string)
    | PathNotFound(path: string, component: string)
    | SchemaNotFound(name: string)
    | InvalidPattern(pattern: string)
    | CustomRejected(reason: Json)
    | LoadFailed(message: string)
    | SchemaOrSpecUndefined
    | OutOfFuel

  type Outcome<T> = Result<T, Rejection>

  /** One step as text: `name`, then `[pos]`, then `<model>`. */
  function StepText(s: TraceStep): string {
    s.stepName
    + (match s.arrayPos case Some(p) => "[" + NatToString(p) + "]" case None => "")
    + (match s.concreteModel case Some(m) => "<" + m + ">" case None => "")
  }

  /** `getTraceString(trace)`. */
  function TraceString(trace: Trace): string {
    Join(seq(|trace|, i requires 0 <= i < |trace| => StepText(trace[i])), "/")
  }

  /** A trace of one step prints that step alone, with no leading `/`. */
  lemma TraceStringSingle(s: TraceStep)
    ensures TraceString([s]) == StepText(s)
  {
    assert seq(1, i requires 0 <= i < 1 => StepText([s][i])) == [StepText(s)];
  }

  /** The trace string of a longer trace extends the shorter one's after a `/`. */
  lemma {:induction false} TraceStringAppend(trace: Trace, s: TraceStep)
    requires |trace| > 0
    ensures TraceString(trace + [s]) == TraceString(trace) + "/" + StepText(s)
  {
    var texts := seq(|trace|, i requires 0 <= i < |trace| => StepText(trace[i]));
    var all := seq(|trace + [s]|, i requires 0 <= i < |trace + [s]| => StepText((trace + [s])[i]));
    assert all == texts + [StepText(s)];
    JoinSnoc(texts, StepText(s), "/");
  }

  lemma {:induction false} JoinSnoc(parts: seq<string>, last: string, sep: string)
    requires |parts| > 0
    ensures Join(parts + [last], sep) == Join(parts, sep) + sep + last
  {
    if |parts| == 1 {
      assert (parts + [last])[1..] == [last];
    } else {
      assert (parts + [last])[1..] == parts[1..] + [last];
      JoinSnoc(parts[1..], last, sep);
    }
  }

  function AtLine(trace: Trace): string {
    "\t - At " + TraceString(trace)
  }

  /**
   * An error `humanReadable` can print. An enum mismatch carries the schema's
   * `enum` as `enumShouldBe`, and its block calls `enumShouldBe.join`: a text,
   * number or object list has no `join` method, so printing it throws.
   */
  predicate Printable(e: ValidationError) {
    e.EnumMismatch? ==> e.enumShouldBe.JArr?
  }

  /** `array.join('", "')`, where `null` and `undefined` elements print as nothing. */
  function EnumListText(items: seq<Json>, fmt: NumberFormat): string {
    Join(seq(|items|, i requires 0 <= i < |items| =>
               if items[i].JUndefined? || items[i].JNull? then "" else ToString(items[i], fmt)), "\", \"")
  }

  /** The lines `humanReadable` pushes for one error, ending with the empty separator line. */
  function ErrorLines(e: ValidationError, fmt: NumberFormat): seq<string>
    requires Printable(e)
  {
    match e
    case MissingRequired(t) => ["Missing required property:", AtLine(t), ""]
    case TypeMismatch(t, actual, should) =>
      ["Type mismatch:", AtLine(t), "\t - Should be: \"" + should + "\"", "\t - Is: \"" + actual + "\"", ""]
    case EnumMismatch(t, actual, should) =>
      ["Enum mismatch:", AtLine(t),
       "\t - Should be one of: [\"" + EnumListText(should.items, fmt) + "\"]",
       "\t - Is: \"" + ToString(actual, fmt) + "\"", ""]
    case AdditionalProperty(t) => ["Additional Property:", AtLine(t), ""]
    case DateFormat(t) => ["Date format mismatch:", AtLine(t), ""]
    case ConstraintsViolation(t, name, value) =>
      ["Constraint violation:",
       "\t - Violation: " + ConstraintText(name) + "<" + ToString(value, fmt) + ">",
       AtLine(t), ""]
    case Custom(t, content) =>
      ["Custom Error:", AtLine(t)]
      + (if Truthy(content)
         then ["\t - Content: " + (match Stringify(content, fmt) case Some(c) => c case None => "undefined")]
         else [])
      + [""]
    case OtherError(t) => ["Unknown Error:", AtLine(t), ""]
  }

  /** The lines of all errors, block after block in error order. */
  function ReportLines(errors: seq<ValidationError>, fmt: NumberFormat): seq<string>
    requires forall i :: 0 <= i < |errors| ==> Printable(errors[i])
  {
    if |errors| == 0 then [] else ReportLines(errors[..|errors| - 1], fmt) + ErrorLines(errors[|errors| - 1], fmt)
  }

  /** `ValidationResult.humanReadable()`: a TypeError when some error cannot be printed. */
  function Report(errors: seq<ValidationError>, fmt: NumberFormat): Outcome<string> {
    if |errors| == 0 then Ok("Valid")
    else if forall i :: 0 <= i < |errors| ==> Printable(errors[i]) then Ok(Join(ReportLines(errors, fmt), "\n"))
    else Failure(TypeError)
  }

  /**
   * Every block starts with its heading, carries the At line, and ends with an
   * empty line; a constraint block puts the Violation line before the At line,
   * every other block puts the At line right after the heading.
   */
  lemma BlockShape(e: ValidationError, fmt: NumberFormat)
    requires Printable(e)
    ensures var lines := ErrorLines(e, fmt);
      |lines| >= 3 && lines[|lines| - 1] == ""
      && (e.ConstraintsViolation? ==>
            (lines[2] == AtLine(e.trace)
             && lines[1] == "\t - Violation: " + ConstraintText(e.constraintName) + "<" + ToString(e.constraintValue, fmt) + ">"))
      && (!e.ConstraintsViolation? ==> lines[1] == AtLine(e.trace))
      && (e.TypeMismatch? ==>
            (lines[2] == "\t - Should be: \"" + e.typeShouldBe + "\"" && lines[3] == "\t - Is: \"" + e.typeIs + "\""))
      && (e.Custom? ==> (|lines| == 4 <==> Truthy(e.content)))
  {
  }

  /** The report is exactly "Valid" when there is no error, and never otherwise. */
  lemma {:induction false} ReportValid(errors: seq<ValidationError>, fmt: NumberFormat)
    ensures Report(errors, fmt) == Ok("Valid") <==> |errors| == 0
  {
    if |errors| > 0 && forall i :: 0 <= i < |errors| ==> Printable(errors[i]) {
      var lines := ReportLines(errors, fmt);
      BlockShape(errors[|errors| - 1], fmt);
      assert |lines| >= 2;
      JoinHasSeparator(lines, "\n");
      assert '\n' !in "Valid";
    }
  }

  /**
   * The report throws exactly when some error is an enum mismatch whose list
   * is not an array, such as the text `enum` a schema may carry.
   */
  lemma ReportThrows(errors: seq<ValidationError>, fmt: NumberFormat)
    ensures Report(errors, fmt).Failure?
      <==> exists i :: 0 <= i < |errors| && errors[i].EnumMismatch? && !errors[i].enumShouldBe.JArr?
  {
  }

  /** A text enum list: the report of its mismatch is a TypeError, not text. */
  lemma TextEnumThrows(fmt: NumberFormat)
    ensures Report([EnumMismatch([Step("color")], JStr("x"), JStr("red"))], fmt) == Failure(TypeError)
  {
    assert !Printable(EnumMismatch([Step("color")], JStr("x"), JStr("red")));
  }

  lemma {:induction false} JoinHasSeparator(parts: seq<string>, sep: string)
    requires |parts| >= 2 && |sep| == 1
    ensures sep[0] in Join(parts, sep)
  {
    var rest := Join(parts[1..], sep);
    assert Join(parts, sep) == parts[0] + sep + rest;
    assert (parts[0] + sep + rest)[|parts[0]|] == sep[0];
  }

  /** The result object, whose report is built by pushing lines in a loop and joining them. */
  class ValidationResult {
    var errors: seq<ValidationError>

    constructor (errors: seq<ValidationError>)
      ensures this.errors == errors
    {
      this.errors := errors;
    }

    method HumanReadable(fmt: NumberFormat) returns (text: Outcome<string>)
      ensures text == Report(errors, fmt)
    {
      var es := errors;
      if |es| == 0 {
        return Ok("Valid");
      }
      var ret: seq<string> := [];
      var i := 0;
      while i < |es|
        invariant 0 <= i <= |es|
        invariant forall j :: 0 <= j < i ==> Printable(es[j])
        invariant ret == ReportLines(es[..i], fmt)
      {
        if !Printable(es[i]) {
          return Failure(TypeError);
        }
        assert forall j :: 0 <= j < i + 1 ==> Printable(es[j]);
        assert es[..i + 1][..i] == es[..i];
        ret := ret + ErrorLines(es[i], fmt);
        i := i + 1;
      }
      assert es[..i] == es;
      return Ok(Join(ret, "\n"));
    }
  }
}
