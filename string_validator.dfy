/**
 * The string checker: `minLength`, `maxLength` and `pattern`, three
 * independent checks reported in that order.
 */
module StringValidator {
  import opened Outcomes
  import opened Text
  import opened JsonValues
  import opened Results
  import opened Configuration
  import opened PushErrors

  /** `bound && length < bound`, the bound converted to a number. */
  predicate Below(env: Env, length: nat, bound: Json) {
    Truthy(bound)
    && var b := ToNumber(bound, env.numberFormat, env.numberParse); b.Some? && (length as real) < b.value
  }

  /** `bound && length > bound`, the bound converted to a number. */
  predicate Above(env: Env, length: nat, bound: Json) {
    Truthy(bound)
    && var b := ToNumber(bound, env.numberFormat, env.numberParse); b.Some? && (length as real) > b.value
  }

  /** A pattern written between slashes, `/…/`, as `charAt` sees its ends. */
  predicate Delimited(pattern: string) {
    |pattern| >= 1 && pattern[0] == '/' && pattern[|pattern| - 1] == '/'
  }

  /** The pattern with its delimiting slashes removed; a lone `/` leaves nothing. */
  function StripDelimiters(pattern: string): (r: string)
    ensures !Delimited(pattern) ==> r == pattern
    ensures Delimited(pattern) && |pattern| >= 2 ==> "/" + r + "/" == pattern
    ensures |r| <= |pattern|
  {
    if Delimited(pattern) then
      if |pattern| >= 2 then
        assert pattern == [pattern[0]] + pattern[1..|pattern| - 1] + [pattern[|pattern| - 1]];
        pattern[1..|pattern| - 1]
      else ""
    else pattern
  }

  /** The position of a constraint in the checker's order. */
  function Rank(name: ConstraintName): nat {
    match name
    case MinLength => 0
    case MaxLength => 1
    case _ => 2
  }

  function MinError(schema: Json, trace: Trace): ValidationError {
    ConstraintsViolation(trace, MinLength, Get(schema, "minLength"))
  }

  function MaxError(schema: Json, trace: Trace): ValidationError {
    ConstraintsViolation(trace, MaxLength, Get(schema, "maxLength"))
  }

  function PatternError(schema: Json, trace: Trace): ValidationError {
    ConstraintsViolation(trace, Pattern, Get(schema, "pattern"))
  }

  /** Some error of the list names this constraint. */
  predicate Reports(errors: seq<ValidationError>, name: ConstraintName) {
    exists i :: 0 <= i < |errors| && errors[i].ConstraintsViolation? && errors[i].constraintName == name
  }

  /** The `minLength` part of the checker's result. */
  function MinPart(ctx: Context, test: string, schema: Json, trace: Trace): seq<ValidationError> {
    Pushed(ctx, Below(ctx.env, Utf16Length(test), Get(schema, "minLength")), MinError(schema, trace), JStr(test), schema)
  }

  /** The `maxLength` part of the checker's result. */
  function MaxPart(ctx: Context, test: string, schema: Json, trace: Trace): seq<ValidationError> {
    Pushed(ctx, Above(ctx.env, Utf16Length(test), Get(schema, "maxLength")), MaxError(schema, trace), JStr(test), schema)
  }

  /** The `pattern` part of the checker's result, when the pattern was tested at all. */
  function PatternPart(ctx: Context, test: string, schema: Json, trace: Trace): seq<ValidationError> {
    var pattern := Get(schema, "pattern");
    if Truthy(pattern) && pattern.JStr? && ctx.env.regexTest(StripDelimiters(pattern.s), test).Some? then
      Pushed(ctx, !ctx.env.regexTest(StripDelimiters(pattern.s), test).value, PatternError(schema, trace), JStr(test), schema)
    else []
  }

  /**
   * `validateString(test, schema, spec, config, trace)`. The length is in
   * UTF-16 code units. A truthy non-string pattern has no `charAt` and
   * throws; a pattern `RegExp` rejects throws.
   */
  function ValidateString(ctx: Context, test: string, schema: Json, trace: Trace): (r: Outcome<seq<ValidationError>>)
    ensures var p := Get(schema, "pattern");
      r.Failure? <==> Truthy(p) && (!p.JStr? || ctx.env.regexTest(StripDelimiters(p.s), test).None?)
    ensures r.Ok? ==> forall e :: e in r.value ==> e.trace == trace && e.ConstraintsViolation?
  {
    var pattern := Get(schema, "pattern");
    if Truthy(pattern) && !pattern.JStr? then Failure(TypeError)
    else if Truthy(pattern) && ctx.env.regexTest(StripDelimiters(pattern.s), test).None? then
      Failure(InvalidPattern(StripDelimiters(pattern.s)))
    else
      var min, max, pattern := MinPart(ctx, test, schema, trace), MaxPart(ctx, test, schema, trace), PatternPart(ctx, test, schema, trace);
      PartsAt(min, max, pattern, trace);
      Ok(min + max + pattern)
  }

  /** Errors of the three parts, each at most one constraint error at the node. */
  lemma PartsAt(min: seq<ValidationError>, max: seq<ValidationError>, pattern: seq<ValidationError>, trace: Trace)
    requires forall e :: e in min ==> e.trace == trace && e.ConstraintsViolation?
    requires forall e :: e in max ==> e.trace == trace && e.ConstraintsViolation?
    requires forall e :: e in pattern ==> e.trace == trace && e.ConstraintsViolation?
    ensures forall e :: e in min + max + pattern ==> e.trace == trace && e.ConstraintsViolation?
  {
    assert forall e :: e in min + max + pattern <==> e in min || e in max || e in pattern;
  }

  /**
   * Each constraint is reported at most once, with the node's trace and the
   * schema's own value, in the order minLength, maxLength, pattern.
   */
  lemma StringErrors(ctx: Context, test: string, schema: Json, trace: Trace)
    ensures var r := ValidateString(ctx, test, schema, trace);
      r.Ok? ==>
        |r.value| <= 3
        && (forall i :: 0 <= i < |r.value| ==>
              r.value[i] == MinError(schema, trace) || r.value[i] == MaxError(schema, trace)
              || r.value[i] == PatternError(schema, trace))
        && (forall i, j :: 0 <= i < j < |r.value| ==> Rank(r.value[i].constraintName) < Rank(r.value[j].constraintName))
  {
    InOrder(MinPart(ctx, test, schema, trace), MaxPart(ctx, test, schema, trace), PatternPart(ctx, test, schema, trace), schema, trace);
  }

  /**
   * Each constraint is reported exactly when it is violated and the ignore
   * hook keeps it; the pattern only when it was tested and did not match.
   */
  lemma StringReports(ctx: Context, test: string, schema: Json, trace: Trace)
    ensures var r := ValidateString(ctx, test, schema, trace);
      r.Ok? ==>
        (Reports(r.value, MinLength) <==>
              Below(ctx.env, Utf16Length(test), Get(schema, "minLength")) && !Ignored(ctx, MinError(schema, trace), JStr(test), schema))
        && (Reports(r.value, MaxLength) <==>
              Above(ctx.env, Utf16Length(test), Get(schema, "maxLength")) && !Ignored(ctx, MaxError(schema, trace), JStr(test), schema))
        && (Reports(r.value, Pattern) <==>
              Truthy(Get(schema, "pattern"))
              && ctx.env.regexTest(StripDelimiters(Get(schema, "pattern").s), test) == Some(false)
              && !Ignored(ctx, PatternError(schema, trace), JStr(test), schema))
  {
    var third := PatternPart(ctx, test, schema, trace);
    InReports(MinPart(ctx, test, schema, trace), MaxPart(ctx, test, schema, trace), third, schema, trace);
    var pattern := Get(schema, "pattern");
    if Truthy(pattern) && pattern.JStr? && ctx.env.regexTest(StripDelimiters(pattern.s), test).Some? {
    } else {
      assert third == [];
    }
  }

  /** Three optional errors, one per constraint, concatenated in checker order. */
  lemma InOrder(first: seq<ValidationError>, second: seq<ValidationError>, third: seq<ValidationError>, schema: Json, trace: Trace)
    requires first == [] || first == [MinError(schema, trace)]
    requires second == [] || second == [MaxError(schema, trace)]
    requires third == [] || third == [PatternError(schema, trace)]
    ensures var all := first + second + third;
      |all| <= 3
      && (forall i :: 0 <= i < |all| ==>
            all[i] == MinError(schema, trace) || all[i] == MaxError(schema, trace) || all[i] == PatternError(schema, trace))
      && (forall i, j :: 0 <= i < j < |all| ==> Rank(all[i].constraintName) < Rank(all[j].constraintName))
  {
    var all := first + second + third;
    var min, max, pattern := MinError(schema, trace), MaxError(schema, trace), PatternError(schema, trace);
    if first == [] {
      if second == [] {
        assert all == third;
      } else if third == [] {
        assert all == [max];
      } else {
        assert all == [max, pattern];
      }
    } else if second == [] {
      if third == [] {
        assert all == [min];
      } else {
        assert all == [min, pattern];
      }
    } else if third == [] {
      assert all == [min, max];
    } else {
      assert all == [min, max, pattern];
    }
  }

  /** In such a concatenation each constraint is reported exactly when its part is non-empty. */
  lemma InReports(first: seq<ValidationError>, second: seq<ValidationError>, third: seq<ValidationError>, schema: Json, trace: Trace)
    requires first == [] || first == [MinError(schema, trace)]
    requires second == [] || second == [MaxError(schema, trace)]
    requires third == [] || third == [PatternError(schema, trace)]
    ensures var all := first + second + third;
      (Reports(all, MinLength) <==> first != [])
      && (Reports(all, MaxLength) <==> second != [])
      && (Reports(all, Pattern) <==> third != [])
  {
    var all := first + second + third;
    assert forall i :: 0 <= i < |all| ==>
      (i < |first| ==> all[i] == first[i])
      && (|first| <= i < |first| + |second| ==> all[i] == second[i - |first|])
      && (|first| + |second| <= i ==> all[i] == third[i - |first| - |second|]);
    if first != [] { assert all[0] == MinError(schema, trace); }
    if second != [] { assert all[|first|] == MaxError(schema, trace); }
    if third != [] { assert all[|first| + |second|] == PatternError(schema, trace); }
  }

  /** A string of the allowed length passes. */
  lemma LengthAllows(ctx: Context, schema: Json)
    requires ctx.config.ignoreError.None?
    requires schema == JObj([("minLength", JNum(2.0)), ("maxLength", JNum(4.0))])
    ensures ValidateString(ctx, "abc", schema, []) == Ok([])
  {
    assert Get(schema, "minLength") == JNum(2.0) && Get(schema, "maxLength") == JNum(4.0);
    assert Get(schema, "pattern") == JUndefined;
    assert Utf16Length("abc") == 3;
    assert MinPart(ctx, "abc", schema, []) == [] && MaxPart(ctx, "abc", schema, []) == [];
    assert PatternPart(ctx, "abc", schema, []) == [];
    var none: seq<ValidationError> := [];
    assert none + none + none == none;
  }

  /** A string too long for `maxLength` fails that check only, showing the bound. */
  lemma LengthRejects(ctx: Context, schema: Json)
    requires ctx.config.ignoreError.None?
    requires schema == JObj([("minLength", JNum(2.0)), ("maxLength", JNum(4.0))])
    ensures ValidateString(ctx, "abcde", schema, []) == Ok([ConstraintsViolation([], MaxLength, JNum(4.0))])
  {
    assert Get(schema, "minLength") == JNum(2.0) && Get(schema, "maxLength") == JNum(4.0);
    assert Get(schema, "pattern") == JUndefined;
    assert Utf16Length("abcde") == 5;
    var max := MaxError(schema, []);
    assert MinPart(ctx, "abcde", schema, []) == [] && MaxPart(ctx, "abcde", schema, []) == [max];
    assert PatternPart(ctx, "abcde", schema, []) == [];
    assert max == ConstraintsViolation([], MaxLength, JNum(4.0));
    assert [] + [max] + [] == [max];
  }

  /** The slashes around a pattern are not part of what is matched; the error still shows them. */
  lemma DelimitedPattern(ctx: Context, schema: Json)
    requires ctx.config.ignoreError.None? && ctx.env.regexTest("^a+$", "b") == Some(false)
    requires schema == JObj([("pattern", JStr("/^a+$/"))])
    ensures ValidateString(ctx, "b", schema, []) == Ok([ConstraintsViolation([], Pattern, JStr("/^a+$/"))])
  {
    assert Get(schema, "pattern") == JStr("/^a+$/");
    assert Get(schema, "minLength") == JUndefined && Get(schema, "maxLength") == JUndefined;
    assert StripDelimiters("/^a+$/") == "^a+$";
    var e := PatternError(schema, []);
    assert MinPart(ctx, "b", schema, []) == [] && MaxPart(ctx, "b", schema, []) == [];
    assert PatternPart(ctx, "b", schema, []) == [e];
    assert [] + [] + [e] == [e];
  }
  /** A bound of `true` converts to 1, so the empty string is too short. */
  lemma TrueMinLength(ctx: Context, schema: Json)
    requires ctx.config.ignoreError.None?
    requires schema == JObj([("minLength", JBool(true))])
    ensures ValidateString(ctx, "", schema, []) == Ok([ConstraintsViolation([], MinLength, JBool(true))])
  {
    assert Get(schema, "minLength") == JBool(true);
    assert Get(schema, "maxLength") == JUndefined && Get(schema, "pattern") == JUndefined;
    assert Utf16Length("") == 0;
    var min := MinError(schema, []);
    assert MinPart(ctx, "", schema, []) == [min] && MaxPart(ctx, "", schema, []) == [];
    assert PatternPart(ctx, "", schema, []) == [];
    assert [min] + [] + [] == [min];
  }
}
