/**
 * The number checker: format defaulting, the integer/float classification
 * against `type` and `format`, then `maximum`, `minimum` and `multipleOf`.
 */
module NumberValidator {
  import opened Outcomes
  import opened JsonValues
  import opened Results
  import opened Configuration
  import opened PushErrors

  /** 1.5E-45 and 3.4E38, the bounds of the float class. */
  const FloatTiny: real := 0.0000000000000000000000000000000000000000000015
  const FloatHuge: real := 340000000000000000000000000000000000000.0

  /**
   * A missing format becomes `int64` for `integer` and `double` for
   * `number`; the checker writes it into the schema.
   */
  function DefaultFormat(schema: Json): (r: Json)
    ensures Truthy(Get(schema, "format")) ==> r == schema
    ensures forall k :: k != "format" ==> Get(r, k) == Get(schema, k)
    ensures schema.JObj? && Get(schema, "type") == JStr("integer") ==> Truthy(Get(r, "format"))
    ensures schema.JObj? && Get(schema, "type") == JStr("number") ==> Truthy(Get(r, "format"))
    ensures !Truthy(Get(schema, "format")) && Get(schema, "type") == JStr("integer") && schema.JObj?
            ==> Get(r, "format") == JStr("int64")
    ensures !Truthy(Get(schema, "format")) && Get(schema, "type") == JStr("number") && schema.JObj?
            ==> Get(r, "format") == JStr("double")
  {
    if Truthy(Get(schema, "format")) then schema
    else if Get(schema, "type") == JStr("integer") then Set(schema, "format", JStr("int64"))
    else if Get(schema, "type") == JStr("number") then Set(schema, "format", JStr("double"))
    else schema
  }

  /** Defaulting twice is defaulting once. */
  lemma DefaultFormatIdempotent(schema: Json)
    ensures DefaultFormat(DefaultFormat(schema)) == DefaultFormat(schema)
  {
    var once := DefaultFormat(schema);
    if !Truthy(Get(schema, "format")) && schema.JObj?
       && (Get(schema, "type") == JStr("integer") || Get(schema, "type") == JStr("number")) {
      assert Truthy(Get(once, "format"));
    }
  }

  /** `test === parseInt(test + '', 10)`: an integral number printed without an exponent. */
  predicate IsInteger(test: Json) {
    test.JNum? && test.n.Floor as real == test.n
    && -1000000000000000000000.0 < test.n < 1000000000000000000000.0
  }

  /** Inside the signed 32-bit range. */
  predicate InInt32(n: real) {
    -2147483649.0 < n < 2147483648.0
  }

  /** Zero, or a magnitude strictly between 1.5E-45 and 3.4E38; NaN is not. */
  predicate IsFloatClass(test: Json) {
    test.JNum? &&
    (test.n == 0.0
     || (test.n > 0.0 && FloatTiny < test.n < FloatHuge)
     || (test.n < 0.0 && test.n < -FloatTiny && test.n > -FloatHuge))
  }

  function FloatName(test: Json): string {
    if IsFloatClass(test) then "number<float>" else "number<double>"
  }

  /** The number a relational comparison or `%` sees; `None` stands for NaN. */
  function NumberValue(env: Env, j: Json): Option<real> {
    ToNumber(j, env.numberFormat, env.numberParse)
  }

  predicate Greater(env: Env, a: Json, b: Json) {
    NumberValue(env, a).Some? && NumberValue(env, b).Some? && NumberValue(env, a).value > NumberValue(env, b).value
  }

  predicate AtLeast(env: Env, a: Json, b: Json) {
    NumberValue(env, a).Some? && NumberValue(env, b).Some? && NumberValue(env, a).value >= NumberValue(env, b).value
  }

  /** `maximum` is set and the value is above it, or at it when exclusive. */
  predicate ExceedsMaximum(env: Env, test: Json, schema: Json) {
    var max := Get(schema, "maximum");
    max != JUndefined
    && (if Truthy(Get(schema, "exclusiveMaximum")) then AtLeast(env, test, max) else Greater(env, test, max))
  }

  /** `minimum` is set and the value is below it, or at it when exclusive. */
  predicate BelowMinimum(env: Env, test: Json, schema: Json) {
    var min := Get(schema, "minimum");
    min != JUndefined
    && (if Truthy(Get(schema, "exclusiveMinimum")) then AtLeast(env, min, test) else Greater(env, min, test))
  }

  /** `test % m === 0`: the quotient is a whole number. */
  predicate Divides(env: Env, m: Json, test: Json) {
    NumberValue(env, m).Some? && NumberValue(env, test).Some? && NumberValue(env, m).value != 0.0
    && var q := NumberValue(env, test).value / NumberValue(env, m).value; q.Floor as real == q
  }

  /** `multipleOf` is set and does not divide the value. */
  predicate MissesMultiple(env: Env, test: Json, schema: Json) {
    Truthy(Get(schema, "multipleOf")) && !Divides(env, Get(schema, "multipleOf"), test)
  }

  function Int32Error(trace: Trace): ValidationError {
    TypeMismatch(trace, "integer<signed_int64>", "integer<signed_int32>")
  }

  function IntegerError(test: Json, schema: Json, trace: Trace, fmt: NumberFormat): ValidationError {
    TypeMismatch(trace, FloatName(test), "integer<" + ToString(Get(schema, "format"), fmt) + ">")
  }

  function FloatError(test: Json, schema: Json, trace: Trace, fmt: NumberFormat): ValidationError {
    TypeMismatch(trace, FloatName(test), "number<" + ToString(Get(schema, "format"), fmt) + ">")
  }

  function MaximumError(schema: Json, trace: Trace): ValidationError {
    ConstraintsViolation(trace, Maximum, Get(schema, "maximum"))
  }

  function MinimumError(schema: Json, trace: Trace): ValidationError {
    ConstraintsViolation(trace, Minimum, Get(schema, "minimum"))
  }

  function MultipleOfError(schema: Json, trace: Trace): ValidationError {
    ConstraintsViolation(trace, MultipleOf, Get(schema, "multipleOf"))
  }

  /** The type part of the checker, on the defaulted schema. */
  function TypeErrors(ctx: Context, test: Json, schema: Json, trace: Trace): (r: seq<ValidationError>)
    ensures forall e :: e in r ==> e.TypeMismatch? && e.trace == trace
  {
    if IsInteger(test) then
      Pushed(ctx, !InInt32(test.n) && Get(schema, "format") == JStr("int32"), Int32Error(trace), test, schema)
    else
      var fmt := ctx.env.numberFormat;
      Pushed(ctx, Get(schema, "type") == JStr("integer"), IntegerError(test, schema, trace, fmt), test, schema)
      + Pushed(ctx, !IsFloatClass(test) && Get(schema, "format") == JStr("float"), FloatError(test, schema, trace, fmt), test, schema)
  }

  /** The constraint part of the checker, on the defaulted schema. */
  function ConstraintErrors(ctx: Context, test: Json, schema: Json, trace: Trace): (r: seq<ValidationError>)
    ensures forall e :: e in r ==> e.ConstraintsViolation? && e.trace == trace
  {
    Pushed(ctx, ExceedsMaximum(ctx.env, test, schema), MaximumError(schema, trace), test, schema)
    + Pushed(ctx, BelowMinimum(ctx.env, test, schema), MinimumError(schema, trace), test, schema)
    + Pushed(ctx, MissesMultiple(ctx.env, test, schema), MultipleOfError(schema, trace), test, schema)
  }

  /**
   * `validateNumber(test, schema, spec, config, trace)`: the errors, and the
   * schema as the checker leaves it, with its format defaulted.
   */
  function ValidateNumber(ctx: Context, test: Json, schema: Json, trace: Trace): (r: (seq<ValidationError>, Json))
    ensures r.1 == DefaultFormat(schema)
    ensures forall e :: e in r.0 ==> e.trace == trace && (e.TypeMismatch? || e.ConstraintsViolation?)
  {
    var defaulted := DefaultFormat(schema);
    (TypeErrors(ctx, test, defaulted, trace) + ConstraintErrors(ctx, test, defaulted, trace), defaulted)
  }

  /**
   * Each type error is reported exactly when its condition holds on the
   * defaulted schema and the ignore hook keeps it.
   */
  lemma NumberTypeErrors(ctx: Context, test: Json, schema: Json, trace: Trace)
    ensures var (errors, s) := ValidateNumber(ctx, test, schema, trace);
      var fmt := ctx.env.numberFormat;
      (Int32Error(trace) in errors <==>
         IsInteger(test) && !InInt32(test.n) && Get(s, "format") == JStr("int32")
         && !Ignored(ctx, Int32Error(trace), test, s))
      && (IntegerError(test, s, trace, fmt) in errors <==>
         !IsInteger(test) && Get(s, "type") == JStr("integer")
         && !Ignored(ctx, IntegerError(test, s, trace, fmt), test, s))
      && (FloatError(test, s, trace, fmt) in errors <==>
         !IsInteger(test) && !IsFloatClass(test) && Get(s, "format") == JStr("float")
         && !Ignored(ctx, FloatError(test, s, trace, fmt), test, s))
  {
    var s := DefaultFormat(schema);
    var types, constraints := TypeErrors(ctx, test, s, trace), ConstraintErrors(ctx, test, s, trace);
    TypeErrorsFacts(ctx, test, s, trace);
    assert ValidateNumber(ctx, test, schema, trace).0 == types + constraints;
    assert forall e :: e in types + constraints <==> e in types || e in constraints;
  }

  /**
   * Each constraint error is reported exactly when its condition holds on
   * the defaulted schema and the ignore hook keeps it.
   */
  lemma NumberConstraintErrors(ctx: Context, test: Json, schema: Json, trace: Trace)
    ensures var (errors, s) := ValidateNumber(ctx, test, schema, trace);
      (MaximumError(s, trace) in errors <==> ExceedsMaximum(ctx.env, test, s) && !Ignored(ctx, MaximumError(s, trace), test, s))
      && (MinimumError(s, trace) in errors <==> BelowMinimum(ctx.env, test, s) && !Ignored(ctx, MinimumError(s, trace), test, s))
      && (MultipleOfError(s, trace) in errors <==> MissesMultiple(ctx.env, test, s) && !Ignored(ctx, MultipleOfError(s, trace), test, s))
  {
    var s := DefaultFormat(schema);
    var types, constraints := TypeErrors(ctx, test, s, trace), ConstraintErrors(ctx, test, s, trace);
    ConstraintErrorsFacts(ctx, test, s, trace);
    assert ValidateNumber(ctx, test, schema, trace).0 == types + constraints;
    assert forall e :: e in types + constraints <==> e in types || e in constraints;
    assert forall e :: e in types ==> e.TypeMismatch?;
  }

  /** Every error is one of the six the checker knows. */
  lemma NumberErrorKinds(ctx: Context, test: Json, schema: Json, trace: Trace)
    ensures var (errors, s) := ValidateNumber(ctx, test, schema, trace);
      var fmt := ctx.env.numberFormat;
      forall e :: e in errors ==>
        e == Int32Error(trace) || e == IntegerError(test, s, trace, fmt) || e == FloatError(test, s, trace, fmt)
        || e == MaximumError(s, trace) || e == MinimumError(s, trace) || e == MultipleOfError(s, trace)
  {
    var s := DefaultFormat(schema);
    var types, constraints := TypeErrors(ctx, test, s, trace), ConstraintErrors(ctx, test, s, trace);
    TypeErrorKinds(ctx, test, s, trace);
    ConstraintErrorsFacts(ctx, test, s, trace);
    assert ValidateNumber(ctx, test, schema, trace).0 == types + constraints;
    assert forall e :: e in types + constraints <==> e in types || e in constraints;
  }

  lemma TypeErrorsFacts(ctx: Context, test: Json, s: Json, trace: Trace)
    ensures var errors, fmt := TypeErrors(ctx, test, s, trace), ctx.env.numberFormat;
      (Int32Error(trace) in errors <==>
         IsInteger(test) && !InInt32(test.n) && Get(s, "format") == JStr("int32")
         && !Ignored(ctx, Int32Error(trace), test, s))
      && (IntegerError(test, s, trace, fmt) in errors <==>
         !IsInteger(test) && Get(s, "type") == JStr("integer")
         && !Ignored(ctx, IntegerError(test, s, trace, fmt), test, s))
      && (FloatError(test, s, trace, fmt) in errors <==>
         !IsInteger(test) && !IsFloatClass(test) && Get(s, "format") == JStr("float")
         && !Ignored(ctx, FloatError(test, s, trace, fmt), test, s))
  {
    var fmt := ctx.env.numberFormat;
    var int32, integer, float := Int32Error(trace), IntegerError(test, s, trace, fmt), FloatError(test, s, trace, fmt);
    TypeErrorsDiffer(test, s, trace, fmt);
    if IsInteger(test) {
      assert TypeErrors(ctx, test, s, trace)
          == Pushed(ctx, !InInt32(test.n) && Get(s, "format") == JStr("int32"), int32, test, s);
    } else {
      var a := Pushed(ctx, Get(s, "type") == JStr("integer"), integer, test, s);
      var b := Pushed(ctx, !IsFloatClass(test) && Get(s, "format") == JStr("float"), float, test, s);
      assert TypeErrors(ctx, test, s, trace) == a + b;
    }
  }

  /** The three type errors are told apart by their type names. */
  lemma TypeErrorsDiffer(test: Json, s: Json, trace: Trace, fmt: NumberFormat)
    ensures Int32Error(trace) != IntegerError(test, s, trace, fmt)
    ensures Int32Error(trace) != FloatError(test, s, trace, fmt)
    ensures IntegerError(test, s, trace, fmt) != FloatError(test, s, trace, fmt)
  {
    var shown := ToString(Get(s, "format"), fmt);
    assert ("integer<" + shown + ">")[0] == 'i' && ("number<" + shown + ">")[0] == 'n';
    assert "integer<signed_int64>"[0] == 'i' && FloatName(test)[0] == 'n';
  }

  lemma TypeErrorKinds(ctx: Context, test: Json, s: Json, trace: Trace)
    ensures var errors, fmt := TypeErrors(ctx, test, s, trace), ctx.env.numberFormat;
      forall e :: e in errors ==>
        e == Int32Error(trace) || e == IntegerError(test, s, trace, fmt) || e == FloatError(test, s, trace, fmt)
  {
    var fmt := ctx.env.numberFormat;
    if !IsInteger(test) {
      var a := Pushed(ctx, Get(s, "type") == JStr("integer"), IntegerError(test, s, trace, fmt), test, s);
      var b := Pushed(ctx, !IsFloatClass(test) && Get(s, "format") == JStr("float"), FloatError(test, s, trace, fmt), test, s);
      assert TypeErrors(ctx, test, s, trace) == a + b;
    }
  }

  lemma ConstraintErrorsFacts(ctx: Context, test: Json, s: Json, trace: Trace)
    ensures var errors := ConstraintErrors(ctx, test, s, trace);
      (MaximumError(s, trace) in errors <==> ExceedsMaximum(ctx.env, test, s) && !Ignored(ctx, MaximumError(s, trace), test, s))
      && (MinimumError(s, trace) in errors <==> BelowMinimum(ctx.env, test, s) && !Ignored(ctx, MinimumError(s, trace), test, s))
      && (MultipleOfError(s, trace) in errors <==> MissesMultiple(ctx.env, test, s) && !Ignored(ctx, MultipleOfError(s, trace), test, s))
      && (forall e :: e in errors ==> e == MaximumError(s, trace) || e == MinimumError(s, trace) || e == MultipleOfError(s, trace))
  {
    var max := Pushed(ctx, ExceedsMaximum(ctx.env, test, s), MaximumError(s, trace), test, s);
    var min := Pushed(ctx, BelowMinimum(ctx.env, test, s), MinimumError(s, trace), test, s);
    var mul := Pushed(ctx, MissesMultiple(ctx.env, test, s), MultipleOfError(s, trace), test, s);
    assert ConstraintErrors(ctx, test, s, trace) == max + min + mul;
    OneOfThree(max, min, mul, MaximumError(s, trace), MinimumError(s, trace), MultipleOfError(s, trace));
  }

  /** Three optional errors, pairwise different: each is in the concatenation exactly when its own part holds it. */
  lemma OneOfThree(a: seq<ValidationError>, b: seq<ValidationError>, c: seq<ValidationError>,
                   x: ValidationError, y: ValidationError, z: ValidationError)
    requires a == [] || a == [x]
    requires b == [] || b == [y]
    requires c == [] || c == [z]
    requires x != y && x != z && y != z
    ensures x in a + b + c <==> a == [x]
    ensures y in a + b + c <==> b == [y]
    ensures z in a + b + c <==> c == [z]
    ensures forall e :: e in a + b + c ==> e == x || e == y || e == z
  {
  }

  /** On a schema that defaults to itself, the errors are the type part followed by the constraint part. */
  lemma ErrorsOnDefaulted(ctx: Context, test: Json, schema: Json, trace: Trace)
    requires Truthy(Get(schema, "format"))
    ensures ValidateNumber(ctx, test, schema, trace).0
         == TypeErrors(ctx, test, schema, trace) + ConstraintErrors(ctx, test, schema, trace)
  {
  }

  /** Without `maximum`, `minimum` and `multipleOf` there is no constraint error. */
  lemma NoConstraints(ctx: Context, test: Json, schema: Json, trace: Trace)
    requires Get(schema, "maximum") == JUndefined && Get(schema, "minimum") == JUndefined
    requires Get(schema, "multipleOf") == JUndefined
    ensures ConstraintErrors(ctx, test, schema, trace) == []
  {
    assert ConstraintErrors(ctx, test, schema, trace) == [] + [] + [];
  }

  /** An integral value inside `int32` has no type error on an integer schema. */
  lemma NoIntegerTypeError(ctx: Context, test: Json, schema: Json, trace: Trace)
    requires IsInteger(test) && InInt32(test.n)
    ensures TypeErrors(ctx, test, schema, trace) == []
  {
  }

  /** 2147483648 is outside `int32`. */
  lemma Int32Overflow(ctx: Context)
    requires ctx.config.ignoreError.None?
    ensures var schema := JObj([("type", JStr("integer")), ("format", JStr("int32"))]);
      ValidateNumber(ctx, JNum(2147483648.0), schema, []).0 == [Int32Error([])]
  {
    var schema := JObj([("type", JStr("integer")), ("format", JStr("int32"))]);
    var test := JNum(2147483648.0);
    assert Get(schema, "format") == JStr("int32");
    ErrorsOnDefaulted(ctx, test, schema, []);
    assert ConstraintErrors(ctx, test, schema, []) == [] by {
      assert Get(schema, "maximum") == JUndefined && Get(schema, "minimum") == JUndefined;
      assert Get(schema, "multipleOf") == JUndefined;
      NoConstraints(ctx, test, schema, []);
    }
    assert TypeErrors(ctx, test, schema, []) == [Int32Error([])] by {
      assert IsInteger(test) by { assert (2147483648.0).Floor == 2147483648; }
      assert !InInt32(test.n);
    }
  }

  /** 12.3 against an `integer` schema is a float that should be an `int64`. */
  lemma FractionForInteger(ctx: Context)
    requires ctx.config.ignoreError.None?
    ensures var schema := JObj([("type", JStr("integer"))]);
      ValidateNumber(ctx, JNum(12.3), schema, []).0 == [TypeMismatch([], "number<float>", "integer<int64>")]
  {
    var schema := JObj([("type", JStr("integer"))]);
    var test := JNum(12.3);
    var s := JObj([("type", JStr("integer")), ("format", JStr("int64"))]);
    assert DefaultFormat(schema) == s by {
      assert Get(schema, "format") == JUndefined && Get(schema, "type") == JStr("integer");
    }
    var e := TypeMismatch([], "number<float>", "integer<int64>");
    assert TypeErrors(ctx, test, s, []) == [e] by {
      assert Get(s, "format") == JStr("int64") && Get(s, "type") == JStr("integer");
      assert !IsInteger(test) by { assert (12.3).Floor == 12; }
      assert IsFloatClass(test);
      assert IntegerError(test, s, [], ctx.env.numberFormat) == e;
      assert TypeErrors(ctx, test, s, []) == [e] + [];
    }
    assert ConstraintErrors(ctx, test, s, []) == [] by {
      assert Get(s, "maximum") == JUndefined && Get(s, "minimum") == JUndefined;
      assert Get(s, "multipleOf") == JUndefined;
      NoConstraints(ctx, test, s, []);
    }
    assert ValidateNumber(ctx, test, schema, []).0 == [e] + [];
  }

  /** The errors under a schema whose only constraint is `maximum`, for an integral value in range. */
  lemma OnlyMaximum(ctx: Context, test: Json, schema: Json)
    requires ctx.config.ignoreError.None?
    requires IsInteger(test) && InInt32(test.n) && Truthy(Get(schema, "format"))
    requires Get(schema, "minimum") == JUndefined && Get(schema, "multipleOf") == JUndefined
    ensures ExceedsMaximum(ctx.env, test, schema) ==> ValidateNumber(ctx, test, schema, []).0 == [MaximumError(schema, [])]
    ensures !ExceedsMaximum(ctx.env, test, schema) ==> ValidateNumber(ctx, test, schema, []).0 == []
  {
    ErrorsOnDefaulted(ctx, test, schema, []);
    NoIntegerTypeError(ctx, test, schema, []);
    assert ConstraintErrors(ctx, test, schema, [])
        == Pushed(ctx, ExceedsMaximum(ctx.env, test, schema), MaximumError(schema, []), test, schema) + [] + [];
  }

  /** With `maximum: 300`, 300 passes. */
  lemma MaximumAllows(ctx: Context, schema: Json)
    requires ctx.config.ignoreError.None?
    requires schema == JObj([("type", JStr("number")), ("format", JStr("double")), ("maximum", JNum(300.0))])
    ensures ValidateNumber(ctx, JNum(300.0), schema, []).0 == []
  {
    assert Get(schema, "format") == JStr("double");
    assert Get(schema, "maximum") == JNum(300.0);
    assert Get(schema, "minimum") == JUndefined && Get(schema, "multipleOf") == JUndefined;
    assert IsInteger(JNum(300.0)) by { assert (300.0).Floor == 300; }
    assert !ExceedsMaximum(ctx.env, JNum(300.0), schema) by {
      assert Get(schema, "exclusiveMaximum") == JUndefined;
      assert NumberValue(ctx.env, JNum(300.0)) == Some(300.0);
    }
    OnlyMaximum(ctx, JNum(300.0), schema);
  }

  /** With `maximum: 300`, 301 fails with the schema's bound. */
  lemma MaximumRejects(ctx: Context, schema: Json)
    requires ctx.config.ignoreError.None?
    requires schema == JObj([("type", JStr("number")), ("format", JStr("double")), ("maximum", JNum(300.0))])
    ensures ValidateNumber(ctx, JNum(301.0), schema, []).0 == [ConstraintsViolation([], Maximum, JNum(300.0))]
  {
    assert Get(schema, "format") == JStr("double");
    assert Get(schema, "maximum") == JNum(300.0) && Get(schema, "exclusiveMaximum") == JUndefined;
    assert Get(schema, "minimum") == JUndefined && Get(schema, "multipleOf") == JUndefined;
    assert IsInteger(JNum(301.0)) by { assert (301.0).Floor == 301; }
    assert ExceedsMaximum(ctx.env, JNum(301.0), schema);
    assert MaximumError(schema, []) == ConstraintsViolation([], Maximum, JNum(300.0));
    OnlyMaximum(ctx, JNum(301.0), schema);
  }

  /** The errors under a schema whose only constraint is `multipleOf`, for an integral value in range. */
  lemma OnlyMultipleOf(ctx: Context, test: Json, schema: Json)
    requires ctx.config.ignoreError.None?
    requires IsInteger(test) && InInt32(test.n) && Truthy(Get(schema, "format"))
    requires Get(schema, "maximum") == JUndefined && Get(schema, "minimum") == JUndefined
    ensures MissesMultiple(ctx.env, test, schema) ==> ValidateNumber(ctx, test, schema, []).0 == [MultipleOfError(schema, [])]
    ensures !MissesMultiple(ctx.env, test, schema) ==> ValidateNumber(ctx, test, schema, []).0 == []
  {
    ErrorsOnDefaulted(ctx, test, schema, []);
    NoIntegerTypeError(ctx, test, schema, []);
    assert ConstraintErrors(ctx, test, schema, [])
        == [] + [] + Pushed(ctx, MissesMultiple(ctx.env, test, schema), MultipleOfError(schema, []), test, schema);
  }

  /** With `multipleOf: 32`, 64 passes and 123 fails. */
  lemma MultipleOfExamples(ctx: Context)
    requires ctx.config.ignoreError.None?
    ensures var schema := JObj([("type", JStr("integer")), ("format", JStr("int64")), ("multipleOf", JNum(32.0))]);
      ValidateNumber(ctx, JNum(64.0), schema, []).0 == []
      && ValidateNumber(ctx, JNum(123.0), schema, []).0 == [ConstraintsViolation([], MultipleOf, JNum(32.0))]
  {
    var schema := JObj([("type", JStr("integer")), ("format", JStr("int64")), ("multipleOf", JNum(32.0))]);
    assert Get(schema, "format") == JStr("int64") && Get(schema, "multipleOf") == JNum(32.0);
    assert Get(schema, "maximum") == JUndefined && Get(schema, "minimum") == JUndefined;
    assert IsInteger(JNum(64.0)) by { assert (64.0).Floor == 64; }
    assert IsInteger(JNum(123.0)) by { assert (123.0).Floor == 123; }
    assert Divides(ctx.env, JNum(32.0), JNum(64.0)) by { assert 64.0 / 32.0 == 2.0; }
    assert !Divides(ctx.env, JNum(32.0), JNum(123.0)) by { assert (123.0 / 32.0).Floor == 3; }
    assert MultipleOfError(schema, []) == ConstraintsViolation([], MultipleOf, JNum(32.0));
    OnlyMultipleOf(ctx, JNum(64.0), schema);
    OnlyMultipleOf(ctx, JNum(123.0), schema);
  }
  /** A bound written as text is converted: `301 > "300"` holds, so 301 fails. */
  lemma TextMaximumRejects(ctx: Context, schema: Json)
    requires ctx.config.ignoreError.None? && ctx.env.numberParse("300") == Some(300.0)
    requires schema == JObj([("type", JStr("number")), ("format", JStr("double")), ("maximum", JStr("300"))])
    ensures ValidateNumber(ctx, JNum(301.0), schema, []).0 == [ConstraintsViolation([], Maximum, JStr("300"))]
  {
    assert Get(schema, "format") == JStr("double");
    assert Get(schema, "maximum") == JStr("300") && Get(schema, "exclusiveMaximum") == JUndefined;
    assert Get(schema, "minimum") == JUndefined && Get(schema, "multipleOf") == JUndefined;
    assert IsInteger(JNum(301.0)) by { assert (301.0).Floor == 301; }
    assert ExceedsMaximum(ctx.env, JNum(301.0), schema);
    assert MaximumError(schema, []) == ConstraintsViolation([], Maximum, JStr("300"));
    OnlyMaximum(ctx, JNum(301.0), schema);
  }

  /** A divisor written as text is converted: `64 % "32"` is 0, so 64 passes. */
  lemma TextMultipleOfAllows(ctx: Context, schema: Json)
    requires ctx.config.ignoreError.None? && ctx.env.numberParse("32") == Some(32.0)
    requires schema == JObj([("type", JStr("integer")), ("format", JStr("int64")), ("multipleOf", JStr("32"))])
    ensures ValidateNumber(ctx, JNum(64.0), schema, []).0 == []
  {
    assert Get(schema, "format") == JStr("int64") && Get(schema, "multipleOf") == JStr("32");
    assert Get(schema, "maximum") == JUndefined && Get(schema, "minimum") == JUndefined;
    assert IsInteger(JNum(64.0)) by { assert (64.0).Floor == 64; }
    assert Divides(ctx.env, JStr("32"), JNum(64.0)) by { assert 64.0 / 32.0 == 2.0; }
    OnlyMultipleOf(ctx, JNum(64.0), schema);
  }
}
