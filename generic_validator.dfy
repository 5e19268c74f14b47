/**
 * The coarse type check run when a schema has no `enum`: the value's kind
 * name against the schema's declared type.
 */
module GenericValidator {
  import opened Outcomes
  import opened JsonValues
  import opened TypeNames
  import opened Results
  import opened Configuration
  import opened PushErrors

  /** A schema with `additionalProperties`, `properties` or type `object` describes an object. */
  predicate IsObjectShaped(schema: Json) {
    Truthy(Get(schema, "additionalProperties")) || Truthy(Get(schema, "properties"))
    || Get(schema, "type") == JStr("object")
  }

  /** A value that is `null`, for a schema marked `x-nullable: true`, with nullable values allowed. */
  predicate NullAllowed(config: Config, typeIs: string, schema: Json) {
    config.allowXNullable && typeIs == "null" && Get(schema, "x-nullable") == JBool(true)
  }

  /** `typeShouldBe` after the `integer` and `x-nullable` adjustments; `None` for a schema without type. */
  function ExpectedType(config: Config, typeIs: string, schema: Json): (r: Option<Json>)
    ensures r.None? <==> !IsObjectShaped(schema) && !Truthy(Get(schema, "type"))
    ensures r.Some? && NullAllowed(config, typeIs, schema) ==> r.value == JStr("null")
    ensures r.Some? && !NullAllowed(config, typeIs, schema) && IsObjectShaped(schema) ==> r.value == JStr("object")
    ensures r.Some? ==> r.value != JStr("integer")
  {
    var declared :=
      if IsObjectShaped(schema) then Some(JStr("object"))
      else if Truthy(Get(schema, "type")) then Some(Get(schema, "type"))
      else None;
    match declared
    case None => None
    case Some(t) =>
      var normalised := if t == JStr("integer") then JStr("number") else t;
      Some(if NullAllowed(config, typeIs, schema) then JStr("null") else normalised)
  }

  /**
   * Which kinds a schema accepts, stated on its own: an object-shaped schema
   * takes objects, any other takes its declared type name, `integer` taking
   * numbers, and an allowed `null` is always taken.
   */
  predicate Accepts(config: Config, schema: Json, kind: string) {
    NullAllowed(config, kind, schema)
    || (IsObjectShaped(schema) && kind == "object")
    || (!IsObjectShaped(schema)
        && (Get(schema, "type") == JStr(kind) || (kind == "number" && Get(schema, "type") == JStr("integer"))))
  }

  /** The type-mismatch error the check would report for this value and schema. */
  function MismatchError(ctx: Context, test: Json, schema: Json, trace: Trace): ValidationError
    requires ExpectedType(ctx.config, GetTypeName(test), schema).Some?
  {
    TypeMismatch(trace, GetTypeName(test),
                 ToString(ExpectedType(ctx.config, GetTypeName(test), schema).value, ctx.env.numberFormat))
  }

  /**
   * `validateType(test, schema, spec, config, trace)`. A schema with no type
   * rejects the call; otherwise at most one TYPE_MISMATCH, with the node's
   * trace, reported exactly when the schema does not accept the value's kind
   * and the ignore hook keeps it.
   */
  function ValidateType(ctx: Context, test: Json, schema: Json, trace: Trace): (r: Outcome<seq<ValidationError>>)
    ensures r.Failure? <==> !IsObjectShaped(schema) && !Truthy(Get(schema, "type"))
    ensures r.Failure? ==> r.error == SchemaCorrupted(schema)
    ensures r.Ok? ==> r.value == [] || r.value == [MismatchError(ctx, test, schema, trace)]
    ensures r.Ok? ==> (r.value == [] <==>
                        Accepts(ctx.config, schema, GetTypeName(test))
                        || Ignored(ctx, MismatchError(ctx, test, schema, trace), test, schema))
  {
    var typeIs := GetTypeName(test);
    match ExpectedType(ctx.config, typeIs, schema)
    case None => Failure(SchemaCorrupted(schema))
    case Some(expected) =>
      Ok(Pushed(ctx, !StrictEquals(JStr(typeIs), expected),
                TypeMismatch(trace, typeIs, ToString(expected, ctx.env.numberFormat)), test, schema))
  }

  /** A string where an integer is declared is reported as a string that should be a number. */
  lemma StringForInteger(ctx: Context)
    requires ctx.config.ignoreError.None?
    ensures var trace := [Step("Pet"), Step("id")];
      ValidateType(ctx, JStr("Not a number"), JObj([("type", JStr("integer")), ("format", JStr("int64"))]), trace)
      == Ok([TypeMismatch(trace, "string", "number")])
  {
    var schema := JObj([("type", JStr("integer")), ("format", JStr("int64"))]);
    assert Get(schema, "type") == JStr("integer");
    assert Get(schema, "x-nullable") == JUndefined;
    assert !Truthy(Get(schema, "properties")) && !Truthy(Get(schema, "additionalProperties"));
  }

  /** Any number passes an `integer` type check; fractions are the number checker's concern. */
  lemma NumberForInteger(ctx: Context, n: real)
    ensures ValidateType(ctx, JNum(n), JObj([("type", JStr("integer"))]), []) == Ok([])
  {
    var schema := JObj([("type", JStr("integer"))]);
    assert Get(schema, "type") == JStr("integer");
    assert !Truthy(Get(schema, "properties")) && !Truthy(Get(schema, "additionalProperties"));
  }
}
