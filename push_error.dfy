/**
 * The single error channel: an error is appended unless the `ignoreError`
 * hook asks for it to be dropped.
 */
module PushErrors {
  import opened Outcomes
  import opened JsonValues
  import opened Results
  import opened Configuration

  /** The configured hook, called with the error, the value, the schema and the spec, drops the error. */
  predicate Ignored(ctx: Context, e: ValidationError, value: Json, schema: Json) {
    ctx.config.ignoreError.Some? && ctx.config.ignoreError.value(e, value, schema, ctx.spec)
  }

  /** `pushError(error, errors, value, schema, spec, config)` on a list value. */
  function PushError(ctx: Context, e: ValidationError, errors: seq<ValidationError>, value: Json, schema: Json)
    : (r: seq<ValidationError>)
    ensures Ignored(ctx, e, value, schema) ==> r == errors
    ensures !Ignored(ctx, e, value, schema) ==> r == errors + [e]
    ensures |r| <= |errors| + 1 && r[..|errors|] == errors
  {
    if Ignored(ctx, e, value, schema) then errors else errors + [e]
  }

  /** The errors a guarded `pushError` onto an empty list leaves: `e` when `cond` holds and the hook keeps it. */
  function Pushed(ctx: Context, cond: bool, e: ValidationError, value: Json, schema: Json): (r: seq<ValidationError>)
    ensures r == [] || r == [e]
    ensures r == [e] <==> cond && !Ignored(ctx, e, value, schema)
  {
    if cond then PushError(ctx, e, [], value, schema) else []
  }

  /** A caller's error array, appended to in place. */
  class ErrorList {
    var errors: seq<ValidationError>

    constructor ()
      ensures errors == []
    {
      errors := [];
    }

    method Push(ctx: Context, e: ValidationError, value: Json, schema: Json)
      modifies this
      ensures errors == PushError(ctx, e, old(errors), value, schema)
    {
      if ctx.config.ignoreError.Some? {
        if ctx.config.ignoreError.value(e, value, schema, ctx.spec) {
          return;
        }
      }
      errors := errors + [e];
    }

    /** A guarded push: `if (cond) pushError(e, …)`. */
    method PushIf(ctx: Context, cond: bool, e: ValidationError, value: Json, schema: Json)
      modifies this
      ensures errors == old(errors) + Pushed(ctx, cond, e, value, schema)
    {
      if cond {
        Push(ctx, e, value, schema);
      }
    }
  }
}
