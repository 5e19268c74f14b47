/**
 * The array checker's parts that do not recurse into the elements: the
 * fatal non-array mismatch, the `minItems`/`maxItems` constraints and the
 * per-element validations with their traces. `uniqueItems` is only warned
 * about, so it never yields an error. Validating the elements themselves is
 * part of the mutually recursive engine in `ModelValidator`.
 */
module ArrayValidator {
  import opened Outcomes
  import opened JsonValues
  import opened Results
  import opened Configuration
  import opened PushErrors
  import opened StringValidator
  import opened ObjectValidator

  /** The fatal mismatch of a non-array: its `typeof` against `array`, never pushed. */
  function ArrayMismatch(test: Json, trace: Trace): (e: ValidationError)
    ensures e.TypeMismatch? && e.trace == trace && e.typeShouldBe == "array" && e.typeIs == TypeOf(test)
  {
    TypeMismatch(trace, TypeOf(test), "array")
  }

  function MinItemsError(schema: Json, trace: Trace): ValidationError {
    ConstraintsViolation(trace, MinItems, Get(schema, "minItems"))
  }

  function MaxItemsError(schema: Json, trace: Trace): ValidationError {
    ConstraintsViolation(trace, MaxItems, Get(schema, "maxItems"))
  }

  /** The count constraints, `minItems` first, each through the error channel. */
  function ItemCountErrors(ctx: Context, items: seq<Json>, schema: Json, trace: Trace): (r: seq<ValidationError>)
    ensures forall e :: e in r ==> e.trace == trace && e.ConstraintsViolation? && e.constraintName != UniqueItems
  {
    Pushed(ctx, Below(ctx.env, |items|, Get(schema, "minItems")), MinItemsError(schema, trace), JArr(items), schema)
    + Pushed(ctx, Above(ctx.env, |items|, Get(schema, "maxItems")), MaxItemsError(schema, trace), JArr(items), schema)
  }

  /**
   * A `minItems` violation is reported exactly when `minItems` is truthy and
   * the array is shorter than its numeric value, a `maxItems` violation
   * exactly when `maxItems` is truthy and the array is longer, unless the
   * ignore hook drops it. A bound that is not a number is converted first.
   */
  lemma ItemCountReports(ctx: Context, items: seq<Json>, schema: Json, trace: Trace)
    ensures MinItemsError(schema, trace) in ItemCountErrors(ctx, items, schema, trace) <==>
            Below(ctx.env, |items|, Get(schema, "minItems")) && !Ignored(ctx, MinItemsError(schema, trace), JArr(items), schema)
    ensures MaxItemsError(schema, trace) in ItemCountErrors(ctx, items, schema, trace) <==>
            Above(ctx.env, |items|, Get(schema, "maxItems")) && !Ignored(ctx, MaxItemsError(schema, trace), JArr(items), schema)
  {
    var min := Pushed(ctx, Below(ctx.env, |items|, Get(schema, "minItems")), MinItemsError(schema, trace), JArr(items), schema);
    var max := Pushed(ctx, Above(ctx.env, |items|, Get(schema, "maxItems")), MaxItemsError(schema, trace), JArr(items), schema);
    assert MinItemsError(schema, trace) != MaxItemsError(schema, trace);
    assert ItemCountErrors(ctx, items, schema, trace) == min + max;
  }

  /** At most the two count errors, `minItems` first, each carrying the schema's own bound. */
  lemma ItemCountShape(ctx: Context, items: seq<Json>, schema: Json, trace: Trace)
    ensures var r := ItemCountErrors(ctx, items, schema, trace);
      |r| <= 2
      && (forall e :: e in r ==> e == MinItemsError(schema, trace) || e == MaxItemsError(schema, trace))
      && (|r| == 2 ==> r[0] == MinItemsError(schema, trace) && r[1] == MaxItemsError(schema, trace))
  {
    var min := Pushed(ctx, Below(ctx.env, |items|, Get(schema, "minItems")), MinItemsError(schema, trace), JArr(items), schema);
    var max := Pushed(ctx, Above(ctx.env, |items|, Get(schema, "maxItems")), MaxItemsError(schema, trace), JArr(items), schema);
    assert ItemCountErrors(ctx, items, schema, trace) == min + max;
  }

  /** The copied trace of element `i`: the last step carries `arrayPos` = `i`, nothing else changes. */
  function ElementTrace(trace: Trace, i: nat): (r: Trace)
    requires |trace| > 0
    ensures NamesExtend(trace, r) && NamesExtend(r, trace)
    ensures forall k :: 0 <= k < |trace| - 1 ==> r[k] == trace[k]
    ensures r[|trace| - 1] == trace[|trace| - 1].(arrayPos := Some(i))
  {
    trace[|trace| - 1 := trace[|trace| - 1].(arrayPos := Some(i))]
  }

  /**
   * The element validations, in index order, against `schema.items`. Setting
   * `arrayPos` on the last step of an empty trace throws, at the first
   * element.
   */
  function ElementTargets(items: seq<Json>, schema: Json, trace: Trace): (r: Outcome<seq<Target>>)
    ensures |items| > 0 && |trace| == 0 ==> r == Failure(TypeError)
    ensures r.Ok? ==> |r.value| == |items|
    ensures r.Ok? ==> forall i :: 0 <= i < |items| ==>
      r.value[i].value == items[i] && r.value[i].schema == Get(schema, "items")
      && r.value[i].trace == ElementTrace(trace, i)
    ensures |items| == 0 ==> r == Ok([])
    decreases |items|
  {
    if |items| == 0 then Ok([])
    else if |trace| == 0 then Failure(TypeError)
    else
      var init :- ElementTargets(items[..|items| - 1], schema, trace);
      Ok(init + [Target(items[|items| - 1], Get(schema, "items"), ElementTrace(trace, |items| - 1))])
  }

  /** Element traces differ exactly in their position, so no two elements share a trace. */
  lemma ElementTracesDistinct(items: seq<Json>, schema: Json, trace: Trace, i: nat, j: nat)
    requires ElementTargets(items, schema, trace).Ok? && i < j < |items|
    ensures var ts := ElementTargets(items, schema, trace).value;
      ts[i].trace != ts[j].trace && NamesExtend(trace, ts[i].trace) && |ts[i].trace| == |trace|
  {
    var ts := ElementTargets(items, schema, trace).value;
    assert ts[i].trace[|trace| - 1].arrayPos != ts[j].trace[|trace| - 1].arrayPos;
  }

  /** The `forEach` over the elements, copying the trace and pushing one validation per element. */
  method ElementLoop(items: seq<Json>, schema: Json, trace: Trace) returns (r: Outcome<seq<Target>>)
    ensures r == ElementTargets(items, schema, trace)
  {
    var promises: seq<Target> := [];
    var index := 0;
    while index < |items|
      invariant 0 <= index <= |items|
      invariant ElementTargets(items[..index], schema, trace) == Ok(promises)
    {
      ElementStep(items, schema, trace, index);
      if |trace| == 0 {
        return Failure(TypeError);
      }
      var newTrace := trace[|trace| - 1 := trace[|trace| - 1].(arrayPos := Some(index))];
      promises := promises + [Target(items[index], Get(schema, "items"), newTrace)];
      index := index + 1;
    }
    assert items[..index] == items;
    return Ok(promises);
  }

  lemma ElementStep(items: seq<Json>, schema: Json, trace: Trace, i: nat)
    requires i < |items|
    ensures ElementTargets(items[..i + 1], schema, trace)
      == if |trace| == 0 then Failure(TypeError)
         else match ElementTargets(items[..i], schema, trace)
              case Ok(init) => Ok(init + [Target(items[i], Get(schema, "items"), ElementTrace(trace, i))])
              case Failure(e) => Failure(e)
  {
    assert items[..i + 1][..i] == items[..i];
  }
}
