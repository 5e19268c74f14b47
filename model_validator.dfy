/**
 * The validation engine: `validateModel` composes `allOf`, dereferences
 * `$ref`, runs the first-stage check (enum or coarse type), picks the
 * checker for the value's kind and finally calls the custom hook. The object
 * and array checkers recurse into the engine for every property value and
 * element, so the engine, those two checkers and the fan-out over child
 * validations are one group of mutually recursive functions.
 *
 * Every function takes `fuel`: a `$ref` restart, an `allOf` loop-back and
 * each child validation spend one unit, and running out is `OutOfFuel`. A
 * schema for which every amount of fuel runs out is one the engine never
 * finishes validating (see `Loopback`).
 */
module ModelValidator {
  import opened Outcomes
  import opened JsonValues
  import opened TypeNames
  import opened Results
  import opened Configuration
  import opened PushErrors
  import opened Loader
  import opened AllOf
  import opened GenericValidator
  import opened EnumValidator
  import opened StringValidator
  import opened NumberValidator
  import opened DateValidator
  import opened ObjectValidator
  import opened ArrayValidator

  /** No custom validation is configured. */
  predicate NoHook(ctx: Context) {
    ctx.config.customValidation.None?
  }

  /**
   * An error the validator itself produces for a node at `trace`: its trace
   * starts with the node's step names, and it is none of the kinds only a
   * custom hook produces.
   */
  predicate StructuralAt(trace: Trace, e: ValidationError) {
    NamesExtend(trace, e.trace) && !e.Custom? && !e.OtherError?
  }

  /** The checker the second stage runs. */
  datatype Checker = ObjectChecker | DateChecker | StringChecker | NumberChecker | ArrayChecker | NoChecker | NotImplemented

  /**
   * An object-shaped schema selects the object checker whatever the value;
   * otherwise the value's kind name decides: strings go to the date checker
   * for formats `date` and `date-time` and to the string checker otherwise,
   * numbers and arrays to their checkers, booleans and `null` need nothing
   * more, and `undefined` or an object is not implemented.
   */
  function SelectChecker(test: Json, schema: Json): (c: Checker)
    ensures c.ObjectChecker? <==> IsObjectShaped(schema)
    ensures c.DateChecker? <==>
      !IsObjectShaped(schema) && test.JStr? && Get(schema, "format") in {JStr("date"), JStr("date-time")}
    ensures c.StringChecker? <==>
      !IsObjectShaped(schema) && test.JStr? && Get(schema, "format") !in {JStr("date"), JStr("date-time")}
    ensures c.NumberChecker? <==> !IsObjectShaped(schema) && (test.JNum? || test.JNaN?)
    ensures c.ArrayChecker? <==> !IsObjectShaped(schema) && test.JArr?
    ensures c.NoChecker? <==> !IsObjectShaped(schema) && (test.JBool? || test.JNull?)
    ensures c.NotImplemented? <==> !IsObjectShaped(schema) && (test.JUndefined? || test.JObj?)
  {
    if IsObjectShaped(schema) then ObjectChecker
    else match GetTypeName(test)
      case "string" =>
        if Get(schema, "format") == JStr("date") || Get(schema, "format") == JStr("date-time") then DateChecker
        else StringChecker
      case "boolean" => NoChecker
      case "number" => NumberChecker
      case "null" => NoChecker
      case "array" => ArrayChecker
      case _ => NotImplemented
  }

  /** The first stage: the enum check when `enum` is truthy, the coarse type check otherwise. */
  function FirstStage(ctx: Context, test: Json, schema: Json, trace: Trace): (r: Outcome<seq<ValidationError>>)
    ensures r.Ok? ==> forall e :: e in r.value ==> e.trace == trace && (e.TypeMismatch? || e.EnumMismatch?)
    ensures r.Ok? ==> |r.value| <= 1
  {
    if Truthy(Get(schema, "enum")) then ValidateEnum(ctx, test, schema, trace)
    else ValidateType(ctx, test, schema, trace)
  }

  /**
   * What the second stage leaves: its errors, and the schema and trace as the
   * checker left them (the number checker defaults `format` in the schema,
   * the object checker composes the schema and annotates the trace in
   * place), which is what the custom hook is shown.
   */
  datatype Checked = Checked(errors: seq<ValidationError>, schema: Json, trace: Trace)

  /** `validateModel(test, schema, spec, config, trace)`. */
  function ValidateModel(ctx: Context, test: Json, schema: Json, trace: Trace, fuel: nat)
    : (r: Outcome<seq<ValidationError>>)
    ensures schema.JUndefined? || schema.JNull? ==> r == Failure(TypeError)
    ensures r.Ok? && NoHook(ctx) ==> forall e :: e in r.value ==> StructuralAt(trace, e)
    decreases fuel, 4
  {
    if schema.JUndefined? || schema.JNull? then Failure(TypeError)
    else if HasAllOf(schema) then
      var composed :- ExtendAllAllOfs(ctx, schema, fuel);
      ValidateResolvedModel(ctx, test, composed, trace, fuel)
    else ValidateResolvedModel(ctx, test, schema, trace, fuel)
  }

  /**
   * `validateResolvedModel(test, schema, spec, config, trace)`: a `$ref` is
   * loaded and the validation restarts from the loaded schema; an `allOf`
   * without `properties` loops back to `validateModel`; first-stage errors
   * end the validation; otherwise the checker's errors, followed by the
   * custom hook's.
   */
  function ValidateResolvedModel(ctx: Context, test: Json, schema: Json, trace: Trace, fuel: nat)
    : (r: Outcome<seq<ValidationError>>)
    ensures schema.JUndefined? || schema.JNull? ==> r == Failure(TypeError)
    ensures r.Ok? && NoHook(ctx) ==> forall e :: e in r.value ==> StructuralAt(trace, e)
    decreases fuel, 3
  {
    if schema.JUndefined? || schema.JNull? then Failure(TypeError)
    else if Truthy(Get(schema, "$ref")) then
      var loaded :- LoadSchema(ctx, schema, fuel);
      if fuel == 0 then Failure(OutOfFuel)
      else ValidateResolvedModel(ctx, test, loaded, trace, fuel - 1)
    else if HasAllOf(schema) && !Truthy(Get(schema, "properties")) then
      if fuel == 0 then Failure(OutOfFuel)
      else ValidateModel(ctx, test, schema, trace, fuel - 1)
    else
      var first :- FirstStage(ctx, test, schema, trace);
      if |first| > 0 then Ok(first)
      else
        var checked :- Check(ctx, test, schema, trace, fuel);
        match ctx.config.customValidation
        case None => Ok(checked.errors)
        case Some(hook) =>
          var custom :- hook(test, checked.schema, ctx.spec, checked.trace, checked.errors);
          Ok(checked.errors + custom)
  }

  /** The second stage: the selected checker, or the rejection of a kind with none. */
  function Check(ctx: Context, test: Json, schema: Json, trace: Trace, fuel: nat): (r: Outcome<Checked>)
    ensures r.Ok? ==> NamesExtend(trace, r.value.trace)
    ensures r.Ok? && NoHook(ctx) ==> forall e :: e in r.value.errors ==> StructuralAt(trace, e)
    decreases fuel, 2
  {
    match SelectChecker(test, schema)
    case ObjectChecker => ValidateObject(ctx, test, schema, trace, fuel)
    case DateChecker => Ok(Checked(ValidateDate(ctx, test.s, schema, trace), schema, trace))
    case StringChecker =>
      var errors :- ValidateString(ctx, test.s, schema, trace);
      Ok(Checked(errors, schema, trace))
    case NumberChecker =>
      var (errors, defaulted) := ValidateNumber(ctx, test, schema, trace);
      Ok(Checked(errors, defaulted, trace))
    case ArrayChecker =>
      var errors :- ValidateArray(ctx, test, schema, trace, fuel);
      Ok(Checked(errors, schema, trace))
    case NoChecker => Ok(Checked([], schema, trace))
    case NotImplemented => Failure(TypeNotImplemented(Get(schema, "type"), Get(schema, "title")))
  }

  /**
   * `validateObject(test, schema, spec, config, trace)`: the `x-nullable`
   * short cut, the fatal mismatch of a non-object, then on the concrete
   * schema the required names, the additional keys and the child
   * validations, in that order.
   */
  function ValidateObject(ctx: Context, test: Json, schema: Json, trace: Trace, fuel: nat): (r: Outcome<Checked>)
    ensures r.Ok? ==> NamesExtend(trace, r.value.trace)
    ensures r.Ok? && NoHook(ctx) ==> forall e :: e in r.value.errors ==> StructuralAt(trace, e)
    decreases fuel, 1
  {
    var fmt := ctx.env.numberFormat;
    if schema.JUndefined? || ctx.spec.JUndefined? then Failure(SchemaOrSpecUndefined)
    else if NullShortcut(ctx.config, test, schema) then Ok(Checked([], schema, trace))
    else if NotAnObject(test) then Ok(Checked([ObjectMismatch(test, schema, trace, fmt)], schema, trace))
    else
      var poly :- IsPolymorphic(schema, fmt);
      var concrete :- ConcreteClass(ctx, schema, trace, test, fuel);
      var (target, resolved) := concrete;
      var required :- RequiredErrors(ctx, test, target, resolved);
      var entries := OwnEntries(test);
      var additional := AdditionalErrors(ctx, test, target, resolved, entries);
      var targets := ChildTargets(ctx.config, target, resolved, entries);
      var children :- ValidateAll(ctx, targets, fuel);
      RequiredAt(ctx, test, target, trace, resolved, required);
      AdditionalAt(ctx, test, target, trace, resolved, entries);
      if NoHook(ctx) then
        ChildrenAt(ctx.config, target, trace, resolved, entries, children);
        Ok(Checked(required + additional + children, if poly then schema else target, resolved))
      else Ok(Checked(required + additional + children, if poly then schema else target, resolved))
  }

  /**
   * `validateArray(test, schema, spec, config, trace)`: the fatal mismatch of
   * a non-array, then the count constraints, then the element validations.
   */
  function ValidateArray(ctx: Context, test: Json, schema: Json, trace: Trace, fuel: nat)
    : (r: Outcome<seq<ValidationError>>)
    ensures !test.JArr? ==> r == Ok([ArrayMismatch(test, trace)])
    ensures r.Ok? && NoHook(ctx) ==> forall e :: e in r.value ==> StructuralAt(trace, e)
    decreases fuel, 1
  {
    if !test.JArr? then Ok([ArrayMismatch(test, trace)])
    else
      var counts := ItemCountErrors(ctx, test.items, schema, trace);
      var targets :- ElementTargets(test.items, schema, trace);
      var children :- ValidateAll(ctx, targets, fuel);
      if NoHook(ctx) then
        ElementErrorsAt(test.items, schema, trace, targets, children);
        Ok(counts + children)
      else Ok(counts + children)
  }

  /**
   * `Promise.all` over child validations, each one step of fuel deeper: the
   * errors of each child in order, or the first rejection in list order.
   */
  function ValidateAll(ctx: Context, targets: seq<Target>, fuel: nat): (r: Outcome<seq<ValidationError>>)
    ensures |targets| == 0 ==> r == Ok([])
    ensures r.Ok? && NoHook(ctx) ==> AllBelow(targets, r.value)
    decreases fuel, 0, |targets|
  {
    if |targets| == 0 then Ok([])
    else if fuel == 0 then Failure(OutOfFuel)
    else
      var init :- ValidateAll(ctx, targets[..|targets| - 1], fuel);
      var last := targets[|targets| - 1];
      var errors :- ValidateModel(ctx, last.value, last.schema, last.trace, fuel - 1);
      if NoHook(ctx) then
        AllBelowPrefix(targets, |targets| - 1, init);
        Ok(init + errors)
      else Ok(init + errors)
  }

  /** Pushing one step keeps the step names of the prefix. */
  lemma ExtendStep(trace: Trace, resolved: Trace, s: TraceStep)
    requires NamesExtend(trace, resolved)
    ensures NamesExtend(trace, resolved + [s])
  {
  }

  /** Every error is at or below the trace of some target. */
  predicate AllBelow(targets: seq<Target>, errors: seq<ValidationError>) {
    forall e :: e in errors ==> exists i :: 0 <= i < |targets| && StructuralAt(targets[i].trace, e)
  }

  /** Errors below the targets of a prefix are below the targets of the whole list. */
  lemma AllBelowPrefix(targets: seq<Target>, n: nat, errors: seq<ValidationError>)
    requires n <= |targets| && AllBelow(targets[..n], errors)
    ensures AllBelow(targets, errors)
  {
    forall e | e in errors ensures exists i :: 0 <= i < |targets| && StructuralAt(targets[i].trace, e) {
      var i :| 0 <= i < n && StructuralAt(targets[..n][i].trace, e);
      assert targets[..n][i] == targets[i];
    }
  }

  /** Each missing-property error is at the resolved trace with the name's step pushed. */
  lemma RequiredAt(ctx: Context, test: Json, target: Json, trace: Trace, resolved: Trace, required: seq<ValidationError>)
    requires NamesExtend(trace, resolved)
    requires RequiredErrors(ctx, test, target, resolved) == Ok(required)
    ensures forall e :: e in required ==> StructuralAt(trace, e)
  {
    var fmt := ctx.env.numberFormat;
    var names := Get(target, "required");
    if names.JArr? {
      MissingErrorsSound(ctx, test, target, resolved, names.items);
      assert required == MissingErrors(ctx, test, target, resolved, names.items);
      forall e | e in required ensures StructuralAt(trace, e) {
        assert e in MissingErrors(ctx, test, target, resolved, names.items);
        assert exists i :: 0 <= i < |names.items| && IsMissing(test, names.items[i], fmt)
                 && e == MissingError(resolved, names.items[i], fmt);
        var i :| 0 <= i < |names.items| && IsMissing(test, names.items[i], fmt)
                 && e == MissingError(resolved, names.items[i], fmt);
        ExtendStep(trace, resolved, Step(ToString(names.items[i], fmt)));
      }
    }
  }

  /** Each additional-property error is at the resolved trace with the key's step pushed. */
  lemma AdditionalAt(ctx: Context, test: Json, target: Json, trace: Trace, resolved: Trace, entries: seq<(string, Json)>)
    requires NamesExtend(trace, resolved)
    ensures forall e :: e in AdditionalErrors(ctx, test, target, resolved, entries) ==> StructuralAt(trace, e)
  {
    AdditionalSound(ctx, test, target, resolved, entries);
    forall e | e in AdditionalErrors(ctx, test, target, resolved, entries) ensures StructuralAt(trace, e) {
      var i :| 0 <= i < |entries| && CheckKey(ctx.config, target, entries[i].0).Additional?
               && e == AdditionalProperty(resolved + [Step(entries[i].0)]);
      ExtendStep(trace, resolved, Step(entries[i].0));
    }
  }

  /** Child errors are below the children's traces, each the resolved trace with one step pushed. */
  lemma ChildrenAt(config: Config, target: Json, trace: Trace, resolved: Trace, entries: seq<(string, Json)>,
                   children: seq<ValidationError>)
    requires NamesExtend(trace, resolved)
    requires AllBelow(ChildTargets(config, target, resolved, entries), children)
    ensures forall e :: e in children ==> StructuralAt(trace, e)
  {
    var targets := ChildTargets(config, target, resolved, entries);
    forall e | e in children ensures StructuralAt(trace, e) {
      var i :| 0 <= i < |targets| && StructuralAt(targets[i].trace, e);
      assert targets[i] in targets;
      var k :| 0 <= k < |entries| && CheckKey(config, target, entries[k].0).Child?
               && targets[i] == Target(entries[k].1, CheckKey(config, target, entries[k].0).schema,
                                       resolved + [Step(entries[k].0)]);
      ExtendStep(trace, resolved, Step(entries[k].0));
      NamesExtendTransitive(trace, targets[i].trace, e.trace);
    }
  }

  /** Element errors are at or below the element traces, which keep the array's step names. */
  lemma ElementErrorsAt(items: seq<Json>, schema: Json, trace: Trace,
                        targets: seq<Target>, children: seq<ValidationError>)
    requires ElementTargets(items, schema, trace) == Ok(targets)
    requires AllBelow(targets, children)
    ensures forall e :: e in children ==> StructuralAt(trace, e)
  {
    forall e | e in children ensures StructuralAt(trace, e) {
      var i :| 0 <= i < |targets| && StructuralAt(targets[i].trace, e);
      NamesExtendTransitive(trace, targets[i].trace, e.trace);
    }
  }

  /** A schema the engine checks directly: an object with no `$ref` and no `allOf` loop-back. */
  predicate Direct(schema: Json) {
    schema.JObj? && !Truthy(Get(schema, "$ref")) && !(HasAllOf(schema) && !Truthy(Get(schema, "properties")))
  }

  /**
   * A value of a kind the schema does not accept gets the one type mismatch
   * and nothing else: neither the checkers nor the custom hook run.
   */
  lemma TypeMismatchStops(ctx: Context, test: Json, schema: Json, trace: Trace, fuel: nat)
    requires Direct(schema) && !Truthy(Get(schema, "enum"))
    requires IsObjectShaped(schema) || Truthy(Get(schema, "type"))
    requires !Accepts(ctx.config, schema, GetTypeName(test))
    requires !Ignored(ctx, MismatchError(ctx, test, schema, trace), test, schema)
    ensures ValidateResolvedModel(ctx, test, schema, trace, fuel) == Ok([MismatchError(ctx, test, schema, trace)])
  {
    var first := FirstStage(ctx, test, schema, trace);
    assert first == Ok([MismatchError(ctx, test, schema, trace)]);
  }

  /** A value outside an array `enum` gets the one enum mismatch, whatever the schema's type says. */
  lemma EnumMismatchStops(ctx: Context, test: Json, schema: Json, trace: Trace, fuel: nat)
    requires Direct(schema) && Get(schema, "enum").JArr? && !ContainsStrict(Get(schema, "enum").items, test)
    requires !Ignored(ctx, EnumMismatch(trace, test, Get(schema, "enum")), test, schema)
    ensures ValidateResolvedModel(ctx, test, schema, trace, fuel) == Ok([EnumMismatch(trace, test, Get(schema, "enum"))])
  {
    var e := EnumMismatch(trace, test, Get(schema, "enum"));
    assert FirstStage(ctx, test, schema, trace) == Ok([e]) by {
      assert Truthy(Get(schema, "enum"));
      EnumRejects(ctx, test, schema, trace);
    }
    FirstStageStops(ctx, test, schema, trace, fuel);
  }

  /** A first stage that reports something is the whole result of a direct schema. */
  lemma FirstStageStops(ctx: Context, test: Json, schema: Json, trace: Trace, fuel: nat)
    requires Direct(schema) && FirstStage(ctx, test, schema, trace).Ok? && |FirstStage(ctx, test, schema, trace).value| > 0
    ensures ValidateResolvedModel(ctx, test, schema, trace, fuel) == FirstStage(ctx, test, schema, trace)
  {
  }

  /** A value outside a schema's enum list gives exactly the enum mismatch, unless it is ignored. */
  lemma EnumRejects(ctx: Context, test: Json, schema: Json, trace: Trace)
    requires Get(schema, "enum").JArr? && !ContainsStrict(Get(schema, "enum").items, test)
    requires !Ignored(ctx, EnumMismatch(trace, test, Get(schema, "enum")), test, schema)
    ensures ValidateEnum(ctx, test, schema, trace) == Ok([EnumMismatch(trace, test, Get(schema, "enum"))])
  {
    var check := ValidateEnum(ctx, test, schema, trace);
    assert check.Ok? && check.value != [];
  }

  /** A schema with neither `enum`, a type nor an object shape rejects the validation. */
  lemma UntypedRejects(ctx: Context, test: Json, schema: Json, trace: Trace, fuel: nat)
    requires Direct(schema) && !Truthy(Get(schema, "enum"))
    requires !IsObjectShaped(schema) && !Truthy(Get(schema, "type"))
    ensures ValidateResolvedModel(ctx, test, schema, trace, fuel) == Failure(SchemaCorrupted(schema))
  {
    var first := FirstStage(ctx, test, schema, trace);
    assert first == Failure(SchemaCorrupted(schema));
  }

  /**
   * Past the first stage, an object or `undefined` value under a schema that
   * is not object-shaped has no checker, and the validation rejects.
   */
  lemma NoCheckerRejects(ctx: Context, test: Json, schema: Json, trace: Trace, fuel: nat)
    requires Direct(schema) && FirstStage(ctx, test, schema, trace) == Ok([])
    requires !IsObjectShaped(schema) && (test.JObj? || test.JUndefined?)
    ensures ValidateResolvedModel(ctx, test, schema, trace, fuel)
            == Failure(TypeNotImplemented(Get(schema, "type"), Get(schema, "title")))
  {
    var c := Check(ctx, test, schema, trace, fuel);
    assert c == Failure(TypeNotImplemented(Get(schema, "type"), Get(schema, "title")));
  }

  /** Booleans and `null` that pass the first stage need nothing more. */
  lemma ScalarsPass(ctx: Context, test: Json, schema: Json, trace: Trace, fuel: nat)
    requires Direct(schema) && FirstStage(ctx, test, schema, trace) == Ok([]) && NoHook(ctx)
    requires !IsObjectShaped(schema) && (test.JBool? || test.JNull?)
    ensures ValidateResolvedModel(ctx, test, schema, trace, fuel) == Ok([])
  {
    var c := Check(ctx, test, schema, trace, fuel);
    assert c == Ok(Checked([], schema, trace));
  }

  /** The custom hook only appends: the checker's errors come first, unchanged. */
  lemma HookAppends(ctx: Context, test: Json, schema: Json, trace: Trace, fuel: nat)
    requires Direct(schema) && FirstStage(ctx, test, schema, trace) == Ok([])
    requires Check(ctx, test, schema, trace, fuel).Ok?
    ensures var r, c := ValidateResolvedModel(ctx, test, schema, trace, fuel), Check(ctx, test, schema, trace, fuel).value;
      r.Ok? ==> |c.errors| <= |r.value| && r.value[..|c.errors|] == c.errors
    ensures NoHook(ctx) ==>
      ValidateResolvedModel(ctx, test, schema, trace, fuel) == Ok(Check(ctx, test, schema, trace, fuel).value.errors)
  {
    var r := ValidateResolvedModel(ctx, test, schema, trace, fuel);
    var checked := Check(ctx, test, schema, trace, fuel).value;
    match ctx.config.customValidation
    case None =>
      assert r == Ok(checked.errors);
    case Some(hook) =>
      var custom := hook(test, checked.schema, ctx.spec, checked.trace, checked.errors);
      assert r.Ok? ==> custom.Ok? && r.value == checked.errors + custom.value;
  }

  /**
   * Validating against a composed schema is validating against the original:
   * composition flags the result `allOfResolved`, so it is not composed again.
   */
  lemma ComposedIsTransparent(ctx: Context, test: Json, schema: Json, trace: Trace, fuel: nat)
    requires schema.JObj? && HasAllOf(schema) && !Truthy(Get(schema, "allOfResolved"))
    requires Get(schema, "allOf").JArr? && |Pending(Get(schema, "allOf").items)| > 0
    requires ExtendAllAllOfs(ctx, schema, fuel).Ok?
    ensures ValidateModel(ctx, test, ExtendAllAllOfs(ctx, schema, fuel).value, trace, fuel)
            == ValidateModel(ctx, test, schema, trace, fuel)
  {
    var c := ExtendAllAllOfs(ctx, schema, fuel).value;
    ComposeFlags(ctx, schema, fuel);
    ResolvedIsFixed(ctx, c, fuel);
    var direct := ValidateModel(ctx, test, schema, trace, fuel);
    assert direct == ValidateResolvedModel(ctx, test, c, trace, fuel);
  }

  /**
   * An `allOf` that is already resolved but left no `properties` loops back
   * to `validateModel`, which returns it to `validateResolvedModel`
   * unchanged: no amount of fuel finishes it, so the validation never settles.
   */
  lemma {:induction false} Loopback(ctx: Context, test: Json, schema: Json, trace: Trace, fuel: nat)
    requires schema.JObj? && HasAllOf(schema) && Truthy(Get(schema, "allOfResolved"))
    requires !Truthy(Get(schema, "properties")) && !Truthy(Get(schema, "$ref"))
    ensures ValidateModel(ctx, test, schema, trace, fuel) == Failure(OutOfFuel)
    ensures ValidateResolvedModel(ctx, test, schema, trace, fuel) == Failure(OutOfFuel)
    decreases fuel
  {
    ResolvedIsFixed(ctx, schema, fuel);
    if fuel > 0 {
      Loopback(ctx, test, schema, trace, fuel - 1);
    }
  }

  /**
   * The object checker's short cuts: an allowed `null` gives nothing, and
   * any other value that is not an object gives the one mismatch, which is
   * returned as it is rather than offered to the ignore hook.
   */
  lemma ObjectShortcuts(ctx: Context, test: Json, schema: Json, trace: Trace, fuel: nat)
    requires schema.JObj? && !ctx.spec.JUndefined?
    ensures NullShortcut(ctx.config, test, schema) ==>
      ValidateObject(ctx, test, schema, trace, fuel) == Ok(Checked([], schema, trace))
    ensures !NullShortcut(ctx.config, test, schema) && NotAnObject(test) ==>
      ValidateObject(ctx, test, schema, trace, fuel)
      == Ok(Checked([ObjectMismatch(test, schema, trace, ctx.env.numberFormat)], schema, trace))
  {
  }

  /**
   * The three ways polymorphism resolution fails: no derived object at all,
   * none matching the value's discriminator field, or more than one.
   */
  lemma PolymorphismFailures(ctx: Context, abstractClass: Json, trace: Trace, test: Json, fuel: nat,
                             derived: seq<(string, Json)>)
    requires FindDerivedObjects(ctx, abstractClass, fuel) == Ok(derived)
    ensures var r, matches := FindPolymorphicConcreteClass(ctx, abstractClass, trace, test, fuel),
                              Matching(DiscriminatorKey(abstractClass, ctx.env.numberFormat), test, derived);
      (|derived| == 0 ==> r == Failure(ConfusingDiscriminator(trace)))
      && (|derived| > 0 && |matches| == 0 ==> r == Failure(NoConcreteObject(trace)))
      && (|matches| > 1 ==> r == Failure(MoreThanOneConcreteObject(trace)))
  {
    var matches := Matching(DiscriminatorKey(abstractClass, ctx.env.numberFormat), test, derived);
    if |derived| == 0 {
      assert matches == [];
    }
  }

  /**
   * A unique match annotates the last trace step with its name. Without a
   * discriminator of its own it is the concrete class; with one, resolution
   * continues from it with its name pushed onto the trace.
   */
  lemma PolymorphismResolved(ctx: Context, abstractClass: Json, trace: Trace, test: Json, fuel: nat,
                             derived: seq<(string, Json)>)
    requires FindDerivedObjects(ctx, abstractClass, fuel) == Ok(derived)
    requires |Matching(DiscriminatorKey(abstractClass, ctx.env.numberFormat), test, derived)| == 1 && |trace| > 0
    ensures var r, m := FindPolymorphicConcreteClass(ctx, abstractClass, trace, test, fuel),
                        Matching(DiscriminatorKey(abstractClass, ctx.env.numberFormat), test, derived)[0];
      (!Truthy(Get(m.1, "discriminator")) ==> r == Ok((m.1, Annotated(trace, m.0))))
      && (Truthy(Get(m.1, "discriminator")) && fuel > 0 ==>
            r == FindPolymorphicConcreteClass(ctx, m.1, Annotated(trace, m.0) + [Step(m.0)], test, fuel - 1))
  {
    var matches := Matching(DiscriminatorKey(abstractClass, ctx.env.numberFormat), test, derived);
    assert matches[0] in derived;
  }

  /**
   * A direct object schema (no `$ref`, `allOf`, `enum` or discriminator) sends
   * an object straight to the object checker, whose errors are the missing
   * required names in list order, then the additional keys in key order, then
   * the child validations' errors in key order.
   */
  lemma DirectObjectOrder(ctx: Context, test: Json, schema: Json, trace: Trace, fuel: nat,
                          required: seq<ValidationError>, additional: seq<ValidationError>, children: seq<ValidationError>)
    requires NoHook(ctx) && !ctx.spec.JUndefined? && schema.JObj? && test.JObj?
    requires IsObjectShaped(schema) && !HasAllOf(schema) && !Truthy(Get(schema, "$ref"))
    requires !Truthy(Get(schema, "enum")) && !Truthy(Get(schema, "discriminator"))
    requires RequiredErrors(ctx, test, schema, trace) == Ok(required)
    requires AdditionalErrors(ctx, test, schema, trace, OwnEntries(test)) == additional
    requires ValidateAll(ctx, ChildTargets(ctx.config, schema, trace, OwnEntries(test)), fuel) == Ok(children)
    ensures ValidateModel(ctx, test, schema, trace, fuel) == Ok(required + additional + children)
  {
    assert GetTypeName(test) == "object";
    assert Accepts(ctx.config, schema, "object");
    assert FirstStage(ctx, test, schema, trace) == Ok([]);
    assert IsPolymorphic(schema, ctx.env.numberFormat) == Ok(false);
    assert ConcreteClass(ctx, schema, trace, test, fuel) == Ok((schema, trace));
    assert SelectChecker(test, schema) == ObjectChecker;
    assert !NullShortcut(ctx.config, test, schema) && !NotAnObject(test);
    assert ValidateObject(ctx, test, schema, trace, fuel) == Ok(Checked(required + additional + children, schema, trace));
    assert Check(ctx, test, schema, trace, fuel) == Ok(Checked(required + additional + children, schema, trace));
    assert ValidateResolvedModel(ctx, test, schema, trace, fuel) == Ok(required + additional + children);
  }

  /**
   * A truthy `$ref` is loaded and the validation restarts from the loaded
   * schema with the same trace.
   */
  lemma RefRestarts(ctx: Context, test: Json, schema: Json, trace: Trace, fuel: nat, loaded: Json)
    requires !(schema.JUndefined? || schema.JNull?) && Truthy(Get(schema, "$ref")) && fuel > 0
    requires LoadSchema(ctx, schema, fuel) == Ok(loaded)
    ensures ValidateResolvedModel(ctx, test, schema, trace, fuel)
            == ValidateResolvedModel(ctx, test, loaded, trace, fuel - 1)
  {
  }

  /**
   * An array's errors are its count violations, minItems before maxItems,
   * followed by its elements' errors in index order.
   */
  lemma ArrayOrder(ctx: Context, test: Json, schema: Json, trace: Trace, fuel: nat,
                   targets: seq<Target>, children: seq<ValidationError>)
    requires test.JArr? && ElementTargets(test.items, schema, trace) == Ok(targets)
    requires ValidateAll(ctx, targets, fuel) == Ok(children)
    ensures ValidateArray(ctx, test, schema, trace, fuel) == Ok(ItemCountErrors(ctx, test.items, schema, trace) + children)
  {
  }

  /**
   * The child validations of a list are those of its two parts, in order:
   * the errors of the first part precede those of the second.
   */
  lemma {:induction false} ValidateAllSplit(ctx: Context, a: seq<Target>, b: seq<Target>, fuel: nat,
                                            x: seq<ValidationError>, y: seq<ValidationError>)
    requires ValidateAll(ctx, a, fuel) == Ok(x) && ValidateAll(ctx, b, fuel) == Ok(y)
    ensures ValidateAll(ctx, a + b, fuel) == Ok(x + y)
    decreases |b|
  {
    if |b| == 0 {
      assert a + b == a;
      assert x + y == x;
    } else {
      var front := b[..|b| - 1];
      var last := b[|b| - 1];
      var y0 := ValidateAll(ctx, front, fuel).value;
      var e := ValidateModel(ctx, last.value, last.schema, last.trace, fuel - 1).value;
      assert y == y0 + e;
      ValidateAllSplit(ctx, a, front, fuel, x, y0);
      assert (a + b)[..|a + b| - 1] == a + front;
      assert (a + b)[|a + b| - 1] == last;
      assert x + y == (x + y0) + e;
    }
  }

  /** The configuration of the examples below: no hooks, no additional properties. */
  predicate Plain(ctx: Context) {
    ctx.config.ignoreError.None? && ctx.config.customValidation.None? && !ctx.config.allowAdditionalProperties
  }

  /** A required name the value lacks is pushed as a missing-property error at that name's step. */
  lemma OneMissing(ctx: Context, test: Json, schema: Json, trace: Trace, name: string)
    requires Plain(ctx) && Get(test, name) == JUndefined && name !in ObjectPrototypeMembers
    ensures Pushed(ctx, IsMissing(test, JStr(name), ctx.env.numberFormat),
                   MissingError(trace, JStr(name), ctx.env.numberFormat), test, schema)
            == [MissingRequired(trace + [Step(name)])]
  {
  }

  /** Two required names the value lacks give two missing-property errors, in list order. */
  lemma MissingTwo(ctx: Context, test: Json, schema: Json, trace: Trace, first: string, second: string)
    requires Plain(ctx) && Get(test, first) == JUndefined && Get(test, second) == JUndefined
    requires first !in ObjectPrototypeMembers && second !in ObjectPrototypeMembers
    ensures MissingErrors(ctx, test, schema, trace, [JStr(first), JStr(second)])
            == [MissingRequired(trace + [Step(first)]), MissingRequired(trace + [Step(second)])]
  {
    var names := [JStr(first), JStr(second)];
    var none := MissingErrors(ctx, test, schema, trace, names[..0]);
    var one := MissingErrors(ctx, test, schema, trace, names[..1]);
    var two := MissingErrors(ctx, test, schema, trace, names[..2]);
    assert none == [] by {
      assert names[..0] == [];
    }
    assert one == [MissingRequired(trace + [Step(first)])] by {
      MissingStep(ctx, test, schema, trace, names, 0);
      OneMissing(ctx, test, schema, trace, first);
    }
    assert two == one + [MissingRequired(trace + [Step(second)])] by {
      MissingStep(ctx, test, schema, trace, names, 1);
      OneMissing(ctx, test, schema, trace, second);
    }
    assert names[..2] == names;
  }

  /** The one key of `RequiredBeforeAdditional` is additional and has no child validation. */
  lemma ExtraKey(ctx: Context, test: Json, schema: Json, trace: Trace)
    requires Plain(ctx) && !Truthy(PropertySchema(schema, "extra")) && !Truthy(Get(schema, "additionalProperties"))
    ensures AdditionalErrors(ctx, test, schema, trace, [("extra", JNum(1.0))]) == [AdditionalProperty(trace + [Step("extra")])]
    ensures ChildTargets(ctx.config, schema, trace, [("extra", JNum(1.0))]) == []
  {
    var entries := [("extra", JNum(1.0))];
    AdditionalStep(ctx, test, schema, trace, entries, 0);
    ChildStep(ctx.config, schema, trace, entries, 0);
    assert entries[..0] == [] && entries[..1] == entries;
  }

  /** The names the Pet example requires are not inherited from `Object.prototype`. */
  lemma OwnNames()
    ensures "id" !in ObjectPrototypeMembers && "name" !in ObjectPrototypeMembers
  {
  }

  /** The missing names and the additional key of `RequiredBeforeAdditional`, on any schema and value with its shape. */
  lemma MissingThenAdditional(ctx: Context, test: Json, schema: Json, trace: Trace, fuel: nat)
    requires Plain(ctx) && !ctx.spec.JUndefined? && schema.JObj? && test.JObj?
    requires IsObjectShaped(schema) && !HasAllOf(schema) && !Truthy(Get(schema, "$ref"))
    requires !Truthy(Get(schema, "enum")) && !Truthy(Get(schema, "discriminator"))
    requires Get(schema, "required") == JArr([JStr("id"), JStr("name")])
    requires !Truthy(PropertySchema(schema, "extra")) && !Truthy(Get(schema, "additionalProperties"))
    requires OwnEntries(test) == [("extra", JNum(1.0))]
    requires Get(test, "id") == JUndefined && Get(test, "name") == JUndefined
    ensures ValidateModel(ctx, test, schema, trace, fuel)
      == Ok([MissingRequired(trace + [Step("id")]), MissingRequired(trace + [Step("name")]),
             AdditionalProperty(trace + [Step("extra")])])
  {
    var required := [MissingRequired(trace + [Step("id")]), MissingRequired(trace + [Step("name")])];
    var additional := [AdditionalProperty(trace + [Step("extra")])];
    var none: seq<ValidationError> := [];
    OwnNames();
    MissingTwo(ctx, test, schema, trace, "id", "name");
    ExtraKey(ctx, test, schema, trace);
    DirectObjectOrder(ctx, test, schema, trace, fuel, required, additional, none);
    assert required + additional + none == [required[0], required[1], additional[0]];
  }

  /**
   * Required names come first, in list order, then additional keys: `{extra: 1}`
   * against an object schema requiring `id` and `name` gives two missing
   * properties and then the additional one, each at its own step.
   */
  lemma RequiredBeforeAdditional(ctx: Context, schema: Json, test: Json, fuel: nat)
    requires Plain(ctx) && !ctx.spec.JUndefined?
    requires schema == JObj([("type", JStr("object")), ("required", JArr([JStr("id"), JStr("name")]))])
    requires test == JObj([("extra", JNum(1.0))])
    ensures ValidateModel(ctx, test, schema, [Step("Pet")], fuel)
      == Ok([MissingRequired([Step("Pet"), Step("id")]), MissingRequired([Step("Pet"), Step("name")]),
             AdditionalProperty([Step("Pet"), Step("extra")])])
  {
    var trace := [Step("Pet")];
    assert trace + [Step("id")] == [Step("Pet"), Step("id")];
    assert trace + [Step("name")] == [Step("Pet"), Step("name")];
    assert trace + [Step("extra")] == [Step("Pet"), Step("extra")];
    RequiredSchemaShape(schema);
    ExtraValueEntries(test);
    MissingThenAdditional(ctx, test, schema, trace, fuel);
  }

  /** The value of `RequiredBeforeAdditional` is enumerated as its one field, and has no `id` or `name`. */
  lemma ExtraValueEntries(test: Json)
    requires test == JObj([("extra", JNum(1.0))])
    ensures OwnEntries(test) == [("extra", JNum(1.0))]
    ensures Get(test, "id") == JUndefined && Get(test, "name") == JUndefined
  {
    NotIndexKey("extra");
    SingleNamedEntry("extra", JNum(1.0));
  }

  /** The keywords of the schema of `RequiredBeforeAdditional` that the dispatcher looks at. */
  lemma RequiredSchemaShape(schema: Json)
    requires schema == JObj([("type", JStr("object")), ("required", JArr([JStr("id"), JStr("name")]))])
    ensures IsObjectShaped(schema) && !HasAllOf(schema) && !Truthy(Get(schema, "$ref"))
    ensures !Truthy(Get(schema, "enum")) && !Truthy(Get(schema, "discriminator"))
    ensures Get(schema, "required") == JArr([JStr("id"), JStr("name")])
    ensures !Truthy(PropertySchema(schema, "extra")) && !Truthy(Get(schema, "additionalProperties"))
  {
    assert Get(schema, "properties") == JUndefined;
  }

  /** The property schema of the `Pet.id` example: an integer. */
  lemma PetIdChild(ctx: Context, trace: Trace, fuel: nat)
    requires Plain(ctx)
    ensures ValidateModel(ctx, JStr("Not a number"), JObj([("type", JStr("integer"))]), trace, fuel)
            == Ok([TypeMismatch(trace, "string", "number")])
  {
    var id := JObj([("type", JStr("integer"))]);
    var test := JStr("Not a number");
    var e := TypeMismatch(trace, "string", "number");
    assert Get(id, "type") == JStr("integer") && Get(id, "enum") == JUndefined;
    assert Get(id, "allOf") == JUndefined && Get(id, "$ref") == JUndefined;
    assert FirstStage(ctx, test, id, trace) == Ok([e]) by {
      assert !IsObjectShaped(id) && GetTypeName(test) == "string";
      assert !Accepts(ctx.config, id, "string");
      assert ExpectedType(ctx.config, "string", id) == Some(JStr("number"));
      assert MismatchError(ctx, test, id, trace) == e;
    }
    assert Direct(id) && !HasAllOf(id);
    FirstStageStops(ctx, test, id, trace, fuel);
  }

  /** The single key of `PetIdIsString` is a child validation against the integer schema. */
  lemma IdKey(ctx: Context, test: Json, schema: Json, trace: Trace)
    requires Plain(ctx) && PropertySchema(schema, "id") == JObj([("type", JStr("integer"))])
    ensures AdditionalErrors(ctx, test, schema, trace, [("id", JStr("Not a number"))]) == []
    ensures ChildTargets(ctx.config, schema, trace, [("id", JStr("Not a number"))])
            == [Target(JStr("Not a number"), JObj([("type", JStr("integer"))]), trace + [Step("id")])]
  {
    var entries := [("id", JStr("Not a number"))];
    assert Truthy(PropertySchema(schema, "id"));
    AdditionalStep(ctx, test, schema, trace, entries, 0);
    ChildStep(ctx.config, schema, trace, entries, 0);
    assert entries[..0] == [] && entries[..1] == entries;
  }

  /** The child validation of `PetIdIsString` reports the mismatch at the property's trace. */
  lemma IdChild(ctx: Context, trace: Trace, fuel: nat)
    requires Plain(ctx) && fuel > 0
    ensures ValidateAll(ctx, [Target(JStr("Not a number"), JObj([("type", JStr("integer"))]), trace + [Step("id")])], fuel)
            == Ok([TypeMismatch(trace + [Step("id")], "string", "number")])
  {
    var child := Target(JStr("Not a number"), JObj([("type", JStr("integer"))]), trace + [Step("id")]);
    assert ValidateModel(ctx, child.value, child.schema, child.trace, fuel - 1)
        == Ok([TypeMismatch(trace + [Step("id")], "string", "number")]) by {
      PetIdChild(ctx, child.trace, fuel - 1);
    }
    ValidateSingle(ctx, child, fuel);
  }

  /** One child validation gives that child's errors. */
  lemma ValidateSingle(ctx: Context, child: Target, fuel: nat)
    requires fuel > 0 && ValidateModel(ctx, child.value, child.schema, child.trace, fuel - 1).Ok?
    ensures ValidateAll(ctx, [child], fuel) == ValidateModel(ctx, child.value, child.schema, child.trace, fuel - 1)
  {
    var r := ValidateModel(ctx, child.value, child.schema, child.trace, fuel - 1);
    assert [child][..0] == [] && [] + r.value == r.value;
  }

  /** The single child validation of `PetIdIsString`, on any schema and value with its shape. */
  lemma OneMistypedChild(ctx: Context, test: Json, schema: Json, trace: Trace, fuel: nat)
    requires Plain(ctx) && !ctx.spec.JUndefined? && schema.JObj? && test.JObj? && fuel > 0
    requires IsObjectShaped(schema) && !HasAllOf(schema) && !Truthy(Get(schema, "$ref"))
    requires !Truthy(Get(schema, "enum")) && !Truthy(Get(schema, "discriminator"))
    requires Get(schema, "required") == JArr([])
    requires PropertySchema(schema, "id") == JObj([("type", JStr("integer"))])
    requires OwnEntries(test) == [("id", JStr("Not a number"))]
    ensures ValidateModel(ctx, test, schema, trace, fuel) == Ok([TypeMismatch(trace + [Step("id")], "string", "number")])
  {
    var e := TypeMismatch(trace + [Step("id")], "string", "number");
    IdKey(ctx, test, schema, trace);
    IdChild(ctx, trace, fuel);
    assert MissingErrors(ctx, test, schema, trace, []) == [];
    DirectObjectOrder(ctx, test, schema, trace, fuel, [], [], [e]);
    assert [] + [] + [e] == [e];
  }

  /**
   * A string where an integer property is declared is one type mismatch at
   * the property's trace, reported as a string that should be a number.
   */
  lemma PetIdIsString(ctx: Context, schema: Json, test: Json, fuel: nat)
    requires Plain(ctx) && !ctx.spec.JUndefined? && fuel > 0
    requires schema == JObj([("type", JStr("object")), ("required", JArr([])),
                             ("properties", JObj([("id", JObj([("type", JStr("integer"))]))]))])
    requires test == JObj([("id", JStr("Not a number"))])
    ensures ValidateModel(ctx, test, schema, [Step("Pet")], fuel)
            == Ok([TypeMismatch([Step("Pet"), Step("id")], "string", "number")])
  {
    var trace := [Step("Pet")];
    assert trace + [Step("id")] == [Step("Pet"), Step("id")];
    PetSchemaShape(schema);
    PetValueEntries(test);
    OneMistypedChild(ctx, test, schema, trace, fuel);
  }

  /** The value of `PetIdIsString` is enumerated as its one field. */
  lemma PetValueEntries(test: Json)
    requires test == JObj([("id", JStr("Not a number"))])
    ensures OwnEntries(test) == [("id", JStr("Not a number"))]
  {
    NotIndexKey("id");
    SingleNamedEntry("id", JStr("Not a number"));
  }

  /** The keywords of the Pet schema of `PetIdIsString` that the dispatcher looks at. */
  lemma PetSchemaShape(schema: Json)
    requires schema == JObj([("type", JStr("object")), ("required", JArr([])),
                             ("properties", JObj([("id", JObj([("type", JStr("integer"))]))]))])
    ensures IsObjectShaped(schema) && !HasAllOf(schema) && !Truthy(Get(schema, "$ref"))
    ensures !Truthy(Get(schema, "enum")) && !Truthy(Get(schema, "discriminator"))
    ensures Get(schema, "required") == JArr([])
    ensures PropertySchema(schema, "id") == JObj([("type", JStr("integer"))])
  {
    assert Get(schema, "properties") == JObj([("id", JObj([("type", JStr("integer"))]))]);
  }
}
