/**
 * The object checker's parts that do not recurse into property values: the
 * `x-nullable` and non-object short cuts, the polymorphism resolver (the
 * definitions derived from a discriminated schema and the concrete subtype
 * the value's discriminator field selects), the required-property check and
 * the routing of each own key. Validating the property values themselves is
 * part of the mutually recursive engine in `ModelValidator`.
 */
module ObjectValidator {
  import opened Outcomes
  import opened JsonValues
  import opened TypeNames
  import opened Results
  import opened Configuration
  import opened PushErrors
  import opened Loader
  import opened AllOf
  import opened EnumValidator

  /** `config.allowXNullable === true && test === null && schema['x-nullable'] === true`. */
  predicate NullShortcut(config: Config, test: Json, schema: Json) {
    config.allowXNullable && test.JNull? && Get(schema, "x-nullable") == JBool(true)
  }

  /** `!test || !(test instanceof Object)`. */
  predicate NotAnObject(test: Json) {
    !Truthy(test) || !test.IsObjectLike()
  }

  /** The fatal mismatch of a non-object: its kind name against the schema's `title`, or `object`. */
  function ObjectMismatch(test: Json, schema: Json, trace: Trace, fmt: NumberFormat): (e: ValidationError)
    ensures e.TypeMismatch? && e.trace == trace && e.typeIs == GetTypeName(test)
    ensures !Truthy(Get(schema, "title")) ==> e.typeShouldBe == "object"
    ensures Get(schema, "title").JStr? && Truthy(Get(schema, "title")) ==> e.typeShouldBe == Get(schema, "title").s
  {
    var title := Get(schema, "title");
    TypeMismatch(trace, GetTypeName(test), if Truthy(title) then ToString(title, fmt) else "object")
  }

  /** The discriminator, used as a property name. */
  function DiscriminatorKey(schema: Json, fmt: NumberFormat): string {
    ToString(Get(schema, "discriminator"), fmt)
  }

  /**
   * `schema.discriminator && schema.properties[schema.discriminator]`: the
   * schema is polymorphic when it has a discriminator naming one of its
   * properties. With a discriminator but no `properties`, the read throws.
   */
  function IsPolymorphic(schema: Json, fmt: NumberFormat): (r: Outcome<bool>)
    ensures r.Failure? <==>
      Truthy(Get(schema, "discriminator")) && (Get(schema, "properties").JUndefined? || Get(schema, "properties").JNull?)
    ensures r.Failure? ==> r.error == TypeError
    ensures r == Ok(true) <==>
      Truthy(Get(schema, "discriminator")) && Truthy(Get(Get(schema, "properties"), DiscriminatorKey(schema, fmt)))
  {
    var properties := Get(schema, "properties");
    if !Truthy(Get(schema, "discriminator")) then Ok(false)
    else if properties.JUndefined? || properties.JNull? then Failure(TypeError)
    else Ok(Truthy(Get(properties, DiscriminatorKey(schema, fmt))))
  }

  /** The property schema a definition gives the discriminator. */
  function DiscriminatorProperty(schema: Json, key: string): Json {
    Get(Get(schema, "properties"), key)
  }

  /** Some member of `enumPoly`, in its string form, is listed in the abstract class's enum. */
  predicate EnumOverlaps(enumPoly: seq<Json>, abstractEnum: Json, fmt: NumberFormat)
    requires abstractEnum.JArr? || abstractEnum.JStr?
  {
    exists i :: 0 <= i < |enumPoly| && InEnum(abstractEnum, JStr(ToString(enumPoly[i], fmt)), fmt)
  }

  /**
   * The first filter of `findDerivedObjects`: a composed definition takes
   * part only if it has `allOf` and the discriminator property; when that
   * property has an enum, only if some member's string form is in the
   * abstract class's enum for the same property. Reading into a missing
   * `properties`, filtering an enum that is no array and looking into a
   * missing abstract enum throw.
   */
  function Candidate(abstractClass: Json, key: string, schema: Json, fmt: NumberFormat): (r: Outcome<bool>)
    ensures r == Ok(true) ==> Truthy(Get(schema, "allOf")) && Truthy(DiscriminatorProperty(schema, key))
    ensures !Truthy(Get(schema, "allOf")) ==> r == Ok(false)
    ensures var enumPoly, abstractEnum := Get(DiscriminatorProperty(schema, key), "enum"),
                                          Get(DiscriminatorProperty(abstractClass, key), "enum");
      r == Ok(true) && Truthy(enumPoly) ==>
        enumPoly.JArr? && (abstractEnum.JArr? || abstractEnum.JStr?) && EnumOverlaps(enumPoly.items, abstractEnum, fmt)
    ensures var property := DiscriminatorProperty(schema, key);
      (Truthy(Get(schema, "allOf")) && Get(schema, "properties").JObj? && Truthy(property)
       && !Truthy(Get(property, "enum"))) ==> r == Ok(true)
  {
    var properties := Get(schema, "properties");
    if !Truthy(Get(schema, "allOf")) then Ok(false)
    else if properties.JUndefined? || properties.JNull? then Failure(TypeError)
    else
      var property := Get(properties, key);
      var enumPoly := Get(property, "enum");
      if !Truthy(property) then Ok(false)
      else if !Truthy(enumPoly) then Ok(true)
      else if !enumPoly.JArr? then Failure(TypeError)
      else if |enumPoly.items| == 0 then Ok(false)
      else
        var abstractEnum := Get(DiscriminatorProperty(abstractClass, key), "enum");
        if !(abstractEnum.JArr? || abstractEnum.JStr?) then Failure(TypeError)
        else Ok(EnumOverlaps(enumPoly.items, abstractEnum, fmt))
  }

  /** Dereferences each entry in list order; the first failure rejects. */
  function LoadAll(ctx: Context, refs: seq<Json>, fuel: nat): (r: Outcome<seq<Json>>)
    ensures r.Ok? ==> |r.value| == |refs|
    ensures r.Ok? ==> forall i :: 0 <= i < |refs| ==> LoadSchema(ctx, refs[i], fuel) == Ok(r.value[i])
    ensures (forall i :: 0 <= i < |refs| ==> LoadSchema(ctx, refs[i], fuel).Ok?) ==> r.Ok?
    decreases |refs|
  {
    if |refs| == 0 then Ok([])
    else
      var front := refs[..|refs| - 1];
      assert forall i :: 0 <= i < |front| ==> front[i] == refs[i];
      var init :- LoadAll(ctx, front, fuel);
      var last :- LoadSchema(ctx, refs[|refs| - 1], fuel);
      Ok(init + [last])
  }

  /** Some loaded parent serialises exactly as the abstract class does. */
  predicate SomeParentIs(parents: seq<Json>, abstractClass: Json, fmt: NumberFormat) {
    exists i :: 0 <= i < |parents| && Stringify(parents[i], fmt) == Stringify(abstractClass, fmt)
  }

  /**
   * The second filter: some entry of the definition's `allOf`, once
   * dereferenced, is JSON-equal to the abstract class. An `allOf` that is no
   * array cannot be mapped and rejects.
   */
  function ExtendsAbstract(ctx: Context, abstractClass: Json, schema: Json, fuel: nat): (r: Outcome<bool>)
    ensures !Get(schema, "allOf").JArr? ==> r == Failure(TypeError)
    ensures r.Ok? ==> Get(schema, "allOf").JArr?
    ensures r.Ok? ==> (r.value <==>
      exists i :: 0 <= i < |Get(schema, "allOf").items|
        && LoadSchema(ctx, Get(schema, "allOf").items[i], fuel).Ok?
        && Stringify(LoadSchema(ctx, Get(schema, "allOf").items[i], fuel).value, ctx.env.numberFormat)
           == Stringify(abstractClass, ctx.env.numberFormat))
  {
    var allOf := Get(schema, "allOf");
    if !allOf.JArr? then Failure(TypeError)
    else
      var parents :- LoadAll(ctx, allOf.items, fuel);
      Ok(SomeParentIs(parents, abstractClass, ctx.env.numberFormat))
  }

  /** Composes every definition, keeping the names and their order. */
  function ComposeEach(ctx: Context, named: seq<(string, Json)>, fuel: nat): (r: Outcome<seq<(string, Json)>>)
    ensures r.Ok? ==> |r.value| == |named|
    ensures r.Ok? ==> forall i :: 0 <= i < |named| ==>
      r.value[i].0 == named[i].0 && ExtendAllAllOfs(ctx, named[i].1, fuel) == Ok(r.value[i].1)
    decreases |named|
  {
    if |named| == 0 then Ok([])
    else
      var init :- ComposeEach(ctx, named[..|named| - 1], fuel);
      var last :- ExtendAllAllOfs(ctx, named[|named| - 1].1, fuel);
      Ok(init + [(named[|named| - 1].0, last)])
  }

  /** The members of a list are those of its front and its last element. */
  lemma LastMembers(named: seq<(string, Json)>)
    requires |named| > 0
    ensures forall x :: x in named <==> x in named[..|named| - 1] || x == named[|named| - 1]
  {
    assert named == named[..|named| - 1] + [named[|named| - 1]];
  }

  /** The first filter over all composed definitions, in order; any throw rejects. */
  function FilterCandidates(abstractClass: Json, key: string, named: seq<(string, Json)>, fmt: NumberFormat)
    : (r: Outcome<seq<(string, Json)>>)
    ensures r.Ok? ==> forall x :: x in r.value <==> x in named && Candidate(abstractClass, key, x.1, fmt) == Ok(true)
    ensures (forall i :: 0 <= i < |named| ==> Candidate(abstractClass, key, named[i].1, fmt).Ok?) ==> r.Ok?
    decreases |named|
  {
    if |named| == 0 then Ok([])
    else
      var last := named[|named| - 1];
      var init :- FilterCandidates(abstractClass, key, named[..|named| - 1], fmt);
      var keep :- Candidate(abstractClass, key, last.1, fmt);
      LastMembers(named);
      Ok(init + if keep then [last] else [])
  }

  /** The second filter over the survivors of the first, in order; any rejection rejects. */
  function FilterExtending(ctx: Context, abstractClass: Json, named: seq<(string, Json)>, fuel: nat)
    : (r: Outcome<seq<(string, Json)>>)
    ensures r.Ok? ==> forall x :: x in r.value <==> x in named && ExtendsAbstract(ctx, abstractClass, x.1, fuel) == Ok(true)
    decreases |named|
  {
    if |named| == 0 then Ok([])
    else
      var last := named[|named| - 1];
      var init :- FilterExtending(ctx, abstractClass, named[..|named| - 1], fuel);
      var keep :- ExtendsAbstract(ctx, abstractClass, last.1, fuel);
      LastMembers(named);
      Ok(init + if keep then [last] else [])
  }

  /**
   * The spec as the second filter reads it: composing the definitions
   * updated each of them in place, so `#/definitions/…` references now reach
   * the composed schemas.
   */
  function ComposedContext(ctx: Context, composed: seq<(string, Json)>): Context {
    if Get(ctx.spec, "definitions").JObj? then ctx.(spec := Set(ctx.spec, "definitions", JObj(composed)))
    else ctx
  }

  /**
   * `findDerivedObjects(abstractClass)`: every definition, composed, that
   * passes both filters, named and in the definitions' key order. Listing
   * the definitions of a spec without them throws.
   */
  function FindDerivedObjects(ctx: Context, abstractClass: Json, fuel: nat): (r: Outcome<seq<(string, Json)>>)
    ensures var definitions := Get(ctx.spec, "definitions");
      definitions.JUndefined? || definitions.JNull? ==> r == Failure(TypeError)
  {
    var definitions := Get(ctx.spec, "definitions");
    var fmt := ctx.env.numberFormat;
    if definitions.JUndefined? || definitions.JNull? then Failure(TypeError)
    else
      var composed :- ComposeEach(ctx, OwnEntries(definitions), fuel);
      var candidates :- FilterCandidates(abstractClass, DiscriminatorKey(abstractClass, fmt), composed, fmt);
      FilterExtending(ComposedContext(ctx, composed), abstractClass, candidates, fuel)
  }

  /**
   * Every derived object is a definition, under its own name, composed; it
   * has `allOf` and the discriminator property, its enum (if any) overlaps
   * the abstract class's, and some `allOf` parent, read from the composed
   * spec, is JSON-equal to the abstract class.
   */
  lemma DerivedAreCandidates(ctx: Context, abstractClass: Json, fuel: nat)
    ensures var r, named := FindDerivedObjects(ctx, abstractClass, fuel), OwnEntries(Get(ctx.spec, "definitions"));
      var composed := ComposeEach(ctx, named, fuel);
      r.Ok? ==> composed.Ok? && forall x :: x in r.value ==>
        (exists i :: 0 <= i < |named| && named[i].0 == x.0 && ExtendAllAllOfs(ctx, named[i].1, fuel) == Ok(x.1))
        && Candidate(abstractClass, DiscriminatorKey(abstractClass, ctx.env.numberFormat), x.1, ctx.env.numberFormat) == Ok(true)
        && Truthy(Get(x.1, "allOf"))
        && Truthy(DiscriminatorProperty(x.1, DiscriminatorKey(abstractClass, ctx.env.numberFormat)))
        && ExtendsAbstract(ComposedContext(ctx, composed.value), abstractClass, x.1, fuel) == Ok(true)
  {
    var fmt := ctx.env.numberFormat;
    var key := DiscriminatorKey(abstractClass, fmt);
    var r := FindDerivedObjects(ctx, abstractClass, fuel);
    if r.Ok? {
      var named := OwnEntries(Get(ctx.spec, "definitions"));
      DerivedSteps(ctx, abstractClass, fuel);
      var composed := ComposeEach(ctx, named, fuel).value;
      var candidates := FilterCandidates(abstractClass, key, composed, fmt).value;
      forall x | x in r.value
        ensures exists i :: 0 <= i < |named| && named[i].0 == x.0 && ExtendAllAllOfs(ctx, named[i].1, fuel) == Ok(x.1)
        ensures Candidate(abstractClass, key, x.1, fmt) == Ok(true)
        ensures ExtendsAbstract(ComposedContext(ctx, composed), abstractClass, x.1, fuel) == Ok(true)
      {
        DerivedMember(ctx, abstractClass, fuel, named, composed, candidates, x);
      }
    }
  }

  /** One survivor of both filters: which definition it composes, and the two filters it passed. */
  lemma DerivedMember(ctx: Context, abstractClass: Json, fuel: nat, named: seq<(string, Json)>,
                      composed: seq<(string, Json)>, candidates: seq<(string, Json)>, x: (string, Json))
    requires ComposeEach(ctx, named, fuel) == Ok(composed)
    requires FilterCandidates(abstractClass, DiscriminatorKey(abstractClass, ctx.env.numberFormat), composed, ctx.env.numberFormat)
             == Ok(candidates)
    requires var r := FilterExtending(ComposedContext(ctx, composed), abstractClass, candidates, fuel);
      r.Ok? && x in r.value
    ensures exists i :: 0 <= i < |named| && named[i].0 == x.0 && ExtendAllAllOfs(ctx, named[i].1, fuel) == Ok(x.1)
    ensures Candidate(abstractClass, DiscriminatorKey(abstractClass, ctx.env.numberFormat), x.1, ctx.env.numberFormat) == Ok(true)
    ensures ExtendsAbstract(ComposedContext(ctx, composed), abstractClass, x.1, fuel) == Ok(true)
  {
    assert x in candidates;
    assert x in composed;
    ComposedMember(ctx, named, fuel, composed, x);
  }

  /** A composed definition comes from a definition of the same name. */
  lemma ComposedMember(ctx: Context, named: seq<(string, Json)>, fuel: nat, composed: seq<(string, Json)>, x: (string, Json))
    requires ComposeEach(ctx, named, fuel) == Ok(composed) && x in composed
    ensures exists i :: 0 <= i < |named| && named[i].0 == x.0 && ExtendAllAllOfs(ctx, named[i].1, fuel) == Ok(x.1)
  {
    var i :| 0 <= i < |composed| && composed[i] == x;
    assert named[i].0 == x.0 && ExtendAllAllOfs(ctx, named[i].1, fuel) == Ok(x.1);
  }

  /** The two filters of a successful `findDerivedObjects`, one after the other. */
  lemma DerivedSteps(ctx: Context, abstractClass: Json, fuel: nat)
    requires FindDerivedObjects(ctx, abstractClass, fuel).Ok?
    ensures var named, fmt := OwnEntries(Get(ctx.spec, "definitions")), ctx.env.numberFormat;
      var composed := ComposeEach(ctx, named, fuel);
      composed.Ok?
      && var candidates := FilterCandidates(abstractClass, DiscriminatorKey(abstractClass, fmt), composed.value, fmt);
      candidates.Ok?
      && FindDerivedObjects(ctx, abstractClass, fuel)
         == FilterExtending(ComposedContext(ctx, composed.value), abstractClass, candidates.value, fuel)
  {
  }

  /**
   * A derived definition matches the value when its discriminator property
   * has a one-element enum whose element is `===` to the value's field, or
   * when that field is `===` to the definition's name.
   */
  predicate Matches(key: string, test: Json, derived: (string, Json)) {
    var values := Get(DiscriminatorProperty(derived.1, key), "enum");
    (Truthy(values) && StrictEquals(Get(values, "length"), JNum(1.0)) && StrictEquals(Get(values, "0"), Get(test, key)))
    || StrictEquals(Get(test, key), JStr(derived.0))
  }

  /** The matching derived definitions, in order. */
  function Matching(key: string, test: Json, derived: seq<(string, Json)>): (r: seq<(string, Json)>)
    ensures forall x :: x in r <==> x in derived && Matches(key, test, x)
    decreases |derived|
  {
    if |derived| == 0 then []
    else
      var last := derived[|derived| - 1];
      assert forall x :: x in derived <==> x in derived[..|derived| - 1] || x == last;
      Matching(key, test, derived[..|derived| - 1]) + if Matches(key, test, last) then [last] else []
  }

  /** The trace with its last step annotated with the concrete model's name. */
  function Annotated(trace: Trace, name: string): (r: Trace)
    requires |trace| > 0
    ensures NamesExtend(trace, r) && NamesExtend(r, trace)
    ensures r[|trace| - 1].concreteModel == Some(name)
  {
    trace[|trace| - 1 := trace[|trace| - 1].(concreteModel := Some(name))]
  }

  /**
   * `findPolymorphicConcreteClass(abstractClass, trace, test)`: without
   * derived definitions, without a match or with several matches the
   * resolution rejects. A unique match annotates the trace's last step with
   * its name; if the match is itself discriminated, a step with its name is
   * pushed and resolution continues from it. The result is the concrete
   * schema and the trace as left.
   */
  function FindPolymorphicConcreteClass(ctx: Context, abstractClass: Json, trace: Trace, test: Json, fuel: nat)
    : (r: Outcome<(Json, Trace)>)
    ensures r.Ok? ==> !Truthy(Get(r.value.0, "discriminator"))
    ensures r.Ok? ==> |trace| > 0 && NamesExtend(trace, r.value.1)
    ensures r.Ok? ==> forall i :: 0 <= i < |trace| - 1 ==> r.value.1[i] == trace[i]
    ensures r.Ok? ==> r.value.1[|trace| - 1] == trace[|trace| - 1].(concreteModel := r.value.1[|trace| - 1].concreteModel)
                      && r.value.1[|trace| - 1].concreteModel.Some?
    decreases fuel
  {
    var derived :- FindDerivedObjects(ctx, abstractClass, fuel);
    var matches := Matching(DiscriminatorKey(abstractClass, ctx.env.numberFormat), test, derived);
    if |derived| == 0 then Failure(ConfusingDiscriminator(trace))
    else if |matches| == 0 then Failure(NoConcreteObject(trace))
    else if |matches| > 1 then Failure(MoreThanOneConcreteObject(trace))
    else if |trace| == 0 then Failure(TypeError)
    else
      var name, schema := matches[0].0, matches[0].1;
      var annotated := Annotated(trace, name);
      if !Truthy(Get(schema, "discriminator")) then Ok((schema, annotated))
      else if fuel == 0 then Failure(OutOfFuel)
      else
        var r := FindPolymorphicConcreteClass(ctx, schema, annotated + [Step(name)], test, fuel - 1);
        if r.Ok? then
          NamesExtendTransitive(trace, annotated + [Step(name)], r.value.1);
          assert r.value.1[|trace| - 1] == (annotated + [Step(name)])[|trace| - 1];
          r
        else r
  }

  lemma NamesExtendTransitive(a: Trace, b: Trace, c: Trace)
    requires NamesExtend(a, b) && NamesExtend(b, c)
    ensures NamesExtend(a, c)
  {
  }

  /**
   * The schema the object checker goes on with: the concrete subtype for a
   * polymorphic schema, the composed schema otherwise, with the trace as
   * polymorphism left it.
   */
  function ConcreteClass(ctx: Context, schema: Json, trace: Trace, test: Json, fuel: nat): (r: Outcome<(Json, Trace)>)
    ensures IsPolymorphic(schema, ctx.env.numberFormat) == Ok(false) ==>
      r == (match ExtendAllAllOfs(ctx, schema, fuel) case Ok(c) => Ok((c, trace)) case Failure(e) => Failure(e))
    ensures r.Ok? ==> NamesExtend(trace, r.value.1)
  {
    var poly :- IsPolymorphic(schema, ctx.env.numberFormat);
    if poly then FindPolymorphicConcreteClass(ctx, schema, trace, test, fuel)
    else
      var composed :- ExtendAllAllOfs(ctx, schema, fuel);
      Ok((composed, trace))
  }

  /**
   * A required name the value lacks: reading it gives `undefined`, also for
   * an explicit `undefined`. A name an object inherits (`constructor`) reads
   * as a function, so it is never missing.
   */
  predicate IsMissing(test: Json, name: Json, fmt: NumberFormat) {
    var key := ToString(name, fmt);
    Get(test, key).JUndefined? && !InheritsMember(test, key)
  }

  /** The error for a missing required name, at a step named after it. */
  function MissingError(trace: Trace, name: Json, fmt: NumberFormat): ValidationError {
    MissingRequired(trace + [Step(ToString(name, fmt))])
  }

  /**
   * The errors the `required` loop pushes, in list order: one per name the
   * value lacks, unless the ignore hook drops it.
   */
  function MissingErrors(ctx: Context, test: Json, schema: Json, trace: Trace, names: seq<Json>)
    : (r: seq<ValidationError>)
    ensures |r| <= |names|
    decreases |names|
  {
    if |names| == 0 then []
    else
      var fmt := ctx.env.numberFormat;
      var last := names[|names| - 1];
      MissingErrors(ctx, test, schema, trace, names[..|names| - 1])
      + Pushed(ctx, IsMissing(test, last, fmt), MissingError(trace, last, fmt), test, schema)
  }

  /** Every missing-property error is for a listed name the value lacks, at that name's step. */
  lemma {:induction false} MissingErrorsSound(ctx: Context, test: Json, schema: Json, trace: Trace, names: seq<Json>)
    ensures forall e :: e in MissingErrors(ctx, test, schema, trace, names) ==>
      exists i :: 0 <= i < |names| && IsMissing(test, names[i], ctx.env.numberFormat)
                  && e == MissingError(trace, names[i], ctx.env.numberFormat)
    decreases |names|
  {
    if |names| > 0 {
      var fmt, init, n := ctx.env.numberFormat, names[..|names| - 1], |names| - 1;
      MissingErrorsSound(ctx, test, schema, trace, init);
      var error := MissingError(trace, names[n], fmt);
      var pushed := Pushed(ctx, IsMissing(test, names[n], fmt), error, test, schema);
      forall e | e in MissingErrors(ctx, test, schema, trace, names)
        ensures exists i :: 0 <= i < |names| && IsMissing(test, names[i], fmt) && e == MissingError(trace, names[i], fmt)
      {
        if e in MissingErrors(ctx, test, schema, trace, init) {
          var i :| 0 <= i < |init| && IsMissing(test, init[i], fmt) && e == MissingError(trace, init[i], fmt);
          assert init[i] == names[i];
        } else {
          assert e in pushed;
          assert IsMissing(test, names[n], fmt) && e == error;
        }
      }
    }
  }

  /** Every listed name the value lacks is reported, unless the ignore hook drops it. */
  lemma {:induction false} MissingErrorsComplete(ctx: Context, test: Json, schema: Json, trace: Trace, names: seq<Json>)
    ensures var r, fmt := MissingErrors(ctx, test, schema, trace, names), ctx.env.numberFormat;
      forall i :: 0 <= i < |names| && IsMissing(test, names[i], fmt)
                  && !Ignored(ctx, MissingError(trace, names[i], fmt), test, schema)
                  ==> MissingError(trace, names[i], fmt) in r
    decreases |names|
  {
    if |names| > 0 {
      var fmt, init, last := ctx.env.numberFormat, names[..|names| - 1], names[|names| - 1];
      MissingErrorsComplete(ctx, test, schema, trace, init);
      var pushed := Pushed(ctx, IsMissing(test, last, fmt), MissingError(trace, last, fmt), test, schema);
      var r := MissingErrors(ctx, test, schema, trace, names);
      assert r == MissingErrors(ctx, test, schema, trace, init) + pushed;
      forall i | 0 <= i < |names| && IsMissing(test, names[i], fmt)
                 && !Ignored(ctx, MissingError(trace, names[i], fmt), test, schema)
        ensures MissingError(trace, names[i], fmt) in r
      {
        if i < |names| - 1 {
          assert init[i] == names[i];
        } else {
          assert MissingError(trace, last, fmt) in pushed;
        }
      }
    }
  }

  /** `required: ["constructor"]` on `{}`: the inherited `Object` function is found, so nothing is reported. */
  lemma InheritedNameNotMissing(ctx: Context, schema: Json, trace: Trace)
    ensures MissingErrors(ctx, JObj([]), schema, trace, [JStr("constructor")]) == []
  {
    assert InheritsMember(JObj([]), "constructor");
    assert !IsMissing(JObj([]), JStr("constructor"), ctx.env.numberFormat);
    assert [JStr("constructor")][..0] == [];
  }

  /**
   * The required check: nothing without a truthy `required`; a list that is
   * no array has no `forEach` and throws.
   */
  function RequiredErrors(ctx: Context, test: Json, schema: Json, trace: Trace): (r: Outcome<seq<ValidationError>>)
    ensures var required := Get(schema, "required");
      (!Truthy(required) ==> r == Ok([]))
      && (Truthy(required) && !required.JArr? ==> r == Failure(TypeError))
      && (required.JArr? ==> r == Ok(MissingErrors(ctx, test, schema, trace, required.items)))
  {
    var required := Get(schema, "required");
    if !Truthy(required) then Ok([])
    else if !required.JArr? then Failure(TypeError)
    else Ok(MissingErrors(ctx, test, schema, trace, required.items))
  }

  lemma MissingStep(ctx: Context, test: Json, schema: Json, trace: Trace, names: seq<Json>, i: nat)
    requires i < |names|
    ensures var fmt := ctx.env.numberFormat;
      MissingErrors(ctx, test, schema, trace, names[..i + 1])
      == MissingErrors(ctx, test, schema, trace, names[..i])
         + Pushed(ctx, IsMissing(test, names[i], fmt), MissingError(trace, names[i], fmt), test, schema)
  {
    assert names[..i + 1][..i] == names[..i];
  }

  /** The `required.forEach` loop, pushing onto the error list in place. */
  method RequiredLoop(ctx: Context, test: Json, schema: Json, trace: Trace, names: seq<Json>)
    returns (errors: seq<ValidationError>)
    ensures errors == MissingErrors(ctx, test, schema, trace, names)
  {
    var list := new ErrorList();
    var i := 0;
    while i < |names|
      invariant 0 <= i <= |names|
      invariant list.errors == MissingErrors(ctx, test, schema, trace, names[..i])
    {
      RequiredCallback(list, ctx, test, schema, trace, names, i);
      i := i + 1;
    }
    assert names[..i] == names;
    return list.errors;
  }

  /** The `forEach` callback for the `i`-th name: push its error when the value lacks it. */
  method RequiredCallback(list: ErrorList, ctx: Context, test: Json, schema: Json, trace: Trace, names: seq<Json>, i: nat)
    requires i < |names| && list.errors == MissingErrors(ctx, test, schema, trace, names[..i])
    modifies list
    ensures list.errors == MissingErrors(ctx, test, schema, trace, names[..i + 1])
  {
    var fmt := ctx.env.numberFormat;
    MissingStep(ctx, test, schema, trace, names, i);
    list.PushIf(ctx, IsMissing(test, names[i], fmt), MissingError(trace, names[i], fmt), test, schema);
  }

  /**
   * The schema for an own key: `properties[name]` when that is truthy; else,
   * with a truthy `additionalProperties`, that object's own member of the
   * same name (read as if it were a properties map).
   */
  function PropertySchema(schema: Json, name: string): Json {
    var properties, additional := Get(schema, "properties"), Get(schema, "additionalProperties");
    if Truthy(properties) && Truthy(Get(properties, name)) then Get(properties, name)
    else if Truthy(additional) then Get(additional, name)
    else JUndefined
  }

  /**
   * A key's own entry in `properties` wins over `additionalProperties`; a key
   * with neither a truthy entry nor a truthy `additionalProperties` has no
   * schema.
   */
  lemma PropertySchemaPrecedence(schema: Json, name: string)
    ensures Truthy(Get(Get(schema, "properties"), name)) ==>
      PropertySchema(schema, name) == Get(Get(schema, "properties"), name)
    ensures !Truthy(Get(Get(schema, "properties"), name)) && Truthy(Get(schema, "additionalProperties")) ==>
      PropertySchema(schema, name) == Get(Get(schema, "additionalProperties"), name)
    ensures !Truthy(Get(Get(schema, "properties"), name)) && !Truthy(Get(schema, "additionalProperties")) ==>
      PropertySchema(schema, name) == JUndefined
  {
    var properties := Get(schema, "properties");
    if Truthy(Get(properties, name)) {
      assert Truthy(properties) by {
        if properties.JStr? { assert |properties.s| > 0; }
      }
    }
  }

  /** What the key loop does with one own key. */
  datatype KeyCheck = Skipped | Additional | Child(schema: Json)

  /**
   * A key with a schema is validated against it. A key without one is
   * skipped when additional properties are allowed, reported when
   * `additionalProperties` is falsy, and otherwise validated against
   * `additionalProperties` itself.
   */
  function CheckKey(config: Config, schema: Json, name: string): (r: KeyCheck)
    ensures Truthy(PropertySchema(schema, name)) ==> r == Child(PropertySchema(schema, name))
    ensures r.Additional? <==>
      !Truthy(PropertySchema(schema, name)) && !config.allowAdditionalProperties
      && !Truthy(Get(schema, "additionalProperties"))
    ensures r.Child? ==> Truthy(r.schema)
    ensures r.Skipped? <==> !Truthy(PropertySchema(schema, name)) && config.allowAdditionalProperties
  {
    var own, additional := PropertySchema(schema, name), Get(schema, "additionalProperties");
    if Truthy(own) then Child(own)
    else if config.allowAdditionalProperties then Skipped
    else if !Truthy(additional) then Additional
    else Child(additional)
  }

  /** A value to validate, the schema to validate it against and its trace. */
  datatype Target = Target(value: Json, schema: Json, trace: Trace)

  /** The additional-property errors of the key loop, in key order. */
  function AdditionalErrors(ctx: Context, test: Json, schema: Json, trace: Trace, entries: seq<(string, Json)>)
    : (r: seq<ValidationError>)
    ensures |r| <= |entries|
    decreases |entries|
  {
    if |entries| == 0 then []
    else
      var name := entries[|entries| - 1].0;
      AdditionalErrors(ctx, test, schema, trace, entries[..|entries| - 1])
      + Pushed(ctx, CheckKey(ctx.config, schema, name).Additional?, AdditionalProperty(trace + [Step(name)]), test, schema)
  }

  /** Every additional-property error is for an own key without a schema, at that key's step. */
  lemma {:induction false} AdditionalSound(ctx: Context, test: Json, schema: Json, trace: Trace, entries: seq<(string, Json)>)
    ensures forall e :: e in AdditionalErrors(ctx, test, schema, trace, entries) ==>
      exists i :: 0 <= i < |entries| && CheckKey(ctx.config, schema, entries[i].0).Additional?
                  && e == AdditionalProperty(trace + [Step(entries[i].0)])
    decreases |entries|
  {
    if |entries| > 0 {
      var init, n := entries[..|entries| - 1], |entries| - 1;
      AdditionalSound(ctx, test, schema, trace, init);
      var error := AdditionalProperty(trace + [Step(entries[n].0)]);
      var pushed := Pushed(ctx, CheckKey(ctx.config, schema, entries[n].0).Additional?, error, test, schema);
      forall e | e in AdditionalErrors(ctx, test, schema, trace, entries)
        ensures exists i :: 0 <= i < |entries| && CheckKey(ctx.config, schema, entries[i].0).Additional?
                            && e == AdditionalProperty(trace + [Step(entries[i].0)])
      {
        if e in AdditionalErrors(ctx, test, schema, trace, init) {
          var i :| 0 <= i < |init| && CheckKey(ctx.config, schema, init[i].0).Additional?
                   && e == AdditionalProperty(trace + [Step(init[i].0)]);
          assert init[i] == entries[i];
        } else {
          assert e in pushed;
          assert CheckKey(ctx.config, schema, entries[n].0).Additional? && e == error;
        }
      }
    }
  }

  /** Every own key without a schema is reported, unless the ignore hook drops it. */
  lemma {:induction false} AdditionalComplete(ctx: Context, test: Json, schema: Json, trace: Trace, entries: seq<(string, Json)>)
    ensures forall i :: 0 <= i < |entries| && CheckKey(ctx.config, schema, entries[i].0).Additional?
                        && !Ignored(ctx, AdditionalProperty(trace + [Step(entries[i].0)]), test, schema)
                        ==> AdditionalProperty(trace + [Step(entries[i].0)]) in AdditionalErrors(ctx, test, schema, trace, entries)
    decreases |entries|
  {
    if |entries| > 0 {
      var init, name := entries[..|entries| - 1], entries[|entries| - 1].0;
      AdditionalComplete(ctx, test, schema, trace, init);
      var error := AdditionalProperty(trace + [Step(name)]);
      var pushed := Pushed(ctx, CheckKey(ctx.config, schema, name).Additional?, error, test, schema);
      var r := AdditionalErrors(ctx, test, schema, trace, entries);
      assert r == AdditionalErrors(ctx, test, schema, trace, init) + pushed;
      forall i | 0 <= i < |entries| && CheckKey(ctx.config, schema, entries[i].0).Additional?
                 && !Ignored(ctx, AdditionalProperty(trace + [Step(entries[i].0)]), test, schema)
        ensures AdditionalProperty(trace + [Step(entries[i].0)]) in r
      {
        if i < |entries| - 1 {
          assert init[i] == entries[i];
        } else {
          assert error in pushed;
        }
      }
    }
  }

  lemma AdditionalStep(ctx: Context, test: Json, schema: Json, trace: Trace, entries: seq<(string, Json)>, i: nat)
    requires i < |entries|
    ensures AdditionalErrors(ctx, test, schema, trace, entries[..i + 1])
      == AdditionalErrors(ctx, test, schema, trace, entries[..i])
         + Pushed(ctx, CheckKey(ctx.config, schema, entries[i].0).Additional?,
                  AdditionalProperty(trace + [Step(entries[i].0)]), test, schema)
  {
    assert entries[..i + 1][..i] == entries[..i];
  }

  lemma ChildStep(config: Config, schema: Json, trace: Trace, entries: seq<(string, Json)>, i: nat)
    requires i < |entries|
    ensures ChildTargets(config, schema, trace, entries[..i + 1])
      == ChildTargets(config, schema, trace, entries[..i])
         + match CheckKey(config, schema, entries[i].0)
           case Child(s) => [Target(entries[i].1, s, trace + [Step(entries[i].0)])]
           case _ => []
  {
    assert entries[..i + 1][..i] == entries[..i];
  }

  /** The child validations of the key loop, in key order, each with the key's step pushed onto a copy of the trace. */
  function ChildTargets(config: Config, schema: Json, trace: Trace, entries: seq<(string, Json)>): (r: seq<Target>)
    ensures |r| <= |entries|
    ensures forall t :: t in r ==>
      exists i :: 0 <= i < |entries| && CheckKey(config, schema, entries[i].0).Child?
                  && t == Target(entries[i].1, CheckKey(config, schema, entries[i].0).schema, trace + [Step(entries[i].0)])
    ensures forall i :: 0 <= i < |entries| && CheckKey(config, schema, entries[i].0).Child? ==>
      Target(entries[i].1, CheckKey(config, schema, entries[i].0).schema, trace + [Step(entries[i].0)]) in r
    decreases |entries|
  {
    if |entries| == 0 then []
    else
      var (name, value) := entries[|entries| - 1];
      var init := ChildTargets(config, schema, trace, entries[..|entries| - 1]);
      assert forall i :: 0 <= i < |entries| - 1 ==> entries[..|entries| - 1][i] == entries[i];
      var check := CheckKey(config, schema, name);
      init + if check.Child? then [Target(value, check.schema, trace + [Step(name)])] else []
  }

  /** Every child's trace is the object's trace with one step pushed. */
  lemma ChildTraces(config: Config, schema: Json, trace: Trace, entries: seq<(string, Json)>)
    ensures forall t :: t in ChildTargets(config, schema, trace, entries) ==>
      NamesExtend(trace, t.trace) && |t.trace| == |trace| + 1
  {
  }

  /**
   * The `for…in` loop over the value's own keys: an additional property is
   * pushed onto the error list, a key to validate is pushed onto the list of
   * child validations.
   */
  method KeyLoop(ctx: Context, test: Json, schema: Json, trace: Trace)
    returns (errors: seq<ValidationError>, children: seq<Target>)
    ensures errors == AdditionalErrors(ctx, test, schema, trace, OwnEntries(test))
    ensures children == ChildTargets(ctx.config, schema, trace, OwnEntries(test))
  {
    var list := new ErrorList();
    var entries := OwnEntries(test);
    children := [];
    var i := 0;
    assert entries[..i] == [];
    while i < |entries|
      invariant 0 <= i <= |entries|
      invariant list.errors == AdditionalErrors(ctx, test, schema, trace, entries[..i])
      invariant children == ChildTargets(ctx.config, schema, trace, entries[..i])
    {
      children := KeyBody(list, children, ctx, test, schema, trace, entries, i);
      i := i + 1;
    }
    assert entries[..i] == entries;
    errors := list.errors;
  }

  /** The loop body for the `i`-th own key. */
  method KeyBody(list: ErrorList, children: seq<Target>, ctx: Context, test: Json, schema: Json, trace: Trace,
                 entries: seq<(string, Json)>, i: nat)
    returns (children': seq<Target>)
    requires i < |entries|
    requires list.errors == AdditionalErrors(ctx, test, schema, trace, entries[..i])
    requires children == ChildTargets(ctx.config, schema, trace, entries[..i])
    modifies list
    ensures list.errors == AdditionalErrors(ctx, test, schema, trace, entries[..i + 1])
    ensures children' == ChildTargets(ctx.config, schema, trace, entries[..i + 1])
  {
    AdditionalStep(ctx, test, schema, trace, entries, i);
    ChildStep(ctx.config, schema, trace, entries, i);
    var (name, value) := entries[i];
    var own := PropertySchema(schema, name);
    var newTrace := trace + [Step(name)];
    children' := children;
    if !Truthy(own) {
      if ctx.config.allowAdditionalProperties {
      } else if !Truthy(Get(schema, "additionalProperties")) {
        list.Push(ctx, AdditionalProperty(newTrace), test, schema);
      } else {
        children' := children + [Target(value, Get(schema, "additionalProperties"), newTrace)];
      }
    } else {
      children' := children + [Target(value, own, newTrace)];
    }
  }
}
