/**
 * The enum check, which replaces the type check when a schema has `enum`.
 */
module EnumValidator {
  import opened Outcomes
  import opened Text
  import opened JsonValues
  import opened Results
  import opened Configuration
  import opened PushErrors

  /**
   * `schema.enum.indexOf(test) !== -1`: membership by `===` in an array; for
   * a string, `indexOf` looks for the value's string form as a substring.
   */
  predicate InEnum(list: Json, test: Json, fmt: NumberFormat)
    requires list.JArr? || list.JStr?
  {
    if list.JArr? then ContainsStrict(list.items, test)
    else IndexOf(list.s, ToString(test, fmt)).Some?
  }

  /** A text enum matches any substring of itself: "old" is found in "available,sold". */
  lemma TextEnumSubstring(fmt: NumberFormat)
    ensures InEnum(JStr("available,sold"), JStr("old"), fmt)
    ensures !InEnum(JArr([JStr("available"), JStr("sold")]), JStr("old"), fmt)
  {
    assert OccursAt("available,sold", "old", 11) by { assert "available,sold"[11..14] == "old"; }
  }

  /**
   * `validateEnum(test, schema, spec, config, trace)`. An enum that is neither
   * an array nor a string has no `indexOf` and the call throws. Otherwise at
   * most one ENUM_MISMATCH, carrying the value, the whole enum and the node's
   * trace, reported exactly when the value is not a member and the ignore hook
   * keeps it.
   */
  function ValidateEnum(ctx: Context, test: Json, schema: Json, trace: Trace): (r: Outcome<seq<ValidationError>>)
    ensures var list := Get(schema, "enum");
      !(list.JArr? || list.JStr?) ==> r == Failure(TypeError)
    ensures var list, e := Get(schema, "enum"), EnumMismatch(trace, test, Get(schema, "enum"));
      (list.JArr? || list.JStr?) ==>
        r.Ok? && (r.value == [] || r.value == [e])
        && (r.value == [] <==> InEnum(list, test, ctx.env.numberFormat) || Ignored(ctx, e, test, schema))
  {
    var list := Get(schema, "enum");
    if !(list.JArr? || list.JStr?) then Failure(TypeError)
    else
      var missing := if list.JArr? then !ContainsStrict(list.items, test)
                     else IndexOf(list.s, ToString(test, ctx.env.numberFormat)).None?;
      Ok(Pushed(ctx, missing, EnumMismatch(trace, test, list), test, schema))
  }

  /** A listed value passes; NaN never does, since `indexOf` compares with `===`. */
  lemma EnumExamples(ctx: Context)
    requires ctx.config.ignoreError.None?
    ensures var schema := JObj([("enum", JArr([JStr("available"), JStr("sold"), JNaN]))]);
      ValidateEnum(ctx, JStr("sold"), schema, []) == Ok([])
      && ValidateEnum(ctx, JNaN, schema, []) == Ok([EnumMismatch([], JNaN, Get(schema, "enum"))])
      && ValidateEnum(ctx, JStr("Sold"), schema, []) == Ok([EnumMismatch([], JStr("Sold"), Get(schema, "enum"))])
  {
    var schema := JObj([("enum", JArr([JStr("available"), JStr("sold"), JNaN]))]);
    var items := [JStr("available"), JStr("sold"), JNaN];
    assert Get(schema, "enum") == JArr(items);
    assert StrictEquals(items[1], JStr("sold"));
    assert !ContainsStrict(items, JNaN);
    assert !ContainsStrict(items, JStr("Sold")) by {
      assert "available" != "Sold" && "sold" != "Sold";
    }
  }
}
