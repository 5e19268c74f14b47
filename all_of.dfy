/**
 * `allOf` composition: every parent's `required` names and `properties` are
 * merged into the child, the child's own entries winning, and the child is
 * marked `allOfResolved`. The merge is a value-to-value function here; the
 * in-place version lives in `SchemaNodes`.
 */
module AllOf {
  import opened Outcomes
  import opened JsonValues
  import opened Results
  import opened Configuration
  import opened Loader

  /** The elements of an array, none for anything else. */
  function Items(j: Json): seq<Json> {
    if j.JArr? then j.items else []
  }

  /** `xs.filter(x => ys.indexOf(x) === -1)`. */
  function NotIn(xs: seq<Json>, ys: seq<Json>): (r: seq<Json>)
    ensures forall i :: 0 <= i < |r| ==> !ContainsStrict(ys, r[i])
    ensures forall i :: 0 <= i < |xs| && !ContainsStrict(ys, xs[i]) ==> xs[i] in r
    ensures forall x :: x in r ==> x in xs
  {
    if |xs| == 0 then []
    else
      var rest := NotIn(xs[1..], ys);
      assert forall i :: 1 <= i < |xs| ==> xs[i] == xs[1..][i - 1];
      (if ContainsStrict(ys, xs[0]) then [] else [xs[0]]) + rest
  }

  /** The `required` step of `extend(from, to)`. */
  function MergeRequired(from: Json, to: Json): Json {
    var parent := Get(from, "required");
    var child := Get(to, "required");
    if !Truthy(parent) then to
    else if Truthy(child) then Set(to, "required", JArr(Items(child) + NotIn(Items(parent), Items(child))))
    else Set(to, "required", parent)
  }

  /** The child's `properties`, as the loop sees it once a falsy one is replaced by `{}`. */
  function ChildProperties(to: Json): Json {
    if Truthy(Get(to, "properties")) then Get(to, "properties") else JObj([])
  }

  /** One turn of the `properties` loop: a parent property is copied unless the child has a truthy one. */
  function CopyProperty(to: Json, name: string, property: Json): Json {
    if Truthy(Get(Get(to, "properties"), name)) then to
    else Set(to, "properties", Set(ChildProperties(to), name, property))
  }

  /** The whole `properties` loop, in the parent's key order. */
  function CopyProperties(to: Json, entries: seq<(string, Json)>): Json
    decreases |entries|
  {
    if |entries| == 0 then to
    else CopyProperties(CopyProperty(to, entries[0].0, entries[0].1), entries[1..])
  }

  /** `extend(from, to)`: merge `required`, copy missing properties, mark the child resolved. */
  function Extend(from: Json, to: Json): Json {
    var merged := MergeRequired(from, to);
    var copied := CopyProperties(merged, OwnEntries(Get(from, "properties")));
    Set(copied, "allOfResolved", JBool(true))
  }

  /** The shapes of `properties` the merge is stated for: absent or an object. */
  predicate PropertiesShaped(to: Json) {
    to.JObj? && (Get(to, "properties").JObj? || Get(to, "properties").JUndefined?)
  }

  /** What the loop leaves under a parent's name: the child's truthy property, or the parent's. */
  function Chosen(to: Json, name: string, property: Json): Json {
    if Truthy(Get(ChildProperties(to), name)) then Get(ChildProperties(to), name) else property
  }

  lemma CopyPropertyFacts(to: Json, name: string, property: Json)
    requires PropertiesShaped(to)
    ensures var r := CopyProperty(to, name, property);
      PropertiesShaped(r) && Get(r, "properties").JObj?
      && (forall k :: k != "properties" ==> Get(r, k) == Get(to, k) && HasOwn(r, k) == HasOwn(to, k))
      && HasOwn(Get(r, "properties"), name)
      && Get(Get(r, "properties"), name) == Chosen(to, name, property)
      && (forall k :: k != name ==>
            Get(Get(r, "properties"), k) == Get(ChildProperties(to), k)
            && HasOwn(Get(r, "properties"), k) == HasOwn(ChildProperties(to), k))
  {
  }

  /**
   * After the loop, properties is still absent or an object (an object once
   * anything was copied), and every name the parent does not have is as the
   * child had it.
   */
  lemma {:induction false} CopyPropertiesOthers(to: Json, entries: seq<(string, Json)>)
    requires PropertiesShaped(to)
    ensures var r := CopyProperties(to, entries);
      PropertiesShaped(r)
      && (|entries| > 0 ==> Get(r, "properties").JObj?)
      && (forall k :: FindKey(entries, k).None? ==>
            Get(Get(r, "properties"), k) == Get(ChildProperties(to), k)
            && HasOwn(Get(r, "properties"), k) == HasOwn(ChildProperties(to), k))
    decreases |entries|
  {
    if |entries| > 0 {
      var name, property := entries[0].0, entries[0].1;
      var next := CopyProperty(to, name, property);
      CopyPropertyFacts(to, name, property);
      var rest := entries[1..];
      CopyPropertiesOthers(next, rest);
      var r := CopyProperties(next, rest);
      assert ChildProperties(next) == Get(next, "properties");
      forall k | FindKey(entries, k).None?
        ensures Get(Get(r, "properties"), k) == Get(ChildProperties(to), k)
        ensures HasOwn(Get(r, "properties"), k) == HasOwn(ChildProperties(to), k)
      {
        assert k != name;
        assert FindKey(rest, k).None?;
      }
    }
  }

  /**
   * After the loop, every parent name is present and holds the child's
   * truthy property or else the parent's.
   */
  lemma {:induction false} CopyPropertiesChosen(to: Json, entries: seq<(string, Json)>)
    requires PropertiesShaped(to) && DistinctKeys(entries)
    ensures var r := CopyProperties(to, entries);
      forall i :: 0 <= i < |entries| ==>
        HasOwn(Get(r, "properties"), entries[i].0)
        && Get(Get(r, "properties"), entries[i].0) == Chosen(to, entries[i].0, entries[i].1)
    decreases |entries|
  {
    if |entries| > 0 {
      var name, property := entries[0].0, entries[0].1;
      var next := CopyProperty(to, name, property);
      CopyPropertyFacts(to, name, property);
      var rest := entries[1..];
      assert DistinctKeys(rest);
      CopyPropertiesChosen(next, rest);
      CopyPropertiesOthers(next, rest);
      var r := CopyProperties(next, rest);
      assert ChildProperties(next) == Get(next, "properties");
      forall i | 0 <= i < |entries|
        ensures HasOwn(Get(r, "properties"), entries[i].0)
        ensures Get(Get(r, "properties"), entries[i].0) == Chosen(to, entries[i].0, entries[i].1)
      {
        if i == 0 {
          assert forall m :: 0 <= m < |rest| ==> rest[m].0 != name;
          assert FindKey(rest, name).None?;
        } else {
          assert entries[i] == rest[i - 1];
          assert entries[i].0 != name;
        }
      }
    }
  }

  /** The merged `required` list: the child's names first, then the parent's names the child lacks. */
  lemma ExtendRequired(from: Json, to: Json)
    requires PropertiesShaped(to) && DistinctKeys(OwnEntries(Get(from, "properties")))
    ensures var parent, child, r := Get(from, "required"), Get(to, "required"), Get(Extend(from, to), "required");
      (!Truthy(parent) ==> r == child)
      && (Truthy(parent) && !Truthy(child) ==> r == parent)
      && (Truthy(parent) && Truthy(child) ==> r == JArr(Items(child) + NotIn(Items(parent), Items(child))))
  {
    var merged := MergeRequired(from, to);
    CopyKeepsKeyword(merged, OwnEntries(Get(from, "properties")), "required");
  }

  /**
   * With array lists, the child's list is a prefix of the result, no added
   * name was already in the child's list, and every parent name ends up in
   * the result.
   */
  lemma ExtendRequiredLists(from: Json, to: Json)
    requires PropertiesShaped(to) && DistinctKeys(OwnEntries(Get(from, "properties")))
    requires Get(from, "required").JArr? && Get(to, "required").JArr?
    ensures var parent, child := Items(Get(from, "required")), Items(Get(to, "required"));
      var r := Get(Extend(from, to), "required");
      r.JArr? && |child| <= |r.items| && r.items[..|child|] == child
      && (forall i :: |child| <= i < |r.items| ==> !ContainsStrict(child, r.items[i]))
      && (forall i :: 0 <= i < |parent| ==> parent[i] in r.items || ContainsStrict(child, parent[i]))
  {
    ExtendRequired(from, to);
    var parent, child := Items(Get(from, "required")), Items(Get(to, "required"));
    assert Truthy(Get(from, "required")) && Truthy(Get(to, "required"));
    assert Get(Extend(from, to), "required") == JArr(child + NotIn(parent, child));
    MergedList(parent, child);
  }

  /** The merged list keeps the child's names as a prefix, adds only new names and misses no parent name. */
  lemma MergedList(parent: seq<Json>, child: seq<Json>)
    ensures var items := child + NotIn(parent, child);
      |child| <= |items| && items[..|child|] == child
      && (forall i :: |child| <= i < |items| ==> !ContainsStrict(child, items[i]))
      && (forall i :: 0 <= i < |parent| ==> parent[i] in items || ContainsStrict(child, parent[i]))
  {
    var added := NotIn(parent, child);
    var items := child + added;
    assert items[..|child|] == child;
    forall i | |child| <= i < |items| ensures !ContainsStrict(child, items[i]) {
      assert items[i] == added[i - |child|];
    }
  }

  /** A child without `required` takes the parent's list itself. */
  lemma ExtendRequiredAdopted(from: Json, to: Json)
    requires PropertiesShaped(to) && DistinctKeys(OwnEntries(Get(from, "properties")))
    requires Truthy(Get(from, "required")) && !HasOwn(to, "required")
    ensures Get(Extend(from, to), "required") == Get(from, "required")
  {
    ExtendRequired(from, to);
  }

  /**
   * After `extend`, every parent property name is a property of the child,
   * holding the child's truthy property if it had one and the parent's
   * otherwise; `allOfResolved` is true.
   */
  lemma ExtendProperties(from: Json, to: Json)
    requires PropertiesShaped(to) && DistinctKeys(OwnEntries(Get(from, "properties")))
    ensures var entries, r := OwnEntries(Get(from, "properties")), Extend(from, to);
      Get(r, "allOfResolved") == JBool(true)
      && (forall i :: 0 <= i < |entries| ==>
            HasOwn(Get(r, "properties"), entries[i].0)
            && Get(Get(r, "properties"), entries[i].0) == Chosen(to, entries[i].0, entries[i].1))
  {
    var entries := OwnEntries(Get(from, "properties"));
    var merged := MergeRequired(from, to);
    ExtendSteps(from, to);
    CopyPropertiesChosen(merged, entries);
    forall i | 0 <= i < |entries|
      ensures Chosen(merged, entries[i].0, entries[i].1) == Chosen(to, entries[i].0, entries[i].1)
    {
    }
  }

  /** `extend` in two steps: the `required` merge leaves `properties` alone, and the loop's result is marked resolved. */
  lemma ExtendSteps(from: Json, to: Json)
    requires PropertiesShaped(to)
    ensures var merged := MergeRequired(from, to);
      var copied, r := CopyProperties(merged, OwnEntries(Get(from, "properties"))), Extend(from, to);
      PropertiesShaped(merged) && Get(merged, "properties") == Get(to, "properties")
      && ChildProperties(merged) == ChildProperties(to)
      && Get(r, "allOfResolved") == JBool(true) && Get(r, "properties") == Get(copied, "properties")
  {
    var entries := OwnEntries(Get(from, "properties"));
    var merged := MergeRequired(from, to);
    assert Get(merged, "properties") == Get(to, "properties");
    CopyPreservesObject(merged, entries);
  }

  /**
   * `extend` keeps the child's properties the parent does not name, and
   * every truthy property of the child.
   */
  lemma ExtendKeepsProperties(from: Json, to: Json)
    requires PropertiesShaped(to) && DistinctKeys(OwnEntries(Get(from, "properties")))
    ensures var entries, r := OwnEntries(Get(from, "properties")), Extend(from, to);
      (forall k :: FindKey(entries, k).None? ==> Get(Get(r, "properties"), k) == Get(ChildProperties(to), k))
      && (forall k :: Truthy(Get(Get(to, "properties"), k)) ==> Get(Get(r, "properties"), k) == Get(Get(to, "properties"), k))
  {
    var merged := MergeRequired(from, to);
    var entries := OwnEntries(Get(from, "properties"));
    ExtendSteps(from, to);
    CopyPropertiesOthers(merged, entries);
    CopyPropertiesChosen(merged, entries);
    var copied := CopyProperties(merged, entries);
    forall k | Truthy(Get(Get(to, "properties"), k))
      ensures Get(Get(copied, "properties"), k) == Get(Get(to, "properties"), k)
    {
      match FindKey(entries, k)
      case None =>
      case Some(i) => assert Chosen(merged, k, entries[i].1) == Get(Get(to, "properties"), k);
    }
  }

  /** `extend` touches only `required`, `properties` and `allOfResolved`. */
  lemma ExtendKeepsOtherKeywords(from: Json, to: Json, k: string)
    requires PropertiesShaped(to) && DistinctKeys(OwnEntries(Get(from, "properties")))
    requires k != "required" && k != "properties" && k != "allOfResolved"
    ensures Get(Extend(from, to), k) == Get(to, k) && HasOwn(Extend(from, to), k) == HasOwn(to, k)
  {
    var merged := MergeRequired(from, to);
    CopyKeepsKeyword(merged, OwnEntries(Get(from, "properties")), k);
    assert Get(merged, k) == Get(to, k) && HasOwn(merged, k) == HasOwn(to, k);
  }

  /** A value that is `===` to itself: a primitive other than NaN. */
  predicate SelfEqual(x: Json) {
    StrictEquals(x, x)
  }

  lemma SetSame(j: Json, k: string)
    requires j.JObj? && HasOwn(j, k)
    ensures Set(j, k, Get(j, k)) == j
  {
    var i := FindKey(j.fields, k).value;
    assert j.fields[i := (k, j.fields[i].1)] == j.fields;
  }

  lemma NotInCovered(xs: seq<Json>, ys: seq<Json>)
    requires forall i :: 0 <= i < |xs| ==> ContainsStrict(ys, xs[i])
    ensures NotIn(xs, ys) == []
  {
    if |xs| > 0 {
      assert forall i :: 0 <= i < |xs[1..]| ==> xs[1..][i] == xs[i + 1];
      NotInCovered(xs[1..], ys);
    }
  }

  /** Once merged, the `required` step adds nothing more. */
  lemma MergeRequiredTwice(from: Json, to: Json)
    requires to.JObj?
    requires Get(from, "required").JArr? || !Truthy(Get(from, "required"))
    requires forall i :: 0 <= i < |Items(Get(from, "required"))| ==> SelfEqual(Items(Get(from, "required"))[i])
    ensures MergeRequired(from, MergeRequired(from, to)) == MergeRequired(from, to)
  {
    var parent := Get(from, "required");
    if Truthy(parent) {
      var once := MergeRequired(from, to);
      var list := Get(once, "required");
      assert list.JArr?;
      var ps := Items(parent);
      forall i | 0 <= i < |ps| ensures ContainsStrict(list.items, ps[i]) {
        if Truthy(Get(to, "required")) {
          var child := Items(Get(to, "required"));
          if ContainsStrict(child, ps[i]) {
            var j :| 0 <= j < |child| && StrictEquals(child[j], ps[i]);
            assert list.items[j] == child[j];
          } else {
            var added := NotIn(ps, child);
            assert ps[i] in added;
            var j :| 0 <= j < |added| && added[j] == ps[i];
            assert list.items[|child| + j] == ps[i];
          }
        } else {
          assert list.items[i] == ps[i];
        }
      }
      NotInCovered(ps, list.items);
      assert list.items + [] == list.items;
      SetSame(once, "required");
    }
  }

  /** A property slot the loop never changes again. */
  predicate Settled(to: Json, entry: (string, Json)) {
    Get(to, "properties").JObj? && HasOwn(Get(to, "properties"), entry.0)
    && (Truthy(Get(Get(to, "properties"), entry.0)) || Get(Get(to, "properties"), entry.0) == entry.1)
  }

  lemma {:induction false} CopySettled(to: Json, entries: seq<(string, Json)>)
    requires to.JObj? && forall i :: 0 <= i < |entries| ==> Settled(to, entries[i])
    ensures CopyProperties(to, entries) == to
    decreases |entries|
  {
    if |entries| > 0 {
      var name, property := entries[0].0, entries[0].1;
      if !Truthy(Get(Get(to, "properties"), name)) {
        var props := Get(to, "properties");
        assert ChildProperties(to) == props;
        SetSame(props, name);
        SetSame(to, "properties");
      }
      assert CopyProperty(to, name, property) == to;
      assert forall i :: 0 <= i < |entries[1..]| ==> entries[1..][i] == entries[i + 1];
      CopySettled(to, entries[1..]);
    }
  }

  /**
   * Extending twice with the same parent is extending once, for a parent
   * whose `required` is an array of primitives and whose properties have
   * distinct names.
   */
  lemma ExtendIdempotent(from: Json, to: Json)
    requires PropertiesShaped(to) && DistinctKeys(OwnEntries(Get(from, "properties")))
    requires Get(from, "required").JArr? || !Truthy(Get(from, "required"))
    requires forall i :: 0 <= i < |Items(Get(from, "required"))| ==> SelfEqual(Items(Get(from, "required"))[i])
    ensures Extend(from, Extend(from, to)) == Extend(from, to)
  {
    var entries := OwnEntries(Get(from, "properties"));
    var once := Extend(from, to);
    RequiredSettled(from, to);
    PropertiesSettled(from, to);
    CopySettled(once, entries);
    SetSame(once, "allOfResolved");
  }

  /** The `required` step finds nothing to add to an extended child. */
  lemma RequiredSettled(from: Json, to: Json)
    requires PropertiesShaped(to) && DistinctKeys(OwnEntries(Get(from, "properties")))
    requires Get(from, "required").JArr? || !Truthy(Get(from, "required"))
    requires forall i :: 0 <= i < |Items(Get(from, "required"))| ==> SelfEqual(Items(Get(from, "required"))[i])
    ensures Extend(from, to).JObj? && MergeRequired(from, Extend(from, to)) == Extend(from, to)
  {
    var entries := OwnEntries(Get(from, "properties"));
    var once := Extend(from, to);
    var merged := MergeRequired(from, to);
    CopyPreservesObject(merged, entries);
    CopyKeepsKeyword(merged, entries, "required");
    assert Get(once, "required") == Get(merged, "required");
    MergeRequiredTwice(from, to);
    var parent := Get(from, "required");
    if Truthy(parent) {
      assert Get(once, "required") == Get(MergeRequired(from, merged), "required");
      assert Truthy(Get(merged, "required"));
      var list := Get(once, "required");
      assert MergeRequired(from, once) == Set(once, "required", JArr(Items(list) + NotIn(Items(parent), Items(list))));
      assert JArr(Items(list) + NotIn(Items(parent), Items(list))) == Get(MergeRequired(from, merged), "required");
      SetSame(once, "required");
    }
  }

  /** Every parent property is settled in an extended child. */
  lemma PropertiesSettled(from: Json, to: Json)
    requires PropertiesShaped(to) && DistinctKeys(OwnEntries(Get(from, "properties")))
    ensures var entries := OwnEntries(Get(from, "properties"));
      forall i :: 0 <= i < |entries| ==> Settled(Extend(from, to), entries[i])
  {
    var entries := OwnEntries(Get(from, "properties"));
    var merged := MergeRequired(from, to);
    CopyPropertiesOthers(merged, entries);
    CopyPropertiesChosen(merged, entries);
    var copied := CopyProperties(merged, entries);
    assert Get(Extend(from, to), "properties") == Get(copied, "properties");
  }

  /** `!schema.allOf || !schema.allOf.length` fails: there is something to compose. */
  predicate HasAllOf(schema: Json) {
    Truthy(Get(schema, "allOf")) && Truthy(Get(Get(schema, "allOf"), "length"))
  }

  /** `allOf: []` is truthy but has no length, so there is nothing to compose and the schema comes back. */
  lemma EmptyAllOfKept(ctx: Context, schema: Json, fuel: nat)
    requires schema.JObj? && Get(schema, "allOf") == JArr([])
    ensures !HasAllOf(schema) && ExtendAllAllOfs(ctx, schema, fuel) == Ok(schema)
  {
    assert Get(JArr([]), "length") == JNum(0.0);
  }

  /** The parents still to compose: those not already flagged `allOfResolved`. */
  function Pending(parents: seq<Json>): (r: seq<Json>)
    ensures |r| <= |parents|
    ensures forall x :: x in r ==> x in parents && !Truthy(Get(x, "allOfResolved"))
    ensures (forall i :: 0 <= i < |parents| ==> Truthy(Get(parents[i], "allOfResolved"))) ==> r == []
  {
    if |parents| == 0 then []
    else
      assert forall i :: 1 <= i < |parents| ==> parents[i] == parents[1..][i - 1];
      (if Truthy(Get(parents[0], "allOfResolved")) then [] else [parents[0]]) + Pending(parents[1..])
  }

  /**
   * `extendAllAllOfs(schema)`: each pending parent is dereferenced, composed
   * in turn, and merged into the schema, in list order. Reading a keyword
   * of a `null` or `undefined` schema or parent throws.
   */
  function ExtendAllAllOfs(ctx: Context, schema: Json, fuel: nat): (r: Outcome<Json>)
    ensures schema.JUndefined? || schema.JNull? ==> r == Failure(TypeError)
    ensures !(schema.JUndefined? || schema.JNull?) && (!HasAllOf(schema) || Truthy(Get(schema, "allOfResolved")))
            ==> r == Ok(schema)
    decreases fuel, 0
  {
    if schema.JUndefined? || schema.JNull? then Failure(TypeError)
    else if !HasAllOf(schema) || Truthy(Get(schema, "allOfResolved")) then Ok(schema)
    else if !Get(schema, "allOf").JArr? then Failure(TypeError)
    else if JUndefined in Get(schema, "allOf").items || JNull in Get(schema, "allOf").items then Failure(TypeError)
    else if fuel == 0 then Failure(OutOfFuel)
    else MergeParents(ctx, Pending(Get(schema, "allOf").items), schema, fuel - 1)
  }

  /** The fold over the pending parents, extending the accumulated schema with each composed parent. */
  function MergeParents(ctx: Context, parents: seq<Json>, acc: Json, fuel: nat): (r: Outcome<Json>)
    ensures |parents| == 0 ==> r == Ok(acc)
    decreases fuel, 1, |parents|
  {
    if |parents| == 0 then Ok(acc)
    else
      var loaded :- LoadSchema(ctx, parents[0], fuel);
      var composed :- ExtendAllAllOfs(ctx, loaded, fuel);
      MergeParents(ctx, parents[1..], Extend(composed, acc), fuel)
  }

  /** Merging at least one parent leaves an object flagged `allOfResolved`. */
  lemma {:induction false} MergeParentsResolves(ctx: Context, parents: seq<Json>, acc: Json, fuel: nat, merged: Json)
    requires |parents| > 0 && acc.JObj? && MergeParents(ctx, parents, acc, fuel) == Ok(merged)
    ensures merged.JObj? && Get(merged, "allOfResolved") == JBool(true)
    decreases |parents|
  {
    var loaded := LoadSchema(ctx, parents[0], fuel).value;
    var composed := ExtendAllAllOfs(ctx, loaded, fuel).value;
    var next := Extend(composed, acc);
    ExtendObject(composed, acc);
    if |parents| > 1 {
      MergeParentsResolves(ctx, parents[1..], next, fuel, merged);
    }
  }

  /** Merging parents keeps every keyword of the schema but `required`, `properties` and `allOfResolved`. */
  lemma {:induction false} MergeParentsKeeps(ctx: Context, parents: seq<Json>, acc: Json, fuel: nat)
    requires acc.JObj?
    ensures var r := MergeParents(ctx, parents, acc, fuel);
      forall k :: r.Ok? && k != "required" && k != "properties" && k != "allOfResolved" ==> Get(r.value, k) == Get(acc, k)
    decreases |parents|
  {
    var r := MergeParents(ctx, parents, acc, fuel);
    if r.Ok? && |parents| > 0 {
      var loaded := LoadSchema(ctx, parents[0], fuel).value;
      var composed := ExtendAllAllOfs(ctx, loaded, fuel).value;
      var next := Extend(composed, acc);
      ExtendObject(composed, acc);
      forall k | k != "required" && k != "properties" && k != "allOfResolved"
        ensures Get(next, k) == Get(acc, k)
      {
        CopyKeepsKeyword(MergeRequired(composed, acc), OwnEntries(Get(composed, "properties")), k);
      }
      MergeParentsKeeps(ctx, parents[1..], next, fuel);
    }
  }

  /** `extend` of an object is an object flagged `allOfResolved`, made from the loop's result. */
  lemma ExtendObject(from: Json, to: Json)
    requires to.JObj?
    ensures var copied := CopyProperties(MergeRequired(from, to), OwnEntries(Get(from, "properties")));
      Extend(from, to) == Set(copied, "allOfResolved", JBool(true)) && copied.JObj?
      && Extend(from, to).JObj? && Get(Extend(from, to), "allOfResolved") == JBool(true)
  {
    CopyPreservesObject(MergeRequired(from, to), OwnEntries(Get(from, "properties")));
  }

  lemma {:induction false} CopyPreservesObject(to: Json, entries: seq<(string, Json)>)
    requires to.JObj?
    ensures CopyProperties(to, entries).JObj?
    decreases |entries|
  {
    if |entries| > 0 {
      CopyPreservesObject(CopyProperty(to, entries[0].0, entries[0].1), entries[1..]);
    }
  }

  lemma {:induction false} CopyKeepsKeyword(to: Json, entries: seq<(string, Json)>, k: string)
    requires to.JObj? && k != "properties"
    ensures Get(CopyProperties(to, entries), k) == Get(to, k)
    ensures HasOwn(CopyProperties(to, entries), k) == HasOwn(to, k)
    decreases |entries|
  {
    if |entries| > 0 {
      var next := CopyProperty(to, entries[0].0, entries[0].1);
      assert Get(next, k) == Get(to, k) && HasOwn(next, k) == HasOwn(to, k);
      CopyKeepsKeyword(next, entries[1..], k);
    }
  }

  /** A composed schema is flagged, so composing it again returns it unchanged. */
  lemma ComposeTwice(ctx: Context, schema: Json, fuel: nat, fuel': nat)
    requires schema.JObj? && HasAllOf(schema) && !Truthy(Get(schema, "allOfResolved"))
    requires Get(schema, "allOf").JArr? && |Pending(Get(schema, "allOf").items)| > 0
    requires ExtendAllAllOfs(ctx, schema, fuel).Ok?
    ensures var c := ExtendAllAllOfs(ctx, schema, fuel).value;
      Truthy(Get(c, "allOfResolved")) && ExtendAllAllOfs(ctx, c, fuel') == Ok(c)
  {
    ComposeFlags(ctx, schema, fuel);
    ResolvedIsFixed(ctx, ExtendAllAllOfs(ctx, schema, fuel).value, fuel');
  }

  /** Composing a schema with a pending parent yields an object flagged `allOfResolved`. */
  lemma {:induction false} ComposeFlags(ctx: Context, schema: Json, fuel: nat)
    requires schema.JObj? && HasAllOf(schema) && !Truthy(Get(schema, "allOfResolved"))
    requires Get(schema, "allOf").JArr? && |Pending(Get(schema, "allOf").items)| > 0
    requires ExtendAllAllOfs(ctx, schema, fuel).Ok?
    ensures ExtendAllAllOfs(ctx, schema, fuel).value.JObj?
    ensures Get(ExtendAllAllOfs(ctx, schema, fuel).value, "allOfResolved") == JBool(true)
  {
    ComposedResolved(ctx, schema, fuel, ExtendAllAllOfs(ctx, schema, fuel).value);
  }

  /** The same for a named composition `r`: it is the fold over the pending parents, which flags its result. */
  lemma ComposedResolved(ctx: Context, schema: Json, fuel: nat, r: Json)
    requires schema.JObj? && HasAllOf(schema) && !Truthy(Get(schema, "allOfResolved"))
    requires Get(schema, "allOf").JArr? && |Pending(Get(schema, "allOf").items)| > 0
    requires ExtendAllAllOfs(ctx, schema, fuel) == Ok(r)
    ensures r.JObj? && Get(r, "allOfResolved") == JBool(true)
  {
    MergeParentsResolves(ctx, Pending(Get(schema, "allOf").items), schema, fuel - 1, r);
  }

  /** A flagged schema is its own composition. */
  lemma ResolvedIsFixed(ctx: Context, schema: Json, fuel: nat)
    requires schema.JObj? && Truthy(Get(schema, "allOfResolved"))
    ensures ExtendAllAllOfs(ctx, schema, fuel) == Ok(schema)
  {
  }

  /**
   * When every parent is already flagged, nothing is merged and the schema
   * itself stays unflagged, so it still has an `allOf` to compose.
   */
  lemma AllParentsResolved(ctx: Context, schema: Json, fuel: nat)
    requires HasAllOf(schema) && !Truthy(Get(schema, "allOfResolved")) && Get(schema, "allOf").JArr?
    requires forall i :: 0 <= i < |Get(schema, "allOf").items| ==> Truthy(Get(Get(schema, "allOf").items[i], "allOfResolved"))
    ensures ExtendAllAllOfs(ctx, schema, fuel) == (if fuel == 0 then Failure(OutOfFuel) else Ok(schema))
  {
  }

  /** A parent without `$ref` or `allOf` of its own is merged as it is. */
  lemma PlainParentMerged(ctx: Context, parent: Json, schema: Json, fuel: nat)
    requires schema.JObj? && !Truthy(Get(schema, "allOfResolved"))
    requires Get(schema, "allOf") == JArr([parent]) && parent.JObj?
    requires !Truthy(Get(parent, "allOfResolved")) && !Truthy(Get(parent, "$ref")) && !HasAllOf(parent)
    ensures ExtendAllAllOfs(ctx, schema, fuel + 1) == Ok(Extend(parent, schema))
  {
    ComposeSingle(ctx, parent, schema, fuel);
    MergeSingle(ctx, parent, schema, fuel);
  }

  /** A `$ref` parent is dereferenced, and the target's fields are what is merged. */
  lemma RefParentMerged(ctx: Context, parent: Json, schema: Json, fuel: nat)
    requires schema.JObj? && !Truthy(Get(schema, "allOfResolved"))
    requires Get(schema, "allOf") == JArr([parent]) && parent.JObj?
    requires !Truthy(Get(parent, "allOfResolved")) && Get(parent, "$ref").JStr? && Truthy(Get(parent, "$ref"))
    requires LoadFromString(ctx, Get(parent, "$ref").s, fuel).Ok?
    requires !HasAllOf(ReplaceRef(parent, LoadFromString(ctx, Get(parent, "$ref").s, fuel).value))
    ensures ExtendAllAllOfs(ctx, schema, fuel + 1)
            == Ok(Extend(ReplaceRef(parent, LoadFromString(ctx, Get(parent, "$ref").s, fuel).value), schema))
  {
    ComposeSingle(ctx, parent, schema, fuel);
    MergeSingle(ctx, parent, schema, fuel);
  }

  lemma ComposeSingle(ctx: Context, parent: Json, schema: Json, fuel: nat)
    requires !Truthy(Get(schema, "allOfResolved")) && Get(schema, "allOf") == JArr([parent])
    requires parent.JObj? && !Truthy(Get(parent, "allOfResolved"))
    ensures ExtendAllAllOfs(ctx, schema, fuel + 1) == MergeParents(ctx, [parent], schema, fuel)
  {
    var all := Get(schema, "allOf");
    assert Get(all, "length") == JNum(1.0);
    assert HasAllOf(schema) && schema.JObj?;
    assert all.items == [parent];
    assert [parent][1..] == [];
    assert Pending([parent]) == [parent];
  }

  lemma MergeSingle(ctx: Context, parent: Json, acc: Json, fuel: nat)
    requires LoadSchema(ctx, parent, fuel).Ok? && !HasAllOf(LoadSchema(ctx, parent, fuel).value)
    ensures MergeParents(ctx, [parent], acc, fuel) == Ok(Extend(LoadSchema(ctx, parent, fuel).value, acc))
  {
    assert [parent][1..] == [];
  }
}
