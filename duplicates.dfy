/**
 * Structural equality of JavaScript values and the duplicate scan built on it.
 */
module Duplicates {
  import opened JsonValues

  /**
   * `deepEqual(x, y)`. Two NaNs are equal; otherwise primitives compare with
   * `===`; arrays compare element-wise; objects must have the same own keys
   * with the same `typeof` per key, and their members compare recursively when
   * `typeof` is "object" and with `===` otherwise, so a NaN member makes two
   * objects unequal while a NaN element does not make two arrays unequal.
   */
  function DeepEqual(x: Json, y: Json): (r: bool)
    ensures r ==> TypeOf(x) == TypeOf(y) && (x.JArr? <==> y.JArr?)
    decreases x, 1
  {
    if x.JNaN? && y.JNaN? then true
    else if StrictEquals(x, y) then true
    else if !x.IsObjectLike() || !y.IsObjectLike() then false
    else if x.JArr? || y.JArr? then
      x.JArr? && y.JArr? && |x.items| == |y.items|
      && forall i :: 0 <= i < |x.items| ==> DeepEqual(x.items[i], y.items[i])
    else
      KeysCovered(x, y) && MembersMatch(x, y)
  }

  /** The first key loop: every key of `y` is an own key of `x` with the same `typeof`. */
  predicate KeysCovered(x: Json, y: Json)
    requires y.JObj?
  {
    forall i :: 0 <= i < |y.fields| ==>
      HasOwn(x, y.fields[i].0) && TypeOf(y.fields[i].1) == TypeOf(Get(x, y.fields[i].0))
  }

  /** The second key loop: every key of `x` is an own key of `y` with the same `typeof` and an equal value. */
  predicate MembersMatch(x: Json, y: Json)
    requires x.JObj?
    decreases x, 0
  {
    forall i :: 0 <= i < |x.fields| ==>
      HasOwn(y, x.fields[i].0)
      && TypeOf(Get(y, x.fields[i].0)) == TypeOf(x.fields[i].1)
      && if TypeOf(x.fields[i].1) == "object"
         then DeepEqual(x.fields[i].1, Get(y, x.fields[i].0))
         else StrictEquals(x.fields[i].1, Get(y, x.fields[i].0))
  }

  /** Because both key sets are checked, the order of the arguments does not matter. */
  lemma {:induction false} DeepEqualSymmetric(x: Json, y: Json)
    requires WellFormed(x) && WellFormed(y)
    ensures DeepEqual(x, y) == DeepEqual(y, x)
    decreases x
  {
    if x.JArr? && y.JArr? && |x.items| == |y.items| {
      forall i | 0 <= i < |x.items| ensures DeepEqual(x.items[i], y.items[i]) == DeepEqual(y.items[i], x.items[i]) {
        DeepEqualSymmetric(x.items[i], y.items[i]);
      }
    } else if x.JObj? && y.JObj? {
      var xs, ys := x.fields, y.fields;
      forall i, j | 0 <= i < |xs| && 0 <= j < |ys| && xs[i].0 == ys[j].0
        ensures DeepEqual(xs[i].1, ys[j].1) == DeepEqual(ys[j].1, xs[i].1)
      {
        DeepEqualSymmetric(xs[i].1, ys[j].1);
      }
      if DeepEqual(x, y) {
        ObjectsSwap(x, y);
      }
      if DeepEqual(y, x) {
        ObjectsSwap(y, x);
      }
    }
  }

  /** One direction of symmetry for two objects, given symmetry of the members under shared keys. */
  lemma ObjectsSwap(x: Json, y: Json)
    requires x.JObj? && y.JObj? && WellFormed(x) && WellFormed(y)
    requires forall i, j :: 0 <= i < |x.fields| && 0 <= j < |y.fields| && x.fields[i].0 == y.fields[j].0 ==>
               DeepEqual(x.fields[i].1, y.fields[j].1) == DeepEqual(y.fields[j].1, x.fields[i].1)
    requires KeysCovered(x, y) && MembersMatch(x, y)
    ensures KeysCovered(y, x) && MembersMatch(y, x)
  {
    var xs, ys := x.fields, y.fields;
    forall i | 0 <= i < |xs| ensures Get(x, xs[i].0) == xs[i].1 {
      GetDistinct(xs, i);
    }
    forall j | 0 <= j < |ys|
      ensures HasOwn(x, ys[j].0) && TypeOf(Get(x, ys[j].0)) == TypeOf(ys[j].1)
      ensures if TypeOf(ys[j].1) == "object" then DeepEqual(ys[j].1, Get(x, ys[j].0))
              else StrictEquals(ys[j].1, Get(x, ys[j].0))
    {
      GetDistinct(ys, j);
      var i := FindKey(xs, ys[j].0).value;
      assert Get(y, xs[i].0) == ys[j].1;
    }
  }

  /** No NaN anywhere inside the value. */
  predicate NaNFree(j: Json) {
    match j
    case JNaN => false
    case JArr(items) => forall i :: 0 <= i < |items| ==> NaNFree(items[i])
    case JObj(fields) => forall i :: 0 <= i < |fields| ==> NaNFree(fields[i].1)
    case _ => true
  }

  /** Every NaN-free value equals itself; NaN inside an object is what breaks this. */
  lemma {:induction false} DeepEqualReflexive(x: Json)
    requires WellFormed(x) && NaNFree(x)
    ensures DeepEqual(x, x)
    decreases x
  {
    match x
    case JArr(items) =>
      forall i | 0 <= i < |items| ensures DeepEqual(items[i], items[i]) {
        DeepEqualReflexive(items[i]);
      }
    case JObj(fields) =>
      forall i | 0 <= i < |fields| ensures Get(x, fields[i].0) == fields[i].1 && DeepEqual(fields[i].1, fields[i].1) {
        GetDistinct(fields, i);
        DeepEqualReflexive(fields[i].1);
      }
    case _ =>
  }

  /** A NaN element leaves two arrays equal; a NaN member makes two objects unequal. */
  lemma NaNQuirk()
    ensures DeepEqual(JArr([JNaN]), JArr([JNaN]))
    ensures !DeepEqual(JObj([("a", JNaN)]), JObj([("a", JNaN)]))
  {
    var o := JObj([("a", JNaN)]);
    assert Get(o, "a") == JNaN;
  }

  /** A `null` member and an `undefined` member differ in `typeof`. */
  lemma NullIsNotUndefined()
    ensures !DeepEqual(JObj([("b", JNull)]), JObj([("b", JUndefined)]))
  {
    var y := JObj([("b", JUndefined)]);
    assert Get(y, "b") == JUndefined;
  }

  /**
   * Key order is irrelevant to object equality: two well-formed, NaN-free
   * objects holding the same members, in whatever order, are deeply equal.
   */
  lemma KeyOrderIrrelevant(x: Json, y: Json)
    requires x.JObj? && y.JObj? && WellFormed(x) && WellFormed(y) && NaNFree(x)
    requires multiset(x.fields) == multiset(y.fields)
    ensures DeepEqual(x, y)
  {
    var xs, ys := x.fields, y.fields;
    forall j | 0 <= j < |ys|
      ensures HasOwn(x, ys[j].0) && Get(x, ys[j].0) == ys[j].1
    {
      assert ys[j] in multiset(xs);
      var k :| 0 <= k < |xs| && xs[k] == ys[j];
      GetDistinct(xs, k);
    }
    forall i | 0 <= i < |xs|
      ensures HasOwn(y, xs[i].0) && Get(y, xs[i].0) == xs[i].1
      ensures if TypeOf(xs[i].1) == "object" then DeepEqual(xs[i].1, xs[i].1) else StrictEquals(xs[i].1, xs[i].1)
    {
      assert xs[i] in multiset(ys);
      var k :| 0 <= k < |ys| && ys[k] == xs[i];
      GetDistinct(ys, k);
      DeepEqualReflexive(xs[i].1);
    }
    assert KeysCovered(x, y) && MembersMatch(x, y);
  }

  /** The two orders of a two-key object. */
  lemma KeyOrderExample()
    ensures DeepEqual(JObj([("a", JNum(1.0)), ("b", JStr("x"))]), JObj([("b", JStr("x")), ("a", JNum(1.0))]))
  {
    var x := JObj([("a", JNum(1.0)), ("b", JStr("x"))]);
    var y := JObj([("b", JStr("x")), ("a", JNum(1.0))]);
    assert multiset(x.fields) == multiset(y.fields);
    KeyOrderIrrelevant(x, y);
  }

  /** Some pair of positions `i < j` holds deeply equal values. */
  predicate HasDuplicatePair(items: seq<Json>) {
    exists i, j :: 0 <= i < j < |items| && DeepEqual(items[i], items[j])
  }

  /** `hasDuplicates(items)`: the nested scan over all pairs, stopping at the first match. */
  method HasDuplicates(items: seq<Json>) returns (r: bool)
    ensures r == HasDuplicatePair(items)
  {
    var i1 := 0;
    while i1 < |items|
      invariant 0 <= i1 <= |items|
      invariant forall a, b :: 0 <= a < i1 && a < b < |items| ==> !DeepEqual(items[a], items[b])
    {
      var i2 := i1 + 1;
      while i2 < |items|
        invariant i1 + 1 <= i2 <= |items|
        invariant forall b :: i1 < b < i2 ==> !DeepEqual(items[i1], items[b])
      {
        if DeepEqual(items[i1], items[i2]) {
          return true;
        }
        i2 := i2 + 1;
      }
      i1 := i1 + 1;
    }
    return false;
  }
}
