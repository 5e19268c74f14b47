/**
 * The in-place side of the schema helpers: `extend` rewrites the child's
 * `required`, `properties` and `allOfResolved` fields, `replaceRef` deletes
 * `$ref` and copies the target's fields over, and the number checker writes
 * a default `format`. A `SchemaNode` is one mutable schema object; each
 * method is proved to leave exactly the value the corresponding function of
 * `AllOf`, `Loader` or `NumberValidator` computes, so every property proved
 * about those functions holds of the node afterwards.
 */
module SchemaNodes {
  import opened JsonValues
  import AllOf
  import Loader
  import NumberValidator

  /** Writing a key twice is writing it once with the second value. */
  lemma SetTwice(j: Json, k: string, a: Json, b: Json)
    ensures Set(Set(j, k, a), k, b) == Set(j, k, b)
  {
    if j.JObj? {
      match FindKey(j.fields, k)
      case Some(i) =>
        SetAtPreserves(j.fields, i, k, a);
        assert j.fields[i := (k, a)][i := (k, b)] == j.fields[i := (k, b)];
      case None =>
        FindKeyAppend(j.fields, k, a);
        assert (j.fields + [(k, a)])[|j.fields| := (k, b)] == j.fields + [(k, b)];
    }
  }

  /** One schema object, updated in place. */
  class SchemaNode {
    var value: Json

    constructor (value: Json)
      ensures this.value == value
    {
      this.value := value;
    }

    /** `extend(from, this)`: merge `required`, copy the parent's missing properties, flag `allOfResolved`. */
    method Extend(from: Json)
      modifies this
      ensures value == AllOf.Extend(from, old(value))
    {
      ghost var merged := AllOf.MergeRequired(from, value);
      var parentRequired := Get(from, "required");
      if Truthy(parentRequired) {
        var childRequired := Get(value, "required");
        if Truthy(childRequired) {
          value := Set(value, "required",
                       JArr(AllOf.Items(childRequired) + AllOf.NotIn(AllOf.Items(parentRequired), AllOf.Items(childRequired))));
        } else {
          value := Set(value, "required", parentRequired);
        }
      }
      assert value == merged;
      var entries := OwnEntries(Get(from, "properties"));
      CopyAll(entries);
      value := Set(value, "allOfResolved", JBool(true));
    }

    /** The `for…in` loop over the parent's properties, one `CopyOne` per entry in enumeration order. */
    method CopyAll(entries: seq<(string, Json)>)
      modifies this
      ensures value == AllOf.CopyProperties(old(value), entries)
    {
      var i := 0;
      while i < |entries|
        invariant 0 <= i <= |entries|
        invariant AllOf.CopyProperties(value, entries[i..]) == AllOf.CopyProperties(old(value), entries)
      {
        CopyOne(entries[i].0, entries[i].1);
        assert entries[i..][1..] == entries[i + 1..];
        i := i + 1;
      }
    }

    /** One turn of the `properties` loop: create `{}` for a falsy `properties`, then copy unless the child's own is truthy. */
    method CopyOne(name: string, property: Json)
      modifies this
      ensures value == AllOf.CopyProperty(old(value), name, property)
    {
      if !Truthy(Get(value, "properties")) {
        SetTwice(value, "properties", JObj([]), Set(JObj([]), name, property));
        value := Set(value, "properties", JObj([]));
      }
      if !Truthy(Get(Get(value, "properties"), name)) {
        value := Set(value, "properties", Set(Get(value, "properties"), name, property));
      }
    }

    /** `replaceRef(this, target)`: delete `$ref`, then copy every own field of the target over. */
    method ReplaceRef(target: Json)
      modifies this
      ensures value == Loader.ReplaceRef(old(value), target)
    {
      value := Remove(value, "$ref");
      ghost var removed := value;
      var entries := OwnEntries(target);
      var i := 0;
      while i < |entries|
        invariant 0 <= i <= |entries|
        invariant Loader.Overlay(value, entries[i..]) == Loader.Overlay(removed, entries)
      {
        value := Set(value, entries[i].0, entries[i].1);
        assert entries[i..][1..] == entries[i + 1..];
        i := i + 1;
      }
    }

    /** The number checker's defaulting of a missing `format`. */
    method DefaultFormat()
      modifies this
      ensures value == NumberValidator.DefaultFormat(old(value))
    {
      if !Truthy(Get(value, "format")) {
        if Get(value, "type") == JStr("integer") {
          value := Set(value, "format", JStr("int64"));
        } else if Get(value, "type") == JStr("number") {
          value := Set(value, "format", JStr("double"));
        }
      }
    }
  }
}
