/**
 * Reference handling: splitting a reference at `#/`, walking a `#/a/b`
 * pointer through own keys (a simplified JSON Pointer, RFC 6901 section 4,
 * with no `~0`/`~1` unescaping), dereferencing a schema's `$ref` and
 * overlaying the target's fields onto it, and rewriting relative `$ref`s
 * against a base directory. Reading files and downloading are `Env` calls.
 */
module Loader {
  import opened Outcomes
  import opened Text
  import opened JsonValues
  import opened TypeNames
  import opened Results
  import opened Configuration

  /** `splitPath(descriptor)`: the file part and, from the first `#/` on, the internal path. */
  function SplitPath(descriptor: string): (r: (string, Option<string>))
    ensures r.1.Some? ==> r.0 + r.1.value == descriptor && StartsWith(r.1.value, "#/")
    ensures r.1.Some? ==> forall k :: 0 <= k < |r.0| ==> !OccursAt(descriptor, "#/", k)
    ensures r.1.None? ==> r.0 == descriptor && forall k :: !OccursAt(descriptor, "#/", k)
  {
    match IndexOf(descriptor, "#/")
    case Some(pos) =>
      assert descriptor[pos..][..2] == descriptor[pos..pos + 2];
      (descriptor[..pos], Some(descriptor[pos..]))
    case None => (descriptor, None)
  }

  /** `_needsDownload(path)`. */
  predicate NeedsDownload(path: string) {
    StartsWith(path, "http://") || StartsWith(path, "https://")
  }

  /** A URL stays a URL when text is appended to it, so it is never rewritten as a relative reference. */
  lemma NeedsDownloadExtends(path: string, suffix: string)
    requires NeedsDownload(path)
    ensures NeedsDownload(path + suffix) && !IsRelativeRef(path + suffix)
  {
    var s := path + suffix;
    if StartsWith(path, "http://") {
      assert s[..7] == path[..7];
    } else {
      assert s[..8] == path[..8];
    }
  }

  /** Only the two lower-case schemes at the very start count. */
  lemma NeedsDownloadExamples()
    ensures NeedsDownload("https://x") && NeedsDownload("http://x")
    ensures !NeedsDownload("/specs/pet.json") && !NeedsDownload("HTTP://x") && !NeedsDownload("see http://x")
  {
    assert "https://x"[..8] == "https://" && "http://x"[..7] == "http://";
    FirstCharDiffers("/specs/pet.json");
    FirstCharDiffers("HTTP://x");
    FirstCharDiffers("see http://x");
  }

  /** A text whose first character is not `h` is no URL. */
  lemma FirstCharDiffers(path: string)
    requires |path| > 0 && path[0] != 'h'
    ensures !NeedsDownload(path)
  {
    if |path| >= 7 { assert path[..7][0] != "http://"[0]; }
    if |path| >= 8 { assert path[..8][0] != "https://"[0]; }
  }

  /** Walks the components through own keys of objects and arrays. `path` is only quoted in the error. */
  function Walk(location: Json, components: seq<string>, path: string): (r: Outcome<Json>)
    ensures |components| == 0 ==> r == Ok(location)
    ensures r.Failure? ==> exists i :: 0 <= i < |components| && r.error == PathNotFound(path, components[i])
    decreases |components|
  {
    if |components| == 0 then Ok(location)
    else if !location.IsObjectLike() || !HasOwn(location, components[0]) then
      Failure(PathNotFound(path, components[0]))
    else
      var r := Walk(Get(location, components[0]), components[1..], path);
      assert r.Failure? ==> exists i :: 0 <= i < |components[1..]| && r.error == PathNotFound(path, components[1..][i]);
      r
  }

  /** `resolveInternalPath(path, obj)`. */
  function ResolveInternalPath(path: string, obj: Json): (r: Outcome<Json>)
    ensures !StartsWith(path, "#/") ==> r == Failure(NotHashedPath(path))
    ensures StartsWith(path, "#/") ==> r == Walk(obj, Split(path[2..], '/'), path[2..])
  {
    if !StartsWith(path, "#/") then Failure(NotHashedPath(path))
    else Walk(obj, Split(path[2..], '/'), path[2..])
  }

  /** `resolveInternalPath`, with its loop in `WalkLoop`. */
  method ResolveInternalPathLoop(path: string, obj: Json) returns (r: Outcome<Json>)
    ensures r == ResolveInternalPath(path, obj)
  {
    if !StartsWith(path, "#/") {
      return Failure(NotHashedPath(path));
    }
    var rest := path[2..];
    r := WalkLoop(obj, Split(rest, '/'), rest);
  }

  /** The loop of `resolveInternalPath`, reassigning the current location step by step. */
  method WalkLoop(obj: Json, components: seq<string>, rest: string) returns (r: Outcome<Json>)
    ensures r == Walk(obj, components, rest)
  {
    var location := obj;
    var i := 0;
    assert components[0..] == components;
    while i < |components|
      invariant 0 <= i <= |components|
      invariant Walk(obj, components, rest) == Walk(location, components[i..], rest)
    {
      var component := components[i];
      WalkStep(location, components, i, rest);
      if !location.IsObjectLike() || !HasOwn(location, component) {
        return Failure(PathNotFound(rest, component));
      }
      location := Get(location, component);
      i := i + 1;
    }
    return Ok(location);
  }

  /** One step of the walk: the first remaining component is looked up, or the walk fails on it. */
  lemma WalkStep(location: Json, components: seq<string>, i: nat, path: string)
    requires i < |components|
    ensures var c := components[i];
      Walk(location, components[i..], path)
      == if !location.IsObjectLike() || !HasOwn(location, c) then Failure(PathNotFound(path, c))
         else Walk(Get(location, c), components[i + 1..], path)
  {
    assert components[i..][1..] == components[i + 1..];
  }

  /** A two-step pointer into an object of objects reaches the named member. */
  lemma ResolveTwoSteps(obj: Json, group: string, name: string)
    requires '/' !in group && '/' !in name
    requires obj.JObj? && HasOwn(obj, group) && Get(obj, group).JObj? && HasOwn(Get(obj, group), name)
    ensures ResolveInternalPath("#/" + group + "/" + name, obj) == Ok(Get(Get(obj, group), name))
  {
    var path := "#/" + group + "/" + name;
    assert path[2..] == group + "/" + name;
    var rest := path[2..];
    assert FindChar(rest, '/') == Some(|group|) by {
      assert rest[|group|] == '/';
      assert rest[..|group|] == group;
    }
    assert rest[|group| + 1..] == name;
    assert FindChar(name, '/').None?;
    assert Split(name, '/') == [name];
    assert Split(rest, '/') == [group, name];
    assert [group, name][1..] == [name];
    assert path[..2] == "#/";
    var g := Get(obj, group);
    assert Walk(g, [name], rest) == Walk(Get(g, name), [name][1..], rest);
    assert Walk(obj, [group, name], rest) == Walk(g, [name], rest);
  }

  /** A `#/` pointer that names a missing key fails with that key. */
  lemma ResolveMissing(obj: Json, key: string)
    requires '/' !in key && !HasOwn(obj, key)
    ensures ResolveInternalPath("#/" + key, obj) == Failure(PathNotFound(key, key))
  {
    var path := "#/" + key;
    assert path[2..] == key;
    assert Split(key, '/') == [key];
  }

  /** Sets each entry in turn, as a `for…in` copy loop does. */
  function Overlay(obj: Json, entries: seq<(string, Json)>): (r: Json)
    ensures obj.JObj? ==> r.JObj?
    decreases |entries|
  {
    if |entries| == 0 then obj
    else Overlay(Set(obj, entries[0].0, entries[0].1), entries[1..])
  }

  lemma {:induction false} OverlayGet(obj: Json, entries: seq<(string, Json)>, k: string)
    requires obj.JObj?
    ensures FindKey(entries, k).None? ==> Get(Overlay(obj, entries), k) == Get(obj, k)
    ensures FindKey(entries, k).None? ==> HasOwn(Overlay(obj, entries), k) == HasOwn(obj, k)
    ensures (forall i, j :: 0 <= i < j < |entries| ==> entries[i].0 != entries[j].0) && FindKey(entries, k).Some?
            ==> Get(Overlay(obj, entries), k) == entries[FindKey(entries, k).value].1
    decreases |entries|
  {
    if |entries| > 0 {
      var next := Set(obj, entries[0].0, entries[0].1);
      OverlayGet(next, entries[1..], k);
      if entries[0].0 == k && (forall i, j :: 0 <= i < j < |entries| ==> entries[i].0 != entries[j].0) {
        assert forall i :: 0 <= i < |entries[1..]| ==> entries[1..][i].0 != k;
        assert FindKey(entries[1..], k).None?;
      }
    }
  }

  /**
   * `replaceRef(schema, dereferenced)`: `$ref` is deleted, then every own
   * field of the target is copied over, overwriting same-named fields and
   * keeping the others.
   */
  function ReplaceRef(schema: Json, target: Json): (r: Json)
    ensures schema.JObj? ==> r.JObj?
  {
    Overlay(Remove(schema, "$ref"), OwnEntries(target))
  }

  /** After `replaceRef`, the target's fields win, the schema's other fields stay, and `$ref` is gone unless the target has one. */
  lemma ReplaceRefFields(schema: Json, target: Json, k: string)
    requires schema.JObj? && target.JObj?
    ensures WellFormed(target) && HasOwn(target, k) ==> Get(ReplaceRef(schema, target), k) == Get(target, k)
    ensures k != "$ref" && !HasOwn(target, k) ==>
      Get(ReplaceRef(schema, target), k) == Get(schema, k) && HasOwn(ReplaceRef(schema, target), k) == HasOwn(schema, k)
    ensures k == "$ref" && !HasOwn(target, k) ==> !HasOwn(ReplaceRef(schema, target), k)
  {
    var entries := OwnEntries(target);
    OverlayGet(Remove(schema, "$ref"), entries, k);
    if HasOwn(target, k) {
      if WellFormed(target) {
        OwnEntriesDistinct(target);
        OwnEntriesFind(target, k);
      }
    } else {
      OwnEntriesAbsent(target, k);
    }
  }

  /**
   * `loadSchema(schema)`: a schema without a truthy `$ref` is returned as it
   * is; reading `$ref` of `null` or `undefined` throws.
   */
  function LoadSchema(ctx: Context, schema: Json, fuel: nat): (r: Outcome<Json>)
    ensures schema.JUndefined? || schema.JNull? ==> r == Failure(TypeError)
    ensures !(schema.JUndefined? || schema.JNull?) && !Truthy(Get(schema, "$ref")) ==> r == Ok(schema)
    decreases fuel, 1
  {
    var ref := Get(schema, "$ref");
    if schema.JUndefined? || schema.JNull? then Failure(TypeError)
    else if !Truthy(ref) then Ok(schema)
    else if !ref.JStr? then Failure(TypeError)
    else
      var target :- LoadFromString(ctx, ref.s, fuel);
      Ok(ReplaceRef(schema, target))
  }

  /**
   * `_loadFromString(fullPath)`: an internal reference is walked in the spec
   * and dereferenced in turn; anything else is loaded through the
   * environment and, with an internal part, walked in the loaded document.
   */
  function LoadFromString(ctx: Context, fullPath: string, fuel: nat): (r: Outcome<Json>)
    decreases fuel, 0
  {
    var (filePath, internalPath) := SplitPath(fullPath);
    if filePath == "" then
      if internalPath.None? then Failure(InvalidPath(fullPath))
      else if fuel == 0 then Failure(OutOfFuel)
      else
        var target :- ResolveInternalPath(internalPath.value, ctx.spec);
        LoadSchema(ctx, target, fuel - 1)
    else
      var contents :- ctx.env.loadExternal(filePath);
      if internalPath.Some? then ResolveInternalPath(internalPath.value, contents) else Ok(contents)
  }

  /** `loadSchemaByName(name)`: a missing or falsy definition is an error, a present one is dereferenced. */
  function LoadSchemaByName(ctx: Context, name: string, fuel: nat): (r: Outcome<Json>)
    ensures Truthy(Get(ctx.spec, "definitions")) && !Truthy(Get(Get(ctx.spec, "definitions"), name)) ==>
      r == Failure(SchemaNotFound(name))
    ensures Truthy(Get(Get(ctx.spec, "definitions"), name)) && !Truthy(Get(Get(Get(ctx.spec, "definitions"), name), "$ref")) ==>
      r == Ok(Get(Get(ctx.spec, "definitions"), name))
  {
    var definitions := Get(ctx.spec, "definitions");
    if definitions.JUndefined? || definitions.JNull? then Failure(TypeError)
    else
      var schema := Get(definitions, name);
      if !Truthy(schema) then Failure(SchemaNotFound(name))
      else LoadSchema(ctx, schema, fuel)
  }

  /**
   * The empty path is invalid; a path without `#/` is a whole external
   * document, loaded through the environment.
   */
  lemma LoadFromStringCases(ctx: Context, fullPath: string, fuel: nat)
    ensures fullPath == "" ==> LoadFromString(ctx, fullPath, fuel) == Failure(InvalidPath(fullPath))
    ensures fullPath != "" && (forall k :: !OccursAt(fullPath, "#/", k)) ==>
      LoadFromString(ctx, fullPath, fuel) == ctx.env.loadExternal(fullPath)
  {
  }

  /** Whether `convertRefsToAbsolute` rewrites a reference: not a URL, not absolute, not internal. */
  predicate IsRelativeRef(ref: string) {
    !NeedsDownload(ref) && !StartsWith(ref, "/") && !StartsWith(ref, "#/")
  }

  function WithTrailingSlash(cwd: string): (r: string)
    ensures |r| > 0 && r[|r| - 1] == '/'
    ensures StartsWith(cwd, "/") ==> StartsWith(r, "/")
    ensures NeedsDownload(cwd) ==> NeedsDownload(r)
  {
    if |cwd| > 0 && cwd[|cwd| - 1] == '/' then cwd
    else
      assert (cwd + "/")[..|cwd|] == cwd;
      cwd + "/"
  }

  /** A relative string reference gets the base prefixed; any other value is left as it is. */
  function RewriteRef(cwd: string, ref: Json): (r: Json)
    ensures r.JStr? <==> ref.JStr?
    ensures ref.JStr? && IsRelativeRef(ref.s) ==> r == JStr(cwd + ref.s)
    ensures !(ref.JStr? && IsRelativeRef(ref.s)) ==> r == ref
  {
    match ref
    case JStr(s) => if IsRelativeRef(s) then JStr(cwd + s) else ref
    case _ => ref
  }

  /**
   * A `$ref` value on which `_needsDownload(ref)` and `ref.startsWith` can be
   * evaluated: a string, or an array whose first element is "http://" or
   * "https://" (its `indexOf` then answers 0 and the test stops early). On
   * anything else one of the calls is not a function and throws.
   */
  predicate RefUsable(ref: Json) {
    ref.JStr? || (ref.JArr? && |ref.items| > 0 && (ref.items[0] == JStr("http://") || ref.items[0] == JStr("https://")))
  }

  /** Every `$ref` member, at any depth, is usable, so the rewrite runs to the end without throwing. */
  predicate RefsConvertible(obj: Json)
    decreases obj
  {
    match obj
    case JArr(items) => forall i :: 0 <= i < |items| ==> RefsConvertible(items[i])
    case JObj(fields) =>
      forall i :: 0 <= i < |fields| ==>
        (fields[i].0 == "$ref" ==> RefUsable(fields[i].1)) && RefsConvertible(fields[i].1)
    case _ => true
  }

  /**
   * The value `convertRefsToAbsolute(cwd, obj)` leaves behind when it does not
   * throw: arrays and objects are rebuilt with every relative `$ref` string
   * prefixed by `cwd` (with a trailing `/` ensured), at any depth. Every
   * member, `$ref` included, is visited in turn; for a string that visit
   * changes nothing.
   */
  function ConvertRefsToAbsolute(cwd: string, obj: Json): (r: Json)
    ensures r.JStr? <==> obj.JStr?
    ensures !obj.IsObjectLike() ==> r == obj
    ensures obj.JArr? ==> r.JArr? && |r.items| == |obj.items|
    ensures obj.JObj? ==> r.JObj? && |r.fields| == |obj.fields|
    ensures obj.JObj? ==> forall i :: 0 <= i < |obj.fields| ==> r.fields[i].0 == obj.fields[i].0
    decreases obj
  {
    var base := WithTrailingSlash(cwd);
    match GetTypeName(obj)
    case "array" =>
      JArr(seq(|obj.items|, i requires 0 <= i < |obj.items| => ConvertRefsToAbsolute(base, obj.items[i])))
    case "object" =>
      JObj(seq(|obj.fields|, i requires 0 <= i < |obj.fields| =>
                 (obj.fields[i].0,
                  if obj.fields[i].0 == "$ref" && obj.fields[i].1.JStr? then RewriteRef(base, obj.fields[i].1)
                  else ConvertRefsToAbsolute(base, obj.fields[i].1))))
    case _ => obj
  }

  /**
   * `convertRefsToAbsolute(cwd, obj)` with its failure: a `$ref` member that
   * is not usable throws a TypeError, and the partly rewritten object goes
   * down with the rejection.
   */
  function ConvertRefs(cwd: string, obj: Json): (r: Outcome<Json>)
    ensures r.Failure? <==> !RefsConvertible(obj)
    ensures r.Failure? ==> r.error == TypeError
    ensures r.Ok? && !obj.IsObjectLike() ==> r.value == obj
  {
    if RefsConvertible(obj) then Ok(ConvertRefsToAbsolute(cwd, obj)) else Failure(TypeError)
  }

  /** Only `$ref` members change; an internal, absolute or URL reference is kept. */
  lemma ConvertKeepsNonRelative(cwd: string, ref: string)
    requires !IsRelativeRef(ref)
    ensures ConvertRefsToAbsolute(cwd, JObj([("$ref", JStr(ref))])) == JObj([("$ref", JStr(ref))])
  {
  }

  /** A relative reference is prefixed with the directory and a separator. */
  lemma ConvertPrefixesRelative(ref: string)
    requires IsRelativeRef(ref)
    ensures ConvertRefsToAbsolute("/specs", JObj([("$ref", JStr(ref))])) == JObj([("$ref", JStr("/specs/" + ref))])
  {
    assert WithTrailingSlash("/specs") == "/specs/";
  }

  /** With an absolute or URL base, the rewriting is idempotent: a rewritten reference is no longer relative. */
  lemma {:induction false} ConvertIdempotent(cwd: string, obj: Json)
    requires StartsWith(cwd, "/") || NeedsDownload(cwd)
    ensures ConvertRefsToAbsolute(cwd, ConvertRefsToAbsolute(cwd, obj)) == ConvertRefsToAbsolute(cwd, obj)
    decreases obj
  {
    var base := WithTrailingSlash(cwd);
    assert WithTrailingSlash(base) == base;
    var once := ConvertRefsToAbsolute(cwd, obj);
    match obj
    case JArr(items) =>
      forall i | 0 <= i < |items|
        ensures ConvertRefsToAbsolute(base, ConvertRefsToAbsolute(base, items[i])) == ConvertRefsToAbsolute(base, items[i])
      {
        ConvertIdempotent(base, items[i]);
      }
      assert ConvertRefsToAbsolute(cwd, once) == once;
    case JObj(fields) =>
      forall i | 0 <= i < |fields|
        ensures fields[i].0 == "$ref" && fields[i].1.JStr? ==>
          RewriteRef(base, RewriteRef(base, fields[i].1)) == RewriteRef(base, fields[i].1)
        ensures !(fields[i].0 == "$ref" && fields[i].1.JStr?) ==>
          ConvertRefsToAbsolute(base, ConvertRefsToAbsolute(base, fields[i].1)) == ConvertRefsToAbsolute(base, fields[i].1)
      {
        if fields[i].0 == "$ref" && fields[i].1.JStr? {
          RewriteOnce(base, fields[i].1);
        } else {
          ConvertIdempotent(base, fields[i].1);
        }
      }
      assert ConvertRefsToAbsolute(cwd, once) == once;
    case _ =>
  }

  /** The rewritten value passes the usability test again: strings stay strings, an array keeps its first element. */
  lemma {:induction false} ConvertKeepsConvertible(cwd: string, obj: Json)
    requires RefsConvertible(obj)
    ensures RefsConvertible(ConvertRefsToAbsolute(cwd, obj))
    decreases obj
  {
    var base := WithTrailingSlash(cwd);
    var once := ConvertRefsToAbsolute(cwd, obj);
    match obj
    case JArr(items) =>
      forall i | 0 <= i < |items| ensures RefsConvertible(once.items[i]) {
        ConvertKeepsConvertible(base, items[i]);
      }
    case JObj(fields) =>
      forall i | 0 <= i < |fields|
        ensures (once.fields[i].0 == "$ref" ==> RefUsable(once.fields[i].1)) && RefsConvertible(once.fields[i].1)
      {
        var v := fields[i].1;
        if fields[i].0 == "$ref" && v.JStr? {
          assert once.fields[i].1 == RewriteRef(base, v);
        } else {
          assert once.fields[i].1 == ConvertRefsToAbsolute(base, v);
          ConvertKeepsConvertible(base, v);
          if fields[i].0 == "$ref" && v.JArr? {
            assert ConvertRefsToAbsolute(base, v).items[0] == ConvertRefsToAbsolute(base, v.items[0]);
          }
        }
      }
    case _ =>
  }

  /** With an absolute or URL base, a conversion that succeeds succeeds again on its result and changes nothing. */
  lemma ConvertRefsIdempotent(cwd: string, obj: Json)
    requires StartsWith(cwd, "/") || NeedsDownload(cwd)
    ensures var r := ConvertRefs(cwd, obj); r.Ok? ==> ConvertRefs(cwd, r.value) == r
  {
    if RefsConvertible(obj) {
      ConvertKeepsConvertible(cwd, obj);
      ConvertIdempotent(cwd, obj);
    }
  }

  /** A numeric `$ref` throws: a number has no `indexOf`. */
  lemma NumericRefThrows(cwd: string)
    ensures ConvertRefs(cwd, JObj([("$ref", JNum(5.0))])) == Failure(TypeError)
  {
    var obj := JObj([("$ref", JNum(5.0))]);
    assert obj.fields[0].0 == "$ref" && !RefUsable(obj.fields[0].1);
  }

  /** A property named `$ref` inside `properties` holds a schema object, which throws too. */
  lemma RefNamedPropertyThrows(cwd: string)
    ensures var schema := JObj([("type", JStr("object")),
                                ("properties", JObj([("$ref", JObj([("type", JStr("string"))]))]))]);
      ConvertRefs(cwd, schema) == Failure(TypeError)
  {
    var properties := JObj([("$ref", JObj([("type", JStr("string"))]))]);
    assert !RefsConvertible(properties) by { assert !RefUsable(properties.fields[0].1); }
    var schema := JObj([("type", JStr("object")), ("properties", properties)]);
    assert schema.fields[1].1 == properties;
  }

  lemma RewriteOnce(base: string, ref: Json)
    requires StartsWith(base, "/") || NeedsDownload(base)
    ensures RewriteRef(base, RewriteRef(base, ref)) == RewriteRef(base, ref)
  {
    if ref.JStr? && IsRelativeRef(ref.s) {
      var s := base + ref.s;
      assert s[..|base|] == base;
      if StartsWith(base, "/") {
        assert s[..1] == base[..1];
      } else if StartsWith(base, "http://") {
        assert s[..7] == base[..7];
      } else {
        assert s[..8] == base[..8];
      }
    }
  }
}
