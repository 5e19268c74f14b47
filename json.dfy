/**
 * JavaScript values as the validator sees them: the JSON types plus
 * `undefined` and NaN. An object is the list of its own enumerable
 * properties in enumeration order, so key order drives everything that
 * iterates with `for…in`. There is no reference identity: two compound
 * values are never `===`.
 */
module JsonValues {
  import opened Outcomes
  import opened Text

  datatype Json =
    | JUndefined
    | JNull
    | JBool(b: bool)
    | JNum(n: real)
    | JNaN
    | JStr(s: string)
    | JArr(items: seq<Json>)
    | JObj(fields: seq<(string, Json)>)
  {
    /** `x instanceof Object` for the values modelled here. */
    predicate IsObjectLike() {
      JArr? || JObj?
    }
  }

  /** The renderer of a number that is not a small integer (`String(1.5)`, `String(1e21)`). */
  type NumberFormat = real -> string

  /** `typeof j`. */
  function TypeOf(j: Json): string {
    match j
    case JUndefined => "undefined"
    case JNull => "object"
    case JBool(_) => "boolean"
    case JNum(_) => "number"
    case JNaN => "number"
    case JStr(_) => "string"
    case JArr(_) => "object"
    case JObj(_) => "object"
  }

  /** JavaScript truthiness. */
  predicate Truthy(j: Json) {
    match j
    case JUndefined => false
    case JNull => false
    case JBool(b) => b
    case JNum(n) => n != 0.0
    case JNaN => false
    case JStr(s) => s != ""
    case JArr(_) => true
    case JObj(_) => true
  }

  /** `a === b`: primitives by value, NaN never, compound values never (no identity). */
  predicate StrictEquals(a: Json, b: Json) {
    match (a, b)
    case (JUndefined, JUndefined) => true
    case (JNull, JNull) => true
    case (JBool(x), JBool(y)) => x == y
    case (JNum(x), JNum(y)) => x == y
    case (JStr(x), JStr(y)) => x == y
    case _ => false
  }

  lemma StrictEqualsSymmetric(a: Json, b: Json)
    ensures StrictEquals(a, b) == StrictEquals(b, a)
  {
  }

  /** `list.indexOf(x) !== -1`: some member is `===` to `x`. */
  predicate ContainsStrict(list: seq<Json>, x: Json) {
    exists i :: 0 <= i < |list| && StrictEquals(list[i], x)
  }

  /** The position of the first field named `k`. */
  function FindKey(fields: seq<(string, Json)>, k: string): (r: Option<nat>)
    ensures r.Some? ==> r.value < |fields| && fields[r.value].0 == k
    ensures r.Some? ==> forall i :: 0 <= i < r.value ==> fields[i].0 != k
    ensures r.None? ==> forall i :: 0 <= i < |fields| ==> fields[i].0 != k
  {
    if |fields| == 0 then None
    else if fields[0].0 == k then Some(0)
    else match FindKey(fields[1..], k)
      case None => None
      case Some(i) => Some(i + 1)
  }

  /** `k` is a canonical array index ("0", "1", …, no leading zeros). */
  function ArrayIndex(k: string): (r: Option<nat>)
    ensures r.Some? ==> NatToString(r.value) == k
  {
    if |k| > 0 && (forall i :: 0 <= i < |k| ==> IsDigit(k[i])) && (|k| == 1 || k[0] != '0')
       && NatToString(DecimalValue(k)) == k
    then Some(DecimalValue(k))
    else None
  }

  lemma ArrayIndexOfNat(n: nat)
    ensures ArrayIndex(NatToString(n)) == Some(n)
  {
    DecimalRoundTrip(n);
  }

  /** `Object.prototype.hasOwnProperty.call(j, k)`. */
  predicate HasOwn(j: Json, k: string) {
    match j
    case JObj(fields) => FindKey(fields, k).Some?
    case JArr(items) => k == "length" || (ArrayIndex(k).Some? && ArrayIndex(k).value < |items|)
    case JStr(_) => k == "length"
    case _ => false
  }

  /**
   * The members every plain object inherits from `Object.prototype`, with
   * the legacy accessor helpers Node.js provides.
   */
  const ObjectPrototypeMembers: set<string> :=
    {"constructor", "hasOwnProperty", "isPrototypeOf", "propertyIsEnumerable", "toLocaleString",
     "toString", "valueOf", "__proto__", "__defineGetter__", "__defineSetter__",
     "__lookupGetter__", "__lookupSetter__"}

  /**
   * `j[k]` finds `k` on the prototype of a plain object, not on the object:
   * the read gives a function (or the prototype itself, for `__proto__`),
   * never `undefined`.
   */
  predicate InheritsMember(j: Json, k: string) {
    j.JObj? && !HasOwn(j, k) && k in ObjectPrototypeMembers
  }

  /**
   * `j[k]` for an own property, `undefined` otherwise. Inherited members are
   * not values of this model; `InheritsMember` says where a read would reach
   * one. Reading a property of `undefined` or `null` throws in JavaScript;
   * callers check that case first.
   */
  function Get(j: Json, k: string): (r: Json)
    ensures !HasOwn(j, k) ==> r == JUndefined
  {
    match j
    case JObj(fields) =>
      (match FindKey(fields, k)
       case Some(i) => fields[i].1
       case None => JUndefined)
    case JArr(items) =>
      if k == "length" then JNum(|items| as real)
      else (match ArrayIndex(k)
            case Some(i) => if i < |items| then items[i] else JUndefined
            case None => JUndefined)
    case JStr(s) => if k == "length" then JNum(Utf16Length(s) as real) else JUndefined
    case _ => JUndefined
  }

  predicate DistinctKeys(entries: seq<(string, Json)>) {
    forall a, b :: 0 <= a < b < |entries| ==> entries[a].0 != entries[b].0
  }

  /** The largest array index, 2^32 - 2. */
  const MaxArrayIndex: nat := 0xFFFF_FFFE

  /** The index `k` names, when `k` is an array index ("0" … "4294967294", no leading zeros). */
  function IndexKey(k: string): Option<nat> {
    match ArrayIndex(k)
    case Some(n) => if n <= MaxArrayIndex then Some(n) else None
    case None => None
  }

  /** Entries keyed by array indices, in ascending index order. */
  predicate IndexAscending(entries: seq<(string, Json)>) {
    (forall i :: 0 <= i < |entries| ==> IndexKey(entries[i].0).Some?)
    && forall a, b :: 0 <= a < b < |entries| ==> IndexRank(entries[a].0) <= IndexRank(entries[b].0)
  }

  /** The position of a key among the array indices (0 for any other key). */
  function IndexRank(k: string): nat {
    match IndexKey(k)
    case Some(n) => n
    case None => 0
  }

  /** An entry put into a list of index-keyed entries, before the first larger index. */
  function InsertByIndex(e: (string, Json), sorted: seq<(string, Json)>): seq<(string, Json)> {
    if |sorted| == 0 then [e]
    else if IndexRank(e.0) <= IndexRank(sorted[0].0) then [e] + sorted
    else [sorted[0]] + InsertByIndex(e, sorted[1..])
  }

  /** Inserting adds the entry and nothing else, and puts it or the old head first. */
  lemma {:induction false} InsertContents(e: (string, Json), sorted: seq<(string, Json)>)
    ensures var r := InsertByIndex(e, sorted);
      multiset(r) == multiset(sorted) + multiset{e}
      && |r| > 0 && (r[0] == e || (|sorted| > 0 && r[0] == sorted[0]))
  {
    if |sorted| > 0 {
      assert sorted == [sorted[0]] + sorted[1..];
      InsertContents(e, sorted[1..]);
    }
  }

  /** Inserting an index-keyed entry keeps a list ascending. */
  lemma {:induction false} InsertAscending(e: (string, Json), sorted: seq<(string, Json)>)
    requires IndexKey(e.0).Some? && IndexAscending(sorted)
    ensures IndexAscending(InsertByIndex(e, sorted))
  {
    if |sorted| > 0 {
      if IndexRank(e.0) <= IndexRank(sorted[0].0) {
        ConsAscending(e, sorted);
      } else {
        var rest := InsertByIndex(e, sorted[1..]);
        InsertAscending(e, sorted[1..]);
        InsertContents(e, sorted[1..]);
        assert IndexRank(sorted[0].0) <= IndexRank(rest[0].0) by {
          if rest[0] != e { assert rest[0] == sorted[1]; }
        }
        ConsAscending(sorted[0], rest);
      }
    }
  }

  /** An index-keyed entry no larger than the head of an ascending list can go in front. */
  lemma ConsAscending(x: (string, Json), rest: seq<(string, Json)>)
    requires IndexKey(x.0).Some? && IndexAscending(rest)
    requires |rest| > 0 ==> IndexRank(x.0) <= IndexRank(rest[0].0)
    ensures IndexAscending([x] + rest)
  {
    var r := [x] + rest;
    forall i | 0 <= i < |r| ensures IndexKey(r[i].0).Some? {
      if i > 0 { assert r[i] == rest[i - 1]; }
    }
    forall a, b | 0 <= a < b < |r| ensures IndexRank(r[a].0) <= IndexRank(r[b].0) {
      assert r[b] == rest[b - 1];
      if a == 0 {
        if b > 1 { assert IndexRank(rest[0].0) <= IndexRank(rest[b - 1].0); }
      } else {
        assert r[a] == rest[a - 1];
      }
    }
  }

  /** The entries keyed by array indices, in ascending index order. */
  function IndexEntries(fields: seq<(string, Json)>): seq<(string, Json)> {
    if |fields| == 0 then []
    else
      var rest := IndexEntries(fields[1..]);
      if IndexKey(fields[0].0).Some? then InsertByIndex(fields[0], rest) else rest
  }

  /** The entries keyed by anything else, in creation order. */
  function NamedEntries(fields: seq<(string, Json)>): seq<(string, Json)> {
    if |fields| == 0 then []
    else (if IndexKey(fields[0].0).Some? then [] else [fields[0]]) + NamedEntries(fields[1..])
  }

  /** The first group holds index keys in ascending order. */
  lemma {:induction false} IndexEntriesAscending(fields: seq<(string, Json)>)
    ensures IndexAscending(IndexEntries(fields))
  {
    if |fields| > 0 {
      IndexEntriesAscending(fields[1..]);
      if IndexKey(fields[0].0).Some? {
        InsertAscending(fields[0], IndexEntries(fields[1..]));
      }
    }
  }

  /** The second group holds no index key. */
  lemma {:induction false} NamedEntriesNamed(fields: seq<(string, Json)>)
    ensures forall i :: 0 <= i < |NamedEntries(fields)| ==> IndexKey(NamedEntries(fields)[i].0).None?
  {
    if |fields| > 0 {
      NamedEntriesNamed(fields[1..]);
      var head, named := if IndexKey(fields[0].0).Some? then [] else [fields[0]], NamedEntries(fields[1..]);
      assert NamedEntries(fields) == head + named;
      assert forall i :: |head| <= i < |head + named| ==> (head + named)[i] == named[i - |head|];
    }
  }

  /** Together the two groups hold every field once. */
  lemma {:induction false} GroupsSplit(fields: seq<(string, Json)>)
    ensures multiset(IndexEntries(fields)) + multiset(NamedEntries(fields)) == multiset(fields)
  {
    if |fields| > 0 {
      var head, tail := fields[0], fields[1..];
      assert fields == [head] + tail;
      GroupsSplit(tail);
      if IndexKey(head.0).Some? {
        InsertContents(head, IndexEntries(tail));
      } else {
        assert NamedEntries(fields) == [head] + NamedEntries(tail);
      }
    }
  }

  /**
   * The pairs a `for…in` loop with a `hasOwnProperty` filter visits, in the
   * order it visits them (the order `JSON.stringify` writes them too): array
   * indices first, ascending, then the other keys in creation order, which
   * is the order of the field list.
   */
  function OwnEntries(j: Json): (r: seq<(string, Json)>)
    ensures j.JArr? ==> |r| == |j.items|
    ensures !j.IsObjectLike() ==> r == []
  {
    match j
    case JObj(fields) => IndexEntries(fields) + NamedEntries(fields)
    case JArr(items) => seq(|items|, i requires 0 <= i < |items| => (NatToString(i), items[i]))
    case _ => []
  }

  /** Enumeration meets every field of an object once: the entries are a permutation of the fields. */
  lemma OwnEntriesPermute(j: Json)
    requires j.JObj?
    ensures multiset(OwnEntries(j)) == multiset(j.fields)
  {
    GroupsSplit(j.fields);
  }

  /**
   * The enumeration order: every index-keyed entry comes before every other
   * one, index-keyed entries ascend, and the others keep creation order.
   */
  lemma ForInOrder(fields: seq<(string, Json)>)
    ensures var r, n := OwnEntries(JObj(fields)), |IndexEntries(fields)|;
      (forall a, b :: 0 <= a < b < |r| && IndexKey(r[b].0).Some? ==> IndexKey(r[a].0).Some?)
      && IndexAscending(r[..n]) && r[n..] == NamedEntries(fields)
  {
    var first, named := IndexEntries(fields), NamedEntries(fields);
    IndexEntriesAscending(fields);
    NamedEntriesNamed(fields);
    IndexFirst(first, named);
  }

  /** Index-keyed entries followed by other ones: the index keys come first. */
  lemma IndexFirst(first: seq<(string, Json)>, named: seq<(string, Json)>)
    requires IndexAscending(first) && forall i :: 0 <= i < |named| ==> IndexKey(named[i].0).None?
    ensures var r := first + named;
      (forall a, b :: 0 <= a < b < |r| && IndexKey(r[b].0).Some? ==> IndexKey(r[a].0).Some?)
      && IndexAscending(r[..|first|]) && r[|first|..] == named
  {
    var r := first + named;
    assert r[..|first|] == first;
    assert r[|first|..] == named;
    assert forall b :: |first| <= b < |r| ==> r[b] == named[b - |first|];
    assert forall a :: 0 <= a < |first| ==> r[a] == first[a];
  }

  /** An object none of whose keys is an array index is enumerated in creation order. */
  lemma {:induction false} NamedInOrder(fields: seq<(string, Json)>)
    requires forall i :: 0 <= i < |fields| ==> IndexKey(fields[i].0).None?
    ensures IndexEntries(fields) == [] && NamedEntries(fields) == fields
    ensures OwnEntries(JObj(fields)) == fields
  {
    if |fields| > 0 {
      var head, tail := fields[0], fields[1..];
      assert fields == [head] + tail;
      NamedInOrder(tail);
      assert IndexKey(head.0).None?;
    }
  }

  /** A key that does not start with a digit is no array index. */
  lemma NotIndexKey(k: string)
    requires |k| > 0 && !IsDigit(k[0])
    ensures IndexKey(k).None?
  {
  }

  /** An object of one field that is no array index is enumerated as that field. */
  lemma SingleNamedEntry(k: string, v: Json)
    requires IndexKey(k).None?
    ensures OwnEntries(JObj([(k, v)])) == [(k, v)]
  {
    NamedInOrder([(k, v)]);
  }

  /** With distinct keys, enumeration meets no key twice. */
  lemma OwnEntriesDistinct(j: Json)
    requires j.JObj? && DistinctKeys(j.fields)
    ensures DistinctKeys(OwnEntries(j))
  {
    var r, fields := OwnEntries(j), j.fields;
    OwnEntriesPermute(j);
    forall a, b | 0 <= a < b < |r| ensures r[a].0 != r[b].0 {
      assert r[a] in multiset(fields) && r[b] in multiset(fields);
      var x :| 0 <= x < |fields| && fields[x] == r[a];
      var y :| 0 <= y < |fields| && fields[y] == r[b];
      SingleOccurrence(fields, x);
      CountedOnce(r, a, b);
      assert x != y;
    }
  }

  /** Enumeration meets no key the object does not own. */
  lemma OwnEntriesAbsent(j: Json, k: string)
    requires j.JObj? && !HasOwn(j, k)
    ensures FindKey(OwnEntries(j), k).None?
  {
    var r, fields := OwnEntries(j), j.fields;
    OwnEntriesPermute(j);
    forall i | 0 <= i < |r| ensures r[i].0 != k {
      assert r[i] in multiset(fields);
      var z :| 0 <= z < |fields| && fields[z] == r[i];
    }
  }

  /** With distinct keys, enumeration meets each own key with its own value. */
  lemma OwnEntriesFind(j: Json, k: string)
    requires j.JObj? && DistinctKeys(j.fields) && HasOwn(j, k)
    ensures var r := OwnEntries(j);
      FindKey(r, k).Some? && r[FindKey(r, k).value].1 == Get(j, k)
  {
    var r, fields := OwnEntries(j), j.fields;
    OwnEntriesPermute(j);
    var x := FindKey(fields, k).value;
    assert fields[x] in multiset(r);
    var i :| 0 <= i < |r| && r[i] == fields[x];
    assert FindKey(r, k).Some?;
    var m := FindKey(r, k).value;
    assert r[m] in multiset(fields);
    var z :| 0 <= z < |fields| && fields[z] == r[m];
    assert z == x;
  }

  /** An element counted once occurs at no other position. */
  lemma CountedOnce(s: seq<(string, Json)>, a: nat, b: nat)
    requires a < b < |s| && multiset(s)[s[a]] == 1
    ensures s[a] != s[b]
  {
    assert s == s[..b] + [s[b]] + s[b + 1..];
    assert s[..b][a] == s[a];
    assert multiset(s)[s[a]] == multiset(s[..b])[s[a]] + multiset([s[b]])[s[a]] + multiset(s[b + 1..])[s[a]];
  }

  /** In a list with distinct keys, each entry occurs once. */
  lemma {:induction false} SingleOccurrence(fields: seq<(string, Json)>, x: nat)
    requires x < |fields| && DistinctKeys(fields)
    ensures multiset(fields)[fields[x]] == 1
  {
    assert fields == [fields[0]] + fields[1..];
    if x == 0 {
      forall b | 0 <= b < |fields[1..]| ensures fields[1..][b] != fields[0] {
        assert fields[b + 1].0 != fields[0].0;
      }
      assert fields[0] !in fields[1..];
    } else {
      assert fields[1..][x - 1] == fields[x];
      SingleOccurrence(fields[1..], x - 1);
      assert fields[0] != fields[x] by { assert fields[0].0 != fields[x].0; }
    }
  }

  /** `j[k] = v` on an object: an existing key keeps its place, a new key goes last. */
  function Set(j: Json, k: string, v: Json): (r: Json)
    ensures j.JObj? ==> r.JObj? && HasOwn(r, k) && Get(r, k) == v
    ensures j.JObj? ==> forall k' :: k' != k ==> HasOwn(r, k') == HasOwn(j, k') && Get(r, k') == Get(j, k')
    ensures !j.JObj? ==> r == j
  {
    match j
    case JObj(fields) =>
      (match FindKey(fields, k)
       case Some(i) => SetAtPreserves(fields, i, k, v); JObj(fields[i := (k, v)])
       case None => FindKeyAppend(fields, k, v); JObj(fields + [(k, v)]))
    case _ => j
  }

  lemma SetAtPreserves(fields: seq<(string, Json)>, i: nat, k: string, v: Json)
    requires i < |fields| && fields[i].0 == k
    requires forall m :: 0 <= m < i ==> fields[m].0 != k
    ensures FindKey(fields[i := (k, v)], k) == Some(i)
    ensures forall k' :: k' != k ==> FindKey(fields[i := (k, v)], k') == FindKey(fields, k')
  {
    var g := fields[i := (k, v)];
    forall k' | k' != k ensures FindKey(g, k') == FindKey(fields, k') {
      FindKeySameKeys(fields, g, k');
    }
  }

  lemma FindKeySameKeys(a: seq<(string, Json)>, b: seq<(string, Json)>, k: string)
    requires |a| == |b| && forall m :: 0 <= m < |a| ==> a[m].0 == b[m].0
    ensures FindKey(a, k) == FindKey(b, k)
  {
    if |a| > 0 {
      FindKeySameKeys(a[1..], b[1..], k);
    }
  }

  lemma FindKeyAppend(fields: seq<(string, Json)>, k: string, v: Json)
    requires FindKey(fields, k).None?
    ensures FindKey(fields + [(k, v)], k) == Some(|fields|)
    ensures forall k' :: k' != k ==> FindKey(fields + [(k, v)], k') == FindKey(fields, k')
  {
    forall k' | k' != k ensures FindKey(fields + [(k, v)], k') == FindKey(fields, k') {
      FindKeyPrefix(fields, [(k, v)], k');
    }
    FindKeyPrefix(fields, [(k, v)], k);
  }

  lemma FindKeyPrefix(a: seq<(string, Json)>, b: seq<(string, Json)>, k: string)
    ensures FindKey(a + b, k) == (match FindKey(a, k)
                                  case Some(i) => Some(i)
                                  case None => (match FindKey(b, k)
                                                case Some(j) => Some(|a| + j)
                                                case None => None))
  {
    if |a| > 0 {
      assert (a + b)[1..] == a[1..] + b;
      FindKeyPrefix(a[1..], b, k);
    } else {
      assert a + b == b;
    }
  }

  /** `delete j[k]` on an object. */
  function Remove(j: Json, k: string): (r: Json)
    ensures j.JObj? ==> r.JObj? && !HasOwn(r, k)
    ensures j.JObj? ==> forall k' :: k' != k ==> HasOwn(r, k') == HasOwn(j, k') && Get(r, k') == Get(j, k')
    ensures !j.JObj? ==> r == j
  {
    match j
    case JObj(fields) => RemoveKeyFacts(fields, k); JObj(RemoveKey(fields, k))
    case _ => j
  }

  function RemoveKey(fields: seq<(string, Json)>, k: string): (r: seq<(string, Json)>)
    ensures forall i :: 0 <= i < |r| ==> r[i].0 != k
  {
    if |fields| == 0 then []
    else if fields[0].0 == k then RemoveKey(fields[1..], k)
    else [fields[0]] + RemoveKey(fields[1..], k)
  }

  lemma RemoveKeyFacts(fields: seq<(string, Json)>, k: string)
    ensures FindKey(RemoveKey(fields, k), k).None?
    ensures forall k' :: k' != k ==>
      (FindKey(RemoveKey(fields, k), k').Some? == FindKey(fields, k').Some?)
      && (FindKey(fields, k').Some? ==>
            RemoveKey(fields, k)[FindKey(RemoveKey(fields, k), k').value].1 == fields[FindKey(fields, k').value].1)
  {
    if |fields| > 0 {
      RemoveKeyFacts(fields[1..], k);
    }
  }

  /** Every object, at every depth, has distinct keys, as JavaScript objects do. */
  predicate WellFormed(j: Json) {
    match j
    case JArr(items) => forall i :: 0 <= i < |items| ==> WellFormed(items[i])
    case JObj(fields) =>
      (forall i, m :: 0 <= i < m < |fields| ==> fields[i].0 != fields[m].0)
      && forall i :: 0 <= i < |fields| ==> WellFormed(fields[i].1)
    case _ => true
  }

  /** With distinct keys, the value read under a field's key is that field's value. */
  lemma GetDistinct(fields: seq<(string, Json)>, i: nat)
    requires i < |fields|
    requires forall a, b :: 0 <= a < b < |fields| ==> fields[a].0 != fields[b].0
    ensures FindKey(fields, fields[i].0) == Some(i)
  {
  }

  /** `String(n)`: integers below 1e21 in decimal, anything else through `fmt`. */
  function NumberText(n: real, fmt: NumberFormat): string {
    if n == n.Floor as real && -1000000000000000000000.0 < n < 1000000000000000000000.0
    then IntToString(n.Floor)
    else fmt(n)
  }

  /** `String(j)`, the conversion used by `'' + j` and by template literals. */
  function ToString(j: Json, fmt: NumberFormat): string
    decreases j
  {
    match j
    case JUndefined => "undefined"
    case JNull => "null"
    case JBool(b) => if b then "true" else "false"
    case JNum(n) => NumberText(n, fmt)
    case JNaN => "NaN"
    case JStr(s) => s
    case JArr(items) =>
      Join(seq(|items|, i requires 0 <= i < |items| =>
                 if items[i].JUndefined? || items[i].JNull? then "" else ToString(items[i], fmt)), ",")
    case JObj(_) => "[object Object]"
  }

  /**
   * The engine's `StringToNumber`: the value of a numeric literal after
   * trimming white space, `None` (NaN) for any other text.
   */
  type NumberParse = string -> Option<real>

  /**
   * `Number(j)`, the conversion `<`, `>`, `>=`, `<=` and `%` apply to an
   * operand that is not a number; `None` stands for NaN. An array converts
   * through its text (`[5]` reads as 5, `[]` as 0); a plain object's text
   * "[object Object]" is not numeric.
   */
  function ToNumber(j: Json, fmt: NumberFormat, parse: NumberParse): Option<real> {
    match j
    case JUndefined => None
    case JNull => Some(0.0)
    case JBool(b) => Some(if b then 1.0 else 0.0)
    case JNum(n) => Some(n)
    case JNaN => None
    case JStr(s) => parse(s)
    case JArr(_) => parse(ToString(j, fmt))
    case JObj(_) => None
  }

  /**
   * The conversions a bound meets: text through the engine's parser, an
   * array through its joined text, `true` as 1, `null` as 0, a plain object
   * as NaN.
   */
  lemma ToNumberExamples(fmt: NumberFormat, parse: NumberParse)
    requires parse("300") == Some(300.0)
    ensures ToNumber(JStr("300"), fmt, parse) == Some(300.0)
    ensures ToNumber(JArr([JStr("300")]), fmt, parse) == Some(300.0)
    ensures ToNumber(JBool(true), fmt, parse) == Some(1.0) && ToNumber(JNull, fmt, parse) == Some(0.0)
    ensures ToNumber(JObj([]), fmt, parse).None? && ToNumber(JUndefined, fmt, parse).None?
  {
    assert ToString(JArr([JStr("300")]), fmt) == "300" by {
      var items := [JStr("300")];
      var parts := seq(|items|, i requires 0 <= i < |items| =>
                         if items[i].JUndefined? || items[i].JNull? then "" else ToString(items[i], fmt));
      assert parts[0] == "300" && |parts| == 1;
      assert parts == ["300"];
    }
  }

  /** The four hexadecimal digits of a code unit below 0x20, lower case. */
  function HexEscape(c: char): string
    requires (c as int) < 0x20
  {
    var digits := "0123456789abcdef";
    "\\u00" + [digits[(c as int) / 16], digits[(c as int) % 16]]
  }

  /** The body of a JSON string literal. */
  function Escape(s: string): string {
    if |s| == 0 then ""
    else
      var c := s[0];
      var e :=
        if c == '"' then "\\\""
        else if c == '\\' then "\\\\"
        else if c == '\U{8}' then "\\b"
        else if c == '\U{C}' then "\\f"
        else if c == '\n' then "\\n"
        else if c == '\r' then "\\r"
        else if c == '\t' then "\\t"
        else if (c as int) < 0x20 then HexEscape(c)
        else [c];
      e + Escape(s[1..])
  }

  function Quote(s: string): string {
    "\"" + Escape(s) + "\""
  }

  /**
   * `JSON.stringify(j)`: `None` where JavaScript gives `undefined`. An
   * `undefined` array element becomes `null`, an `undefined` object member
   * is dropped, and NaN becomes `null`.
   */
  function Stringify(j: Json, fmt: NumberFormat): (r: Option<string>)
    ensures r.None? <==> j.JUndefined?
    decreases j
  {
    match j
    case JUndefined => None
    case JNull => Some("null")
    case JBool(b) => Some(if b then "true" else "false")
    case JNum(n) => Some(NumberText(n, fmt))
    case JNaN => Some("null")
    case JStr(s) => Some(Quote(s))
    case JArr(items) =>
      Some("[" + Join(seq(|items|, i requires 0 <= i < |items| =>
                            match Stringify(items[i], fmt)
                            case Some(t) => t
                            case None => "null"), ",") + "]")
    case JObj(fields) =>
      var entries := OwnEntries(j);
      EntriesSmaller(j);
      var present := MembersText(entries, j, fmt);
      Some("{" + Join(present, ",") + "}")
  }

  /** Every enumerated value lies inside the object. */
  lemma EntriesSmaller(j: Json)
    requires j.JObj?
    ensures forall i :: 0 <= i < |OwnEntries(j)| ==> OwnEntries(j)[i].1 < j
  {
    var r := OwnEntries(j);
    OwnEntriesPermute(j);
    forall i | 0 <= i < |r| ensures r[i].1 < j {
      assert r[i] in multiset(j.fields);
      var x :| 0 <= x < |j.fields| && j.fields[x] == r[i];
    }
  }

  /** The `"key":value` texts of the members whose value is not `undefined`. */
  function MembersText(fields: seq<(string, Json)>, ghost parent: Json, fmt: NumberFormat): seq<string>
    requires forall i :: 0 <= i < |fields| ==> fields[i].1 < parent
    decreases parent, |fields|
  {
    if |fields| == 0 then []
    else
      var rest := MembersText(fields[1..], parent, fmt);
      match Stringify(fields[0].1, fmt)
      case None => rest
      case Some(t) => [Quote(fields[0].0) + ":" + t] + rest
  }
}
