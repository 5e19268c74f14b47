/**
 * The runtime kind name used to pick a checker: `typeof`, except that
 * `null` and arrays get names of their own.
 */
module TypeNames {
  import opened JsonValues

  /** The seven kind names the validator can see. */
  predicate IsKindName(s: string) {
    s == "undefined" || s == "null" || s == "boolean" || s == "number"
    || s == "string" || s == "array" || s == "object"
  }

  function GetTypeName(j: Json): (r: string)
    ensures IsKindName(r)
    ensures r == "null" <==> j.JNull?
    ensures r == "array" <==> j.JArr?
    ensures r == "object" <==> j.JObj?
    ensures !j.JNull? && !j.JArr? ==> r == TypeOf(j)
  {
    if j.JNull? then "null"
    else if j.JArr? then "array"
    else TypeOf(j)
  }
}
