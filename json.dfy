/**
 * The JSON-like values callers hand to the storage layer: mapping documents,
 * fixtures, document bodies, queries and options. Apart from telling a plain
 * object from every other kind of value, the storage layer treats them as
 * opaque and passes them through unchanged.
 */
module Json {

  /** Numbers are integers in this model; object members keep insertion order. */
  datatype Json =
    | JNull
    | JBool(b: bool)
    | JNumber(n: int)
    | JString(s: string)
    | JArray(items: seq<Json>)
    | JObject(members: seq<(string, Json)>)

  /** A plain keyed structure: not null, not an array, not a scalar. */
  predicate IsPlainObject(j: Json) {
    j.JObject?
  }

  /** Every member of the object is itself a plain object. */
  predicate MembersArePlainObjects(members: seq<(string, Json)>) {
    forall k :: 0 <= k < |members| ==> IsPlainObject(members[k].1)
  }

  /**
   * The shape demanded of mapping documents and document fixtures: the top-level
   * value and every index-level value must be plain objects.
   */
  predicate IsTwoLevelObject(j: Json) {
    IsPlainObject(j) && MembersArePlainObjects(j.members)
  }
}
