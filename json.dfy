/**
 * JSON-shaped values: what the backend's parsers produce and what the
 * frontend receives as the rows of a dataset.
 */
module Json {
  import opened Wrappers

  /** A JSON value. Numbers are kept as their literal text: nothing here computes with them. */
  datatype Json =
    | JNull
    | JBool(b: bool)
    | JNumber(literal: string)
    | JString(s: string)
    | JArray(items: seq<Json>)
    | JObject(members: seq<Member>)

  /** One key/value pair of an object; members keep their insertion order. */
  datatype Member = Member(key: string, value: Json)

  /** The keys of an object in insertion order (Python's `list(d.keys())`). */
  function Keys(members: seq<Member>): seq<string>
  {
    seq(|members|, k requires 0 <= k < |members| => members[k].key)
  }

  /** No key occurs twice, as in every Python dict and every JavaScript object. */
  predicate DistinctKeys(members: seq<Member>)
  {
    forall i, j :: 0 <= i < j < |members| ==> members[i].key != members[j].key
  }

  /** The value stored under `key`, or None (JavaScript's `undefined`) when there is none. */
  function Lookup(members: seq<Member>, key: string): (r: Option<Json>)
    ensures r.None? <==> key !in Keys(members)
    ensures r.Some? ==> Member(key, r.value) in members
  {
    if members == [] then None
    else if members[0].key == key then
      assert Keys(members)[0] == key;
      Some(members[0].value)
    else
      assert Keys(members) == [members[0].key] + Keys(members[1..]);
      Lookup(members[1..], key)
  }
}
