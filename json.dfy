/**
 * The loosely typed JSON payloads the job-search service returns.
 *
 * A JSON object keeps its entries in their natural (insertion) order, so that
 * "the first value of the object" is well defined, as it is for a Python dict.
 */
module Payload {

  datatype Option<+T> = None | Some(value: T)

  /** A JSON value. `Num` covers both integers and floats. */
  datatype Json =
    | Str(s: string)
    | Dict(entries: seq<(string, Json)>)
    | List(items: seq<Json>)
    | Num(n: real)
    | Bool(b: bool)
    | Null

  /** The empty object `{}`. */
  const EMPTY_OBJECT: Json := Dict([])

  /**
   * `d.get(key)`: the value stored under `key`, or None when the key is absent.
   * A decoded JSON object never holds a key twice (the decoder keeps the last
   * value of a repeated key), so entry sequences with a repeated key stand for
   * no decoded payload; on them Get takes the first entry.
   */
  function Get(entries: seq<(string, Json)>, key: string): (r: Option<Json>)
    ensures r.None? <==> forall i :: 0 <= i < |entries| ==> entries[i].0 != key
    ensures r.Some? ==> exists i :: 0 <= i < |entries| && entries[i] == (key, r.value) &&
                                    forall j :: 0 <= j < i ==> entries[j].0 != key
  {
    if entries == [] then None
    else if entries[0].0 == key then Some(entries[0].1)
    else
      var r := Get(entries[1..], key);
      assert forall j :: 1 <= j < |entries| ==> entries[j] == entries[1..][j - 1];
      r
  }

  /** Python truthiness of a decoded JSON value: false exactly for Python's falsy values. */
  predicate Truthy(j: Json)
    ensures Truthy(j) <==> j !in {Str(""), Dict([]), List([]), Num(0.0), Bool(false), Null}
  {
    match j
    case Str(s) => s != ""
    case Dict(entries) => entries != []
    case List(items) => items != []
    case Num(n) => n != 0.0
    case Bool(b) => b
    case Null => false
  }
}
