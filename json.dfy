/** JSON values as the benchmark files and the search engine's responses carry
    them, and the handful of Python operations the scripts apply to them. */
module Json {
  import opened Wrappers

  /** A JSON value. Numbers are exact rationals, so the integer 1 and the float
      1.0 are the same value, as they compare equal in Python. An object keeps
      its entries in insertion order, as a Python dict does. */
  datatype Json =
    | JNull
    | JBool(b: bool)
    | JNum(n: real)
    | JStr(s: string)
    | JArr(items: seq<Json>)
    | JObj(entries: seq<(string, Json)>)

  /** A JSON object whose key order is irrelevant to the code that uses it
      (a benchmark sample). */
  type Record = map<string, Json>

  /** `d.get(key)` on an object: the first entry with that key. */
  function Lookup(entries: seq<(string, Json)>, key: string): (r: Option<Json>)
    ensures r.Some? <==> exists k :: 0 <= k < |entries| && entries[k].0 == key
    ensures r.Some? ==> exists k :: 0 <= k < |entries| && entries[k] == (key, r.value)
  {
    if entries == [] then None
    else if entries[0].0 == key then Some(entries[0].1)
    else Lookup(entries[1..], key)
  }

  /** `record[key]`: raises KeyError when the key is missing. */
  function Get(r: Record, key: string): (v: Result<Json>)
    ensures v.Success? <==> key in r
    ensures v.Success? ==> v.value == r[key]
  {
    if key in r then Success(r[key]) else Failure(KeyError)
  }

  /** Python's `len(x)`: defined on strings, lists and dicts; a TypeError otherwise. */
  function Len(j: Json): Result<nat>
  {
    match j
    case JStr(s) => Success(|s|)
    case JArr(items) => Success(|items|)
    case JObj(entries) => Success(|entries|)
    case _ => Failure(TypeError)
  }

  /** Python's `x[0]`: the first element of a list, the first character of a
      string (as a string); IndexError when empty; a dict has no key 0 (JSON
      keys are strings), so KeyError; TypeError for scalars. */
  function First(j: Json): Result<Json>
  {
    match j
    case JStr(s) => if s == [] then Failure(IndexError) else Success(JStr([s[0]]))
    case JArr(items) => if items == [] then Failure(IndexError) else Success(items[0])
    case JObj(_) => Failure(KeyError)
    case _ => Failure(TypeError)
  }
}
