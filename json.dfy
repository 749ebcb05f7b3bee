/**
 * The values `json.loads` produces, restricted to what the converter inspects. A top-level
 * result is a string-keyed object kept in key order, as a Python dict keeps insertion order.
 */
module Json {
  import opened Wrappers
  import opened Text

  datatype Json =
    | JNull
    | JBool(b: bool)
    | JNumber(lexeme: string)
    | JString(str: string)
    | JArray(items: seq<Json>)
    | JObject(members: seq<(string, Json)>)

  type Object = seq<(string, Json)>

  /** Python's `key in obj` for a dict. */
  predicate HasKey(o: Object, key: string) {
    exists i :: 0 <= i < |o| && o[i].0 == key
  }

  /** Python's `obj.get(key)`: the value of the first member named `key`. */
  function Get(o: Object, key: string): (r: Option<Json>)
    ensures r.Some? <==> HasKey(o, key)
    ensures r.Some? ==> (key, r.value) in o
    decreases |o|
  {
    if o == [] then None
    else if o[0].0 == key then Some(o[0].1)
    else
      assert forall i :: 1 <= i < |o| ==> o[i] == o[1..][i - 1];
      Get(o[1..], key)
  }

  /** The `{"error": message}` dict every failing stage of the converter returns. */
  function ErrorObject(message: string): (o: Object)
    ensures HasKey(o, "error") && Get(o, "error") == Some(JString(message))
  {
    var o := [("error", JString(message))];
    assert o[0].0 == "error";
    o
  }

  /** `str(list(obj.keys()))`: the key names, each in single quotes, comma separated, in brackets. */
  function KeysRepr(o: Object): string {
    "[" + Join(QuotedKeys(o), ", ") + "]"
  }

  function QuotedKeys(o: Object): (r: seq<string>)
    ensures |r| == |o|
    ensures forall i :: 0 <= i < |o| ==> r[i] == "'" + o[i].0 + "'"
  {
    seq(|o|, i requires 0 <= i < |o| => "'" + o[i].0 + "'")
  }
}
