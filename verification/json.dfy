/** JSON values as `json.dumps` receives them: Python dicts keep their
    insertion order, so an object is a sequence of key/value pairs. */
module JsonValue {
  import opened Optional

  datatype Json =
    | JNull
    | JBool(b: bool)
    | JInt(i: int)
    | JStr(s: string)
    | JArr(items: seq<Json>)
    | JObj(fields: seq<(string, Json)>)

  function Keys(fields: seq<(string, Json)>): (ks: seq<string>)
    ensures |ks| == |fields|
    ensures forall i :: 0 <= i < |fields| ==> ks[i] == fields[i].0
  {
    if |fields| == 0 then [] else [fields[0].0] + Keys(fields[1..])
  }

  /** `d.get(key)`: the value stored under `key`. */
  function Get(j: Json, key: string): Option<Json>
  {
    if !j.JObj? then None else Find(j.fields, key)
  }

  function Find(fields: seq<(string, Json)>, key: string): (r: Option<Json>)
    ensures r.Some? <==> key in Keys(fields)
  {
    if |fields| == 0 then None
    else if fields[0].0 == key then Some(fields[0].1)
    else Find(fields[1..], key)
  }

  /** A lookup finds the first pair holding the key. */
  lemma {:induction false} FindAt(fields: seq<(string, Json)>, i: nat)
    requires i < |fields|
    requires forall k :: 0 <= k < i ==> fields[k].0 != fields[i].0
    ensures Find(fields, fields[i].0) == Some(fields[i].1)
  {
    if i > 0 {
      assert fields[1..][i - 1] == fields[i];
      FindAt(fields[1..], i - 1);
    }
  }

  function OptStr(x: Option<string>): Json {
    match x
    case Some(t) => JStr(t)
    case None => JNull
  }

  function OptInt(x: Option<int>): Json {
    match x
    case Some(n) => JInt(n)
    case None => JNull
  }
}
