/**
 * Decoded JSON / YAML values, as the bot receives them from the YAML
 * configuration file and from Twitter's rate-limit status endpoint.
 */
module Json {
  import opened Common

  /** An object keeps its keys in insertion order, as a Python dict does; its keys are distinct. */
  datatype Json =
    | JNull
    | JBool(b: bool)
    | JInt(i: int)
    | JStr(s: string)
    | JList(items: seq<Json>)
    | JObj(fields: seq<(string, Json)>)

  /** The value stored under `key` in an object's field list. */
  function Get(fields: seq<(string, Json)>, key: string): (r: Option<Json>)
    ensures r.Some? <==> exists k :: 0 <= k < |fields| && fields[k].0 == key
    ensures r.Some? ==> exists k :: 0 <= k < |fields| && fields[k] == (key, r.value)
  {
    if fields == [] then None
    else if fields[0].0 == key then Some(fields[0].1)
    else
      var r := Get(fields[1..], key);
      assert forall k :: 1 <= k < |fields| ==> fields[k] == fields[1..][k - 1];
      r
  }

  /** `isinstance(v, dict) and key in v`, then `v[key]`. */
  function Field(v: Json, key: string): Option<Json> {
    if v.JObj? then Get(v.fields, key) else None
  }

  /** `v.get(key, default)` on a dict. */
  function GetOr(fields: seq<(string, Json)>, key: string, default: Json): Json {
    Get(fields, key).GetOr(default)
  }

  /**
   * Walks a path of keys through nested objects: None as soon as a key is
   * missing or the value reached so far is not an object.
   */
  function Lookup(v: Json, keys: seq<string>): Option<Json> {
    if keys == [] then Some(v)
    else
      match Field(v, keys[0])
      case None => None
      case Some(w) => Lookup(w, keys[1..])
  }

  /** A walk along `a + b` is a walk along `a` followed by a walk along `b`. */
  lemma {:induction false} LookupConcat(v: Json, a: seq<string>, b: seq<string>)
    ensures Lookup(v, a + b) == match Lookup(v, a) case None => None case Some(w) => Lookup(w, b)
  {
    if a != [] {
      assert (a + b)[0] == a[0];
      assert (a + b)[1..] == a[1..] + b;
      match Field(v, a[0])
      case None =>
      case Some(w) => LookupConcat(w, a[1..], b);
    } else {
      assert a + b == b;
    }
  }

  /** The number a Python value stands for in arithmetic and comparisons (`bool` is an `int`). */
  function AsNumber(v: Json): Option<int> {
    match v
    case JInt(i) => Some(i)
    case JBool(b) => Some(if b then 1 else 0)
    case _ => None
  }
}
