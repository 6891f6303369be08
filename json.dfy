/**
 * Parsed JSON request bodies and the two JavaScript readings of them the server relies on:
 * property access (`body.key`, undefined when absent) and truthiness.
 */
module Json {
  import opened Wrappers

  datatype JValue =
    | JNull
    | JBool(b: bool)
    | JNum(n: real)
    | JStr(s: string)
    | JArray(items: seq<JValue>)
    | JObject(fields: map<string, JValue>)

  /** `body[key]`: `None` stands for `undefined`, which is also what a non-object yields. */
  function Get(body: JValue, key: string): (r: Option<JValue>)
    ensures r.Some? <==> body.JObject? && key in body.fields
    ensures r.Some? ==> r.value == body.fields[key]
  {
    if body.JObject? && key in body.fields then Some(body.fields[key]) else None
  }

  /** JavaScript truthiness of a value read from a body (`undefined` is falsy). */
  predicate Truthy(v: Option<JValue>)
  {
    match v
    case None => false
    case Some(JNull) => false
    case Some(JBool(b)) => b
    case Some(JNum(n)) => n != 0.0
    case Some(JStr(s)) => s != ""
    case Some(_) => true
  }

  /** A string is truthy exactly when it is non-empty. */
  lemma TruthyString(s: string)
    ensures Truthy(Some(JStr(s))) <==> s != ""
  {
  }

  /** The entries of an object whose keys are in `keys`: what a schema that strips unknown keys sees. */
  function Restrict(fields: map<string, JValue>, keys: set<string>): (r: map<string, JValue>)
    ensures forall k :: k in r <==> k in fields && k in keys
    ensures forall k :: k in r ==> r[k] == fields[k]
  {
    map k | k in fields && k in keys :: fields[k]
  }
}
