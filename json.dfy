/** Decoded JSON values, as the Python back end and the browser front end see
    them. The JSON grammar itself is not modelled: decoding is an abstract
    partial function `string -> Option<Json>` supplied by the caller. */
module Json {
  import opened Wrappers

  datatype Json =
    | JNull
    | JBool(b: bool)
    | JNum(n: real)
    | JStr(s: string)
    | JArr(items: seq<Json>)
    | JObj(fields: map<string, Json>)

  /** Python truthiness (`if value:`): None, False, zero and empty containers are false. */
  predicate PyTruthy(j: Json) {
    match j
    case JNull => false
    case JBool(b) => b
    case JNum(n) => n != 0.0
    case JStr(s) => s != []
    case JArr(items) => items != []
    case JObj(fields) => fields != map[]
  }

  /** JavaScript truthiness of a property read from parsed JSON; `None` stands
      for `undefined`. Unlike Python, every array and object is true. */
  predicate JsTruthy(v: Option<Json>) {
    match v
    case None => false
    case Some(JNull) => false
    case Some(JBool(b)) => b
    case Some(JNum(n)) => n != 0.0
    case Some(JStr(s)) => s != []
    case Some(JArr(_)) => true
    case Some(JObj(_)) => true
  }

  /** Property read `obj.key` / `obj.get(key)` without a default. */
  function Get(fields: map<string, Json>, key: string): (v: Option<Json>)
    ensures v.Some? <==> key in fields
    ensures v.Some? ==> v.value == fields[key]
  {
    if key in fields then Some(fields[key]) else None
  }

  /** An empty JSON object is present but false for Python, true for JavaScript. */
  lemma EmptyObjectTruthiness()
    ensures !PyTruthy(JObj(map[]))
    ensures JsTruthy(Some(JObj(map[])))
  {
  }
}
