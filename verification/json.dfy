/**
 * Parsed JSON values as the relay endpoints see them after `JSON.parse` / `json.loads`.
 * The text-to-value parser itself is not modelled; a frame that failed to parse is `None`.
 */
module Json {
  import opened Wrappers

  datatype JsValue =
    | JNull
    | JBool(b: bool)
    | JNum(n: real)
    | JStr(s: string)
    | JArr(items: seq<JsValue>)
    | JObj(fields: map<string, JsValue>)

  /** JavaScript truthiness (`if (v)`, `v || w`): every array and object is truthy. */
  predicate JsTruthy(v: JsValue) {
    match v
    case JNull => false
    case JBool(b) => b
    case JNum(n) => n != 0.0
    case JStr(s) => s != ""
    case JArr(_) => true
    case JObj(_) => true
  }

  /** Python truthiness (`v or w`): empty lists and dicts are falsy. */
  predicate PyTruthy(v: JsValue) {
    match v
    case JNull => false
    case JBool(b) => b
    case JNum(n) => n != 0.0
    case JStr(s) => s != ""
    case JArr(items) => items != []
    case JObj(fields) => fields != map[]
  }

  /** `v.name` on a non-null value; `None` is `undefined` (arrays, strings and numbers have none of the names read here). */
  function Prop(v: JsValue, name: string): (r: Option<JsValue>)
    ensures r.Some? <==> v.JObj? && name in v.fields
  {
    if v.JObj? && name in v.fields then Some(v.fields[name]) else None
  }

  /** `v.name === s` for a string `s`. */
  predicate PropIs(v: JsValue, name: string, s: string) {
    Prop(v, name) == Some(JStr(s))
  }

  /** A raw text frame of a WebSocket connection, with the result of parsing it as JSON. */
  datatype Frame = Frame(text: string, json: Option<JsValue>)
}
