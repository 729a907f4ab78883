/** Value types shared by the model: optional values, Python-style
    "returned or raised" outcomes, and the JSON values a settings file holds. */
module Common {

  datatype Option<+T> = None | Some(value: T)

  /** The outcome of a Python call that may raise instead of returning. */
  datatype Outcome<+T> = Raised | Returned(value: T)

  /** A JSON scalar as `json.load` yields it (objects and arrays are not modelled). */
  datatype Json = JNull | JBool(b: bool) | JInt(i: int) | JStr(s: string)

  /** Python truthiness of a JSON scalar. */
  predicate Truthy(v: Json)
  {
    match v
    case JNull => false
    case JBool(b) => b
    case JInt(i) => i != 0
    case JStr(s) => s != ""
  }
}
