/** JavaScript values as far as the request handlers look at them, their
    truthiness, parsed JSON request bodies, and the JSON responses the
    handlers send back. */
module Http {

  /** A JavaScript value. Numbers are the integer-valued ones plus `NaN`;
      objects, arrays and functions are all `Compound` (always truthy). */
  datatype JsValue =
    | Undefined
    | Null
    | Bool(b: bool)
    | Num(n: int)
    | NaN
    | Str(s: string)
    | Compound

  /** ECMAScript ToBoolean, the test behind `if (x)`, `!x` and `x || y`. */
  predicate Truthy(v: JsValue) {
    match v
    case Undefined => false
    case Null => false
    case Bool(b) => b
    case Num(n) => n != 0
    case NaN => false
    case Str(s) => s != ""
    case Compound => true
  }

  /** The six falsy values, listed. */
  predicate IsFalsyValue(v: JsValue) {
    v == Undefined || v == Null || v == Bool(false) || v == Num(0) || v == NaN || v == Str("")
  }

  /** Truthiness agrees with the list of falsy values. */
  lemma TruthyIffNotFalsy(v: JsValue)
    ensures Truthy(v) <==> !IsFalsyValue(v)
  {
  }

  /** What `await request.json()` followed by destructuring produces. A
      body that is not JSON makes `json()` throw; a JSON `null` makes the
      destructuring throw; any other JSON value exposes its own fields (a
      primitive or an array has none of the names the handlers read). */
  datatype Body =
    | Unparseable
    | NullBody
    | Fields(fields: map<string, JsValue>)

  /** Property read `obj.key`: an absent key reads as `undefined`. */
  function Field(fields: map<string, JsValue>, key: string): (v: JsValue)
    ensures key !in fields ==> v == Undefined
    ensures key in fields ==> v == fields[key]
  {
    if key in fields then fields[key] else Undefined
  }

  /** The JSON object a handler returns: `{response}`, `{error}` or `{message}`. */
  datatype Payload =
    | Answer(response: string)
    | Problem(error: string)
    | Notice(message: string)

  datatype Response = Response(status: int, payload: Payload)

  /** `response.ok`: a status in the 2xx range. */
  predicate IsOk(status: int) {
    200 <= status <= 299
  }
}
