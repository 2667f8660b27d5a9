/**
 * The JavaScript values that a parsed JSON response body can hold, together
 * with the two pieces of JavaScript semantics the chat code relies on:
 * truthiness (`x || y`, `!x`) and named property access (`x.content`).
 */
module JsValue {

  /** A value produced by `JSON.parse`. Numbers are reals; JSON has no NaN. */
  datatype Json =
    | JNull
    | JBool(b: bool)
    | JNum(n: real)
    | JStr(s: string)
    | JArr(items: seq<Json>)
    | JObj(fields: map<string, Json>)

  /** The outcome of reading a named property `v.key`. */
  datatype Lookup =
    | TypeError           // the receiver was `null`: the access throws
    | Undefined           // the property does not exist
    | Found(value: Json)

  /** JavaScript truthiness of a JSON value: the falsy ones are null, false, zero and the empty string. */
  function Truthy(v: Json): (b: bool)
    ensures !b <==> v in {JNull, JBool(false), JNum(0.0), JStr("")}
  {
    match v
    case JNull => false
    case JBool(b) => b
    case JNum(n) => n != 0.0
    case JStr(s) => |s| > 0
    case JArr(_) => true
    case JObj(_) => true
  }

  /** Truthiness of a property read; `undefined` is falsy. */
  predicate LookupTruthy(l: Lookup)
    requires !l.TypeError?
  {
    l.Found? && Truthy(l.value)
  }

  /**
   * `v[key]` for a named (non-index, non-"length") key: only `null` throws,
   * only objects carry own named properties, and every other receiver
   * (booleans, numbers, strings, arrays) yields `undefined`.
   */
  function Get(v: Json, key: string): (l: Lookup)
    ensures l.TypeError? <==> v == JNull
    ensures l.Found? <==> v.JObj? && key in v.fields
    ensures l.Found? ==> l.value == v.fields[key]
  {
    match v
    case JNull => TypeError
    case JObj(fields) => if key in fields then Found(fields[key]) else Undefined
    case _ => Undefined
  }

  /** `v` is an object with its own property `key` holding a truthy value. */
  predicate TruthyField(v: Json, key: string) {
    v.JObj? && key in v.fields && Truthy(v.fields[key])
  }

  /** `Array.isArray(l) && l.length > 0` on a property read. */
  predicate IsNonEmptyArray(l: Lookup) {
    l.Found? && l.value.JArr? && |l.value.items| > 0
  }
}
