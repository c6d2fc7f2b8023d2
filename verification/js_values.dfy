/**
 * The part of JavaScript's value model the server and the quiz page depend
 * on: parsed JSON documents, truthiness, property reads and `a || b`.
 * Numbers are integers here; NaN and fractions are not modelled.
 */
module JsValues {

  datatype JsValue =
    | Undefined
    | Null
    | Bool(b: bool)
    | Number(n: int)
    | Str(s: string)
    | Array(elems: seq<JsValue>)
    | Object(fields: map<string, JsValue>)

  /** JavaScript truthiness: false, 0, "", null and undefined are falsy. */
  predicate Truthy(v: JsValue) {
    match v
    case Undefined => false
    case Null => false
    case Bool(b) => b
    case Number(n) => n != 0
    case Str(s) => s != ""
    case Array(_) => true
    case Object(_) => true
  }

  /** Reading a property of these throws a TypeError. */
  predicate Nullish(v: JsValue) {
    v.Undefined? || v.Null?
  }

  /** `q && typeof q === 'object'`: arrays and plain objects. */
  predicate IsObjectLike(v: JsValue) {
    v.Array? || v.Object?
  }

  /** The property read `v.key` on a value that is not null or undefined. */
  function Member(v: JsValue, key: string): JsValue
    requires !Nullish(v)
  {
    match v
    case Object(fields) => if key in fields then fields[key] else Undefined
    case _ => Undefined
  }

  /** `a || b`. */
  function Or(a: JsValue, b: JsValue): JsValue {
    if Truthy(a) then a else b
  }
}
