/** The dynamically typed values that the TypeScript source inspects with
    `!!x`, `x || y` and `typeof x === ...`. Numbers are integers here;
    floating point (and NaN) is not part of this model. */
module JsValues {

  datatype JsValue =
    | Undefined
    | Null
    | Bool(b: bool)
    | Num(n: int)
    | Str(s: string)
    | Object(ref: nat)   // any object or array, identified by a reference

  /** JavaScript truthiness (`!!v`). */
  predicate Truthy(v: JsValue) {
    match v
    case Undefined => false
    case Null => false
    case Bool(b) => b
    case Num(n) => n != 0
    case Str(s) => s != ""
    case Object(_) => true
  }

  /** `typeof v === "string" && !!v` */
  predicate IsNonEmptyString(v: JsValue) {
    v.Str? && v.s != ""
  }

  /** The property `key` of an object, `undefined` when it is absent. */
  function Field(o: map<string, JsValue>, key: string): JsValue {
    if key in o then o[key] else Undefined
  }
}
