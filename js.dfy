/**
 * The fragment of JavaScript values that the validation rules and the upload
 * controller look at, with JavaScript's notion of truthiness.
 */
module Js {

  datatype Option<+T> = None | Some(value: T)

  /** A JSON-like value as it arrives in a request body or a field descriptor.
      Numbers are modelled as reals (NaN and the infinities are not modelled). */
  datatype JsValue =
    | Undefined
    | Null
    | Bool(b: bool)
    | Num(n: real)
    | Str(s: string)
    | Arr(elems: seq<JsValue>)

  /** JavaScript truthiness: false exactly for undefined, null, false, 0 and "". */
  predicate Truthy(v: JsValue)
  {
    match v
    case Undefined => false
    case Null => false
    case Bool(b) => b
    case Num(n) => n != 0.0
    case Str(s) => s != ""
    case Arr(_) => true
  }
}
