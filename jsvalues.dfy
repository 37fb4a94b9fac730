/** JavaScript value coercions used by the forms and the pricing code. */
module JsValues {
  import opened Wrappers

  /** The result of `Number(x)`: a finite number or NaN. */
  datatype JsNum = Finite(v: real) | NaN

  /** `Number(x) || 0`: NaN (and zero) become 0, any other number is kept. */
  function OrZero(n: JsNum): real {
    match n
    case Finite(v) => v
    case NaN => 0.0
  }

  /** JavaScript truthiness of a boolean field that may be absent: `!!flag`. */
  predicate Truthy(f: Option<bool>) {
    f == Some(true)
  }
}
