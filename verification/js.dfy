/** The fragment of JavaScript value semantics the forex handlers depend on:
    truthiness of query fields, template-literal interpolation, the numeric
    comparison `x < 0`, and foreign calls that either return or throw. */
module Js {

  /** A query-string field or environment variable as a handler reads it:
      `undefined` when absent, otherwise a string. */
  datatype Param = Undefined | Str(text: string)

  /** An object property that may be absent (reads as `undefined`). */
  datatype Option<T> = None | Some(value: T)

  /** JavaScript truthiness of a Param; `!p` is its negation. Both
      `undefined` and the empty string are falsy, every other string
      (including "0") is truthy. */
  predicate Truthy(p: Param) {
    p.Str? && |p.text| > 0
  }

  /** The text `${p}` produces inside a template literal. */
  function Interpolate(p: Param): string {
    match p
    case Undefined => "undefined"
    case Str(s) => s
  }

  /** A double as JavaScript's `<` sees it; finite values are kept as
      exact reals (so -0 and 0 coincide, as they do for `<`). */
  datatype Number = NaN | PositiveInfinity | NegativeInfinity | Finite(value: real)

  /** JavaScript `n < 0`: false for NaN, as for every comparison with NaN. */
  predicate BelowZero(n: Number) {
    match n
    case NaN => false
    case PositiveInfinity => false
    case NegativeInfinity => true
    case Finite(r) => r < 0.0
  }

  /** The outcome of calling a foreign library function: it returns a
      value or throws. */
  datatype Call<T> = Returns(value: T) | Throws
}
