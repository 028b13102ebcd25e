/** The part of JavaScript number handling that the add form depends on.
    `parseFloat` and `Number.prototype.toFixed` are floating-point library
    routines; the model receives them as functions and only fixes the shape
    of the value `parseFloat` can return. */
module Numbers {

  /** A JavaScript number as the price check sees it: not-a-number, a finite
      value, or one of the two infinities. */
  datatype Num = NaN | Finite(value: real) | PosInfinity | NegInfinity

  /** The two numeric library routines the add form calls: `parseFloat(s)`
      and `n.toFixed(2)`. */
  datatype Numerics = Numerics(parseFloat: string -> Num, toFixed2: Num -> string)

  /** The negation of `isNaN(n) || n <= 0`: a number the form accepts as a
      price. Positive infinity passes, as it does in JavaScript. */
  predicate IsPositive(n: Num) {
    match n
    case NaN => false
    case Finite(v) => v > 0.0
    case PosInfinity => true
    case NegInfinity => false
  }

  /** The price check of the add form: the raw input is non-empty and
      parses to a positive number. The input is not trimmed first. */
  predicate PriceAccepted(text: string, num: Numerics) {
    text != "" && IsPositive(num.parseFloat(text))
  }
}
