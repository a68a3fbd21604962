/** Floating-point values, as far as the programs tell them apart. */
module Floats {

  /** A real number, an infinity, or NaN. */
  datatype Num = Finite(v: real) | Infinite(positive: bool) | NaN
}
