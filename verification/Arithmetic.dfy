/** Arithmetic of the host language that the model needs. */
module Arithmetic {

  /** Math.round: to the nearest integer, halves upwards (section 21.3.2.28 of ECMA-262). */
  function Round(x: real): int {
    (x + 0.5).Floor
  }
}
