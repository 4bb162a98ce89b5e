// Small helpers shared by both games: an Option type, the Math.max/Math.min
// the scripts call, and the Math.round they apply to percentages.
module Prelude {

  datatype Option<+T> = None | Some(value: T)

  function Max(a: int, b: int): int { if a < b then b else a }

  function Min(a: int, b: int): int { if a < b then a else b }

  function MaxReal(a: real, b: real): real { if a < b then b else a }

  /** Math.round(n / d) for a positive divisor d: floor(n / d + 1/2). */
  function RoundHalfUp(n: int, d: int): int
    requires d > 0
  {
    (2 * n + d) / (2 * d)
  }

  /** RoundHalfUp(n, d) is the nearest integer to n / d, halves rounded
      up. */
  lemma RoundHalfUpSpec(n: int, d: int)
    requires d > 0
    ensures var r := RoundHalfUp(n, d); 2 * r * d - d <= 2 * n < 2 * r * d + d
  {
    DivBounds(2 * n + d, 2 * d);
  }

  lemma DivBounds(x: int, y: int)
    requires y > 0
    ensures (x / y) * y <= x < (x / y) * y + y
  {
  }
}
