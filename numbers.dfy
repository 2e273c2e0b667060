/** Numeric helpers shared by the pricing and colour rules. */
module Numbers {
  /** Math.round on an exact rational: the nearest integer, halves rounded
      up. */
  function Round(x: real): (n: int)
    ensures x - 0.5 < n as real <= x + 0.5
  {
    (x + 0.5).Floor
  }

  /** Rounding never reverses an order. */
  lemma RoundMonotone(x: real, y: real)
    requires x <= y
    ensures Round(x) <= Round(y)
  {
  }

  /** A whole number rounds to itself. */
  lemma RoundOfInt(n: int)
    ensures Round(n as real) == n
  {
  }
}
