/** Small arithmetic shared by the models. */
module Numbers {
  function Max(a: int, b: int): int { if a >= b then a else b }

  function Min(a: int, b: int): int { if a <= b then a else b }

  /** A product under a name, so that proofs about sums of products stay linear. */
  function Times(x: real, y: real): real { x * y }
}
