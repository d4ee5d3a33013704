/** The greater and the lesser of two numbers. */
module Numbers {
  function Max(a: int, b: int): int { if a < b then b else a }
  function Min(a: int, b: int): int { if a < b then a else b }
}
