/** Minima and maxima. */
module Numbers {

  function Max(a: int, b: int): int
  {
    if a < b then b else a
  }

  function Min(a: int, b: int): int
  {
    if a < b then a else b
  }

  function MinR(a: real, b: real): real
  {
    if b < a then b else a
  }
}
