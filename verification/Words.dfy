/** Go's 64-bit integers. */
module Words {
  const TWO63: int := 0x8000_0000_0000_0000
  const TWO64: int := 0x1_0000_0000_0000_0000

  /** An int wraps around. */
  function Wrap(n: int): int {
    (n + TWO63) % TWO64 - TWO63
  }
}
