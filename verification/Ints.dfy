/** Machine integers of 64 bits. */
module Ints {
  const MAX_INT: int := 0x7fff_ffff_ffff_ffff

  /** What is left of a sum or a product in 64 bits. */
  function Wrap64(n: int): int {
    (n + MAX_INT + 1) % (2 * MAX_INT + 2) - MAX_INT - 1
  }

  /** How a number is written. */
  function Digits(n: nat): string {
    (if n < 10 then "" else Digits(n / 10)) + ["0123456789"[n % 10]]
  }
}
