/** The machine integers the library uses. */
module Words {
  const TWO32: nat := 0x1_0000_0000
  const TWO63: nat := 0x8000_0000_0000_0000
  const TWO64: nat := 0x1_0000_0000_0000_0000

  type Byte = x: int | 0 <= x < 256
  type U64 = x: int | 0 <= x < TWO64

  /** Unsigned 64-bit arithmetic wraps around. */
  function Add64(a: U64, b: U64): U64 {
    (a + b) % TWO64
  }

  function Sub64(a: U64, b: U64): U64 {
    (a - b) % TWO64
  }
}
