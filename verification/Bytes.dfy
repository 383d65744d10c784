/** Fixed-width integers of the source, as ranges of the mathematical integers. */
module Bytes {
  type Byte = b: int | 0 <= b < 0x100
  type U16 = n: int | 0 <= n < 0x1_0000
  type U32 = n: int | 0 <= n < 0x1_0000_0000
  /** The source's named type for ring positions; its values are compared, never added. */
  newtype HashKey = n: int | 0 <= n < 0x1_0000_0000
  type U64 = n: int | 0 <= n < 0x1_0000_0000_0000_0000
  type I8 = n: int | -0x80 <= n < 0x80
  type I64 = n: int | -0x8000_0000_0000_0000 <= n < 0x8000_0000_0000_0000

  /** Go's conversion `uint16(n)`: keeps the low sixteen bits, also of a negative n. */
  function ToU16(n: int): U16 {
    n % 0x1_0000
  }
}
