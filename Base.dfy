/** Fixed-width integers of the C++ source and the Option type used for nullable results. */
module Base {

  /** An 8-bit unsigned value: one byte of a stream, or a uint8_t field. */
  type byte = x: int | 0 <= x < 0x100

  /** Half-float bit patterns travel in 16 bits. */
  type u16 = x: int | 0 <= x < 0x1_0000

  /** A uint32_t. Floats on the wire are modelled by their 32-bit patterns, also of this type. */
  type u32 = x: int | 0 <= x < 0x1_0000_0000

  const U32Modulus: int := 0x1_0000_0000

  /** The value a uint32_t holds after an assignment of the mathematical integer x:
      C++ unsigned arithmetic wraps modulo 2^32. */
  function Wrap32(x: int): (r: u32)
    ensures 0 <= x < U32Modulus ==> r == x
    ensures (x - r) % U32Modulus == 0
  {
    x % U32Modulus
  }

  datatype Option<T> = None | Some(value: T)
}
