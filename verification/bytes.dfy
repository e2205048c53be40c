/** Fixed-width unsigned integers of the encoder, and the one narrowing cast it performs. */
module Bytes {

  /** A Rust `u8`. */
  newtype byte = x: int | 0 <= x < 0x100

  /** A Rust `u16`. */
  newtype u16 = x: int | 0 <= x < 0x1_0000

  const U16Modulus: nat := 0x1_0000

  /** Rust's `as u16` applied to a wider unsigned integer: it keeps the low 16 bits,
      so the result is the one value below 2^16 congruent to `x` -- it wraps, it
      does not saturate. */
  function AsU16(x: nat): (r: u16)
    ensures r as int <= x
    ensures (x - r as int) % U16Modulus == 0
    ensures x < U16Modulus ==> r as int == x
  {
    (x % U16Modulus) as u16
  }
}
