/** Unsigned 8-bit arithmetic as the interpreter's registers perform it.
    Arithmetic wraps modulo 256 (the behaviour of Rust's `u8` operators in
    a release build); shifts discard the bits moved out. */
module Bytes {

  newtype u8 = x: int | 0 <= x < 256

  /** `a += b` on a `u8` register. */
  function WrappingAdd(a: u8, b: u8): (r: u8)
    ensures r as int == if a as int + b as int < 256 then a as int + b as int
                        else a as int + b as int - 256
  {
    ((a as int + b as int) % 256) as u8
  }

  /** `a -= b` on a `u8` register. */
  function WrappingSub(a: u8, b: u8): (r: u8)
    ensures r as int == if a >= b then a as int - b as int
                        else a as int - b as int + 256
  {
    ((a as int - b as int) % 256) as u8
  }

  /** `a << 1` on a `u8`: bit 7 is discarded. */
  function ShiftLeft(a: u8): (r: u8)
    ensures r as int == if a < 128 then 2 * a as int else 2 * a as int - 256
  {
    ((a as int * 2) % 256) as u8
  }

  /** `a >> 1` on a `u8`: zero fill from the top. */
  function ShiftRight(a: u8): (r: u8)
    ensures 2 * r as int == a as int || 2 * r as int + 1 == a as int
  {
    (a as int / 2) as u8
  }

  /** Bit `k` of a byte, 0 or 1. */
  function Bit(x: u8, k: bv8): (b: bv8)
    requires k < 8
  {
    ((x as bv8) >> k) & 1
  }

  /** `a ^ b` on a `u8`: each bit is the exclusive or of the operands' bits. */
  function Xor(a: u8, b: u8): (r: u8)
    ensures forall k: bv8 :: k < 8 ==> Bit(r, k) == Bit(a, k) ^ Bit(b, k)
  {
    ((a as bv8) ^ (b as bv8)) as u8
  }

  /** `a | b` on a `u8`: each bit is set when either operand's bit is. */
  function Or(a: u8, b: u8): (r: u8)
    ensures forall k: bv8 :: k < 8 ==> Bit(r, k) == Bit(a, k) | Bit(b, k)
  {
    ((a as bv8) | (b as bv8)) as u8
  }

  /** XOR of a register with itself clears it; OR and XOR with 0 keep it. */
  lemma BitwiseIdentities(a: u8)
    ensures Xor(a, a) == 0
    ensures Xor(a, 0) == a && Or(a, 0) == a
    ensures Or(a, a) == a
  {
  }
}
