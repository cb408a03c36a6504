/** Machine-level vocabulary shared by the model of the PC-FX memory viewer:
    the fixed-width unsigned integers of the V810 target, C's unsigned
    wrap-around written out, and the failure-carrying result types. */
module Machine {

  /** `uint8_t` / `u8`. */
  newtype u8 = x: int | 0 <= x < 0x100

  /** `uint16_t` / `u16`. */
  newtype u16 = x: int | 0 <= x < 0x1_0000

  /** `u32`: addresses and the viewer's cursor. */
  newtype u32 = x: int | 0 <= x < 0x1_0000_0000

  const TWO_TO_32: int := 0x1_0000_0000

  /** The value C stores into a `u32` for the mathematical integer `n`:
      conversion to an unsigned type reduces modulo 2^32. */
  function Wrap32(n: int): (r: u32)
    ensures 0 <= n < TWO_TO_32 ==> r as int == n
    ensures (r as int - n) % TWO_TO_32 == 0
  {
    (n % TWO_TO_32) as u32
  }

  /** Reducing modulo 2^32 does not disturb the low byte, because 256 divides 2^32. */
  lemma {:induction false} Wrap32LowByte(n: int)
    ensures Wrap32(n) as int % 256 == n % 256
  {
    var q := n / TWO_TO_32;
    assert n == q * TWO_TO_32 + Wrap32(n) as int;
    assert q * TWO_TO_32 == (q * 0x100_0000) * 256;
  }

  datatype Option<T> = None | Some(value: T)

  datatype Result<T, E> = Ok(value: T) | Err(error: E)

  /** Bit `i` of a 16-bit word: `(w >> i) & 1`. The position is itself a
      bit-vector so that shifts stay within bit-vector arithmetic. */
  predicate Bit16(w: bv16, i: bv16)
    requires i < 16
  {
    (w >> i) & 1 == 1
  }
}
