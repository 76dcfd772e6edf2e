// 32-bit words as the simulator's C++ sees them: a uint32_t/int32_t is a
// bv32 here; sums wrap modulo 2^32 (two's complement), and the signed view
// of a word is ToSigned.

module Word {

  /** A uint32_t used as a memory address or index. */
  newtype Address = a: int | 0 <= a < 0x1_0000_0000

  /** The address a word denotes. */
  function AsAddress(x: bv32): Address
  {
    x as int as Address
  }

  /** uint32_t address arithmetic `a + k`, which wraps modulo 2^32. */
  function AddrAdd(a: Address, k: Address): (r: Address)
    ensures r as int == (a as int + k as int) % 0x1_0000_0000
  {
    var sum := a as int + k as int;
    if sum < 0x1_0000_0000 then sum as Address else (sum - 0x1_0000_0000) as Address
  }

  /** `a + b` on int32_t or uint32_t: the sum modulo 2^32. Kept as a function
      so that sums are compared by their operands. */
  function Add32(a: bv32, b: bv32): bv32
  {
    a + b
  }

  /** Addition modulo 2^32 does not depend on the order of its operands. */
  lemma Add32Comm(a: bv32, b: bv32)
    ensures Add32(a, b) == Add32(b, a)
  {
  }

  /** `a - b` on int32_t or uint32_t, modulo 2^32. */
  function Sub32(a: bv32, b: bv32): bv32
  {
    a - b
  }

  /** `x << n` on a 32-bit value, for an amount below 32. */
  function Shl(x: bv32, n: bv32): bv32
    requires n < 32
  {
    x << n
  }

  /** `x >> n` on uint32_t: vacated bits are zero. */
  function Shr(x: bv32, n: bv32): bv32
    requires n < 32
  {
    x >> n
  }

  /** `<` on two uint32_t values. */
  function Below(a: bv32, b: bv32): bool
  {
    a < b
  }

  /** `n & 0x1f`, the mask the hart applies to a shift amount: the low five
      bits. For an unsigned XLEN of 32 it is also `n % XLEN`. */
  function Low5(n: bv32): (r: bv32)
    ensures r < 32
  {
    n & 0x1f
  }

  /** `x & 0xfffffffe`: bit 0 cleared, every other bit kept. */
  function ClearBit0(x: bv32): (r: bv32)
    ensures r & 1 == 0
  {
    x & 0xffff_fffe
  }

  /** ClearBit0 keeps bits 31..1. */
  lemma ClearBit0Keeps(x: bv32)
    ensures ClearBit0(x) >> 1 == x >> 1
  {
  }

  /** The int32_t reading of a 32-bit pattern. */
  function ToSigned(x: bv32): (v: int)
    ensures -0x8000_0000 <= v < 0x8000_0000
    ensures v < 0 <==> x >= 0x8000_0000
  {
    if x < 0x8000_0000 then x as int else -((!x) as int) - 1
  }

  /** The int8_t reading of a byte. */
  function ToSigned8(x: bv8): (v: int)
    ensures -0x80 <= v < 0x80
    ensures v < 0 <==> x >> 7 == 1
  {
    if x < 0x80 then x as int else x as int - 0x100
  }

  /** The int16_t reading of a half-word. */
  function ToSigned16(x: bv16): (v: int)
    ensures -0x8000 <= v < 0x8000
    ensures v < 0 <==> x >> 15 == 1
  {
    if x < 0x8000 then x as int else x as int - 0x1_0000
  }

  /** `int32_t >> n` for 0 <= n < 32: vacated bits are copies of the sign bit. */
  function Sra(x: bv32, n: bv32): (r: bv32)
    requires n < 32
  {
    if x >> 31 == 0 then x >> n else !((!x) >> n)
  }

  /** The arithmetic shift keeps the sign and agrees with the logical shift
      on non-negative words. */
  lemma SraSpec(x: bv32, n: bv32)
    requires n < 32
    ensures Sra(x, n) >> 31 == x >> 31
    ensures x >> 31 == 0 ==> Sra(x, n) == x >> n
  {
  }

  /** The arithmetic shift one bit at a time: each step shifts right by one
      and copies the sign bit back into bit 31. */
  function SignShift(x: bv32, n: nat): bv32
  {
    if n == 0 then x else (SignShift(x, n - 1) >> 1) | (x & 0x8000_0000)
  }

  /** `int32_t >> n` is SignShift: every vacated bit is a copy of the sign
      bit, and the other bits are those of x moved down by n. */
  lemma SraIsSignShift(x: bv32, n: bv32)
    requires n < 32
    ensures Sra(x, n) == SignShift(x, n as nat)
  {
    if x >> 31 == 0 {
      SignShiftNonNegative(x, n);
    } else {
      SignShiftNegative(x, n);
    }
  }

  /** -1 stays -1 under every arithmetic shift. */
  lemma SraAllOnes(n: bv32)
    requires n < 32
    ensures Sra(0xffff_ffff, n) == 0xffff_ffff
  {
    SraIsSignShift(0xffff_ffff, n);
    SignShiftAllOnes(n as nat);
  }

  lemma {:induction false} SignShiftAllOnes(n: nat)
    ensures SignShift(0xffff_ffff, n) == 0xffff_ffff
  {
    if n > 0 {
      SignShiftAllOnes(n - 1);
    }
  }

  lemma {:induction false} SignShiftNonNegative(x: bv32, n: bv32)
    requires n < 32 && x >> 31 == 0
    ensures SignShift(x, n as nat) == x >> n
    decreases n as int
  {
    if n > 0 {
      SignShiftNonNegative(x, n - 1);
      ShiftStep(x, n - 1);
      SignBit(x);
    }
  }

  lemma {:induction false} SignShiftNegative(x: bv32, n: bv32)
    requires n < 32 && x >> 31 != 0
    ensures SignShift(x, n as nat) == !((!x) >> n)
    decreases n as int
  {
    if n > 0 {
      SignShiftNegative(x, n - 1);
      ComplementStep(!x, n - 1);
      SignBit(x);
    }
  }

  /** Shifting by k + 1 is shifting by k, then by one. */
  lemma ShiftStep(x: bv32, k: bv32)
    requires k < 31
    ensures x >> (k + 1) == (x >> k) >> 1
  {
  }

  /** The complemented logical shift gains a one in bit 31 at each step. */
  lemma ComplementStep(y: bv32, k: bv32)
    requires k < 31
    ensures !(y >> (k + 1)) == (!(y >> k) >> 1) | 0x8000_0000
  {
    ShiftStep(y, k);
    NotHalf(y >> k);
  }

  lemma NotHalf(b: bv32)
    ensures !(b >> 1) == ((!b) >> 1) | 0x8000_0000
  {
  }

  lemma SignBit(x: bv32)
    ensures x >> 31 == 0 ==> x & 0x8000_0000 == 0
    ensures x >> 31 != 0 ==> x & 0x8000_0000 == 0x8000_0000
  {
  }
}
