// The simulated memory (memory.cpp): a vector of bytes whose size is fixed at
// construction, rounded up to a multiple of 16. Every byte access is checked
// against the size on its own; out-of-range reads yield 0 and out-of-range
// writes are dropped. Half-words and words are little-endian and are built
// from byte accesses, with address arithmetic wrapping modulo 2^32.
//
// The byte-level meaning is given by pure functions on `seq<bv8>` (Load*,
// Store*), which the hart's specification also uses; the class Memory holds
// the vector and updates it in place through methods proved against them.

module Mem {
  import opened Word

  /** memory.cpp constructor: (s + 15) & 0xfffffff0 in uint32_t arithmetic. */
  function RoundedSize(s: bv32): bv32
  {
    (s + 15) & 0xffff_fff0
  }

  /** The byte every location holds after construction. */
  const Fill: bv8 := 0xa5

  /** check_illegal: true when addr is not below the size. */
  predicate CheckIllegal(m: seq<bv8>, addr: Address)
  {
    !(addr as int < |m|)
  }

  /** get8: the byte at addr, or 0 when addr is out of range. */
  function Load8(m: seq<bv8>, addr: Address): bv8
  {
    if !CheckIllegal(m, addr) then m[addr] else 0
  }

  /** get16: little-endian, from the bytes at addr and addr + 1. */
  function Load16(m: seq<bv8>, addr: Address): bv16
  {
    Load8(m, addr) as bv16 + (Load8(m, AddrAdd(addr, 1)) as bv16 << 8)
  }

  /** get32: little-endian, from the half-words at addr and addr + 2. */
  function Load32(m: seq<bv8>, addr: Address): bv32
  {
    Load16(m, addr) as bv32 + (Load16(m, AddrAdd(addr, 2)) as bv32 << 16)
  }

  /** The sign extension of a byte to a word (get8_sx). */
  function SignExtend8(b: bv8): bv32
  {
    var v := b as bv32;
    v | (if v & 0x80 != 0 then 0xffff_ff00 else 0)
  }

  /** The sign extension of a half-word to a word (get16_sx). */
  function SignExtend16(h: bv16): bv32
  {
    var v := h as bv32;
    v | (if v & 0x8000 != 0 then 0xffff_0000 else 0)
  }

  function Load8Sx(m: seq<bv8>, addr: Address): bv32
  {
    SignExtend8(Load8(m, addr))
  }

  function Load16Sx(m: seq<bv8>, addr: Address): bv32
  {
    SignExtend16(Load16(m, addr))
  }

  /** get32_sx: the word itself, read as int32_t by its callers. */
  function Load32Sx(m: seq<bv8>, addr: Address): bv32
  {
    Load32(m, addr)
  }

  /** set8: writes the byte when addr is in range, otherwise changes nothing. */
  function Store8(m: seq<bv8>, addr: Address, v: bv8): (r: seq<bv8>)
    ensures |r| == |m|
  {
    if !CheckIllegal(m, addr) then m[addr := v] else m
  }

  /** The low byte of a word (the uint8_t argument conversion). */
  function LowByte(v: bv32): bv8
  {
    (v & 0xff) as bv8
  }

  /** The low byte of a half-word (the uint8_t argument conversion). */
  function Low8(v: bv16): bv8
  {
    (v & 0xff) as bv8
  }

  /** `v & 0xffff`. */
  function Mask16(v: bv32): bv32
  {
    v & 0xffff
  }

  /** The low half-word of a word (the uint16_t argument conversion). */
  function Low16(v: bv32): bv16
  {
    (v & 0xffff) as bv16
  }

  /** set16: the low byte at addr, then the high byte at addr + 1. */
  function Store16(m: seq<bv8>, addr: Address, v: bv16): (r: seq<bv8>)
    ensures |r| == |m|
  {
    Store8(Store8(m, addr, Low8(v)), AddrAdd(addr, 1), Low8(v >> 8))
  }

  /** set32: the low half-word at addr, then the high half-word at addr + 2. */
  function Store32(m: seq<bv8>, addr: Address, v: bv32): (r: seq<bv8>)
    ensures |r| == |m|
  {
    Store16(Store16(m, addr, Low16(v)), AddrAdd(addr, 2), Low16(v >> 16))
  }

  /** The four bytes of a word, least significant first. */
  function ByteOf(v: bv32, k: nat): bv8
    requires k < 4
  {
    var shift: bv32 := if k == 0 then 0 else if k == 1 then 8 else if k == 2 then 16 else 24;
    ((v >> shift) & 0xff) as bv8
  }

  // ---------------------------------------------------------------------
  // The memory object

  class Memory {
    var mem: seq<bv8>

    /** The vector's size is a uint32_t (get_size returns it as one). */
    ghost predicate Valid()
      reads this
    {
      |mem| < 0x1_0000_0000
    }

    /** memory(s): RoundedSize(s) bytes, each 0xa5. */
    constructor (s: bv32)
      ensures Valid()
      ensures |mem| == RoundedSize(s) as int
      ensures forall k :: 0 <= k < |mem| ==> mem[k] == Fill
    {
      var size := (s + 15) & 0xffff_fff0;
      mem := seq(size as int, _ => Fill);
    }

    function GetSize(): bv32
      reads this
      requires Valid()
    {
      |mem| as bv32
    }

    function Get8(addr: Address): bv8
      reads this
    {
      Load8(mem, addr)
    }

    function Get16(addr: Address): bv16
      reads this
    {
      Load16(mem, addr)
    }

    function Get32(addr: Address): bv32
      reads this
    {
      Load32(mem, addr)
    }

    function Get8Sx(addr: Address): bv32
      reads this
    {
      Load8Sx(mem, addr)
    }

    function Get16Sx(addr: Address): bv32
      reads this
    {
      Load16Sx(mem, addr)
    }

    function Get32Sx(addr: Address): bv32
      reads this
    {
      Load32Sx(mem, addr)
    }

    method Set8(addr: Address, val: bv8)
      requires Valid()
      modifies this
      ensures Valid()
      ensures mem == Store8(old(mem), addr, val)
    {
      if !CheckIllegal(mem, addr) {
        mem := mem[addr := val];
      }
    }

    method Set16(addr: Address, val: bv16)
      requires Valid()
      modifies this
      ensures Valid()
      ensures mem == Store16(old(mem), addr, val)
    {
      Set8(addr, Low8(val));
      Set8(AddrAdd(addr, 1), Low8(val >> 8));
    }

    method Set32(addr: Address, val: bv32)
      requires Valid()
      modifies this
      ensures Valid()
      ensures mem == Store32(old(mem), addr, val)
    {
      Set16(addr, Low16(val));
      Set16(AddrAdd(addr, 2), Low16(val >> 16));
    }
  }

  // ---------------------------------------------------------------------
  // Properties

  /** The constructor's size is the least multiple of 16 not below s, except
      that sizes above 0xfffffff0 wrap around to 0. */
  lemma RoundedSizeSpec(s: bv32)
    ensures RoundedSize(s) & 0xf == 0
    ensures s <= 0xffff_fff0 ==> s <= RoundedSize(s) && RoundedSize(s) - s < 16
    ensures s > 0xffff_fff0 ==> RoundedSize(s) == 0
  {
  }

  /** A byte store changes the byte at addr when it is in range and no other
      byte; out of range it changes nothing. */
  lemma Store8Load8(m: seq<bv8>, a: Address, v: bv8, b: Address)
    ensures Load8(Store8(m, a, v), b) == if b == a && a as int < |m| then v else Load8(m, b)
    ensures a as int >= |m| ==> Store8(m, a, v) == m
  {
  }

  /** An out-of-range read yields 0. */
  lemma Load8OutOfRange(m: seq<bv8>, a: Address)
    requires a as int >= |m|
    ensures Load8(m, a) == 0 && Load8Sx(m, a) == 0 && Load16(m, a) & 0xff == 0
  {
  }

  lemma Join16(v: bv16)
    ensures Low8(v) as bv16 + (Low8(v >> 8) as bv16 << 8) == v
  {
  }

  lemma Join32(v: bv32)
    ensures Low16(v) as bv32 + (Low16(v >> 16) as bv32 << 16) == v
  {
  }

  /** A half-word stored in range reads back. */
  lemma RoundTrip16(m: seq<bv8>, a: Address, v: bv16)
    requires a as int + 1 < |m|
    ensures Load16(Store16(m, a, v), a) == v
  {
    Join16(v);
  }

  /** A half-word store leaves a disjoint half-word below it alone. */
  lemma Frame16(m: seq<bv8>, a: Address, b: Address, v: bv16)
    requires a as int + 1 < b as int
    requires b as int + 1 < |m| <= 0x1_0000_0000
    ensures Load16(Store16(m, b, v), a) == Load16(m, a)
  {
    assert AddrAdd(a, 1) as int == a as int + 1;
    assert AddrAdd(b, 1) as int == b as int + 1;
  }

  /** A word stored in range reads back (set32 then get32). */
  lemma RoundTrip32(m: seq<bv8>, a: Address, v: bv32)
    requires a as int + 3 < |m| <= 0x1_0000_0000
    ensures Load32(Store32(m, a, v), a) == v
  {
    var m1 := Store16(m, a, Low16(v));
    var b := AddrAdd(a, 2);
    RoundTrip16(m, a, Low16(v));
    RoundTrip16(m1, b, Low16(v >> 16));
    Frame16(m1, a, b, Low16(v >> 16));
    Join32(v);
  }

  /** A byte stored in range reads back. */
  lemma RoundTrip8(m: seq<bv8>, a: Address, v: bv8)
    requires a as int < |m|
    ensures Load8(Store8(m, a, v), a) == v
  {
  }

  lemma Byte0(v: bv32)
    ensures Low8(Low16(v)) == ByteOf(v, 0)
  {
  }

  lemma Byte1(v: bv32)
    ensures Low8(Low16(v) >> 8) == ByteOf(v, 1)
  {
  }

  lemma Byte2(v: bv32)
    ensures Low8(Low16(v >> 16)) == ByteOf(v, 2)
  {
  }

  lemma Byte3(v: bv32)
    ensures Low8(Low16(v >> 16) >> 8) == ByteOf(v, 3)
  {
  }

  /** set32 byte by byte: each of the four addresses a, a+1, a+2, a+3 (wrapping)
      receives its little-endian byte when it is in range, and every other byte
      is unchanged, so a store straddling the end writes only the in-range part. */
  lemma Store32Bytes(m: seq<bv8>, a: Address, v: bv32, b: Address)
    requires |m| <= 0x1_0000_0000
    ensures Load8(Store32(m, a, v), b) ==
      if b as int >= |m| then 0
      else if b == AddrAdd(a, 3) then ByteOf(v, 3)
      else if b == AddrAdd(a, 2) then ByteOf(v, 2)
      else if b == AddrAdd(a, 1) then ByteOf(v, 1)
      else if b == a then ByteOf(v, 0)
      else Load8(m, b)
  {
    var a1, a2, a3 := AddrAdd(a, 1), AddrAdd(a, 2), AddrAdd(a, 3);
    var m1 := Store8(m, a, ByteOf(v, 0));
    var m2 := Store8(m1, a1, ByteOf(v, 1));
    var m3 := Store8(m2, a2, ByteOf(v, 2));
    Store32Unfold(m, a, v);
    Store8Load8(m, a, ByteOf(v, 0), b);
    Store8Load8(m1, a1, ByteOf(v, 1), b);
    Store8Load8(m2, a2, ByteOf(v, 2), b);
    Store8Load8(m3, a3, ByteOf(v, 3), b);
  }

  /** set32 is four byte stores at a, a+1, a+2 and a+3. */
  lemma Store32Unfold(m: seq<bv8>, a: Address, v: bv32)
    requires |m| <= 0x1_0000_0000
    ensures Store32(m, a, v) ==
      Store8(Store8(Store8(Store8(m, a, ByteOf(v, 0)), AddrAdd(a, 1), ByteOf(v, 1)),
        AddrAdd(a, 2), ByteOf(v, 2)), AddrAdd(a, 3), ByteOf(v, 3))
  {
    Byte0(v);
    Byte1(v);
    Byte2(v);
    Byte3(v);
    assert AddrAdd(AddrAdd(a, 2), 1) == AddrAdd(a, 3);
  }

  /** get32 is the little-endian word of the four bytes at a .. a+3. */
  lemma Load32Bytes(m: seq<bv8>, a: Address)
    ensures Load32(m, a) ==
      (Load8(m, a) as bv32) | (Load8(m, AddrAdd(a, 1)) as bv32 << 8)
      | (Load8(m, AddrAdd(a, 2)) as bv32 << 16) | (Load8(m, AddrAdd(AddrAdd(a, 2), 1)) as bv32 << 24)
  {
    Pack(Load8(m, a), Load8(m, AddrAdd(a, 1)), Load8(m, AddrAdd(a, 2)), Load8(m, AddrAdd(AddrAdd(a, 2), 1)));
  }

  lemma Pack(b0: bv8, b1: bv8, b2: bv8, b3: bv8)
    ensures (b0 as bv16 + (b1 as bv16 << 8)) as bv32 + ((b2 as bv16 + (b3 as bv16 << 8)) as bv32 << 16)
      == (b0 as bv32) | (b1 as bv32 << 8) | (b2 as bv32 << 16) | (b3 as bv32 << 24)
  {
  }

  /** get8_sx: the int32_t it returns is the int8_t value of the byte. */
  lemma Load8SxValue(m: seq<bv8>, a: Address)
    ensures ToSigned(Load8Sx(m, a)) == ToSigned8(Load8(m, a))
  {
    SignExtendByte(Load8(m, a));
  }

  lemma SignExtendByte(b: bv8)
    ensures ToSigned(SignExtend8(b)) == ToSigned8(b)
  {
    if b < 0x80 {
      SignExtend8Pos(b);
      assert (b as bv32) as int == b as int;
    } else {
      SignExtend8Neg(b);
      assert ((!b) as bv32) as int == (!b) as int;
      assert (!b) as int == 0xff - b as int;
    }
  }

  lemma SignExtend8Pos(b: bv8)
    requires b < 0x80
    ensures SignExtend8(b) == b as bv32
  {
  }

  lemma SignExtend8Neg(b: bv8)
    requires b >= 0x80
    ensures !SignExtend8(b) == (!b) as bv32
  {
  }

  /** get16_sx: the low half-word is kept and bits 16..31 copy bit 15, so the
      int32_t is negative exactly when bit 15 is set and equals the half-word
      otherwise. */
  lemma Load16SxValue(m: seq<bv8>, a: Address)
    ensures Load16Sx(m, a) & 0xffff == Load16(m, a) as bv32
    ensures Load16Sx(m, a) >> 15 == if Load16(m, a) >> 15 == 1 then 0x1_ffff else 0
    ensures ToSigned(Load16Sx(m, a)) < 0 <==> Load16(m, a) >> 15 == 1
    ensures Load16(m, a) >> 15 == 0 ==> ToSigned(Load16Sx(m, a)) == Load16(m, a) as int
  {
    var h := Load16(m, a);
    if h >> 15 == 1 {
      SignExtendHalfNeg(h);
      OrHighLow(h);
      OrHighHigh(h);
    } else {
      SignExtendHalfPos(h);
      WidenLow(h);
      WidenHigh(h);
      Widen16(h);
    }
  }

  lemma SignExtendHalfNeg(h: bv16)
    requires h >> 15 == 1
    ensures SignExtend16(h) == (h as bv32) | 0xffff_0000
  {
  }

  lemma SignExtendHalfPos(h: bv16)
    requires h >> 15 == 0
    ensures SignExtend16(h) == h as bv32
  {
  }

  lemma OrHighLow(h: bv16)
    ensures ((h as bv32) | 0xffff_0000) & 0xffff == h as bv32
  {
  }

  lemma OrHighHigh(h: bv16)
    requires h >> 15 == 1
    ensures ((h as bv32) | 0xffff_0000) >> 15 == 0x1_ffff
  {
  }

  lemma WidenLow(h: bv16)
    ensures (h as bv32) & 0xffff == h as bv32
  {
  }

  lemma WidenHigh(h: bv16)
    requires h >> 15 == 0
    ensures (h as bv32) >> 15 == 0
  {
  }

  lemma Widen16(h: bv16)
    ensures (h as bv32) as int == h as int
  {
  }
}
