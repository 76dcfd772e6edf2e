// Instruction-field extraction shared by the disassembler and the hart
// (rv32i_decode.cpp get_opcode ... get_imm_j), and the opcode/funct values of
// the RV32I base instruction set (RISC-V Unprivileged ISA, chapter 24,
// "RV32/64G Instruction Set Listings").

module Fields {
  import opened Word

  // Major opcodes, bits [6:0].
  const OpLui: bv32 := 0x37
  const OpAuipc: bv32 := 0x17
  const OpJal: bv32 := 0x6f
  const OpJalr: bv32 := 0x67
  const OpBranch: bv32 := 0x63
  const OpLoad: bv32 := 0x03
  const OpStore: bv32 := 0x23
  const OpAluImm: bv32 := 0x13
  const OpAluReg: bv32 := 0x33
  const OpSystem: bv32 := 0x73

  // funct3 of the branches.
  const Funct3Beq: bv32 := 0
  const Funct3Bne: bv32 := 1
  const Funct3Blt: bv32 := 4
  const Funct3Bge: bv32 := 5
  const Funct3Bltu: bv32 := 6
  const Funct3Bgeu: bv32 := 7

  // funct3 of the loads and stores.
  const Funct3Lb: bv32 := 0
  const Funct3Lh: bv32 := 1
  const Funct3Lw: bv32 := 2
  const Funct3Lbu: bv32 := 4
  const Funct3Lhu: bv32 := 5
  const Funct3Sb: bv32 := 0
  const Funct3Sh: bv32 := 1
  const Funct3Sw: bv32 := 2

  // funct3 of the ALU operations (shared by the immediate and register forms).
  const Funct3Add: bv32 := 0
  const Funct3Sll: bv32 := 1
  const Funct3Slt: bv32 := 2
  const Funct3Sltu: bv32 := 3
  const Funct3Xor: bv32 := 4
  const Funct3Srx: bv32 := 5
  const Funct3Or: bv32 := 6
  const Funct3And: bv32 := 7

  // funct7 distinguishing add/sub and the logical/arithmetic right shifts.
  const Funct7Add: bv32 := 0x00
  const Funct7Sub: bv32 := 0x20
  const Funct7Srl: bv32 := 0x00
  const Funct7Sra: bv32 := 0x20

  // funct3 of the Zicsr instructions (chapter 9 of the Unprivileged ISA).
  const Funct3Csrrw: bv32 := 1
  const Funct3Csrrs: bv32 := 2
  const Funct3Csrrc: bv32 := 3
  const Funct3Csrrwi: bv32 := 5
  const Funct3Csrrsi: bv32 := 6
  const Funct3Csrrci: bv32 := 7

  // The two whole words of the environment instructions (section 2.8 of the
  // RISC-V Unprivileged ISA).
  const InsnEcall: bv32 := 0x0000_0073
  const InsnEbreak: bv32 := 0x0010_0073

  function Opcode(insn: bv32): bv32 { insn & 0x0000_007f }
  function Rd(insn: bv32): bv32 { (insn & 0x0000_0f80) >> 7 }
  function Funct3(insn: bv32): bv32 { (insn & 0x0000_7000) >> 12 }
  function Rs1(insn: bv32): bv32 { (insn & 0x000f_8000) >> 15 }
  function Rs2(insn: bv32): bv32 { (insn & 0x01f0_0000) >> 20 }
  function Funct7(insn: bv32): bv32 { (insn & 0xfe00_0000) >> 25 }

  /** I-type immediate: bits [31:20], sign-extended from bit 31. */
  function ImmI(insn: bv32): bv32
  {
    var imm := (insn & 0xfff0_0000) >> 20;
    if insn & 0x8000_0000 != 0 then imm | 0xffff_f000 else imm
  }

  /** U-type immediate: bits [31:12] in place, low 12 bits zero. */
  function ImmU(insn: bv32): bv32
  {
    insn & 0xffff_f000
  }

  /** B-type immediate: bits 12|10:5 from [31:25], 4:1|11 from [11:7]. */
  function ImmB(insn: bv32): bv32
  {
    var imm := (insn & 0x8000_0000) >> 19;
    var imm := imm | ((insn & 0x0000_0080) << 4);
    var imm := imm | ((insn & 0x7e00_0000) >> 20);
    var imm := imm | ((insn & 0x0000_0f00) >> 7);
    if insn & 0x8000_0000 != 0 then imm | 0xffff_f000 else imm
  }

  /** S-type immediate: bits 11:5 from [31:25], 4:0 from [11:7]. */
  function ImmS(insn: bv32): bv32
  {
    var imm := (insn & 0xfe00_0000) >> 20;
    var imm := imm | ((insn & 0x0000_0f80) >> 7);
    if insn & 0x8000_0000 != 0 then imm | 0xffff_f000 else imm
  }

  /** J-type immediate: bits 20|10:1|11|19:12 from [31:12]. */
  function ImmJ(insn: bv32): bv32
  {
    var imm := (insn & 0x8000_0000) >> 11;
    var imm := imm | (insn & 0x000f_f000);
    var imm := imm | ((insn & 0x0010_0000) >> 9);
    var imm := imm | ((insn & 0x7fe0_0000) >> 20);
    if insn & 0x8000_0000 != 0 then imm | 0xfff0_0000 else imm
  }

  // ---------------------------------------------------------------------
  // Properties

  /** Each extractor is its field: a shift then a mask of the field's width,
      and the six fields together rebuild the word. */
  lemma FieldsExact(insn: bv32)
    ensures Opcode(insn) == insn & 0x7f
    ensures Rd(insn) == (insn >> 7) & 0x1f
    ensures Funct3(insn) == (insn >> 12) & 0x7
    ensures Rs1(insn) == (insn >> 15) & 0x1f
    ensures Rs2(insn) == (insn >> 20) & 0x1f
    ensures Funct7(insn) == insn >> 25
    ensures insn == Opcode(insn) | (Rd(insn) << 7) | (Funct3(insn) << 12)
                    | (Rs1(insn) << 15) | (Rs2(insn) << 20) | (Funct7(insn) << 25)
  {
  }

  // Each bit-level fact below is proved on its own: the solver handles one
  // bit-vector goal at a time far better than several together.

  lemma ImmILow(insn: bv32) ensures ImmI(insn) & 0xfff == insn >> 20 {}
  lemma ImmIHigh(insn: bv32) ensures ImmI(insn) >> 11 == (if insn >> 31 == 1 then 0x1f_ffff else 0) {}
  lemma ImmISign(insn: bv32) ensures ImmI(insn) >= 0x8000_0000 <==> insn >> 31 == 1 {}
  lemma ImmISmall(insn: bv32) ensures ImmI(insn) < 0x8000_0000 ==> ImmI(insn) <= 0x7ff {}
  lemma ImmINegSmall(insn: bv32) ensures ImmI(insn) >= 0x8000_0000 ==> !ImmI(insn) <= 0x7ff {}

  /** The I immediate holds the 12-bit field [31:20] in its low bits and
      copies bit 31 into all higher bits. */
  lemma ImmILayout(insn: bv32)
    ensures ImmI(insn) & 0xfff == insn >> 20
    ensures ImmI(insn) >> 11 == (if insn >> 31 == 1 then 0x1f_ffff else 0)
  {
    ImmILow(insn);
    ImmIHigh(insn);
  }

  /** As an int32 the I immediate lies in [-2048, 2047] and is negative
      exactly when bit 31 of the word is set. */
  lemma ImmIRange(insn: bv32)
    ensures -2048 <= ToSigned(ImmI(insn)) <= 2047
    ensures ToSigned(ImmI(insn)) < 0 <==> insn >> 31 == 1
  {
    ImmISign(insn);
    ImmISmall(insn);
    ImmINegSmall(insn);
    SignedWithinI(ImmI(insn));
  }

  lemma SignedWithinI(x: bv32)
    requires x < 0x8000_0000 ==> x <= 0x7ff
    requires x >= 0x8000_0000 ==> !x <= 0x7ff
    ensures -2048 <= ToSigned(x) <= 2047
  {
    if x < 0x8000_0000 { assert x as int <= 0x7ff; } else { assert (!x) as int <= 0x7ff; }
  }

  lemma ImmSLow(insn: bv32) ensures ImmS(insn) & 0x1f == (insn >> 7) & 0x1f {}
  lemma ImmSMid(insn: bv32) ensures (ImmS(insn) >> 5) & 0x7f == insn >> 25 {}
  lemma ImmSHigh(insn: bv32) ensures ImmS(insn) >> 11 == (if insn >> 31 == 1 then 0x1f_ffff else 0) {}
  lemma ImmSSign(insn: bv32) ensures ImmS(insn) >= 0x8000_0000 <==> insn >> 31 == 1 {}
  lemma ImmSSmall(insn: bv32) ensures ImmS(insn) < 0x8000_0000 ==> ImmS(insn) <= 0x7ff {}
  lemma ImmSNegSmall(insn: bv32) ensures ImmS(insn) >= 0x8000_0000 ==> !ImmS(insn) <= 0x7ff {}

  /** The S immediate holds [11:7] in bits 4:0 and [31:25] in bits 11:5,
      and copies bit 31 into all higher bits. */
  lemma ImmSLayout(insn: bv32)
    ensures ImmS(insn) & 0x1f == (insn >> 7) & 0x1f
    ensures (ImmS(insn) >> 5) & 0x7f == insn >> 25
    ensures ImmS(insn) >> 11 == (if insn >> 31 == 1 then 0x1f_ffff else 0)
  {
    ImmSLow(insn);
    ImmSMid(insn);
    ImmSHigh(insn);
  }

  /** As an int32 the S immediate lies in [-2048, 2047] and is negative
      exactly when bit 31 of the word is set. */
  lemma ImmSRange(insn: bv32)
    ensures -2048 <= ToSigned(ImmS(insn)) <= 2047
    ensures ToSigned(ImmS(insn)) < 0 <==> insn >> 31 == 1
  {
    ImmSSign(insn);
    ImmSSmall(insn);
    ImmSNegSmall(insn);
    SignedWithinS(ImmS(insn));
  }

  lemma SignedWithinS(x: bv32)
    requires x < 0x8000_0000 ==> x <= 0x7ff
    requires x >= 0x8000_0000 ==> !x <= 0x7ff
    ensures -2048 <= ToSigned(x) <= 2047
  {
    if x < 0x8000_0000 { assert x as int <= 0x7ff; } else { assert (!x) as int <= 0x7ff; }
  }

  lemma ImmBEven(insn: bv32) ensures ImmB(insn) & 1 == 0 {}
  lemma ImmBBits4To1(insn: bv32) ensures (ImmB(insn) >> 1) & 0xf == (insn >> 8) & 0xf {}
  lemma ImmBBits10To5(insn: bv32) ensures (ImmB(insn) >> 5) & 0x3f == (insn >> 25) & 0x3f {}
  lemma ImmBBit11(insn: bv32) ensures (ImmB(insn) >> 11) & 1 == (insn >> 7) & 1 {}
  lemma ImmBHigh(insn: bv32) ensures ImmB(insn) >> 12 == (if insn >> 31 == 1 then 0xf_ffff else 0) {}
  lemma ImmBSign(insn: bv32) ensures ImmB(insn) >= 0x8000_0000 <==> insn >> 31 == 1 {}
  lemma ImmBSmall(insn: bv32) ensures ImmB(insn) < 0x8000_0000 ==> ImmB(insn) <= 0xffe {}
  lemma ImmBNegSmall(insn: bv32) ensures ImmB(insn) >= 0x8000_0000 ==> !ImmB(insn) <= 0xfff {}

  /** The B immediate is even, takes bits 4:1 from [11:8], 10:5 from
      [30:25], 11 from [7] and 12 upwards from bit 31. */
  lemma ImmBLayout(insn: bv32)
    ensures ImmB(insn) & 1 == 0
    ensures (ImmB(insn) >> 1) & 0xf == (insn >> 8) & 0xf
    ensures (ImmB(insn) >> 5) & 0x3f == (insn >> 25) & 0x3f
    ensures (ImmB(insn) >> 11) & 1 == (insn >> 7) & 1
    ensures ImmB(insn) >> 12 == (if insn >> 31 == 1 then 0xf_ffff else 0)
  {
    ImmBEven(insn);
    ImmBBits4To1(insn);
    ImmBBits10To5(insn);
    ImmBBit11(insn);
    ImmBHigh(insn);
  }

  /** As an int32 the B immediate lies in [-4096, 4094] and is negative
      exactly when bit 31 of the word is set. */
  lemma ImmBRange(insn: bv32)
    ensures -4096 <= ToSigned(ImmB(insn)) <= 4094
    ensures ToSigned(ImmB(insn)) < 0 <==> insn >> 31 == 1
  {
    ImmBSign(insn);
    ImmBSmall(insn);
    ImmBNegSmall(insn);
    SignedWithinB(ImmB(insn));
  }

  lemma SignedWithinB(x: bv32)
    requires x < 0x8000_0000 ==> x <= 0xffe
    requires x >= 0x8000_0000 ==> !x <= 0xfff
    ensures -4096 <= ToSigned(x) <= 4094
  {
    if x < 0x8000_0000 { assert x as int <= 0xffe; } else { assert (!x) as int <= 0xfff; }
  }

  lemma ImmJEven(insn: bv32) ensures ImmJ(insn) & 1 == 0 {}
  lemma ImmJBits10To1(insn: bv32) ensures (ImmJ(insn) >> 1) & 0x3ff == (insn >> 21) & 0x3ff {}
  lemma ImmJBit11(insn: bv32) ensures (ImmJ(insn) >> 11) & 1 == (insn >> 20) & 1 {}
  lemma ImmJBits19To12(insn: bv32) ensures (ImmJ(insn) >> 12) & 0xff == (insn >> 12) & 0xff {}
  lemma ImmJHigh(insn: bv32) ensures ImmJ(insn) >> 20 == (if insn >> 31 == 1 then 0xfff else 0) {}
  lemma ImmJSign(insn: bv32) ensures ImmJ(insn) >= 0x8000_0000 <==> insn >> 31 == 1 {}
  lemma ImmJSmall(insn: bv32) ensures ImmJ(insn) < 0x8000_0000 ==> ImmJ(insn) <= 0xf_fffe {}
  lemma ImmJNegSmall(insn: bv32) ensures ImmJ(insn) >= 0x8000_0000 ==> !ImmJ(insn) <= 0xf_ffff {}

  /** The J immediate is even, takes bits 10:1 from [30:21], 11 from [20],
      19:12 from [19:12] and 20 upwards from bit 31. */
  lemma ImmJLayout(insn: bv32)
    ensures ImmJ(insn) & 1 == 0
    ensures (ImmJ(insn) >> 1) & 0x3ff == (insn >> 21) & 0x3ff
    ensures (ImmJ(insn) >> 11) & 1 == (insn >> 20) & 1
    ensures (ImmJ(insn) >> 12) & 0xff == (insn >> 12) & 0xff
    ensures ImmJ(insn) >> 20 == (if insn >> 31 == 1 then 0xfff else 0)
  {
    ImmJEven(insn);
    ImmJBits10To1(insn);
    ImmJBit11(insn);
    ImmJBits19To12(insn);
    ImmJHigh(insn);
  }

  /** As an int32 the J immediate lies in [-2^20, 2^20 - 2] and is negative
      exactly when bit 31 of the word is set. */
  lemma ImmJRange(insn: bv32)
    ensures -0x10_0000 <= ToSigned(ImmJ(insn)) <= 0xf_fffe
    ensures ToSigned(ImmJ(insn)) < 0 <==> insn >> 31 == 1
  {
    ImmJSign(insn);
    ImmJSmall(insn);
    ImmJNegSmall(insn);
    SignedWithinJ(ImmJ(insn));
  }

  lemma SignedWithinJ(x: bv32)
    requires x < 0x8000_0000 ==> x <= 0xf_fffe
    requires x >= 0x8000_0000 ==> !x <= 0xf_ffff
    ensures -0x10_0000 <= ToSigned(x) <= 0xf_fffe
  {
    if x < 0x8000_0000 { assert x as int <= 0xf_fffe; } else { assert (!x) as int <= 0xf_ffff; }
  }

  lemma ImmULow(insn: bv32) ensures ImmU(insn) & 0xfff == 0 {}
  lemma ImmUField(insn: bv32) ensures ImmU(insn) >> 12 == insn >> 12 {}
  lemma ImmURest(insn: bv32) ensures ImmU(insn) | (insn & 0xfff) == insn {}

  /** The U immediate is the word with its low 12 bits cleared: shifting it
      back down gives the 20-bit field [31:12], and or-ing the low 12 bits
      back in gives the word. */
  lemma ImmUShape(insn: bv32)
    ensures ImmU(insn) & 0xfff == 0
    ensures ImmU(insn) >> 12 == insn >> 12
    ensures ImmU(insn) | (insn & 0xfff) == insn
  {
    ImmULow(insn);
    ImmUField(insn);
    ImmURest(insn);
  }
}
