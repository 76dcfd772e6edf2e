// Whole disassembly lines (rv32i_decode.cpp): the mnemonic in its column,
// then the operands separated by commas. Each line shape is stated as what a
// reader gets back from the text: split at the commas, every piece reads back
// as the register, the immediate or the target the word encodes, and the
// mnemonic is the one the RV32I instruction listing gives its opcode, funct3
// and funct7.

module Listing {
  import opened Word
  import opened Fields
  import opened Hex
  import opened Text
  import opened Decoder

  // ---------------------------------------------------------------------
  // Mnemonics by funct3, as the RV32I listing names them ("" where funct3
  // names no instruction)

  const BranchNames: seq<string> := ["beq", "bne", "", "", "blt", "bge", "bltu", "bgeu"]
  const LoadNames: seq<string> := ["lb", "lh", "lw", "", "lbu", "lhu", "", ""]
  const StoreNames: seq<string> := ["sb", "sh", "sw", "", "", "", "", ""]
  const AluImmNames: seq<string> := ["addi", "slli", "slti", "sltiu", "xori", "srli", "ori", "andi"]
  const AluRegNames: seq<string> := ["add", "sll", "slt", "sltu", "xor", "srl", "or", "and"]

  /** The ALU-immediate mnemonic: funct7 0x20 turns srli into srai. */
  function AluImmName(insn: bv32): string
  {
    if Funct3(insn) == 5 && Funct7(insn) == 0x20 then "srai" else AluImmNames[Funct3(insn)]
  }

  /** The R-type mnemonic: funct7 0x20 turns add into sub and srl into sra. */
  function AluRegName(insn: bv32): string
  {
    if Funct3(insn) == 0 && Funct7(insn) == 0x20 then "sub"
    else if Funct3(insn) == 5 && Funct7(insn) == 0x20 then "sra"
    else AluRegNames[Funct3(insn)]
  }

  // ---------------------------------------------------------------------
  // How a reader takes the pieces of a line apart

  /** The first piece of a line: the mnemonic m, then spaces up to the
      mnemonic column (m being shorter than the column). */
  predicate InColumn(p: string, m: string)
  {
    |m| < MnemonicWidth <= |p| && p[..|m|] == m
    && forall k :: |m| <= k < MnemonicWidth ==> p[k] == ' '
  }

  /** "x" and decimal digits that spell the register number r. */
  predicate ReadsAsReg(s: string, r: bv32)
  {
    |s| >= 2 && s[0] == 'x' && AllDecimal(s[1..]) && DecimalValue(s[1..]) == r as int
  }

  /** An optionally signed decimal that spells i. */
  predicate ReadsAsInt(s: string, i: int)
  {
    s != [] && (if s[0] == '-' then AllDecimal(s[1..]) else AllDecimal(s)) && ParseInt(s) == i
  }

  /** "disp(xbase)": the signed displacement, then the base register in
      parentheses. */
  predicate ReadsAsBaseDisp(s: string, base: bv32, disp: int)
  {
    s != [] && s[|s| - 1] == ')'
    && var p := Split(s[..|s| - 1], '(');
    |p| == 2 && ReadsAsInt(p[0], disp) && ReadsAsReg(p[1], base)
  }

  /** "0x" and eight hex digits that spell the address v. */
  predicate ReadsAsAddress(s: string, v: bv32)
  {
    |s| == 10 && s[..2] == "0x" && AllDigits(s[2..]) && Value(s[2..]) == v as int
  }

  // ---------------------------------------------------------------------
  // The pieces

  lemma IntPiece(i: int)
    ensures ReadsAsInt(IntText(i), i) && ',' !in IntText(i) && '(' !in IntText(i)
  {
    IntTextRoundTrip(i);
    if i < 0 {
      DecimalValueOf(-i);
      assert IntText(i) == "-" + Decimal(-i);
    } else {
      DecimalValueOf(i);
    }
  }

  /** The base+displacement text of BaseDispText, read with the splitter. */
  lemma BaseDispPiece(base: bv32, disp: bv32)
    ensures ReadsAsBaseDisp(RenderBaseDisp(base, disp), base, ToSigned(disp))
    ensures ',' !in RenderBaseDisp(base, disp)
  {
    var d, r := IntText(ToSigned(disp)), RenderReg(base);
    BaseDispText(base, disp);
    IntPiece(ToSigned(disp));
    RegText(base);
    var s := RenderBaseDisp(base, disp);
    assert s[..|s| - 1] == s[..|d|] + ['('] + s[|d| + 1..|s| - 1];
    Split2(d, r, '(');
  }

  lemma AddressPiece(v: bv32)
    ensures ReadsAsAddress(ToHex0x32(v), v) && ',' !in ToHex0x32(v)
  {
    ToHex0x32Spec(v);
    var h := ToHex0x32(v);
    assert h == h[..2] + h[2..];
  }

  /** The mnemonic column followed by the first operand. */
  lemma ColumnPiece(m: string, rest: string)
    requires |m| < MnemonicWidth && ',' !in m
    ensures var p := RenderMnemonic(m) + rest;
      InColumn(p, m) && p[MnemonicWidth..] == rest && ',' !in RenderMnemonic(m)
  {
    MnemonicColumn(m);
    var c := RenderMnemonic(m);
    forall k | 0 <= k < |c|
      ensures c[k] != ','
    {
      if k < |m| {
        assert c[k] == c[..|m|][k];
      }
    }
  }

  // ---------------------------------------------------------------------
  // Which mnemonic each group prints

  /** A branch line carries the listing's mnemonic for its funct3. */
  lemma BranchMnemonic(addr: bv32, insn: bv32)
    requires Opcode(insn) == OpBranch && Recognized(insn)
    ensures Decode(addr, insn) == RenderBtype(addr, insn, BranchNames[Funct3(insn)])
  {
  }

  /** A load line carries the listing's mnemonic for its funct3. */
  lemma LoadMnemonic(addr: bv32, insn: bv32)
    requires Opcode(insn) == OpLoad && Recognized(insn)
    ensures Decode(addr, insn) == RenderItypeLoad(insn, LoadNames[Funct3(insn)])
  {
  }

  /** A store line carries the listing's mnemonic for its funct3. */
  lemma StoreMnemonic(addr: bv32, insn: bv32)
    requires Opcode(insn) == OpStore && Recognized(insn)
    ensures Decode(addr, insn) == RenderStype(insn, StoreNames[Funct3(insn)])
  {
  }

  /** An ALU-immediate line carries the listing's mnemonic and, for the
      shifts, the shamt field as its amount. */
  lemma AluImmMnemonic(addr: bv32, insn: bv32)
    requires Opcode(insn) == OpAluImm && Recognized(insn)
    ensures Decode(addr, insn) == RenderItypeAlu(insn, AluImmName(insn), AluImmValue(insn))
  {
    ShiftAmountIsRs2(insn);
    Rs2Below(insn);
    SmallSigned(Rs2(insn));
  }

  /** The immediate an ALU-immediate line shows: the shamt field for the
      shifts, the signed imm_i otherwise. */
  function AluImmValue(insn: bv32): int
  {
    if Funct3(insn) == 1 || Funct3(insn) == 5 then Rs2(insn) as int else ToSigned(ImmI(insn))
  }

  /** An R-type line carries the listing's mnemonic for its funct3 and funct7. */
  lemma AluRegMnemonic(addr: bv32, insn: bv32)
    requires Opcode(insn) == OpAluReg && Recognized(insn)
    ensures Decode(addr, insn) == RenderRtype(insn, AluRegName(insn))
  {
  }

  // ---------------------------------------------------------------------
  // Line shapes, for any mnemonic that fits the column

  /** A mnemonic the column holds: shorter than the column, and no comma in it. */
  predicate Fits(m: string)
  {
    |m| < MnemonicWidth && ',' !in m
  }

  lemma BtypeText(addr: bv32, insn: bv32, m: string)
    requires Fits(m)
    ensures var p := Split(RenderBtype(addr, insn, m), ',');
      && |p| == 3 && InColumn(p[0], m)
      && ReadsAsReg(p[0][MnemonicWidth..], Rs1(insn))
      && ReadsAsReg(p[1], Rs2(insn))
      && ReadsAsAddress(p[2], Add32(ImmB(insn), addr))
  {
    var target := ToHex0x32(Add32(ImmB(insn), addr));
    RegText(Rs1(insn));
    RegText(Rs2(insn));
    AddressPiece(Add32(ImmB(insn), addr));
    ColumnPiece(m, RenderReg(Rs1(insn)));
    var a := RenderMnemonic(m) + RenderReg(Rs1(insn));
    assert RenderBtype(addr, insn, m) == a + [','] + RenderReg(Rs2(insn)) + [','] + target;
    Split3(a, RenderReg(Rs2(insn)), target, ',');
  }

  lemma ItypeLoadText(insn: bv32, m: string)
    requires Fits(m)
    ensures var p := Split(RenderItypeLoad(insn, m), ',');
      && |p| == 2 && InColumn(p[0], m)
      && ReadsAsReg(p[0][MnemonicWidth..], Rd(insn))
      && ReadsAsBaseDisp(p[1], Rs1(insn), ToSigned(ImmI(insn)))
  {
    var operand := RenderBaseDisp(Rs1(insn), ImmI(insn));
    RegText(Rd(insn));
    BaseDispPiece(Rs1(insn), ImmI(insn));
    ColumnPiece(m, RenderReg(Rd(insn)));
    var a := RenderMnemonic(m) + RenderReg(Rd(insn));
    assert RenderItypeLoad(insn, m) == a + [','] + operand;
    Split2(a, operand, ',');
  }

  lemma StypeText(insn: bv32, m: string)
    requires Fits(m)
    ensures var p := Split(RenderStype(insn, m), ',');
      && |p| == 2 && InColumn(p[0], m)
      && ReadsAsReg(p[0][MnemonicWidth..], Rs2(insn))
      && ReadsAsBaseDisp(p[1], Rs1(insn), ToSigned(ImmS(insn)))
  {
    var operand := RenderBaseDisp(Rs1(insn), ImmS(insn));
    RegText(Rs2(insn));
    BaseDispPiece(Rs1(insn), ImmS(insn));
    ColumnPiece(m, RenderReg(Rs2(insn)));
    var a := RenderMnemonic(m) + RenderReg(Rs2(insn));
    assert RenderStype(insn, m) == a + [','] + operand;
    Split2(a, operand, ',');
  }

  lemma ItypeAluText(insn: bv32, m: string, imm: int)
    requires Fits(m)
    ensures var p := Split(RenderItypeAlu(insn, m, imm), ',');
      && |p| == 3 && InColumn(p[0], m)
      && ReadsAsReg(p[0][MnemonicWidth..], Rd(insn))
      && ReadsAsReg(p[1], Rs1(insn))
      && ReadsAsInt(p[2], imm)
  {
    RegText(Rd(insn));
    RegText(Rs1(insn));
    IntPiece(imm);
    ColumnPiece(m, RenderReg(Rd(insn)));
    var a := RenderMnemonic(m) + RenderReg(Rd(insn));
    assert RenderItypeAlu(insn, m, imm) == a + [','] + RenderReg(Rs1(insn)) + [','] + IntText(imm);
    Split3(a, RenderReg(Rs1(insn)), IntText(imm), ',');
  }

  lemma RtypeText(insn: bv32, m: string)
    requires Fits(m)
    ensures var p := Split(RenderRtype(insn, m), ',');
      && |p| == 3 && InColumn(p[0], m)
      && ReadsAsReg(p[0][MnemonicWidth..], Rd(insn))
      && ReadsAsReg(p[1], Rs1(insn))
      && ReadsAsReg(p[2], Rs2(insn))
  {
    RegText(Rd(insn));
    RegText(Rs1(insn));
    RegText(Rs2(insn));
    ColumnPiece(m, RenderReg(Rd(insn)));
    var a := RenderMnemonic(m) + RenderReg(Rd(insn));
    assert RenderRtype(insn, m) == a + [','] + RenderReg(Rs1(insn)) + [','] + RenderReg(Rs2(insn));
    Split3(a, RenderReg(Rs1(insn)), RenderReg(Rs2(insn)), ',');
  }

  // ---------------------------------------------------------------------
  // Whole lines

  /** "beq     x1,x2,0x00000010": the mnemonic column, rs1, rs2 and the
      target addr + imm_b (mod 2^32). */
  lemma BranchLine(addr: bv32, insn: bv32)
    requires Opcode(insn) == OpBranch && Recognized(insn)
    ensures var p := Split(Decode(addr, insn), ',');
      && |p| == 3 && InColumn(p[0], BranchNames[Funct3(insn)])
      && ReadsAsReg(p[0][MnemonicWidth..], Rs1(insn))
      && ReadsAsReg(p[1], Rs2(insn))
      && ReadsAsAddress(p[2], Add32(ImmB(insn), addr))
  {
    BranchMnemonic(addr, insn);
    BtypeText(addr, insn, BranchNames[Funct3(insn)]);
  }

  /** "lw      x5,-4(x2)": the mnemonic column, rd, then imm_i(rs1). */
  lemma LoadLine(addr: bv32, insn: bv32)
    requires Opcode(insn) == OpLoad && Recognized(insn)
    ensures var p := Split(Decode(addr, insn), ',');
      && |p| == 2 && InColumn(p[0], LoadNames[Funct3(insn)])
      && ReadsAsReg(p[0][MnemonicWidth..], Rd(insn))
      && ReadsAsBaseDisp(p[1], Rs1(insn), ToSigned(ImmI(insn)))
  {
    var m := LoadNames[Funct3(insn)];
    LoadMnemonic(addr, insn);
    assert Fits(m);
    ItypeLoadText(insn, m);
  }

  /** "sw      x5,0(x1)": the mnemonic column, rs2 (the value stored), then
      imm_s(rs1). */
  lemma StoreLine(addr: bv32, insn: bv32)
    requires Opcode(insn) == OpStore && Recognized(insn)
    ensures var p := Split(Decode(addr, insn), ',');
      && |p| == 2 && InColumn(p[0], StoreNames[Funct3(insn)])
      && ReadsAsReg(p[0][MnemonicWidth..], Rs2(insn))
      && ReadsAsBaseDisp(p[1], Rs1(insn), ToSigned(ImmS(insn)))
  {
    StoreMnemonic(addr, insn);
    StypeText(insn, StoreNames[Funct3(insn)]);
  }

  /** "addi    x1,x2,-3": the mnemonic column, rd, rs1, then the immediate
      (the shamt field for slli, srli and srai). */
  lemma AluImmLine(addr: bv32, insn: bv32)
    requires Opcode(insn) == OpAluImm && Recognized(insn)
    ensures var p := Split(Decode(addr, insn), ',');
      && |p| == 3 && InColumn(p[0], AluImmName(insn))
      && ReadsAsReg(p[0][MnemonicWidth..], Rd(insn))
      && ReadsAsReg(p[1], Rs1(insn))
      && ReadsAsInt(p[2], AluImmValue(insn))
  {
    AluImmMnemonic(addr, insn);
    ItypeAluText(insn, AluImmName(insn), AluImmValue(insn));
  }

  /** "sub     x1,x2,x3": the mnemonic column, rd, rs1, rs2. */
  lemma AluRegLine(addr: bv32, insn: bv32)
    requires Opcode(insn) == OpAluReg && Recognized(insn)
    ensures var p := Split(Decode(addr, insn), ',');
      && |p| == 3 && InColumn(p[0], AluRegName(insn))
      && ReadsAsReg(p[0][MnemonicWidth..], Rd(insn))
      && ReadsAsReg(p[1], Rs1(insn))
      && ReadsAsReg(p[2], Rs2(insn))
  {
    AluRegMnemonic(addr, insn);
    RtypeText(insn, AluRegName(insn));
  }

  /** Two lines written out: the canonical nop and a word store. */
  lemma Examples(addr: bv32)
    ensures Decode(addr, 0x0000_0013) == "addi    x0,x0,0"
    ensures Decode(addr, 0x0050_a023) == "sw      x5,0(x1)"
  {
  }
}
