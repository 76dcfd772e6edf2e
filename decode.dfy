// The disassembler (rv32i_decode.cpp): a total function from the address and
// the 32-bit word of an instruction to its text. Dispatch is opcode, then
// funct3, then funct7 (or, for the system opcode, the literal ecall/ebreak
// words first); every combination it does not list renders the error text.
// Operands follow the mnemonic, which is left-justified in MnemonicWidth
// columns, and are separated by commas without spaces.

module Decoder {
  import opened Word
  import opened Fields
  import opened Hex
  import opened Text

  /** The width of the mnemonic column (a header constant of the program). */
  const MnemonicWidth := 8

  /** What every unimplemented instruction renders as. */
  const ErrorText := "ERROR: UNIMPLEMENTED INSTRUCTION"

  /** decode(addr, insn). */
  function Decode(addr: bv32, insn: bv32): string
  {
    var op := Opcode(insn);
    if op == OpLui then RenderLui(insn)
    else if op == OpAuipc then RenderAuipc(insn)
    else if op == OpJal then RenderJal(addr, insn)
    else if op == OpJalr then RenderJalr(insn)
    else if op == OpBranch then DecodeBranch(addr, insn)
    else if op == OpLoad then DecodeLoad(insn)
    else if op == OpStore then DecodeStore(insn)
    else if op == OpAluImm then DecodeAluImm(insn)
    else if op == OpAluReg then DecodeAluReg(insn)
    else if op == OpSystem then DecodeSystem(insn)
    else RenderIllegal(insn)
  }

  /** The B-type switch on funct3. */
  function DecodeBranch(addr: bv32, insn: bv32): string
  {
    var f3 := Funct3(insn);
    if f3 == Funct3Beq then RenderBtype(addr, insn, "beq")
    else if f3 == Funct3Bne then RenderBtype(addr, insn, "bne")
    else if f3 == Funct3Blt then RenderBtype(addr, insn, "blt")
    else if f3 == Funct3Bge then RenderBtype(addr, insn, "bge")
    else if f3 == Funct3Bltu then RenderBtype(addr, insn, "bltu")
    else if f3 == Funct3Bgeu then RenderBtype(addr, insn, "bgeu")
    else RenderIllegal(insn)
  }

  /** The load switch on funct3. */
  function DecodeLoad(insn: bv32): string
  {
    var f3 := Funct3(insn);
    if f3 == Funct3Lb then RenderItypeLoad(insn, "lb")
    else if f3 == Funct3Lh then RenderItypeLoad(insn, "lh")
    else if f3 == Funct3Lw then RenderItypeLoad(insn, "lw")
    else if f3 == Funct3Lbu then RenderItypeLoad(insn, "lbu")
    else if f3 == Funct3Lhu then RenderItypeLoad(insn, "lhu")
    else RenderIllegal(insn)
  }

  /** The store switch on funct3. */
  function DecodeStore(insn: bv32): string
  {
    var f3 := Funct3(insn);
    if f3 == Funct3Sb then RenderStype(insn, "sb")
    else if f3 == Funct3Sh then RenderStype(insn, "sh")
    else if f3 == Funct3Sw then RenderStype(insn, "sw")
    else RenderIllegal(insn)
  }

  /** The shift amount the disassembler prints for slli/srli/srai:
      `get_imm_i(insn) % XLEN` with XLEN an unsigned 32. */
  function ShiftAmount(insn: bv32): bv32
  {
    ImmI(insn) % 32
  }

  /** The ALU-immediate switch on funct3, and on funct7 for the right shifts.
      slli does not look at funct7. */
  function DecodeAluImm(insn: bv32): string
  {
    var f3 := Funct3(insn);
    if f3 == Funct3Add then RenderItypeAlu(insn, "addi", ToSigned(ImmI(insn)))
    else if f3 == Funct3Sll then RenderItypeAlu(insn, "slli", ToSigned(ShiftAmount(insn)))
    else if f3 == Funct3Slt then RenderItypeAlu(insn, "slti", ToSigned(ImmI(insn)))
    else if f3 == Funct3Sltu then RenderItypeAlu(insn, "sltiu", ToSigned(ImmI(insn)))
    else if f3 == Funct3Xor then RenderItypeAlu(insn, "xori", ToSigned(ImmI(insn)))
    else if f3 == Funct3Or then RenderItypeAlu(insn, "ori", ToSigned(ImmI(insn)))
    else if f3 == Funct3And then RenderItypeAlu(insn, "andi", ToSigned(ImmI(insn)))
    else
      var f7 := Funct7(insn);
      if f7 == Funct7Sra then RenderItypeAlu(insn, "srai", ToSigned(ShiftAmount(insn)))
      else if f7 == Funct7Srl then RenderItypeAlu(insn, "srli", ToSigned(ShiftAmount(insn)))
      else RenderIllegal(insn)
  }

  /** The R-type switch: funct7 is consulted only for add/sub and srl/sra. */
  function DecodeAluReg(insn: bv32): string
  {
    var f3 := Funct3(insn);
    var f7 := Funct7(insn);
    if f3 == Funct3Add then
      if f7 == Funct7Add then RenderRtype(insn, "add")
      else if f7 == Funct7Sub then RenderRtype(insn, "sub")
      else RenderIllegal(insn)
    else if f3 == Funct3Sll then RenderRtype(insn, "sll")
    else if f3 == Funct3Slt then RenderRtype(insn, "slt")
    else if f3 == Funct3Sltu then RenderRtype(insn, "sltu")
    else if f3 == Funct3Xor then RenderRtype(insn, "xor")
    else if f3 == Funct3Or then RenderRtype(insn, "or")
    else if f3 == Funct3And then RenderRtype(insn, "and")
    else
      if f7 == Funct7Sra then RenderRtype(insn, "sra")
      else if f7 == Funct7Srl then RenderRtype(insn, "srl")
      else RenderIllegal(insn)
  }

  /** The system opcode: the whole word is compared with ebreak and ecall
      before funct3 selects a CSR instruction. */
  function DecodeSystem(insn: bv32): string
  {
    if insn == InsnEbreak then RenderEbreak(insn)
    else if insn == InsnEcall then RenderEcall(insn)
    else
      var f3 := Funct3(insn);
      if f3 == Funct3Csrrw then RenderCsrrx(insn, "csrrw")
      else if f3 == Funct3Csrrs then RenderCsrrx(insn, "csrrs")
      else if f3 == Funct3Csrrc then RenderCsrrx(insn, "csrrc")
      else if f3 == Funct3Csrrwi then RenderCsrrxi(insn, "csrrwi")
      else if f3 == Funct3Csrrsi then RenderCsrrxi(insn, "csrrsi")
      else if f3 == Funct3Csrrci then RenderCsrrxi(insn, "csrrci")
      else RenderIllegal(insn)
  }

  // ---------------------------------------------------------------------
  // Renderers

  function RenderIllegal(insn: bv32): string
  {
    ErrorText
  }

  /** A mnemonic, left-justified and space-padded to the mnemonic column. */
  function RenderMnemonic(m: string): (r: string)
    ensures |r| >= |m| && r[..|m|] == m
  {
    PadRightSpec(m, MnemonicWidth);
    PadRight(m, MnemonicWidth)
  }

  /** "x" and the register number in decimal. */
  function RenderReg(r: bv32): string
  {
    "x" + Decimal(r as int)
  }

  /** The signed decimal displacement, then the base register in parentheses. */
  function RenderBaseDisp(base: bv32, disp: bv32): string
  {
    IntText(ToSigned(disp)) + "(" + RenderReg(base) + ")"
  }

  /** The upper immediate as printed by lui and auipc: the int32_t imm_u
      shifted right by 12 and masked to 20 bits. */
  function UpperField(insn: bv32): bv32
  {
    Sra(ImmU(insn), 12) & 0x0f_ffff
  }

  function RenderLui(insn: bv32): string
  {
    RenderMnemonic("lui") + RenderReg(Rd(insn)) + "," + ToHex0x20(UpperField(insn))
  }

  function RenderAuipc(insn: bv32): string
  {
    RenderMnemonic("auipc") + RenderReg(Rd(insn)) + "," + ToHex0x20(UpperField(insn))
  }

  /** The target is (imm_j + addr) & 0xffffffff: uint32_t arithmetic. */
  function RenderJal(addr: bv32, insn: bv32): string
  {
    RenderMnemonic("jal") + RenderReg(Rd(insn)) + "," + ToHex0x32(Add32(ImmJ(insn), addr))
  }

  function RenderJalr(insn: bv32): string
  {
    RenderMnemonic("jalr") + RenderReg(Rd(insn)) + "," + RenderBaseDisp(Rs1(insn), ImmI(insn))
  }

  function RenderBtype(addr: bv32, insn: bv32, m: string): string
  {
    RenderMnemonic(m) + RenderReg(Rs1(insn)) + "," + RenderReg(Rs2(insn)) + ","
      + ToHex0x32(Add32(ImmB(insn), addr))
  }

  function RenderItypeLoad(insn: bv32, m: string): string
  {
    RenderMnemonic(m) + RenderReg(Rd(insn)) + "," + RenderBaseDisp(Rs1(insn), ImmI(insn))
  }

  function RenderStype(insn: bv32, m: string): string
  {
    RenderMnemonic(m) + RenderReg(Rs2(insn)) + "," + RenderBaseDisp(Rs1(insn), ImmS(insn))
  }

  /** The int32_t immediate is printed in signed decimal. */
  function RenderItypeAlu(insn: bv32, m: string, imm: int): string
  {
    RenderMnemonic(m) + RenderReg(Rd(insn)) + "," + RenderReg(Rs1(insn)) + "," + IntText(imm)
  }

  function RenderRtype(insn: bv32, m: string): string
  {
    RenderMnemonic(m) + RenderReg(Rd(insn)) + "," + RenderReg(Rs1(insn)) + ","
      + RenderReg(Rs2(insn))
  }

  function RenderEcall(insn: bv32): string
  {
    "ecall"
  }

  function RenderEbreak(insn: bv32): string
  {
    "ebreak"
  }

  /** The CSR number is the low 12 bits of imm_i; the source register follows. */
  function RenderCsrrx(insn: bv32, m: string): string
  {
    RenderMnemonic(m) + RenderReg(Rd(insn)) + "," + ToHex0x12(ImmI(insn) & 0xfff) + ","
      + RenderReg(Rs1(insn))
  }

  /** As RenderCsrrx, with the rs1 field printed as an unsigned decimal zimm. */
  function RenderCsrrxi(insn: bv32, m: string): string
  {
    RenderMnemonic(m) + RenderReg(Rd(insn)) + "," + ToHex0x12(ImmI(insn) & 0xfff) + ","
      + Decimal(Rs1(insn) as int)
  }

  // ---------------------------------------------------------------------
  // Which words the disassembler knows

  /** The instructions the dispatch lists, stated field by field. jalr and the
      R-type sll/slt/sltu/xor/or/and and slli ignore funct3/funct7. */
  predicate Recognized(insn: bv32)
  {
    var op, f3, f7 := Opcode(insn), Funct3(insn), Funct7(insn);
    || op == OpLui || op == OpAuipc || op == OpJal || op == OpJalr
    || (op == OpBranch && f3 != 2 && f3 != 3)
    || (op == OpLoad && f3 != 3 && f3 != 6 && f3 != 7)
    || (op == OpStore && f3 <= 2)
    || (op == OpAluImm && (f3 == 5 ==> f7 == 0 || f7 == 0x20))
    || (op == OpAluReg && ((f3 == 0 || f3 == 5) ==> f7 == 0 || f7 == 0x20))
    || (op == OpSystem && (insn == InsnEcall || insn == InsnEbreak || (f3 != 0 && f3 != 4)))
  }

  // ---------------------------------------------------------------------
  // Properties

  /** A line that starts with a mnemonic starts with its first letter. */
  lemma LeadingLetter(m: string, rest: string)
    requires m != []
    ensures (RenderMnemonic(m) + rest)[0] == m[0]
  {
  }

  /** Any text that does not start with 'E' is not the error text. */
  lemma NotErrorText(t: string)
    requires t != [] && t[0] != 'E'
    ensures t != ErrorText
  {
  }

  lemma BranchErrorIff(addr: bv32, insn: bv32)
    ensures DecodeBranch(addr, insn) == ErrorText <==> Funct3(insn) == 2 || Funct3(insn) == 3
  {
    var t := DecodeBranch(addr, insn);
    if Funct3(insn) != 2 && Funct3(insn) != 3 {
      assert t[0] == 'b';
      NotErrorText(t);
    }
  }

  lemma LoadErrorIff(insn: bv32)
    ensures DecodeLoad(insn) == ErrorText <==> Funct3(insn) == 3 || Funct3(insn) == 6 || Funct3(insn) == 7
  {
    var t := DecodeLoad(insn);
    if Funct3(insn) != 3 && Funct3(insn) != 6 && Funct3(insn) != 7 {
      assert t[0] == 'l';
      NotErrorText(t);
    }
  }

  lemma StoreErrorIff(insn: bv32)
    ensures DecodeStore(insn) == ErrorText <==> Funct3(insn) > 2
  {
    var t := DecodeStore(insn);
    if Funct3(insn) <= 2 {
      assert t[0] == 's';
      NotErrorText(t);
    }
  }

  lemma ItypeAluNotError(insn: bv32, m: string, imm: int)
    requires m != [] && 'a' <= m[0] <= 'z'
    ensures RenderItypeAlu(insn, m, imm) != ErrorText
  {
    NotErrorText(RenderItypeAlu(insn, m, imm));
  }

  lemma RtypeNotError(insn: bv32, m: string)
    requires m != [] && 'a' <= m[0] <= 'z'
    ensures RenderRtype(insn, m) != ErrorText
  {
    NotErrorText(RenderRtype(insn, m));
  }

  lemma AluImmErrorIff(insn: bv32)
    ensures DecodeAluImm(insn) == ErrorText <==>
      Funct3(insn) == 5 && Funct7(insn) != 0 && Funct7(insn) != 0x20
  {
    var f3, f7 := Funct3(insn), Funct7(insn);
    if f3 == 0 {
      ItypeAluNotError(insn, "addi", ToSigned(ImmI(insn)));
    } else if f3 == 1 {
      ItypeAluNotError(insn, "slli", ToSigned(ShiftAmount(insn)));
    } else if f3 == 2 {
      ItypeAluNotError(insn, "slti", ToSigned(ImmI(insn)));
    } else if f3 == 3 {
      ItypeAluNotError(insn, "sltiu", ToSigned(ImmI(insn)));
    } else if f3 == 4 {
      ItypeAluNotError(insn, "xori", ToSigned(ImmI(insn)));
    } else if f3 == 6 {
      ItypeAluNotError(insn, "ori", ToSigned(ImmI(insn)));
    } else if f3 == 7 {
      ItypeAluNotError(insn, "andi", ToSigned(ImmI(insn)));
    } else if f7 == 0x20 {
      ItypeAluNotError(insn, "srai", ToSigned(ShiftAmount(insn)));
    } else if f7 == 0 {
      ItypeAluNotError(insn, "srli", ToSigned(ShiftAmount(insn)));
    }
  }

  lemma AluRegErrorIff(insn: bv32)
    ensures DecodeAluReg(insn) == ErrorText <==>
      (Funct3(insn) == 0 || Funct3(insn) == 5) && Funct7(insn) != 0 && Funct7(insn) != 0x20
  {
    var f3, f7 := Funct3(insn), Funct7(insn);
    if f3 == 0 {
      if f7 == 0 {
        RtypeNotError(insn, "add");
      } else if f7 == 0x20 {
        RtypeNotError(insn, "sub");
      }
    } else if f3 == 1 {
      RtypeNotError(insn, "sll");
    } else if f3 == 2 {
      RtypeNotError(insn, "slt");
    } else if f3 == 3 {
      RtypeNotError(insn, "sltu");
    } else if f3 == 4 {
      RtypeNotError(insn, "xor");
    } else if f3 == 6 {
      RtypeNotError(insn, "or");
    } else if f3 == 7 {
      RtypeNotError(insn, "and");
    } else if f7 == 0x20 {
      RtypeNotError(insn, "sra");
    } else if f7 == 0 {
      RtypeNotError(insn, "srl");
    }
  }

  lemma SystemErrorIff(insn: bv32)
    ensures DecodeSystem(insn) == ErrorText <==>
      insn != InsnEcall && insn != InsnEbreak && (Funct3(insn) == 0 || Funct3(insn) == 4)
  {
    var t := DecodeSystem(insn);
    if !(insn != InsnEcall && insn != InsnEbreak && (Funct3(insn) == 0 || Funct3(insn) == 4)) {
      assert t[0] == 'e' || t[0] == 'c';
      NotErrorText(t);
    }
  }

  /** Exactly the words Recognized does not describe render as the error text;
      every other word renders as an instruction. */
  lemma DecodeErrorIff(addr: bv32, insn: bv32)
    ensures Decode(addr, insn) == ErrorText <==> !Recognized(insn)
  {
    var t := Decode(addr, insn);
    var op := Opcode(insn);
    if op == OpBranch {
      BranchErrorIff(addr, insn);
    } else if op == OpLoad {
      LoadErrorIff(insn);
    } else if op == OpStore {
      StoreErrorIff(insn);
    } else if op == OpAluImm {
      AluImmErrorIff(insn);
    } else if op == OpAluReg {
      AluRegErrorIff(insn);
    } else if op == OpSystem {
      SystemErrorIff(insn);
    } else if op == OpLui || op == OpAuipc || op == OpJal || op == OpJalr {
      assert t[0] == 'l' || t[0] == 'a' || t[0] == 'j';
      NotErrorText(t);
    }
  }

  /** The literal ebreak and ecall words render as the bare words, unpadded. */
  lemma SystemLiterals(addr: bv32)
    ensures Decode(addr, InsnEbreak) == "ebreak"
    ensures Decode(addr, InsnEcall) == "ecall"
  {
  }

  /** The mnemonic column: the mnemonic, then spaces up to MnemonicWidth. */
  lemma MnemonicColumn(m: string)
    ensures |RenderMnemonic(m)| == if |m| >= MnemonicWidth then |m| else MnemonicWidth
    ensures forall k :: |m| <= k < |RenderMnemonic(m)| ==> RenderMnemonic(m)[k] == ' '
  {
    PadRightSpec(m, MnemonicWidth);
  }

  /** A register renders as 'x' and decimal digits that read back as its
      number, so it holds no comma and no parenthesis. */
  lemma RegText(r: bv32)
    ensures |RenderReg(r)| >= 2 && RenderReg(r)[0] == 'x'
    ensures AllDecimal(RenderReg(r)[1..]) && DecimalValue(RenderReg(r)[1..]) == r as int
    ensures ',' !in RenderReg(r) && '(' !in RenderReg(r)
  {
    DecimalValueOf(r as int);
    var t := RenderReg(r);
    assert t[1..] == Decimal(r as int);
    forall k | 0 <= k < |t|
      ensures t[k] != ',' && t[k] != '('
    {
      if k > 0 {
        assert t[k] == t[1..][k - 1];
      }
    }
  }

  /** Base plus displacement: the text before the '(' is the signed decimal
      displacement (which reads back by IntTextRoundTrip) and the base
      register sits between the parentheses. */
  lemma BaseDispText(base: bv32, disp: bv32)
    ensures var t, k := RenderBaseDisp(base, disp), |IntText(ToSigned(disp))|;
      && k + 1 < |t| && t[k] == '(' && t[|t| - 1] == ')'
      && t[k + 1..|t| - 1] == RenderReg(base)
      && t[..k] == IntText(ToSigned(disp))
  {
    Parenthesized(ToSigned(disp), RenderReg(base));
  }

  lemma Parenthesized(i: int, r: string)
    ensures var t, k := IntText(i) + "(" + r + ")", |IntText(i)|;
      && k + 1 < |t| && t[k] == '(' && t[|t| - 1] == ')'
      && t[k + 1..|t| - 1] == r
      && t[..k] == IntText(i)
  {
    var d := IntText(i);
    var t := d + "(" + r + ")";
    assert t[..|d|] == d;
    assert t[|d| + 1..|t| - 1] == r;
  }

  /** A jal line ends with "0x" and eight hex digits of imm_j + addr (mod 2^32). */
  lemma JalTarget(addr: bv32, insn: bv32)
    requires Opcode(insn) == OpJal
    ensures var t := Decode(addr, insn);
      && |t| > 10 && t[|t| - 10..] == ToHex0x32(Add32(ImmJ(insn), addr))
      && AllDigits(t[|t| - 8..]) && Value(t[|t| - 8..]) == Add32(ImmJ(insn), addr) as int
  {
    var x := Add32(ImmJ(insn), addr);
    var t := Decode(addr, insn);
    ToHex0x32Spec(x);
    assert t[|t| - 10..] == ToHex0x32(x);
    assert t[|t| - 8..] == ToHex0x32(x)[2..];
  }

  /** A branch line ends with "0x" and eight hex digits of imm_b + addr (mod 2^32). */
  lemma BranchTarget(addr: bv32, insn: bv32)
    requires Opcode(insn) == OpBranch && Funct3(insn) != 2 && Funct3(insn) != 3
    ensures var t := Decode(addr, insn);
      && |t| > 10 && t[|t| - 10..] == ToHex0x32(Add32(ImmB(insn), addr))
      && AllDigits(t[|t| - 8..]) && Value(t[|t| - 8..]) == Add32(ImmB(insn), addr) as int
  {
    var x := Add32(ImmB(insn), addr);
    var t := Decode(addr, insn);
    ToHex0x32Spec(x);
    assert t[|t| - 10..] == ToHex0x32(x);
    assert t[|t| - 8..] == ToHex0x32(x)[2..];
  }

  lemma UpperFieldIsTop(insn: bv32)
    ensures UpperField(insn) == insn >> 12
  {
    ImmUField(insn);
    SraSpec(ImmU(insn), 12);
    UpperFieldMask(ImmU(insn));
  }

  lemma UpperFieldMask(u: bv32)
    ensures Sra(u, 12) & 0x0f_ffff == u >> 12
  {
    if u >> 31 == 0 {
      TopFieldLogical(u);
    } else {
      TopFieldArithmetic(u);
    }
  }

  lemma TopFieldLogical(u: bv32)
    ensures (u >> 12) & 0x0f_ffff == u >> 12
  {
  }

  lemma TopFieldArithmetic(u: bv32)
    ensures !((!u) >> 12) & 0x0f_ffff == u >> 12
  {
  }

  lemma TopBelow(insn: bv32)
    ensures insn >> 12 < 0x10_0000
  {
  }

  /** lui and auipc end with "0x" and exactly five hex digits of insn >> 12. */
  lemma UpperText(addr: bv32, insn: bv32)
    requires Opcode(insn) == OpLui || Opcode(insn) == OpAuipc
    ensures var t := Decode(addr, insn);
      && |t| > 7 && t[|t| - 7..|t| - 5] == "0x"
      && AllDigits(t[|t| - 5..]) && Value(t[|t| - 5..]) == (insn >> 12) as int
  {
    var t := Decode(addr, insn);
    var x := UpperField(insn);
    UpperFieldIsTop(insn);
    TopBelow(insn);
    ToHex0x20Spec(x);
    var h := ToHex0x20(x);
    assert t[|t| - 7..] == h;
    assert t[|t| - 7..|t| - 5] == h[..2];
    assert t[|t| - 5..] == h[2..];
  }

  lemma ShiftAmountIsRs2(insn: bv32)
    ensures ShiftAmount(insn) == Rs2(insn)
  {
    ImmILow(insn);
    ShiftAmountLow(ImmI(insn), insn);
  }

  lemma ShiftAmountLow(imm: bv32, insn: bv32)
    requires imm & 0xfff == insn >> 20
    ensures imm % 32 == (insn & 0x01f0_0000) >> 20
  {
  }

  /** slli, srli and srai print the shift amount as the rs2 field, 0..31: the
      upper bits of imm_i (funct7, and the sign) do not show. */
  lemma ShiftText(addr: bv32, insn: bv32)
    requires Opcode(insn) == OpAluImm
    requires Funct3(insn) == 1 || (Funct3(insn) == 5 && (Funct7(insn) == 0 || Funct7(insn) == 0x20))
    ensures var t, d := Decode(addr, insn), Decimal(Rs2(insn) as int);
      && |t| > |d| && t[|t| - |d| - 1..] == "," + d
  {
    ShiftAmountIsRs2(insn);
    Rs2Below(insn);
    SmallSigned(Rs2(insn));
    var m := if Funct3(insn) == 1 then "slli" else if Funct7(insn) == 0x20 then "srai" else "srli";
    assert Decode(addr, insn) == RenderItypeAlu(insn, m, ToSigned(ShiftAmount(insn)));
    ItypeAluSuffix(insn, m, ToSigned(ShiftAmount(insn)));
  }

  /** An ALU-immediate line ends with a comma and the signed decimal immediate. */
  lemma ItypeAluSuffix(insn: bv32, m: string, imm: int)
    ensures var t, d := RenderItypeAlu(insn, m, imm), IntText(imm);
      |t| > |d| && t[|t| - |d| - 1..] == "," + d
  {
    var a := RenderMnemonic(m) + RenderReg(Rd(insn)) + "," + RenderReg(Rs1(insn));
    CommaSuffix(a, IntText(imm));
  }

  lemma CommaSuffix(a: string, d: string)
    ensures var t := a + "," + d; |t| > |d| && t[|t| - |d| - 1..] == "," + d
  {
    assert a + "," + d == a + ("," + d);
  }

  lemma Rs2Below(insn: bv32)
    ensures Rs2(insn) < 32
  {
  }

  lemma SmallSigned(x: bv32)
    requires x < 32
    ensures ToSigned(x) == x as int
  {
  }

  /** The CSR field of csrrw/csrrs/csrrc and their immediate forms renders as
      "0x" and exactly three hex digits of insn >> 20. */
  lemma CsrText(insn: bv32)
    ensures var c := ToHex0x12(ImmI(insn) & 0xfff);
      |c| == 5 && AllDigits(c[2..]) && Value(c[2..]) == (insn >> 20) as int
  {
    ImmILow(insn);
    CsrBelow(insn);
    ToHex0x12Spec(ImmI(insn) & 0xfff);
  }

  lemma CsrBelow(insn: bv32)
    ensures insn >> 20 < 0x1000
  {
  }
}
