// How the disassembler (rv32i_decode.cpp) and the hart (rv32i_hart.cpp)
// agree: the jump and branch targets the listing prints are where the hart
// goes, and every instruction the hart carries out has a disassembly. The
// converse fails: ecall and the CSR instructions other than csrrs are
// disassembled but halt the hart as illegal.

module Agreement {
  import opened Word
  import opened Fields
  import opened Hex
  import opened Regs
  import opened HartSpec
  import opened HartProps
  import opened Decoder

  /** The hart carries out only instructions the disassembler recognizes. */
  lemma ExecutableIsRecognized(insn: bv32)
    ensures Executable(insn) ==> Recognized(insn)
  {
  }

  /** A word the listing shows as ERROR: UNIMPLEMENTED INSTRUCTION halts
      the hart as an illegal instruction. */
  lemma ErrorTextHalts(s: State, insn: bv32)
    requires Valid(s) && Decode(s.pc, insn) == ErrorText
    ensures Exec(s, insn).halt && Exec(s, insn).haltReason == ReasonIllegal
  {
    DecodeErrorIff(s.pc, insn);
    ExecutableIsRecognized(insn);
    IllegalHalts(s, insn);
  }

  /** ecall disassembles as "ecall" but the hart halts on it as illegal. */
  lemma EcallDisagrees(s: State)
    requires Valid(s)
    ensures Decode(s.pc, InsnEcall) == "ecall" && Recognized(InsnEcall)
    ensures Exec(s, InsnEcall).halt && Exec(s, InsnEcall).haltReason == ReasonIllegal
  {
    SystemLiterals(s.pc);
    assert !Executable(InsnEcall);
    IllegalHalts(s, InsnEcall);
  }

  /** The address jal prints is the target the hart links and jumps to. */
  lemma JalAgrees(s: State, insn: bv32)
    requires Valid(s) && Opcode(insn) == OpJal
    ensures var t, x := Decode(s.pc, insn), Add32(s.pc, ImmJ(insn));
      && |t| > 8 && AllDigits(t[|t| - 8..]) && Value(t[|t| - 8..]) == x as int
      && Exec(s, insn) == Link(s, insn, x)
  {
    JalTarget(s.pc, insn);
    JalStep(s, insn);
    Add32Comm(ImmJ(insn), s.pc);
  }

  /** The address a branch prints is where the hart goes when it is taken. */
  lemma BranchAgrees(s: State, insn: bv32)
    requires Valid(s) && Opcode(insn) == OpBranch && Funct3(insn) != 2 && Funct3(insn) != 3
    requires Taken(Funct3(insn), Src1(s, insn), Src2(s, insn))
    ensures var t, x := Decode(s.pc, insn), Add32(s.pc, ImmB(insn));
      && |t| > 8 && AllDigits(t[|t| - 8..]) && Value(t[|t| - 8..]) == x as int
      && Exec(s, insn) == s.(pc := x)
  {
    BranchTarget(s.pc, insn);
    BranchStep(s, insn);
    Add32Comm(ImmB(insn), s.pc);
  }
}
