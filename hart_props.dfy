// Properties of one hart step (rv32i_hart.cpp): what each class of
// instruction may change, the branch and jump targets, the halting cases,
// the B-type fall-through, shift masking, and tick/reset.

module HartProps {
  import opened Word
  import opened Fields
  import opened Mem
  import opened Regs
  import opened HartSpec

  /** t differs from s at most in pc, halt, halt reason, registers (x0 still
      zero) and memory (same size). */
  predicate Keeps(s: State, t: State)
  {
    Valid(t) && t.insnCounter == s.insnCounter && t.mhartid == s.mhartid && |t.mem| == |s.mem|
  }

  /** t is s with register rd written (or nothing, for x0) and pc advanced by 4. */
  predicate WritesOnlyRd(s: State, t: State, insn: bv32)
    requires Valid(s) && Valid(t)
  {
    && t.pc == Add32(s.pc, 4) && t.mem == s.mem
    && t.halt == s.halt && t.haltReason == s.haltReason
    && t.insnCounter == s.insnCounter && t.mhartid == s.mhartid
    && forall r :: 0 <= r < Count && r != RdIx(insn) ==> RegGet(t.regs, r) == RegGet(s.regs, r)
  }

  lemma WriteRdFrame(s: State, insn: bv32)
    requires Valid(s)
    ensures forall v :: Valid(WriteRd(s, insn, v)) && WritesOnlyRd(s, WriteRd(s, insn, v), insn)
    ensures forall v :: RdIx(insn) != 0 ==> RegGet(WriteRd(s, insn, v).regs, RdIx(insn)) == v
  {
    forall v ensures Valid(WriteRd(s, insn, v)) {
      SetKeepsWellformed(s.regs, RdIx(insn), v);
    }
  }

  // ---------------------------------------------------------------------
  // Validity, counter and mhartid

  lemma BranchKeeps(s: State, insn: bv32)
    requires Valid(s)
    ensures Keeps(s, ExecBranch(s, insn))
  {
  }

  lemma LoadKeeps(s: State, insn: bv32)
    requires Valid(s)
    ensures Keeps(s, ExecLoad(s, insn))
  {
    WriteRdFrame(s, insn);
  }

  lemma StoreKeeps(s: State, insn: bv32)
    requires Valid(s)
    ensures Keeps(s, ExecStore(s, insn))
  {
  }

  lemma AluImmKeeps(s: State, insn: bv32)
    requires Valid(s)
    ensures Keeps(s, ExecAluImm(s, insn))
  {
    WriteRdFrame(s, insn);
  }

  lemma AluRegKeeps(s: State, insn: bv32)
    requires Valid(s)
    ensures Keeps(s, ExecAluReg(s, insn))
  {
    WriteRdFrame(s, insn);
  }

  lemma SystemKeeps(s: State, insn: bv32)
    requires Valid(s)
    ensures Keeps(s, ExecSystem(s, insn))
  {
    WriteRdFrame(s, insn);
  }

  /** No instruction breaks the register file (x0 stays 0), resizes memory,
      or touches the instruction counter or mhartid. */
  lemma ExecKeeps(s: State, insn: bv32)
    requires Valid(s)
    ensures Keeps(s, Exec(s, insn))
  {
    var op := Opcode(insn);
    WriteRdFrame(s, insn);
    SetKeepsWellformed(s.regs, RdIx(insn), Add32(s.pc, 4));
    if op == OpBranch {
      BranchKeeps(s, insn);
    } else if op == OpLoad {
      LoadKeeps(s, insn);
    } else if op == OpStore {
      StoreKeeps(s, insn);
    } else if op == OpAluImm {
      AluImmKeeps(s, insn);
    } else if op == OpAluReg {
      AluRegKeeps(s, insn);
    } else if op == OpSystem {
      SystemKeeps(s, insn);
    }
  }

  // ---------------------------------------------------------------------
  // Instructions that write a register

  /** lui and auipc write only rd (imm_u, and pc + imm_u) and step pc by 4. */
  lemma UpperWritesRd(s: State, insn: bv32)
    requires Valid(s) && (Opcode(insn) == OpLui || Opcode(insn) == OpAuipc)
    ensures var t := Exec(s, insn);
      && Valid(t) && WritesOnlyRd(s, t, insn)
      && (RdIx(insn) != 0 ==>
            RegGet(t.regs, RdIx(insn)) == (if Opcode(insn) == OpLui then ImmU(insn) else Add32(s.pc, ImmU(insn))))
  {
    WriteRdFrame(s, insn);
  }

  /** The five loads write only rd and step pc by 4. */
  lemma LoadWritesRd(s: State, insn: bv32)
    requires Valid(s) && Opcode(insn) == OpLoad
    requires Funct3(insn) != 3 && Funct3(insn) != 6 && Funct3(insn) != 7
    ensures Valid(Exec(s, insn)) && WritesOnlyRd(s, Exec(s, insn), insn)
  {
    WriteRdFrame(s, insn);
  }

  /** Every ALU-immediate instruction the dispatch accepts writes only rd. */
  lemma AluImmWritesRd(s: State, insn: bv32)
    requires Valid(s) && Opcode(insn) == OpAluImm
    requires Funct3(insn) == 5 ==> Funct7(insn) == 0 || Funct7(insn) == 0x20
    ensures Valid(Exec(s, insn)) && WritesOnlyRd(s, Exec(s, insn), insn)
  {
    WriteRdFrame(s, insn);
  }

  /** Every register-register instruction the dispatch accepts writes only rd. */
  lemma AluRegWritesRd(s: State, insn: bv32)
    requires Valid(s) && Opcode(insn) == OpAluReg
    requires (Funct3(insn) == 0 || Funct3(insn) == 5) ==> Funct7(insn) == 0 || Funct7(insn) == 0x20
    ensures Valid(Exec(s, insn)) && WritesOnlyRd(s, Exec(s, insn), insn)
  {
    WriteRdFrame(s, insn);
  }

  /** csrrs of mhartid with rs1 = x0 copies mhartid into rd and steps pc. */
  lemma CsrrsReadsMhartid(s: State, insn: bv32)
    requires Valid(s) && Opcode(insn) == OpSystem && insn != InsnEbreak
    requires Funct3(insn) == Funct3Csrrs && ImmI(insn) & 0xfff == CsrMhartid && Rs1(insn) == 0
    ensures var t := Exec(s, insn);
      && Valid(t) && WritesOnlyRd(s, t, insn)
      && (RdIx(insn) != 0 ==> RegGet(t.regs, RdIx(insn)) == s.mhartid)
  {
    WriteRdFrame(s, insn);
  }

  /** Stores change only memory, and step pc by 4. */
  lemma StoreWritesMemory(s: State, insn: bv32)
    requires Valid(s) && Opcode(insn) == OpStore && Funct3(insn) <= 2
    ensures var t := Exec(s, insn);
      && Valid(t) && t.regs == s.regs && t.pc == Add32(s.pc, 4)
      && t.halt == s.halt && t.haltReason == s.haltReason && t.insnCounter == s.insnCounter
      && |t.mem| == |s.mem|
  {
  }

  // ---------------------------------------------------------------------
  // Branches and jumps

  /** The RISC-V branch conditions, by funct3: equality, signed order for
      blt/bge and unsigned order for bltu/bgeu. */
  predicate Taken(f3: bv32, a: bv32, b: bv32)
  {
    match f3
    case 0 => a == b
    case 1 => a != b
    case 4 => ToSigned(a) < ToSigned(b)
    case 5 => ToSigned(a) >= ToSigned(b)
    case 6 => a < b
    case _ => a >= b
  }

  /** Dispatch: the opcode selects the handler. */
  lemma DispatchBranch(s: State, insn: bv32)
    requires Valid(s) && Opcode(insn) == OpBranch
    ensures Exec(s, insn) == ExecBranch(s, insn)
  {
  }

  lemma DispatchJal(s: State, insn: bv32)
    requires Valid(s) && Opcode(insn) == OpJal
    ensures Exec(s, insn) == ExecJal(s, insn)
  {
  }

  lemma DispatchJalr(s: State, insn: bv32)
    requires Valid(s) && Opcode(insn) == OpJalr
    ensures Exec(s, insn) == ExecJalr(s, insn)
  {
  }

  /** Each B-type funct3 the switch knows picks the condition Taken names. */
  lemma BranchCondition(s: State, insn: bv32)
    requires Valid(s) && Funct3(insn) != 2 && Funct3(insn) != 3
    ensures ExecBranch(s, insn) == Branch(s, insn, Taken(Funct3(insn), Src1(s, insn), Src2(s, insn)))
  {
    var f3 := Funct3(insn);
    Funct3Below(insn);
    if f3 == 0 || f3 == 1 {
      BranchEquality(s, insn);
    } else if f3 == 4 || f3 == 5 {
      BranchSigned(s, insn);
    } else if f3 == 6 {
      BranchBltu(s, insn);
    } else {
      BranchBgeu(s, insn);
    }
  }

  lemma BranchEquality(s: State, insn: bv32)
    requires Valid(s) && (Funct3(insn) == 0 || Funct3(insn) == 1)
    ensures ExecBranch(s, insn) == Branch(s, insn, Taken(Funct3(insn), Src1(s, insn), Src2(s, insn)))
  {
  }

  lemma BranchSigned(s: State, insn: bv32)
    requires Valid(s) && (Funct3(insn) == 4 || Funct3(insn) == 5)
    ensures ExecBranch(s, insn) == Branch(s, insn, Taken(Funct3(insn), Src1(s, insn), Src2(s, insn)))
  {
  }

  lemma BranchBltu(s: State, insn: bv32)
    requires Valid(s) && Funct3(insn) == 6
    ensures ExecBranch(s, insn) == Branch(s, insn, Taken(Funct3(insn), Src1(s, insn), Src2(s, insn)))
  {
  }

  lemma BranchBgeu(s: State, insn: bv32)
    requires Valid(s) && Funct3(insn) == 7
    ensures ExecBranch(s, insn) == Branch(s, insn, Taken(Funct3(insn), Src1(s, insn), Src2(s, insn)))
  {
  }

  /** The B-type switch: funct3 2 and 3 reach its default. */
  lemma BranchDefault(s: State, insn: bv32)
    requires Valid(s) && (Funct3(insn) == 2 || Funct3(insn) == 3)
    ensures ExecBranch(s, insn) == ExecBeq(ExecIllegal(s, insn), insn)
  {
  }

  lemma Funct3Below(insn: bv32)
    ensures Funct3(insn) < 8
  {
  }

  /** A known B-type funct3 moves pc by imm_b when its condition holds and
      by 4 otherwise (see Branch), and changes nothing else. */
  lemma BranchStep(s: State, insn: bv32)
    requires Valid(s) && Opcode(insn) == OpBranch && Funct3(insn) != 2 && Funct3(insn) != 3
    ensures Exec(s, insn) == Branch(s, insn, Taken(Funct3(insn), Src1(s, insn), Src2(s, insn)))
  {
    DispatchBranch(s, insn);
    BranchCondition(s, insn);
  }

  /** An unknown B-type funct3 (2 or 3) halts as illegal and then, falling
      through the switch, still performs beq on the halted state. */
  lemma BranchFallThrough(s: State, insn: bv32)
    requires Valid(s) && Opcode(insn) == OpBranch && (Funct3(insn) == 2 || Funct3(insn) == 3)
    ensures Exec(s, insn) == Branch(ExecIllegal(s, insn), insn, Src1(s, insn) == Src2(s, insn))
    ensures Exec(s, insn).halt && Exec(s, insn).haltReason == ReasonIllegal
    ensures Exec(s, insn).regs == s.regs && Exec(s, insn).mem == s.mem
  {
    DispatchBranch(s, insn);
    BranchDefault(s, insn);
  }

  /** blt and bltu disagree on -1 < 0: the comparison signedness matters. */
  lemma SignedVersusUnsigned()
    ensures Taken(Funct3Blt, 0xffff_ffff, 0) && !Taken(Funct3Bltu, 0xffff_ffff, 0)
    ensures !Taken(Funct3Bge, 0xffff_ffff, 0) && Taken(Funct3Bgeu, 0xffff_ffff, 0)
  {
  }

  /** jal links pc + 4 into rd and jumps to pc + imm_j. */
  lemma JalStep(s: State, insn: bv32)
    requires Valid(s) && Opcode(insn) == OpJal
    ensures Exec(s, insn) == Link(s, insn, Add32(s.pc, ImmJ(insn)))
  {
    DispatchJal(s, insn);
  }

  /** jalr links pc + 4 into rd and jumps to rs1 + imm_i with bit 0
      cleared; rs1 is read before rd is written, so `jalr x1, 0(x1)` jumps to
      the old x1. The target is always even. */
  lemma JalrStep(s: State, insn: bv32)
    requires Valid(s) && Opcode(insn) == OpJalr
    ensures Exec(s, insn) == Link(s, insn, ClearBit0(Add32(ImmI(insn), Src1(s, insn))))
    ensures Exec(s, insn).pc & 1 == 0
  {
    DispatchJalr(s, insn);
  }

  /** Link writes pc + 4 into rd (nothing for x0), sets pc to the target and
      changes nothing else. */
  lemma LinkFrame(s: State, insn: bv32, target: bv32)
    requires Valid(s)
    ensures var t := Link(s, insn, target);
      && Valid(t) && t.pc == target && t.mem == s.mem
      && t.halt == s.halt && t.haltReason == s.haltReason
      && t.insnCounter == s.insnCounter && t.mhartid == s.mhartid
      && (RdIx(insn) != 0 ==> RegGet(t.regs, RdIx(insn)) == Add32(s.pc, 4))
      && forall r :: 0 <= r < Count && r != RdIx(insn) ==> RegGet(t.regs, r) == RegGet(s.regs, r)
  {
    SetKeepsWellformed(s.regs, RdIx(insn), Add32(s.pc, 4));
  }

  // ---------------------------------------------------------------------
  // Which instructions halt as illegal

  /** The instructions exec() carries out: every opcode and funct3/funct7 its
      switches name, with only ebreak and csrrs from the SYSTEM group. */
  predicate Executable(insn: bv32)
  {
    var op, f3, f7 := Opcode(insn), Funct3(insn), Funct7(insn);
    || op == OpLui || op == OpAuipc || op == OpJal || op == OpJalr
    || (op == OpBranch && f3 != 2 && f3 != 3)
    || (op == OpLoad && f3 != 3 && f3 != 6 && f3 != 7)
    || (op == OpStore && f3 <= 2)
    || (op == OpAluImm && (f3 == 5 ==> f7 == 0 || f7 == 0x20))
    || (op == OpAluReg && ((f3 == 0 || f3 == 5) ==> f7 == 0 || f7 == 0x20))
    || (op == OpSystem && (insn == InsnEbreak || f3 == Funct3Csrrs))
  }

  lemma DispatchLoad(s: State, insn: bv32)
    requires Valid(s) && Opcode(insn) == OpLoad
    ensures Exec(s, insn) == ExecLoad(s, insn)
  {
  }

  lemma DispatchStore(s: State, insn: bv32)
    requires Valid(s) && Opcode(insn) == OpStore
    ensures Exec(s, insn) == ExecStore(s, insn)
  {
  }

  lemma DispatchAluImm(s: State, insn: bv32)
    requires Valid(s) && Opcode(insn) == OpAluImm
    ensures Exec(s, insn) == ExecAluImm(s, insn)
  {
  }

  lemma DispatchAluReg(s: State, insn: bv32)
    requires Valid(s) && Opcode(insn) == OpAluReg
    ensures Exec(s, insn) == ExecAluReg(s, insn)
  {
  }

  lemma DispatchSystem(s: State, insn: bv32)
    requires Valid(s) && Opcode(insn) == OpSystem
    ensures Exec(s, insn) == ExecSystem(s, insn)
  {
  }

  /** Everything outside Executable halts with "Illegal instruction". */
  lemma IllegalHalts(s: State, insn: bv32)
    requires Valid(s) && !Executable(insn)
    ensures Exec(s, insn).halt && Exec(s, insn).haltReason == ReasonIllegal
    ensures Opcode(insn) != OpBranch ==> Exec(s, insn) == s.(halt := true, haltReason := ReasonIllegal)
  {
    var op, f3 := Opcode(insn), Funct3(insn);
    Funct3Below(insn);
    if op == OpBranch {
      BranchFallThrough(s, insn);
    } else if op == OpLoad {
      DispatchLoad(s, insn);
      assert ExecLoad(s, insn) == ExecIllegal(s, insn);
    } else if op == OpStore {
      DispatchStore(s, insn);
      assert ExecStore(s, insn) == ExecIllegal(s, insn);
    } else if op == OpAluImm {
      DispatchAluImm(s, insn);
      assert ExecAluImm(s, insn) == ExecIllegal(s, insn);
    } else if op == OpAluReg {
      DispatchAluReg(s, insn);
      assert ExecAluReg(s, insn) == ExecIllegal(s, insn);
    } else if op == OpSystem {
      DispatchSystem(s, insn);
      assert ExecSystem(s, insn) == ExecIllegal(s, insn);
    } else {
      assert Exec(s, insn) == ExecIllegal(s, insn);
    }
  }

  /** An instruction in Executable leaves the halt reason alone, or sets the
      ebreak or CSR reason; never "Illegal instruction". */
  lemma ExecutableReason(s: State, insn: bv32)
    requires Valid(s) && Executable(insn)
    ensures Exec(s, insn).haltReason in {s.haltReason, ReasonEbreak, ReasonCsr}
  {
    var op, f3 := Opcode(insn), Funct3(insn);
    Funct3Below(insn);
    if op == OpBranch {
      BranchStep(s, insn);
    } else if op == OpLoad {
      DispatchLoad(s, insn);
      LoadReason(s, insn);
    } else if op == OpStore {
      DispatchStore(s, insn);
      assert ExecStore(s, insn).haltReason == s.haltReason;
    } else if op == OpAluImm {
      DispatchAluImm(s, insn);
      AluImmReason(s, insn);
    } else if op == OpAluReg {
      DispatchAluReg(s, insn);
      AluRegReason(s, insn);
    } else if op == OpSystem {
      DispatchSystem(s, insn);
    } else if op == OpJal {
      JalStep(s, insn);
    } else if op == OpJalr {
      JalrStep(s, insn);
    } else {
      assert Exec(s, insn).haltReason == s.haltReason;
    }
  }

  lemma LoadReason(s: State, insn: bv32)
    requires Valid(s) && Funct3(insn) != 3 && Funct3(insn) != 6 && Funct3(insn) != 7
    ensures ExecLoad(s, insn).haltReason == s.haltReason
  {
    Funct3Below(insn);
  }

  lemma AluImmReason(s: State, insn: bv32)
    requires Valid(s) && (Funct3(insn) == 5 ==> Funct7(insn) == 0 || Funct7(insn) == 0x20)
    ensures ExecAluImm(s, insn).haltReason == s.haltReason
  {
    Funct3Below(insn);
  }

  lemma AluRegReason(s: State, insn: bv32)
    requires Valid(s) && ((Funct3(insn) == 0 || Funct3(insn) == 5) ==> Funct7(insn) == 0 || Funct7(insn) == 0x20)
    ensures ExecAluReg(s, insn).haltReason == s.haltReason
  {
    Funct3Below(insn);
  }

  /** From a state not already halted as illegal, exec() halts as illegal
      exactly on the instructions outside Executable. */
  lemma IllegalIff(s: State, insn: bv32)
    requires Valid(s) && s.haltReason != ReasonIllegal
    ensures Exec(s, insn).haltReason == ReasonIllegal <==> !Executable(insn)
  {
    if Executable(insn) {
      ExecutableReason(s, insn);
    } else {
      IllegalHalts(s, insn);
    }
  }

  /** ebreak halts with its own reason; pc, registers and memory stay. */
  lemma EbreakHalts(s: State)
    requires Valid(s)
    ensures Exec(s, InsnEbreak) == s.(halt := true, haltReason := ReasonEbreak)
  {
    DispatchSystem(s, InsnEbreak);
  }

  /** csrrs of any CSR but mhartid, or with rs1 other than x0, halts with the
      CSR reason and changes nothing else. */
  lemma CsrrsIllegal(s: State, insn: bv32)
    requires Valid(s) && Opcode(insn) == OpSystem && insn != InsnEbreak && Funct3(insn) == Funct3Csrrs
    requires ImmI(insn) & 0xfff != CsrMhartid || Rs1(insn) != 0
    ensures Exec(s, insn) == s.(halt := true, haltReason := ReasonCsr)
  {
    DispatchSystem(s, insn);
  }

  // ---------------------------------------------------------------------
  // Shifts

  /** imm_i & 0x1f, the amount srli and srai use, is the shamt field: bits
      24..20, where an R-type word keeps rs2. */
  lemma ShamtIsRs2(insn: bv32)
    ensures Low5(ImmI(insn)) == Rs2(insn)
  {
  }

  /** srli shifts rs1 right by shamt, filling with zeros. */
  lemma SrliStep(s: State, insn: bv32)
    requires Valid(s) && Opcode(insn) == OpAluImm && Funct3(insn) == Funct3Srx && Funct7(insn) == Funct7Srl
    ensures Exec(s, insn) == WriteRd(s, insn, Shr(Src1(s, insn), Rs2(insn)))
  {
    DispatchAluImm(s, insn);
    ShamtIsRs2(insn);
  }

  /** srai shifts rs1 right by shamt, copying the sign bit into every
      vacated bit; on a non-negative rs1 it is the logical shift. */
  lemma SraiStep(s: State, insn: bv32)
    requires Valid(s) && Opcode(insn) == OpAluImm && Funct3(insn) == Funct3Srx && Funct7(insn) == Funct7Sra
    ensures var x, v := Src1(s, insn), Sra(Src1(s, insn), Rs2(insn));
      && Exec(s, insn) == WriteRd(s, insn, v)
      && v == SignShift(x, Rs2(insn) as nat)
      && v >> 31 == x >> 31
      && (x >> 31 == 0 ==> v == Shr(x, Rs2(insn)))
  {
    DispatchAluImm(s, insn);
    ShamtIsRs2(insn);
    SraSpec(Src1(s, insn), Rs2(insn));
    SraIsSignShift(Src1(s, insn), Rs2(insn));
  }

  /** sll, srl and sra use only the low five bits of rs2's value. */
  lemma ShiftRegStep(s: State, insn: bv32)
    requires Valid(s) && Opcode(insn) == OpAluReg
    requires Funct3(insn) == Funct3Sll || (Funct3(insn) == Funct3Srx && (Funct7(insn) == Funct7Srl || Funct7(insn) == Funct7Sra))
    ensures var x, n := Src1(s, insn), Low5(Src2(s, insn));
      Exec(s, insn) == WriteRd(s, insn,
        if Funct3(insn) == Funct3Sll then Shl(x, n)
        else if Funct7(insn) == Funct7Srl then Shr(x, n)
        else Sra(x, n))
  {
    DispatchAluReg(s, insn);
  }

  /** sra writes rs1 shifted right by the low five bits of rs2, with every
      vacated bit a copy of the sign bit, so the sign of rs1 reaches rd. */
  lemma SraKeepsSign(s: State, insn: bv32)
    requires Valid(s) && Opcode(insn) == OpAluReg && Funct3(insn) == Funct3Srx && Funct7(insn) == Funct7Sra
    requires RdIx(insn) != 0
    ensures RegGet(Exec(s, insn).regs, RdIx(insn)) == SignShift(Src1(s, insn), Low5(Src2(s, insn)) as nat)
    ensures RegGet(Exec(s, insn).regs, RdIx(insn)) >> 31 == Src1(s, insn) >> 31
  {
    ShiftRegStep(s, insn);
    WriteRdFrame(s, insn);
    SraSpec(Src1(s, insn), Low5(Src2(s, insn)));
    SraIsSignShift(Src1(s, insn), Low5(Src2(s, insn)));
  }

  /** With funct7 zero, slli shifts by shamt, like the other shifts. */
  lemma SlliStep(s: State, insn: bv32)
    requires Valid(s) && Opcode(insn) == OpAluImm && Funct3(insn) == Funct3Sll && Funct7(insn) == 0
    ensures Exec(s, insn) == WriteRd(s, insn, Shl(Src1(s, insn), Rs2(insn)))
  {
    DispatchAluImm(s, insn);
    ShamtIsRs2(insn);
    assert ImmI(insn) == Rs2(insn);
  }

  /** slli does not mask its amount: the word 0x40109093 has shamt 1 (and
      the disassembler prints 1), but the hart shifts by the whole imm_i,
      0x401. C++ leaves that shift undefined; the model writes 0 into x1. */
  lemma SlliWideAmount(s: State)
    requires Valid(s)
    ensures var insn: bv32 := 0x4010_9093;
      && Opcode(insn) == OpAluImm && Funct3(insn) == Funct3Sll
      && RdIx(insn) == 1 && Rs1Ix(insn) == 1 && Rs2(insn) == 1 && ImmI(insn) == 0x401
      && Exec(s, insn) == WriteRd(s, insn, 0)
  {
    var insn: bv32 := 0x4010_9093;
    DispatchAluImm(s, insn);
  }

  // ---------------------------------------------------------------------
  // Memory through the hart

  /** sw followed by lw from the same effective address loads the stored
      word, when all four bytes are inside memory. */
  lemma StoreWordLoadWord(s: State, sw: bv32, lw: bv32)
    requires Valid(s) && Opcode(sw) == OpStore && Funct3(sw) == Funct3Sw
    requires Opcode(lw) == OpLoad && Funct3(lw) == Funct3Lw && RdIx(lw) != 0
    requires LoadAddress(s, lw) == StoreAddress(s, sw) && StoreAddress(s, sw) as int + 3 < |s.mem|
    ensures Valid(Exec(s, sw))
    ensures RegGet(Exec(Exec(s, sw), lw).regs, RdIx(lw)) == Src2(s, sw)
  {
    DispatchStore(s, sw);
    var t := Exec(s, sw);
    assert t == ExecSw(s, sw);
    assert t.regs == s.regs;
    assert LoadAddress(t, lw) == LoadAddress(s, lw);
    DispatchLoad(t, lw);
    assert Exec(t, lw) == ExecLw(t, lw);
    RoundTrip32(s.mem, StoreAddress(s, sw), Src2(s, sw));
    WriteRdFrame(t, lw);
  }

  // ---------------------------------------------------------------------
  // tick and reset

  /** A misaligned pc halts the hart with "PC alignment error" and leaves pc,
      the counter, the registers and memory as they were. */
  lemma TickMisaligned(s: State)
    requires Valid(s) && s.pc & 3 != 0
    ensures var t := Tick(s);
      && t.halt && t.haltReason == ReasonAlignment
      && t.pc == s.pc && t.insnCounter == s.insnCounter && t.regs == s.regs && t.mem == s.mem
      && t.mhartid == s.mhartid
  {
  }

  /** tick() keeps the state well-formed and counts exactly the instructions
      it fetches: one when pc is aligned, none otherwise. The halt flag plays
      no part: a halted hart that is ticked still fetches and counts. */
  lemma TickCounts(s: State)
    requires Valid(s)
    ensures Valid(Tick(s))
    ensures Tick(s).insnCounter == s.insnCounter + (if s.pc & 3 == 0 then 1 else 0)
    ensures Tick(s).mhartid == s.mhartid && |Tick(s).mem| == |s.mem|
  {
    if s.pc & 3 == 0 {
      ExecKeeps(Counted(s), Fetch(s));
    }
  }

  /** reset() clears pc, the counter and the halt state and resets the
      registers to the sentinel; memory and mhartid are not touched. */
  lemma ResetState(s: State)
    ensures var t := Reset(s);
      && Valid(t) == (|s.mem| < 0x1_0000_0000)
      && t.pc == 0 && t.insnCounter == 0 && !t.halt && t.haltReason == ReasonNone
      && RegGet(t.regs, 0) == 0
      && (forall r :: 1 <= r < Count ==> RegGet(t.regs, r) == ResetValue)
      && t.mem == s.mem && t.mhartid == s.mhartid
  {
    InitialValues();
  }

  /** A second reset() changes nothing. */
  lemma ResetIdempotent(s: State)
    ensures Reset(Reset(s)) == Reset(s)
  {
  }
}
