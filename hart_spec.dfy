// What one step of the hart does (rv32i_hart.cpp), as functions on a value
// of the hart's whole state. The class in hart.dfy performs the same steps in
// place and is proved against these functions.
//
// Registers hold int32_t values as bv32 (sums wrap modulo 2^32); a comparison
// the source makes on int32_t goes through ToSigned, one on uint32_t compares
// the bit patterns. Trace output (the `pos` stream) is not modelled.

module HartSpec {
  import opened Word
  import opened Fields
  import opened Mem
  import opened Regs

  /** The hart's fields, its register file and its memory. mhartid is the
      value csrrs reads from CSR 0xf14. */
  datatype State = State(
    pc: bv32,
    insnCounter: nat,
    halt: bool,
    haltReason: string,
    regs: seq<bv32>,
    mem: seq<bv8>,
    mhartid: bv32)

  const ReasonNone := "none"
  const ReasonAlignment := "PC alignment error"
  const ReasonIllegal := "Illegal instruction"
  const ReasonEbreak := "EBREAK instruction"
  const ReasonCsr := "Illegal CSR in CSRRS instruction"

  /** The CSR number of mhartid. */
  const CsrMhartid: bv32 := 0xf14

  /** Well-formed registers and a memory whose size fits a uint32_t. */
  predicate Valid(s: State)
  {
    Wellformed(s.regs) && |s.mem| < 0x1_0000_0000
  }

  function RdIx(insn: bv32): (r: nat)
    ensures r < Count
  {
    Rd(insn) as int
  }

  function Rs1Ix(insn: bv32): (r: nat)
    ensures r < Count
  {
    Rs1(insn) as int
  }

  function Rs2Ix(insn: bv32): (r: nat)
    ensures r < Count
  {
    Rs2(insn) as int
  }

  /** regs.get(rs1) and regs.get(rs2). */
  function Src1(s: State, insn: bv32): bv32
    requires Valid(s)
  {
    RegGet(s.regs, Rs1Ix(insn))
  }

  function Src2(s: State, insn: bv32): bv32
    requires Valid(s)
  {
    RegGet(s.regs, Rs2Ix(insn))
  }

  /** regs.set(rd, val); pc += 4. */
  function WriteRd(s: State, insn: bv32, val: bv32): State
    requires Valid(s)
  {
    s.(regs := RegSet(s.regs, RdIx(insn), val), pc := Add32(s.pc, 4))
  }

  // ---------------------------------------------------------------------
  // tick, reset and the dispatch

  /** tick() extended to every state, an invalid one being left as it is: a
      total function, so that it can be passed around as a value. */
  function TickAny(s: State): State
  {
    if Valid(s) then Tick(s) else s
  }

  /** tick(): a misaligned pc halts; otherwise count, fetch and execute. The
      halt flag itself is not consulted. */
  function Tick(s: State): State
    requires Valid(s)
  {
    if s.pc & 3 != 0 then
      s.(halt := true, haltReason := ReasonAlignment)
    else
      Exec(Counted(s), Fetch(s))
  }

  /** insn_counter++. */
  function Counted(s: State): (t: State)
    requires Valid(s)
    ensures Valid(t)
  {
    s.(insnCounter := s.insnCounter + 1)
  }

  /** mem.get32(pc). */
  function Fetch(s: State): bv32
  {
    Load32(s.mem, AsAddress(s.pc))
  }

  /** reset(). */
  function Reset(s: State): State
  {
    s.(pc := 0, regs := Initial(), insnCounter := 0, halt := false, haltReason := ReasonNone)
  }

  /** exec(insn): opcode, then funct3, then funct7. */
  function Exec(s: State, insn: bv32): State
    requires Valid(s)
  {
    var op := Opcode(insn);
    if op == OpLui then ExecLui(s, insn)
    else if op == OpAuipc then ExecAuipc(s, insn)
    else if op == OpJal then ExecJal(s, insn)
    else if op == OpJalr then ExecJalr(s, insn)
    else if op == OpBranch then ExecBranch(s, insn)
    else if op == OpLoad then ExecLoad(s, insn)
    else if op == OpStore then ExecStore(s, insn)
    else if op == OpAluImm then ExecAluImm(s, insn)
    else if op == OpAluReg then ExecAluReg(s, insn)
    else if op == OpSystem then ExecSystem(s, insn)
    else ExecIllegal(s, insn)
  }

  /** The B-type switch. Its `default:` has no `return`: an unknown funct3
      halts as illegal and then falls into beq. */
  function ExecBranch(s: State, insn: bv32): State
    requires Valid(s)
  {
    var f3 := Funct3(insn);
    if f3 == Funct3Beq then ExecBeq(s, insn)
    else if f3 == Funct3Bne then ExecBne(s, insn)
    else if f3 == Funct3Blt then ExecBlt(s, insn)
    else if f3 == Funct3Bge then ExecBge(s, insn)
    else if f3 == Funct3Bltu then ExecBltu(s, insn)
    else if f3 == Funct3Bgeu then ExecBgeu(s, insn)
    else ExecBeq(ExecIllegal(s, insn), insn)
  }

  function ExecLoad(s: State, insn: bv32): State
    requires Valid(s)
  {
    var f3 := Funct3(insn);
    if f3 == Funct3Lb then ExecLb(s, insn)
    else if f3 == Funct3Lh then ExecLh(s, insn)
    else if f3 == Funct3Lw then ExecLw(s, insn)
    else if f3 == Funct3Lbu then ExecLbu(s, insn)
    else if f3 == Funct3Lhu then ExecLhu(s, insn)
    else ExecIllegal(s, insn)
  }

  function ExecStore(s: State, insn: bv32): State
    requires Valid(s)
  {
    var f3 := Funct3(insn);
    if f3 == Funct3Sb then ExecSb(s, insn)
    else if f3 == Funct3Sh then ExecSh(s, insn)
    else if f3 == Funct3Sw then ExecSw(s, insn)
    else ExecIllegal(s, insn)
  }

  function ExecAluImm(s: State, insn: bv32): State
    requires Valid(s)
  {
    var f3 := Funct3(insn);
    if f3 == Funct3Add then ExecAddi(s, insn)
    else if f3 == Funct3Sll then ExecSlli(s, insn)
    else if f3 == Funct3Slt then ExecSlti(s, insn)
    else if f3 == Funct3Sltu then ExecSltiu(s, insn)
    else if f3 == Funct3Xor then ExecXori(s, insn)
    else if f3 == Funct3Or then ExecOri(s, insn)
    else if f3 == Funct3And then ExecAndi(s, insn)
    else
      var f7 := Funct7(insn);
      if f7 == Funct7Srl then ExecSrli(s, insn)
      else if f7 == Funct7Sra then ExecSrai(s, insn)
      else ExecIllegal(s, insn)
  }

  function ExecAluReg(s: State, insn: bv32): State
    requires Valid(s)
  {
    var f3 := Funct3(insn);
    var f7 := Funct7(insn);
    if f3 == Funct3Add then
      if f7 == Funct7Add then ExecAdd(s, insn)
      else if f7 == Funct7Sub then ExecSub(s, insn)
      else ExecIllegal(s, insn)
    else if f3 == Funct3Sll then ExecSll(s, insn)
    else if f3 == Funct3Slt then ExecSlt(s, insn)
    else if f3 == Funct3Sltu then ExecSltu(s, insn)
    else if f3 == Funct3Xor then ExecXor(s, insn)
    else if f3 == Funct3Or then ExecOr(s, insn)
    else if f3 == Funct3And then ExecAnd(s, insn)
    else
      if f7 == Funct7Sra then ExecSra(s, insn)
      else if f7 == Funct7Srl then ExecSrl(s, insn)
      else ExecIllegal(s, insn)
  }

  /** Only ebreak and csrrs are executed; ecall and the other CSR
      instructions are illegal here. */
  function ExecSystem(s: State, insn: bv32): State
    requires Valid(s)
  {
    if insn == InsnEbreak then ExecEbreak(s, insn)
    else if Funct3(insn) == Funct3Csrrs then ExecCsrrs(s, insn)
    else ExecIllegal(s, insn)
  }

  // ---------------------------------------------------------------------
  // The handlers

  function ExecIllegal(s: State, insn: bv32): State
  {
    s.(halt := true, haltReason := ReasonIllegal)
  }

  function ExecLui(s: State, insn: bv32): State
    requires Valid(s)
  {
    WriteRd(s, insn, ImmU(insn))
  }

  function ExecAuipc(s: State, insn: bv32): State
    requires Valid(s)
  {
    WriteRd(s, insn, Add32(s.pc, ImmU(insn)))
  }

  /** rd = pc + 4, pc = pc + imm_j. */
  function ExecJal(s: State, insn: bv32): State
    requires Valid(s)
  {
    Link(s, insn, Add32(s.pc, ImmJ(insn)))
  }

  /** The target is computed from rs1 before rd is written. */
  function ExecJalr(s: State, insn: bv32): State
    requires Valid(s)
  {
    Link(s, insn, ClearBit0(Add32(ImmI(insn), Src1(s, insn))))
  }

  /** What jal and jalr share: regs.set(rd, pc + 4); pc = target. */
  function Link(s: State, insn: bv32, target: bv32): State
    requires Valid(s)
  {
    s.(regs := RegSet(s.regs, RdIx(insn), Add32(s.pc, 4)), pc := target)
  }

  /** pc += cond ? imm_b : 4. */
  function Branch(s: State, insn: bv32, cond: bool): State
  {
    s.(pc := Add32(s.pc, if cond then ImmB(insn) else 4))
  }

  function ExecBeq(s: State, insn: bv32): State
    requires Valid(s)
  {
    Branch(s, insn, Src1(s, insn) == Src2(s, insn))
  }

  function ExecBne(s: State, insn: bv32): State
    requires Valid(s)
  {
    Branch(s, insn, Src1(s, insn) != Src2(s, insn))
  }

  function ExecBlt(s: State, insn: bv32): State
    requires Valid(s)
  {
    Branch(s, insn, ToSigned(Src1(s, insn)) < ToSigned(Src2(s, insn)))
  }

  function ExecBge(s: State, insn: bv32): State
    requires Valid(s)
  {
    Branch(s, insn, ToSigned(Src1(s, insn)) >= ToSigned(Src2(s, insn)))
  }

  function ExecBltu(s: State, insn: bv32): State
    requires Valid(s)
  {
    Branch(s, insn, Below(Src1(s, insn), Src2(s, insn)))
  }

  function ExecBgeu(s: State, insn: bv32): State
    requires Valid(s)
  {
    Branch(s, insn, !Below(Src1(s, insn), Src2(s, insn)))
  }

  /** The effective address rs1 + imm (int32_t or uint32_t: the same bits). */
  function LoadAddress(s: State, insn: bv32): Address
    requires Valid(s)
  {
    AsAddress(Add32(Src1(s, insn), ImmI(insn)))
  }

  function StoreAddress(s: State, insn: bv32): Address
    requires Valid(s)
  {
    AsAddress(Add32(Src1(s, insn), ImmS(insn)))
  }

  function ExecLb(s: State, insn: bv32): State
    requires Valid(s)
  {
    WriteRd(s, insn, Load8Sx(s.mem, LoadAddress(s, insn)))
  }

  function ExecLh(s: State, insn: bv32): State
    requires Valid(s)
  {
    WriteRd(s, insn, Load16Sx(s.mem, LoadAddress(s, insn)))
  }

  function ExecLw(s: State, insn: bv32): State
    requires Valid(s)
  {
    WriteRd(s, insn, Load32Sx(s.mem, LoadAddress(s, insn)))
  }

  function ExecLbu(s: State, insn: bv32): State
    requires Valid(s)
  {
    WriteRd(s, insn, Load8(s.mem, LoadAddress(s, insn)) as bv32)
  }

  function ExecLhu(s: State, insn: bv32): State
    requires Valid(s)
  {
    WriteRd(s, insn, Load16(s.mem, LoadAddress(s, insn)) as bv32)
  }

  function ExecSb(s: State, insn: bv32): State
    requires Valid(s)
  {
    s.(mem := Store8(s.mem, StoreAddress(s, insn), LowByte(Src2(s, insn) & 0xff)), pc := Add32(s.pc, 4))
  }

  function ExecSh(s: State, insn: bv32): State
    requires Valid(s)
  {
    s.(mem := Store16(s.mem, StoreAddress(s, insn), Low16(Mask16(Src2(s, insn)))), pc := Add32(s.pc, 4))
  }

  function ExecSw(s: State, insn: bv32): State
    requires Valid(s)
  {
    s.(mem := Store32(s.mem, StoreAddress(s, insn), Src2(s, insn)), pc := Add32(s.pc, 4))
  }

  function ExecAddi(s: State, insn: bv32): State
    requires Valid(s)
  {
    WriteRd(s, insn, Add32(Src1(s, insn), ImmI(insn)))
  }

  /** `s_rs1 << imm_i` with the whole imm_i as the amount. Amounts of 32 and
      more are undefined in C++; they give 0 here, the low 32 bits of the
      mathematical shift. */
  function ExecSlli(s: State, insn: bv32): State
    requires Valid(s)
  {
    var amount := ImmI(insn);
    WriteRd(s, insn, if amount < 32 then Shl(Src1(s, insn), amount) else 0)
  }

  function ExecSlti(s: State, insn: bv32): State
    requires Valid(s)
  {
    WriteRd(s, insn, if ToSigned(Src1(s, insn)) < ToSigned(ImmI(insn)) then 1 else 0)
  }

  function ExecSltiu(s: State, insn: bv32): State
    requires Valid(s)
  {
    WriteRd(s, insn, if Below(Src1(s, insn), ImmI(insn)) then 1 else 0)
  }

  function ExecXori(s: State, insn: bv32): State
    requires Valid(s)
  {
    WriteRd(s, insn, Src1(s, insn) ^ ImmI(insn))
  }

  function ExecOri(s: State, insn: bv32): State
    requires Valid(s)
  {
    WriteRd(s, insn, Src1(s, insn) | ImmI(insn))
  }

  function ExecAndi(s: State, insn: bv32): State
    requires Valid(s)
  {
    WriteRd(s, insn, Src1(s, insn) & ImmI(insn))
  }

  function ExecSrli(s: State, insn: bv32): State
    requires Valid(s)
  {
    WriteRd(s, insn, Shr(Src1(s, insn), Low5(ImmI(insn))))
  }

  function ExecSrai(s: State, insn: bv32): State
    requires Valid(s)
  {
    WriteRd(s, insn, Sra(Src1(s, insn), Low5(ImmI(insn))))
  }

  function ExecAdd(s: State, insn: bv32): State
    requires Valid(s)
  {
    WriteRd(s, insn, Add32(Src1(s, insn), Src2(s, insn)))
  }

  function ExecSub(s: State, insn: bv32): State
    requires Valid(s)
  {
    WriteRd(s, insn, Sub32(Src1(s, insn), Src2(s, insn)))
  }

  function ExecSll(s: State, insn: bv32): State
    requires Valid(s)
  {
    WriteRd(s, insn, Shl(Src1(s, insn), Low5(Src2(s, insn))))
  }

  function ExecSlt(s: State, insn: bv32): State
    requires Valid(s)
  {
    WriteRd(s, insn, if ToSigned(Src1(s, insn)) < ToSigned(Src2(s, insn)) then 1 else 0)
  }

  function ExecSltu(s: State, insn: bv32): State
    requires Valid(s)
  {
    WriteRd(s, insn, if Below(Src1(s, insn), Src2(s, insn)) then 1 else 0)
  }

  function ExecXor(s: State, insn: bv32): State
    requires Valid(s)
  {
    WriteRd(s, insn, Src1(s, insn) ^ Src2(s, insn))
  }

  function ExecOr(s: State, insn: bv32): State
    requires Valid(s)
  {
    WriteRd(s, insn, Src1(s, insn) | Src2(s, insn))
  }

  function ExecAnd(s: State, insn: bv32): State
    requires Valid(s)
  {
    WriteRd(s, insn, Src1(s, insn) & Src2(s, insn))
  }

  function ExecSra(s: State, insn: bv32): State
    requires Valid(s)
  {
    WriteRd(s, insn, Sra(Src1(s, insn), Low5(Src2(s, insn))))
  }

  function ExecSrl(s: State, insn: bv32): State
    requires Valid(s)
  {
    WriteRd(s, insn, Shr(Src1(s, insn), Low5(Src2(s, insn))))
  }

  function ExecEbreak(s: State, insn: bv32): State
  {
    s.(halt := true, haltReason := ReasonEbreak)
  }

  /** Only mhartid (CSR 0xf14) with rs1 = x0 is accepted: it is copied to rd. */
  function ExecCsrrs(s: State, insn: bv32): State
    requires Valid(s)
  {
    var csr := ImmI(insn) & 0xfff;
    if csr != CsrMhartid || Rs1(insn) != 0 then
      s.(halt := true, haltReason := ReasonCsr)
    else
      WriteRd(s, insn, s.mhartid)
  }
}
