// The hart object of rv32i_hart.cpp: pc, the instruction counter and the
// halt state are fields that tick(), reset() and the exec_* handlers update
// in place; the register file and the memory are objects the hart writes
// through set(). Each method is proved to leave the hart in the state the
// matching function of HartSpec gives for the state before the call, so the
// properties proved in HartProps hold of the object as well.

module Machine {
  import opened Word
  import opened Fields
  import opened Mem
  import opened Regs
  import HartSpec

  class Hart {
    var pc: bv32
    var insnCounter: nat
    var halt: bool
    var haltReason: string
    const regs: RegisterFile
    /** The memory the hart was built on; its owner shares it. */
    const mem: Memory
    /** The value csrrs reads from mhartid. */
    const mhartid: bv32

    ghost predicate Valid()
      reads this, regs, mem
    {
      regs.Valid() && mem.Valid()
    }

    /** The whole state of the hart as a value. */
    ghost function Abs(): HartSpec.State
      reads this, regs, mem
    {
      HartSpec.State(pc, insnCounter, halt, haltReason, regs.regs, mem.mem, mhartid)
    }

    /** A hart on memory m with a fresh register file, in the state reset()
        leaves it in. */
    constructor (m: Memory, hartId: bv32)
      requires m.Valid()
      ensures Valid() && mem == m && fresh(regs)
      ensures pc == 0 && insnCounter == 0 && !halt && haltReason == HartSpec.ReasonNone
      ensures regs.regs == Initial() && mhartid == hartId
    {
      pc := 0;
      insnCounter := 0;
      halt := false;
      haltReason := HartSpec.ReasonNone;
      regs := new RegisterFile();
      mem := m;
      mhartid := hartId;
    }

    function IsHalted(): bool
      reads this
    {
      halt
    }

    function GetHaltReason(): string
      reads this
    {
      haltReason
    }

    function GetInsnCounter(): nat
      reads this
    {
      insnCounter
    }

    /** tick(): halt on a misaligned pc, otherwise count, fetch and execute. */
    method Tick()
      requires Valid()
      modifies this, regs, mem
      ensures Valid() && Abs() == HartSpec.Tick(old(Abs()))
    {
      if pc & 3 != 0 {
        halt := true;
        haltReason := HartSpec.ReasonAlignment;
        return;
      }
      insnCounter := insnCounter + 1;
      assert Abs() == HartSpec.Counted(old(Abs()));
      var insn := mem.Get32(AsAddress(pc));
      assert insn == HartSpec.Fetch(old(Abs()));
      Exec(insn);
    }

    /** reset(). */
    method Reset()
      requires Valid()
      modifies this, regs
      ensures Valid() && Abs() == HartSpec.Reset(old(Abs()))
    {
      pc := 0;
      regs.Reset();
      insnCounter := 0;
      halt := false;
      haltReason := HartSpec.ReasonNone;
    }

    /** exec(insn): the switch on the opcode; each group of opcodes has its
        own switch on funct3 and funct7 below. */
    method Exec(insn: bv32)
      requires Valid()
      modifies this, regs, mem
      ensures Valid() && Abs() == HartSpec.Exec(old(Abs()), insn)
    {
      var op := Opcode(insn);
      if op == OpLui {
        ExecLui(insn);
      } else if op == OpAuipc {
        ExecAuipc(insn);
      } else if op == OpJal {
        ExecJal(insn);
      } else if op == OpJalr {
        ExecJalr(insn);
      } else if op == OpBranch {
        ExecBranch(insn);
      } else if op == OpLoad {
        ExecLoad(insn);
      } else if op == OpStore {
        ExecStore(insn);
      } else if op == OpAluImm {
        ExecAluImm(insn);
      } else if op == OpAluReg {
        ExecAluReg(insn);
      } else if op == OpSystem {
        ExecSystem(insn);
      } else {
        ExecIllegalInsn(insn);
      }
    }

    /** The B-type cases; `default:` halts and then runs into beq. */
    method ExecBranch(insn: bv32)
      requires Valid()
      modifies this
      ensures Valid() && Abs() == HartSpec.ExecBranch(old(Abs()), insn)
    {
      var f3 := Funct3(insn);
      if f3 == Funct3Beq {
        ExecBeq(insn);
      } else if f3 == Funct3Bne {
        ExecBne(insn);
      } else if f3 == Funct3Blt {
        ExecBlt(insn);
      } else if f3 == Funct3Bge {
        ExecBge(insn);
      } else if f3 == Funct3Bltu {
        ExecBltu(insn);
      } else if f3 == Funct3Bgeu {
        ExecBgeu(insn);
      } else {
        ExecIllegalInsn(insn);
        ExecBeq(insn);
      }
    }

    method ExecLoad(insn: bv32)
      requires Valid()
      modifies this, regs
      ensures Valid() && Abs() == HartSpec.ExecLoad(old(Abs()), insn)
    {
      var f3 := Funct3(insn);
      if f3 == Funct3Lb {
        ExecLb(insn);
      } else if f3 == Funct3Lh {
        ExecLh(insn);
      } else if f3 == Funct3Lw {
        ExecLw(insn);
      } else if f3 == Funct3Lbu {
        ExecLbu(insn);
      } else if f3 == Funct3Lhu {
        ExecLhu(insn);
      } else {
        ExecIllegalInsn(insn);
      }
    }

    method ExecStore(insn: bv32)
      requires Valid()
      modifies this, mem
      ensures Valid() && Abs() == HartSpec.ExecStore(old(Abs()), insn)
    {
      var f3 := Funct3(insn);
      if f3 == Funct3Sb {
        ExecSb(insn);
      } else if f3 == Funct3Sh {
        ExecSh(insn);
      } else if f3 == Funct3Sw {
        ExecSw(insn);
      } else {
        ExecIllegalInsn(insn);
      }
    }

    method ExecAluImm(insn: bv32)
      requires Valid()
      modifies this, regs
      ensures Valid() && Abs() == HartSpec.ExecAluImm(old(Abs()), insn)
    {
      var f3 := Funct3(insn);
      if f3 == Funct3Add {
        ExecAddi(insn);
      } else if f3 == Funct3Sll {
        ExecSlli(insn);
      } else if f3 == Funct3Slt {
        ExecSlti(insn);
      } else if f3 == Funct3Sltu {
        ExecSltiu(insn);
      } else if f3 == Funct3Xor {
        ExecXori(insn);
      } else if f3 == Funct3Or {
        ExecOri(insn);
      } else if f3 == Funct3And {
        ExecAndi(insn);
      } else {
        var f7 := Funct7(insn);
        if f7 == Funct7Srl {
          ExecSrli(insn);
        } else if f7 == Funct7Sra {
          ExecSrai(insn);
        } else {
          ExecIllegalInsn(insn);
        }
      }
    }

    method ExecAluReg(insn: bv32)
      requires Valid()
      modifies this, regs
      ensures Valid() && Abs() == HartSpec.ExecAluReg(old(Abs()), insn)
    {
      var f3 := Funct3(insn);
      var f7 := Funct7(insn);
      if f3 == Funct3Add {
        if f7 == Funct7Add {
          ExecAdd(insn);
        } else if f7 == Funct7Sub {
          ExecSub(insn);
        } else {
          ExecIllegalInsn(insn);
        }
      } else if f3 == Funct3Sll {
        ExecSll(insn);
      } else if f3 == Funct3Slt {
        ExecSlt(insn);
      } else if f3 == Funct3Sltu {
        ExecSltu(insn);
      } else if f3 == Funct3Xor {
        ExecXor(insn);
      } else if f3 == Funct3Or {
        ExecOr(insn);
      } else if f3 == Funct3And {
        ExecAnd(insn);
      } else if f7 == Funct7Sra {
        ExecSra(insn);
      } else if f7 == Funct7Srl {
        ExecSrl(insn);
      } else {
        ExecIllegalInsn(insn);
      }
    }

    /** ebreak by its whole word, then csrrs by funct3; everything else in
        the SYSTEM group is illegal. */
    method ExecSystem(insn: bv32)
      requires Valid()
      modifies this, regs
      ensures Valid() && Abs() == HartSpec.ExecSystem(old(Abs()), insn)
    {
      if insn == InsnEbreak {
        ExecEbreak(insn);
      } else if Funct3(insn) == Funct3Csrrs {
        ExecCsrrs(insn);
      } else {
        ExecIllegalInsn(insn);
      }
    }

    // -------------------------------------------------------------------
    // The handlers

    method ExecIllegalInsn(insn: bv32)
      requires Valid()
      modifies this
      ensures Valid() && Abs() == HartSpec.ExecIllegal(old(Abs()), insn)
    {
      halt := true;
      haltReason := HartSpec.ReasonIllegal;
    }

    /** regs.set(rd, val); pc += 4: the tail every register-writing handler
        shares. */
    method WriteRd(insn: bv32, val: bv32)
      requires Valid()
      modifies this, regs
      ensures Valid() && Abs() == HartSpec.WriteRd(old(Abs()), insn, val)
    {
      regs.Set(HartSpec.RdIx(insn), val);
      pc := Add32(pc, 4);
    }

    method ExecLui(insn: bv32)
      requires Valid()
      modifies this, regs
      ensures Valid() && Abs() == HartSpec.ExecLui(old(Abs()), insn)
    {
      WriteRd(insn, ImmU(insn));
    }

    method ExecAuipc(insn: bv32)
      requires Valid()
      modifies this, regs
      ensures Valid() && Abs() == HartSpec.ExecAuipc(old(Abs()), insn)
    {
      WriteRd(insn, Add32(pc, ImmU(insn)));
    }

    method ExecJal(insn: bv32)
      requires Valid()
      modifies this, regs
      ensures Valid() && Abs() == HartSpec.ExecJal(old(Abs()), insn)
    {
      var target := Add32(pc, ImmJ(insn));
      regs.Set(HartSpec.RdIx(insn), Add32(pc, 4));
      pc := target;
    }

    /** The target is taken from rs1 before rd is written. */
    method ExecJalr(insn: bv32)
      requires Valid()
      modifies this, regs
      ensures Valid() && Abs() == HartSpec.ExecJalr(old(Abs()), insn)
    {
      var target := ClearBit0(Add32(ImmI(insn), regs.Get(HartSpec.Rs1Ix(insn))));
      regs.Set(HartSpec.RdIx(insn), Add32(pc, 4));
      pc := target;
    }

    /** pc += cond ? imm_b : 4. */
    method Branch(insn: bv32, cond: bool)
      requires Valid()
      modifies this
      ensures Valid() && Abs() == HartSpec.Branch(old(Abs()), insn, cond)
    {
      pc := Add32(pc, if cond then ImmB(insn) else 4);
    }

    method ExecBeq(insn: bv32)
      requires Valid()
      modifies this
      ensures Valid() && Abs() == HartSpec.ExecBeq(old(Abs()), insn)
    {
      var rs1, rs2 := regs.Get(HartSpec.Rs1Ix(insn)), regs.Get(HartSpec.Rs2Ix(insn));
      Branch(insn, rs1 == rs2);
    }

    method ExecBne(insn: bv32)
      requires Valid()
      modifies this
      ensures Valid() && Abs() == HartSpec.ExecBne(old(Abs()), insn)
    {
      var rs1, rs2 := regs.Get(HartSpec.Rs1Ix(insn)), regs.Get(HartSpec.Rs2Ix(insn));
      Branch(insn, rs1 != rs2);
    }

    method ExecBlt(insn: bv32)
      requires Valid()
      modifies this
      ensures Valid() && Abs() == HartSpec.ExecBlt(old(Abs()), insn)
    {
      var rs1, rs2 := regs.Get(HartSpec.Rs1Ix(insn)), regs.Get(HartSpec.Rs2Ix(insn));
      Branch(insn, ToSigned(rs1) < ToSigned(rs2));
    }

    method ExecBge(insn: bv32)
      requires Valid()
      modifies this
      ensures Valid() && Abs() == HartSpec.ExecBge(old(Abs()), insn)
    {
      var rs1, rs2 := regs.Get(HartSpec.Rs1Ix(insn)), regs.Get(HartSpec.Rs2Ix(insn));
      Branch(insn, ToSigned(rs1) >= ToSigned(rs2));
    }

    method ExecBltu(insn: bv32)
      requires Valid()
      modifies this
      ensures Valid() && Abs() == HartSpec.ExecBltu(old(Abs()), insn)
    {
      var rs1, rs2 := regs.Get(HartSpec.Rs1Ix(insn)), regs.Get(HartSpec.Rs2Ix(insn));
      var cond := Below(rs1, rs2);
      Branch(insn, cond);
    }

    method ExecBgeu(insn: bv32)
      requires Valid()
      modifies this
      ensures Valid() && Abs() == HartSpec.ExecBgeu(old(Abs()), insn)
    {
      var rs1, rs2 := regs.Get(HartSpec.Rs1Ix(insn)), regs.Get(HartSpec.Rs2Ix(insn));
      var cond := !Below(rs1, rs2);
      Branch(insn, cond);
    }

    /** rs1 + imm_i as a memory address. */
    function LoadAddress(insn: bv32): Address
      reads this, regs
      requires regs.Valid()
    {
      AsAddress(Add32(regs.Get(HartSpec.Rs1Ix(insn)), ImmI(insn)))
    }

    method ExecLb(insn: bv32)
      requires Valid()
      modifies this, regs
      ensures Valid() && Abs() == HartSpec.ExecLb(old(Abs()), insn)
    {
      WriteRd(insn, mem.Get8Sx(LoadAddress(insn)));
    }

    method ExecLh(insn: bv32)
      requires Valid()
      modifies this, regs
      ensures Valid() && Abs() == HartSpec.ExecLh(old(Abs()), insn)
    {
      WriteRd(insn, mem.Get16Sx(LoadAddress(insn)));
    }

    method ExecLw(insn: bv32)
      requires Valid()
      modifies this, regs
      ensures Valid() && Abs() == HartSpec.ExecLw(old(Abs()), insn)
    {
      WriteRd(insn, mem.Get32Sx(LoadAddress(insn)));
    }

    method ExecLbu(insn: bv32)
      requires Valid()
      modifies this, regs
      ensures Valid() && Abs() == HartSpec.ExecLbu(old(Abs()), insn)
    {
      WriteRd(insn, mem.Get8(LoadAddress(insn)) as bv32);
    }

    method ExecLhu(insn: bv32)
      requires Valid()
      modifies this, regs
      ensures Valid() && Abs() == HartSpec.ExecLhu(old(Abs()), insn)
    {
      WriteRd(insn, mem.Get16(LoadAddress(insn)) as bv32);
    }

    /** rs1 + imm_s as a memory address. */
    function StoreAddress(insn: bv32): Address
      reads this, regs
      requires regs.Valid()
    {
      AsAddress(Add32(regs.Get(HartSpec.Rs1Ix(insn)), ImmS(insn)))
    }

    method ExecSb(insn: bv32)
      requires Valid()
      modifies this, mem
      ensures Valid() && Abs() == HartSpec.ExecSb(old(Abs()), insn)
    {
      mem.Set8(StoreAddress(insn), LowByte(regs.Get(HartSpec.Rs2Ix(insn)) & 0xff));
      pc := Add32(pc, 4);
    }

    method ExecSh(insn: bv32)
      requires Valid()
      modifies this, mem
      ensures Valid() && Abs() == HartSpec.ExecSh(old(Abs()), insn)
    {
      mem.Set16(StoreAddress(insn), Low16(Mask16(regs.Get(HartSpec.Rs2Ix(insn)))));
      pc := Add32(pc, 4);
    }

    method ExecSw(insn: bv32)
      requires Valid()
      modifies this, mem
      ensures Valid() && Abs() == HartSpec.ExecSw(old(Abs()), insn)
    {
      mem.Set32(StoreAddress(insn), regs.Get(HartSpec.Rs2Ix(insn)));
      pc := Add32(pc, 4);
    }

    method ExecAddi(insn: bv32)
      requires Valid()
      modifies this, regs
      ensures Valid() && Abs() == HartSpec.ExecAddi(old(Abs()), insn)
    {
      WriteRd(insn, Add32(regs.Get(HartSpec.Rs1Ix(insn)), ImmI(insn)));
    }

    /** The amount is the whole imm_i, not masked. */
    method ExecSlli(insn: bv32)
      requires Valid()
      modifies this, regs
      ensures Valid() && Abs() == HartSpec.ExecSlli(old(Abs()), insn)
    {
      var rs1 := regs.Get(HartSpec.Rs1Ix(insn));
      var amount := ImmI(insn);
      WriteRd(insn, if amount < 32 then Shl(rs1, amount) else 0);
    }

    method ExecSlti(insn: bv32)
      requires Valid()
      modifies this, regs
      ensures Valid() && Abs() == HartSpec.ExecSlti(old(Abs()), insn)
    {
      var rs1 := regs.Get(HartSpec.Rs1Ix(insn));
      WriteRd(insn, if ToSigned(rs1) < ToSigned(ImmI(insn)) then 1 else 0);
    }

    method ExecSltiu(insn: bv32)
      requires Valid()
      modifies this, regs
      ensures Valid() && Abs() == HartSpec.ExecSltiu(old(Abs()), insn)
    {
      var rs1 := regs.Get(HartSpec.Rs1Ix(insn));
      WriteRd(insn, if Below(rs1, ImmI(insn)) then 1 else 0);
    }

    method ExecXori(insn: bv32)
      requires Valid()
      modifies this, regs
      ensures Valid() && Abs() == HartSpec.ExecXori(old(Abs()), insn)
    {
      WriteRd(insn, regs.Get(HartSpec.Rs1Ix(insn)) ^ ImmI(insn));
    }

    method ExecOri(insn: bv32)
      requires Valid()
      modifies this, regs
      ensures Valid() && Abs() == HartSpec.ExecOri(old(Abs()), insn)
    {
      WriteRd(insn, regs.Get(HartSpec.Rs1Ix(insn)) | ImmI(insn));
    }

    method ExecAndi(insn: bv32)
      requires Valid()
      modifies this, regs
      ensures Valid() && Abs() == HartSpec.ExecAndi(old(Abs()), insn)
    {
      WriteRd(insn, regs.Get(HartSpec.Rs1Ix(insn)) & ImmI(insn));
    }

    method ExecSrli(insn: bv32)
      requires Valid()
      modifies this, regs
      ensures Valid() && Abs() == HartSpec.ExecSrli(old(Abs()), insn)
    {
      WriteRd(insn, Shr(regs.Get(HartSpec.Rs1Ix(insn)), Low5(ImmI(insn))));
    }

    method ExecSrai(insn: bv32)
      requires Valid()
      modifies this, regs
      ensures Valid() && Abs() == HartSpec.ExecSrai(old(Abs()), insn)
    {
      WriteRd(insn, Sra(regs.Get(HartSpec.Rs1Ix(insn)), Low5(ImmI(insn))));
    }

    method ExecAdd(insn: bv32)
      requires Valid()
      modifies this, regs
      ensures Valid() && Abs() == HartSpec.ExecAdd(old(Abs()), insn)
    {
      WriteRd(insn, Add32(regs.Get(HartSpec.Rs1Ix(insn)), regs.Get(HartSpec.Rs2Ix(insn))));
    }

    method ExecSub(insn: bv32)
      requires Valid()
      modifies this, regs
      ensures Valid() && Abs() == HartSpec.ExecSub(old(Abs()), insn)
    {
      WriteRd(insn, Sub32(regs.Get(HartSpec.Rs1Ix(insn)), regs.Get(HartSpec.Rs2Ix(insn))));
    }

    method ExecSll(insn: bv32)
      requires Valid()
      modifies this, regs
      ensures Valid() && Abs() == HartSpec.ExecSll(old(Abs()), insn)
    {
      WriteRd(insn, Shl(regs.Get(HartSpec.Rs1Ix(insn)), Low5(regs.Get(HartSpec.Rs2Ix(insn)))));
    }

    method ExecSlt(insn: bv32)
      requires Valid()
      modifies this, regs
      ensures Valid() && Abs() == HartSpec.ExecSlt(old(Abs()), insn)
    {
      var rs1, rs2 := regs.Get(HartSpec.Rs1Ix(insn)), regs.Get(HartSpec.Rs2Ix(insn));
      WriteRd(insn, if ToSigned(rs1) < ToSigned(rs2) then 1 else 0);
    }

    method ExecSltu(insn: bv32)
      requires Valid()
      modifies this, regs
      ensures Valid() && Abs() == HartSpec.ExecSltu(old(Abs()), insn)
    {
      var rs1, rs2 := regs.Get(HartSpec.Rs1Ix(insn)), regs.Get(HartSpec.Rs2Ix(insn));
      var v: bv32 := if Below(rs1, rs2) then 1 else 0;
      WriteRd(insn, v);
    }

    method ExecXor(insn: bv32)
      requires Valid()
      modifies this, regs
      ensures Valid() && Abs() == HartSpec.ExecXor(old(Abs()), insn)
    {
      WriteRd(insn, regs.Get(HartSpec.Rs1Ix(insn)) ^ regs.Get(HartSpec.Rs2Ix(insn)));
    }

    method ExecOr(insn: bv32)
      requires Valid()
      modifies this, regs
      ensures Valid() && Abs() == HartSpec.ExecOr(old(Abs()), insn)
    {
      WriteRd(insn, regs.Get(HartSpec.Rs1Ix(insn)) | regs.Get(HartSpec.Rs2Ix(insn)));
    }

    method ExecAnd(insn: bv32)
      requires Valid()
      modifies this, regs
      ensures Valid() && Abs() == HartSpec.ExecAnd(old(Abs()), insn)
    {
      WriteRd(insn, regs.Get(HartSpec.Rs1Ix(insn)) & regs.Get(HartSpec.Rs2Ix(insn)));
    }

    method ExecSra(insn: bv32)
      requires Valid()
      modifies this, regs
      ensures Valid() && Abs() == HartSpec.ExecSra(old(Abs()), insn)
    {
      WriteRd(insn, Sra(regs.Get(HartSpec.Rs1Ix(insn)), Low5(regs.Get(HartSpec.Rs2Ix(insn)))));
    }

    method ExecSrl(insn: bv32)
      requires Valid()
      modifies this, regs
      ensures Valid() && Abs() == HartSpec.ExecSrl(old(Abs()), insn)
    {
      WriteRd(insn, Shr(regs.Get(HartSpec.Rs1Ix(insn)), Low5(regs.Get(HartSpec.Rs2Ix(insn)))));
    }

    method ExecEbreak(insn: bv32)
      requires Valid()
      modifies this
      ensures Valid() && Abs() == HartSpec.ExecEbreak(old(Abs()), insn)
    {
      halt := true;
      haltReason := HartSpec.ReasonEbreak;
    }

    /** Only mhartid, and only with rs1 = x0; anything else halts. */
    method ExecCsrrs(insn: bv32)
      requires Valid()
      modifies this, regs
      ensures Valid() && Abs() == HartSpec.ExecCsrrs(old(Abs()), insn)
    {
      var csr := ImmI(insn) & 0xfff;
      if csr != HartSpec.CsrMhartid || Rs1(insn) != 0 {
        halt := true;
        haltReason := HartSpec.ReasonCsr;
        return;
      }
      WriteRd(insn, mhartid);
    }
  }
}
