# RV32I single-hart simulator, modelled in Dafny

This project models the core of a simulator for one RISC-V RV32I hart. The
simulator has six parts:

- a disassembler that turns each 32-bit instruction word into a line of text;
- a hart that executes the base integer instructions, plus ebreak and a
  read of `mhartid` through csrrs;
- a little-endian byte-addressed memory whose size is rounded up to a
  multiple of 16;
- a register file with x0 hard-wired to zero;
- the hex formatters the listing uses;
- the run loop that seeds the stack pointer and ticks the hart.

The project has these modules:

- `Word` (word.dfy): 32-bit words as the C++ sees them. `uint32_t` and
  `int32_t` values are `bv32`, sums wrap modulo 2^32, and `ToSigned` gives the
  signed reading. A memory address is the newtype `Address` (0 .. 2^32-1).
  `SignShift` is the arithmetic right shift done one bit at a time, the
  reference that `Sra` (`int32_t >> n`) is proved equal to.
- `Fields` (fields.dfy): the field extractors and the five immediate
  decoders, with the opcode and funct values of the RV32I base instruction
  set, taken from chapter 24 of the RISC-V Unprivileged ISA, "RV32/64G
  Instruction Set Listings".
- `Hex` (hex.dfy) and `Text` (text.dfy): the formatters. `Hex` covers
  `to_hex8`, `to_hex32`, `to_hex0x32`, `to_hex0x20` and `to_hex0x12`, stated
  as zero-padding of the shortest hex spelling. `Text` covers signed decimals
  and left-justified padding as `operator<<` prints them.
- `Decoder` (decode.dfy): `decode` and every `render_*` helper, as pure
  functions returning strings.
- `Listing` (listing.dfy): whole disassembly lines. Split at its commas, a
  branch, load, store, ALU-immediate or R-type line gives back the padded
  mnemonic and operands that read as the fields of the word.
- `Regs` (registerfile.dfy): the register file, as a class whose `regs`
  vector is updated in place. The class is specified by functions on
  `seq<bv32>`.
- `Mem` (memory.dfy): the memory.
  - Reads are pure functions on `seq<bv8>`.
  - The class `Memory` updates its byte vector in place through `Set8`,
    `Set16` and `Set32`, each proved equal to the matching store function.
- `HartSpec` (hart_spec.dfy): one step of the hart as functions on a value
  `State` (pc, instruction counter, halt flag and reason, registers, memory,
  mhartid). This covers `tick`, `reset`, the `exec` dispatch and every
  `exec_*` handler.
- `Machine` (hart.dfy): the hart object.
  - Its fields are `pc`, `insnCounter`, `halt` and `haltReason`.
  - It holds a `RegisterFile` and a `Memory`.
  - Every method updates them in place and ensures that the new state is the
    `HartSpec` function applied to the old state.
- `HartProps` (hart_props.dfy): what the handlers promise, proved about
  `HartSpec`. It covers dispatch, frames, branch conditions, jumps, shifts,
  halting and reset.
- `Cpu` (cpu_single_hart.dfy): `run`.
  - It seeds x2 with the memory size.
  - It then ticks until the hart halts or the counter reaches the limit.
  - The loop is bounded by a `fuel` count, and `FuelIrrelevant` shows the
    bound does not change the result of a run that stops.
- `Agreement` (agreement.dfy): how the disassembler and the hart relate.
  - Every word the listing marks as an error halts the hart as illegal.
  - The jump and branch targets printed are the ones the hart takes.
  - The converse of the first fact fails for ecall.

Each class method is proved against a specification function. The
properties are lemmas about those functions, so they hold of the objects.

## Model

| member | source | states |
|---|---|---|
| Word.AddrAdd | memory.cpp:144 | address arithmetic `addr + k` is the mathematical sum modulo 2^32: exact when it fits in 32 bits, wrapped otherwise |
| Word.Add32Comm | rv32i_decode.cpp:476 | `imm + addr` and `addr + imm` modulo 2^32 are the same word, so the printed and the executed target coincide |
| Word.Low5 | rv32i_hart.cpp:1330 | the mask `imm_i & 0x1f` always yields a shift amount below 32 |
| Word.ClearBit0 | rv32i_hart.cpp:401 | the jalr target mask leaves bit 0 clear |
| Word.ClearBit0Keeps | rv32i_hart.cpp:401 | the jalr target mask keeps every bit above bit 0 |
| Word.ToSigned | rv32i_hart.cpp:505-537 | the int32_t reading of a word lies in [-2^31, 2^31) and is negative exactly when bit 31 is set |
| Word.ToSigned8 | memory.cpp:196-200 | the int8_t reading of a byte lies in [-128, 128) and is negative exactly when bit 7 is set |
| Word.ToSigned16 | memory.cpp:212-216 | the int16_t reading of a half-word lies in [-32768, 32768) and is negative exactly when bit 15 is set |
| Word.SraSpec | rv32i_hart.cpp:1371-1374 | the arithmetic right shift of an int32_t keeps its sign and equals the logical shift on non-negative values |
| Word.SraIsSignShift | rv32i_hart.cpp:1371-1374 | `int32_t >> n` equals shifting right one bit n times, copying the sign bit into bit 31 each time: every vacated bit is the sign, the rest are the bits of x moved down by n |
| Word.SraAllOnes | rv32i_hart.cpp:1371-1374 | -1 shifted right arithmetically by any amount below 32 is still -1 |
| Fields.FieldsExact | rv32i_decode.cpp:195-265 | opcode = insn & 0x7f, rd = (insn>>7)&0x1f, funct3 = (insn>>12)&7, rs1 = (insn>>15)&0x1f, rs2 = (insn>>20)&0x1f, funct7 = insn>>25, and the six fields rebuild the word |
| Fields.ImmILayout | rv32i_decode.cpp:274-287 | imm_i holds bits [31:20] in its low 12 bits and copies bit 31 into every higher bit |
| Fields.ImmIRange | rv32i_decode.cpp:274-287 | imm_i as an int32_t lies in [-2048, 2047] and is negative exactly when bit 31 of the word is set |
| Fields.ImmSLayout | rv32i_decode.cpp:340-356 | imm_s takes bits 4:0 from [11:7] and bits 11:5 from [31:25], sign-extended from bit 31 |
| Fields.ImmSRange | rv32i_decode.cpp:340-356 | imm_s lies in [-2048, 2047] and is negative exactly when bit 31 is set |
| Fields.ImmBLayout | rv32i_decode.cpp:309-331 | imm_b is even, takes bits 4:1 from [11:8], 10:5 from [30:25], 11 from [7], and copies bit 31 into bits 31:12 |
| Fields.ImmBRange | rv32i_decode.cpp:309-331 | imm_b lies in [-4096, 4094] and is negative exactly when bit 31 is set |
| Fields.ImmJLayout | rv32i_decode.cpp:365-387 | imm_j is even, takes bits 10:1 from [30:21], 11 from [20], 19:12 from [19:12], and copies bit 31 into bits 31:20 |
| Fields.ImmJRange | rv32i_decode.cpp:365-387 | imm_j lies in [-2^20, 2^20 - 2] and is negative exactly when bit 31 is set |
| Fields.ImmUShape | rv32i_decode.cpp:296-300 | imm_u is the word with its low 12 bits cleared, and putting those bits back gives the word |
| Regs.RegSet | registerfile.cpp:48-55 | a write keeps the register vector's length |
| Regs.Initial | registerfile.cpp:27-40 | the register vector after reset has 32 slots and x0 = 0 |
| Regs.Resize | registerfile.cpp:30 | `resize(32)` yields 32 slots, keeps the existing prefix and fills new slots with 0 |
| Regs.RegisterFile.constructor | registerfile.cpp:18-21 | a new register file is in the reset state |
| Regs.RegisterFile.Reset | registerfile.cpp:27-40 | from any reachable vector (empty, or slot 0 holding 0) reset leaves exactly the reset vector, so it is idempotent, and the `set(regs.at(0), 0)` write is harmless |
| Regs.RegisterFile.Set | registerfile.cpp:48-55 | set updates the vector in place to the `RegSet` result |
| Regs.GetZero | registerfile.cpp:63-67 | get(0) is 0 whatever the vector holds |
| Regs.SetGet | registerfile.cpp:48-67 | after set(r, v), get(q) is v when q = r != 0 and unchanged otherwise, and set(0, v) changes nothing |
| Regs.SetKeepsWellformed | registerfile.cpp:33 | slot 0 is never written, so x0 stays 0 and get(r) is slot r |
| Regs.InitialValues | registerfile.cpp:27-40 | after reset x0 is 0 and x1..x31 read 0xf0f0f0f0 (as int32_t, -252645136) |
| Mem.Store8 | memory.cpp:243-252 | set8 never changes the memory size |
| Mem.Store16 | memory.cpp:263-269 | set16 never changes the memory size |
| Mem.Store32 | memory.cpp:280-286 | set32 never changes the memory size |
| Mem.Memory.constructor | memory.cpp:31-41 | a new memory has the rounded size and every byte is 0xa5 |
| Mem.Memory.Set8 | memory.cpp:243-252 | set8 updates the vector in place to the `Store8` result |
| Mem.Memory.Set16 | memory.cpp:263-269 | set16 updates the vector in place to the `Store16` result |
| Mem.Memory.Set32 | memory.cpp:280-286 | set32 updates the vector in place to the `Store32` result |
| Mem.RoundedSizeSpec | memory.cpp:31-41 | (s + 15) & 0xfffffff0 is a multiple of 16, is the least one not below s, and wraps to 0 for s > 0xfffffff0 |
| Mem.Store8Load8 | memory.cpp:243-252 | set8 changes the byte at addr when addr < size and no other byte; out of range it changes nothing |
| Mem.Load8OutOfRange | memory.cpp:99-107 | an out-of-range get8 (and get8_sx, and the low byte of get16) reads 0 |
| Mem.RoundTrip8 | memory.cpp:243-252 | a byte written in range reads back |
| Mem.RoundTrip16 | memory.cpp:263-269 | a half-word written with a+1 < size reads back |
| Mem.Frame16 | memory.cpp:263-269 | a half-word store leaves a disjoint half-word below it unchanged |
| Mem.RoundTrip32 | memory.cpp:280-286 | a word written with a+3 < size reads back |
| Mem.Store32Bytes | memory.cpp:263-286 | set32 writes byte k of the value at a+k (mod 2^32) when that address is in range and leaves every other byte alone, so a store straddling the end writes only the in-range part |
| Mem.Store32Unfold | memory.cpp:263-286 | set32 is four byte stores at a, a+1, a+2, a+3 |
| Mem.Load32Bytes | memory.cpp:122-183 | get32 is the little-endian word of the bytes at a .. a+3 (mod 2^32) |
| Mem.Load8SxValue | memory.cpp:196-200 | get8_sx returns the int8_t value of the byte |
| Mem.SignExtendByte | memory.cpp:196-200 | sign-extending a byte preserves its int8_t value |
| Mem.Load16SxValue | memory.cpp:212-216 | get16_sx keeps the half-word in its low 16 bits and copies bit 15 above, so it is negative exactly when bit 15 is set |
| Hex.DigitRoundTrip | hex.cpp:25-89 | every digit std::hex prints is a lower-case hex digit that reads back as its value |
| Hex.Zeros | hex.cpp:25-89 | the fill has exactly the requested number of characters |
| Hex.DigitsValue | hex.cpp:25-89 | the shortest hex spelling of n reads back as n |
| Hex.DigitsLength | hex.cpp:69-89 | n needs at most k digits exactly when n < 16^k |
| Hex.ZeroPadSpec | hex.cpp:25-89 | setfill('0') << setw(w) pads to max(len, w) characters, never truncates, and keeps the value |
| Hex.PaddedDigits | hex.cpp:25-89 | the padded spelling of n has max(w, digits) characters and reads back as n |
| Hex.ToHex8Spec | hex.cpp:25-30 | to_hex8 is exactly 2 lower-case hex digits whose value is i |
| Hex.ToHex32Spec | hex.cpp:40-45 | to_hex32 is exactly 8 lower-case zero-padded hex digits whose value is i |
| Hex.ToHex0x32Spec | hex.cpp:56-59 | to_hex0x32 is "0x" followed by to_hex32, and the digits read back as i |
| Hex.ToHex0x20Spec | hex.cpp:69-74 | to_hex0x20 is "0x" and exactly 5 digits iff i < 2^20, never fewer, never truncated, and reads back as i |
| Hex.ToHex0x12Spec | hex.cpp:84-89 | to_hex0x12 is "0x" and exactly 3 digits iff i < 2^12, never fewer, never truncated, and reads back as i |
| Text.DecimalValueOf | rv32i_decode.cpp:749-755 | the decimal spelling of n is non-empty digits that read back as n |
| Text.IntTextRoundTrip | rv32i_decode.cpp:766-772 | a printed int32_t starts with '-' exactly when negative and parses back to the same int |
| Text.PadRightSpec | rv32i_decode.cpp:781-787 | setw(w) << left keeps the text as a prefix, pads to at least w characters and adds only spaces |
| Decoder.RenderMnemonic | rv32i_decode.cpp:781-787 | the mnemonic column starts with the mnemonic and is no shorter |
| Decoder.MnemonicColumn | rv32i_decode.cpp:781-787 | the mnemonic is padded with spaces to mnemonic_width (8) and never truncated |
| Decoder.RegText | rv32i_decode.cpp:749-755 | a register renders as 'x' followed by decimal digits that read back as its number, so it holds no comma or parenthesis |
| Decoder.BaseDispText | rv32i_decode.cpp:766-772 | base+displacement renders as the signed decimal displacement, then the base register in parentheses |
| Decoder.LeadingLetter | rv32i_decode.cpp:781-787 | a line built from a mnemonic starts with the mnemonic's first letter |
| Decoder.NotErrorText | rv32i_decode.cpp:401-404 | text not starting with 'E' is never the error text |
| Decoder.BranchErrorIff | rv32i_decode.cpp:52-66 | a B-type word renders as the error text exactly when funct3 is 2 or 3 |
| Decoder.LoadErrorIff | rv32i_decode.cpp:68-80 | a load renders as the error text exactly when funct3 is 3, 6 or 7 |
| Decoder.StoreErrorIff | rv32i_decode.cpp:82-92 | a store renders as the error text exactly when funct3 > 2 |
| Decoder.ItypeAluNotError | rv32i_decode.cpp:603-618 | an I-type ALU line is never the error text |
| Decoder.RtypeNotError | rv32i_decode.cpp:628-646 | an R-type line is never the error text |
| Decoder.AluImmErrorIff | rv32i_decode.cpp:94-117 | an ALU-immediate word renders as the error text exactly when funct3 = 5 with a funct7 other than srl/sra; slli ignores funct7 |
| Decoder.AluRegErrorIff | rv32i_decode.cpp:119-150 | an R-type word renders as the error text exactly when add/sub or srl/sra meet an unknown funct7; the other funct3 ignore funct7 |
| Decoder.SystemErrorIff | rv32i_decode.cpp:152-174 | a SYSTEM word other than the ebreak/ecall literals renders as the error text exactly when funct3 is 0 or 4 |
| Decoder.DecodeErrorIff | rv32i_decode.cpp:29-179 | decode is total, and it yields "ERROR: UNIMPLEMENTED INSTRUCTION" exactly for the words outside `Recognized` (every unmatched opcode, funct3 or funct7) |
| Decoder.SystemLiterals | rv32i_decode.cpp:152-158 | the literal ebreak and ecall words render as "ebreak" and "ecall" with no padding |
| Decoder.JalTarget | rv32i_decode.cpp:463-479 | a jal line ends with "0x" and 8 hex digits whose value is (addr + imm_j) mod 2^32 |
| Decoder.BranchTarget | rv32i_decode.cpp:517-536 | a branch line ends with "0x" and 8 hex digits whose value is (addr + imm_b) mod 2^32 |
| Decoder.UpperFieldIsTop | rv32i_decode.cpp:425 | (imm_u >> 12) & 0xfffff, computed on int32_t, is insn >> 12 |
| Decoder.UpperText | rv32i_decode.cpp:413-453 | lui and auipc lines end with "0x" and exactly 5 hex digits whose value is insn >> 12 |
| Decoder.ShiftAmountIsRs2 | rv32i_decode.cpp:603-618 | the shift amount printed for slli/srli/srai is the rs2 field |
| Decoder.ShiftText | rv32i_decode.cpp:94-117 | slli, srli and srai lines end with ",", then the decimal shift amount 0..31; funct7 and the sign of imm_i do not show |
| Decoder.ItypeAluSuffix | rv32i_decode.cpp:603-618 | an ALU-immediate line ends with a comma and the signed decimal immediate |
| Decoder.CsrText | rv32i_decode.cpp:688-735 | the CSR field renders as "0x" and exactly 3 hex digits of the low 12 bits of imm_i |
| Listing.BranchMnemonic | rv32i_decode.cpp:52-66 | a recognised branch word prints beq, bne, blt, bge, bltu or bgeu by funct3 |
| Listing.LoadMnemonic | rv32i_decode.cpp:68-80 | a recognised load word prints lb, lh, lw, lbu or lhu by funct3 |
| Listing.StoreMnemonic | rv32i_decode.cpp:82-92 | a recognised store word prints sb, sh or sw by funct3 |
| Listing.AluImmMnemonic | rv32i_decode.cpp:94-117 | an ALU-immediate word prints its mnemonic (srai for funct3 5 with funct7 0x20) and, for the shifts, the shamt field as its amount |
| Listing.AluRegMnemonic | rv32i_decode.cpp:119-150 | an R-type word prints its mnemonic by funct3, with sub and sra for funct7 0x20 |
| Listing.IntPiece | rv32i_decode.cpp:766-772 | a signed immediate is an optional '-' and decimal digits that parse back to it, with no comma or parenthesis |
| Listing.BaseDispPiece | rv32i_decode.cpp:766-772 | read with the splitter, "disp(xN)" splits at '(' into a signed decimal equal to the displacement and a register equal to the base, and holds no comma |
| Listing.AddressPiece | hex.cpp:56-59 | a target address is "0x" and 8 hex digits whose value is the address |
| Listing.ColumnPiece | rv32i_decode.cpp:781-787 | the mnemonic column is the mnemonic then spaces up to column 8, and the first operand starts at column 8 |
| Listing.BtypeText | rv32i_decode.cpp:517-536 | a branch line splits at its commas into the mnemonic column with rs1, then rs2, then the target (addr + imm_b) mod 2^32 |
| Listing.ItypeLoadText | rv32i_decode.cpp:546-564 | a load line splits at its comma into the mnemonic column with rd, then imm_i(rs1) |
| Listing.StypeText | rv32i_decode.cpp:574-592 | a store line splits at its comma into the mnemonic column with rs2, then imm_s(rs1) |
| Listing.ItypeAluText | rv32i_decode.cpp:603-618 | an ALU-immediate line splits at its commas into the mnemonic column with rd, then rs1, then the immediate |
| Listing.RtypeText | rv32i_decode.cpp:628-646 | an R-type line splits at its commas into the mnemonic column with rd, then rs1, then rs2 |
| Listing.BranchLine | rv32i_decode.cpp:52-66 | every recognised branch word disassembles to a whole line that reads back as its mnemonic, rs1, rs2 and target |
| Listing.LoadLine | rv32i_decode.cpp:68-80 | every recognised load word disassembles to a whole line that reads back as its mnemonic, rd, displacement and base |
| Listing.StoreLine | rv32i_decode.cpp:82-92 | every recognised store word disassembles to a whole line that reads back as its mnemonic, rs2, displacement and base |
| Listing.AluImmLine | rv32i_decode.cpp:94-117 | every recognised ALU-immediate word disassembles to a whole line that reads back as its mnemonic, rd, rs1 and immediate |
| Listing.AluRegLine | rv32i_decode.cpp:119-150 | every recognised R-type word disassembles to a whole line that reads back as its mnemonic, rd, rs1 and rs2 |
| Listing.Examples | rv32i_decode.cpp:29-179 | 0x00000013 disassembles to "addi    x0,x0,0" and 0x0050a023 to "sw      x5,0(x1)" |
| HartSpec.RdIx | rv32i_decode.cpp:208-212 | the rd field always names one of the 32 registers, so `regs.set(rd, ...)` never throws |
| HartSpec.Rs1Ix | rv32i_decode.cpp:234-238 | the rs1 field always names one of the 32 registers, so `regs.get(rs1)` never throws |
| HartSpec.Rs2Ix | rv32i_decode.cpp:247-251 | the rs2 field always names one of the 32 registers, so `regs.get(rs2)` never throws |
| HartSpec.Counted | rv32i_hart.cpp:41-42 | counting an instruction keeps the registers and memory well-formed |
| HartProps.WriteRdFrame | rv32i_hart.cpp:276-300 | `regs.set(rd, v); pc += 4` writes only rd (nothing for x0) and moves pc by 4 |
| HartProps.BranchKeeps | rv32i_hart.cpp:129-144 | a branch keeps the registers well-formed, the counter, mhartid and the memory size |
| HartProps.LoadKeeps | rv32i_hart.cpp:145-158 | a load keeps the counter, mhartid and the memory size, and x0 stays 0 |
| HartProps.StoreKeeps | rv32i_hart.cpp:159-170 | a store keeps the counter, mhartid and the memory size, and x0 stays 0 |
| HartProps.AluImmKeeps | rv32i_hart.cpp:171-195 | an ALU-immediate instruction keeps the counter, mhartid and the memory size, and x0 stays 0 |
| HartProps.AluRegKeeps | rv32i_hart.cpp:196-228 | an R-type instruction keeps the counter, mhartid and the memory size, and x0 stays 0 |
| HartProps.SystemKeeps | rv32i_hart.cpp:229-243 | a SYSTEM instruction keeps the counter, mhartid and the memory size, and x0 stays 0 |
| HartProps.ExecKeeps | rv32i_hart.cpp:104-244 | no instruction breaks x0, resizes memory, or touches the counter or mhartid |
| HartProps.UpperWritesRd | rv32i_hart.cpp:276-335 | lui writes imm_u and auipc writes pc + imm_u into rd only, and pc moves by 4 |
| HartProps.LoadWritesRd | rv32i_hart.cpp:665-884 | the five loads write only rd and move pc by 4 |
| HartProps.AluImmWritesRd | rv32i_hart.cpp:1028-1392 | every ALU-immediate instruction the dispatch accepts writes only rd and moves pc by 4 |
| HartProps.AluRegWritesRd | rv32i_hart.cpp:1400-1788 | every R-type instruction the dispatch accepts writes only rd and moves pc by 4 |
| HartProps.CsrrsReadsMhartid | rv32i_hart.cpp:1819-1854 | csrrs of CSR 0xf14 with rs1 = x0 copies mhartid into rd, moves pc by 4 and does not halt |
| HartProps.StoreWritesMemory | rv32i_hart.cpp:892-1020 | sb/sh/sw change only memory (registers untouched) and move pc by 4 |
| HartProps.DispatchBranch | rv32i_hart.cpp:129-144 | the B-type opcode selects the branch switch |
| HartProps.DispatchJal | rv32i_hart.cpp:122 | the jal opcode selects exec_jal |
| HartProps.DispatchJalr | rv32i_hart.cpp:126 | the jalr opcode selects exec_jalr, whatever funct3 is |
| HartProps.DispatchLoad | rv32i_hart.cpp:145-158 | the load opcode selects the load switch |
| HartProps.DispatchStore | rv32i_hart.cpp:159-170 | the store opcode selects the store switch |
| HartProps.DispatchAluImm | rv32i_hart.cpp:171-195 | the ALU-immediate opcode selects its switch |
| HartProps.DispatchAluReg | rv32i_hart.cpp:196-228 | the R-type opcode selects its switch |
| HartProps.DispatchSystem | rv32i_hart.cpp:229-243 | the SYSTEM opcode selects its switch |
| HartProps.BranchCondition | rv32i_hart.cpp:427-657 | each known funct3 picks the condition `Taken` names: equality for beq/bne, int32_t order for blt/bge, uint32_t order for bltu/bgeu |
| HartProps.BranchEquality | rv32i_hart.cpp:427-497 | beq and bne branch on equality and inequality of rs1 and rs2 |
| HartProps.BranchSigned | rv32i_hart.cpp:505-577 | blt and bge compare rs1 and rs2 as int32_t |
| HartProps.BranchBltu | rv32i_hart.cpp:585-617 | bltu compares rs1 and rs2 as uint32_t |
| HartProps.BranchBgeu | rv32i_hart.cpp:625-657 | bgeu compares rs1 and rs2 as uint32_t |
| HartProps.BranchDefault | rv32i_hart.cpp:130-133 | funct3 2 and 3 reach the switch's default, which halts and then falls into beq |
| HartProps.BranchStep | rv32i_hart.cpp:427-657 | a known branch sets pc to pc + (cond ? imm_b : 4) mod 2^32 and changes nothing else |
| HartProps.BranchFallThrough | rv32i_hart.cpp:130-133 | funct3 2 or 3 halts with "Illegal instruction" and still performs beq, so pc can change; registers and memory stay |
| HartProps.SignedVersusUnsigned | rv32i_hart.cpp:505-617 | blt and bltu (and bge and bgeu) disagree on -1 against 0 |
| HartProps.JalStep | rv32i_hart.cpp:344-375 | jal writes the old pc + 4 into rd and jumps to pc + imm_j |
| HartProps.JalrStep | rv32i_hart.cpp:383-419 | jalr writes pc + 4 into rd and jumps to (rs1 + imm_i) & ~1 computed from rs1 before the write, so rd = rs1 is handled; the target is even |
| HartProps.LinkFrame | rv32i_hart.cpp:344-419 | a link writes pc + 4 into rd (nothing for x0), sets pc to the target and changes nothing else |
| HartProps.IllegalHalts | rv32i_hart.cpp:253-268 | every word outside `Executable` halts with "Illegal instruction"; apart from the B-type fall-through, pc, registers and memory stay |
| HartProps.ExecutableReason | rv32i_hart.cpp:104-244 | an executable word never sets "Illegal instruction": the reason stays or becomes the ebreak or CSR reason |
| HartProps.LoadReason | rv32i_hart.cpp:665-884 | a known load leaves the halt reason alone |
| HartProps.AluImmReason | rv32i_hart.cpp:1028-1392 | a known ALU-immediate instruction leaves the halt reason alone |
| HartProps.AluRegReason | rv32i_hart.cpp:1400-1788 | a known R-type instruction leaves the halt reason alone |
| HartProps.IllegalIff | rv32i_hart.cpp:104-268 | from a state not already halted as illegal, exec halts as illegal exactly for the words outside `Executable`, ecall and the other CSR forms included |
| HartProps.EbreakHalts | rv32i_hart.cpp:1797-1810 | ebreak halts with "EBREAK instruction" and leaves pc, registers and memory as they were |
| HartProps.CsrrsIllegal | rv32i_hart.cpp:1819-1854 | csrrs of any CSR but 0xf14, or with rs1 != x0, halts with "Illegal CSR in CSRRS instruction" and changes nothing else |
| HartProps.ShamtIsRs2 | rv32i_hart.cpp:1330 | the amount `imm_i & 0x1f` that srli uses (and srai at 1371-1374) is the shamt field, bits 24:20 |
| HartProps.SrliStep | rv32i_hart.cpp:1315-1348 | srli writes rs1 shifted right logically by shamt |
| HartProps.SraiStep | rv32i_hart.cpp:1356-1392 | srai writes into rd rs1 shifted right by shamt with every vacated bit a copy of the sign bit (`SignShift`), keeping its sign, and equal to srli on non-negative values |
| HartProps.ShiftRegStep | rv32i_hart.cpp:1478-1788 | sll, srl and sra shift by the low five bits of rs2's value |
| HartProps.SraKeepsSign | rv32i_hart.cpp:1714-1747 | sra writes into rd rs1 shifted right by the low five bits of rs2 with every vacated bit a copy of the sign bit (`SignShift`), so rd has the sign of rs1 |
| HartProps.SlliStep | rv32i_hart.cpp:1069-1102 | with funct7 zero, slli shifts left by shamt |
| HartProps.SlliWideAmount | rv32i_hart.cpp:1084 | slli does not mask its amount: 0x40109093 has shamt 1 but reaches `s_rs1 << imm_i` with imm_i = 0x401; that shift is undefined in C++, and the model writes 0 into x1 |
| HartProps.StoreWordLoadWord | rv32i_hart.cpp:982-1020 | sw followed by lw from the same in-range address loads the stored word |
| HartProps.TickMisaligned | rv32i_hart.cpp:33-39 | a misaligned pc halts with "PC alignment error" and leaves pc, the counter, the registers and memory unchanged |
| HartProps.TickCounts | rv32i_hart.cpp:25-63 | tick keeps the state well-formed and raises the counter by exactly 1 when pc is aligned; halt is not consulted |
| HartProps.ResetState | rv32i_hart.cpp:85-93 | reset gives pc = 0, counter 0, no halt, reason "none" and the reset register file; memory and mhartid stay |
| HartProps.ResetIdempotent | rv32i_hart.cpp:85-93 | a second reset changes nothing |
| Machine.Hart.constructor | rv32i_hart.cpp:85-93 | a new hart on a memory is in the reset state with a fresh register file |
| Machine.Hart.Tick | rv32i_hart.cpp:25-63 | tick updates the hart in place to `HartSpec.Tick` of its old state |
| Machine.Hart.Reset | rv32i_hart.cpp:85-93 | reset updates the hart in place to `HartSpec.Reset` of its old state |
| Machine.Hart.Exec | rv32i_hart.cpp:104-244 | exec updates the hart in place to `HartSpec.Exec` |
| Machine.Hart.ExecBranch | rv32i_hart.cpp:129-144 | the B-type switch, proved against `HartSpec.ExecBranch` |
| Machine.Hart.ExecLoad | rv32i_hart.cpp:145-158 | the load switch, proved against `HartSpec.ExecLoad` |
| Machine.Hart.ExecStore | rv32i_hart.cpp:159-170 | the store switch, proved against `HartSpec.ExecStore` |
| Machine.Hart.ExecAluImm | rv32i_hart.cpp:171-195 | the ALU-immediate switch, proved against `HartSpec.ExecAluImm` |
| Machine.Hart.ExecAluReg | rv32i_hart.cpp:196-228 | the R-type switch, proved against `HartSpec.ExecAluReg` |
| Machine.Hart.ExecSystem | rv32i_hart.cpp:229-243 | the SYSTEM switch, proved against `HartSpec.ExecSystem` |
| Machine.Hart.ExecIllegalInsn | rv32i_hart.cpp:253-268 | halts with "Illegal instruction" in place |
| Machine.Hart.WriteRd | rv32i_hart.cpp:295-299 | `regs.set(rd, v); pc += 4` in place |
| Machine.Hart.ExecLui | rv32i_hart.cpp:276-300 | lui in place, equal to `HartSpec.ExecLui` |
| Machine.Hart.ExecAuipc | rv32i_hart.cpp:308-335 | auipc in place, equal to `HartSpec.ExecAuipc` |
| Machine.Hart.ExecJal | rv32i_hart.cpp:344-375 | jal in place, equal to `HartSpec.ExecJal` |
| Machine.Hart.ExecJalr | rv32i_hart.cpp:383-419 | jalr in place, equal to `HartSpec.ExecJalr` |
| Machine.Hart.Branch | rv32i_hart.cpp:447 | `pc += cond ? imm_b : 4` in place |
| Machine.Hart.ExecBeq | rv32i_hart.cpp:427-458 | beq in place, equal to `HartSpec.ExecBeq` |
| Machine.Hart.ExecBne | rv32i_hart.cpp:466-497 | bne in place, equal to `HartSpec.ExecBne` |
| Machine.Hart.ExecBlt | rv32i_hart.cpp:505-537 | blt in place, equal to `HartSpec.ExecBlt` |
| Machine.Hart.ExecBge | rv32i_hart.cpp:545-577 | bge in place, equal to `HartSpec.ExecBge` |
| Machine.Hart.ExecBltu | rv32i_hart.cpp:585-617 | bltu in place, equal to `HartSpec.ExecBltu` |
| Machine.Hart.ExecBgeu | rv32i_hart.cpp:625-657 | bgeu in place, equal to `HartSpec.ExecBgeu` |
| Machine.Hart.ExecLb | rv32i_hart.cpp:665-702 | lb in place, equal to `HartSpec.ExecLb` |
| Machine.Hart.ExecLh | rv32i_hart.cpp:710-747 | lh in place, equal to `HartSpec.ExecLh` |
| Machine.Hart.ExecLw | rv32i_hart.cpp:755-792 | lw in place, equal to `HartSpec.ExecLw` |
| Machine.Hart.ExecLbu | rv32i_hart.cpp:800-838 | lbu in place, equal to `HartSpec.ExecLbu` |
| Machine.Hart.ExecLhu | rv32i_hart.cpp:846-884 | lhu in place, equal to `HartSpec.ExecLhu` |
| Machine.Hart.ExecSb | rv32i_hart.cpp:892-929 | sb in place, equal to `HartSpec.ExecSb` |
| Machine.Hart.ExecSh | rv32i_hart.cpp:937-974 | sh in place, equal to `HartSpec.ExecSh` |
| Machine.Hart.ExecSw | rv32i_hart.cpp:982-1020 | sw in place, equal to `HartSpec.ExecSw` |
| Machine.Hart.ExecAddi | rv32i_hart.cpp:1028-1061 | addi in place, equal to `HartSpec.ExecAddi` |
| Machine.Hart.ExecSlli | rv32i_hart.cpp:1069-1102 | slli in place, equal to `HartSpec.ExecSlli` |
| Machine.Hart.ExecSlti | rv32i_hart.cpp:1110-1143 | slti in place, equal to `HartSpec.ExecSlti` |
| Machine.Hart.ExecSltiu | rv32i_hart.cpp:1151-1184 | sltiu in place, equal to `HartSpec.ExecSltiu` |
| Machine.Hart.ExecXori | rv32i_hart.cpp:1192-1225 | xori in place, equal to `HartSpec.ExecXori` |
| Machine.Hart.ExecOri | rv32i_hart.cpp:1233-1266 | ori in place, equal to `HartSpec.ExecOri` |
| Machine.Hart.ExecAndi | rv32i_hart.cpp:1274-1307 | andi in place, equal to `HartSpec.ExecAndi` |
| Machine.Hart.ExecSrli | rv32i_hart.cpp:1315-1348 | srli in place, equal to `HartSpec.ExecSrli` |
| Machine.Hart.ExecSrai | rv32i_hart.cpp:1356-1392 | srai in place, equal to `HartSpec.ExecSrai` |
| Machine.Hart.ExecAdd | rv32i_hart.cpp:1400-1431 | add in place, equal to `HartSpec.ExecAdd` |
| Machine.Hart.ExecSub | rv32i_hart.cpp:1439-1470 | sub in place, equal to `HartSpec.ExecSub` |
| Machine.Hart.ExecSll | rv32i_hart.cpp:1478-1511 | sll in place, equal to `HartSpec.ExecSll` |
| Machine.Hart.ExecSlt | rv32i_hart.cpp:1519-1549 | slt in place, equal to `HartSpec.ExecSlt` |
| Machine.Hart.ExecSltu | rv32i_hart.cpp:1557-1591 | sltu in place, equal to `HartSpec.ExecSltu` |
| Machine.Hart.ExecXor | rv32i_hart.cpp:1599-1630 | xor in place, equal to `HartSpec.ExecXor` |
| Machine.Hart.ExecOr | rv32i_hart.cpp:1638-1668 | or in place, equal to `HartSpec.ExecOr` |
| Machine.Hart.ExecAnd | rv32i_hart.cpp:1676-1706 | and in place, equal to `HartSpec.ExecAnd` |
| Machine.Hart.ExecSra | rv32i_hart.cpp:1714-1747 | sra in place, equal to `HartSpec.ExecSra` |
| Machine.Hart.ExecSrl | rv32i_hart.cpp:1755-1788 | srl in place, equal to `HartSpec.ExecSrl` |
| Machine.Hart.ExecEbreak | rv32i_hart.cpp:1797-1810 | ebreak in place, equal to `HartSpec.ExecEbreak` |
| Machine.Hart.ExecCsrrs | rv32i_hart.cpp:1819-1854 | csrrs in place, equal to `HartSpec.ExecCsrrs` |
| Cpu.Seed | cpu_single_hart.cpp:25 | seeding x2 keeps the hart well-formed |
| Cpu.SeedWritesSp | cpu_single_hart.cpp:25 | run writes the memory size into x2 before any tick and changes nothing else |
| Cpu.Run | cpu_single_hart.cpp:22-54 | run updates the hart in place to `RunSpec` of its old state: seed x2, then the loop for a zero or a non-zero limit |
| Cpu.RunUnlimited | cpu_single_hart.cpp:28-35 | with no limit, the hart ticks until it halts |
| Cpu.RunLimited | cpu_single_hart.cpp:37-44 | with a limit, the hart ticks until it halts or the counter equals the limit |
| Cpu.TickAnyTicks | rv32i_hart.cpp:25-63 | every tick keeps the state well-formed, mhartid and the memory size, and either counts exactly one instruction or halts without counting |
| Cpu.LoopKeeps | cpu_single_hart.cpp:28-44 | the loops keep the hart well-formed, its mhartid and its memory size |
| Cpu.HaltedOnEntry | cpu_single_hart.cpp:25-44 | a hart halted on entry is not ticked, so only x2 changes |
| Cpu.StoppedStays | cpu_single_hart.cpp:31-40 | a stopped hart is not ticked, whatever the remaining fuel |
| Cpu.CounterGrows | cpu_single_hart.cpp:28-44 | the counter never decreases and grows by at most one per tick |
| Cpu.CounterBound | cpu_single_hart.cpp:37-44 | with a limit and the counter at or below it on entry, the counter is at or below the limit on exit |
| Cpu.Outcome | cpu_single_hart.cpp:28-44 | the loops end halted, at the limit, or out of fuel, and a tick that counts nothing halts the hart |
| Cpu.EnoughFuel | cpu_single_hart.cpp:37-44 | with a limit and fuel enough to reach it, the loop ends halted or exactly at the limit |
| Cpu.FuelIrrelevant | cpu_single_hart.cpp:28-44 | once the loop has stopped within its fuel, more fuel gives the same state, so the bounded loop agrees with the unbounded one |
| Cpu.RunKeeps | cpu_single_hart.cpp:22-54 | run keeps the hart well-formed, its mhartid and its memory size |
| Cpu.RunCounterBound | cpu_single_hart.cpp:37-44 | with a limit and counter <= limit on entry, the counter is <= limit on exit, and given enough fuel run ends halted or exactly at the limit |
| Agreement.ExecutableIsRecognized | rv32i_hart.cpp:104-244 | every word the hart carries out is one the disassembler recognizes |
| Agreement.ErrorTextHalts | rv32i_decode.cpp:401-404 | a word the listing shows as "ERROR: UNIMPLEMENTED INSTRUCTION" halts the hart with "Illegal instruction" |
| Agreement.EcallDisagrees | rv32i_hart.cpp:231-240 | ecall disassembles as "ecall" but halts the hart as illegal: the converse of ErrorTextHalts fails |
| Agreement.JalAgrees | rv32i_decode.cpp:476 | the address a jal line prints is the target the hart links and jumps to |
| Agreement.BranchAgrees | rv32i_decode.cpp:532 | the address a branch line prints is where the hart goes when the branch is taken |

## Left out

- File and console I/O is not modelled. This covers `memory::load_file`, `memory::dump`, `registerfile::dump` and `rv32i_hart::dump`, and the warning `check_illegal` prints (only its boolean result is modelled). It also covers the final prints in `cpu_single_hart::run`.
- The trace text is not modelled: the `pos` stream output of `tick` and of every `exec_*` handler. Only the state effects are.
- main.cpp is not part of this model: command-line parsing, usage, file loading and the `disassemble` print loop. They are I/O orchestration around the modelled parts.
- The header files are not part of this model. Opcode and funct values come from the RISC-V opcode map. `mnemonic_width` is 8 and `XLEN` is 32. `mhartid` is a constructor parameter of the hart.
- Decoder.ShiftAmount: `get_imm_i(insn) % XLEN` is modelled with XLEN an unsigned 32, so the int32_t imm_i converts to unsigned and the printed amount is its low five bits. The header that fixes XLEN's type is not part of this model. With a signed XLEN the remainder of a negative imm_i would be negative (0xfff01093 would print -1, not 31), and Decoder.ShiftText would not hold.
- Machine.Hart.Exec: the opcode switch is split into one method per opcode group. The B-type group keeps the fall-through of its `default:` into `exec_beq`.
- HartSpec.ExecSlli: C++ leaves `s_rs1 << imm_i` undefined when imm_i, an int32_t, is 32 or more or is negative (any slli word with bit 31 set, such as 0xfff09093). The model writes 0 in all those cases; what the compiled program does there is not promised (a build that masks the count to five bits would give `rs1 << shamt`).
- Regs.RegisterFile.Set: an index of 32 or more makes `at()` throw. The model makes `r < 32` a precondition; no such index can come from a 5-bit field.
- The instruction counter and the execution limit are 64-bit unsigned in the source but `nat` here. Wrap-around after 2^64 instructions is not modelled.
- Cpu.Run: with no limit, `run` can loop forever (`jal x0, 0`). The model bounds the number of ticks by `fuel`, so a run that never halts is not modelled. FuelIrrelevant shows the bound does not change the result of any run that stops within it.
- Signed 32-bit overflow in sums, which C++ leaves undefined, is modelled as two's-complement wrap-around.
- The getters of the memory, the register file and the hart are read-only functions (`reads`, no `modifies`). That they change nothing holds by construction, and they need no contract beyond their bodies.
