/** The instructions of the RISC-V Unprivileged ISA (20191213), and exactly which words the translator's
    decoder reads as the ISA does. */
module IsaDecoder {
  import opened Options
  import opened Words
  import opened RiscV
  import opened Decoder
  import opened DecoderCorrect

  /* ---- RV64I, chapters 2, 5 and 24 ---- */

  // The instructions with what their fields hold, immediates sign-extended. Every value of the fields
  // of a FENCE that are reserved is a FENCE, section 2.7.
  datatype IsaInstruction =
    | R(op: Opcode, rd: bv32, rs1: bv32, rs2: bv32)
    | I(op: Opcode, rd: bv32, rs1: bv32, imm: bv32)
    | Shift(op: Opcode, rd: bv32, rs1: bv32, amount: bv32)
    | S(op: Opcode, rs1: bv32, rs2: bv32, imm: bv32)
    | B(op: Opcode, rs1: bv32, rs2: bv32, imm: bv32)
    | U(op: Opcode, rd: bv32, imm: bv32)
    | J(rd: bv32, imm: bv32)
    | Environment(op: Opcode)
    | Fence(ordering: bv32, rd: bv32, rs1: bv32)

  predicate IsConstantShift(op: Opcode) { IsRightShift(op) || op.SLLI? || op.SLLIW? }

  // Amounts have six bits, and five in the word instructions
  function AmountBound(op: Opcode): bv32 { if op.SLLI? || op.SRLI? || op.SRAI? then 64 else 32 }

  // The function code above the amount
  function ShiftCode(op: Opcode): bv32 { if op.SRAI? || op.SRAIW? then 0x400 else 0 }

  // The immediate of a constant shift: the amount, under the function code
  function ShiftImmediate(op: Opcode, amount: bv32): bv32 { ShiftCode(op) | amount }

  predicate IsSigned12(imm: bv32) { imm < 0x800 || imm >= 0xFFFF_F800 }

  predicate IsSigned13(imm: bv32) { imm < 0x1000 || imm >= 0xFFFF_F000 }

  predicate IsSigned21(imm: bv32) { imm < 0x10_0000 || imm >= 0xFFF0_0000 }

  predicate Legal(a: IsaInstruction) {
    match a
    case R(op, rd, rs1, rs2) => IsRFormat(op) && rd < 32 && rs1 < 32 && rs2 < 32
    case I(op, rd, rs1, imm) => IsIFormat(op) && !IsConstantShift(op) && rd < 32 && rs1 < 32 && IsSigned12(imm)
    case Shift(op, rd, rs1, amount) => IsConstantShift(op) && rd < 32 && rs1 < 32 && amount < AmountBound(op)
    case S(op, rs1, rs2, imm) => IsSFormat(op) && rs1 < 32 && rs2 < 32 && IsSigned12(imm)
    case B(op, rs1, rs2, imm) => IsBranch(op) && rs1 < 32 && rs2 < 32 && IsSigned13(imm) && imm & 1 == 0
    case U(op, rd, imm) => IsUpper(op) && rd < 32 && imm & 0xFFF == 0
    case J(rd, imm) => rd < 32 && IsSigned21(imm) && imm & 1 == 0
    case Environment(op) => op.ECALL? || op.EBREAK?
    case Fence(ordering, rd, rs1) => ordering < 0x1000 && rd < 32 && rs1 < 32
  }

  // The word of an instruction
  function Assembled(a: IsaInstruction): bv32 {
    match a
    case R(op, rd, rs1, rs2) => PackR(Funct7(op), rs2, rs1, Funct3(op), rd, Major(op))
    case I(op, rd, rs1, imm) => PackI(imm, rs1, Funct3(op), rd, Major(op))
    case Shift(op, rd, rs1, amount) => PackI(ShiftImmediate(op, amount), rs1, Funct3(op), rd, Major(op))
    case S(op, rs1, rs2, imm) => PackS(imm, rs2, rs1, Funct3(op), Major(op))
    case B(op, rs1, rs2, imm) => PackB(imm, rs2, rs1, Funct3(op), Major(op))
    case U(op, rd, imm) => PackU(imm, rd, Major(op))
    case J(rd, imm) => PackJ(imm, rd, Major(JAL))
    case Environment(op) => if op.ECALL? then 0x0000_0073 else 0x0010_0073
    case Fence(ordering, rd, rs1) => PackI(ordering, rs1, 0, rd, 0x0F)
  }

  predicate IsWordOf(raw: bv32, a: IsaInstruction) { Legal(a) && Assembled(a) == raw }

  // FENCE is not in the translator's enumeration of opcodes
  datatype IsaReading = Nothing | FenceRead | Known(instruction: Instruction)

  // Operands as the translator keeps them: that of a constant shift is the whole immediate, whose six
  // low bits are the amount, and that of LUI and AUIPC the signed 20-bit number to be shifted by 12
  function Reading(a: IsaInstruction, pc: Word): IsaReading {
    match a
    case R(op, rd, rs1, rs2) => Known(Instruction(op, [Reg(rd), Reg(rs1), Reg(rs2)], pc))
    case I(op, rd, rs1, imm) => Known(Instruction(op, [Reg(rd), Reg(rs1), Immediate(Int32(imm))], pc))
    case Shift(op, rd, rs1, amount) =>
      Known(Instruction(op, [Reg(rd), Reg(rs1), Immediate(Int32(ShiftImmediate(op, amount)))], pc))
    case S(op, rs1, rs2, imm) => Known(Instruction(op, [Reg(rs1), Reg(rs2), Immediate(Int32(imm))], pc))
    case B(op, rs1, rs2, imm) => Known(Instruction(op, [Reg(rs1), Reg(rs2), Immediate(Int32(imm))], pc))
    case U(op, rd, imm) => Known(Instruction(op, [Reg(rd), Immediate(Int32(imm) / 0x1000)], pc))
    case J(rd, imm) => Known(Instruction(JAL, [Reg(rd), Immediate(Int32(imm))], pc))
    case Environment(op) => Known(Instruction(op, [], pc))
    case Fence(_, _, _) => FenceRead
  }

  // What a word is by the ISA
  ghost function IsaDecode(raw: bv32, pc: Word): IsaReading {
    if exists a :: IsWordOf(raw, a) then
      var a :| IsWordOf(raw, a);
      Reading(a, pc)
    else Nothing
  }

  predicate Agrees(decoded: Option<Instruction>, reading: IsaReading) {
    match reading
    case Nothing => decoded.None?
    case FenceRead => false
    case Known(i) => decoded == Some(i)
  }

  /* ---- The words that are read right ---- */

  // The function codes that RV64I gives a meaning to
  predicate Assigned(f: DecodedFields) {
    match f.opcode
    case 0x33 => f.funct7 == 0 || (f.funct7 == 0x20 && (f.funct3 == 0 || f.funct3 == 5))
    case 0x3B => (f.funct7 == 0 && (f.funct3 == 0 || f.funct3 == 1 || f.funct3 == 5)) ||
      (f.funct7 == 0x20 && (f.funct3 == 0 || f.funct3 == 5))
    case 0x13 =>
      if f.funct3 == 1 then f.funct7 >> 1 == 0
      else f.funct3 == 5 ==> f.funct7 >> 1 == 0 || f.funct7 >> 1 == 0x10
    case 0x1B =>
      f.funct3 == 0 || (f.funct3 == 1 && f.funct7 == 0) || (f.funct3 == 5 && (f.funct7 == 0 || f.funct7 == 0x20))
    case _ => true
  }

  predicate IsFence(f: DecodedFields) { f.opcode == 0x0F && f.funct3 == 0 }

  // An SRAI by 32 or more
  predicate IsLongSrai(f: DecodedFields) { f.opcode == 0x13 && f.funct3 == 5 && f.funct7 == 0x21 }

  // The words the decoder reads as the ISA does: no function code beyond those of RV64I, no FENCE, no
  // SRAI by 32 or more, and no upper immediate but zero
  predicate ReadRight(raw: bv32) {
    var f := ExtractFields(raw);
    && (Assigned(f) || DetermineOpcode(f).None?)
    && !IsFence(f) && !IsLongSrai(f)
    && (f.opcode == 0x37 || f.opcode == 0x17 ==> UImmediate(raw) == 0)
  }

  lemma ShiftCodes(f7: bv32)
    requires f7 < 128
    ensures f7 >> 1 == 0x10 <==> f7 == 0x20 || f7 == 0x21
    ensures f7 >> 1 == 0 <==> f7 == 0 || f7 == 1
  {
  }

  // A multiple of 4096 is its own 4096th only when it is zero
  lemma UpperOperandSame(b: bv32)
    requires b & 0xFFF == 0
    ensures Int32(b) / 0x1000 == Int32(b) <==> b == 0
  {
    if b as int == 0 { ZeroWord(b); }
    if b as int == 0xFFFF_FFFF { OnesWord(b); }
  }

  lemma ZeroWord(b: bv32)
    requires b as int == 0
    ensures b == 0
  {
  }

  lemma OnesWord(b: bv32)
    requires b as int == 0xFFFF_FFFF
    ensures b == 0xFFFF_FFFF
  {
  }

  /* ---- From the instruction to its word ---- */

  // What the ISA's reading is in terms of the decoder's, for a word of the ISA
  function Corrected(decoded: Option<Instruction>): IsaReading {
    match decoded
    case None => FenceRead
    case Some(i) => Known(CorrectedInstruction(i))
  }

  function CorrectedInstruction(i: Instruction): Instruction {
    if IsUpper(i.opcode) && |i.operands| == 2 && i.operands[1].Immediate? then
      i.(operands := [i.operands[0], Immediate(i.operands[1].imm / 0x1000)])
    else if i.opcode.SRLI? && |i.operands| == 3 && i.operands[2].Immediate? && i.operands[2].imm >= 0x400 then
      i.(opcode := SRAI)
    else i
  }

  // The decoder and the ISA on the word of an instruction
  ghost predicate Settled(a: IsaInstruction, pc: Word) {
    var raw := Assembled(a);
    && Reading(a, pc) == Corrected(Decode(raw, pc))
    && (Agrees(Decode(raw, pc), Reading(a, pc)) <==> ReadRight(raw))
    && (a.Fence? || Assigned(ExtractFields(raw)))
  }

  // Fields that no condition of ReadRight is about
  predicate Unremarkable(f: DecodedFields) {
    Assigned(f) && !IsFence(f) && !IsLongSrai(f) && f.opcode != 0x37 && f.opcode != 0x17
  }

  lemma SettledPlain(a: IsaInstruction, i: Instruction, pc: Word)
    requires Decode(Assembled(a), pc) == Some(i) && Reading(a, pc) == Known(i)
    requires Unremarkable(ExtractFields(Assembled(a)))
    requires !IsUpper(i.opcode) && !i.opcode.SRLI?
    ensures Settled(a, pc)
  {
    hide Decode, Assembled, ExtractFields, Assigned, UImmediate, Reading;
  }

  lemma RKinds(op: Opcode)
    requires IsRFormat(op)
    ensures !IsUpper(op) && !op.SRLI?
  {
  }

  // The codes of a register instruction are those of its table
  lemma RAssigned(op: Opcode, f: DecodedFields)
    requires IsRFormat(op) && f.opcode == Major(op) && f.funct3 == Funct3(op) && f.funct7 == Funct7(op)
    ensures Assigned(f)
  {
    hide Major, Funct3, IsRFormat, Funct7, OpOpcode, Op32Opcode;
    MajorOfR(op);
    if Major(op) == 0x33 {
      OpTable(f.funct3, f.funct7, op);
      OpFunct7(f.funct3, f.funct7);
    } else {
      Op32Table(f.funct3, f.funct7, op);
      Op32Funct7(f.funct3, f.funct7);
    }
  }

  lemma RUnremarkable(op: Opcode, f: DecodedFields)
    requires IsRFormat(op) && f.opcode == Major(op) && f.funct3 == Funct3(op) && f.funct7 == Funct7(op)
    ensures Unremarkable(f) && !IsUpper(op) && !op.SRLI?
  {
    hide Major, Funct3, Funct7, IsRFormat, IsUpper, Assigned;
    RKinds(op);
    MajorOfR(op);
    RAssigned(op, f);
  }

  lemma RSettled(op: Opcode, rd: bv32, rs1: bv32, rs2: bv32, pc: Word)
    requires Legal(R(op, rd, rs1, rs2))
    ensures Settled(R(op, rd, rs1, rs2), pc)
  {
    hide Decode, ExtractFields, PackR, Major, Funct3, Funct7, IsRFormat, Unremarkable, Settled, Reg;
    OpcodeFields(op);
    RFields(Funct7(op), rs2, rs1, Funct3(op), rd, Major(op));
    RDecodes(op, rd, rs1, rs2, pc);
    RUnremarkable(op, ExtractFields(Assembled(R(op, rd, rs1, rs2))));
    SettledPlain(R(op, rd, rs1, rs2), Instruction(op, [Reg(rd), Reg(rs1), Reg(rs2)], pc), pc);
  }

  lemma ICodes(op: Opcode)
    requires IsIFormat(op) && !IsConstantShift(op)
    ensures (Major(op) == 0x13 ==> Funct3(op) != 1 && Funct3(op) != 5) && (Major(op) == 0x1B ==> Funct3(op) == 0)
  {
  }

  lemma IKinds(op: Opcode)
    requires IsIFormat(op) && !IsConstantShift(op)
    ensures !IsUpper(op) && !op.SRLI? && !IsRightShift(op)
  {
  }

  lemma IUnremarkable(op: Opcode, f: DecodedFields)
    requires IsIFormat(op) && !IsConstantShift(op) && f.opcode == Major(op) && f.funct3 == Funct3(op)
    ensures Unremarkable(f) && !IsUpper(op) && !op.SRLI? && !IsRightShift(op)
  {
    hide Major, Funct3, IsIFormat, IsConstantShift, IsRightShift, IsUpper;
    IKinds(op);
    ICodes(op);
    MajorOfI(op);
  }

  lemma ISettled(op: Opcode, rd: bv32, rs1: bv32, imm: bv32, pc: Word)
    requires Legal(I(op, rd, rs1, imm))
    ensures Settled(I(op, rd, rs1, imm), pc)
  {
    hide Decode, ExtractFields, PackI, Major, Funct3, IsIFormat, IsConstantShift, IsRightShift, Unremarkable, Settled,
      Reg, Int32;
    OpcodeFields(op);
    IFields(imm, rs1, Funct3(op), rd, Major(op));
    IUnremarkable(op, ExtractFields(Assembled(I(op, rd, rs1, imm))));
    IDecodes(op, rd, rs1, imm, pc);
    SettledPlain(I(op, rd, rs1, imm), Instruction(op, [Reg(rd), Reg(rs1), Immediate(Int32(imm))], pc), pc);
  }

  lemma OtherKinds(op: Opcode)
    requires IsSFormat(op) || IsBranch(op) || op.JAL?
    ensures !IsUpper(op) && !op.SRLI?
  {
  }

  lemma MajorOfJal()
    ensures Major(JAL) == 0x6F
  {
  }

  lemma OtherUnremarkable(op: Opcode, f: DecodedFields)
    requires (IsSFormat(op) || IsBranch(op) || op.JAL?) && f.opcode == Major(op)
    ensures Unremarkable(f) && !IsUpper(op) && !op.SRLI?
  {
    hide Major, IsSFormat, IsBranch, IsUpper;
    OtherKinds(op);
    MajorOfJal();
    if IsSFormat(op) { MajorOfStore(op); } else if IsBranch(op) { MajorOfBranch(op); }
  }

  lemma SSettled(op: Opcode, rs1: bv32, rs2: bv32, imm: bv32, pc: Word)
    requires Legal(S(op, rs1, rs2, imm))
    ensures Settled(S(op, rs1, rs2, imm), pc)
  {
    hide Decode, ExtractFields, PackS, Major, Funct3, IsSFormat, Unremarkable, Settled, Reg, Int32;
    OpcodeFields(op);
    SFields(imm, rs2, rs1, Funct3(op), Major(op));
    SDecodes(op, rs1, rs2, imm, pc);
    OtherUnremarkable(op, ExtractFields(Assembled(S(op, rs1, rs2, imm))));
    SettledPlain(S(op, rs1, rs2, imm), Instruction(op, [Reg(rs1), Reg(rs2), Immediate(Int32(imm))], pc), pc);
  }

  lemma BSettled(op: Opcode, rs1: bv32, rs2: bv32, imm: bv32, pc: Word)
    requires Legal(B(op, rs1, rs2, imm))
    ensures Settled(B(op, rs1, rs2, imm), pc)
  {
    hide Decode, ExtractFields, PackB, Major, Funct3, IsBranch, Unremarkable, Settled, Reg, Int32;
    OpcodeFields(op);
    BFields(imm, rs2, rs1, Funct3(op), Major(op));
    BDecodes(op, rs1, rs2, imm, pc);
    OtherUnremarkable(op, ExtractFields(Assembled(B(op, rs1, rs2, imm))));
    SettledPlain(B(op, rs1, rs2, imm), Instruction(op, [Reg(rs1), Reg(rs2), Immediate(Int32(imm))], pc), pc);
  }

  lemma JSettled(rd: bv32, imm: bv32, pc: Word)
    requires Legal(J(rd, imm))
    ensures Settled(J(rd, imm), pc)
  {
    hide Decode, ExtractFields, PackJ, Major, Unremarkable, Settled, Reg, Int32;
    MajorFits(JAL);
    JFields(imm, rd, Major(JAL));
    JDecodes(rd, imm, pc);
    OtherUnremarkable(JAL, ExtractFields(Assembled(J(rd, imm))));
    SettledPlain(J(rd, imm), Instruction(JAL, [Reg(rd), Immediate(Int32(imm))], pc), pc);
  }

  lemma UpperMajor(op: Opcode)
    requires IsUpper(op)
    ensures Major(op) == 0x37 || Major(op) == 0x17
  {
  }

  lemma UpperFields(op: Opcode, rd: bv32, imm: bv32)
    requires Legal(U(op, rd, imm))
    ensures
      var f := ExtractFields(Assembled(U(op, rd, imm)));
      && Assigned(f) && !IsFence(f) && !IsLongSrai(f) && (f.opcode == 0x37 || f.opcode == 0x17)
      && UImmediate(Assembled(U(op, rd, imm))) == imm
  {
    hide ExtractFields, PackU, Major, UImmediate, IsUpper;
    UpperMajor(op);
    MajorFits(op);
    UFields(imm, rd, Major(op));
    URoundTrip(imm, rd, Major(op));
  }

  lemma USettled(op: Opcode, rd: bv32, imm: bv32, pc: Word)
    requires Legal(U(op, rd, imm))
    ensures Settled(U(op, rd, imm), pc)
  {
    hide Decode, ExtractFields, PackU, Major, Reg, Int32, UImmediate, IsUpper, Assigned, IsFence, IsLongSrai;
    UpperFields(op, rd, imm);
    UDecodes(op, rd, imm, pc);
    UpperOperandSame(imm);
  }

  lemma EnvironmentFields(op: Opcode)
    requires Legal(Environment(op))
    ensures
      var f := ExtractFields(Assembled(Environment(op)));
      f.opcode == 0x73 && f.funct3 == 0 && f.rd == 0 && f.rs1 == 0 && SystemOpcode(f) == Some(op)
  {
  }

  lemma SystemDispatch(f: DecodedFields)
    requires f.opcode == 0x73
    ensures DetermineOpcode(f) == SystemOpcode(f)
  {
    hide OpOpcode, Op32Opcode, OpImmOpcode, OpImm32Opcode, LoadOpcode, StoreOpcode, BranchOpcode, SystemOpcode;
  }

  lemma EnvironmentFormat(op: Opcode)
    requires op.ECALL? || op.EBREAK?
    ensures !IsRFormat(op) && !IsIFormat(op) && !IsSFormat(op) && !IsBranch(op) && !IsUpper(op)
  {
  }

  lemma EnvironmentOperands(f: DecodedFields, op: Opcode, raw: bv32)
    requires op.ECALL? || op.EBREAK?
    ensures ExtractOperands(f, op, raw) == [] && !IsUpper(op) && !op.SRLI?
  {
    hide IsRFormat, IsIFormat, IsSFormat, IsBranch, IsUpper, Reg, Int32, IImmediate, SImmediate, BImmediate,
      UImmediate, JImmediate;
    EnvironmentFormat(op);
  }

  lemma EnvironmentSettled(op: Opcode, pc: Word)
    requires Legal(Environment(op))
    ensures Settled(Environment(op), pc)
  {
    hide ExtractFields, DetermineOpcode, SystemOpcode, Settled, ExtractOperands, IsUpper, Assembled;
    var raw := Assembled(Environment(op));
    EnvironmentFields(op);
    SystemDispatch(ExtractFields(raw));
    EnvironmentOperands(ExtractFields(raw), op, raw);
    SettledPlain(Environment(op), Instruction(op, [], pc), pc);
  }

  lemma FenceThrows(f: DecodedFields)
    requires f.opcode == 0x0F
    ensures DetermineOpcode(f).None?
  {
    hide OpOpcode, Op32Opcode, OpImmOpcode, OpImm32Opcode, LoadOpcode, StoreOpcode, BranchOpcode, SystemOpcode;
  }

  lemma FenceSettled(ordering: bv32, rd: bv32, rs1: bv32, pc: Word)
    requires Legal(Fence(ordering, rd, rs1))
    ensures Settled(Fence(ordering, rd, rs1), pc)
  {
    hide ExtractFields, DetermineOpcode, PackI, Assigned;
    IFields(ordering, rs1, 0, rd, 0x0F);
    FenceThrows(ExtractFields(Assembled(Fence(ordering, rd, rs1))));
  }

  /* ---- Constant shifts ---- */

  lemma AmountBits(op: Opcode, amount: bv32)
    requires IsConstantShift(op) && amount < AmountBound(op)
    ensures
      var imm := ShiftImmediate(op, amount);
      && imm < 0x800 && imm & 0xFFF == imm
      && ((imm >> 5) & 0x7F == 0x20 <==> (op.SRAI? && amount < 32) || op.SRAIW?)
      && ((imm >> 5) & 0x7F == 0x21 <==> op.SRAI? && amount >= 32)
      && (!op.SRAI? && !op.SRAIW? ==> (imm >> 5) & 0x7F <= 1)
      && (op.SLLIW? || op.SRLIW? ==> (imm >> 5) & 0x7F == 0)
  {
  }

  lemma ShiftTables(op: Opcode)
    requires IsConstantShift(op)
    ensures Major(op) == (if op.SLLI? || op.SRLI? || op.SRAI? then 0x13 else 0x1B)
    ensures Funct3(op) == if op.SLLI? || op.SLLIW? then 1 else 5
  {
  }

  lemma ShiftFields(op: Opcode, rd: bv32, rs1: bv32, amount: bv32)
    requires Legal(Shift(op, rd, rs1, amount))
    ensures
      var f := ExtractFields(Assembled(Shift(op, rd, rs1, amount)));
      && f == DecodedFields(Major(op), rd, Funct3(op), rs1, ShiftImmediate(op, amount) & 0x1F,
                            (ShiftImmediate(op, amount) >> 5) & 0x7F)
      && IImmediate(Assembled(Shift(op, rd, rs1, amount))) == ShiftImmediate(op, amount)
  {
    hide ExtractFields, PackI, Major, Funct3, IImmediate, IsConstantShift, ShiftImmediate, AmountBound;
    AmountBits(op, amount);
    OpcodeFields(op);
    IFields(ShiftImmediate(op, amount), rs1, Funct3(op), rd, Major(op));
    IRoundTrip(ShiftImmediate(op, amount), rs1, Funct3(op), rd, Major(op));
  }

  // The opcode the decoder takes a constant shift for
  function DecodedShift(op: Opcode, amount: bv32): Opcode { if op.SRAI? && amount >= 32 then SRLI else op }

  lemma ShiftOpcode(op: Opcode, rd: bv32, rs1: bv32, amount: bv32)
    requires Legal(Shift(op, rd, rs1, amount))
    ensures
      var f := ExtractFields(Assembled(Shift(op, rd, rs1, amount)));
      DetermineOpcode(f) == Some(DecodedShift(op, amount)) && Assigned(f) && !IsFence(f) && f.opcode != 0x37 &&
      f.opcode != 0x17 && (IsLongSrai(f) <==> op.SRAI? && amount >= 32)
  {
    hide ExtractFields, Assembled, DetermineOpcode, Major, Funct3, ShiftImmediate, IImmediate;
    ShiftFields(op, rd, rs1, amount);
    AmountBits(op, amount);
    ShiftTables(op);
    var f := ExtractFields(Assembled(Shift(op, rd, rs1, amount)));
    Dispatch(f);
    OpcodeFields(op);
    SevenBits(ShiftImmediate(op, amount));
    ShiftCodes(f.funct7);
  }

  lemma SevenBits(imm: bv32)
    ensures (imm >> 5) & 0x7F < 128
  {
  }

  lemma ShiftOperand(op: Opcode, amount: bv32)
    requires IsConstantShift(op) && amount < AmountBound(op)
    ensures op.SRAI? || op.SRAIW? ==> Int32(ShiftImmediate(op, amount)) >= 0x400
    ensures !op.SRAI? && !op.SRAIW? ==> Int32(ShiftImmediate(op, amount)) < 0x400
  {
    if op.SRAI? || op.SRAIW? { MarkedAmount(amount); } else { PlainAmount(amount); }
  }

  // What the decoder makes of it, and what the ISA does
  lemma ShiftDecoded(op: Opcode, rd: bv32, rs1: bv32, amount: bv32, pc: Word)
    requires Legal(Shift(op, rd, rs1, amount))
    ensures
      var operands := [Reg(rd), Reg(rs1), Immediate(Int32(ShiftImmediate(op, amount)))];
      && Decode(Assembled(Shift(op, rd, rs1, amount)), pc) == Some(Instruction(DecodedShift(op, amount), operands, pc))
      && Reading(Shift(op, rd, rs1, amount), pc) == Known(Instruction(op, operands, pc))
  {
    hide ExtractFields, Assembled, DetermineOpcode, ShiftImmediate, IImmediate, Int32, Reg, Assigned, IsFence,
      IsLongSrai, UImmediate, AmountBound, ExtractOperands;
    ShiftOpcode(op, rd, rs1, amount);
    ShiftFields(op, rd, rs1, amount);
    ShiftIsI(op, amount);
    var raw := Assembled(Shift(op, rd, rs1, amount));
    IOperands(ExtractFields(raw), DecodedShift(op, amount), raw);
  }

  lemma ShiftIsI(op: Opcode, amount: bv32)
    requires IsConstantShift(op)
    ensures IsIFormat(DecodedShift(op, amount)) && !IsUpper(op)
  {
  }

  lemma ShiftSettled(op: Opcode, rd: bv32, rs1: bv32, amount: bv32, pc: Word)
    requires Legal(Shift(op, rd, rs1, amount))
    ensures Settled(Shift(op, rd, rs1, amount), pc)
  {
    hide ExtractFields, Assembled, DetermineOpcode, ShiftImmediate, IImmediate, Int32, Reg, Assigned, IsFence,
      IsLongSrai, UImmediate, AmountBound, Decode, IsUpper, Reading;
    ShiftOpcode(op, rd, rs1, amount);
    ShiftDecoded(op, rd, rs1, amount, pc);
    ShiftIsI(op, amount);
    ShiftOperand(op, amount);
    ShiftsApart(op, amount);
  }

  lemma ShiftsApart(op: Opcode, amount: bv32)
    requires IsConstantShift(op)
    ensures !IsUpper(DecodedShift(op, amount))
  {
  }

  lemma AllSettled(a: IsaInstruction, pc: Word)
    requires Legal(a)
    ensures Settled(a, pc)
  {
    hide Legal, Settled;
    match a
    case R(op, rd, rs1, rs2) => RSettled(op, rd, rs1, rs2, pc);
    case I(op, rd, rs1, imm) => ISettled(op, rd, rs1, imm, pc);
    case Shift(op, rd, rs1, amount) => ShiftSettled(op, rd, rs1, amount, pc);
    case S(op, rs1, rs2, imm) => SSettled(op, rs1, rs2, imm, pc);
    case B(op, rs1, rs2, imm) => BSettled(op, rs1, rs2, imm, pc);
    case U(op, rd, imm) => USettled(op, rd, imm, pc);
    case J(rd, imm) => JSettled(rd, imm, pc);
    case Environment(op) => EnvironmentSettled(op, pc);
    case Fence(ordering, rd, rs1) => FenceSettled(ordering, rd, rs1, pc);
  }

  lemma SomeReading(raw: bv32, pc: Word) returns (a: IsaInstruction)
    requires exists b :: IsWordOf(raw, b)
    ensures IsWordOf(raw, a) && IsaDecode(raw, pc) == Reading(a, pc)
  {
    hide IsWordOf, Reading;
    a :| IsWordOf(raw, a) && IsaDecode(raw, pc) == Reading(a, pc);
  }

  /** A word is the word of at most one reading. */
  lemma ReadingOf(raw: bv32, a: IsaInstruction, pc: Word)
    requires IsWordOf(raw, a)
    ensures IsaDecode(raw, pc) == Reading(a, pc)
  {
    hide Legal, Assembled, Decode, Corrected, Reading, Agrees, ReadRight, Assigned, ExtractFields, IsaDecode;
    AllSettled(a, pc);
    var b := SomeReading(raw, pc);
    AllSettled(b, pc);
  }

  /* ---- From the word to its instruction ---- */

  lemma Repacked(raw: bv32)
    ensures var f := ExtractFields(raw); raw == PackR(f.funct7, f.rs2, f.rs1, f.funct3, f.rd, f.opcode)
  {
  }

  lemma RepackedField(raw: bv32)
    ensures var f := ExtractFields(raw); raw == PackI(IField(raw), f.rs1, f.funct3, f.rd, f.opcode)
  {
  }

  lemma FieldOfImmediate(raw: bv32)
    ensures IField(raw) < 0x1000 && IImmediate(raw) & 0xFFF == IField(raw) & 0xFFF
  {
  }

  lemma CodeOfImmediate(raw: bv32)
    ensures (IField(raw) >> 5) & 0x7F == ExtractFields(raw).funct7
  {
  }

  lemma SamePackI(a: bv32, b: bv32, rs1: bv32, f3: bv32, rd: bv32, op: bv32)
    requires a & 0xFFF == b & 0xFFF
    ensures PackI(a, rs1, f3, rd, op) == PackI(b, rs1, f3, rd, op)
  {
  }

  lemma RepackedI(raw: bv32)
    ensures var f := ExtractFields(raw); raw == PackI(IImmediate(raw), f.rs1, f.funct3, f.rd, f.opcode)
  {
    hide ExtractFields, PackI, IField, IImmediate;
    var f := ExtractFields(raw);
    RepackedField(raw);
    FieldOfImmediate(raw);
    SamePackI(IImmediate(raw), IField(raw), f.rs1, f.funct3, f.rd, f.opcode);
  }

  lemma RepackedS(raw: bv32)
    ensures var f := ExtractFields(raw); raw == PackS(SImmediate(raw), f.rs2, f.rs1, f.funct3, f.opcode)
  {
  }

  lemma RepackedB(raw: bv32)
    ensures var f := ExtractFields(raw); raw == PackB(BImmediate(raw), f.rs2, f.rs1, f.funct3, f.opcode)
  {
  }

  lemma RepackedU(raw: bv32)
    ensures var f := ExtractFields(raw); raw == PackU(UImmediate(raw), f.rd, f.opcode) && UImmediate(raw) & 0xFFF == 0
  {
  }

  function Low21(b: bv32): bv32 { b & 0x1F_FFFF }

  lemma RepackedJField(raw: bv32)
    ensures var f := ExtractFields(raw); raw == PackJ(JField(raw), f.rd, f.opcode)
  {
  }

  lemma FieldOfJump(b: bv32)
    ensures Low21(SignExtend21(b)) == Low21(b)
  {
    hide Low21;
    HighOnes(b);
  }

  lemma HighOnes(b: bv32)
    ensures Low21(b | 0xFFE0_0000) == Low21(b)
  {
  }

  lemma SamePackJ(a: bv32, b: bv32, rd: bv32, op: bv32)
    requires Low21(a) == Low21(b)
    ensures PackJ(a, rd, op) == PackJ(b, rd, op)
  {
  }

  lemma RepackedJ(raw: bv32)
    ensures var f := ExtractFields(raw); raw == PackJ(JImmediate(raw), f.rd, f.opcode)
  {
    hide ExtractFields, PackJ, JField, SignExtend21, Low21;
    var f := ExtractFields(raw);
    RepackedJField(raw);
    FieldOfJump(JField(raw));
    SamePackJ(JImmediate(raw), JField(raw), f.rd, f.opcode);
  }

  lemma FieldsBelow(raw: bv32)
    ensures
      var f := ExtractFields(raw);
      f.opcode < 128 && f.rd < 32 && f.funct3 < 8 && f.rs1 < 32 && f.rs2 < 32 && f.funct7 < 128
  {
  }

  // The formats of the instructions that each major opcode selects
  datatype Format = RForm | IForm | SForm | BForm | UForm | JForm | SystemForm

  function FormatOf(op: Opcode): Format {
    match op
    case ADD | ADDW | SUB | SUBW | AND | OR | XOR | SLL | SLLW | SRL | SRLW | SRA | SRAW | SLT | SLTU => RForm
    case SB | SH | SW | SD => SForm
    case BEQ | BNE | BLT | BGE | BLTU | BGEU => BForm
    case LUI | AUIPC => UForm
    case JAL => JForm
    case ECALL | EBREAK | INVALID => SystemForm
    case _ => IForm
  }

  // An opcode from the table of a major opcode has that major opcode, and the funct3 that selects it
  ghost predicate From(r: Option<Opcode>, format: Format, major: bv32, f3: bv32) {
    r.Some? ==> FormatOf(r.value) == format && Major(r.value) == major && Funct3(r.value) == f3
  }

  lemma OpMajors(f3: bv32, f7: bv32)
    ensures OpOpcode(f3, f7).Some? ==> Major(OpOpcode(f3, f7).value) == 0x33
  {
  }

  lemma OpFunct3(f3: bv32, f7: bv32)
    ensures OpOpcode(f3, f7).Some? ==> Funct3(OpOpcode(f3, f7).value) == f3
  {
  }

  lemma OpForms(f3: bv32, f7: bv32)
    ensures OpOpcode(f3, f7).Some? ==> FormatOf(OpOpcode(f3, f7).value) == RForm
  {
  }

  lemma OpTables(f3: bv32, f7: bv32)
    ensures From(OpOpcode(f3, f7), RForm, 0x33, f3)
  {
    hide Major, Funct3, FormatOf, OpOpcode;
    OpMajors(f3, f7);
    OpFunct3(f3, f7);
    OpForms(f3, f7);
  }

  lemma Op32Tables(f3: bv32, f7: bv32)
    ensures From(Op32Opcode(f3, f7), RForm, 0x3B, f3)
  {
  }

  lemma ImmMajors(f3: bv32, f7: bv32)
    ensures OpImmOpcode(f3, f7).Some? ==> Major(OpImmOpcode(f3, f7).value) == 0x13
  {
  }

  lemma ImmFunct3(f3: bv32, f7: bv32)
    ensures OpImmOpcode(f3, f7).Some? ==> Funct3(OpImmOpcode(f3, f7).value) == f3
  {
  }

  lemma ImmForms(f3: bv32, f7: bv32)
    ensures OpImmOpcode(f3, f7).Some? ==> FormatOf(OpImmOpcode(f3, f7).value) == IForm
  {
  }

  lemma ImmTables(f3: bv32, f7: bv32)
    ensures From(OpImmOpcode(f3, f7), IForm, 0x13, f3)
  {
    hide Major, Funct3, FormatOf, OpImmOpcode;
    ImmMajors(f3, f7);
    ImmFunct3(f3, f7);
    ImmForms(f3, f7);
  }

  lemma Imm32Tables(f3: bv32, f7: bv32)
    ensures From(OpImm32Opcode(f3, f7), IForm, 0x1B, f3)
  {
  }

  lemma LoadMajors(f3: bv32)
    ensures LoadOpcode(f3).Some? ==> Major(LoadOpcode(f3).value) == 0x03
  {
  }

  lemma LoadFunct3(f3: bv32)
    ensures LoadOpcode(f3).Some? ==> Funct3(LoadOpcode(f3).value) == f3
  {
  }

  lemma LoadForms(f3: bv32)
    ensures LoadOpcode(f3).Some? ==> FormatOf(LoadOpcode(f3).value) == IForm
  {
  }

  lemma LoadTables(f3: bv32)
    ensures From(LoadOpcode(f3), IForm, 0x03, f3)
  {
    hide Major, Funct3, FormatOf, LoadOpcode;
    LoadMajors(f3);
    LoadFunct3(f3);
    LoadForms(f3);
  }

  lemma StoreMajors(f3: bv32)
    ensures StoreOpcode(f3).Some? ==> Major(StoreOpcode(f3).value) == 0x23
  {
  }

  lemma StoreFunct3(f3: bv32)
    ensures StoreOpcode(f3).Some? ==> Funct3(StoreOpcode(f3).value) == f3
  {
  }

  lemma StoreForms(f3: bv32)
    ensures StoreOpcode(f3).Some? ==> FormatOf(StoreOpcode(f3).value) == SForm
  {
  }

  lemma StoreTables(f3: bv32)
    ensures From(StoreOpcode(f3), SForm, 0x23, f3)
  {
    hide Major, Funct3, FormatOf, StoreOpcode;
    StoreMajors(f3);
    StoreFunct3(f3);
    StoreForms(f3);
  }

  lemma BranchMajors(f3: bv32)
    ensures BranchOpcode(f3).Some? ==> Major(BranchOpcode(f3).value) == 0x63
  {
  }

  lemma BranchFunct3(f3: bv32)
    ensures BranchOpcode(f3).Some? ==> Funct3(BranchOpcode(f3).value) == f3
  {
  }

  lemma BranchForms(f3: bv32)
    ensures BranchOpcode(f3).Some? ==> FormatOf(BranchOpcode(f3).value) == BForm
  {
  }

  lemma BranchTables(f3: bv32)
    ensures From(BranchOpcode(f3), BForm, 0x63, f3)
  {
    hide Major, Funct3, FormatOf, BranchOpcode;
    BranchMajors(f3);
    BranchFunct3(f3);
    BranchForms(f3);
  }

  lemma SystemEnds(f: DecodedFields)
    ensures SystemOpcode(f).Some? ==> SystemOpcode(f).value.ECALL? || SystemOpcode(f).value.EBREAK?
  {
  }

  lemma EnvironmentTables(op: Opcode)
    requires op.ECALL? || op.EBREAK?
    ensures FormatOf(op) == SystemForm && Major(op) == 0x73 && Funct3(op) == 0
  {
  }

  lemma SystemTables(f: DecodedFields)
    ensures From(SystemOpcode(f), SystemForm, 0x73, 0)
  {
    hide SystemOpcode, FormatOf, Major, Funct3;
    SystemEnds(f);
    if SystemOpcode(f).Some? { EnvironmentTables(SystemOpcode(f).value); }
  }

  lemma SingleTables()
    ensures From(Some(JALR), IForm, 0x67, 0) && From(Some(JAL), JForm, 0x6F, 0)
    ensures From(Some(LUI), UForm, 0x37, 0) && From(Some(AUIPC), UForm, 0x17, 0)
  {
    hide Funct3, FormatOf, Major;
    FromTable(JALR);
    FromTable(JAL);
    FromTable(LUI);
    FromTable(AUIPC);
  }

  lemma FromTable(op: Opcode)
    requires op.JALR? || op.JAL? || op.LUI? || op.AUIPC?
    ensures Funct3(op) == 0
    ensures Major(op) == if op.JALR? then 0x67 else if op.JAL? then 0x6F else if op.LUI? then 0x37 else 0x17
    ensures FormatOf(op) == if op.JALR? then IForm else if op.JAL? then JForm else UForm
  {
  }

  // Formats of the major opcodes
  predicate HasFormat(major: bv32, format: Format) {
    match format
    case RForm => major == 0x33 || major == 0x3B
    case IForm => major == 0x13 || major == 0x1B || major == 0x03 || major == 0x67
    case SForm => major == 0x23
    case BForm => major == 0x63
    case UForm => major == 0x37 || major == 0x17
    case JForm => major == 0x6F
    case SystemForm => major == 0x73
  }

  lemma Tables(f: DecodedFields)
    requires DetermineOpcode(f).Some?
    ensures
      var op := DetermineOpcode(f).value;
      && HasFormat(f.opcode, FormatOf(op)) && Major(op) == f.opcode
      && (FormatOf(op).RForm? || FormatOf(op).IForm? || FormatOf(op).SForm? || FormatOf(op).BForm? ==>
        Funct3(op) == f.funct3)
      && (FormatOf(op).SystemForm? ==> DetermineOpcode(f) == SystemOpcode(f))
  {
    hide OpOpcode, Op32Opcode, OpImmOpcode, OpImm32Opcode, LoadOpcode, StoreOpcode, BranchOpcode, SystemOpcode,
      FormatOf, Major, Funct3;
    OpTables(f.funct3, f.funct7);
    Op32Tables(f.funct3, f.funct7);
    ImmTables(f.funct3, f.funct7);
    Imm32Tables(f.funct3, f.funct7);
    LoadTables(f.funct3);
    StoreTables(f.funct3);
    BranchTables(f.funct3);
    SystemTables(f);
    SingleTables();
  }

  lemma RFormat(op: Opcode)
    ensures IsRFormat(op) <==> FormatOf(op).RForm?
  {
  }

  lemma IFormat(op: Opcode)
    ensures IsIFormat(op) <==> FormatOf(op).IForm?
  {
  }

  lemma OtherFormats(op: Opcode)
    ensures IsSFormat(op) <==> FormatOf(op).SForm?
    ensures IsBranch(op) <==> FormatOf(op).BForm?
    ensures IsUpper(op) <==> FormatOf(op).UForm?
    ensures op.JAL? <==> FormatOf(op).JForm?
  {
  }

  lemma FormatFacts(op: Opcode)
    ensures IsRFormat(op) <==> FormatOf(op).RForm?
    ensures IsIFormat(op) <==> FormatOf(op).IForm?
    ensures IsSFormat(op) <==> FormatOf(op).SForm?
    ensures IsBranch(op) <==> FormatOf(op).BForm?
    ensures IsUpper(op) <==> FormatOf(op).UForm?
    ensures op.JAL? <==> FormatOf(op).JForm?
  {
    hide IsRFormat, IsIFormat, IsSFormat, IsBranch, IsUpper, FormatOf;
    RFormat(op);
    IFormat(op);
    OtherFormats(op);
  }

  lemma OpFunct7(f3: bv32, f7: bv32)
    requires OpOpcode(f3, f7).Some?
    ensures Funct7(OpOpcode(f3, f7).value) == f7 <==> f7 == 0 || (f7 == 0x20 && (f3 == 0 || f3 == 5))
  {
  }

  lemma Op32Funct7(f3: bv32, f7: bv32)
    requires Op32Opcode(f3, f7).Some?
    ensures Funct7(Op32Opcode(f3, f7).value) == f7 <==> f7 == 0 || (f7 == 0x20 && (f3 == 0 || f3 == 5))
    ensures f3 == 0 || f3 == 1 || f3 == 5
  {
  }

  lemma RCodes(f: DecodedFields, op: Opcode)
    requires DetermineOpcode(f) == Some(op) && IsRFormat(op)
    ensures Major(op) == f.opcode && Funct3(op) == f.funct3 && (Funct7(op) == f.funct7 <==> Assigned(f))
    ensures f.opcode == 0x33 || f.opcode == 0x3B
  {
    hide DetermineOpcode, OpOpcode, Op32Opcode, OpImmOpcode, OpImm32Opcode, LoadOpcode, StoreOpcode, BranchOpcode,
      SystemOpcode, Major, Funct3, Funct7, IsRFormat, FormatOf;
    Tables(f);
    FormatFacts(op);
    Dispatch(f);
    if f.opcode == 0x33 { OpFunct7(f.funct3, f.funct7); } else { Op32Funct7(f.funct3, f.funct7); }
  }

  /** A word that is decoded to a register instruction is the word of that instruction exactly when it
      is read right: the decoder ignores a function code it does not know. */
  lemma RConverse(raw: bv32, pc: Word)
    requires Decode(raw, pc).Some? && IsRFormat(Decode(raw, pc).value.opcode)
    ensures
      var f, op := ExtractFields(raw), Decode(raw, pc).value.opcode;
      && (IsWordOf(raw, R(op, f.rd, f.rs1, f.rs2)) <==> ReadRight(raw))
      && (ReadRight(raw) <==> Assigned(f))
  {
    hide ExtractFields, DetermineOpcode, PackR, Major, Funct3, Funct7, Assigned, UImmediate, IsRFormat;
    var f, op := ExtractFields(raw), Decode(raw, pc).value.opcode;
    FieldsBelow(raw);
    Repacked(raw);
    RCodes(f, op);
    OpcodeFields(op);
    RFields(Funct7(op), f.rs2, f.rs1, Funct3(op), f.rd, Major(op));
  }

  lemma SignedFields(raw: bv32)
    ensures IsSigned12(IImmediate(raw)) && IsSigned12(SImmediate(raw))
    ensures IsSigned13(BImmediate(raw)) && BImmediate(raw) & 1 == 0
    ensures IsSigned21(JImmediate(raw)) && JImmediate(raw) & 1 == 0
  {
    hide IImmediate, SImmediate, BImmediate, JImmediate;
    ExtendedRange(raw);
    BranchImmediateBits(raw);
    JumpImmediateBits(raw);
  }

  // The codes of the opcode that a word is decoded to
  lemma DecodedCodes(raw: bv32, pc: Word)
    requires Decode(raw, pc).Some?
    ensures
      var f, op := ExtractFields(raw), Decode(raw, pc).value.opcode;
      && Major(op) == f.opcode && (IsIFormat(op) || IsSFormat(op) || IsBranch(op) ==> Funct3(op) == f.funct3)
      && f.rd < 32 && f.rs1 < 32 && f.rs2 < 32
      && (!IsIFormat(op) || IsConstantShift(op) || !IsRFormat(op))
  {
    hide ExtractFields, DetermineOpcode, Major, Funct3, FormatOf, IsIFormat, IsSFormat, IsBranch, IsConstantShift,
      IsRFormat, ExtractOperands;
    Tables(ExtractFields(raw));
    FormatFacts(Decode(raw, pc).value.opcode);
    FieldsBelow(raw);
  }

  /** A word that is decoded to an I-format instruction other than a constant shift is the word of that
      instruction. */
  lemma IConverse(raw: bv32, pc: Word)
    requires Decode(raw, pc).Some?
    requires var op := Decode(raw, pc).value.opcode; IsIFormat(op) && !IsConstantShift(op)
    ensures
      var f, op := ExtractFields(raw), Decode(raw, pc).value.opcode;
      IsWordOf(raw, I(op, f.rd, f.rs1, IImmediate(raw)))
  {
    hide ExtractFields, DetermineOpcode, PackI, Major, Funct3, IImmediate, IsIFormat, IsConstantShift,
      ExtractOperands, IsSigned12;
    DecodedCodes(raw, pc);
    RepackedI(raw);
    SignedFields(raw);
  }

  /** The same for stores. */
  lemma SConverse(raw: bv32, pc: Word)
    requires Decode(raw, pc).Some? && IsSFormat(Decode(raw, pc).value.opcode)
    ensures
      var f, op := ExtractFields(raw), Decode(raw, pc).value.opcode;
      IsWordOf(raw, S(op, f.rs1, f.rs2, SImmediate(raw)))
  {
    hide ExtractFields, DetermineOpcode, PackS, Major, Funct3, SImmediate, IsSFormat, ExtractOperands, IsSigned12;
    DecodedCodes(raw, pc);
    RepackedS(raw);
    SignedFields(raw);
  }

  /** The same for branches. */
  lemma BConverse(raw: bv32, pc: Word)
    requires Decode(raw, pc).Some? && IsBranch(Decode(raw, pc).value.opcode)
    ensures
      var f, op := ExtractFields(raw), Decode(raw, pc).value.opcode;
      IsWordOf(raw, B(op, f.rs1, f.rs2, BImmediate(raw)))
  {
    hide ExtractFields, DetermineOpcode, PackB, Major, Funct3, BImmediate, IsBranch, ExtractOperands, IsSigned13;
    DecodedCodes(raw, pc);
    RepackedB(raw);
    SignedFields(raw);
  }

  /** A word that is decoded to LUI or AUIPC is the word of that instruction, whose operand it is the
      4096-fold of. */
  lemma UConverse(raw: bv32, pc: Word)
    requires Decode(raw, pc).Some? && IsUpper(Decode(raw, pc).value.opcode)
    ensures
      var f, op := ExtractFields(raw), Decode(raw, pc).value.opcode;
      IsWordOf(raw, U(op, f.rd, UImmediate(raw)))
  {
    hide ExtractFields, DetermineOpcode, PackU, Major, UImmediate, IsUpper, ExtractOperands;
    DecodedCodes(raw, pc);
    RepackedU(raw);
  }

  /** A word that is decoded to JAL is the word of that instruction. */
  lemma JConverse(raw: bv32, pc: Word)
    requires Decode(raw, pc).Some? && Decode(raw, pc).value.opcode.JAL?
    ensures IsWordOf(raw, J(ExtractFields(raw).rd, JImmediate(raw)))
  {
    hide ExtractFields, DetermineOpcode, PackJ, Major, JImmediate, ExtractOperands, IsSigned21;
    DecodedCodes(raw, pc);
    RepackedJ(raw);
    SignedFields(raw);
  }

  // The shift that a word with an assigned function code is, by the ISA
  function ShiftOf(f: DecodedFields): Opcode {
    if f.opcode == 0x13 then if f.funct3 == 1 then SLLI else if f.funct7 >> 1 == 0x10 then SRAI else SRLI
    else if f.funct3 == 1 then SLLIW else if f.funct7 == 0x20 then SRAIW else SRLIW
  }

  // and its amount
  function AmountOf(f: DecodedFields, imm: bv32): bv32 { imm & if f.opcode == 0x13 then 0x3F else 0x1F }

  lemma ImmShiftTable(f3: bv32, f7: bv32)
    requires OpImmOpcode(f3, f7).Some? && IsConstantShift(OpImmOpcode(f3, f7).value)
    ensures f3 == 1 || f3 == 5
  {
  }

  lemma Imm32ShiftTable(f3: bv32, f7: bv32)
    requires OpImm32Opcode(f3, f7).Some? && IsConstantShift(OpImm32Opcode(f3, f7).value)
    ensures f3 == 1 || f3 == 5
  {
  }

  lemma ShiftMajor(f: DecodedFields)
    requires DetermineOpcode(f).Some? && IsConstantShift(DetermineOpcode(f).value)
    ensures (f.opcode == 0x13 || f.opcode == 0x1B) && (f.funct3 == 1 || f.funct3 == 5)
  {
    hide DetermineOpcode, OpImmOpcode, OpImm32Opcode, IsConstantShift;
    Tables(f);
    Dispatch(f);
    ShiftTables(DetermineOpcode(f).value);
    if f.opcode == 0x13 { ImmShiftTable(f.funct3, f.funct7); }
    if f.opcode == 0x1B { Imm32ShiftTable(f.funct3, f.funct7); }
  }

  lemma ShiftParts(f: DecodedFields, imm: bv32)
    requires (f.opcode == 0x13 || f.opcode == 0x1B) && (f.funct3 == 1 || f.funct3 == 5) && Assigned(f)
    requires imm < 0x1000 && (imm >> 5) & 0x7F == f.funct7
    ensures
      var op, amount := ShiftOf(f), AmountOf(f, imm);
      && IsConstantShift(op) && amount < AmountBound(op) && ShiftImmediate(op, amount) == imm
      && Major(op) == f.opcode && Funct3(op) == f.funct3
  {
    hide Major, Funct3;
    ShiftTables(ShiftOf(f));
  }

  /** A word that is decoded to a constant shift is the word of some instruction exactly when its
      function code is assigned: then it is that of a shift by the low bits of the immediate. */
  lemma ShiftConverse(raw: bv32, pc: Word)
    requires Decode(raw, pc).Some? && IsConstantShift(Decode(raw, pc).value.opcode)
    ensures
      var f := ExtractFields(raw);
      Assigned(f) <==>
      IsWordOf(raw, Shift(ShiftOf(f), f.rd, f.rs1, AmountOf(f, IField(raw))))
  {
    hide ExtractFields, DetermineOpcode, PackI, IField, IsConstantShift, ExtractOperands, Assigned, ShiftOf, AmountOf,
      IsWordOf;
    var f := ExtractFields(raw);
    FieldsBelow(raw);
    ShiftMajor(f);
    RepackedField(raw);
    FieldOfImmediate(raw);
    CodeOfImmediate(raw);
    var a := Shift(ShiftOf(f), f.rd, f.rs1, AmountOf(f, IField(raw)));
    if Assigned(f) { ShiftRepacked(raw, f, IField(raw)); }
    if IsWordOf(raw, a) { ReadingAssigned(raw, a, pc); }
  }

  lemma ShiftRepacked(raw: bv32, f: DecodedFields, imm: bv32)
    requires (f.opcode == 0x13 || f.opcode == 0x1B) && (f.funct3 == 1 || f.funct3 == 5) && Assigned(f)
    requires imm < 0x1000 && (imm >> 5) & 0x7F == f.funct7 && f.rd < 32 && f.rs1 < 32
    requires raw == PackI(imm, f.rs1, f.funct3, f.rd, f.opcode)
    ensures IsWordOf(raw, Shift(ShiftOf(f), f.rd, f.rs1, AmountOf(f, imm)))
  {
    hide PackI, IsConstantShift, Assigned, ShiftOf, AmountOf, ShiftImmediate, AmountBound, Major, Funct3;
    ShiftParts(f, imm);
  }

  lemma ReadingAssigned(raw: bv32, a: IsaInstruction, pc: Word)
    requires IsWordOf(raw, a) && !a.Fence?
    ensures Assigned(ExtractFields(raw))
  {
    hide Legal, Assembled, Decode, Corrected, Reading, Agrees, ReadRight, Assigned, ExtractFields;
    AllSettled(a, pc);
  }

  lemma EnvironmentWords(raw: bv32)
    requires ExtractFields(raw).opcode == 0x73 && SystemOpcode(ExtractFields(raw)).Some?
    ensures
      var op := SystemOpcode(ExtractFields(raw)).value;
      (op.ECALL? && raw == 0x0000_0073) || (op.EBREAK? && raw == 0x0010_0073)
  {
  }

  lemma SystemConverse(raw: bv32, pc: Word)
    requires Decode(raw, pc).Some? && FormatOf(Decode(raw, pc).value.opcode).SystemForm?
    ensures IsWordOf(raw, Environment(Decode(raw, pc).value.opcode))
  {
    hide ExtractFields, DetermineOpcode, SystemOpcode, ExtractOperands, FormatOf;
    Tables(ExtractFields(raw));
    EnvironmentWords(raw);
  }

  lemma FenceConverse(raw: bv32)
    requires IsFence(ExtractFields(raw))
    ensures IsWordOf(raw, Fence(IField(raw), ExtractFields(raw).rd, ExtractFields(raw).rs1))
  {
    hide ExtractFields, PackI, IField;
    FieldsBelow(raw);
    RepackedField(raw);
    FieldOfImmediate(raw);
  }

  // A word that is decoded, with an assigned function code, is an instruction
  lemma Converse(raw: bv32, pc: Word) returns (a: IsaInstruction)
    requires Decode(raw, pc).Some? && Assigned(ExtractFields(raw))
    ensures IsWordOf(raw, a)
  {
    hide Decode, ExtractFields, Assigned, IsWordOf, IsRFormat, IsIFormat, IsSFormat, IsBranch, IsUpper,
      IsConstantShift, FormatOf, IImmediate, SImmediate, BImmediate, JImmediate, UImmediate, IField, ShiftOf,
      ReadRight;
    var f, op := ExtractFields(raw), Decode(raw, pc).value.opcode;
    FormatFacts(op);
    match FormatOf(op)
    case RForm =>
      RConverse(raw, pc);
      a := R(op, f.rd, f.rs1, f.rs2);
    case IForm =>
      if IsConstantShift(op) {
        ShiftConverse(raw, pc);
        a := Shift(ShiftOf(f), f.rd, f.rs1, AmountOf(f, IField(raw)));
      } else {
        IConverse(raw, pc);
        a := I(op, f.rd, f.rs1, IImmediate(raw));
      }
    case SForm =>
      SConverse(raw, pc);
      a := S(op, f.rs1, f.rs2, SImmediate(raw));
    case BForm =>
      BConverse(raw, pc);
      a := B(op, f.rs1, f.rs2, BImmediate(raw));
    case UForm =>
      UConverse(raw, pc);
      a := U(op, f.rd, UImmediate(raw));
    case JForm =>
      JConverse(raw, pc);
      a := J(f.rd, JImmediate(raw));
    case SystemForm =>
      SystemConverse(raw, pc);
      a := Environment(op);
  }

  lemma NotRecognised(f: DecodedFields)
    requires DetermineOpcode(f).None?
    ensures !IsLongSrai(f) && f.opcode != 0x37 && f.opcode != 0x17
  {
  }

  /** The decoder gives the ISA's instruction, or throws where the ISA has none, for exactly these
      words. */
  lemma DecodesRightIff(raw: bv32, pc: Word)
    ensures Agrees(Decode(raw, pc), IsaDecode(raw, pc)) <==> ReadRight(raw)
  {
    hide ExtractFields, DetermineOpcode, Assigned, Reading, Legal, Assembled, UImmediate, IsLongSrai, ExtractOperands,
      Corrected;
    if a :| IsWordOf(raw, a) {
      ReadingOf(raw, a, pc);
      AllSettled(a, pc);
    } else {
      var f := ExtractFields(raw);
      if IsFence(f) { FenceConverse(raw); }
      if Decode(raw, pc).None? {
        NotRecognised(f);
      } else if Assigned(f) {
        var a := Converse(raw, pc);
      }
    }
  }

  /** Of the instructions of the ISA the decoder throws exactly on FENCE. */
  lemma MissesFenceOnly(raw: bv32, a: IsaInstruction, pc: Word)
    requires IsWordOf(raw, a)
    ensures Decode(raw, pc).None? <==> a.Fence?
  {
    hide Legal, Assembled, Decode, Agrees, ReadRight, Assigned, ExtractFields;
    AllSettled(a, pc);
  }

  /** A word that the decoder takes for an instruction is one of the ISA's exactly when RV64I gives a
      meaning to its function code. */
  lemma DecodedIsInstructionIff(raw: bv32, pc: Word)
    requires Decode(raw, pc).Some?
    ensures (exists a :: IsWordOf(raw, a)) <==> Assigned(ExtractFields(raw))
  {
    hide Legal, Assembled, Decode, Assigned, ExtractFields;
    if a :| IsWordOf(raw, a) {
      MissesFenceOnly(raw, a, pc);
      ReadingAssigned(raw, a, pc);
    } else if Assigned(ExtractFields(raw)) {
      var a := Converse(raw, pc);
    }
  }
}
