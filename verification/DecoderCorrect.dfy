/** Decoding undoes assembling, by the instruction formats of the RISC-V Unprivileged ISA
    (20191213), except where the decoder reads a word differently. */
module DecoderCorrect {
  import opened Options
  import opened Words
  import opened RiscV
  import opened Decoder

  /* ---- Formats, sections 2.2 and 2.3 ---- */

  function PackR(f7: bv32, rs2: bv32, rs1: bv32, f3: bv32, rd: bv32, op: bv32): bv32 {
    (f7 << 25) | (rs2 << 20) | (rs1 << 15) | (f3 << 12) | (rd << 7) | op
  }

  function PackI(imm: bv32, rs1: bv32, f3: bv32, rd: bv32, op: bv32): bv32 {
    ((imm & 0xFFF) << 20) | (rs1 << 15) | (f3 << 12) | (rd << 7) | op
  }

  function PackS(imm: bv32, rs2: bv32, rs1: bv32, f3: bv32, op: bv32): bv32 {
    (((imm >> 5) & 0x7F) << 25) | (rs2 << 20) | (rs1 << 15) | (f3 << 12) | ((imm & 0x1F) << 7) | op
  }

  function PackB(imm: bv32, rs2: bv32, rs1: bv32, f3: bv32, op: bv32): bv32 {
    (((imm >> 12) & 1) << 31) | (((imm >> 5) & 0x3F) << 25) | (rs2 << 20) | (rs1 << 15) | (f3 << 12)
    | (((imm >> 1) & 0xF) << 8) | (((imm >> 11) & 1) << 7) | op
  }

  function PackU(imm: bv32, rd: bv32, op: bv32): bv32 { (imm & 0xFFFF_F000) | (rd << 7) | op }

  function PackJ(imm: bv32, rd: bv32, op: bv32): bv32 {
    (((imm >> 20) & 1) << 31) | (((imm >> 1) & 0x3FF) << 21) | (((imm >> 11) & 1) << 20) | (((imm >> 12) & 0xFF) << 12)
    | (rd << 7) | op
  }

  /* ---- Immediates survive their format ---- */

  lemma IFieldRoundTrip(imm: bv32, rs1: bv32, f3: bv32, rd: bv32, op: bv32)
    requires rs1 < 32 && f3 < 8 && rd < 32 && op < 128
    ensures IField(PackI(imm, rs1, f3, rd, op)) == imm & 0xFFF
  {
  }

  lemma SFieldRoundTrip(imm: bv32, rs2: bv32, rs1: bv32, f3: bv32, op: bv32)
    requires rs2 < 32 && rs1 < 32 && f3 < 8 && op < 128
    ensures SField(PackS(imm, rs2, rs1, f3, op)) == imm & 0xFFF
  {
  }

  lemma BFieldRoundTrip(imm: bv32, rs2: bv32, rs1: bv32, f3: bv32, op: bv32)
    requires imm & 1 == 0 && rs2 < 32 && rs1 < 32 && f3 < 8 && op < 128
    ensures BField(PackB(imm, rs2, rs1, f3, op)) == imm & 0x1FFF
  {
  }

  lemma Extends12(imm: bv32)
    requires imm < 0x800 || imm >= 0xFFFF_F800
    ensures SignExtend12(imm & 0xFFF) == imm
  {
    if imm < 0x800 { Positive12(imm); } else { Negative12(imm); }
  }

  lemma Positive12(imm: bv32)
    requires imm < 0x800
    ensures SignExtend12(imm & 0xFFF) == imm
  {
  }

  lemma Negative12(imm: bv32)
    requires imm >= 0xFFFF_F800
    ensures SignExtend12(imm & 0xFFF) == imm
  {
  }

  lemma Extends13(imm: bv32)
    requires imm < 0x1000 || imm >= 0xFFFF_F000
    ensures SignExtend13(imm & 0x1FFF) == imm
  {
    if imm < 0x1000 { Positive13(imm); } else { Negative13(imm); }
  }

  lemma Positive13(imm: bv32)
    requires imm < 0x1000
    ensures SignExtend13(imm & 0x1FFF) == imm
  {
  }

  lemma Negative13(imm: bv32)
    requires imm >= 0xFFFF_F000
    ensures SignExtend13(imm & 0x1FFF) == imm
  {
  }

  /** An immediate in range is extracted from its format as it was packed, whatever the other
      fields hold. */
  lemma IRoundTrip(imm: bv32, rs1: bv32, f3: bv32, rd: bv32, op: bv32)
    requires (imm < 0x800 || imm >= 0xFFFF_F800) && rs1 < 32 && f3 < 8 && rd < 32 && op < 128
    ensures IImmediate(PackI(imm, rs1, f3, rd, op)) == imm
  {
    hide PackI, IField, SignExtend12;
    IFieldRoundTrip(imm, rs1, f3, rd, op);
    Extends12(imm);
  }

  lemma SRoundTrip(imm: bv32, rs2: bv32, rs1: bv32, f3: bv32, op: bv32)
    requires (imm < 0x800 || imm >= 0xFFFF_F800) && rs2 < 32 && rs1 < 32 && f3 < 8 && op < 128
    ensures SImmediate(PackS(imm, rs2, rs1, f3, op)) == imm
  {
    hide PackS, SField, SignExtend12;
    SFieldRoundTrip(imm, rs2, rs1, f3, op);
    Extends12(imm);
  }

  lemma BRoundTrip(imm: bv32, rs2: bv32, rs1: bv32, f3: bv32, op: bv32)
    requires (imm < 0x1000 || imm >= 0xFFFF_F000) && imm & 1 == 0 && rs2 < 32 && rs1 < 32 && f3 < 8 && op < 128
    ensures BImmediate(PackB(imm, rs2, rs1, f3, op)) == imm
  {
    hide PackB, BField, SignExtend13;
    BFieldRoundTrip(imm, rs2, rs1, f3, op);
    Extends13(imm);
  }

  lemma URoundTrip(imm: bv32, rd: bv32, op: bv32)
    requires imm & 0xFFF == 0 && rd < 32 && op < 128
    ensures UImmediate(PackU(imm, rd, op)) == imm
  {
  }

  lemma JFieldRoundTrip(imm: bv32, rd: bv32, op: bv32)
    requires imm & 1 == 0 && rd < 32 && op < 128
    ensures JField(PackJ(imm, rd, op)) == imm & 0x1F_FFFF
  {
  }

  lemma JExtends(imm: bv32)
    requires imm < 0x10_0000 || imm >= 0xFFF0_0000
    ensures SignExtend21(imm & 0x1F_FFFF) == imm
  {
    if imm < 0x10_0000 { PositiveExtends(imm); } else { NegativeExtends(imm); }
  }

  lemma PositiveExtends(imm: bv32)
    requires imm < 0x10_0000
    ensures SignExtend21(imm & 0x1F_FFFF) == imm
  {
  }

  lemma NegativeExtends(imm: bv32)
    requires imm >= 0xFFF0_0000
    ensures SignExtend21(imm & 0x1F_FFFF) == imm
  {
  }

  lemma JRoundTrip(imm: bv32, rd: bv32, op: bv32)
    requires (imm < 0x10_0000 || imm >= 0xFFF0_0000) && imm & 1 == 0 && rd < 32 && op < 128
    ensures JImmediate(PackJ(imm, rd, op)) == imm
  {
    hide PackJ, JField, SignExtend21;
    JFieldRoundTrip(imm, rd, op);
    JExtends(imm);
  }

  /* ---- The other fields ---- */

  lemma RFields(f7: bv32, rs2: bv32, rs1: bv32, f3: bv32, rd: bv32, op: bv32)
    requires f7 < 128 && rs2 < 32 && rs1 < 32 && f3 < 8 && rd < 32 && op < 128
    ensures ExtractFields(PackR(f7, rs2, rs1, f3, rd, op)) == DecodedFields(op, rd, f3, rs1, rs2, f7)
  {
  }

  lemma IFields(imm: bv32, rs1: bv32, f3: bv32, rd: bv32, op: bv32)
    requires rs1 < 32 && f3 < 8 && rd < 32 && op < 128
    ensures ExtractFields(PackI(imm, rs1, f3, rd, op)) == DecodedFields(op, rd, f3, rs1, imm & 0x1F, (imm >> 5) & 0x7F)
  {
  }

  lemma SFields(imm: bv32, rs2: bv32, rs1: bv32, f3: bv32, op: bv32)
    requires rs2 < 32 && rs1 < 32 && f3 < 8 && op < 128
    ensures
      var f := ExtractFields(PackS(imm, rs2, rs1, f3, op));
      f.opcode == op && f.funct3 == f3 && f.rs1 == rs1 && f.rs2 == rs2
  {
  }

  lemma BFields(imm: bv32, rs2: bv32, rs1: bv32, f3: bv32, op: bv32)
    requires rs2 < 32 && rs1 < 32 && f3 < 8 && op < 128
    ensures
      var f := ExtractFields(PackB(imm, rs2, rs1, f3, op));
      f.opcode == op && f.funct3 == f3 && f.rs1 == rs1 && f.rs2 == rs2
  {
  }

  lemma UFields(imm: bv32, rd: bv32, op: bv32)
    requires rd < 32 && op < 128
    ensures var f := ExtractFields(PackU(imm, rd, op)); f.opcode == op && f.rd == rd
  {
  }

  lemma JFields(imm: bv32, rd: bv32, op: bv32)
    requires rd < 32 && op < 128
    ensures var f := ExtractFields(PackJ(imm, rd, op)); f.opcode == op && f.rd == rd
  {
  }

  /* ---- Opcodes ---- */

  function Major(op: Opcode): bv32 {
    match op
    case ADD | SUB | SLL | SLT | SLTU | XOR | SRL | SRA | OR | AND => 0x33
    case ADDW | SUBW | SLLW | SRLW | SRAW => 0x3B
    case ADDI | SLLI | SLTI | SLTIU | XORI | SRLI | SRAI | ORI | ANDI => 0x13
    case ADDIW | SLLIW | SRLIW | SRAIW => 0x1B
    case LB | LH | LW | LD | LBU | LHU | LWU => 0x03
    case SB | SH | SW | SD => 0x23
    case BEQ | BNE | BLT | BGE | BLTU | BGEU => 0x63
    case JALR => 0x67
    case JAL => 0x6F
    case LUI => 0x37
    case AUIPC => 0x17
    case _ => 0x73
  }

  function Funct3(op: Opcode): bv32 {
    match op
    case SLL | SLLI | SLLW | SLLIW | LH | SH | BNE => 1
    case SLT | SLTI | LW | SW => 2
    case SLTU | SLTIU | LD | SD => 3
    case XOR | XORI | LBU | BLT => 4
    case SRL | SRLI | SRLW | SRLIW | SRA | SRAI | SRAW | SRAIW | LHU | BGE => 5
    case OR | ORI | LWU | BLTU => 6
    case AND | ANDI | BGEU => 7
    case _ => 0
  }

  function Funct7(op: Opcode): bv32 { if op.SUB? || op.SUBW? || op.SRA? || op.SRAW? then 0x20 else 0 }

  lemma MajorFits(op: Opcode)
    ensures Major(op) < 128
  {
  }

  lemma Funct3Fits(op: Opcode)
    ensures Funct3(op) < 8
  {
  }

  lemma OpcodeFields(op: Opcode)
    ensures Major(op) < 128 && Funct3(op) < 8 && Funct7(op) < 128
  {
    hide Major, Funct3;
    MajorFits(op);
    Funct3Fits(op);
  }

  lemma MajorOfR(op: Opcode)
    requires IsRFormat(op)
    ensures Major(op) == 0x33 || Major(op) == 0x3B
  {
  }

  lemma ROpcode(f: DecodedFields, op: Opcode)
    requires IsRFormat(op) && f.opcode == Major(op) && f.funct3 == Funct3(op) && f.funct7 == Funct7(op)
    ensures DetermineOpcode(f) == Some(op)
  {
    hide DetermineOpcode, OpOpcode, Op32Opcode, Funct3, Funct7, Major, IsRFormat;
    Dispatch(f);
    MajorOfR(op);
    if Major(op) == 0x33 { OpTable(f.funct3, f.funct7, op); } else { Op32Table(f.funct3, f.funct7, op); }
  }

  // The table that each major opcode selects
  lemma Dispatch(f: DecodedFields)
    ensures f.opcode == 0x33 ==> DetermineOpcode(f) == OpOpcode(f.funct3, f.funct7)
    ensures f.opcode == 0x3B ==> DetermineOpcode(f) == Op32Opcode(f.funct3, f.funct7)
    ensures f.opcode == 0x13 ==> DetermineOpcode(f) == OpImmOpcode(f.funct3, f.funct7)
    ensures f.opcode == 0x1B ==> DetermineOpcode(f) == OpImm32Opcode(f.funct3, f.funct7)
    ensures f.opcode == 0x03 ==> DetermineOpcode(f) == LoadOpcode(f.funct3)
    ensures f.opcode == 0x23 ==> DetermineOpcode(f) == StoreOpcode(f.funct3)
    ensures f.opcode == 0x63 ==> DetermineOpcode(f) == BranchOpcode(f.funct3)
    ensures f.opcode == 0x67 && f.funct3 == 0 ==> DetermineOpcode(f) == Some(JALR)
  {
    hide OpOpcode, Op32Opcode, OpImmOpcode, OpImm32Opcode, LoadOpcode, StoreOpcode, BranchOpcode, SystemOpcode;
  }

  lemma OpTable(f3: bv32, f7: bv32, op: Opcode)
    requires f3 == Funct3(op) && f7 == Funct7(op) && IsRFormat(op) && Major(op) == 0x33
    ensures OpOpcode(f3, f7) == Some(op)
  {
  }

  lemma Op32Table(f3: bv32, f7: bv32, op: Opcode)
    requires f3 == Funct3(op) && f7 == Funct7(op) && IsRFormat(op) && Major(op) == 0x3B
    ensures Op32Opcode(f3, f7) == Some(op)
  {
  }

  predicate IsRightShift(op: Opcode) { op.SRLI? || op.SRAI? || op.SRLIW? || op.SRAIW? }

  lemma ImmTable(f: DecodedFields, op: Opcode)
    requires IsIFormat(op) && !IsRightShift(op) && f.funct3 == Funct3(op) && Major(op) == 0x13
    ensures OpImmOpcode(f.funct3, f.funct7) == Some(op)
  {
  }

  lemma Imm32Table(f: DecodedFields, op: Opcode)
    requires IsIFormat(op) && !IsRightShift(op) && f.funct3 == Funct3(op) && Major(op) == 0x1B
    ensures OpImm32Opcode(f.funct3, f.funct7) == Some(op)
  {
  }

  lemma LoadTable(f: DecodedFields, op: Opcode)
    requires IsIFormat(op) && f.funct3 == Funct3(op) && Major(op) == 0x03
    ensures LoadOpcode(f.funct3) == Some(op)
  {
  }

  lemma IOpcode(f: DecodedFields, op: Opcode)
    requires IsIFormat(op) && !IsRightShift(op) && f.opcode == Major(op) && f.funct3 == Funct3(op)
    ensures DetermineOpcode(f) == Some(op)
  {
    hide DetermineOpcode, OpImmOpcode, OpImm32Opcode, LoadOpcode, Funct3, Major, IsIFormat, IsRightShift;
    Dispatch(f);
    MajorOfI(op);
    if op.JALR? { JalrFunct3(); }
    else if Major(op) == 0x03 { LoadTable(f, op); }
    else if Major(op) == 0x1B { Imm32Table(f, op); }
    else { ImmTable(f, op); }
  }

  lemma MajorOfIType(op: Opcode)
    requires IsIType(op) || op.SRLIW? || op.SRAIW?
    ensures !op.JALR? && (Major(op) == 0x13 || Major(op) == 0x1B)
  {
  }

  lemma MajorOfLoad(op: Opcode)
    requires IsLoad(op) || op.LBU? || op.LHU?
    ensures !op.JALR? && Major(op) == 0x03
  {
  }

  lemma MajorOfJalr()
    ensures Major(JALR) == 0x67
  {
  }

  lemma MajorOfI(op: Opcode)
    requires IsIFormat(op)
    ensures if op.JALR? then Major(op) == 0x67 else Major(op) == 0x13 || Major(op) == 0x1B || Major(op) == 0x03
  {
    hide Major, IsIType, IsLoad;
    if op.JALR? {
      MajorOfJalr();
    } else if IsLoad(op) || op.LBU? || op.LHU? {
      MajorOfLoad(op);
    } else {
      MajorOfIType(op);
    }
  }

  lemma JalrFunct3()
    ensures Funct3(JALR) == 0
  {
  }

  lemma OtherOpcode(f: DecodedFields, op: Opcode)
    requires IsSFormat(op) || IsBranch(op)
    requires f.opcode == Major(op) && f.funct3 == Funct3(op)
    ensures DetermineOpcode(f) == Some(op)
  {
    hide DetermineOpcode, StoreOpcode, BranchOpcode, Funct3, Major, IsSFormat, IsBranch;
    Dispatch(f);
    if IsBranch(op) {
      MajorOfBranch(op);
      BranchTable(f.funct3, op);
    } else {
      MajorOfStore(op);
      StoreTable(f.funct3, op);
    }
  }

  lemma MajorOfBranch(op: Opcode)
    requires IsBranch(op)
    ensures Major(op) == 0x63
  {
  }

  lemma MajorOfStore(op: Opcode)
    requires IsSFormat(op)
    ensures Major(op) == 0x23
  {
  }

  lemma BranchTable(f3: bv32, op: Opcode)
    requires IsBranch(op) && f3 == Funct3(op)
    ensures BranchOpcode(f3) == Some(op)
  {
  }

  lemma StoreTable(f3: bv32, op: Opcode)
    requires IsSFormat(op) && f3 == Funct3(op)
    ensures StoreOpcode(f3) == Some(op)
  {
  }

  /* ---- Assembled words decode to what they were assembled from ---- */

  lemma ROperands(f: DecodedFields, op: Opcode, raw: bv32)
    requires IsRFormat(op)
    ensures ExtractOperands(f, op, raw) == [Reg(f.rd), Reg(f.rs1), Reg(f.rs2)]
  {
    hide Reg, IsRFormat;
  }

  lemma IOperands(f: DecodedFields, op: Opcode, raw: bv32)
    requires IsIFormat(op)
    ensures ExtractOperands(f, op, raw) == [Reg(f.rd), Reg(f.rs1), Immediate(Int32(IImmediate(raw)))]
  {
    NotSystemI(op);
    hide Reg, IsRFormat, IsIFormat, Int32, IImmediate;
  }

  lemma OtherFormat(op: Opcode)
    requires IsSFormat(op) || IsBranch(op) || IsUpper(op) || op.JAL?
    ensures !IsRFormat(op) && !IsIFormat(op)
  {
  }

  lemma OneFormat(op: Opcode)
    ensures !(IsSFormat(op) && IsBranch(op)) && !(IsSFormat(op) && IsUpper(op)) && !(IsBranch(op) && IsUpper(op))
    ensures op.JAL? ==> !IsSFormat(op) && !IsBranch(op) && !IsUpper(op)
  {
  }

  lemma OtherOperands(f: DecodedFields, op: Opcode, raw: bv32)
    requires IsSFormat(op) || IsBranch(op) || IsUpper(op) || op.JAL?
    ensures
      ExtractOperands(f, op, raw) ==
      if IsSFormat(op) then [Reg(f.rs1), Reg(f.rs2), Immediate(Int32(SImmediate(raw)))]
      else if IsBranch(op) then [Reg(f.rs1), Reg(f.rs2), Immediate(Int32(BImmediate(raw)))]
      else if IsUpper(op) then [Reg(f.rd), Immediate(Int32(UImmediate(raw)))]
      else [Reg(f.rd), Immediate(Int32(JImmediate(raw)))]
  {
    hide Reg, IsRFormat, IsIFormat, IsSFormat, IsBranch, IsUpper, Int32, SImmediate, BImmediate, UImmediate,
      JImmediate;
    OtherFormat(op);
    OneFormat(op);
  }

  lemma RDecodes(op: Opcode, rd: bv32, rs1: bv32, rs2: bv32, pc: Word)
    requires IsRFormat(op) && rd < 32 && rs1 < 32 && rs2 < 32
    ensures Decode(PackR(Funct7(op), rs2, rs1, Funct3(op), rd, Major(op)), pc) ==
            Some(Instruction(op, [Reg(rd), Reg(rs1), Reg(rs2)], pc))
  {
    hide PackR, ExtractFields, DetermineOpcode, Funct3, Funct7, Major, Reg, IsRFormat, ExtractOperands;
    OpcodeFields(op);
    RFields(Funct7(op), rs2, rs1, Funct3(op), rd, Major(op));
    var raw := PackR(Funct7(op), rs2, rs1, Funct3(op), rd, Major(op));
    ROpcode(ExtractFields(raw), op);
    ROperands(ExtractFields(raw), op, raw);
  }

  lemma IDecodes(op: Opcode, rd: bv32, rs1: bv32, imm: bv32, pc: Word)
    requires IsIFormat(op) && !IsRightShift(op) && rd < 32 && rs1 < 32 && (imm < 0x800 || imm >= 0xFFFF_F800)
    ensures Decode(PackI(imm, rs1, Funct3(op), rd, Major(op)), pc) ==
            Some(Instruction(op, [Reg(rd), Reg(rs1), Immediate(Int32(imm))], pc))
  {
    hide PackI, ExtractFields, DetermineOpcode, Funct3, Major, Reg, IImmediate, Int32, IsIFormat, IsRightShift,
      ExtractOperands;
    OpcodeFields(op);
    IFields(imm, rs1, Funct3(op), rd, Major(op));
    IRoundTrip(imm, rs1, Funct3(op), rd, Major(op));
    var raw := PackI(imm, rs1, Funct3(op), rd, Major(op));
    IOpcode(ExtractFields(raw), op);
    IOperands(ExtractFields(raw), op, raw);
  }

  lemma NotSystemI(op: Opcode)
    requires IsIFormat(op)
    ensures !IsRFormat(op)
  {
  }

  lemma SDecodes(op: Opcode, rs1: bv32, rs2: bv32, imm: bv32, pc: Word)
    requires IsSFormat(op) && rs1 < 32 && rs2 < 32 && (imm < 0x800 || imm >= 0xFFFF_F800)
    ensures Decode(PackS(imm, rs2, rs1, Funct3(op), Major(op)), pc) ==
            Some(Instruction(op, [Reg(rs1), Reg(rs2), Immediate(Int32(imm))], pc))
  {
    hide PackS, ExtractFields, DetermineOpcode, Funct3, Major, Reg, SImmediate, Int32, IsSFormat, ExtractOperands;
    OpcodeFields(op);
    SFields(imm, rs2, rs1, Funct3(op), Major(op));
    SRoundTrip(imm, rs2, rs1, Funct3(op), Major(op));
    var raw := PackS(imm, rs2, rs1, Funct3(op), Major(op));
    OtherOpcode(ExtractFields(raw), op);
    OtherOperands(ExtractFields(raw), op, raw);
  }

  lemma BDecodes(op: Opcode, rs1: bv32, rs2: bv32, imm: bv32, pc: Word)
    requires IsBranch(op) && rs1 < 32 && rs2 < 32 && (imm < 0x1000 || imm >= 0xFFFF_F000) && imm & 1 == 0
    ensures Decode(PackB(imm, rs2, rs1, Funct3(op), Major(op)), pc) ==
            Some(Instruction(op, [Reg(rs1), Reg(rs2), Immediate(Int32(imm))], pc))
  {
    hide PackB, ExtractFields, DetermineOpcode, Funct3, Major, Reg, BImmediate, Int32, IsBranch, IsSFormat,
      ExtractOperands;
    OpcodeFields(op);
    BFields(imm, rs2, rs1, Funct3(op), Major(op));
    BRoundTrip(imm, rs2, rs1, Funct3(op), Major(op));
    var raw := PackB(imm, rs2, rs1, Funct3(op), Major(op));
    OtherOpcode(ExtractFields(raw), op);
    OtherOperands(ExtractFields(raw), op, raw);
    OneFormat(op);
  }

  lemma UDecodes(op: Opcode, rd: bv32, imm: bv32, pc: Word)
    requires IsUpper(op) && rd < 32 && imm & 0xFFF == 0
    ensures Decode(PackU(imm, rd, Major(op)), pc) == Some(Instruction(op, [Reg(rd), Immediate(Int32(imm))], pc))
  {
    hide PackU, ExtractFields, DetermineOpcode, Major, Reg, UImmediate, Int32, IsUpper, IsSFormat, IsBranch,
      ExtractOperands;
    MajorFits(op);
    UFields(imm, rd, Major(op));
    URoundTrip(imm, rd, Major(op));
    var raw := PackU(imm, rd, Major(op));
    UpperOpcode(ExtractFields(raw), op);
    OtherOperands(ExtractFields(raw), op, raw);
    OneFormat(op);
  }

  lemma MajorOfUpper(op: Opcode)
    requires IsUpper(op) || op.JAL?
    ensures Major(op) == if op.LUI? then 0x37 else if op.AUIPC? then 0x17 else 0x6F
  {
  }

  lemma UpperOpcode(f: DecodedFields, op: Opcode)
    requires (IsUpper(op) || op.JAL?) && f.opcode == Major(op)
    ensures DetermineOpcode(f) == Some(op)
  {
    hide DetermineOpcode, Major;
    MajorOfUpper(op);
    UpperDispatch(f);
  }

  lemma UpperDispatch(f: DecodedFields)
    ensures f.opcode == 0x6F ==> DetermineOpcode(f) == Some(JAL)
    ensures f.opcode == 0x37 ==> DetermineOpcode(f) == Some(LUI)
    ensures f.opcode == 0x17 ==> DetermineOpcode(f) == Some(AUIPC)
  {
    hide OpOpcode, Op32Opcode, OpImmOpcode, OpImm32Opcode, LoadOpcode, StoreOpcode, BranchOpcode, SystemOpcode;
  }

  lemma JDecodes(rd: bv32, imm: bv32, pc: Word)
    requires rd < 32 && (imm < 0x10_0000 || imm >= 0xFFF0_0000) && imm & 1 == 0
    ensures Decode(PackJ(imm, rd, Major(JAL)), pc) == Some(Instruction(JAL, [Reg(rd), Immediate(Int32(imm))], pc))
  {
    hide PackJ, ExtractFields, DetermineOpcode, Major, Reg, JImmediate, Int32, IsUpper, IsSFormat, IsBranch,
      ExtractOperands;
    MajorFits(JAL);
    JFields(imm, rd, Major(JAL));
    var raw := PackJ(imm, rd, Major(JAL));
    UpperOpcode(ExtractFields(raw), JAL);
    OtherOperands(ExtractFields(raw), JAL, raw);
    OneFormat(JAL);
    JRoundTrip(imm, rd, Major(JAL));
  }

  /* ---- Right shifts by a constant ---- */

  // SRLI and SRAI: a six-bit shift amount under a six-bit function code
  function PackShift(arithmetic: bool, shamt: bv32, rs1: bv32, rd: bv32): bv32 {
    PackI((if arithmetic then 0x400 else 0) | shamt, rs1, 5, rd, 0x13)
  }

  lemma ShiftBits(arithmetic: bool, shamt: bv32)
    requires shamt < 64
    ensures
      var imm := (if arithmetic then 0x400 else 0) | shamt;
      imm < 0x800 && ((imm >> 5) & 0x7F == 0x20 <==> arithmetic && shamt < 32)
  {
  }

  /** SRAI is decoded as SRAI exactly when its shift amount is below 32, and as SRLI otherwise. */
  lemma ShiftDecodes(arithmetic: bool, shamt: bv32, rs1: bv32, rd: bv32, pc: Word)
    requires shamt < 64 && rs1 < 32 && rd < 32
    ensures
      var imm := (if arithmetic then 0x400 else 0) | shamt;
      Decode(PackShift(arithmetic, shamt, rs1, rd), pc) ==
      Some(Instruction(if arithmetic && shamt < 32 then SRAI else SRLI, [Reg(rd), Reg(rs1), Immediate(Int32(imm))], pc))
  {
    hide PackI, ExtractFields, Reg, IImmediate, Int32;
    var imm := (if arithmetic then 0x400 else 0) | shamt;
    ShiftBits(arithmetic, shamt);
    IFields(imm, rs1, 5, rd, 0x13);
    IRoundTrip(imm, rs1, 5, rd, 0x13);
  }

  // The decoded operand of SRAI keeps the bit that marks it
  lemma MarkedAmount(shamt: bv32)
    requires shamt < 64
    ensures Int32(0x400 | shamt) == 1024 + shamt as int
  {
  }

  lemma PlainAmount(shamt: bv32)
    requires shamt < 64
    ensures Int32(0 | shamt) == shamt as int && 0 <= shamt as int < 64
  {
  }

  lemma {:induction false} MinusOneShifts(s: nat)
    ensures ShiftSigned(-1, s) == -1
    decreases s
  {
    if s != 0 { MinusOneShifts(s - 1); }
  }

  lemma {:induction false} LogicalShrinks(x: Word, s: nat)
    ensures Shr64(x, s) <= x && (s > 0 && x > 0 ==> Shr64(x, s) < x)
    decreases s
  {
    if s != 0 { LogicalShrinks(x / 2, s - 1); }
  }

  // A logical right shift is not an arithmetic one
  lemma ShiftsDiffer(s: nat)
    requires 0 < s < 64
    ensures Sar64(TWO64 - 1, s) != Shr64(TWO64 - 1, s)
  {
    MinusOneShifts(s);
    LogicalShrinks(TWO64 - 1, s);
    hide Shr64, ShiftSigned;
  }

  ghost predicate ShiftsLike(op: Opcode, imm: int, op': Opcode, amount: nat)
    requires IsIType(op) && IsIType(op')
  {
    forall a: Word :: Arithmetic(op, a, ToWord(imm)) == Arithmetic(op', a, ToWord(amount))
  }

  /** What a right shift by a constant decodes to shifts as the ISA says exactly when it is not
      an SRAI by 32 or more. */
  lemma ShiftDecodesRightIff(arithmetic: bool, shamt: bv32)
    requires shamt < 64
    ensures
      var imm := Int32((if arithmetic then 0x400 else 0) | shamt);
      ShiftsLike(if arithmetic && shamt < 32 then SRAI else SRLI, imm,
                 if arithmetic then SRAI else SRLI, shamt as int) <==>
      !(arithmetic && shamt >= 32)
  {
    hide Int32, ShiftsLike;
    PlainAmount(shamt);
    if arithmetic { MarkedAmount(shamt); }
    if shamt >= 32 { AtLeast32(shamt); } else { Below32Number(shamt); }
    AmountDecodesRight(arithmetic, shamt as int);
  }

  lemma AmountDecodesRight(arithmetic: bool, n: nat)
    requires n < 64
    ensures
      ShiftsLike(if arithmetic && n < 32 then SRAI else SRLI, if arithmetic then 1024 + n else n,
                 if arithmetic then SRAI else SRLI, n) <==>
      !(arithmetic && n >= 32)
  {
    hide Shr64, Sar64;
    if arithmetic && n >= 32 {
      ShiftsDiffer(n);
      assert Arithmetic(SRLI, TWO64 - 1, ToWord(1024 + n)) != Arithmetic(SRAI, TWO64 - 1, ToWord(n));
    }
  }

  lemma AtLeast32(shamt: bv32)
    requires shamt >= 32
    ensures shamt as int >= 32
  {
  }

  lemma Below32Number(shamt: bv32)
    requires shamt < 32
    ensures shamt as int < 32
  {
  }
}
