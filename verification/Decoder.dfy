/** The RISC-V decoder: fields, opcodes and immediates of a 32-bit word. */
module Decoder {
  import opened Options
  import opened Words
  import opened RiscV
  import Bitvectors

  datatype DecodedFields =
    DecodedFields(opcode: bv32, rd: bv32, funct3: bv32, rs1: bv32, rs2: bv32, funct7: bv32)

  function ExtractFields(raw: bv32): DecodedFields {
    DecodedFields(raw & 0x7F, (raw >> 7) & 0x1F, (raw >> 12) & 7, (raw >> 15) & 0x1F, (raw >> 20) & 0x1F,
      (raw >> 25) & 0x7F)
  }

  // static_cast<int32_t>
  function Int32(b: bv32): int { SignedOf(b as int) }

  function SignedOf(n: int): int { if n < 0x8000_0000 then n else n - TWO32 }

  // The word with the bits above a set sign bit set; sign is bit n-1 and ones the bits from n up
  function Extended(value: bv32, sign: bv32, ones: bv32): bv32 {
    if value & sign != 0 then value | ones else value
  }

  function SignExtend12(value: bv32): bv32 { Extended(value, 0x800, 0xFFFF_F000) }

  function SignExtend13(value: bv32): bv32 { Extended(value, 0x1000, 0xFFFF_E000) }

  function SignExtend21(value: bv32): bv32 { Extended(value, 0x10_0000, 0xFFE0_0000) }

  function IField(raw: bv32): bv32 { (raw >> 20) & 0xFFF }

  function IImmediate(raw: bv32): bv32 { SignExtend12(IField(raw)) }

  function SField(raw: bv32): bv32 { (((raw >> 25) & 0x7F) << 5) | ((raw >> 7) & 0x1F) }

  function SImmediate(raw: bv32): bv32 { SignExtend12(SField(raw)) }

  function BField(raw: bv32): bv32 {
    (((raw >> 31) & 1) << 12) | (((raw >> 7) & 1) << 11) | (((raw >> 25) & 0x3F) << 5) | (((raw >> 8) & 0xF) << 1)
  }

  function BImmediate(raw: bv32): bv32 { SignExtend13(BField(raw)) }

  function UImmediate(raw: bv32): bv32 { raw & 0xFFFF_F000 }

  function JField(raw: bv32): bv32 {
    (((raw >> 31) & 1) << 20) | (((raw >> 12) & 0xFF) << 12) | (((raw >> 20) & 1) << 11) | (((raw >> 21) & 0x3FF) << 1)
  }

  function JImmediate(raw: bv32): bv32 { SignExtend21(JField(raw)) }

  function OpOpcode(f3: bv32, f7: bv32): Option<Opcode> {
    match f3
    case 0 => Some(if f7 == 0x20 then SUB else ADD)
    case 1 => Some(SLL)
    case 2 => Some(SLT)
    case 3 => Some(SLTU)
    case 4 => Some(XOR)
    case 5 => Some(if f7 == 0x20 then SRA else SRL)
    case 6 => Some(OR)
    case 7 => Some(AND)
    case _ => None
  }

  function Op32Opcode(f3: bv32, f7: bv32): Option<Opcode> {
    match f3
    case 0 => Some(if f7 == 0x20 then SUBW else ADDW)
    case 1 => Some(SLLW)
    case 5 => Some(if f7 == 0x20 then SRAW else SRLW)
    case _ => None
  }

  function OpImmOpcode(f3: bv32, f7: bv32): Option<Opcode> {
    match f3
    case 0 => Some(ADDI)
    case 1 => Some(SLLI)
    case 2 => Some(SLTI)
    case 3 => Some(SLTIU)
    case 4 => Some(XORI)
    case 5 => Some(if f7 == 0x20 then SRAI else SRLI)
    case 6 => Some(ORI)
    case 7 => Some(ANDI)
    case _ => None
  }

  function OpImm32Opcode(f3: bv32, f7: bv32): Option<Opcode> {
    match f3
    case 0 => Some(ADDIW)
    case 1 => Some(SLLIW)
    case 5 => Some(if f7 == 0x20 then SRAIW else SRLIW)
    case _ => None
  }

  function LoadOpcode(f3: bv32): Option<Opcode> {
    match f3
    case 0 => Some(LB)
    case 1 => Some(LH)
    case 2 => Some(LW)
    case 3 => Some(LD)
    case 4 => Some(LBU)
    case 5 => Some(LHU)
    case 6 => Some(LWU)
    case _ => None
  }

  function StoreOpcode(f3: bv32): Option<Opcode> {
    match f3
    case 0 => Some(SB)
    case 1 => Some(SH)
    case 2 => Some(SW)
    case 3 => Some(SD)
    case _ => None
  }

  function BranchOpcode(f3: bv32): Option<Opcode> {
    match f3
    case 0 => Some(BEQ)
    case 1 => Some(BNE)
    case 4 => Some(BLT)
    case 5 => Some(BGE)
    case 6 => Some(BLTU)
    case 7 => Some(BGEU)
    case _ => None
  }

  function SystemOpcode(f: DecodedFields): Option<Opcode> {
    var imm := f.rs2 | (f.funct7 << 5);
    if f.funct3 != 0 || f.rd != 0 || f.rs1 != 0 then None
    else if imm == 0 then Some(ECALL)
    else if imm == 1 then Some(EBREAK)
    else None
  }

  // None: an unrecognised word throws
  function DetermineOpcode(f: DecodedFields): Option<Opcode> {
    match f.opcode
    case 0x33 => OpOpcode(f.funct3, f.funct7)
    case 0x3B => Op32Opcode(f.funct3, f.funct7)
    case 0x13 => OpImmOpcode(f.funct3, f.funct7)
    case 0x1B => OpImm32Opcode(f.funct3, f.funct7)
    case 0x03 => LoadOpcode(f.funct3)
    case 0x23 => StoreOpcode(f.funct3)
    case 0x63 => BranchOpcode(f.funct3)
    case 0x67 => if f.funct3 == 0 then Some(JALR) else None
    case 0x6F => Some(JAL)
    case 0x37 => Some(LUI)
    case 0x17 => Some(AUIPC)
    case 0x73 => SystemOpcode(f)
    case _ => None
  }

  function Reg(field: bv32): Operand { Register(field as int) }

  predicate IsRFormat(op: Opcode) { IsRType(op) || op.SUBW? || op.SLLW? || op.SRLW? || op.SRAW? }

  predicate IsIFormat(op: Opcode) {
    IsIType(op) || IsLoad(op) || op.JALR? || op.SRLIW? || op.SRAIW? || op.LBU? || op.LHU?
  }

  predicate IsSFormat(op: Opcode) { op.SB? || op.SH? || op.SW? || op.SD? }

  function ExtractOperands(f: DecodedFields, op: Opcode, raw: bv32): seq<Operand> {
    if IsRFormat(op) then [Reg(f.rd), Reg(f.rs1), Reg(f.rs2)]
    else if IsIFormat(op) then [Reg(f.rd), Reg(f.rs1), Immediate(Int32(IImmediate(raw)))]
    else if IsSFormat(op) then [Reg(f.rs1), Reg(f.rs2), Immediate(Int32(SImmediate(raw)))]
    else if IsBranch(op) then [Reg(f.rs1), Reg(f.rs2), Immediate(Int32(BImmediate(raw)))]
    else if IsUpper(op) then [Reg(f.rd), Immediate(Int32(UImmediate(raw)))]
    else if op.JAL? then [Reg(f.rd), Immediate(Int32(JImmediate(raw)))]
    else []
  }

  function Decode(raw: bv32, pc: Word): Option<Instruction> {
    var f := ExtractFields(raw);
    var op :- DetermineOpcode(f);
    Some(Instruction(op, ExtractOperands(f, op, raw), pc))
  }

  /* ---- Ranges, for every word ---- */

  // A sign-extended value is small or a small negative number
  lemma ExtendedRange(raw: bv32)
    ensures IImmediate(raw) < 0x800 || IImmediate(raw) >= 0xFFFF_F800
    ensures SImmediate(raw) < 0x800 || SImmediate(raw) >= 0xFFFF_F800
  {
  }

  lemma BranchImmediateBits(raw: bv32)
    ensures BImmediate(raw) < 0x1000 || BImmediate(raw) >= 0xFFFF_F000
    ensures BImmediate(raw) & 1 == 0
  {
  }

  lemma JumpImmediateBits(raw: bv32)
    ensures JImmediate(raw) < 0x10_0000 || JImmediate(raw) >= 0xFFF0_0000
    ensures JImmediate(raw) & 1 == 0
  {
  }

  lemma Below12(b: bv32)
    requires b < 0x800 || b >= 0xFFFF_F800
    ensures -0x800 <= Int32(b) < 0x800
  {
  }

  lemma Below13(b: bv32)
    requires b < 0x1000 || b >= 0xFFFF_F000
    ensures -0x1000 <= Int32(b) < 0x1000
  {
  }

  lemma Below21(b: bv32)
    requires b < 0x10_0000 || b >= 0xFFF0_0000
    ensures -0x10_0000 <= Int32(b) < 0x10_0000
  {
    if b < 0x10_0000 { Bitvectors.Below20(b); } else { Bitvectors.AtLeastMinus20(b); }
    hide SignedOf;
    SignedRange(b as int);
  }

  lemma SignedRange(n: int)
    requires 0 <= n < 0x10_0000 || 0xFFF0_0000 <= n < TWO32
    ensures -0x10_0000 <= SignedOf(n) < 0x10_0000
  {
  }

  lemma EvenWord(b: bv32)
    requires b & 1 == 0
    ensures Int32(b) % 2 == 0
  {
    EvenInt(b);
    EvenSignedWord(b);
  }

  lemma EvenInt(b: bv32)
    requires b & 1 == 0
    ensures (b as int) % 2 == 0
  {
    HalfOfEven(b);
    EvenNumber(b, b >> 1);
  }

  lemma EvenSignedWord(b: bv32)
    requires (b as int) % 2 == 0
    ensures Int32(b) % 2 == 0
  {
    hide SignedOf;
    EvenSigned(b as int);
  }

  lemma EvenNumber(b: bv32, h: bv32)
    requires b == h << 1 && h < 0x8000_0000
    ensures (b as int) % 2 == 0
  {
    Bitvectors.DoubleEven(h);
  }

  lemma EvenSigned(n: int)
    requires n % 2 == 0
    ensures SignedOf(n) % 2 == 0
  {
  }

  lemma HalfOfEven(b: bv32)
    requires b & 1 == 0
    ensures (b >> 1) << 1 == b && b >> 1 < 0x8000_0000
  {
  }

  /** Branch and jump offsets are even and in range, whatever the word. */
  lemma OffsetsInRange(raw: bv32)
    ensures var b := Int32(BImmediate(raw)); b % 2 == 0 && -0x1000 <= b < 0x1000
    ensures var j := Int32(JImmediate(raw)); j % 2 == 0 && -0x10_0000 <= j < 0x10_0000
  {
    hide BImmediate, JImmediate, Int32;
    BranchImmediateBits(raw);
    JumpImmediateBits(raw);
    EvenWord(BImmediate(raw));
    EvenWord(JImmediate(raw));
    Below13(BImmediate(raw));
    Below21(JImmediate(raw));
  }

  lemma FieldRange(raw: bv32)
    ensures var f := ExtractFields(raw); f.rd < 32 && f.rs1 < 32 && f.rs2 < 32
  {
  }

  lemma RegInRange(field: bv32)
    requires field < 32
    ensures IsRegister(Reg(field))
  {
  }

  /** What the decoder makes of any word has the operands that the lifter expects of its opcode. */
  lemma DecodedIsSupported(raw: bv32, pc: Word)
    requires Decode(raw, pc).Some?
    requires
      var op := Decode(raw, pc).value.opcode;
      IsRType(op) || IsIType(op) || IsLoad(op) || IsStore(op) || IsUpper(op) || IsTerminator(op)
    ensures Supported(Decode(raw, pc).value)
  {
    hide ExtractFields, DetermineOpcode, IImmediate, SImmediate, BImmediate, JImmediate, UImmediate, Int32, Reg;
    FieldRange(raw);
    var f := ExtractFields(raw);
    RegInRange(f.rd);
    RegInRange(f.rs1);
    RegInRange(f.rs2);
    ExtendedRange(raw);
    Below12(IImmediate(raw));
    Below12(SImmediate(raw));
    OffsetsInRange(raw);
    Below32(UImmediate(raw));
  }

  lemma Below32(b: bv32)
    ensures -0x8000_0000 <= Int32(b) < 0x8000_0000
  {
  }
}
