/** The 32-bit encodings of the ARM64 instructions the translator emits, and a decoder of
    those encodings after chapter C4 of the Arm ARM (DDI 0487). */
module Encoder {
  import opened Options
  import opened Words
  import opened Arm64
  import Bitvectors

  /* ---- Fields ---- */

  // static_cast<uint32_t> of a field value
  function Bits(n: nat): bv32
    requires n < TWO32
  {
    n as bv32
  }

  lemma {:induction false} SomeBits(n: nat) returns (b: bv32)
    requires n < TWO32
    ensures b as int == n
  {
    if n == 0 {
      b := 0;
    } else {
      b := SomeBits(n / 2);
      HalfSmall(b, n);
      if n % 2 == 0 {
        Bitvectors.DoubleEven(b);
        b := b << 1;
      } else {
        Bitvectors.DoubleOdd(b);
        b := (b << 1) | 1;
      }
    }
  }

  lemma HalfSmall(b: bv32, n: nat)
    requires n < TWO32 && b as int == n / 2
    ensures b < 0x8000_0000
  {
  }

  lemma BackAndForth(b: bv32)
    ensures (b as int) as bv32 == b
  {
  }

  // A field value survives the trip through its bits
  lemma BitsRoundTrip(n: nat)
    requires n < TWO32
    ensures Bits(n) as int == n
  {
    var b := SomeBits(n);
    BackAndForth(b);
  }

  lemma BitsBelow5(n: nat) requires n < 32 ensures Bits(n) < 32 {}

  lemma BitsBelow12(n: nat) requires n < 0x1000 ensures Bits(n) < 0x1000 {}

  lemma BitsBelow16(n: nat) requires n < 0x1_0000 ensures Bits(n) < 0x1_0000 {}

  /* ---- Encoding ---- */

  function SfBit(size: DataSize): bv32 { if size.X? then 1 else 0 }

  // None: a virtual register or an immediate where a register is needed throws
  function EncodeRegister(o: Operand): Option<bv32> {
    match o
    case Phys(r) => Some(Bits(r))
    case VReg(_) => None
    case Imm(_) => None
  }

  // static_cast<uint32_t> of an immediate
  function Imm32(o: Operand): nat
    requires o.Imm?
  {
    o.value % TWO32
  }

  function ConditionBits(c: Condition): bv32 {
    match c
    case EQ => 0
    case NE => 1
    case CS => 2
    case CC => 3
    case MI => 4
    case PL => 5
    case VS => 6
    case VC => 7
    case HI => 8
    case LS => 9
    case GE => 10
    case LT => 11
    case GT => 12
    case LE => 13
    case AL => 14
    case NV => 15
  }

  // sf op Rm 000000 Rn Rd, with the operation's bits in place
  function RegisterForm(sf: bv32, op: bv32, rm: bv32, rn: bv32, rd: bv32): bv32 {
    (sf << 31) | op | (rm << 16) | (rn << 5) | rd
  }

  // A 12-bit immediate above Rn and Rd
  function ImmediateForm(sf: bv32, op: bv32, imm: bv32, rn: bv32, rd: bv32): bv32 {
    (sf << 31) | (op << 23) | (imm << 10) | (rn << 5) | rd
  }

  function EncodeThreeOperand(i: Instruction): Option<bv32>
    requires i.ThreeOperand?
  {
    var sf := SfBit(i.size);
    var rd :- EncodeRegister(i.dest);
    var rn :- EncodeRegister(i.src1);
    if i.src2.Imm? then
      var imm := Imm32(i.src2);
      if i.op.ADD? then if imm > 0xFFF then None else Some(ImmediateForm(sf, 0x22, Bits(imm), rn, rd))
      else if i.op.SUB? then if imm > 0xFFF then None else Some(ImmediateForm(sf, 0xA2, Bits(imm), rn, rd))
      else if i.op.CMP? then if imm > 0xFFF then None else Some(ImmediateForm(sf, 0xE2, Bits(imm), rn, 31))
      else if i.op.LSL? || i.op.LSR? || i.op.ASR? then EncodeShiftImmediate(i.op, sf, i.src2.value, rn, rd)
      else None
    else
      var rm :- EncodeRegister(i.src2);
      match i.op
      case ADD => Some(RegisterForm(sf, 0x0B << 24, rm, rn, rd))
      case SUB => Some(RegisterForm(sf, 0x4B << 24, rm, rn, rd))
      case AND => Some(RegisterForm(sf, 0x05 << 25, rm, rn, rd))
      case ORR => Some(RegisterForm(sf, 0x15 << 25, rm, rn, rd))
      case EOR => Some(RegisterForm(sf, 0x35 << 25, rm, rn, rd))
      case CMP => Some(RegisterForm(sf, 0x6B << 24, rm, rn, 31))
      case LSL => Some(RegisterForm(sf, (0xD6 << 21) | (0x8 << 10), rm, rn, rd))
      case LSR => Some(RegisterForm(sf, (0x1AC << 20) | (0x6 << 10), rm, rn, rd))
      case ASR => Some(RegisterForm(sf, (0x1AC << 20) | (0xA << 10), rm, rn, rd))
      case _ => None
  }

  // LSL, LSR, ASR by an immediate are UBFM and SBFM
  function EncodeShiftImmediate(op: Opcode, sf: bv32, amount: Word, rn: bv32, rd: bv32): Option<bv32> {
    var datasize: nat := if sf == 1 then 64 else 32;
    if amount >= datasize then None
    else
      var immr: nat := if op.LSL? then (datasize - amount) % datasize else amount;
      var imms: nat := if op.LSL? then datasize - 1 - amount else datasize - 1;
      Some((sf << 31) | ((if op.ASR? then 0x26 else 0xA6) << 23) | (sf << 22) | (Bits(immr) << 16) | (Bits(imms) << 10)
           | (rn << 5) | rd)
  }

  // opc at bits 30-23, the 16-bit immediate, and Rd
  function WideForm(sf: bv32, op: bv32, hw: bv32, imm16: bv32, rd: bv32): bv32 {
    (sf << 31) | (op << 23) | (hw << 21) | (imm16 << 5) | rd
  }

  // SBFM Rd, Rn, #0, #imms
  function ExtendForm(sf: bv32, imms: bv32, rn: bv32, rd: bv32): bv32 {
    (sf << 31) | (0x26 << 23) | (sf << 22) | (imms << 10) | (rn << 5) | rd
  }

  function EncodeTwoOperand(i: Instruction): Option<bv32>
    requires i.TwoOperand?
  {
    var sf := SfBit(i.size);
    var rd :- EncodeRegister(i.dest);
    if i.op.MOV? && i.src.Imm? then
      if i.src.value > 0xFFFF then None else Some(WideForm(sf, 0xA5, 0, Bits(i.src.value), rd))
    else if i.op.MOVN? then
      if !i.src.Imm? || i.src.value > 0xFFFF then None else Some(WideForm(sf, 0x25, 0, Bits(i.src.value), rd))
    else if i.op.CMP? && i.src.Imm? then
      var imm := Imm32(i.src);
      if imm > 0xFFF then None else Some(ImmediateForm(sf, 0xE2, Bits(imm), rd, 31))
    else if i.op.MOV? || i.op.SXTB? || i.op.SXTH? || i.op.SXTW? || i.op.RET? || i.op.CMP? then
      var r :- EncodeRegister(i.src);
      match i.op
      case MOV => Some(RegisterForm(sf, 0x15 << 25, r, 31, rd))
      case SXTB => Some(ExtendForm(sf, 7, r, rd))
      case SXTH => Some(ExtendForm(sf, 15, r, rd))
      case SXTW => Some(ExtendForm(1, 31, r, rd))
      case RET => Some(0xD65F_0000 | (r << 5))
      case CMP => Some(RegisterForm(sf, 0x6B << 24, r, rd, 31))
      case _ => None
    else None
  }

  function SizeBits(size: DataSize): nat {
    match size
    case B => 0
    case H => 1
    case W => 2
    case X => 3
  }

  // The size, the scaled 12-bit offset, Rn and Rt
  function MemoryForm(size: bv32, op: bv32, imm: bv32, rn: bv32, rt: bv32): bv32 {
    (size << 30) | (op << 22) | (imm << 10) | (rn << 5) | rt
  }

  function EncodeMemory(i: Instruction): Option<bv32>
    requires i.MemoryInst?
  {
    var rt :- EncodeRegister(i.reg);
    var rn :- EncodeRegister(i.base);
    var size := Bits(SizeBits(i.size));
    if !i.op.LDR? && !i.op.STR? then None
    else if i.offset >= 0 && i.offset % Bytes(i.size) == 0 then
      var scaled := i.offset / Bytes(i.size);
      if scaled > 0xFFF then None
      else Some(MemoryForm(size, if i.op.LDR? then 0xE5 else 0xE4, Bits(scaled), rn, rt))
    else if -256 <= i.offset <= 255 then
      Some((size << 30) | (0xE0 << 22) | (Bits(i.offset % 0x200) << 12) | ((if i.op.LDR? then 3 else 1) << 10)
           | (rn << 5) | rt)
    else None
  }

  function EncodeMoveWide(i: Instruction): Option<bv32>
    requires i.MoveWide?
  {
    var sf := SfBit(i.size);
    var rd :- EncodeRegister(i.dest);
    if i.shift / 16 > 3 then None
    else if i.op.MOVZ? then Some(WideForm(sf, 0xA5, Bits(i.shift / 16), Bits(i.imm16), rd))
    else if i.op.MOVK? then Some(WideForm(sf, 0xE5, Bits(i.shift / 16), Bits(i.imm16), rd))
    else None
  }

  // CSEL (op2 0) and CSINC (op2 1)
  function SelectForm(sf: bv32, rm: bv32, cond: bv32, op2: bv32, rn: bv32, rd: bv32): bv32 {
    (sf << 31) | (0xD4 << 21) | (rm << 16) | (cond << 12) | (op2 << 10) | (rn << 5) | rd
  }

  function EncodeConditional(i: Instruction): Option<bv32>
    requires i.Conditional?
  {
    var sf := SfBit(i.size);
    var rd :- EncodeRegister(i.dest);
    if i.op.CSET?
    then Some(SelectForm(sf, 31, ConditionBits(i.cond) ^ 1, 1, 31, rd))
    else None
  }

  function EncodeConditionalSelect(i: Instruction): Option<bv32>
    requires i.ConditionalSelect?
  {
    var sf := SfBit(i.size);
    var rd :- EncodeRegister(i.dest);
    var rn :- EncodeRegister(i.src1);
    if !i.op.CSEL? || i.src2.Imm? then None
    else
      var rm :- EncodeRegister(i.src2);
      Some(SelectForm(sf, rm, ConditionBits(i.cond), 0, rn, rd))
  }

  function EncodeWord(i: Instruction): Option<bv32> {
    match i
    case ThreeOperand(_, _, _, _, _) => EncodeThreeOperand(i)
    case TwoOperand(_, _, _, _) => EncodeTwoOperand(i)
    case MemoryInst(_, _, _, _, _) => EncodeMemory(i)
    case MoveWide(_, _, _, _, _) => EncodeMoveWide(i)
    case Conditional(_, _, _, _) => EncodeConditional(i)
    case ConditionalSelect(_, _, _, _, _, _) => EncodeConditionalSelect(i)
  }

  // Four bytes, least significant first
  function WordBytes(w: bv32): seq<bv8> {
    [(w & 0xFF) as bv8, ((w >> 8) & 0xFF) as bv8, ((w >> 16) & 0xFF) as bv8, ((w >> 24) & 0xFF) as bv8]
  }

  function EncodeInstruction(i: Instruction): Option<seq<bv8>> {
    var w :- EncodeWord(i);
    Some(WordBytes(w))
  }

  /* ---- Decoding, by the Arm ARM ---- */

  function RegisterOf(field: bv32): Operand
    requires field < 32
  {
    Phys(field as int)
  }

  function Rd(w: bv32): Operand {
    assert w & 31 < 32;
    RegisterOf(w & 31)
  }

  function Rn(w: bv32): Operand {
    assert (w >> 5) & 31 < 32;
    RegisterOf((w >> 5) & 31)
  }

  function Rm(w: bv32): Operand {
    assert (w >> 16) & 31 < 32;
    RegisterOf((w >> 16) & 31)
  }

  function SizeOfSf(w: bv32): DataSize { if w >> 31 == 1 then X else W }

  function ConditionOf(c: bv32): Condition {
    match c
    case 0 => EQ
    case 1 => NE
    case 2 => CS
    case 3 => CC
    case 4 => MI
    case 5 => PL
    case 6 => VS
    case 7 => VC
    case 8 => HI
    case 9 => LS
    case 10 => GE
    case 11 => LT
    case 12 => GT
    case 13 => LE
    case 14 => AL
    case _ => NV
  }

  // Data processing (register), section C4.1.95: shifted register forms with LSL #0, and two-source
  function DecodeRegisterOp(w: bv32): Option<Instruction> {
    var size := SizeOfSf(w);
    var op := w & 0x7FE0_FC00;
    if op == 0x0B00_0000 then Some(ThreeOperand(ADD, size, Rd(w), Rn(w), Rm(w)))
    else if op == 0x4B00_0000 then Some(ThreeOperand(SUB, size, Rd(w), Rn(w), Rm(w)))
    else if op == 0x6B00_0000 && w & 31 == 31 then Some(TwoOperand(CMP, size, Rn(w), Rm(w)))
    else if op == 0x0A00_0000 then Some(ThreeOperand(AND, size, Rd(w), Rn(w), Rm(w)))
    else if op == 0x6A00_0000 then Some(ThreeOperand(ANDS, size, Rd(w), Rn(w), Rm(w)))
    else if op == 0x2A00_0000 && (w >> 5) & 31 == 31 then Some(TwoOperand(MOV, size, Rd(w), Rm(w)))
    else if op == 0x2A00_0000 then Some(ThreeOperand(ORR, size, Rd(w), Rn(w), Rm(w)))
    else if op == 0x4A00_0000 then Some(ThreeOperand(EOR, size, Rd(w), Rn(w), Rm(w)))
    else if op == 0x1AC0_2000 then Some(ThreeOperand(LSL, size, Rd(w), Rn(w), Rm(w)))
    else if op == 0x1AC0_2400 then Some(ThreeOperand(LSR, size, Rd(w), Rn(w), Rm(w)))
    else if op == 0x1AC0_2800 then Some(ThreeOperand(ASR, size, Rd(w), Rn(w), Rm(w)))
    else None
  }

  // Data processing (immediate), section C4.1.93: SUBS to XZR, move wide, and the SBFM aliases
  function DecodeImmediateOp(w: bv32): Option<Instruction> {
    var size := SizeOfSf(w);
    if w & 0x7FC0_001F == 0x7100_001F then
      Some(TwoOperand(CMP, size, Rn(w), ImmOf((w >> 10) & 0xFFF)))
    else if w & 0x1F80_0000 == 0x1280_0000 then
      var hw := (w >> 21) & 3;
      var imm := (w >> 5) & 0xFFFF;
      var opc := (w >> 29) & 3;
      if w >> 31 == 0 && hw >= 2 then None
      else if opc == 0 && hw == 0 then Some(TwoOperand(MOVN, size, Rd(w), ImmOf(imm)))
      else if opc == 2 || opc == 3 then
        assert imm < 0x1_0000;
        Some(MoveWide(if opc == 2 then MOVZ else MOVK, size, Rd(w), imm as int, 16 * (hw as int)))
      else None
    else if w & 0x7FBF_0000 == 0x1300_0000 && (w >> 31) & 1 == (w >> 22) & 1 then
      var imms := (w >> 10) & 63;
      if imms == 7 then Some(TwoOperand(SXTB, size, Rd(w), Rn(w)))
      else if imms == 15 then Some(TwoOperand(SXTH, size, Rd(w), Rn(w)))
      else if imms == 31 && w >> 31 == 1 then Some(TwoOperand(SXTW, X, Rd(w), Rn(w)))
      else None
    else None
  }

  function ImmOf(field: bv32): Operand { Imm(field as int) }

  // Conditional select: CSEL, and CSINC Rd, XZR, XZR, which is CSET of the inverse condition
  function DecodeSelect(w: bv32): Option<Instruction> {
    var size := SizeOfSf(w);
    var cond := (w >> 12) & 15;
    if w & 0x7FE0_0C00 == 0x1A80_0000 then Some(ConditionalSelect(CSEL, size, Rd(w), Rn(w), Rm(w), ConditionOf(cond)))
    else if w & 0x7FFF_0FE0 == 0x1A9F_07E0 then Some(Conditional(CSET, size, Rd(w), ConditionOf(cond ^ 1)))
    else None
  }

  function SizeOfBits(b: bv32): DataSize {
    if b == 0 then B else if b == 1 then H else if b == 2 then W else X
  }

  // Loads and stores (unsigned immediate), zero-extending
  function DecodeMemory(w: bv32): Option<Instruction> {
    var size := SizeOfBits(w >> 30);
    if w & 0x3F80_0000 == 0x3900_0000 then
      Some(MemoryInst(if (w >> 22) & 1 == 1 then LDR else STR, size, Rd(w), Rn(w),
                      Bytes(size) * (((w >> 10) & 0xFFF) as int)))
    else None
  }

  function Decode(w: bv32): Option<Instruction> {
    if w & 0xFFFF_FC1F == 0xD65F_0000 then Some(TwoOperand(RET, X, Rn(w), Rn(w)))
    else if w & 0x3F00_0000 == 0x3900_0000 then DecodeMemory(w)
    else if w & 0x1F80_0000 == 0x1100_0000 || w & 0x1F00_0000 == 0x1200_0000 || w & 0x1F00_0000 == 0x1300_0000
    then DecodeImmediateOp(w)
    else if w & 0x1FE0_0000 == 0x1A80_0000 then DecodeSelect(w)
    else DecodeRegisterOp(w)
  }

  function WordOfBytes(b: seq<bv8>): bv32
    requires |b| == 4
  {
    (b[0] as bv32) | ((b[1] as bv32) << 8) | ((b[2] as bv32) << 16) | ((b[3] as bv32) << 24)
  }

  lemma BytesRoundTrip(w: bv32)
    ensures WordOfBytes(WordBytes(w)) == w
  {
  }
}
