/** Encoding is total on what the translator emits, and faithful except for two register
    forms. */
module EncoderCorrect {
  import opened Options
  import opened Words
  import opened Arm64
  import opened Encoder

  /* ---- What the translator emits ---- */

  predicate IsAlu(op: Opcode) {
    op.ADD? || op.SUB? || op.AND? || op.ORR? || op.EOR? || op.LSL? || op.LSR? || op.ASR?
  }

  predicate WordSized(size: DataSize) { size.X? || size.W? }

  predicate Small(o: Operand, bound: int) { o.Imm? ==> o.value < bound }

  // Instruction forms, whether their registers are virtual or physical
  predicate Emitted(i: Instruction) {
    match i
    case ThreeOperand(op, size, d, a, b) => IsAlu(op) && WordSized(size) && !d.Imm? && !a.Imm? && !b.Imm?
    case TwoOperand(op, size, d, a) =>
      !d.Imm? && WordSized(size) &&
      if op.MOV? then Small(a, 0x1_0000)
      else if op.MOVN? then a.Imm? && a.value < 0x1_0000
      else if op.CMP? then Small(a, 0x1000)
      else if op.SXTB? || op.SXTH? then !a.Imm?
      else if op.SXTW? then !a.Imm? && size.X?
      else op.RET? && size.X? && a == d
    case MemoryInst(op, size, r, b, off) =>
      (op.LDR? || op.STR?) && !r.Imm? && !b.Imm? && 0 <= off && off % Bytes(size) == 0 && off / Bytes(size) <= 0xFFF
    case MoveWide(op, size, d, _, shift) =>
      (op.MOVZ? || op.MOVK?) && WordSized(size) && !d.Imm? &&
      (shift == 0 || shift == 16 || (size.X? && (shift == 32 || shift == 48)))
    case Conditional(op, size, d, cond) => op.CSET? && WordSized(size) && !d.Imm? && !cond.AL? && !cond.NV?
    case ConditionalSelect(op, size, d, a, b, _) => op.CSEL? && WordSized(size) && !d.Imm? && !a.Imm? && !b.Imm?
  }

  // A register other than SP, or an immediate
  predicate PhysOperand(o: Operand) { !o.VReg? && (o.Phys? ==> o.reg < 31) }

  predicate Physical(i: Instruction) {
    match i
    case ThreeOperand(_, _, d, a, b) => PhysOperand(d) && PhysOperand(a) && PhysOperand(b)
    case TwoOperand(_, _, d, a) => PhysOperand(d) && PhysOperand(a)
    case MemoryInst(_, _, r, b, _) => PhysOperand(r) && PhysOperand(b)
    case MoveWide(_, _, d, _, _) => PhysOperand(d)
    case Conditional(_, _, d, _) => PhysOperand(d)
    case ConditionalSelect(_, _, d, a, b, _) => PhysOperand(d) && PhysOperand(a) && PhysOperand(b)
  }

  // MOV of an immediate is MOVZ
  function Canonical(i: Instruction): Instruction {
    if i.TwoOperand? && i.op.MOV? && i.src.Imm? && i.src.value < 0x1_0000
    then MoveWide(MOVZ, i.size, i.dest, i.src.value, 0)
    else i
  }

  lemma CanonicalMeansTheSame(i: Instruction, s: State)
    requires Emitted(i)
    ensures Step(Canonical(i), s) == Step(i, s)
  {
  }

  /* ---- Registers ---- */

  lemma RegisterBits(o: Operand) returns (b: bv32)
    requires o.Phys? && o.reg < 31
    ensures b == Bits(o.reg) && b < 31 && b < 32 && RegisterOf(b) == o
  {
    b := Bits(o.reg);
    BitsRoundTrip(o.reg);
    BitsBelow5(o.reg);
    BitsBelow31(o.reg);
  }

  lemma BitsBelow31(n: nat)
    requires n < 31 && Bits(n) as int == n && Bits(n) < 32
    ensures Bits(n) < 31
  {
    BelowTop(Bits(n));
  }

  lemma BelowTop(b: bv32)
    requires b as int < 31 && b < 32
    ensures b < 31
  {
  }

  /* ---- Data processing on registers ---- */

  // w has these register fields and this operation size
  predicate Fields(w: bv32, sf: bv32, rm: bv32, rn: bv32, rd: bv32) {
    w & 31 == rd && (w >> 5) & 31 == rn && (w >> 16) & 31 == rm && w >> 31 == sf
  }

  lemma FieldOperands(w: bv32, sf: bv32, rm: bv32, rn: bv32, rd: bv32)
    requires Fields(w, sf, rm, rn, rd) && rm < 32 && rn < 32 && rd < 32
    ensures Rd(w) == RegisterOf(rd) && Rn(w) == RegisterOf(rn) && Rm(w) == RegisterOf(rm)
    ensures SizeOfSf(w) == if sf == 1 then X else W
  {
  }

  // The operations the register form is used with
  predicate KnownRegisterOp(op: bv32) {
    op == 0x0B00_0000 || op == 0x4B00_0000 || op == 0x6B00_0000 || op == 0x0A00_0000 || op == 0x2A00_0000 ||
    op == 0x1AC0_2000 || op == 0x1AC0_2800 || op == 0x1AC0_1800 || op == 0x6A00_0000
  }

  // Given that nothing in the operation bits falls into a register field
  lemma RegisterFormFields(sf: bv32, op: bv32, rm: bv32, rn: bv32, rd: bv32)
    requires sf < 2 && rm < 32 && rn < 32 && rd < 32 && op & 0x801F_03FF == 0
    ensures
      var w := RegisterForm(sf, op, rm, rn, rd);
      w & 31 == rd && (w >> 5) & 31 == rn && (w >> 16) & 31 == rm && w >> 31 == sf
  {
  }

  lemma RegisterFormHas(sf: bv32, op: bv32, rm: bv32, rn: bv32, rd: bv32)
    requires sf < 2 && rm < 32 && rn < 32 && rd < 32 && op & 0x801F_03FF == 0
    ensures Fields(RegisterForm(sf, op, rm, rn, rd), sf, rm, rn, rd)
  {
    hide RegisterForm;
    RegisterFormFields(sf, op, rm, rn, rd);
  }

  lemma RegisterFormOperation(sf: bv32, op: bv32, rm: bv32, rn: bv32, rd: bv32)
    requires sf < 2 && rm < 32 && rn < 32 && rd < 32 && op & 0x801F_03FF == 0
    ensures RegisterForm(sf, op, rm, rn, rd) & 0x7FE0_FC00 == op & 0x7FE0_FC00
  {
  }

  lemma RegisterClass(w: bv32)
    requires KnownRegisterOp(w & 0x7FE0_FC00)
    ensures w & 0xFFFF_FC1F != 0xD65F_0000 && w & 0x3F00_0000 != 0x3900_0000 && w & 0x1F80_0000 != 0x1100_0000
    ensures w & 0x1F00_0000 != 0x1200_0000 && w & 0x1F00_0000 != 0x1300_0000 && w & 0x1FE0_0000 != 0x1A80_0000
  {
  }

  lemma RegisterDispatch(w: bv32)
    requires KnownRegisterOp(w & 0x7FE0_FC00)
    ensures Decode(w) == DecodeRegisterOp(w)
  {
    RegisterClass(w);
    hide KnownRegisterOp, DecodeRegisterOp, DecodeMemory, DecodeSelect, DecodeImmediateOp;
  }

  // The operation bits of a register form, as the encoder has them
  function OpBits(op: Opcode): bv32
    requires IsAlu(op)
  {
    match op
    case ADD => 0x0B00_0000
    case SUB => 0x4B00_0000
    case AND => 0x0A00_0000
    case ORR => 0x2A00_0000
    case EOR => 0x6A00_0000
    case LSL => 0x1AC0_2000
    case LSR => 0x1AC0_1800
    case ASR => 0x1AC0_2800
  }

  // What an emitted instruction is after encoding: MOV of an immediate is MOVZ, the bits of EOR
  // are those of ANDS, and the bits of LSR are not allocated
  function AsExecuted(i: Instruction): Option<Instruction> {
    if i.ThreeOperand? && i.op.LSR? then None
    else if i.ThreeOperand? && i.op.EOR? then Some(ThreeOperand(ANDS, i.size, i.dest, i.src1, i.src2))
    else Some(Canonical(i))
  }

  // What the operation bits decode to
  lemma OperationDecodes(w: bv32, op: Opcode)
    requires IsAlu(op) && w & 0x7FE0_FC00 == OpBits(op) && (w >> 5) & 31 < 31
    ensures
      DecodeRegisterOp(w) ==
      if op.LSR? then None else Some(ThreeOperand(if op.EOR? then ANDS else op, SizeOfSf(w), Rd(w), Rn(w), Rm(w)))
  {
    hide Rd, Rn, Rm, SizeOfSf;
  }

  lemma OpBitsLeave(op: Opcode)
    requires IsAlu(op)
    ensures OpBits(op) & 0x801F_03FF == 0 && OpBits(op) & 0x7FE0_FC00 == OpBits(op) && KnownRegisterOp(OpBits(op))
  {
  }

  lemma SfIsSize(size: DataSize)
    requires WordSized(size)
    ensures SfBit(size) < 2 && (if SfBit(size) == 1 then X else W) == size
  {
  }

  lemma AluEncodes(i: Instruction)
    requires i.ThreeOperand? && Emitted(i) && Physical(i)
    ensures
      EncodeThreeOperand(i) ==
      Some(RegisterForm(SfBit(i.size), OpBits(i.op), Bits(i.src2.reg), Bits(i.src1.reg), Bits(i.dest.reg)))
  {
    hide RegisterForm, Bits;
  }

  lemma AluFacts(i: Instruction)
    requires i.ThreeOperand? && Emitted(i) && Physical(i)
    ensures IsAlu(i.op) && WordSized(i.size) && Canonical(i) == i
    ensures i.dest.Phys? && i.dest.reg < 31 && i.src1.Phys? && i.src1.reg < 31 && i.src2.Phys? && i.src2.reg < 31
  {
  }

  lemma AluRoundTrip(i: Instruction)
    requires i.ThreeOperand? && Emitted(i) && Physical(i)
    ensures EncodeThreeOperand(i).Some?
    ensures Decode(EncodeThreeOperand(i).value) == AsExecuted(i)
  {
    hide EncodeThreeOperand, RegisterForm, Bits, Decode, DecodeRegisterOp, OpBits, KnownRegisterOp, Fields, Emitted,
      Physical, Canonical, Rd, Rn, Rm;
    AluFacts(i);
    AluEncodes(i);
    var rd := RegisterBits(i.dest);
    var rn := RegisterBits(i.src1);
    var rm := RegisterBits(i.src2);
    var w := RegisterForm(SfBit(i.size), OpBits(i.op), rm, rn, rd);
    OpBitsLeave(i.op);
    SfIsSize(i.size);
    RegisterFormHas(SfBit(i.size), OpBits(i.op), rm, rn, rd);
    RegisterFormOperation(SfBit(i.size), OpBits(i.op), rm, rn, rd);
    RegisterDispatch(w);
    FieldOperands(w, SfBit(i.size), rm, rn, rd);
    RnField(w, SfBit(i.size), rm, rn, rd);
    OperationDecodes(w, i.op);
  }

  lemma RnField(w: bv32, sf: bv32, rm: bv32, rn: bv32, rd: bv32)
    requires Fields(w, sf, rm, rn, rd)
    ensures (w >> 5) & 31 == rn && w & 31 == rd
  {
  }

  /** The word of a register EOR is executed as ANDS: the AND of the operands, and flags of it. */
  lemma EorIsAnds(size: DataSize, d: Operand, a: Operand, b: Operand, s: State)
    requires WordSized(size) && d.Phys? && a.Phys? && b.Phys? && d.reg < 31 && a.reg < 31 && b.reg < 31
    ensures
      var eor, and := ThreeOperand(EOR, size, d, a, b), ThreeOperand(AND, size, d, a, b);
      && EncodeWord(eor).Some? && Decode(EncodeWord(eor).value).Some?
      && var out := Step(Decode(EncodeWord(eor).value).value, s);
         && out == Step(and, s).(flags := out.flags)
         && out.flags == LogicalFlags(size, Read(Step(and, s), d))
  {
    AluRoundTrip(ThreeOperand(EOR, size, d, a, b));
    hide EncodeThreeOperand, Decode, Bits64;
  }

  /* ---- Moves and comparisons of registers ---- */

  lemma MoveDecodes(w: bv32)
    requires w & 0x7FE0_FC00 == 0x2A00_0000 && (w >> 5) & 31 == 31
    ensures Decode(w) == Some(TwoOperand(MOV, SizeOfSf(w), Rd(w), Rm(w)))
  {
    RegisterDispatch(w);
    hide Rd, Rn, Rm, SizeOfSf, Decode;
  }

  lemma CompareDecodes(w: bv32)
    requires w & 0x7FE0_FC00 == 0x6B00_0000 && w & 31 == 31
    ensures Decode(w) == Some(TwoOperand(CMP, SizeOfSf(w), Rn(w), Rm(w)))
  {
    RegisterDispatch(w);
    hide Rd, Rn, Rm, SizeOfSf, Decode;
  }

  lemma MoveRoundTrip(size: DataSize, d: Operand, a: Operand)
    requires WordSized(size) && d.Phys? && a.Phys? && d.reg < 31 && a.reg < 31
    ensures
      var w := RegisterForm(SfBit(size), 0x2A00_0000, Bits(a.reg), 31, Bits(d.reg));
      Decode(w) == Some(TwoOperand(MOV, size, d, a))
  {
    hide RegisterForm, Bits, Decode, Fields;
    var rd := RegisterBits(d);
    var rm := RegisterBits(a);
    var w := RegisterForm(SfBit(size), 0x2A00_0000, rm, 31, rd);
    SfIsSize(size);
    RegisterFormHas(SfBit(size), 0x2A00_0000, rm, 31, rd);
    RegisterFormOperation(SfBit(size), 0x2A00_0000, rm, 31, rd);
    FieldOperands(w, SfBit(size), rm, 31, rd);
    RnField(w, SfBit(size), rm, 31, rd);
    MoveDecodes(w);
  }

  lemma CompareRoundTrip(size: DataSize, d: Operand, a: Operand)
    requires WordSized(size) && d.Phys? && a.Phys? && d.reg < 31 && a.reg < 31
    ensures
      var w := RegisterForm(SfBit(size), 0x6B00_0000, Bits(a.reg), Bits(d.reg), 31);
      Decode(w) == Some(TwoOperand(CMP, size, d, a))
  {
    hide RegisterForm, Bits, Decode, Fields;
    var rn := RegisterBits(d);
    var rm := RegisterBits(a);
    var w := RegisterForm(SfBit(size), 0x6B00_0000, rm, rn, 31);
    SfIsSize(size);
    RegisterFormHas(SfBit(size), 0x6B00_0000, rm, rn, 31);
    RegisterFormOperation(SfBit(size), 0x6B00_0000, rm, rn, 31);
    FieldOperands(w, SfBit(size), rm, rn, 31);
    RnField(w, SfBit(size), rm, rn, 31);
    CompareDecodes(w);
  }

  /* ---- Comparisons with an immediate ---- */

  function SfSize(sf: bv32): DataSize { if sf == 1 then X else W }

  predicate CompareFields(w: bv32, sf: bv32, imm: bv32, rn: bv32) {
    (w >> 5) & 31 == rn && (w >> 10) & 0xFFF == imm && w >> 31 == sf && w & 0x7FC0_001F == 0x7100_001F
  }

  lemma CompareFormRn(sf: bv32, imm: bv32, rn: bv32)
    requires sf < 2 && imm < 0x1000 && rn < 32
    ensures (ImmediateForm(sf, 0xE2, imm, rn, 31) >> 5) & 31 == rn
  {
  }

  lemma CompareFormImm(sf: bv32, imm: bv32, rn: bv32)
    requires sf < 2 && imm < 0x1000 && rn < 32
    ensures (ImmediateForm(sf, 0xE2, imm, rn, 31) >> 10) & 0xFFF == imm
  {
  }

  lemma CompareFormSf(sf: bv32, imm: bv32, rn: bv32)
    requires sf < 2 && imm < 0x1000 && rn < 32
    ensures ImmediateForm(sf, 0xE2, imm, rn, 31) >> 31 == sf
  {
  }

  lemma CompareFormOperation(sf: bv32, imm: bv32, rn: bv32)
    requires sf < 2 && imm < 0x1000 && rn < 32
    ensures ImmediateForm(sf, 0xE2, imm, rn, 31) & 0x7FC0_001F == 0x7100_001F
  {
  }

  lemma CompareFormFields(sf: bv32, imm: bv32, rn: bv32)
    requires sf < 2 && imm < 0x1000 && rn < 32
    ensures CompareFields(ImmediateForm(sf, 0xE2, imm, rn, 31), sf, imm, rn)
  {
    hide ImmediateForm;
    CompareFormRn(sf, imm, rn);
    CompareFormImm(sf, imm, rn);
    CompareFormSf(sf, imm, rn);
    CompareFormOperation(sf, imm, rn);
  }

  lemma CompareDispatch(w: bv32)
    requires w & 0x7FC0_001F == 0x7100_001F
    ensures w & 0xFFFF_FC1F != 0xD65F_0000 && w & 0x3F00_0000 != 0x3900_0000 && w & 0x1F80_0000 == 0x1100_0000
  {
  }

  lemma CompareImmediateDecodes(w: bv32, sf: bv32, imm: bv32, rn: bv32)
    requires CompareFields(w, sf, imm, rn) && rn < 32
    ensures Decode(w) == Some(TwoOperand(CMP, SfSize(sf), RegisterOf(rn), ImmOf(imm)))
  {
    CompareDispatch(w);
    hide DecodeRegisterOp, DecodeMemory, DecodeSelect;
  }

  lemma CompareImmediateRoundTrip(size: DataSize, d: Operand, n: nat)
    requires WordSized(size) && d.Phys? && d.reg < 31 && n < 0x1000
    ensures Decode(ImmediateForm(SfBit(size), 0xE2, Bits(n), Bits(d.reg), 31)) == Some(TwoOperand(CMP, size, d, Imm(n)))
  {
    hide Decode, Bits, ImmediateForm, CompareFields;
    var rn := RegisterBits(d);
    BitsRoundTrip(n);
    BitsBelow12(n);
    SfIsSize(size);
    CompareFormFields(SfBit(size), Bits(n), rn);
    CompareImmediateDecodes(ImmediateForm(SfBit(size), 0xE2, Bits(n), rn, 31), SfBit(size), Bits(n), rn);
  }

  /* ---- Wide moves ---- */

  predicate WideFields(w: bv32, sf: bv32, opc: bv32, hw: bv32, imm: bv32, rd: bv32) {
    w & 31 == rd && (w >> 5) & 0xFFFF == imm && (w >> 21) & 3 == hw && w >> 31 == sf && (w >> 29) & 3 == opc
  }

  predicate IsWide(w: bv32) { w & 0x1F80_0000 == 0x1280_0000 }

  // op is opc followed by the six bits of the class
  lemma WideFormBits(sf: bv32, op: bv32, hw: bv32, imm: bv32, rd: bv32)
    requires sf < 2 && op & 0x3F == 0x25 && op < 0x100 && hw < 4 && imm < 0x1_0000 && rd < 32
    ensures
      var w := WideForm(sf, op, hw, imm, rd);
      w & 31 == rd && (w >> 5) & 0xFFFF == imm && (w >> 21) & 3 == hw && w >> 31 == sf &&
      (w >> 29) & 3 == op >> 6 && w & 0x1F80_0000 == 0x1280_0000
  {
  }

  lemma WideFormFields(sf: bv32, op: bv32, hw: bv32, imm: bv32, rd: bv32)
    requires sf < 2 && op & 0x3F == 0x25 && op < 0x100 && hw < 4 && imm < 0x1_0000 && rd < 32
    ensures WideFields(WideForm(sf, op, hw, imm, rd), sf, op >> 6, hw, imm, rd)
    ensures IsWide(WideForm(sf, op, hw, imm, rd))
  {
    hide WideForm;
    WideFormBits(sf, op, hw, imm, rd);
  }

  lemma WideDispatch(w: bv32)
    requires w & 0x1F80_0000 == 0x1280_0000
    ensures w & 0xFFFF_FC1F != 0xD65F_0000 && w & 0x3F00_0000 != 0x3900_0000 && w & 0x1F00_0000 == 0x1200_0000
    ensures w & 0x7FC0_001F != 0x7100_001F
  {
  }

  lemma MovnDecodes(w: bv32, sf: bv32, imm: bv32, rd: bv32)
    requires IsWide(w) && WideFields(w, sf, 0, 0, imm, rd) && rd < 32
    ensures Decode(w) == Some(TwoOperand(MOVN, SfSize(sf), RegisterOf(rd), ImmOf(imm)))
  {
    WideDispatch(w);
    hide DecodeRegisterOp, DecodeMemory, DecodeSelect;
  }

  lemma MoveWideDecodes(w: bv32, sf: bv32, keep: bool, hw: bv32, imm: bv32, rd: bv32)
    requires IsWide(w) && WideFields(w, sf, if keep then 3 else 2, hw, imm, rd) && rd < 32 && imm < 0x1_0000
    requires hw < 2 || (hw < 4 && sf == 1)
    ensures Decode(w) ==
      Some(MoveWide(if keep then MOVK else MOVZ, SfSize(sf), RegisterOf(rd), imm as int, 16 * (hw as int)))
  {
    WideDispatch(w);
    hide DecodeRegisterOp, DecodeMemory, DecodeSelect;
  }

  lemma MovnRoundTrip(size: DataSize, d: Operand, n: nat)
    requires WordSized(size) && d.Phys? && d.reg < 31 && n < 0x1_0000
    ensures Decode(WideForm(SfBit(size), 0x25, 0, Bits(n), Bits(d.reg))) == Some(TwoOperand(MOVN, size, d, Imm(n)))
  {
    hide Decode, Bits, WideForm, WideFields, IsWide;
    var rd := RegisterBits(d);
    BitsRoundTrip(n);
    BitsBelow16(n);
    SfIsSize(size);
    WideFormFields(SfBit(size), 0x25, 0, Bits(n), rd);
    MovnDecodes(WideForm(SfBit(size), 0x25, 0, Bits(n), rd), SfBit(size), Bits(n), rd);
  }

  lemma MoveWideRoundTrip(size: DataSize, d: Operand, keep: bool, n: Imm16, hw: nat)
    requires WordSized(size) && d.Phys? && d.reg < 31 && (hw < 2 || (hw < 4 && size.X?))
    ensures
      Decode(WideForm(SfBit(size), if keep then 0xE5 else 0xA5, Bits(hw), Bits(n), Bits(d.reg))) ==
      Some(MoveWide(if keep then MOVK else MOVZ, size, d, n, 16 * hw))
  {
    hide Decode, Bits, WideForm, WideFields, IsWide;
    var rd := RegisterBits(d);
    BitsRoundTrip(n);
    BitsBelow16(n);
    BitsRoundTrip(hw);
    BitsBelow4(hw);
    SfIsSize(size);
    var op: bv32 := if keep then 0xE5 else 0xA5;
    WideFormFields(SfBit(size), op, Bits(hw), Bits(n), rd);
    MoveWideDecodes(WideForm(SfBit(size), op, Bits(hw), Bits(n), rd), SfBit(size), keep, Bits(hw), Bits(n), rd);
  }

  lemma BitsBelow4(n: nat)
    requires n < 4
    ensures Bits(n) < 4 && (n < 2 ==> Bits(n) < 2)
  {
  }

  /* ---- Sign extension and return ---- */

  predicate ExtendFields(w: bv32, sf: bv32, imms: bv32, rn: bv32, rd: bv32) {
    w & 31 == rd && (w >> 5) & 31 == rn && (w >> 10) & 63 == imms && w >> 31 == sf
  }

  predicate IsExtend(w: bv32) { w & 0x7FBF_0000 == 0x1300_0000 && (w >> 31) & 1 == (w >> 22) & 1 }

  lemma ExtendFormFields(sf: bv32, imms: bv32, rn: bv32, rd: bv32)
    requires sf < 2 && imms < 64 && rn < 32 && rd < 32
    ensures ExtendFields(ExtendForm(sf, imms, rn, rd), sf, imms, rn, rd) && IsExtend(ExtendForm(sf, imms, rn, rd))
  {
  }

  lemma ExtendDispatch(w: bv32)
    requires w & 0x7FBF_0000 == 0x1300_0000
    ensures w & 0xFFFF_FC1F != 0xD65F_0000 && w & 0x3F00_0000 != 0x3900_0000 && w & 0x1F00_0000 == 0x1300_0000
    ensures w & 0x7FC0_001F != 0x7100_001F && w & 0x1F80_0000 != 0x1280_0000
  {
  }

  predicate IsExtension(op: Opcode) { op.SXTB? || op.SXTH? || op.SXTW? }

  function LastBit(op: Opcode): bv32
    requires IsExtension(op)
  {
    if op.SXTB? then 7 else if op.SXTH? then 15 else 31
  }

  lemma ExtendDecodes(w: bv32, sf: bv32, op: Opcode, rn: bv32, rd: bv32)
    requires IsExtension(op) && IsExtend(w) && ExtendFields(w, sf, LastBit(op), rn, rd) && rn < 32 && rd < 32
    requires op.SXTW? ==> sf == 1
    ensures Decode(w) == Some(TwoOperand(op, SfSize(sf), RegisterOf(rd), RegisterOf(rn)))
  {
    ExtendDispatch(w);
    hide DecodeRegisterOp, DecodeMemory, DecodeSelect;
  }

  lemma ExtendRoundTrip(op: Opcode, size: DataSize, d: Operand, a: Operand)
    requires IsExtension(op) && WordSized(size) && d.Phys? && a.Phys? && d.reg < 31 && a.reg < 31
    requires op.SXTW? ==> size.X?
    ensures Decode(ExtendForm(SfBit(size), LastBit(op), Bits(a.reg), Bits(d.reg))) == Some(TwoOperand(op, size, d, a))
  {
    hide Decode, Bits, ExtendForm, ExtendFields, IsExtend;
    var rd := RegisterBits(d);
    var rn := RegisterBits(a);
    SfIsSize(size);
    ExtendFormFields(SfBit(size), LastBit(op), rn, rd);
    ExtendDecodes(ExtendForm(SfBit(size), LastBit(op), rn, rd), SfBit(size), op, rn, rd);
  }

  lemma ReturnFields(r: bv32)
    requires r < 32
    ensures var w := 0xD65F_0000 | (r << 5); (w >> 5) & 31 == r && w & 0xFFFF_FC1F == 0xD65F_0000
  {
  }

  lemma ReturnRoundTrip(d: Operand)
    requires d.Phys? && d.reg < 31
    ensures Decode(0xD65F_0000 | (Bits(d.reg) << 5)) == Some(TwoOperand(RET, X, d, d))
  {
    hide Bits, DecodeRegisterOp, DecodeMemory, DecodeSelect, DecodeImmediateOp;
    var r := RegisterBits(d);
    ReturnFields(r);
  }

  /* ---- Loads and stores ---- */

  predicate MemoryFields(w: bv32, size: bv32, imm: bv32, rn: bv32, rt: bv32) {
    w & 31 == rt && (w >> 5) & 31 == rn && (w >> 10) & 0xFFF == imm && w >> 30 == size
  }

  predicate IsAccess(w: bv32, load: bool) {
    w & 0x3F80_0000 == 0x3900_0000 && (w >> 22) & 1 == if load then 1 else 0
  }

  lemma MemoryFormBits(size: bv32, op: bv32, imm: bv32, rn: bv32, rt: bv32)
    requires size < 4 && imm < 0x1000 && rn < 32 && rt < 32 && (op == 0xE4 || op == 0xE5)
    ensures
      var w := MemoryForm(size, op, imm, rn, rt);
      w & 31 == rt && (w >> 5) & 31 == rn && (w >> 10) & 0xFFF == imm && w >> 30 == size &&
      w & 0x3F80_0000 == 0x3900_0000 && (w >> 22) & 1 == op & 1
  {
  }

  lemma MemoryFormFields(size: bv32, load: bool, imm: bv32, rn: bv32, rt: bv32)
    requires size < 4 && imm < 0x1000 && rn < 32 && rt < 32
    ensures
      var w := MemoryForm(size, if load then 0xE5 else 0xE4, imm, rn, rt);
      MemoryFields(w, size, imm, rn, rt) && IsAccess(w, load)
  {
    hide MemoryForm;
    MemoryFormBits(size, if load then 0xE5 else 0xE4, imm, rn, rt);
  }

  lemma MemoryDispatch(w: bv32)
    requires w & 0x3F80_0000 == 0x3900_0000
    ensures w & 0xFFFF_FC1F != 0xD65F_0000 && w & 0x3F00_0000 == 0x3900_0000
  {
  }

  lemma MemoryDecodes(w: bv32, size: bv32, load: bool, imm: bv32, rn: bv32, rt: bv32)
    requires MemoryFields(w, size, imm, rn, rt) && IsAccess(w, load) && rn < 32 && rt < 32
    ensures
      Decode(w) ==
      Some(MemoryInst(if load then LDR else STR, SizeOfBits(size), RegisterOf(rt), RegisterOf(rn),
                      Bytes(SizeOfBits(size)) * (imm as int)))
  {
    MemoryDispatch(w);
    hide DecodeRegisterOp, DecodeImmediateOp, DecodeSelect, Bytes, SizeOfBits;
  }

  lemma SizeRoundTrip(size: DataSize)
    ensures Bits(SizeBits(size)) < 4 && SizeOfBits(Bits(SizeBits(size))) == size
  {
  }

  lemma MemoryRoundTrip(load: bool, size: DataSize, r: Operand, b: Operand, scaled: nat)
    requires r.Phys? && b.Phys? && r.reg < 31 && b.reg < 31 && scaled < 0x1000
    ensures
      Decode(MemoryForm(Bits(SizeBits(size)), if load then 0xE5 else 0xE4, Bits(scaled), Bits(b.reg), Bits(r.reg))) ==
      Some(MemoryInst(if load then LDR else STR, size, r, b, Bytes(size) * scaled))
  {
    hide Decode, Bits, MemoryForm, MemoryFields, IsAccess, Bytes, SizeOfBits;
    var rt := RegisterBits(r);
    var rn := RegisterBits(b);
    SizeRoundTrip(size);
    BitsRoundTrip(scaled);
    BitsBelow12(scaled);
    var w := MemoryForm(Bits(SizeBits(size)), if load then 0xE5 else 0xE4, Bits(scaled), rn, rt);
    MemoryFormFields(Bits(SizeBits(size)), load, Bits(scaled), rn, rt);
    MemoryDecodes(w, Bits(SizeBits(size)), load, Bits(scaled), rn, rt);
  }

  /* ---- Conditional selection ---- */

  predicate SelectFields(w: bv32, sf: bv32, rm: bv32, cond: bv32, rn: bv32, rd: bv32) {
    w & 31 == rd && (w >> 5) & 31 == rn && (w >> 16) & 31 == rm && w >> 31 == sf && (w >> 12) & 15 == cond
  }

  predicate IsSelect(w: bv32, op2: bv32) { w & 0x7FE0_0C00 == 0x1A80_0000 | (op2 << 10) }

  lemma SelectFormBits(sf: bv32, rm: bv32, cond: bv32, op2: bv32, rn: bv32, rd: bv32)
    requires sf < 2 && rm < 32 && cond < 16 && op2 < 2 && rn < 32 && rd < 32
    ensures
      var w := SelectForm(sf, rm, cond, op2, rn, rd);
      w & 31 == rd && (w >> 5) & 31 == rn && (w >> 16) & 31 == rm && w >> 31 == sf && (w >> 12) & 15 == cond
  {
  }

  lemma SelectFormClass(sf: bv32, rm: bv32, cond: bv32, op2: bv32, rn: bv32, rd: bv32)
    requires sf < 2 && rm < 32 && cond < 16 && op2 < 2 && rn < 32 && rd < 32
    ensures SelectForm(sf, rm, cond, op2, rn, rd) & 0x7FE0_0C00 == 0x1A80_0000 | (op2 << 10)
  {
  }

  lemma SelectFormFields(sf: bv32, rm: bv32, cond: bv32, op2: bv32, rn: bv32, rd: bv32)
    requires sf < 2 && rm < 32 && cond < 16 && op2 < 2 && rn < 32 && rd < 32
    ensures
      var w := SelectForm(sf, rm, cond, op2, rn, rd);
      SelectFields(w, sf, rm, cond, rn, rd) && IsSelect(w, op2)
  {
    hide SelectForm;
    SelectFormBits(sf, rm, cond, op2, rn, rd);
    SelectFormClass(sf, rm, cond, op2, rn, rd);
  }

  lemma SelectDispatch(w: bv32, op2: bv32)
    requires op2 < 2 && w & 0x7FE0_0C00 == 0x1A80_0000 | (op2 << 10)
    ensures w & 0xFFFF_FC1F != 0xD65F_0000 && w & 0x3F00_0000 != 0x3900_0000 && w & 0x1F80_0000 != 0x1100_0000
    ensures w & 0x1F00_0000 != 0x1200_0000 && w & 0x1F00_0000 != 0x1300_0000 && w & 0x1FE0_0000 == 0x1A80_0000
  {
  }

  lemma CselDecodes(w: bv32, sf: bv32, rm: bv32, cond: bv32, rn: bv32, rd: bv32)
    requires SelectFields(w, sf, rm, cond, rn, rd) && IsSelect(w, 0) && rm < 32 && rn < 32 && rd < 32
    ensures
      Decode(w) ==
      Some(ConditionalSelect(CSEL, SfSize(sf), RegisterOf(rd), RegisterOf(rn), RegisterOf(rm), ConditionOf(cond)))
  {
    SelectDispatch(w, 0);
    hide DecodeRegisterOp, DecodeImmediateOp, DecodeMemory, ConditionOf;
  }

  // CSINC of two zero registers
  lemma CsincOfZeros(w: bv32)
    requires w & 0x7FE0_0C00 == 0x1A80_0400 && (w >> 16) & 31 == 31 && (w >> 5) & 31 == 31
    ensures w & 0x7FFF_0FE0 == 0x1A9F_07E0
  {
  }

  lemma CsetDecodes(w: bv32, sf: bv32, cond: bv32, rd: bv32)
    requires SelectFields(w, sf, 31, cond, 31, rd) && IsSelect(w, 1) && rd < 32
    ensures Decode(w) == Some(Conditional(CSET, SfSize(sf), RegisterOf(rd), ConditionOf(cond ^ 1)))
  {
    SelectDispatch(w, 1);
    CsincOfZeros(w);
    hide DecodeRegisterOp, DecodeImmediateOp, DecodeMemory, ConditionOf;
  }

  lemma ConditionRoundTrip(c: Condition)
    ensures ConditionBits(c) < 16 && ConditionBits(c) ^ 1 < 16
    ensures ConditionOf(ConditionBits(c)) == c && ConditionOf((ConditionBits(c) ^ 1) ^ 1) == c
  {
  }

  lemma CselRoundTrip(size: DataSize, d: Operand, a: Operand, b: Operand, c: Condition)
    requires WordSized(size) && d.Phys? && a.Phys? && b.Phys? && d.reg < 31 && a.reg < 31 && b.reg < 31
    ensures
      Decode(SelectForm(SfBit(size), Bits(b.reg), ConditionBits(c), 0, Bits(a.reg), Bits(d.reg))) ==
      Some(ConditionalSelect(CSEL, size, d, a, b, c))
  {
    hide Decode, Bits, SelectForm, SelectFields, IsSelect, ConditionBits, ConditionOf;
    var rd := RegisterBits(d);
    var rn := RegisterBits(a);
    var rm := RegisterBits(b);
    SfIsSize(size);
    ConditionRoundTrip(c);
    SelectFormFields(SfBit(size), rm, ConditionBits(c), 0, rn, rd);
    CselDecodes(SelectForm(SfBit(size), rm, ConditionBits(c), 0, rn, rd), SfBit(size), rm, ConditionBits(c), rn, rd);
  }

  lemma CsetRoundTrip(size: DataSize, d: Operand, c: Condition)
    requires WordSized(size) && d.Phys? && d.reg < 31
    ensures
      Decode(SelectForm(SfBit(size), 31, ConditionBits(c) ^ 1, 1, 31, Bits(d.reg))) ==
        Some(Conditional(CSET, size, d, c))
  {
    hide Decode, Bits, SelectForm, SelectFields, IsSelect, ConditionBits, ConditionOf;
    var rd := RegisterBits(d);
    SfIsSize(size);
    ConditionRoundTrip(c);
    SelectFormFields(SfBit(size), 31, ConditionBits(c) ^ 1, 1, 31, rd);
    CsetDecodes(SelectForm(SfBit(size), 31, ConditionBits(c) ^ 1, 1, 31, rd), SfBit(size), ConditionBits(c) ^ 1, rd);
  }

  /* ---- Every form ---- */

  // The two register forms whose operation bits are wrong
  predicate Misencoded(i: Instruction) { i.ThreeOperand? && (i.op.LSR? || i.op.EOR?) }

  // The word each two-operand form is encoded as
  function TwoOperandWord(i: Instruction): bv32
    requires i.TwoOperand? && Emitted(i) && Physical(i)
  {
    var sf, d := SfBit(i.size), Bits(i.dest.reg);
    if i.op.MOV? then
      if i.src.Imm? then WideForm(sf, 0xA5, Bits(0), Bits(i.src.value), d)
      else RegisterForm(sf, 0x2A00_0000, Bits(i.src.reg), 31, d)
    else if i.op.MOVN? then WideForm(sf, 0x25, 0, Bits(i.src.value), d)
    else if i.op.CMP? then
      if i.src.Imm? then ImmediateForm(sf, 0xE2, Bits(i.src.value), d, 31)
      else RegisterForm(sf, 0x6B00_0000, Bits(i.src.reg), d, 31)
    else if i.op.RET? then 0xD65F_0000 | (d << 5)
    else ExtendForm(sf, LastBit(i.op), Bits(i.src.reg), d)
  }

  lemma BitsOfZero()
    ensures Bits(0) == 0
  {
  }

  lemma MoveEncodes(i: Instruction)
    requires i.TwoOperand? && Emitted(i) && Physical(i) && (i.op.MOV? || i.op.MOVN?)
    ensures EncodeTwoOperand(i) == Some(TwoOperandWord(i))
  {
    hide RegisterForm, WideForm, ImmediateForm, ExtendForm, Bits;
    BitsOfZero();
  }

  lemma CmpEncodes(i: Instruction)
    requires i.TwoOperand? && Emitted(i) && Physical(i) && i.op.CMP?
    ensures EncodeTwoOperand(i) == Some(TwoOperandWord(i))
  {
    hide RegisterForm, WideForm, ImmediateForm, ExtendForm, Bits;
  }

  lemma OthersEncode(i: Instruction)
    requires i.TwoOperand? && Emitted(i) && Physical(i) && !i.op.MOV? && !i.op.MOVN? && !i.op.CMP?
    ensures EncodeTwoOperand(i) == Some(TwoOperandWord(i))
  {
    hide RegisterForm, WideForm, ImmediateForm, ExtendForm, Bits;
  }

  lemma TwoOperandEncodes(i: Instruction)
    requires i.TwoOperand? && Emitted(i) && Physical(i)
    ensures EncodeTwoOperand(i) == Some(TwoOperandWord(i))
  {
    hide EncodeTwoOperand, TwoOperandWord, Emitted, Physical;
    if i.op.MOV? || i.op.MOVN? { MoveEncodes(i); } else if i.op.CMP? { CmpEncodes(i); } else { OthersEncode(i); }
  }

  lemma TwoOperandRoundTrip(i: Instruction)
    requires i.TwoOperand? && Emitted(i) && Physical(i)
    ensures EncodeTwoOperand(i).Some? && Decode(EncodeTwoOperand(i).value) == Some(Canonical(i))
  {
    hide RegisterForm, WideForm, ImmediateForm, ExtendForm, Bits, Decode, EncodeTwoOperand, SfBit;
    TwoOperandEncodes(i);
    var (op, size, d, a) := (i.op, i.size, i.dest, i.src);
    if op.MOV? && a.Imm? { MoveWideRoundTrip(size, d, false, a.value, 0); }
    else if op.MOV? { MoveRoundTrip(size, d, a); }
    else if op.MOVN? { MovnRoundTrip(size, d, a.value); }
    else if op.CMP? && a.Imm? { CompareImmediateRoundTrip(size, d, a.value); }
    else if op.CMP? { CompareRoundTrip(size, d, a); }
    else if op.RET? { ReturnRoundTrip(d); }
    else { ExtendRoundTrip(op, size, d, a); }
  }

  lemma MemoryInstRoundTrip(i: Instruction)
    requires i.MemoryInst? && Emitted(i) && Physical(i)
    ensures EncodeMemory(i).Some? && Decode(EncodeMemory(i).value) == Some(i)
  {
    hide MemoryForm, Bits, Decode, SizeBits;
    MemoryRoundTrip(i.op.LDR?, i.size, i.reg, i.base, i.offset / Bytes(i.size));
  }

  lemma MoveWideInstRoundTrip(i: Instruction)
    requires i.MoveWide? && Emitted(i) && Physical(i)
    ensures EncodeMoveWide(i).Some? && Decode(EncodeMoveWide(i).value) == Some(i)
  {
    hide WideForm, Bits, Decode;
    MoveWideRoundTrip(i.size, i.dest, i.op.MOVK?, i.imm16, i.shift / 16);
  }

  lemma WordRoundTrip(i: Instruction)
    requires Emitted(i) && Physical(i)
    ensures EncodeWord(i).Some?
    ensures Decode(EncodeWord(i).value) == AsExecuted(i)
  {
    hide Decode, EncodeThreeOperand, EncodeTwoOperand, EncodeMemory, EncodeMoveWide, SelectForm, Bits;
    match i
    case ThreeOperand(_, _, _, _, _) => AluRoundTrip(i);
    case TwoOperand(_, _, _, _) => TwoOperandRoundTrip(i);
    case MemoryInst(_, _, _, _, _) => MemoryInstRoundTrip(i);
    case MoveWide(_, _, _, _, _) => MoveWideInstRoundTrip(i);
    case Conditional(_, size, d, c) => CsetRoundTrip(size, d, c);
    case ConditionalSelect(_, size, d, a, b, c) => CselRoundTrip(size, d, a, b, c);
  }

  /** Encoding is total on emitted instructions over physical registers, and decoding by the
      Arm ARM returns the instruction exactly when it is not a register LSR or EOR: a register EOR
      comes back as ANDS, and a register LSR as no instruction at all. */
  lemma EncodingRoundTrip(i: Instruction)
    requires Emitted(i) && Physical(i)
    ensures EncodeInstruction(i).Some?
    ensures
      var bytes := EncodeInstruction(i).value;
      && |bytes| == 4 && (Decode(WordOfBytes(bytes)) == Some(Canonical(i)) <==> !Misencoded(i))
      && Decode(WordOfBytes(bytes)) == AsExecuted(i)
  {
    hide Decode, EncodeWord, WordOfBytes, EncodeInstruction;
    WordRoundTrip(i);
    BytesOf(i);
  }

  lemma BytesOf(i: Instruction)
    requires EncodeWord(i).Some?
    ensures EncodeInstruction(i).Some? && |EncodeInstruction(i).value| == 4
    ensures WordOfBytes(EncodeInstruction(i).value) == EncodeWord(i).value
  {
    hide EncodeWord, WordOfBytes;
    BytesRoundTrip(EncodeWord(i).value);
  }

  /* ---- Virtual registers do not encode ---- */

  predicate MentionsVirtual(i: Instruction) {
    match i
    case ThreeOperand(_, _, d, a, b) => d.VReg? || a.VReg? || b.VReg?
    case TwoOperand(_, _, d, a) => d.VReg? || a.VReg?
    case MemoryInst(_, _, r, b, _) => r.VReg? || b.VReg?
    case MoveWide(_, _, d, _, _) => d.VReg?
    case Conditional(_, _, d, _) => d.VReg?
    case ConditionalSelect(_, _, d, a, b, _) => d.VReg? || a.VReg? || b.VReg?
  }

  lemma VirtualFails(i: Instruction)
    requires MentionsVirtual(i)
    ensures EncodeInstruction(i).None?
  {
    hide RegisterForm, WideForm, ImmediateForm, ExtendForm, MemoryForm, SelectForm, Bits, EncodeShiftImmediate;
  }
}
