/** Decoded RV64I instructions and what the ISA says each of them does. */
module RiscV {
  import opened Options
  import opened Words
  import opened Memory
  import opened Guest

  datatype Opcode =
    | ADD | ADDI | ADDW | ADDIW | SUB | SUBW
    | AND | ANDI | OR | ORI | XOR | XORI
    | SLL | SLLI | SLLW | SLLIW | SRL | SRLI | SRLW | SRLIW | SRA | SRAI | SRAW | SRAIW
    | SLT | SLTI | SLTU | SLTIU
    | LB | LH | LW | LD | LBU | LHU | LWU
    | SB | SH | SW | SD
    | BEQ | BNE | BLT | BGE | BLTU | BGEU
    | JAL | JALR
    | LUI | AUIPC
    | ECALL | EBREAK
    | INVALID

  datatype Operand = Register(number: nat) | Immediate(imm: int)

  datatype Instruction = Instruction(opcode: Opcode, operands: seq<Operand>, address: Word) {
    function GetRegister(k: nat): nat
      requires k < |operands| && operands[k].Register?
    {
      operands[k].number
    }

    function GetImmediate(k: nat): int
      requires k < |operands| && operands[k].Immediate?
    {
      operands[k].imm
    }
  }

  /* ---- Operand lists, as the decoder builds them ---- */

  predicate IsRegister(o: Operand) { o.Register? && o.number < 32 }

  predicate IsImmediate(o: Operand, lo: int, hi: int) { o.Immediate? && lo <= o.imm < hi }

  predicate RegRegReg(i: Instruction) {
    |i.operands| == 3 && IsRegister(i.operands[0]) && IsRegister(i.operands[1]) && IsRegister(i.operands[2])
  }

  predicate RegRegImm(i: Instruction, bound: int) {
    |i.operands| == 3 && IsRegister(i.operands[0]) && IsRegister(i.operands[1])
    && IsImmediate(i.operands[2], -bound, bound)
  }

  predicate RegImm(i: Instruction, bound: int) {
    |i.operands| == 2 && IsRegister(i.operands[0]) && IsImmediate(i.operands[1], -bound, bound)
  }

  predicate IsRType(op: Opcode) {
    op.ADD? || op.SUB? || op.ADDW? || op.AND? || op.OR? || op.XOR? || op.SLL? || op.SRL? || op.SRA? || op.SLT? ||
      op.SLTU?
  }

  predicate IsIType(op: Opcode) {
    op.ADDI? || op.ADDIW? || op.ANDI? || op.ORI? || op.XORI? || op.SLLI? || op.SLLIW? || op.SRLI? || op.SRAI? ||
      op.SLTI? || op.SLTIU?
  }

  predicate IsLoad(op: Opcode) { op.LB? || op.LH? || op.LW? || op.LWU? || op.LD? }

  predicate IsStore(op: Opcode) { op.SW? || op.SD? }

  predicate IsUpper(op: Opcode) { op.LUI? || op.AUIPC? }

  predicate IsBranch(op: Opcode) { op.BEQ? || op.BNE? || op.BLT? || op.BGE? || op.BLTU? || op.BGEU? }

  predicate IsTerminator(op: Opcode) { IsBranch(op) || op.JAL? || op.JALR? }

  // The operands the decoder produces for the opcodes the translator supports. An upper
  // immediate is an operand to be shifted by 12; the ISA has 20-bit ones.
  predicate Supported(i: Instruction) {
    if IsRType(i.opcode) then RegRegReg(i)
    else if IsIType(i.opcode) || IsLoad(i.opcode) || IsStore(i.opcode) || i.opcode.JALR? then RegRegImm(i, 0x800)
    else if IsBranch(i.opcode) then RegRegImm(i, 0x1000)
    else if IsUpper(i.opcode) then RegImm(i, 0x8000_0000)
    else i.opcode.JAL? && RegImm(i, 0x10_0000)
  }

  /* ---- Instruction semantics ---- */

  function Arithmetic(op: Opcode, a: Word, b: Word): Word
    requires IsRType(op) || IsIType(op)
  {
    match op
    case ADD | ADDI => Add(a, b)
    case SUB => Sub(a, b)
    case ADDW | ADDIW => SignExtend32(Add(a, b))
    case AND | ANDI => Bits64(BitAnd, a, b)
    case OR | ORI => Bits64(BitOr, a, b)
    case XOR | XORI => Bits64(BitXor, a, b)
    case SLL | SLLI => Shl64(a, b % 64)
    case SRL | SRLI => Shr64(a, b % 64)
    case SRA | SRAI => Sar64(a, b % 64)
    case SLLIW => SignExtend32(Shl32(a, b % 32))
    case SLT | SLTI => Flag(Signed(a) < Signed(b))
    case SLTU | SLTIU => Flag(a < b)
  }

  function AccessWidth(op: Opcode): nat
    requires IsLoad(op) || IsStore(op)
  {
    match op
    case LB => 1
    case LH => 2
    case LW | LWU | SW => 4
    case LD | SD => 8
  }

  function LoadedValue(op: Opcode, m: Mem, a: Word): Word
    requires IsLoad(op)
  {
    assert Pow256(1) == 256 && Pow256(2) == 0x1_0000 && Pow256(4) == TWO32;
    match op
    case LB => SignExtend8(Load(m, a, 1))
    case LH => SignExtend16(Load(m, a, 2))
    case LW => SignExtend32(Load(m, a, 4))
    case LWU => Load(m, a, 4)
    case LD => Load64(m, a)
  }

  // One instruction that is not a control transfer; None when it accesses memory outside
  // the region
  function Step(g: Region, i: Instruction, s: GuestState): Option<GuestState>
    requires Supported(i) && !IsTerminator(i.opcode)
  {
    if IsRType(i.opcode) then
      var a, b := Get(s, i.GetRegister(1)), Get(s, i.GetRegister(2));
      Some(Set(s, i.GetRegister(0), Arithmetic(i.opcode, a, b)))
    else if IsIType(i.opcode) then
      var a, b := Get(s, i.GetRegister(1)), ToWord(i.GetImmediate(2));
      Some(Set(s, i.GetRegister(0), Arithmetic(i.opcode, a, b)))
    else if IsLoad(i.opcode) then
      var a := Add(Get(s, i.GetRegister(1)), ToWord(i.GetImmediate(2)));
      if InRegion(g, a, AccessWidth(i.opcode))
      then Some(Set(s, i.GetRegister(0), LoadedValue(i.opcode, s.mem, a)))
      else None
    else if IsStore(i.opcode) then
      var a := Add(Get(s, i.GetRegister(0)), ToWord(i.GetImmediate(2)));
      var v := Get(s, i.GetRegister(1));
      if InRegion(g, a, AccessWidth(i.opcode))
      then Some(s.(mem := Store(s.mem, a, AccessWidth(i.opcode), v)))
      else None
    else
      var upper := ToWord(i.GetImmediate(1) * 0x1000);
      var v := if i.opcode.LUI? then upper else Add(i.address, upper);
      Some(Set(s, i.GetRegister(0), v))
  }

  function Taken(op: Opcode, a: Word, b: Word): bool
    requires IsBranch(op)
  {
    match op
    case BEQ => a == b
    case BNE => a != b
    case BLT => Signed(a) < Signed(b)
    case BGE => Signed(a) >= Signed(b)
    case BLTU => a < b
    case BGEU => a >= b
  }

  // Where a control transfer goes
  function Target(i: Instruction, s: GuestState): Word
    requires Supported(i) && IsTerminator(i.opcode)
  {
    if IsBranch(i.opcode) then
      if Taken(i.opcode, Get(s, i.GetRegister(0)), Get(s, i.GetRegister(1)))
      then Add(i.address, ToWord(i.GetImmediate(2)))
      else Add(i.address, 4)
    else if i.opcode.JAL? then Add(i.address, ToWord(i.GetImmediate(1)))
    else
      Even(Add(Get(s, i.GetRegister(1)), ToWord(i.GetImmediate(2))))
  }

  // Control transfers write at most the link register
  function Link(i: Instruction, s: GuestState): GuestState
    requires Supported(i) && IsTerminator(i.opcode)
  {
    if IsBranch(i.opcode) then s else Set(s, i.GetRegister(0), Add(i.address, 4))
  }

  // jalr x0, x1, 0
  predicate IsRet(i: Instruction)
    requires Supported(i)
  {
    i.opcode.JALR? && i.GetRegister(0) == 0 && i.GetRegister(1) == 1 && i.GetImmediate(2) == 0
  }

  /* ---- Straight-line blocks ---- */

  predicate AllSupported(insts: seq<Instruction>) { forall k :: 0 <= k < |insts| ==> Supported(insts[k]) }

  // Control transfers occur, if at all, at the end
  predicate TerminatorLast(insts: seq<Instruction>) {
    forall k :: 0 <= k < |insts| - 1 ==> !IsTerminator(insts[k].opcode)
  }

  predicate NoTerminator(insts: seq<Instruction>) {
    forall k :: 0 <= k < |insts| ==> !IsTerminator(insts[k].opcode)
  }

  function Body(g: Region, insts: seq<Instruction>, s: GuestState): Option<GuestState>
    requires AllSupported(insts) && NoTerminator(insts)
  {
    if insts == [] then Some(s)
    else
      var n := |insts| - 1;
      var t :- Body(g, insts[..n], s);
      Step(g, insts[n], t)
  }

  predicate EndsInTerminator(insts: seq<Instruction>) {
    insts != [] && IsTerminator(insts[|insts| - 1].opcode)
  }

  // The instructions before the control transfer
  function Straight(insts: seq<Instruction>): (r: seq<Instruction>)
    ensures AllSupported(insts) ==> AllSupported(r)
    ensures TerminatorLast(insts) ==> NoTerminator(r)
  {
    if EndsInTerminator(insts) then insts[..|insts| - 1] else insts
  }

  // Instructions the translator handles, with any control transfer at the end, as the decode
  // loop forms them
  predicate IsBlock(insts: seq<Instruction>) { AllSupported(insts) && TerminatorLast(insts) }

  // The state in which a block's control transfer, if any, executes
  function EndState(g: Region, insts: seq<Instruction>, s: GuestState): Option<GuestState>
    requires IsBlock(insts)
  {
    Body(g, Straight(insts), s)
  }

  // Where a block goes, by the ISA
  function BlockTarget(insts: seq<Instruction>, s: GuestState): Word
    requires AllSupported(insts) && insts != []
  {
    var last := insts[|insts| - 1];
    if EndsInTerminator(insts) then Target(last, s) else Add(last.address, 4)
  }

  // The state a block leaves, by the ISA
  function BlockLink(insts: seq<Instruction>, s: GuestState): GuestState
    requires AllSupported(insts)
  {
    if EndsInTerminator(insts) then Link(insts[|insts| - 1], s) else s
  }

  // The whole block, by the ISA
  function RunBlock(g: Region, insts: seq<Instruction>, s: GuestState): Option<(GuestState, Word)>
    requires IsBlock(insts) && insts != []
  {
    var t :- EndState(g, insts, s);
    Some((BlockLink(insts, t), BlockTarget(insts, t)))
  }
}
