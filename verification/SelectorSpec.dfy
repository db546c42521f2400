/** What the instruction selector computes, as functions on its state: the virtual register
    counter and what it knows of each IR value. None is a thrown LoweringError. */
module SelectorSpec {
  import opened Options
  import opened Words
  import opened IR
  import opened HostLayout
  import A = Arm64

  datatype SState = SState(next: nat, vregs: map<ValueId, nat>, types: map<ValueId, Type>)

  const INITIAL: SState := SState(0, map[], map[])

  function Lookup(st: SState, id: ValueId): Option<nat> {
    if id in st.vregs then Some(st.vregs[id]) else None
  }

  function Assign(st: SState, id: ValueId): (SState, nat) {
    if id in st.vregs then (st, st.vregs[id])
    else (st.(next := st.next + 1, vregs := st.vregs[id := st.next]), st.next)
  }

  function Record(st: SState, id: ValueId, ty: Type): SState { st.(types := st.types[id := ty]) }

  // Unrecorded values count as i64
  function ValueType(st: SState, id: ValueId): Type { if id in st.types then st.types[id] else I64 }

  /* ---- Tables ---- */

  function ConditionOf(op: BinaryOpcode): Option<A.Condition> {
    match op
    case Eq => Some(A.EQ)
    case Ne => Some(A.NE)
    case Lt => Some(A.LT)
    case Le => Some(A.LE)
    case Gt => Some(A.GT)
    case Ge => Some(A.GE)
    case LtU => Some(A.CC)
    case LeU => Some(A.LS)
    case GtU => Some(A.HI)
    case GeU => Some(A.CS)
    case _ => None
  }

  function SizeOf(ty: Type): A.DataSize {
    match ty
    case I1 | I8 => A.B
    case I16 => A.H
    case I32 => A.W
    case I64 => A.X
  }

  function OpcodeOf(op: BinaryOpcode): A.Opcode
    requires !IsComparison(op)
  {
    match op
    case Plus => A.ADD
    case Minus => A.SUB
    case And => A.AND
    case Or => A.ORR
    case Xor => A.EOR
    case Shl => A.LSL
    case Shr => A.LSR
    case Sar => A.ASR
  }

  /* ---- Constants ---- */

  // MOVZ for the first non-zero 16-bit chunk from `shift` up, MOVK for the others
  function MoveChunks(value: Word, size: A.DataSize, target: A.Operand, shift: nat, first: bool): seq<A.Instruction>
    decreases 64 - shift
  {
    if shift >= 64 then
      if first then [A.MoveWide(A.MOVZ, size, target, 0, 0)] else []
    else if A.Chunk(value, shift) == 0 then MoveChunks(value, size, target, shift + 16, first)
    else
      [A.MoveWide(if first then A.MOVZ else A.MOVK, size, target, A.Chunk(value, shift), shift)]
      + MoveChunks(value, size, target, shift + 16, false)
  }

  function ConstInto(ty: Type, v: int, target: A.Operand): seq<A.Instruction> {
    var size := SizeOf(ty);
    if -0x1_0000 <= v < 0 then [A.TwoOperand(A.MOVN, size, target, A.Imm(-v - 1))]
    else if 0 <= v <= 0xFFFF then [A.TwoOperand(A.MOV, size, target, A.Imm(v))]
    else MoveChunks(ToWord(v), size, target, 0, true)
  }

  /* ---- Instructions ---- */

  // The bases of guest and shadow memory, from GuestState
  function LoadBasesCode(n: nat): seq<A.Instruction> {
    [A.MemoryInst(A.LDR, A.X, A.VReg(n + 1), A.Phys(A.GUEST_STATE), BASE_OFFSET),
     A.MemoryInst(A.LDR, A.X, A.VReg(n + 2), A.Phys(A.GUEST_STATE), SHADOW_OFFSET)]
  }

  function ConvertCode(n: nat, guest: nat): seq<A.Instruction> {
    [A.ThreeOperand(A.SUB, A.X, A.VReg(n), A.VReg(guest), A.VReg(n + 1)),
     A.ThreeOperand(A.ADD, A.X, A.VReg(n), A.VReg(n), A.VReg(n + 2))]
  }

  // guest address -> host address, in a fresh register
  function Translate(st: SState, guest: nat): (SState, seq<A.Instruction>, nat) {
    (st.(next := st.next + 3), LoadBasesCode(st.next) + ConvertCode(st.next, guest), st.next)
  }

  function SelectBinary(st0: SState, id: ValueId, op: BinaryOpcode, ty: Type, lhs: ValueId, rhs: ValueId)
    : Option<(SState, seq<A.Instruction>)>
  {
    var (st, d) := Assign(Record(st0, id, ty), id);
    var a :- Lookup(st, lhs);
    var b :- Lookup(st, rhs);
    if IsComparison(op) then
      Some((st, [A.TwoOperand(A.CMP, A.X, A.VReg(a), A.VReg(b)),
                 A.Conditional(A.CSET, A.X, A.VReg(d), ConditionOf(op).value)]))
    else
      Some((st, [A.ThreeOperand(OpcodeOf(op), SizeOf(ty), A.VReg(d), A.VReg(a), A.VReg(b))]))
  }

  function SelectLoad(st0: SState, id: ValueId, ty: Type, addr: ValueId): Option<(SState, seq<A.Instruction>)> {
    var (st, d) := Assign(Record(st0, id, ty), id);
    var a :- Lookup(st, addr);
    var (st1, code, host) := Translate(st, a);
    Some((st1, code + [A.MemoryInst(A.LDR, SizeOf(ty), A.VReg(d), A.VReg(host), 0)]))
  }

  function SelectStore(st: SState, val: ValueId, addr: ValueId): Option<(SState, seq<A.Instruction>)> {
    var v :- Lookup(st, val);
    var a :- Lookup(st, addr);
    var (st1, code, host) := Translate(st, a);
    Some((st1, code + [A.MemoryInst(A.STR, SizeOf(ValueType(st, val)), A.VReg(v), A.VReg(host), 0)]))
  }

  function SextOpcode(from: Type): A.Opcode {
    match from
    case I8 => A.SXTB
    case I16 => A.SXTH
    case I32 => A.SXTW
    case _ => A.MOV
  }

  function ZextOpcode(from: Type): A.Opcode {
    match from
    case I8 => A.UXTB
    case I16 => A.UXTH
    case _ => A.MOV
  }

  function SelectSext(st0: SState, id: ValueId, to: Type, operand: ValueId): Option<(SState, seq<A.Instruction>)> {
    var (st, d) := Assign(Record(st0, id, to), id);
    var a :- Lookup(st, operand);
    Some((st, [A.TwoOperand(SextOpcode(ValueType(st, operand)), SizeOf(to), A.VReg(d), A.VReg(a))]))
  }

  function SelectZext(st0: SState, id: ValueId, to: Type, operand: ValueId): Option<(SState, seq<A.Instruction>)> {
    var (st, d) := Assign(Record(st0, id, to), id);
    var a :- Lookup(st, operand);
    Some((st, [A.TwoOperand(ZextOpcode(ValueType(st, operand)), SizeOf(to), A.VReg(d), A.VReg(a))]))
  }

  function SelectTrunc(st0: SState, id: ValueId, to: Type, operand: ValueId): Option<(SState, seq<A.Instruction>)> {
    var (st, d) := Assign(Record(st0, id, to), id);
    var a :- Lookup(st, operand);
    Some((st, [A.TwoOperand(A.MOV, SizeOf(to), A.VReg(d), A.VReg(a))]))
  }

  function SelectConst(st0: SState, id: ValueId, ty: Type, v: int): (SState, seq<A.Instruction>) {
    var (st, d) := Assign(Record(st0, id, ty), id);
    (st, ConstInto(ty, v, A.VReg(d)))
  }

  function SelectRegRead(st0: SState, id: ValueId, r: nat): (SState, seq<A.Instruction>) {
    var (st, d) := Assign(Record(st0, id, I64), id);
    (st, [A.MemoryInst(A.LDR, A.X, A.VReg(d), A.Phys(A.GUEST_STATE), REGISTER_SIZE_BYTES * r)])
  }

  function SelectRegWrite(st: SState, r: nat, val: ValueId): Option<(SState, seq<A.Instruction>)> {
    var v :- Lookup(st, val);
    Some((st, [A.MemoryInst(A.STR, A.X, A.VReg(v), A.Phys(A.GUEST_STATE), REGISTER_SIZE_BYTES * r)]))
  }

  function SelectInstruction(st: SState, i: Inst): Option<(SState, seq<A.Instruction>)> {
    match i.kind
    case Const(ty, v) => Some(SelectConst(st, i.id, ty, v))
    case BinaryOp(op, ty, l, r) => SelectBinary(st, i.id, op, ty, l, r)
    case Sext(to, v) => SelectSext(st, i.id, to, v)
    case Zext(to, v) => SelectZext(st, i.id, to, v)
    case Trunc(to, v) => SelectTrunc(st, i.id, to, v)
    case LoadFrom(ty, addr) => SelectLoad(st, i.id, ty, addr)
    case StoreTo(val, addr) => SelectStore(st, val, addr)
    case RegRead(r) => Some(SelectRegRead(st, i.id, r))
    case RegWrite(r, val) => SelectRegWrite(st, r, val)
  }

  function SelectAll(st: SState, insts: seq<Inst>): Option<(SState, seq<A.Instruction>)> {
    if insts == [] then Some((st, []))
    else
      var n := |insts| - 1;
      var (st1, code) :- SelectAll(st, insts[..n]);
      var (st2, more) :- SelectInstruction(st1, insts[n]);
      Some((st2, code + more))
  }

  lemma SelectSnoc(st: SState, insts: seq<Inst>, i: Inst)
    ensures SelectAll(st, insts + [i]) ==
      match SelectAll(st, insts)
      case None => None
      case Some((st1, code)) =>
        match SelectInstruction(st1, i)
        case None => None
        case Some((st2, more)) => Some((st2, code + more))
  {
    hide SelectInstruction;
    assert (insts + [i])[..|insts|] == insts;
  }

  /* ---- Terminators ---- */

  const RETURN_INST: A.Instruction := A.TwoOperand(A.RET, A.X, A.Phys(A.LINK), A.Phys(A.LINK))

  // A block-target constant in the register of a value id taken from the register counter
  function SelectTarget(st: SState, target: Word): (SState, seq<A.Instruction>, nat) {
    var id: ValueId := st.next;
    var (st1, d) := Assign(st.(next := st.next + 1), id);
    (st1, ConstInto(I64, Signed(target), A.VReg(d)), d)
  }

  function SelectCondBranch(st: SState, cond: ValueId, yes: Word, no: Word): Option<(SState, seq<A.Instruction>)> {
    var c :- Lookup(st, cond);
    var (st1, yesCode, y) := SelectTarget(st, yes);
    var (st2, noCode, n) := SelectTarget(st1, no);
    var t := st2.next;
    Some((st2.(next := t + 1),
          [A.TwoOperand(A.CMP, A.X, A.VReg(c), A.Imm(0))] + yesCode + noCode
          + [A.ConditionalSelect(A.CSEL, A.X, A.VReg(t), A.VReg(y), A.VReg(n), A.NE)]
          + [A.TwoOperand(A.MOV, A.X, A.Phys(A.GUEST_STATE), A.VReg(t))]))
  }

  // The terminator up to its RET, which leaves the next guest address in X0
  function SelectExit(st: SState, t: Terminator): Option<(SState, seq<A.Instruction>)> {
    match t
    case Branch(target) => Some((st, ConstInto(I64, Signed(target), A.Phys(A.GUEST_STATE))))
    case CondBranch(c, yes, no) => SelectCondBranch(st, c, yes, no)
    case Return(None) => Some((st, ConstInto(I64, 0, A.Phys(A.GUEST_STATE))))
    case Return(Some(id)) =>
      var v :- Lookup(st, id);
      Some((st, [A.TwoOperand(A.MOV, A.X, A.Phys(A.GUEST_STATE), A.VReg(v))]))
  }

  function SelectTerminator(st: SState, t: Terminator): Option<(SState, seq<A.Instruction>)> {
    var (st1, code) :- SelectExit(st, t);
    Some((st1, code + [RETURN_INST]))
  }

  function SelectBlock(st: SState, b: Block): Option<(SState, seq<A.Instruction>)> {
    var (st1, code) :- SelectAll(st, b.insts);
    var (st2, exit) :- SelectTerminator(st1, b.terminator);
    Some((st2, code + exit))
  }
}
