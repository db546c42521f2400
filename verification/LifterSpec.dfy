/** What the lifter computes, as functions on its state: the value counter, the register
    cache, the modified registers and the code emitted so far. Every step keeps the code
    well typed and in single-assignment order. */
module LifterSpec {
  import opened Options
  import opened Words
  import opened Guest
  import opened IR
  import RV = RiscV

  datatype LState = LState(
    next: ValueId,
    cache: map<nat, ValueId>,
    modified: set<nat>,
    code: seq<Inst>)

  ghost predicate WellFormed(l: LState) {
    && WellTyped(l.code)
    && Ordered(l.code)
    && (forall k :: 0 <= k < |l.code| ==> l.code[k].id < l.next)
    && (forall id :: id in Types(l.code) ==> id < l.next)
    && (forall r :: r in l.cache ==> 0 < r < 32 && HasType(l, l.cache[r], I64))
    && l.modified <= l.cache.Keys
  }

  ghost predicate HasType(l: LState, id: ValueId, ty: Type) { Is(Types(l.code), id, ty) }

  // Values keep their types as code is appended
  ghost predicate Keeps(l: LState, l': LState) {
    forall id :: id in Types(l.code) ==> Is(Types(l'.code), id, Types(l.code)[id])
  }

  function AddInst(l: LState, k: InstructionKind): (r: (LState, ValueId))
    requires WellFormed(l) && Typed(Types(l.code), k)
    ensures WellFormed(r.0) && Keeps(l, r.0)
    ensures DefinesValue(k) ==> HasType(r.0, r.1, TypeOf(k))
    ensures r.0.cache == l.cache && r.0.modified == l.modified
  {
    AddKeepsWellFormed(l, k);
    AddKeepsTypes(l, k);
    hide WellFormed, Keeps, HasType, Typed, Types;
    (l.(next := l.next + 1, code := l.code + [Inst(l.next, k)]), l.next)
  }

  lemma AddKeepsWellFormed(l: LState, k: InstructionKind)
    requires WellFormed(l) && Typed(Types(l.code), k)
    ensures WellFormed(l.(next := l.next + 1, code := l.code + [Inst(l.next, k)]))
  {
    hide WellTyped, Types, Typed, Ordered, Keeps;
    Snoc(l.code, Inst(l.next, k));
    OrderedSnoc(l.code, Inst(l.next, k));
    AddKeepsTypes(l, k);
  }

  lemma OrderedSnoc(code: seq<Inst>, i: Inst)
    requires Ordered(code) && forall k :: 0 <= k < |code| ==> code[k].id < i.id
    ensures Ordered(code + [i])
  {
  }

  lemma AddKeepsTypes(l: LState, k: InstructionKind)
    requires WellFormed(l)
    ensures
      var l' := l.(next := l.next + 1, code := l.code + [Inst(l.next, k)]);
      Keeps(l, l') && (DefinesValue(k) ==> HasType(l', l.next, TypeOf(k)))
  {
    hide WellTyped, Types, Ordered;
    Snoc(l.code, Inst(l.next, k));
  }

  function GetReg(l: LState, r: RegNum): (res: (LState, ValueId))
    requires WellFormed(l)
    ensures WellFormed(res.0) && Keeps(l, res.0) && HasType(res.0, res.1, I64)
  {
    hide AddInst, WellTyped, Types, Ordered;
    if r == 0 then AddInst(l, Const(I64, 0))
    else if r in l.cache then (l, l.cache[r])
    else
      var (l', id) := AddInst(l, RegRead(r));
      (l'.(cache := l'.cache[r := id]), id)
  }

  function SetReg(l: LState, r: RegNum, id: ValueId): (l': LState)
    requires WellFormed(l) && HasType(l, id, I64)
    ensures WellFormed(l') && l'.code == l.code
  {
    if r == 0 then l else l.(cache := l.cache[r := id], modified := l.modified + {r})
  }

  /* ---- Opcode tables ---- */

  function BinaryOf(op: RV.Opcode): BinaryOpcode
    requires RV.IsRType(op) || RV.IsIType(op)
  {
    match op
    case ADD | ADDI | ADDW | ADDIW => Plus
    case SUB => Minus
    case AND | ANDI => And
    case OR | ORI => Or
    case XOR | XORI => Xor
    case SLL | SLLI | SLLIW => Shl
    case SRL | SRLI => Shr
    case SRA | SRAI => Sar
    case SLT | SLTI => Lt
    case SLTU | SLTIU => LtU
  }

  // The 32-bit instructions truncate, compute in i32 and sign-extend
  predicate IsWord(op: RV.Opcode) { op.ADDW? || op.ADDIW? || op.SLLIW? }

  function AccessType(op: RV.Opcode): Type
    requires RV.IsLoad(op) || RV.IsStore(op)
  {
    match op
    case LB => I8
    case LH => I16
    case LW | LWU | SW => I32
    case LD | SD => I64
  }

  function CompareOf(op: RV.Opcode): (c: BinaryOpcode)
    requires RV.IsBranch(op)
    ensures IsComparison(c)
  {
    match op
    case BEQ => Eq
    case BNE => Ne
    case BLT => Lt
    case BGE => Ge
    case BLTU => LtU
    case BGEU => GeU
  }

  /* ---- Instruction patterns ---- */

  function LiftR(l: LState, rd: RegNum, rs1: RegNum, rs2: RegNum, op: BinaryOpcode): (l': LState)
    requires WellFormed(l)
    ensures WellFormed(l')
  {
    hide AddInst, GetReg, SetReg, WellFormed, Types;
    var (l1, a) := GetReg(l, rs1);
    var (l2, b) := GetReg(l1, rs2);
    var (l3, c) := AddInst(l2, BinaryOp(op, I64, a, b));
    SetReg(l3, rd, c)
  }

  function LiftI(l: LState, rd: RegNum, rs1: RegNum, imm: int, op: BinaryOpcode): (l': LState)
    requires WellFormed(l) && -0x800 <= imm < 0x800
    ensures WellFormed(l')
  {
    hide AddInst, GetReg, SetReg, WellFormed, Types;
    var (l1, a) := GetReg(l, rs1);
    var (l2, b) := AddInst(l1, Const(I64, imm));
    var (l3, c) := AddInst(l2, BinaryOp(op, I64, a, b));
    SetReg(l3, rd, c)
  }

  function LiftW(l: LState, rd: RegNum, rs1: RegNum, rs2: RegNum, op: BinaryOpcode): (l': LState)
    requires WellFormed(l) && Has32(op)
    ensures WellFormed(l')
  {
    hide AddInst, GetReg, SetReg, WellFormed, Types;
    var (l1, a) := GetReg(l, rs1);
    var (l2, b) := GetReg(l1, rs2);
    var (l3, a32) := AddInst(l2, Trunc(I32, a));
    var (l4, b32) := AddInst(l3, Trunc(I32, b));
    WordEnd(l4, rd, a32, b32, op)
  }

  // Computes in i32 and sign-extends the result
  function WordEnd(l: LState, rd: RegNum, a32: ValueId, b32: ValueId, op: BinaryOpcode): (l': LState)
    requires WellFormed(l) && Has32(op) && HasType(l, a32, I32) && HasType(l, b32, I32)
    ensures WellFormed(l')
  {
    hide AddInst, SetReg, WellFormed, Types;
    var (l1, c32) := AddInst(l, BinaryOp(op, I32, a32, b32));
    var (l2, c) := AddInst(l1, Sext(I64, c32));
    SetReg(l2, rd, c)
  }

  function LiftWImm(l: LState, rd: RegNum, rs1: RegNum, imm: int, op: BinaryOpcode): (l': LState)
    requires WellFormed(l) && -0x800 <= imm < 0x800 && Has32(op)
    ensures WellFormed(l')
  {
    hide AddInst, GetReg, SetReg, WellFormed, Types;
    var (l1, a) := GetReg(l, rs1);
    var (l2, b32) := AddInst(l1, Const(I32, imm));
    var (l3, a32) := AddInst(l2, Trunc(I32, a));
    WordEnd(l3, rd, a32, b32, op)
  }

  function LiftLoad(l: LState, rd: RegNum, rs1: RegNum, imm: int, ty: Type, signed: bool): (l': LState)
    requires WellFormed(l) && -0x800 <= imm < 0x800
    requires ty.I8? || ty.I16? || ty.I32? || ty.I64?
    requires !signed ==> ty.I32? || ty.I64?
    ensures WellFormed(l')
  {
    hide AddInst, GetReg, SetReg, WellFormed, Types;
    var (l1, a) := GetReg(l, rs1);
    var (l2, b) := AddInst(l1, Const(I64, imm));
    var (l3, addr) := AddInst(l2, BinaryOp(Plus, I64, a, b));
    var (l4, v) := AddInst(l3, LoadFrom(ty, addr));
    LoadEnd(l4, rd, v, ty, signed)
  }

  // Extends a narrow loaded value
  function LoadEnd(l: LState, rd: RegNum, v: ValueId, ty: Type, signed: bool): (l': LState)
    requires WellFormed(l) && HasType(l, v, ty)
    requires ty.I8? || ty.I16? || ty.I32? || ty.I64?
    requires !signed ==> ty.I32? || ty.I64?
    ensures WellFormed(l')
  {
    hide AddInst, SetReg, WellFormed, Types;
    if ty.I64? then SetReg(l, rd, v)
    else
      var (l1, w) := AddInst(l, if signed then Sext(I64, v) else Zext(I64, v));
      SetReg(l1, rd, w)
  }

  function LiftStore(l: LState, rs1: RegNum, rs2: RegNum, imm: int, ty: Type): (l': LState)
    requires WellFormed(l) && -0x800 <= imm < 0x800 && (ty.I32? || ty.I64?)
    ensures WellFormed(l')
  {
    hide AddInst, GetReg, SetReg, WellFormed, Types;
    var (l1, a) := GetReg(l, rs1);
    var (l2, v) := GetReg(l1, rs2);
    var (l3, b) := AddInst(l2, Const(I64, imm));
    var (l4, addr) := AddInst(l3, BinaryOp(Plus, I64, a, b));
    if ty.I64? then AddInst(l4, StoreTo(v, addr)).0
    else
      var (l5, w) := AddInst(l4, Trunc(ty, v));
      AddInst(l5, StoreTo(w, addr)).0
  }

  function LiftLui(l: LState, rd: RegNum, imm: int): (l': LState)
    requires WellFormed(l) && -0x8000_0000 <= imm < 0x8000_0000
    ensures WellFormed(l')
  {
    hide AddInst, GetReg, SetReg, WellFormed, Types;
    var (l1, v) := AddInst(l, Const(I64, imm * 0x1000));
    SetReg(l1, rd, v)
  }

  function LiftAuipc(l: LState, rd: RegNum, imm: int, pc: Word): (l': LState)
    requires WellFormed(l) && -0x8000_0000 <= imm < 0x8000_0000
    ensures WellFormed(l')
  {
    hide AddInst, GetReg, SetReg, WellFormed, Types;
    var (l1, a) := AddInst(l, Const(I64, Signed(pc)));
    var (l2, b) := AddInst(l1, Const(I64, imm * 0x1000));
    var (l3, c) := AddInst(l2, BinaryOp(Plus, I64, a, b));
    SetReg(l3, rd, c)
  }

  // One instruction that is not a control transfer
  function LiftSingle(l: LState, i: RV.Instruction): (l': LState)
    requires WellFormed(l) && RV.Supported(i) && !RV.IsTerminator(i.opcode)
    ensures WellFormed(l')
  {
    if i.opcode.ADDW? then LiftW(l, i.GetRegister(0), i.GetRegister(1), i.GetRegister(2), Plus)
    else if RV.IsRType(i.opcode) then LiftR(l, i.GetRegister(0), i.GetRegister(1), i.GetRegister(2), BinaryOf(i.opcode))
    else if IsWord(i.opcode) then LiftWImm(l, i.GetRegister(0), i.GetRegister(1), i.GetImmediate(2), BinaryOf(i.opcode))
    else if RV.IsIType(i.opcode) then
      LiftI(l, i.GetRegister(0), i.GetRegister(1), i.GetImmediate(2), BinaryOf(i.opcode))
    else if RV.IsLoad(i.opcode) then
      LiftLoad(l, i.GetRegister(0), i.GetRegister(1), i.GetImmediate(2),
               AccessType(i.opcode), !i.opcode.LWU? && !i.opcode.LD?)
    else if RV.IsStore(i.opcode) then
      LiftStore(l, i.GetRegister(0), i.GetRegister(1), i.GetImmediate(2), AccessType(i.opcode))
    else if i.opcode.LUI? then LiftLui(l, i.GetRegister(0), i.GetImmediate(1))
    else LiftAuipc(l, i.GetRegister(0), i.GetImmediate(1), i.address)
  }

  function LiftAll(l: LState, insts: seq<RV.Instruction>): (l': LState)
    requires WellFormed(l) && RV.AllSupported(insts) && RV.NoTerminator(insts)
    ensures WellFormed(l')
  {
    if insts == [] then l
    else LiftSingle(LiftAll(l, insts[..|insts| - 1]), insts[|insts| - 1])
  }

  /* ---- End of the block ---- */

  // An iteration order of an unordered set
  ghost predicate IsOrder(order: seq<nat>, rs: set<nat>) {
    && (forall j, k :: 0 <= j < k < |order| ==> order[j] != order[k])
    && (forall r :: r in order <==> r in rs)
  }

  lemma CachedTyped(l: LState, r: nat)
    requires WellFormed(l) && r in l.cache
    ensures Typed(Types(l.code), RegWrite(r, l.cache[r]))
  {
  }

  // Writes back the registers of `order`, in that order
  function WriteBack(l: LState, order: seq<nat>): (l': LState)
    requires WellFormed(l) && forall r :: r in order ==> r in l.cache
    ensures WellFormed(l') && l'.cache == l.cache && l'.modified == l.modified && Keeps(l, l')
  {
    if order == [] then l
    else
      var l1 := WriteBack(l, order[..|order| - 1]);
      var r := order[|order| - 1];
      AddInst(l1, RegWrite(r, l1.cache[r])).0
  }

  function LiftBranch(l: LState, op: BinaryOpcode, rs1: RegNum, rs2: RegNum, target: Word,
                      fallThrough: Word): (r: (LState, Terminator))
    requires WellFormed(l) && IsComparison(op)
    ensures WellFormed(r.0) && TypedTerminator(Types(r.0.code), r.1)
  {
    hide AddInst, GetReg, SetReg, WellFormed, Types;
    var (l1, a) := GetReg(l, rs1);
    var (l2, b) := GetReg(l1, rs2);
    var (l3, c) := AddInst(l2, BinaryOp(op, I1, a, b));
    (l3, CondBranch(c, target, fallThrough))
  }

  // The link value reaches the cache only: write-back has already happened
  function LinkTo(l: LState, rd: RegNum, ra: Word): (l': LState)
    requires WellFormed(l)
    ensures WellFormed(l') && Keeps(l, l')
  {
    var (l1, v) := AddInst(l, Const(I64, Signed(ra)));
    SetReg(l1, rd, v)
  }

  function LiftJalr(l: LState, rs1: RegNum, imm: int): (r: (LState, ValueId))
    requires WellFormed(l) && -0x800 <= imm < 0x800
    ensures WellFormed(r.0) && HasType(r.0, r.1, I64)
  {
    hide AddInst, GetReg, SetReg, WellFormed, Types;
    var (l1, a) := GetReg(l, rs1);
    var (l2, b) := AddInst(l1, Const(I64, imm));
    var (l3, t) := AddInst(l2, BinaryOp(Plus, I64, a, b));
    var (l4, mask) := AddInst(l3, Const(I64, -2));
    AddInst(l4, BinaryOp(And, I64, t, mask))
  }

  function LiftTerminator(l: LState, i: RV.Instruction, fallThrough: Word): (r: (LState, Terminator))
    requires WellFormed(l) && RV.Supported(i) && RV.IsTerminator(i.opcode)
    ensures WellFormed(r.0) && TypedTerminator(Types(r.0.code), r.1)
  {
    hide AddInst, GetReg, SetReg, WellFormed, Types, LiftBranch, LinkTo, LiftJalr, CompareOf, Add, ToWord;
    if RV.IsBranch(i.opcode) then
      LiftBranch(l, CompareOf(i.opcode), i.GetRegister(0), i.GetRegister(1),
                 Add(i.address, ToWord(i.GetImmediate(2))), fallThrough)
    else if i.opcode.JAL? then
      (LinkTo(l, i.GetRegister(0), Add(i.address, 4)), Branch(Add(i.address, ToWord(i.GetImmediate(1)))))
    else if RV.IsRet(i) then (l, Return(None))
    else
      var (l1, t) := LiftJalr(l, i.GetRegister(1), i.GetImmediate(2));
      if i.GetRegister(0) == 0 then (l1, Return(Some(t)))
      else (LinkTo(l1, i.GetRegister(0), Add(i.address, 4)), Return(Some(t)))
  }

  function Start(next: ValueId): LState { LState(next, map[], {}, []) }

  lemma StartWellFormed(next: nat)
    ensures WellFormed(Start(next)) && RV.AllSupported([]) && RV.NoTerminator([])
  {
  }

  // The lifter's state after the straight-line part and its write-back
  ghost function Lifted(next: ValueId, insts: seq<RV.Instruction>, order: seq<nat>): (l: LState)
    requires RV.IsBlock(insts)
    requires IsOrder(order, LiftAll(Start(next), RV.Straight(insts)).modified)
    ensures WellFormed(l)
  {
    WriteBack(LiftAll(Start(next), RV.Straight(insts)), order)
  }

  ghost function LiftBlock(next: ValueId, insts: seq<RV.Instruction>, order: seq<nat>): (r: (LState, Terminator))
    requires RV.IsBlock(insts)
    requires IsOrder(order, LiftAll(Start(next), RV.Straight(insts)).modified)
    ensures WellFormed(r.0) && TypedTerminator(Types(r.0.code), r.1)
  {
    var l := Lifted(next, insts, order);
    if RV.EndsInTerminator(insts) then
      var last := insts[|insts| - 1];
      LiftTerminator(l, last, Add(last.address, 4))
    else if insts == [] then (l, Branch(0))
    else (l, Branch(Add(insts[|insts| - 1].address, 4)))
  }

  // The lifted block
  ghost function LiftedBlock(next: ValueId, insts: seq<RV.Instruction>, order: seq<nat>): Block
    requires RV.IsBlock(insts) && IsOrder(order, LiftAll(Start(next), RV.Straight(insts)).modified)
  {
    var (l, term) := LiftBlock(next, insts, order);
    Block(l.code, term)
  }
}
