/** The lifter's cache and modified set, in terms of the guest registers that a block names. */
module GuestRegisters {
  import opened Words
  import opened Guest
  import opened IR
  import opened LifterSpec
  import RV = RiscV

  // The registers other than x0 among the operands
  function Named(i: RV.Instruction): set<nat> {
    set k | 0 <= k < |i.operands| && i.operands[k].Register? && i.operands[k].number != 0 :: i.operands[k].number
  }

  // The register other than x0 that the instruction writes
  function Written(i: RV.Instruction): set<nat>
    requires RV.Supported(i) && !RV.IsTerminator(i.opcode)
  {
    if RV.IsStore(i.opcode) then {} else Nonzero(i.GetRegister(0))
  }

  function Nonzero(r: nat): set<nat> { if r == 0 then {} else {r} }

  function NamedBy(insts: seq<RV.Instruction>): set<nat> {
    if insts == [] then {} else NamedBy(insts[..|insts| - 1]) + Named(insts[|insts| - 1])
  }

  function WrittenBy(insts: seq<RV.Instruction>): set<nat>
    requires RV.AllSupported(insts) && RV.NoTerminator(insts)
  {
    if insts == [] then {} else WrittenBy(insts[..|insts| - 1]) + Written(insts[|insts| - 1])
  }

  // Cache and modified set after a step that names and writes these registers
  ghost predicate Touches(l: LState, l': LState, named: set<nat>, written: set<nat>) {
    l'.cache.Keys == l.cache.Keys + named && l'.modified == l.modified + written
  }

  lemma GetTouches(l: LState, r: RegNum)
    requires WellFormed(l)
    ensures Touches(l, GetReg(l, r).0, Nonzero(r), {})
  {
    hide WellFormed, Types;
  }

  lemma SetTouches(l: LState, r: RegNum, id: ValueId)
    requires WellFormed(l) && HasType(l, id, I64)
    ensures Touches(l, SetReg(l, r, id), Nonzero(r), Nonzero(r))
  {
    hide WellFormed, Types;
  }

  lemma RTouches(l: LState, rd: RegNum, rs1: RegNum, rs2: RegNum, op: BinaryOpcode)
    requires WellFormed(l)
    ensures Touches(l, LiftR(l, rd, rs1, rs2, op), Nonzero(rd) + Nonzero(rs1) + Nonzero(rs2), Nonzero(rd))
  {
    hide AddInst, GetReg, SetReg, WellFormed, Types, Nonzero;
    var (l1, a) := GetReg(l, rs1);
    var (l2, b) := GetReg(l1, rs2);
    var (l3, c) := AddInst(l2, BinaryOp(op, I64, a, b));
    GetTouches(l, rs1);
    GetTouches(l1, rs2);
    SetTouches(l3, rd, c);
  }

  lemma ITouches(l: LState, rd: RegNum, rs1: RegNum, imm: int, op: BinaryOpcode)
    requires WellFormed(l) && -0x800 <= imm < 0x800
    ensures Touches(l, LiftI(l, rd, rs1, imm, op), Nonzero(rd) + Nonzero(rs1), Nonzero(rd))
  {
    hide AddInst, GetReg, SetReg, WellFormed, Types, Nonzero;
    var (l1, a) := GetReg(l, rs1);
    var (l2, b) := AddInst(l1, Const(I64, imm));
    var (l3, c) := AddInst(l2, BinaryOp(op, I64, a, b));
    GetTouches(l, rs1);
    SetTouches(l3, rd, c);
  }

  lemma WordEndTouches(l: LState, rd: RegNum, a32: ValueId, b32: ValueId, op: BinaryOpcode)
    requires WellFormed(l) && Has32(op) && HasType(l, a32, I32) && HasType(l, b32, I32)
    ensures Touches(l, WordEnd(l, rd, a32, b32, op), Nonzero(rd), Nonzero(rd))
  {
    hide AddInst, SetReg, WellFormed, Types, Nonzero;
    var (l1, c32) := AddInst(l, BinaryOp(op, I32, a32, b32));
    var (l2, c) := AddInst(l1, Sext(I64, c32));
    SetTouches(l2, rd, c);
  }

  lemma WTouches(l: LState, rd: RegNum, rs1: RegNum, rs2: RegNum, op: BinaryOpcode)
    requires WellFormed(l) && Has32(op)
    ensures Touches(l, LiftW(l, rd, rs1, rs2, op), Nonzero(rd) + Nonzero(rs1) + Nonzero(rs2), Nonzero(rd))
  {
    hide AddInst, GetReg, WordEnd, WellFormed, Types, Nonzero;
    var (l1, a) := GetReg(l, rs1);
    var (l2, b) := GetReg(l1, rs2);
    var (l3, a32) := AddInst(l2, Trunc(I32, a));
    var (l4, b32) := AddInst(l3, Trunc(I32, b));
    GetTouches(l, rs1);
    GetTouches(l1, rs2);
    WordEndTouches(l4, rd, a32, b32, op);
  }

  lemma WImmTouches(l: LState, rd: RegNum, rs1: RegNum, imm: int, op: BinaryOpcode)
    requires WellFormed(l) && -0x800 <= imm < 0x800 && Has32(op)
    ensures Touches(l, LiftWImm(l, rd, rs1, imm, op), Nonzero(rd) + Nonzero(rs1), Nonzero(rd))
  {
    hide AddInst, GetReg, WordEnd, WellFormed, Types, Nonzero;
    var (l1, a) := GetReg(l, rs1);
    var (l2, b32) := AddInst(l1, Const(I32, imm));
    var (l3, a32) := AddInst(l2, Trunc(I32, a));
    GetTouches(l, rs1);
    WordEndTouches(l3, rd, a32, b32, op);
  }

  lemma LoadTouches(l: LState, rd: RegNum, rs1: RegNum, imm: int, ty: Type, signed: bool)
    requires WellFormed(l) && -0x800 <= imm < 0x800
    requires ty.I8? || ty.I16? || ty.I32? || ty.I64?
    requires !signed ==> ty.I32? || ty.I64?
    ensures Touches(l, LiftLoad(l, rd, rs1, imm, ty, signed), Nonzero(rd) + Nonzero(rs1), Nonzero(rd))
  {
    hide AddInst, GetReg, SetReg, WellFormed, Types, Nonzero;
    var (l1, a) := GetReg(l, rs1);
    var (l2, b) := AddInst(l1, Const(I64, imm));
    var (l3, addr) := AddInst(l2, BinaryOp(Plus, I64, a, b));
    var (l4, v) := AddInst(l3, LoadFrom(ty, addr));
    GetTouches(l, rs1);
    if ty.I64? {
      SetTouches(l4, rd, v);
    } else {
      var (l5, w) := AddInst(l4, if signed then Sext(I64, v) else Zext(I64, v));
      SetTouches(l5, rd, w);
    }
  }

  lemma StoreTouches(l: LState, rs1: RegNum, rs2: RegNum, imm: int, ty: Type)
    requires WellFormed(l) && -0x800 <= imm < 0x800 && (ty.I32? || ty.I64?)
    ensures Touches(l, LiftStore(l, rs1, rs2, imm, ty), Nonzero(rs1) + Nonzero(rs2), {})
  {
    hide AddInst, GetReg, SetReg, WellFormed, Types, Nonzero;
    var (l1, a) := GetReg(l, rs1);
    GetTouches(l, rs1);
    GetTouches(l1, rs2);
  }

  lemma UpperTouches(l: LState, rd: RegNum, imm: int, pc: Word)
    requires WellFormed(l) && -0x8000_0000 <= imm < 0x8000_0000
    ensures Touches(l, LiftLui(l, rd, imm), Nonzero(rd), Nonzero(rd))
    ensures Touches(l, LiftAuipc(l, rd, imm, pc), Nonzero(rd), Nonzero(rd))
  {
    hide AddInst, GetReg, SetReg, WellFormed, Types, Nonzero;
    var upper := Const(I64, imm * 0x1000);
    SetTouches(AddInst(l, upper).0, rd, AddInst(l, upper).1);
    var (l1, a) := AddInst(l, Const(I64, Signed(pc)));
    var (l2, b) := AddInst(l1, upper);
    var (l3, c) := AddInst(l2, BinaryOp(Plus, I64, a, b));
    SetTouches(l3, rd, c);
  }

  lemma NamedThree(i: RV.Instruction)
    requires RV.RegRegReg(i)
    ensures Named(i) == Nonzero(i.GetRegister(0)) + Nonzero(i.GetRegister(1)) + Nonzero(i.GetRegister(2))
  {
    assert forall k :: 0 <= k < 3 ==> i.operands[k].number == 0 || i.operands[k].number in Named(i);
  }

  lemma NamedTwo(i: RV.Instruction)
    requires RV.RegRegImm(i, 0x800)
    ensures Named(i) == Nonzero(i.GetRegister(0)) + Nonzero(i.GetRegister(1))
  {
    assert forall k :: 0 <= k < 2 ==> i.operands[k].number == 0 || i.operands[k].number in Named(i);
  }

  lemma NamedOne(i: RV.Instruction)
    requires RV.RegImm(i, 0x8000_0000)
    ensures Named(i) == Nonzero(i.GetRegister(0))
  {
    assert i.operands[0].number == 0 || i.operands[0].number in Named(i);
  }

  lemma SingleTouches(l: LState, i: RV.Instruction)
    requires WellFormed(l) && RV.Supported(i) && !RV.IsTerminator(i.opcode)
    ensures Touches(l, LiftSingle(l, i), Named(i), Written(i))
  {
    hide LiftR, LiftI, LiftW, LiftWImm, LiftLoad, LiftStore, LiftLui, LiftAuipc, WellFormed, Named, Nonzero;
    if i.opcode.ADDW? {
      NamedThree(i);
      WTouches(l, i.GetRegister(0), i.GetRegister(1), i.GetRegister(2), Plus);
    } else if RV.IsRType(i.opcode) {
      NamedThree(i);
      RTouches(l, i.GetRegister(0), i.GetRegister(1), i.GetRegister(2), BinaryOf(i.opcode));
    } else if IsWord(i.opcode) {
      NamedTwo(i);
      WImmTouches(l, i.GetRegister(0), i.GetRegister(1), i.GetImmediate(2), BinaryOf(i.opcode));
    } else if RV.IsIType(i.opcode) {
      NamedTwo(i);
      ITouches(l, i.GetRegister(0), i.GetRegister(1), i.GetImmediate(2), BinaryOf(i.opcode));
    } else if RV.IsLoad(i.opcode) {
      NamedTwo(i);
      LoadTouches(l, i.GetRegister(0), i.GetRegister(1), i.GetImmediate(2),
        AccessType(i.opcode), !i.opcode.LWU? && !i.opcode.LD?);
    } else if RV.IsStore(i.opcode) {
      NamedTwo(i);
      StoreTouches(l, i.GetRegister(0), i.GetRegister(1), i.GetImmediate(2), AccessType(i.opcode));
    } else {
      NamedOne(i);
      UpperTouches(l, i.GetRegister(0), i.GetImmediate(1), i.address);
    }
  }

  /** After any straight-line code the cache holds the registers it names and the modified set those
      it writes, x0 apart. */
  lemma {:induction false} AllTouches(l: LState, insts: seq<RV.Instruction>)
    requires WellFormed(l) && RV.AllSupported(insts) && RV.NoTerminator(insts)
    ensures Touches(l, LiftAll(l, insts), NamedBy(insts), WrittenBy(insts))
  {
    hide LiftSingle, WellFormed, RV.Supported, Named, Written;
    if insts != [] {
      var n := |insts| - 1;
      AllTouches(l, insts[..n]);
      SingleTouches(LiftAll(l, insts[..n]), insts[n]);
    }
  }
}
