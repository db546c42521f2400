/** What the lifter makes of LUI and AUIPC, and of their operands as the decoder leaves them. */
module UpperImmediates {
  import opened Options
  import opened Words
  import opened RiscV
  import opened Decoder
  import opened DecoderCorrect
  import opened IR
  import L = LifterSpec

  lemma TwiceShifted(v: int)
    requires -0x8000_0000 <= v < 0x8000_0000
    ensures ToWord(v * 0x1000) == SignExtend32(ToWord(v)) <==> v == 0
  {
  }

  lemma Adds(l: L.LState, k: InstructionKind)
    requires L.WellFormed(l) && Typed(Types(l.code), k)
    ensures L.AddInst(l, k).0.code == l.code + [Inst(l.next, k)]
  {
    hide L.WellFormed, Types, Typed;
  }

  lemma SetsNoCode(l: L.LState, r: nat, id: ValueId)
    requires L.WellFormed(l) && L.HasType(l, id, I64) && r < 32
    ensures L.SetReg(l, r, id).code == l.code
  {
    hide L.WellFormed, Types;
  }

  lemma LuiLifts(l: L.LState, rd: nat, imm: int)
    requires L.WellFormed(l) && rd < 32 && -0x8000_0000 <= imm < 0x8000_0000
    ensures L.LiftLui(l, rd, imm).code == l.code + [Inst(l.next, Const(I64, imm * 0x1000))]
  {
    hide L.WellFormed, Types, L.AddInst, L.SetReg;
    var upper := Const(I64, imm * 0x1000);
    Adds(l, upper);
    SetsNoCode(L.AddInst(l, upper).0, rd, L.AddInst(l, upper).1);
  }

  lemma AuipcLifts(l: L.LState, rd: nat, imm: int, pc: Word)
    requires L.WellFormed(l) && rd < 32 && -0x8000_0000 <= imm < 0x8000_0000
    ensures
      var code := L.LiftAuipc(l, rd, imm, pc).code;
      |code| == |l.code| + 3 && code[|l.code| + 1].kind == Const(I64, imm * 0x1000)
  {
    hide L.WellFormed, Types, L.AddInst, L.SetReg;
    var upper := Const(I64, imm * 0x1000);
    var (l1, a) := L.AddInst(l, Const(I64, Signed(pc)));
    Adds(l, Const(I64, Signed(pc)));
    var (l2, b) := L.AddInst(l1, upper);
    Adds(l1, upper);
    var (l3, c) := L.AddInst(l2, BinaryOp(Plus, I64, a, b));
    Adds(l2, BinaryOp(Plus, I64, a, b));
    SetsNoCode(l3, rd, c);
  }

  lemma UpperOperands(i: Instruction)
    requires Supported(i) && IsUpper(i.opcode)
    ensures RegImm(i, 0x8000_0000) && !IsTerminator(i.opcode)
  {
  }

  lemma SingleIsUpper(l: L.LState, i: Instruction)
    requires L.WellFormed(l) && Supported(i) && IsUpper(i.opcode) && RegImm(i, 0x8000_0000) && !IsTerminator(i.opcode)
    ensures
      L.LiftSingle(l, i) ==
      if i.opcode.LUI? then L.LiftLui(l, i.GetRegister(0), i.GetImmediate(1))
      else L.LiftAuipc(l, i.GetRegister(0), i.GetImmediate(1), i.address)
  {
    hide L.WellFormed, L.LiftLui, L.LiftAuipc, L.LiftR, L.LiftI, L.LiftW, L.LiftWImm, L.LiftLoad, L.LiftStore,
      Supported;
  }

  lemma UpperLifts(l: L.LState, i: Instruction)
    requires L.WellFormed(l) && Supported(i) && IsUpper(i.opcode) && RegImm(i, 0x8000_0000) && !IsTerminator(i.opcode)
    ensures
      var code, k := L.LiftSingle(l, i).code, |l.code| + if i.opcode.LUI? then 0 else 1;
      k < |code| && code[k].kind == Const(I64, i.GetImmediate(1) * 0x1000)
  {
    hide L.WellFormed, L.LiftLui, L.LiftAuipc, L.LiftSingle, Supported;
    SingleIsUpper(l, i);
    if i.opcode.LUI? {
      LuiLifts(l, i.GetRegister(0), i.GetImmediate(1));
    } else {
      AuipcLifts(l, i.GetRegister(0), i.GetImmediate(1), i.address);
    }
  }

  // The lifter emits this constant for a LUI or AUIPC
  ghost predicate LiftsConstant(l: L.LState, i: Instruction, v: int) {
    L.WellFormed(l) && Supported(i) && !IsTerminator(i.opcode) &&
    var code, k := L.LiftSingle(l, i).code, |l.code| + if i.opcode.LUI? then 0 else 1;
    k < |code| && code[k].kind == Const(I64, v)
  }

  lemma DecodedUpper(op: Opcode, rd: bv32, imm: bv32, pc: Word) returns (i: Instruction)
    requires IsUpper(op) && rd < 32 && imm & 0xFFF == 0
    ensures Decode(PackU(imm, rd, Major(op)), pc) == Some(i) && i.opcode == op && Supported(i)
    ensures |i.operands| == 2 && i.operands[1] == Immediate(Int32(imm)) && -0x8000_0000 <= Int32(imm) < 0x8000_0000
  {
    hide PackU, Decode, Int32, Reg, Supported;
    UDecodes(op, rd, imm, pc);
    i := Decode(PackU(imm, rd, Major(op)), pc).value;
    DecodedIsSupported(PackU(imm, rd, Major(op)), pc);
    Below32(imm);
  }

  /** The decoder shifts an upper immediate and the lifter shifts it again: the constant in the code
      lifted for a decoded LUI or AUIPC is the ISA's exactly when it is zero. */
  lemma UpperShiftedTwice(op: Opcode, rd: bv32, imm: bv32, pc: Word, l: L.LState) returns (i: Instruction, v: int)
    requires IsUpper(op) && rd < 32 && imm & 0xFFF == 0 && L.WellFormed(l)
    ensures Decode(PackU(imm, rd, Major(op)), pc) == Some(i) && i.opcode == op && LiftsConstant(l, i, v)
    ensures ConstInRange(I64, v) && (ConstBits(I64, v) == SignExtend32(ToWord(Int32(imm))) <==> Int32(imm) == 0)
  {
    hide PackU, Decode, Int32, Major, L.LiftSingle, L.WellFormed, Supported;
    i := DecodedUpper(op, rd, imm, pc);
    UpperOperands(i);
    UpperLifts(l, i);
    v := i.GetImmediate(1) * 0x1000;
    TwiceShifted(Int32(imm));
  }
}
