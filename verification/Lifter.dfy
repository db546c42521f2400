/** The lifter, as it updates its fields. Each method is tied to the function of LifterSpec that
    says what it computes. */
module Lifter {
  import opened Options
  import opened Words
  import opened Guest
  import opened IR
  import opened LifterSpec
  import RV = RiscV

  // The opcodes the lifter has a case for
  predicate Lifts(op: RV.Opcode) {
    RV.IsRType(op) || RV.IsIType(op) || RV.IsLoad(op) || RV.IsStore(op) || RV.IsUpper(op) || RV.IsTerminator(op)
  }

  // Instructions whose operands fit their opcode, as the decoder makes them; the opcode itself
  // need not be one that the lifter supports
  predicate Formed(insts: seq<RV.Instruction>) {
    forall k :: 0 <= k < |insts| && Lifts(insts[k].opcode) ==> RV.Supported(insts[k])
  }

  class Lifter {
    var nextValueId: ValueId
    var cachedRegisterValues: map<nat, ValueId>
    var modifiedRegisters: set<nat>
    var currentInstructions: seq<Inst>

    ghost function State(): LState
      reads this
    {
      LState(nextValueId, cachedRegisterValues, modifiedRegisters, currentInstructions)
    }

    constructor ()
      ensures State() == Start(1)
    {
      nextValueId := 1;
      cachedRegisterValues := map[];
      modifiedRegisters := {};
      currentInstructions := [];
    }

    method AddInstruction(kind: InstructionKind) returns (id: ValueId)
      requires WellFormed(State()) && Typed(Types(currentInstructions), kind)
      modifies this
      ensures (State(), id) == AddInst(old(State()), kind)
    {
      hide WellFormed, Types, Typed;
      id := nextValueId;
      nextValueId := nextValueId + 1;
      currentInstructions := currentInstructions + [Inst(id, kind)];
    }

    method GetRegisterValue(r: RegNum) returns (id: ValueId)
      requires WellFormed(State())
      modifies this
      ensures (State(), id) == GetReg(old(State()), r)
    {
      hide WellFormed, Types, AddInst;
      if r == 0 {
        id := AddInstruction(Const(I64, 0));
      } else if r in cachedRegisterValues {
        id := cachedRegisterValues[r];
      } else {
        id := AddInstruction(RegRead(r));
        cachedRegisterValues := cachedRegisterValues[r := id];
      }
    }

    method SetRegisterValue(r: RegNum, id: ValueId)
      requires WellFormed(State()) && HasType(State(), id, I64)
      modifies this
      ensures State() == SetReg(old(State()), r, id)
    {
      hide WellFormed, Types;
      if r != 0 {
        cachedRegisterValues := cachedRegisterValues[r := id];
        modifiedRegisters := modifiedRegisters + {r};
      }
    }

    method LiftRTypeBinaryOp(inst: RV.Instruction, op: BinaryOpcode)
      requires WellFormed(State()) && RV.RegRegReg(inst)
      modifies this
      ensures State() == LiftR(old(State()), inst.GetRegister(0), inst.GetRegister(1), inst.GetRegister(2), op)
    {
      hide WellFormed, Types, AddInst, GetReg, SetReg;
      var rs1 := GetRegisterValue(inst.GetRegister(1));
      var rs2 := GetRegisterValue(inst.GetRegister(2));
      var result := AddInstruction(BinaryOp(op, I64, rs1, rs2));
      SetRegisterValue(inst.GetRegister(0), result);
    }

    method LiftITypeBinaryOp(inst: RV.Instruction, op: BinaryOpcode)
      requires WellFormed(State()) && RV.RegRegImm(inst, 0x800)
      modifies this
      ensures State() == LiftI(old(State()), inst.GetRegister(0), inst.GetRegister(1), inst.GetImmediate(2), op)
    {
      hide WellFormed, Types, AddInst, GetReg, SetReg;
      var rs1 := GetRegisterValue(inst.GetRegister(1));
      var imm := AddInstruction(Const(I64, inst.GetImmediate(2)));
      var result := AddInstruction(BinaryOp(op, I64, rs1, imm));
      SetRegisterValue(inst.GetRegister(0), result);
    }

    // The end of both 32-bit patterns
    method FinishWord(rd: RegNum, a32: ValueId, b32: ValueId, op: BinaryOpcode)
      requires WellFormed(State()) && Has32(op) && HasType(State(), a32, I32) && HasType(State(), b32, I32)
      modifies this
      ensures State() == WordEnd(old(State()), rd, a32, b32, op)
    {
      hide WellFormed, Types, AddInst, SetReg;
      var result32 := AddInstruction(BinaryOp(op, I32, a32, b32));
      var result := AddInstruction(Sext(I64, result32));
      SetRegisterValue(rd, result);
    }

    method LiftWTypeBinaryOp(inst: RV.Instruction, op: BinaryOpcode)
      requires WellFormed(State()) && RV.RegRegReg(inst) && Has32(op)
      modifies this
      ensures State() == LiftW(old(State()), inst.GetRegister(0), inst.GetRegister(1), inst.GetRegister(2), op)
    {
      hide WellFormed, Types, AddInst, GetReg, WordEnd;
      var rs1 := GetRegisterValue(inst.GetRegister(1));
      var rs2 := GetRegisterValue(inst.GetRegister(2));
      var rs1Trunc := AddInstruction(Trunc(I32, rs1));
      var rs2Trunc := AddInstruction(Trunc(I32, rs2));
      FinishWord(inst.GetRegister(0), rs1Trunc, rs2Trunc, op);
    }

    method LiftWTypeImmOp(inst: RV.Instruction, op: BinaryOpcode)
      requires WellFormed(State()) && RV.RegRegImm(inst, 0x800) && Has32(op)
      modifies this
      ensures State() == LiftWImm(old(State()), inst.GetRegister(0), inst.GetRegister(1), inst.GetImmediate(2), op)
    {
      hide WellFormed, Types, AddInst, GetReg, WordEnd;
      var rs1 := GetRegisterValue(inst.GetRegister(1));
      var imm := AddInstruction(Const(I32, inst.GetImmediate(2)));
      var rs1Trunc := AddInstruction(Trunc(I32, rs1));
      FinishWord(inst.GetRegister(0), rs1Trunc, imm, op);
    }

    method LiftLoadInstruction(inst: RV.Instruction, loadType: Type, signExtend: bool)
      requires WellFormed(State()) && RV.RegRegImm(inst, 0x800)
      requires loadType.I8? || loadType.I16? || loadType.I32? || loadType.I64?
      requires !signExtend ==> loadType.I32? || loadType.I64?
      modifies this
      ensures State() ==
              LiftLoad(old(State()), inst.GetRegister(0), inst.GetRegister(1), inst.GetImmediate(2), loadType,
                signExtend)
    {
      hide WellFormed, Types, AddInst, GetReg, SetReg;
      var rs1 := GetRegisterValue(inst.GetRegister(1));
      var imm := AddInstruction(Const(I64, inst.GetImmediate(2)));
      var addr := AddInstruction(BinaryOp(Plus, I64, rs1, imm));
      var result := AddInstruction(LoadFrom(loadType, addr));
      if loadType != I64 {
        if signExtend {
          result := AddInstruction(Sext(I64, result));
        } else {
          result := AddInstruction(Zext(I64, result));
        }
      }
      SetRegisterValue(inst.GetRegister(0), result);
    }

    method LiftStoreInstruction(inst: RV.Instruction, storeType: Type)
      requires WellFormed(State()) && RV.RegRegImm(inst, 0x800) && (storeType.I32? || storeType.I64?)
      modifies this
      ensures State() ==
              LiftStore(old(State()), inst.GetRegister(0), inst.GetRegister(1), inst.GetImmediate(2), storeType)
    {
      hide WellFormed, Types, AddInst, GetReg, SetReg;
      var rs1 := GetRegisterValue(inst.GetRegister(0));
      var rs2 := GetRegisterValue(inst.GetRegister(1));
      var imm := AddInstruction(Const(I64, inst.GetImmediate(2)));
      var addr := AddInstruction(BinaryOp(Plus, I64, rs1, imm));
      var val := rs2;
      if storeType != I64 {
        val := AddInstruction(Trunc(storeType, rs2));
      }
      var _ := AddInstruction(StoreTo(val, addr));
    }

    // lui and auipc
    method LiftUpper(inst: RV.Instruction)
      requires WellFormed(State()) && RV.IsUpper(inst.opcode) && RV.RegImm(inst, 0x8000_0000)
      modifies this
      ensures State() ==
              if inst.opcode.LUI? then LiftLui(old(State()), inst.GetRegister(0), inst.GetImmediate(1))
              else LiftAuipc(old(State()), inst.GetRegister(0), inst.GetImmediate(1), inst.address)
    {
      hide WellFormed, Types, AddInst, SetReg;
      if inst.opcode.LUI? {
        var imm := AddInstruction(Const(I64, inst.GetImmediate(1) * 0x1000));
        SetRegisterValue(inst.GetRegister(0), imm);
      } else {
        var pc := AddInstruction(Const(I64, Signed(inst.address)));
        var imm := AddInstruction(Const(I64, inst.GetImmediate(1) * 0x1000));
        var result := AddInstruction(BinaryOp(Plus, I64, pc, imm));
        SetRegisterValue(inst.GetRegister(0), result);
      }
    }

    // false: an unsupported instruction throws
    method LiftSingleInstruction(inst: RV.Instruction) returns (ok: bool)
      requires WellFormed(State()) && !RV.IsTerminator(inst.opcode)
      requires Lifts(inst.opcode) ==> RV.Supported(inst)
      modifies this
      ensures ok == Lifts(inst.opcode)
      ensures ok ==> State() == LiftSingle(old(State()), inst)
      ensures !ok ==> unchanged(this)
    {
      hide WellFormed, Types, LiftR, LiftI, LiftW, LiftWImm, LiftLoad, LiftStore, LiftLui, LiftAuipc;
      ok := true;
      if inst.opcode.ADDW? {
        LiftWTypeBinaryOp(inst, Plus);
      } else if RV.IsRType(inst.opcode) {
        LiftRTypeBinaryOp(inst, BinaryOf(inst.opcode));
      } else if IsWord(inst.opcode) {
        LiftWTypeImmOp(inst, BinaryOf(inst.opcode));
      } else if RV.IsIType(inst.opcode) {
        LiftITypeBinaryOp(inst, BinaryOf(inst.opcode));
      } else if RV.IsLoad(inst.opcode) {
        LiftLoadInstruction(inst, AccessType(inst.opcode), !inst.opcode.LWU? && !inst.opcode.LD?);
      } else if RV.IsStore(inst.opcode) {
        LiftStoreInstruction(inst, AccessType(inst.opcode));
      } else if RV.IsUpper(inst.opcode) {
        LiftUpper(inst);
      } else {
        ok := false;
      }
    }

    // The registers are written back in whatever order the set is walked
    method FinalizeRegisterWrites() returns (ghost order: seq<nat>)
      requires WellFormed(State())
      modifies this
      ensures IsOrder(order, old(modifiedRegisters))
      ensures (forall r :: r in order ==> r in old(State()).cache) && State() == WriteBack(old(State()), order)
    {
      hide WellFormed, Types, AddInst;
      order := [];
      ghost var start := State();
      WithinCache(start);
      var rest := modifiedRegisters;
      while rest != {}
        invariant rest <= start.modified <= start.cache.Keys
        invariant IsOrder(order, start.modified - rest) && (forall r :: r in order ==> r in start.cache)
        invariant WellFormed(State()) && State() == WriteBack(start, order)
        decreases |rest|
      {
        var r :| r in rest;
        CachedTyped(State(), r);
        var _ := AddInstruction(RegWrite(r, cachedRegisterValues[r]));
        WriteBackSnoc(start, order, r);
        OrderSnoc(order, start.modified - rest, r);
        assert start.modified - rest + {r} == start.modified - (rest - {r});
        rest := rest - {r};
        order := order + [r];
      }
      assert start.modified - {} == start.modified;
    }

    method CreateConditionalBranch(op: BinaryOpcode, inst: RV.Instruction, fallThrough: Word) returns (t: Terminator)
      requires WellFormed(State()) && IsComparison(op) && RV.RegRegImm(inst, 0x1000)
      modifies this
      ensures (State(), t) ==
              LiftBranch(old(State()), op, inst.GetRegister(0), inst.GetRegister(1),
                         Add(inst.address, ToWord(inst.GetImmediate(2))), fallThrough)
    {
      hide WellFormed, Types, AddInst, GetReg, SetReg, Add, ToWord;
      var rs1 := GetRegisterValue(inst.GetRegister(0));
      var rs2 := GetRegisterValue(inst.GetRegister(1));
      var condition := AddInstruction(BinaryOp(op, I1, rs1, rs2));
      t := CondBranch(condition, Add(inst.address, ToWord(inst.GetImmediate(2))), fallThrough);
    }

    // Caches the return address
    method SetLink(rd: RegNum, ra: Word)
      requires WellFormed(State())
      modifies this
      ensures State() == LinkTo(old(State()), rd, ra)
    {
      hide WellFormed, Types, AddInst, SetReg;
      var returnAddr := AddInstruction(Const(I64, Signed(ra)));
      SetRegisterValue(rd, returnAddr);
    }

    method CreateIndirectTarget(inst: RV.Instruction) returns (target: ValueId)
      requires WellFormed(State()) && RV.RegRegImm(inst, 0x800)
      modifies this
      ensures (State(), target) == LiftJalr(old(State()), inst.GetRegister(1), inst.GetImmediate(2))
    {
      hide WellFormed, Types, AddInst, GetReg, SetReg;
      var rs1Value := GetRegisterValue(inst.GetRegister(1));
      var immValue := AddInstruction(Const(I64, inst.GetImmediate(2)));
      var targetAddr := AddInstruction(BinaryOp(Plus, I64, rs1Value, immValue));
      var mask := AddInstruction(Const(I64, -2));
      target := AddInstruction(BinaryOp(And, I64, targetAddr, mask));
    }

    method LiftTerminatorInst(inst: RV.Instruction, fallThrough: Word) returns (t: Terminator)
      requires WellFormed(State()) && RV.Supported(inst) && RV.IsTerminator(inst.opcode)
      modifies this
      ensures (State(), t) == LiftTerminator(old(State()), inst, fallThrough)
    {
      hide WellFormed, Types, LiftBranch, LinkTo, LiftJalr, CompareOf, Add, ToWord;
      if RV.IsBranch(inst.opcode) {
        t := CreateConditionalBranch(CompareOf(inst.opcode), inst, fallThrough);
      } else if inst.opcode.JAL? {
        SetLink(inst.GetRegister(0), Add(inst.address, 4));
        t := Branch(Add(inst.address, ToWord(inst.GetImmediate(1))));
      } else if RV.IsRet(inst) {
        t := Return(None);
      } else {
        var target := CreateIndirectTarget(inst);
        if inst.GetRegister(0) != 0 {
          SetLink(inst.GetRegister(0), Add(inst.address, 4));
        }
        t := Return(Some(target));
      }
    }

    // None: an unsupported instruction throws
    method LiftBasicBlock(instructions: seq<RV.Instruction>) returns (block: Option<Block>, ghost order: seq<nat>)
      requires Formed(instructions) && RV.TerminatorLast(instructions)
      modifies this
      ensures block.Some? <==> RV.AllSupported(instructions)
      ensures block.Some? ==>
                && IsOrder(order, LiftAll(Start(old(nextValueId)), RV.Straight(instructions)).modified)
                && var (l, term) := LiftBlock(old(nextValueId), instructions, order);
                   State() == l && block.value == Block(l.code, term)
    {
      hide WellFormed, Types, LiftSingle, WriteBack, LiftTerminator, RV.Supported, IsOrder;
      ghost var first := nextValueId;
      currentInstructions := [];
      cachedRegisterValues := map[];
      modifiedRegisters := {};
      order := [];
      StartWellFormed(first);
      var terminator := Branch(0);
      var i := 0;
      while i < |instructions|
        invariant 0 <= i <= |instructions|
        invariant forall k :: 0 <= k < i ==> RV.Supported(instructions[k]) && !RV.IsTerminator(instructions[k].opcode)
        invariant State() == LiftAll(Start(first), instructions[..i])
      {
        var inst := instructions[i];
        if RV.IsTerminator(inst.opcode) {
          break;
        }
        var ok := LiftSingleInstruction(inst);
        if !ok {
          NotLifted(inst);
          return None, [];
        }
        LiftSnoc(first, instructions, i);
        i := i + 1;
      }
      assert i == |instructions| || (i == |instructions| - 1 && RV.IsTerminator(instructions[i].opcode));
      StraightPart(instructions, i);
      order := FinalizeRegisterWrites();
      if i < |instructions| {
        terminator := LiftTerminatorInst(instructions[i], Add(instructions[i].address, 4));
      } else {
        terminator := Branch(if instructions == [] then 0 else Add(instructions[|instructions| - 1].address, 4));
      }
      block := Some(Block(currentInstructions, terminator));
    }
  }

  lemma WithinCache(l: LState)
    requires WellFormed(l)
    ensures l.modified <= l.cache.Keys
  {
  }

  lemma WriteBackSnoc(l: LState, order: seq<nat>, r: nat)
    requires WellFormed(l) && (forall q :: q in order ==> q in l.cache) && r in l.cache
    ensures
      var l1 := WriteBack(l, order);
      Typed(Types(l1.code), RegWrite(r, l1.cache[r])) &&
      WriteBack(l, order + [r]) == AddInst(l1, RegWrite(r, l1.cache[r])).0
  {
    CachedTyped(WriteBack(l, order), r);
    hide WellFormed, AddInst, Types;
    assert (order + [r])[..|order|] == order;
  }

  lemma OrderSnoc(order: seq<nat>, rs: set<nat>, r: nat)
    requires IsOrder(order, rs) && r !in rs
    ensures IsOrder(order + [r], rs + {r})
  {
  }

  lemma NotLifted(inst: RV.Instruction)
    requires !Lifts(inst.opcode)
    ensures !RV.Supported(inst)
  {
  }

  lemma LiftSnoc(first: nat, insts: seq<RV.Instruction>, i: nat)
    requires i < |insts|
    requires forall k :: 0 <= k <= i ==> RV.Supported(insts[k]) && !RV.IsTerminator(insts[k].opcode)
    ensures LiftAll(Start(first), insts[..i + 1]) == LiftSingle(LiftAll(Start(first), insts[..i]), insts[i])
  {
    hide RV.Supported, LiftSingle, WellFormed;
    assert insts[..i + 1][..i] == insts[..i];
  }

  lemma StraightPart(insts: seq<RV.Instruction>, i: nat)
    requires i == |insts| || (i == |insts| - 1 && RV.IsTerminator(insts[i].opcode))
    requires i == |insts| ==> forall k :: 0 <= k < i ==> !RV.IsTerminator(insts[k].opcode)
    ensures RV.Straight(insts) == insts[..i] && (RV.EndsInTerminator(insts) <==> i < |insts|)
  {
    assert insts[..|insts|] == insts;
  }
}
