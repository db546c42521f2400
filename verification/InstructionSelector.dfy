/** The instruction selector, as it updates its fields. Each method is tied to the function of
    SelectorSpec that says what it computes; None is a thrown LoweringError. */
module InstructionSelector {
  import opened Options
  import opened Words
  import opened IR
  import opened HostLayout
  import opened SelectorSpec
  import A = Arm64

  class InstructionSelector {
    var nextVirtualReg: nat
    var irToVReg: map<ValueId, nat>
    var valueTypes: map<ValueId, Type>

    ghost function State(): SState
      reads this
    {
      SState(nextVirtualReg, irToVReg, valueTypes)
    }

    constructor ()
      ensures State() == INITIAL
    {
      nextVirtualReg := 0;
      irToVReg := map[];
      valueTypes := map[];
    }

    function GetVirtualRegister(id: ValueId): Option<nat>
      reads this
      ensures GetVirtualRegister(id) == Lookup(State(), id)
    {
      if id in irToVReg then Some(irToVReg[id]) else None
    }

    method AssignVirtualRegister(id: ValueId) returns (vreg: nat)
      modifies this
      ensures (State(), vreg) == Assign(old(State()), id)
    {
      var existing := GetVirtualRegister(id);
      if existing.Some? {
        return existing.value;
      }
      vreg := nextVirtualReg;
      nextVirtualReg := nextVirtualReg + 1;
      irToVReg := irToVReg[id := vreg];
    }

    method RecordValueType(id: ValueId, ty: Type)
      modifies this
      ensures State() == Record(old(State()), id, ty)
    {
      valueTypes := valueTypes[id := ty];
    }

    function GetValueType(id: ValueId): Type
      reads this
      ensures GetValueType(id) == ValueType(State(), id)
    {
      if id in valueTypes then valueTypes[id] else I64
    }

    // MOVN, MOV, or MOVZ and MOVK for the non-zero chunks from the bottom up
    method SelectConstIntoRegister(ty: Type, value: int, target: A.Operand) returns (result: seq<A.Instruction>)
      ensures result == ConstInto(ty, value, target)
    {
      var size := SizeOf(ty);
      if -0x1_0000 <= value < 0 {
        return [A.TwoOperand(A.MOVN, size, target, A.Imm(-value - 1))];
      }
      if 0 <= value <= 0xFFFF {
        return [A.TwoOperand(A.MOV, size, target, A.Imm(value))];
      }
      result := [];
      var bits := ToWord(value);
      var firstChunk := true;
      var shift := 0;
      while shift < 64
        invariant 0 <= shift <= 64 && shift % 16 == 0
        invariant result + MoveChunks(bits, size, target, shift, firstChunk) == MoveChunks(bits, size, target, 0, true)
      {
        var chunk := A.Chunk(bits, shift);
        if chunk != 0 {
          var op := if firstChunk then A.MOVZ else A.MOVK;
          var inst := A.MoveWide(op, size, target, chunk, shift);
          AppendFirst(result, inst, MoveChunks(bits, size, target, shift + 16, false));
          result := result + [inst];
          firstChunk := false;
        }
        shift := shift + 16;
      }
      if firstChunk {
        result := result + [A.MoveWide(A.MOVZ, size, target, 0, 0)];
      }
    }

    method SelectConstant(id: ValueId, ty: Type, value: int) returns (result: seq<A.Instruction>)
      modifies this
      ensures State() == Assign(old(State()), id).0
      ensures result == ConstInto(ty, value, A.VReg(Assign(old(State()), id).1))
    {
      hide ConstInto;
      var destReg := AssignVirtualRegister(id);
      result := SelectConstIntoRegister(ty, value, A.VReg(destReg));
    }

    method GenerateAddressTranslation(guestAddrReg: nat) returns (result: seq<A.Instruction>, hostAddrReg: nat)
      modifies this
      ensures (State(), result, hostAddrReg) == Translate(old(State()), guestAddrReg)
    {
      hostAddrReg := nextVirtualReg;
      nextVirtualReg := nextVirtualReg + 1;
      var guestBaseReg := nextVirtualReg;
      nextVirtualReg := nextVirtualReg + 1;
      var shadowBaseReg := nextVirtualReg;
      nextVirtualReg := nextVirtualReg + 1;
      var x0 := A.Phys(A.GUEST_STATE);
      result := [A.MemoryInst(A.LDR, A.X, A.VReg(guestBaseReg), x0, BASE_OFFSET)];
      result := result + [A.MemoryInst(A.LDR, A.X, A.VReg(shadowBaseReg), x0, SHADOW_OFFSET)];
      result := result + [A.ThreeOperand(A.SUB, A.X, A.VReg(hostAddrReg), A.VReg(guestAddrReg), A.VReg(guestBaseReg))];
      result := result + [A.ThreeOperand(A.ADD, A.X, A.VReg(hostAddrReg), A.VReg(hostAddrReg), A.VReg(shadowBaseReg))];
      assert result == LoadBasesCode(hostAddrReg) + ConvertCode(hostAddrReg, guestAddrReg);
    }

    method SelectBinaryOp(id: ValueId, op: BinaryOpcode, ty: Type, lhs: ValueId, rhs: ValueId)
      returns (result: Option<seq<A.Instruction>>)
      modifies this
      ensures Matches(SelectBinary(old(State()), id, op, ty, lhs, rhs), State(), result)
    {
      RecordValueType(id, ty);
      var destReg := AssignVirtualRegister(id);
      var lhsReg := GetVirtualRegister(lhs);
      var rhsReg := GetVirtualRegister(rhs);
      if lhsReg.None? || rhsReg.None? {
        return None;
      }
      var condition := ConditionOf(op);
      if condition.Some? {
        result := Some([A.TwoOperand(A.CMP, A.X, A.VReg(lhsReg.value), A.VReg(rhsReg.value)),
                        A.Conditional(A.CSET, A.X, A.VReg(destReg), condition.value)]);
      } else {
        result :=
          Some([A.ThreeOperand(OpcodeOf(op), SizeOf(ty), A.VReg(destReg), A.VReg(lhsReg.value), A.VReg(rhsReg.value))]);
      }
    }

    method SelectLoadFrom(id: ValueId, ty: Type, addr: ValueId) returns (result: Option<seq<A.Instruction>>)
      modifies this
      ensures Matches(SelectLoad(old(State()), id, ty, addr), State(), result)
    {
      hide Translate;
      RecordValueType(id, ty);
      var destReg := AssignVirtualRegister(id);
      var guestAddrReg := GetVirtualRegister(addr);
      if guestAddrReg.None? {
        return None;
      }
      var translation, hostAddrReg := GenerateAddressTranslation(guestAddrReg.value);
      result := Some(translation + [A.MemoryInst(A.LDR, SizeOf(ty), A.VReg(destReg), A.VReg(hostAddrReg), 0)]);
    }

    method SelectStoreTo(val: ValueId, addr: ValueId) returns (result: Option<seq<A.Instruction>>)
      modifies this
      ensures Matches(SelectStore(old(State()), val, addr), State(), result)
    {
      hide Translate;
      var valueReg := GetVirtualRegister(val);
      var guestAddrReg := GetVirtualRegister(addr);
      if valueReg.None? || guestAddrReg.None? {
        return None;
      }
      var valueType := GetValueType(val);
      var translation, hostAddrReg := GenerateAddressTranslation(guestAddrReg.value);
      result :=
        Some(translation + [A.MemoryInst(A.STR, SizeOf(valueType), A.VReg(valueReg.value), A.VReg(hostAddrReg), 0)]);
    }

    // Sext, Zext and Trunc: one instruction, whose opcode depends on the recorded source type
    method SelectConversion(id: ValueId, kind: InstructionKind) returns (result: Option<seq<A.Instruction>>)
      requires kind.Sext? || kind.Zext? || kind.Trunc?
      modifies this
      ensures Matches(SelectInstruction(old(State()), Inst(id, kind)), State(), result)
    {
      RecordValueType(id, kind.toType);
      var destReg := AssignVirtualRegister(id);
      var srcReg := GetVirtualRegister(kind.operand);
      if srcReg.None? {
        return None;
      }
      var fromType := GetValueType(kind.operand);
      var opcode := if kind.Sext? then SextOpcode(fromType) else if kind.Zext? then ZextOpcode(fromType) else A.MOV;
      result := Some([A.TwoOperand(opcode, SizeOf(kind.toType), A.VReg(destReg), A.VReg(srcReg.value))]);
    }

    method SelectReadRegister(id: ValueId, r: nat) returns (result: seq<A.Instruction>)
      modifies this
      ensures (State(), result) == SelectRegRead(old(State()), id, r)
    {
      RecordValueType(id, I64);
      var destReg := AssignVirtualRegister(id);
      result := [A.MemoryInst(A.LDR, A.X, A.VReg(destReg), A.Phys(A.GUEST_STATE), REGISTER_SIZE_BYTES * r)];
    }

    method SelectOne(inst: Inst) returns (result: Option<seq<A.Instruction>>)
      modifies this
      ensures Matches(SelectInstruction(old(State()), inst), State(), result)
    {
      hide SelectBinary, SelectLoad, SelectStore, SelectRegRead, ConstInto;
      match inst.kind
      case BinaryOp(op, ty, lhs, rhs) => result := SelectBinaryOp(inst.id, op, ty, lhs, rhs);
      case LoadFrom(ty, addr) => result := SelectLoadFrom(inst.id, ty, addr);
      case StoreTo(val, addr) => result := SelectStoreTo(val, addr);
      case Const(ty, value) =>
        RecordValueType(inst.id, ty);
        var code := SelectConstant(inst.id, ty, value);
        result := Some(code);
      case RegRead(r) =>
        var code := SelectReadRegister(inst.id, r);
        result := Some(code);
      case RegWrite(r, val) =>
        var valueReg := GetVirtualRegister(val);
        if valueReg.None? {
          return None;
        }
        result :=
          Some([A.MemoryInst(A.STR, A.X, A.VReg(valueReg.value), A.Phys(A.GUEST_STATE), REGISTER_SIZE_BYTES * r)]);
      case Sext(_, _) => result := SelectConversion(inst.id, inst.kind);
      case Zext(_, _) => result := SelectConversion(inst.id, inst.kind);
      case Trunc(_, _) => result := SelectConversion(inst.id, inst.kind);
    }

    // A branch target under an id taken from the register counter
    method SelectBranchTarget(target: Word) returns (result: seq<A.Instruction>, tempReg: nat)
      modifies this
      ensures (State(), result, tempReg) == SelectTarget(old(State()), target)
    {
      hide ConstInto, Signed;
      var valueId: ValueId := nextVirtualReg;
      nextVirtualReg := nextVirtualReg + 1;
      tempReg := AssignVirtualRegister(valueId);
      result := SelectConstant(valueId, I64, Signed(target));
    }

    method SelectConditional(cond: ValueId, yes: Word, no: Word) returns (result: Option<seq<A.Instruction>>)
      modifies this
      ensures Matches(SelectCondBranch(old(State()), cond, yes, no), State(), result)
    {
      hide SelectTarget;
      var condReg := GetVirtualRegister(cond);
      if condReg.None? {
        return None;
      }
      var code := [A.TwoOperand(A.CMP, A.X, A.VReg(condReg.value), A.Imm(0))];
      var trueInsts, trueTempReg := SelectBranchTarget(yes);
      code := code + trueInsts;
      var falseInsts, falseTempReg := SelectBranchTarget(no);
      code := code + falseInsts;
      var targetReg := nextVirtualReg;
      nextVirtualReg := nextVirtualReg + 1;
      code :=
        code + [A.ConditionalSelect(A.CSEL, A.X, A.VReg(targetReg), A.VReg(trueTempReg), A.VReg(falseTempReg), A.NE)];
      code := code + [A.TwoOperand(A.MOV, A.X, A.Phys(A.GUEST_STATE), A.VReg(targetReg))];
      result := Some(code);
    }

    method SelectTerminatorCode(t: Terminator) returns (result: Option<seq<A.Instruction>>)
      modifies this
      ensures Matches(SelectTerminator(old(State()), t), State(), result)
    {
      hide SelectCondBranch, ConstInto, Signed;
      match t {
        case Branch(target) =>
          var code := SelectConstIntoRegister(I64, Signed(target), A.Phys(A.GUEST_STATE));
          result := Some(code);
        case CondBranch(cond, yes, no) =>
          result := SelectConditional(cond, yes, no);
        case Return(None) =>
          var code := SelectConstIntoRegister(I64, 0, A.Phys(A.GUEST_STATE));
          result := Some(code);
        case Return(Some(id)) =>
          var srcReg := GetVirtualRegister(id);
          if srcReg.None? {
            return None;
          }
          result := Some([A.TwoOperand(A.MOV, A.X, A.Phys(A.GUEST_STATE), A.VReg(srcReg.value))]);
      }
      if result.Some? {
        result := Some(result.value + [RETURN_INST]);
      }
    }

    method SelectInstructions(block: Block) returns (result: Option<seq<A.Instruction>>)
      modifies this
      ensures Matches(SelectBlock(old(State()), block), State(), result)
    {
      hide SelectInstruction, SelectTerminator;
      ghost var start := State();
      var code := [];
      var i := 0;
      while i < |block.insts|
        invariant 0 <= i <= |block.insts|
        invariant SelectAll(start, block.insts[..i]) == Some((State(), code))
      {
        var selected := SelectOne(block.insts[i]);
        assert block.insts[..i + 1] == block.insts[..i] + [block.insts[i]];
        SelectSnoc(start, block.insts[..i], block.insts[i]);
        if selected.None? {
          SelectFails(start, block.insts, i + 1);
          return None;
        }
        code := code + selected.value;
        i := i + 1;
      }
      assert block.insts[..i] == block.insts;
      var exit := SelectTerminatorCode(block.terminator);
      if exit.None? {
        return None;
      }
      result := Some(code + exit.value);
    }
  }

  // The method threw where the function has no value, and otherwise computed it
  ghost predicate Matches(spec: Option<(SState, seq<A.Instruction>)>, state: SState,
                          result: Option<seq<A.Instruction>>) {
    match spec
    case None => result.None?
    case Some((st, code)) => result == Some(code) && state == st
  }

  lemma AppendFirst(a: seq<A.Instruction>, x: A.Instruction, b: seq<A.Instruction>)
    ensures a + ([x] + b) == (a + [x]) + b
  {
  }

  // A thrown error is not caught
  lemma {:induction false} SelectFails(st: SState, insts: seq<Inst>, i: nat)
    requires i <= |insts| && SelectAll(st, insts[..i]).None?
    ensures SelectAll(st, insts).None?
    decreases |insts| - i
  {
    if i < |insts| {
      hide SelectInstruction;
      assert insts[..i + 1][..i] == insts[..i];
      SelectFails(st, insts, i + 1);
    } else {
      assert insts[..i] == insts;
    }
  }
}
