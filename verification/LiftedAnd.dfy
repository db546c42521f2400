/** Lifting commutes with putting AND in the place of XOR. */
module LiftedAnd {
  import opened Words
  import opened Guest
  import opened IR
  import opened LifterSpec
  import opened AndForXor
  import RV = RiscV

  /* ---- Guest code ---- */

  function AndOpcode(op: RV.Opcode): RV.Opcode {
    match op
    case XOR => RV.AND
    case XORI => RV.ANDI
    case _ => op
  }

  function AndGuest(i: RV.Instruction): RV.Instruction {
    RV.Instruction.Instruction(AndOpcode(i.opcode), i.operands, i.address)
  }

  // The block with AND for XOR and ANDI for XORI
  function AllAndGuest(insts: seq<RV.Instruction>): seq<RV.Instruction> {
    seq(|insts|, k requires 0 <= k < |insts| => AndGuest(insts[k]))
  }

  lemma GuestKept(i: RV.Instruction)
    ensures RV.Supported(AndGuest(i)) == RV.Supported(i) &&
            RV.IsTerminator(AndGuest(i).opcode) == RV.IsTerminator(i.opcode)
    ensures RV.IsTerminator(i.opcode) ==> AndGuest(i) == i
  {
  }

  lemma BlockKept(insts: seq<RV.Instruction>)
    ensures RV.AllSupported(AllAndGuest(insts)) <==> RV.AllSupported(insts)
    ensures RV.NoTerminator(AllAndGuest(insts)) <==> RV.NoTerminator(insts)
    ensures RV.TerminatorLast(AllAndGuest(insts)) <==> RV.TerminatorLast(insts)
    ensures RV.EndsInTerminator(AllAndGuest(insts)) == RV.EndsInTerminator(insts)
    ensures RV.Straight(AllAndGuest(insts)) == AllAndGuest(RV.Straight(insts))
    ensures RV.EndsInTerminator(insts) ==> AllAndGuest(insts)[|insts| - 1] == insts[|insts| - 1]
  {
    var all := AllAndGuest(insts);
    hide RV.Supported, RV.IsTerminator, AndGuest;
    forall k | 0 <= k < |insts|
      ensures RV.Supported(all[k]) == RV.Supported(insts[k])
      ensures RV.IsTerminator(all[k].opcode) == RV.IsTerminator(insts[k].opcode)
      ensures RV.IsTerminator(insts[k].opcode) ==> all[k] == insts[k]
    {
      GuestKept(insts[k]);
    }
  }

  /* ---- The lifter's state ---- */

  function AndState(l: LState): LState { l.(code := AndInsts(l.code)) }

  lemma AndInstsSnoc(insts: seq<Inst>, i: Inst)
    ensures AndInsts(insts + [i]) == AndInsts(insts) + [Inst(i.id, AndKind(i.kind))]
  {
    hide AndKind;
  }

  lemma KindKept(types: TypeEnv, k: InstructionKind)
    ensures Typed(types, AndKind(k)) == Typed(types, k) && DefinesValue(AndKind(k)) == DefinesValue(k)
    ensures DefinesValue(k) ==> TypeOf(AndKind(k)) == TypeOf(k)
  {
  }

  lemma {:induction false} TypesKept(insts: seq<Inst>)
    ensures Types(AndInsts(insts)) == Types(insts) && WellTyped(AndInsts(insts)) == WellTyped(insts)
  {
    if insts != [] {
      var n := |insts| - 1;
      hide Typed, AndKind;
      assert AndInsts(insts)[..n] == AndInsts(insts[..n]);
      TypesKept(insts[..n]);
      KindKept(Types(insts[..n]), insts[n].kind);
    }
  }

  lemma StateKept(l: LState)
    requires WellFormed(l)
    ensures WellFormed(AndState(l)) && Types(AndState(l).code) == Types(l.code)
  {
    TypesKept(l.code);
    hide Types, WellTyped, AndKind;
  }

  lemma TypeKept(l: LState, id: ValueId, ty: Type)
    requires WellFormed(l)
    ensures WellFormed(AndState(l)) && HasType(AndState(l), id, ty) == HasType(l, id, ty)
  {
    StateKept(l);
    hide WellFormed, Types;
  }

  lemma AddAnd(l: LState, k: InstructionKind)
    requires WellFormed(l) && Typed(Types(l.code), k)
    ensures WellFormed(AndState(l)) && Typed(Types(AndState(l).code), AndKind(k))
    ensures AddInst(AndState(l), AndKind(k)) == (AndState(AddInst(l, k).0), AddInst(l, k).1)
  {
    StateKept(l);
    KindKept(Types(l.code), k);
    AndInstsSnoc(l.code, Inst(l.next, k));
    hide WellFormed, Types, Typed, AndKind, AndInsts;
  }

  // The same for what AND does not replace
  lemma AddSame(l: LState, k: InstructionKind)
    requires WellFormed(l) && Typed(Types(l.code), k) && !(k.BinaryOp? && k.op.Xor?)
    ensures WellFormed(AndState(l)) && Typed(Types(AndState(l).code), k)
    ensures AddInst(AndState(l), k) == (AndState(AddInst(l, k).0), AddInst(l, k).1)
  {
    hide WellFormed, Types, Typed, AddInst, AndState;
    AddAnd(l, k);
  }

  lemma GetAnd(l: LState, r: RegNum)
    requires WellFormed(l)
    ensures WellFormed(AndState(l)) && GetReg(AndState(l), r) == (AndState(GetReg(l, r).0), GetReg(l, r).1)
  {
    StateKept(l);
    if r == 0 { AddSame(l, Const(I64, 0)); }
    else if r !in l.cache { AddSame(l, RegRead(r)); }
    hide WellFormed, Types, AddInst, AndInsts;
  }

  lemma SetAnd(l: LState, r: RegNum, id: ValueId)
    requires WellFormed(l) && HasType(l, id, I64)
    ensures WellFormed(AndState(l)) && HasType(AndState(l), id, I64) &&
            SetReg(AndState(l), r, id) == AndState(SetReg(l, r, id))
  {
    StateKept(l);
    hide WellFormed, Types, AndInsts;
  }

  /* ---- Patterns ---- */

  lemma RAnd(l: LState, rd: RegNum, rs1: RegNum, rs2: RegNum, op: BinaryOpcode)
    requires WellFormed(l)
    ensures WellFormed(AndState(l)) &&
            LiftR(AndState(l), rd, rs1, rs2, AndOp(op)) == AndState(LiftR(l, rd, rs1, rs2, op))
  {
    hide AddInst, GetReg, SetReg, WellFormed, Types, AndState, AndOp;
    var (l1, a) := GetReg(l, rs1);
    var (l2, b) := GetReg(l1, rs2);
    var (l3, c) := AddInst(l2, BinaryOp(op, I64, a, b));
    GetAnd(l, rs1);
    GetAnd(l1, rs2);
    AddAnd(l2, BinaryOp(op, I64, a, b));
    SetAnd(l3, rd, c);
  }

  lemma IAnd(l: LState, rd: RegNum, rs1: RegNum, imm: int, op: BinaryOpcode)
    requires WellFormed(l) && -0x800 <= imm < 0x800
    ensures WellFormed(AndState(l)) &&
            LiftI(AndState(l), rd, rs1, imm, AndOp(op)) == AndState(LiftI(l, rd, rs1, imm, op))
  {
    hide AddInst, GetReg, SetReg, WellFormed, Types, AndState, AndOp;
    var (l1, a) := GetReg(l, rs1);
    var (l2, b) := AddInst(l1, Const(I64, imm));
    var (l3, c) := AddInst(l2, BinaryOp(op, I64, a, b));
    GetAnd(l, rs1);
    AddSame(l1, Const(I64, imm));
    AddAnd(l2, BinaryOp(op, I64, a, b));
    SetAnd(l3, rd, c);
  }

  lemma WordEndAnd(l: LState, rd: RegNum, a32: ValueId, b32: ValueId, op: BinaryOpcode)
    requires WellFormed(l) && Has32(op) && HasType(l, a32, I32) && HasType(l, b32, I32)
    ensures WellFormed(AndState(l)) && HasType(AndState(l), a32, I32) && HasType(AndState(l), b32, I32)
    ensures WordEnd(AndState(l), rd, a32, b32, op) == AndState(WordEnd(l, rd, a32, b32, op))
  {
    hide AddInst, SetReg, WellFormed, Types, AndState;
    TypeKept(l, a32, I32);
    TypeKept(l, b32, I32);
    var (l1, c32) := AddInst(l, BinaryOp(op, I32, a32, b32));
    var (l2, c) := AddInst(l1, Sext(I64, c32));
    AddSame(l, BinaryOp(op, I32, a32, b32));
    AddSame(l1, Sext(I64, c32));
    SetAnd(l2, rd, c);
  }

  lemma WAnd(l: LState, rd: RegNum, rs1: RegNum, rs2: RegNum, op: BinaryOpcode)
    requires WellFormed(l) && Has32(op)
    ensures WellFormed(AndState(l)) && LiftW(AndState(l), rd, rs1, rs2, op) == AndState(LiftW(l, rd, rs1, rs2, op))
  {
    hide AddInst, GetReg, WordEnd, WellFormed, Types, AndState;
    var (l1, a) := GetReg(l, rs1);
    var (l2, b) := GetReg(l1, rs2);
    var (l3, a32) := AddInst(l2, Trunc(I32, a));
    var (l4, b32) := AddInst(l3, Trunc(I32, b));
    GetAnd(l, rs1);
    GetAnd(l1, rs2);
    AddSame(l2, Trunc(I32, a));
    AddSame(l3, Trunc(I32, b));
    WordEndAnd(l4, rd, a32, b32, op);
  }

  lemma WImmAnd(l: LState, rd: RegNum, rs1: RegNum, imm: int, op: BinaryOpcode)
    requires WellFormed(l) && -0x800 <= imm < 0x800 && Has32(op)
    ensures WellFormed(AndState(l)) &&
            LiftWImm(AndState(l), rd, rs1, imm, op) == AndState(LiftWImm(l, rd, rs1, imm, op))
  {
    hide AddInst, GetReg, WordEnd, WellFormed, Types, AndState;
    var (l1, a) := GetReg(l, rs1);
    var (l2, b32) := AddInst(l1, Const(I32, imm));
    var (l3, a32) := AddInst(l2, Trunc(I32, a));
    GetAnd(l, rs1);
    AddSame(l1, Const(I32, imm));
    AddSame(l2, Trunc(I32, a));
    WordEndAnd(l3, rd, a32, b32, op);
  }

  lemma LoadAnd(l: LState, rd: RegNum, rs1: RegNum, imm: int, ty: Type, signed: bool)
    requires WellFormed(l) && -0x800 <= imm < 0x800
    requires ty.I8? || ty.I16? || ty.I32? || ty.I64?
    requires !signed ==> ty.I32? || ty.I64?
    ensures WellFormed(AndState(l)) &&
            LiftLoad(AndState(l), rd, rs1, imm, ty, signed) == AndState(LiftLoad(l, rd, rs1, imm, ty, signed))
  {
    hide AddInst, GetReg, SetReg, WellFormed, Types, AndState;
    var (l1, a) := GetReg(l, rs1);
    var (l2, b) := AddInst(l1, Const(I64, imm));
    var (l3, addr) := AddInst(l2, BinaryOp(Plus, I64, a, b));
    var (l4, v) := AddInst(l3, LoadFrom(ty, addr));
    GetAnd(l, rs1);
    AddSame(l1, Const(I64, imm));
    AddSame(l2, BinaryOp(Plus, I64, a, b));
    AddSame(l3, LoadFrom(ty, addr));
    if ty.I64? {
      SetAnd(l4, rd, v);
    } else {
      var k := if signed then Sext(I64, v) else Zext(I64, v);
      AddSame(l4, k);
      SetAnd(AddInst(l4, k).0, rd, AddInst(l4, k).1);
    }
  }

  lemma StoreAnd(l: LState, rs1: RegNum, rs2: RegNum, imm: int, ty: Type)
    requires WellFormed(l) && -0x800 <= imm < 0x800 && (ty.I32? || ty.I64?)
    ensures WellFormed(AndState(l)) &&
            LiftStore(AndState(l), rs1, rs2, imm, ty) == AndState(LiftStore(l, rs1, rs2, imm, ty))
  {
    hide AddInst, GetReg, SetReg, WellFormed, Types, AndState;
    var (l1, a) := GetReg(l, rs1);
    var (l2, v) := GetReg(l1, rs2);
    var (l3, b) := AddInst(l2, Const(I64, imm));
    var (l4, addr) := AddInst(l3, BinaryOp(Plus, I64, a, b));
    GetAnd(l, rs1);
    GetAnd(l1, rs2);
    AddSame(l2, Const(I64, imm));
    AddSame(l3, BinaryOp(Plus, I64, a, b));
    if ty.I64? {
      AddSame(l4, StoreTo(v, addr));
    } else {
      var (l5, w) := AddInst(l4, Trunc(ty, v));
      AddSame(l4, Trunc(ty, v));
      AddSame(l5, StoreTo(w, addr));
    }
  }

  lemma UpperAnd(l: LState, rd: RegNum, imm: int, pc: Word)
    requires WellFormed(l) && -0x8000_0000 <= imm < 0x8000_0000
    ensures WellFormed(AndState(l)) && LiftLui(AndState(l), rd, imm) == AndState(LiftLui(l, rd, imm))
    ensures LiftAuipc(AndState(l), rd, imm, pc) == AndState(LiftAuipc(l, rd, imm, pc))
  {
    hide AddInst, GetReg, SetReg, WellFormed, Types, AndState;
    var upper := Const(I64, imm * 0x1000);
    AddSame(l, upper);
    SetAnd(AddInst(l, upper).0, rd, AddInst(l, upper).1);
    var (l1, a) := AddInst(l, Const(I64, Signed(pc)));
    var (l2, b) := AddInst(l1, upper);
    var (l3, c) := AddInst(l2, BinaryOp(Plus, I64, a, b));
    AddSame(l, Const(I64, Signed(pc)));
    AddSame(l1, upper);
    AddSame(l2, BinaryOp(Plus, I64, a, b));
    SetAnd(l3, rd, c);
  }

  lemma OperationOfAnd(op: RV.Opcode)
    requires RV.IsRType(op) || RV.IsIType(op)
    ensures RV.IsRType(AndOpcode(op)) == RV.IsRType(op) && RV.IsIType(AndOpcode(op)) == RV.IsIType(op)
    ensures BinaryOf(AndOpcode(op)) == AndOp(BinaryOf(op)) && IsWord(AndOpcode(op)) == IsWord(op)
    ensures AndOpcode(op).ADDW? == op.ADDW?
  {
  }

  lemma SingleAnd(l: LState, i: RV.Instruction)
    requires WellFormed(l) && RV.Supported(i) && !RV.IsTerminator(i.opcode)
    ensures WellFormed(AndState(l)) && RV.Supported(AndGuest(i)) && !RV.IsTerminator(AndGuest(i).opcode)
    ensures LiftSingle(AndState(l), AndGuest(i)) == AndState(LiftSingle(l, i))
  {
    hide LiftR, LiftI, LiftW, LiftWImm, LiftLoad, LiftStore, LiftLui, LiftAuipc, WellFormed, AndState, Types;
    GuestKept(i);
    StateKept(l);
    if RV.IsRType(i.opcode) || RV.IsIType(i.opcode) {
      OperationOfAnd(i.opcode);
      if i.opcode.ADDW? {
        WAnd(l, i.GetRegister(0), i.GetRegister(1), i.GetRegister(2), Plus);
      } else if RV.IsRType(i.opcode) {
        RAnd(l, i.GetRegister(0), i.GetRegister(1), i.GetRegister(2), BinaryOf(i.opcode));
      } else if IsWord(i.opcode) {
        WImmAnd(l, i.GetRegister(0), i.GetRegister(1), i.GetImmediate(2), BinaryOf(i.opcode));
      } else {
        IAnd(l, i.GetRegister(0), i.GetRegister(1), i.GetImmediate(2), BinaryOf(i.opcode));
      }
    } else if RV.IsLoad(i.opcode) {
      LoadAnd(l, i.GetRegister(0), i.GetRegister(1), i.GetImmediate(2),
        AccessType(i.opcode), !i.opcode.LWU? && !i.opcode.LD?);
    } else if RV.IsStore(i.opcode) {
      StoreAnd(l, i.GetRegister(0), i.GetRegister(1), i.GetImmediate(2), AccessType(i.opcode));
    } else {
      UpperAnd(l, i.GetRegister(0), i.GetImmediate(1), i.address);
    }
  }

  lemma {:induction false} AllAnd(next: ValueId, insts: seq<RV.Instruction>)
    requires RV.AllSupported(insts) && RV.NoTerminator(insts)
    ensures RV.AllSupported(AllAndGuest(insts)) && RV.NoTerminator(AllAndGuest(insts))
    ensures LiftAll(Start(next), AllAndGuest(insts)) == AndState(LiftAll(Start(next), insts))
  {
    hide LiftSingle, WellFormed, RV.Supported, AndGuest, AndState;
    StartWellFormed(next);
    BlockKept(insts);
    if insts == [] {
      StartAnd(next);
    } else {
      var n := |insts| - 1;
      assert AllAndGuest(insts)[..n] == AllAndGuest(insts[..n]);
      AllAnd(next, insts[..n]);
      SingleAnd(LiftAll(Start(next), insts[..n]), insts[n]);
    }
  }

  lemma StartAnd(next: ValueId)
    ensures AndState(Start(next)) == Start(next)
  {
  }

  /* ---- The end of the block ---- */

  lemma {:induction false} WriteBackAnd(l: LState, order: seq<nat>)
    requires WellFormed(l) && forall r :: r in order ==> r in l.cache
    ensures WellFormed(AndState(l)) && (forall r :: r in order ==> r in AndState(l).cache)
    ensures WriteBack(AndState(l), order) == AndState(WriteBack(l, order))
  {
    StateKept(l);
    hide AddInst, WellFormed, Types, Keeps, AndInsts;
    if order != [] {
      var n := |order| - 1;
      WriteBackAnd(l, order[..n]);
      var l1 := WriteBack(l, order[..n]);
      CachedTyped(l1, order[n]);
      AddSame(l1, RegWrite(order[n], l1.cache[order[n]]));
    }
  }

  lemma BranchAnd(l: LState, op: BinaryOpcode, rs1: RegNum, rs2: RegNum, yes: Word, no: Word)
    requires WellFormed(l) && IsComparison(op)
    ensures WellFormed(AndState(l))
    ensures
      var (l', t) := LiftBranch(l, op, rs1, rs2, yes, no);
      LiftBranch(AndState(l), op, rs1, rs2, yes, no) == (AndState(l'), t)
  {
    hide AddInst, GetReg, SetReg, WellFormed, Types, AndState;
    var (l1, a) := GetReg(l, rs1);
    var (l2, b) := GetReg(l1, rs2);
    GetAnd(l, rs1);
    GetAnd(l1, rs2);
    AddSame(l2, BinaryOp(op, I1, a, b));
  }

  lemma LinkAnd(l: LState, rd: RegNum, ra: Word)
    requires WellFormed(l)
    ensures WellFormed(AndState(l)) && LinkTo(AndState(l), rd, ra) == AndState(LinkTo(l, rd, ra))
  {
    hide AddInst, SetReg, WellFormed, Types, AndState, Keeps;
    AddSame(l, Const(I64, Signed(ra)));
    var (l1, v) := AddInst(l, Const(I64, Signed(ra)));
    SetAnd(l1, rd, v);
  }

  lemma JalrAnd(l: LState, rs1: RegNum, imm: int)
    requires WellFormed(l) && -0x800 <= imm < 0x800
    ensures WellFormed(AndState(l))
    ensures var (l', id) := LiftJalr(l, rs1, imm); LiftJalr(AndState(l), rs1, imm) == (AndState(l'), id)
  {
    hide AddInst, GetReg, SetReg, WellFormed, Types, AndState;
    var (l1, a) := GetReg(l, rs1);
    var (l2, b) := AddInst(l1, Const(I64, imm));
    var (l3, t) := AddInst(l2, BinaryOp(Plus, I64, a, b));
    var (l4, mask) := AddInst(l3, Const(I64, -2));
    GetAnd(l, rs1);
    AddSame(l1, Const(I64, imm));
    AddSame(l2, BinaryOp(Plus, I64, a, b));
    AddSame(l3, Const(I64, -2));
    AddSame(l4, BinaryOp(And, I64, t, mask));
  }

  lemma TerminatorAnd(l: LState, i: RV.Instruction, fallThrough: Word)
    requires WellFormed(l) && RV.Supported(i) && RV.IsTerminator(i.opcode)
    ensures WellFormed(AndState(l))
    ensures
      var (l', t) := LiftTerminator(l, i, fallThrough);
      LiftTerminator(AndState(l), i, fallThrough) == (AndState(l'), t)
  {
    hide LiftBranch, LinkTo, LiftJalr, WellFormed, Add, ToWord, Types, AndState;
    StateKept(l);
    if RV.IsBranch(i.opcode) {
      BranchAnd(l, CompareOf(i.opcode), i.GetRegister(0), i.GetRegister(1),
        Add(i.address, ToWord(i.GetImmediate(2))), fallThrough);
    } else if i.opcode.JAL? {
      LinkAnd(l, i.GetRegister(0), Add(i.address, 4));
    } else if !RV.IsRet(i) {
      JalrAnd(l, i.GetRegister(1), i.GetImmediate(2));
      LinkAnd(LiftJalr(l, i.GetRegister(1), i.GetImmediate(2)).0, i.GetRegister(0), Add(i.address, 4));
    }
  }

  /** Lifting the block with AND for XOR is putting AND for XOR in the lifted block. */
  lemma LiftedWithAnd(next: ValueId, insts: seq<RV.Instruction>, order: seq<nat>)
    requires RV.IsBlock(insts) && IsOrder(order, LiftAll(Start(next), RV.Straight(insts)).modified)
    ensures RV.IsBlock(AllAndGuest(insts)) &&
            IsOrder(order, LiftAll(Start(next), RV.Straight(AllAndGuest(insts))).modified)
    ensures LiftedBlock(next, AllAndGuest(insts), order) == AndBlock(LiftedBlock(next, insts, order))
  {
    hide LiftAll, WriteBack, LiftTerminator, WellFormed, Types, RV.Straight, AndInsts, AndGuest, RV.AllSupported,
      RV.TerminatorLast, RV.NoTerminator;
    BlockKept(insts);
    var straight := RV.Straight(insts);
    StraightKept(insts);
    StartWellFormed(next);
    AllAnd(next, straight);
    var l := LiftAll(Start(next), straight);
    OrderInCache(l, order);
    WriteBackAnd(l, order);
    if RV.EndsInTerminator(insts) {
      LastSupported(insts);
      TerminatorAnd(Lifted(next, insts, order), insts[|insts| - 1], Add(insts[|insts| - 1].address, 4));
    } else if insts != [] {
      assert AllAndGuest(insts)[|insts| - 1].address == insts[|insts| - 1].address by {
        AddressKept(insts[|insts| - 1]);
      }
    }
  }

  lemma StraightKept(insts: seq<RV.Instruction>)
    requires RV.IsBlock(insts)
    ensures RV.AllSupported(RV.Straight(insts)) && RV.NoTerminator(RV.Straight(insts))
  {
  }

  lemma OrderInCache(l: LState, order: seq<nat>)
    requires WellFormed(l) && IsOrder(order, l.modified)
    ensures forall r :: r in order ==> r in l.cache
  {
    hide Types, WellTyped;
  }

  lemma LastSupported(insts: seq<RV.Instruction>)
    requires RV.AllSupported(insts) && insts != []
    ensures RV.Supported(insts[|insts| - 1])
  {
    hide RV.Supported;
  }

  lemma AddressKept(i: RV.Instruction)
    ensures AndGuest(i).address == i.address
  {
  }
}
