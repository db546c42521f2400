/** Lifted code counted: value ids are consecutive, and each guest load, store and modified
    register adds one IR access or write. */
module BlockTally {
  import opened Words
  import opened Guest
  import opened IR
  import opened LifterSpec
  import opened SelectorSpec
  import opened SelectorTotal
  import RV = RiscV

  /* ---- Counting ---- */

  // Memory accesses, register writes, and the operations whose ARM64 encoding is wrong
  datatype Tally = Tally(loads: nat, stores: nat, writes: nat, xors: nat, shifts: nat)

  function CountOp(t: Tally, op: BinaryOpcode): Tally {
    if op.Xor? then t.(xors := t.xors + 1) else if op.Shr? then t.(shifts := t.shifts + 1) else t
  }

  function Count(t: Tally, k: InstructionKind): Tally {
    match k
    case BinaryOp(op, _, _, _) => CountOp(t, op)
    case LoadFrom(_, _) => t.(loads := t.loads + 1)
    case StoreTo(_, _) => t.(stores := t.stores + 1)
    case RegWrite(_, _) => t.(writes := t.writes + 1)
    case _ => t
  }

  // The tally of IR code
  function TallyOf(insts: seq<Inst>): Tally {
    if insts == [] then Tally(0, 0, 0, 0, 0) else Count(TallyOf(insts[..|insts| - 1]), insts[|insts| - 1].kind)
  }

  lemma TallySnoc(insts: seq<Inst>, i: Inst)
    ensures TallyOf(insts + [i]) == Count(TallyOf(insts), i.kind)
  {
    assert (insts + [i])[..|insts|] == insts;
  }

  // Registers handed out for one instruction
  function Taken(k: InstructionKind): nat {
    (if DefinesValue(k) then 1 else 0) + (if k.LoadFrom? || k.StoreTo? then 3 else 0)
  }

  lemma InstructionTakes(st: SState, i: Inst)
    requires i.id !in st.vregs && SelectInstruction(st, i).Some?
    ensures SelectInstruction(st, i).value.0.next == st.next + Taken(i.kind)
  {
    hide ConstInto, LoadBasesCode, ConvertCode, SizeOf, OpcodeOf, SextOpcode, ZextOpcode, ConditionOf;
  }

  lemma CountTakes(t: Tally, k: InstructionKind)
    ensures
      var t' := Count(t, k);
      Taken(k) == 1 - (t'.stores - t.stores) - (t'.writes - t.writes) + 3 * (t'.loads - t.loads + t'.stores - t.stores)
  {
  }

  // The register counter after well-typed code: one per value, three more per memory access
  lemma {:induction false} Counter(insts: seq<Inst>)
    requires WellTyped(insts) && Ordered(insts)
    ensures SelectAll(INITIAL, insts).Some?
    ensures
      var t := TallyOf(insts);
      SelectAll(INITIAL, insts).value.0.next == |insts| - t.stores - t.writes + 3 * (t.loads + t.stores)
  {
    hide SelectInstruction, AllClean, Typed, Types, Count, Taken;
    AllTotal(insts);
    if insts != [] {
      var n := |insts| - 1;
      Counter(insts[..n]);
      AllTotal(insts[..n]);
      NewId(insts);
      CountTakes(TallyOf(insts[..n]), insts[n].kind);
      InstructionTakes(SelectAll(INITIAL, insts[..n]).value.0, insts[n]);
    }
  }

  /* ---- The lifter numbers values consecutively ---- */

  ghost predicate Dense(first: nat, l: LState, t: Tally) {
    l.next == first + |l.code| && (forall k :: 0 <= k < |l.code| ==> l.code[k].id == first + k) && TallyOf(l.code) == t
  }

  lemma AddDense(first: nat, l: LState, t: Tally, k: InstructionKind)
    requires WellFormed(l) && Typed(Types(l.code), k) && Dense(first, l, t)
    ensures Dense(first, AddInst(l, k).0, Count(t, k))
  {
    TallySnoc(l.code, Inst(l.next, k));
    hide WellFormed, TallyOf, Types, Typed, Count;
  }

  lemma GetDense(first: nat, l: LState, t: Tally, r: RegNum)
    requires WellFormed(l) && Dense(first, l, t)
    ensures Dense(first, GetReg(l, r).0, t)
  {
    if r == 0 { AddDense(first, l, t, Const(I64, 0)); }
    else if r !in l.cache { AddDense(first, l, t, RegRead(r)); }
    hide WellFormed, TallyOf, Types, AddInst;
  }

  lemma SetDense(first: nat, l: LState, t: Tally, r: RegNum, id: ValueId)
    requires WellFormed(l) && HasType(l, id, I64) && Dense(first, l, t)
    ensures Dense(first, SetReg(l, r, id), t)
  {
    hide WellFormed, TallyOf, Types;
  }

  lemma RDense(first: nat, l: LState, t: Tally, rd: RegNum, rs1: RegNum, rs2: RegNum, op: BinaryOpcode)
    requires WellFormed(l) && Dense(first, l, t)
    ensures Dense(first, LiftR(l, rd, rs1, rs2, op), CountOp(t, op))
  {
    hide AddInst, GetReg, SetReg, WellFormed, Types, Dense;
    var (l1, a) := GetReg(l, rs1);
    var (l2, b) := GetReg(l1, rs2);
    var (l3, c) := AddInst(l2, BinaryOp(op, I64, a, b));
    GetDense(first, l, t, rs1);
    GetDense(first, l1, t, rs2);
    AddDense(first, l2, t, BinaryOp(op, I64, a, b));
    SetDense(first, l3, CountOp(t, op), rd, c);
  }

  lemma IDense(first: nat, l: LState, t: Tally, rd: RegNum, rs1: RegNum, imm: int, op: BinaryOpcode)
    requires WellFormed(l) && -0x800 <= imm < 0x800 && Dense(first, l, t)
    ensures Dense(first, LiftI(l, rd, rs1, imm, op), CountOp(t, op))
  {
    hide AddInst, GetReg, SetReg, WellFormed, Types, Dense;
    var (l1, a) := GetReg(l, rs1);
    var (l2, b) := AddInst(l1, Const(I64, imm));
    var (l3, c) := AddInst(l2, BinaryOp(op, I64, a, b));
    GetDense(first, l, t, rs1);
    AddDense(first, l1, t, Const(I64, imm));
    AddDense(first, l2, t, BinaryOp(op, I64, a, b));
    SetDense(first, l3, CountOp(t, op), rd, c);
  }

  lemma WordEndDense(first: nat, l: LState, t: Tally, rd: RegNum, a32: ValueId, b32: ValueId, op: BinaryOpcode)
    requires WellFormed(l) && Has32(op) && HasType(l, a32, I32) && HasType(l, b32, I32) && Dense(first, l, t)
    ensures Dense(first, WordEnd(l, rd, a32, b32, op), t)
  {
    hide AddInst, SetReg, WellFormed, Types, Dense;
    var (l1, c32) := AddInst(l, BinaryOp(op, I32, a32, b32));
    var (l2, c) := AddInst(l1, Sext(I64, c32));
    AddDense(first, l, t, BinaryOp(op, I32, a32, b32));
    AddDense(first, l1, t, Sext(I64, c32));
    SetDense(first, l2, t, rd, c);
  }

  lemma WDense(first: nat, l: LState, t: Tally, rd: RegNum, rs1: RegNum, rs2: RegNum, op: BinaryOpcode)
    requires WellFormed(l) && Has32(op) && Dense(first, l, t)
    ensures Dense(first, LiftW(l, rd, rs1, rs2, op), t)
  {
    hide AddInst, GetReg, WordEnd, WellFormed, Types, Dense;
    var (l1, a) := GetReg(l, rs1);
    var (l2, b) := GetReg(l1, rs2);
    var (l3, a32) := AddInst(l2, Trunc(I32, a));
    var (l4, b32) := AddInst(l3, Trunc(I32, b));
    GetDense(first, l, t, rs1);
    GetDense(first, l1, t, rs2);
    AddDense(first, l2, t, Trunc(I32, a));
    AddDense(first, l3, t, Trunc(I32, b));
    WordEndDense(first, l4, t, rd, a32, b32, op);
  }

  lemma WImmDense(first: nat, l: LState, t: Tally, rd: RegNum, rs1: RegNum, imm: int, op: BinaryOpcode)
    requires WellFormed(l) && -0x800 <= imm < 0x800 && Has32(op) && Dense(first, l, t)
    ensures Dense(first, LiftWImm(l, rd, rs1, imm, op), t)
  {
    hide AddInst, GetReg, WordEnd, WellFormed, Types, Dense;
    var (l1, a) := GetReg(l, rs1);
    var (l2, b32) := AddInst(l1, Const(I32, imm));
    var (l3, a32) := AddInst(l2, Trunc(I32, a));
    GetDense(first, l, t, rs1);
    AddDense(first, l1, t, Const(I32, imm));
    AddDense(first, l2, t, Trunc(I32, a));
    WordEndDense(first, l3, t, rd, a32, b32, op);
  }

  lemma LoadDense(first: nat, l: LState, t: Tally, rd: RegNum, rs1: RegNum, imm: int, ty: Type, signed: bool)
    requires WellFormed(l) && -0x800 <= imm < 0x800 && Dense(first, l, t)
    requires ty.I8? || ty.I16? || ty.I32? || ty.I64?
    requires !signed ==> ty.I32? || ty.I64?
    ensures Dense(first, LiftLoad(l, rd, rs1, imm, ty, signed), t.(loads := t.loads + 1))
  {
    hide AddInst, GetReg, SetReg, WellFormed, Types, Dense;
    var (l1, a) := GetReg(l, rs1);
    var (l2, b) := AddInst(l1, Const(I64, imm));
    var (l3, addr) := AddInst(l2, BinaryOp(Plus, I64, a, b));
    var (l4, v) := AddInst(l3, LoadFrom(ty, addr));
    GetDense(first, l, t, rs1);
    AddDense(first, l1, t, Const(I64, imm));
    AddDense(first, l2, t, BinaryOp(Plus, I64, a, b));
    AddDense(first, l3, t, LoadFrom(ty, addr));
    var t' := t.(loads := t.loads + 1);
    if ty.I64? {
      SetDense(first, l4, t', rd, v);
    } else {
      var k := if signed then Sext(I64, v) else Zext(I64, v);
      AddDense(first, l4, t', k);
      SetDense(first, AddInst(l4, k).0, t', rd, AddInst(l4, k).1);
    }
  }

  lemma StoreDense(first: nat, l: LState, t: Tally, rs1: RegNum, rs2: RegNum, imm: int, ty: Type)
    requires WellFormed(l) && -0x800 <= imm < 0x800 && (ty.I32? || ty.I64?) && Dense(first, l, t)
    ensures Dense(first, LiftStore(l, rs1, rs2, imm, ty), t.(stores := t.stores + 1))
  {
    hide AddInst, GetReg, SetReg, WellFormed, Types, Dense;
    var (l1, a) := GetReg(l, rs1);
    var (l2, v) := GetReg(l1, rs2);
    var (l3, b) := AddInst(l2, Const(I64, imm));
    var (l4, addr) := AddInst(l3, BinaryOp(Plus, I64, a, b));
    GetDense(first, l, t, rs1);
    GetDense(first, l1, t, rs2);
    AddDense(first, l2, t, Const(I64, imm));
    AddDense(first, l3, t, BinaryOp(Plus, I64, a, b));
    if ty.I64? {
      AddDense(first, l4, t, StoreTo(v, addr));
    } else {
      var (l5, w) := AddInst(l4, Trunc(ty, v));
      AddDense(first, l4, t, Trunc(ty, v));
      AddDense(first, l5, t, StoreTo(w, addr));
    }
  }

  lemma UpperDense(first: nat, l: LState, t: Tally, rd: RegNum, imm: int, pc: Word)
    requires WellFormed(l) && -0x8000_0000 <= imm < 0x8000_0000 && Dense(first, l, t)
    ensures Dense(first, LiftLui(l, rd, imm), t) && Dense(first, LiftAuipc(l, rd, imm, pc), t)
  {
    hide AddInst, GetReg, SetReg, WellFormed, Types, Dense;
    var upper := Const(I64, imm * 0x1000);
    AddDense(first, l, t, upper);
    SetDense(first, AddInst(l, upper).0, t, rd, AddInst(l, upper).1);
    var (l1, a) := AddInst(l, Const(I64, Signed(pc)));
    var (l2, b) := AddInst(l1, upper);
    var (l3, c) := AddInst(l2, BinaryOp(Plus, I64, a, b));
    AddDense(first, l, t, Const(I64, Signed(pc)));
    AddDense(first, l1, t, upper);
    AddDense(first, l2, t, BinaryOp(Plus, I64, a, b));
    SetDense(first, l3, t, rd, c);
  }

  // What a guest instruction adds
  function CountGuest(t: Tally, op: RV.Opcode): Tally {
    if RV.IsLoad(op) then t.(loads := t.loads + 1)
    else if RV.IsStore(op) then t.(stores := t.stores + 1)
    else if op.XOR? || op.XORI? then t.(xors := t.xors + 1)
    else if op.SRL? || op.SRLI? then t.(shifts := t.shifts + 1)
    else t
  }

  lemma SingleDense(first: nat, l: LState, t: Tally, i: RV.Instruction)
    requires WellFormed(l) && RV.Supported(i) && !RV.IsTerminator(i.opcode) && Dense(first, l, t)
    ensures Dense(first, LiftSingle(l, i), CountGuest(t, i.opcode))
  {
    hide LiftR, LiftI, LiftW, LiftWImm, LiftLoad, LiftStore, LiftLui, LiftAuipc, WellFormed, Dense;
    if i.opcode.ADDW? {
      WDense(first, l, t, i.GetRegister(0), i.GetRegister(1), i.GetRegister(2), Plus);
    } else if RV.IsRType(i.opcode) {
      RDense(first, l, t, i.GetRegister(0), i.GetRegister(1), i.GetRegister(2), BinaryOf(i.opcode));
    } else if IsWord(i.opcode) {
      WImmDense(first, l, t, i.GetRegister(0), i.GetRegister(1), i.GetImmediate(2), BinaryOf(i.opcode));
    } else if RV.IsIType(i.opcode) {
      IDense(first, l, t, i.GetRegister(0), i.GetRegister(1), i.GetImmediate(2), BinaryOf(i.opcode));
    } else if RV.IsLoad(i.opcode) {
      LoadDense(first, l, t, i.GetRegister(0), i.GetRegister(1), i.GetImmediate(2),
        AccessType(i.opcode), !i.opcode.LWU? && !i.opcode.LD?);
    } else if RV.IsStore(i.opcode) {
      StoreDense(first, l, t, i.GetRegister(0), i.GetRegister(1), i.GetImmediate(2), AccessType(i.opcode));
    } else {
      UpperDense(first, l, t, i.GetRegister(0), i.GetImmediate(1), i.address);
    }
  }

  // The loads, stores, XORs and logical right shifts among guest instructions
  function GuestTally(insts: seq<RV.Instruction>): Tally {
    if insts == [] then Tally(0, 0, 0, 0, 0)
    else CountGuest(GuestTally(insts[..|insts| - 1]), insts[|insts| - 1].opcode)
  }

  lemma StartDense(first: nat)
    ensures Dense(first, Start(first), Tally(0, 0, 0, 0, 0))
  {
  }

  lemma {:induction false} AllDense(first: nat, insts: seq<RV.Instruction>)
    requires RV.AllSupported(insts) && RV.NoTerminator(insts)
    ensures Dense(first, LiftAll(Start(first), insts), GuestTally(insts))
  {
    hide LiftSingle, WellFormed, Dense, RV.Supported, CountGuest, Types;
    StartWellFormed(first);
    StartDense(first);
    if insts != [] {
      var n := |insts| - 1;
      AllDense(first, insts[..n]);
      SingleDense(first, LiftAll(Start(first), insts[..n]), GuestTally(insts[..n]), insts[n]);
    }
  }

  lemma {:induction false} WriteBackDense(first: nat, l: LState, t: Tally, order: seq<nat>)
    requires WellFormed(l) && (forall r :: r in order ==> r in l.cache) && Dense(first, l, t)
    ensures Dense(first, WriteBack(l, order), t.(writes := t.writes + |order|))
  {
    hide AddInst, WellFormed, Types, Dense, Keeps;
    if order != [] {
      var n := |order| - 1;
      WriteBackDense(first, l, t, order[..n]);
      var l1 := WriteBack(l, order[..n]);
      CachedTyped(l1, order[n]);
      AddDense(first, l1, t.(writes := t.writes + n), RegWrite(order[n], l1.cache[order[n]]));
    }
  }

  lemma BranchDense(first: nat, l: LState, t: Tally, op: BinaryOpcode, rs1: RegNum, rs2: RegNum, yes: Word, no: Word)
    requires WellFormed(l) && IsComparison(op) && Dense(first, l, t)
    ensures Dense(first, LiftBranch(l, op, rs1, rs2, yes, no).0, t)
  {
    hide AddInst, GetReg, SetReg, WellFormed, Types, Dense;
    var (l1, a) := GetReg(l, rs1);
    var (l2, b) := GetReg(l1, rs2);
    GetDense(first, l, t, rs1);
    GetDense(first, l1, t, rs2);
    AddDense(first, l2, t, BinaryOp(op, I1, a, b));
  }

  lemma LinkDense(first: nat, l: LState, t: Tally, rd: RegNum, ra: Word)
    requires WellFormed(l) && Dense(first, l, t)
    ensures Dense(first, LinkTo(l, rd, ra), t)
  {
    hide AddInst, SetReg, WellFormed, Types, Dense;
    AddDense(first, l, t, Const(I64, Signed(ra)));
    var (l1, v) := AddInst(l, Const(I64, Signed(ra)));
    SetDense(first, l1, t, rd, v);
  }

  lemma JalrDense(first: nat, l: LState, t: Tally, rs1: RegNum, imm: int)
    requires WellFormed(l) && -0x800 <= imm < 0x800 && Dense(first, l, t)
    ensures Dense(first, LiftJalr(l, rs1, imm).0, t)
  {
    hide AddInst, GetReg, SetReg, WellFormed, Types, Dense;
    var (l1, a) := GetReg(l, rs1);
    var (l2, b) := AddInst(l1, Const(I64, imm));
    var (l3, sum) := AddInst(l2, BinaryOp(Plus, I64, a, b));
    var (l4, mask) := AddInst(l3, Const(I64, -2));
    GetDense(first, l, t, rs1);
    AddDense(first, l1, t, Const(I64, imm));
    AddDense(first, l2, t, BinaryOp(Plus, I64, a, b));
    AddDense(first, l3, t, Const(I64, -2));
    AddDense(first, l4, t, BinaryOp(And, I64, sum, mask));
  }

  lemma TerminatorDense(first: nat, l: LState, t: Tally, i: RV.Instruction)
    requires WellFormed(l) && Dense(first, l, t) && RV.Supported(i) && RV.IsTerminator(i.opcode)
    ensures Dense(first, LiftTerminator(l, i, Add(i.address, 4)).0, t)
  {
    hide LiftBranch, LinkTo, LiftJalr, Dense, WellFormed, Add, ToWord, Types;
    if RV.IsBranch(i.opcode) {
      BranchDense(first, l, t, CompareOf(i.opcode), i.GetRegister(0), i.GetRegister(1),
        Add(i.address, ToWord(i.GetImmediate(2))), Add(i.address, 4));
    } else if i.opcode.JAL? {
      LinkDense(first, l, t, i.GetRegister(0), Add(i.address, 4));
    } else if !RV.IsRet(i) {
      JalrDense(first, l, t, i.GetRegister(1), i.GetImmediate(2));
      LinkDense(first, LiftJalr(l, i.GetRegister(1), i.GetImmediate(2)).0, t, i.GetRegister(0), Add(i.address, 4));
    }
  }

  lemma StraightTally(insts: seq<RV.Instruction>)
    ensures GuestTally(insts) == GuestTally(RV.Straight(insts))
  {
  }

  lemma LiftedDense(first: nat, straight: seq<RV.Instruction>, order: seq<nat>) returns (t: Tally)
    requires RV.AllSupported(straight) && RV.NoTerminator(straight)
    requires IsOrder(order, LiftAll(Start(first), straight).modified)
    ensures t == GuestTally(straight).(writes := |LiftAll(Start(first), straight).modified|)
    ensures OrderCached(LiftAll(Start(first), straight), order)
    ensures Dense(first, WriteBack(LiftAll(Start(first), straight), order), t)
  {
    hide LiftAll, WriteBack, Dense, GuestTally;
    OrderLength(order, LiftAll(Start(first), straight).modified);
    AllDense(first, straight);
    WriteBackDense(first, LiftAll(Start(first), straight), GuestTally(straight), order);
    GuestWritesNothing(straight);
    t := GuestTally(straight).(writes := |order|);
  }

  ghost predicate OrderCached(l: LState, order: seq<nat>) { WellFormed(l) && forall r :: r in order ==> r in l.cache }

  /** A lifted block numbers its values consecutively, loads and stores once for each guest
      load and store, writes each modified register once, and has one XOR or logical right
      shift for each in the guest code. */
  lemma BlockCounted(first: nat, insts: seq<RV.Instruction>, order: seq<nat>) returns (t: Tally)
    requires RV.IsBlock(insts)
    requires IsOrder(order, LiftAll(Start(first), RV.Straight(insts)).modified)
    ensures t == GuestTally(insts).(writes := |LiftAll(Start(first), RV.Straight(insts)).modified|)
    ensures Dense(first, LiftBlock(first, insts, order).0, t)
  {
    hide LiftAll, WriteBack, Dense, LiftTerminator, WellFormed, Types, GuestTally, RV.Straight;
    StraightTally(insts);
    t := LiftedDense(first, RV.Straight(insts), order);
    if RV.EndsInTerminator(insts) { TerminatorDense(first, Lifted(first, insts, order), t, insts[|insts| - 1]); }
  }

  lemma {:induction false} GuestWritesNothing(insts: seq<RV.Instruction>)
    ensures GuestTally(insts).writes == 0
  {
    if insts != [] { GuestWritesNothing(insts[..|insts| - 1]); }
  }

  lemma {:induction false} OrderLength(order: seq<nat>, rs: set<nat>)
    requires IsOrder(order, rs)
    ensures |order| == |rs|
    decreases |order|
  {
    if order == [] {
      assert rs == {};
    } else {
      var n := |order| - 1;
      var r := order[n];
      assert forall q :: q in order[..n] <==> q in rs - {r} by {
        forall q ensures q in order[..n] <==> q in rs - {r} {
          assert order == order[..n] + [r];
        }
      }
      OrderLength(order[..n], rs - {r});
    }
  }
}
