/** Short blocks are always translated: the lifter adds at most six values for each instruction. */
module SmallBlocks {
  import opened Words
  import opened Guest
  import opened IR
  import opened LivenessSpec
  import opened AllocatorSpec
  import opened AllocationCorrect
  import opened LifterSpec
  import opened SelectorSpec
  import opened SelectorShape
  import opened SelectorTotal
  import opened BlockTally
  import opened BranchCode
  import opened LiftedBranch
  import opened Pieces
  import opened Pipeline
  import A = Arm64
  import RV = RiscV
  import LC = LifterCorrect

  /* ---- The length of lifted code ---- */

  ghost predicate Adds(l: LState, l': LState, n: nat) { |l'.code| <= |l.code| + n }

  lemma GetAdds(l: LState, r: RegNum)
    requires WellFormed(l)
    ensures Adds(l, GetReg(l, r).0, 1)
  {
    hide WellFormed, Types;
  }

  lemma AddAdds(l: LState, k: InstructionKind)
    requires WellFormed(l) && Typed(Types(l.code), k)
    ensures Adds(l, AddInst(l, k).0, 1)
  {
    hide WellFormed, Types, Typed;
  }

  lemma RAdds(l: LState, rd: RegNum, rs1: RegNum, rs2: RegNum, op: BinaryOpcode)
    requires WellFormed(l)
    ensures Adds(l, LiftR(l, rd, rs1, rs2, op), 6)
  {
    hide AddInst, GetReg, WellFormed, Types;
    var (l1, a) := GetReg(l, rs1);
    var (l2, b) := GetReg(l1, rs2);
    GetAdds(l, rs1);
    GetAdds(l1, rs2);
    AddAdds(l2, BinaryOp(op, I64, a, b));
  }

  lemma IAdds(l: LState, rd: RegNum, rs1: RegNum, imm: int, op: BinaryOpcode)
    requires WellFormed(l) && -0x800 <= imm < 0x800
    ensures Adds(l, LiftI(l, rd, rs1, imm, op), 6)
  {
    hide AddInst, GetReg, WellFormed, Types;
    var (l1, a) := GetReg(l, rs1);
    var (l2, b) := AddInst(l1, Const(I64, imm));
    GetAdds(l, rs1);
    AddAdds(l1, Const(I64, imm));
    AddAdds(l2, BinaryOp(op, I64, a, b));
  }

  lemma WordEndAdds(l: LState, rd: RegNum, a32: ValueId, b32: ValueId, op: BinaryOpcode)
    requires WellFormed(l) && Has32(op) && HasType(l, a32, I32) && HasType(l, b32, I32)
    ensures Adds(l, WordEnd(l, rd, a32, b32, op), 2)
  {
    hide AddInst, WellFormed, Types;
    var (l1, c32) := AddInst(l, BinaryOp(op, I32, a32, b32));
    AddAdds(l, BinaryOp(op, I32, a32, b32));
    AddAdds(l1, Sext(I64, c32));
  }

  lemma WAdds(l: LState, rd: RegNum, rs1: RegNum, rs2: RegNum, op: BinaryOpcode)
    requires WellFormed(l) && Has32(op)
    ensures Adds(l, LiftW(l, rd, rs1, rs2, op), 6)
  {
    hide AddInst, GetReg, WordEnd, WellFormed, Types;
    var (l1, a) := GetReg(l, rs1);
    var (l2, b) := GetReg(l1, rs2);
    var (l3, a32) := AddInst(l2, Trunc(I32, a));
    var (l4, b32) := AddInst(l3, Trunc(I32, b));
    GetAdds(l, rs1);
    GetAdds(l1, rs2);
    AddAdds(l2, Trunc(I32, a));
    AddAdds(l3, Trunc(I32, b));
    WordEndAdds(l4, rd, a32, b32, op);
  }

  lemma WImmAdds(l: LState, rd: RegNum, rs1: RegNum, imm: int, op: BinaryOpcode)
    requires WellFormed(l) && -0x800 <= imm < 0x800 && Has32(op)
    ensures Adds(l, LiftWImm(l, rd, rs1, imm, op), 6)
  {
    hide AddInst, GetReg, WordEnd, WellFormed, Types;
    var (l1, a) := GetReg(l, rs1);
    var (l2, b32) := AddInst(l1, Const(I32, imm));
    var (l3, a32) := AddInst(l2, Trunc(I32, a));
    GetAdds(l, rs1);
    AddAdds(l1, Const(I32, imm));
    AddAdds(l2, Trunc(I32, a));
    WordEndAdds(l3, rd, a32, b32, op);
  }

  lemma LoadAdds(l: LState, rd: RegNum, rs1: RegNum, imm: int, ty: Type, signed: bool)
    requires WellFormed(l) && -0x800 <= imm < 0x800
    requires ty.I8? || ty.I16? || ty.I32? || ty.I64?
    requires !signed ==> ty.I32? || ty.I64?
    ensures Adds(l, LiftLoad(l, rd, rs1, imm, ty, signed), 6)
  {
    hide AddInst, GetReg, WellFormed, Types;
    var (l1, a) := GetReg(l, rs1);
    var (l2, b) := AddInst(l1, Const(I64, imm));
    var (l3, addr) := AddInst(l2, BinaryOp(Plus, I64, a, b));
    var (l4, v) := AddInst(l3, LoadFrom(ty, addr));
    GetAdds(l, rs1);
    AddAdds(l1, Const(I64, imm));
    AddAdds(l2, BinaryOp(Plus, I64, a, b));
    AddAdds(l3, LoadFrom(ty, addr));
    if !ty.I64? { AddAdds(l4, if signed then Sext(I64, v) else Zext(I64, v)); }
  }

  lemma StoreAdds(l: LState, rs1: RegNum, rs2: RegNum, imm: int, ty: Type)
    requires WellFormed(l) && -0x800 <= imm < 0x800 && (ty.I32? || ty.I64?)
    ensures Adds(l, LiftStore(l, rs1, rs2, imm, ty), 6)
  {
    hide AddInst, GetReg, WellFormed, Types;
    var (l1, a) := GetReg(l, rs1);
    var (l2, v) := GetReg(l1, rs2);
    var (l3, b) := AddInst(l2, Const(I64, imm));
    var (l4, addr) := AddInst(l3, BinaryOp(Plus, I64, a, b));
    GetAdds(l, rs1);
    GetAdds(l1, rs2);
    AddAdds(l2, Const(I64, imm));
    AddAdds(l3, BinaryOp(Plus, I64, a, b));
    if ty.I64? {
      AddAdds(l4, StoreTo(v, addr));
    } else {
      var (l5, w) := AddInst(l4, Trunc(ty, v));
      AddAdds(l4, Trunc(ty, v));
      AddAdds(l5, StoreTo(w, addr));
    }
  }

  lemma UpperAdds(l: LState, rd: RegNum, imm: int, pc: Word)
    requires WellFormed(l) && -0x8000_0000 <= imm < 0x8000_0000
    ensures Adds(l, LiftLui(l, rd, imm), 6) && Adds(l, LiftAuipc(l, rd, imm, pc), 6)
  {
    hide AddInst, WellFormed, Types;
    var upper := Const(I64, imm * 0x1000);
    AddAdds(l, upper);
    var (l1, a) := AddInst(l, Const(I64, Signed(pc)));
    var (l2, b) := AddInst(l1, upper);
    AddAdds(l, Const(I64, Signed(pc)));
    AddAdds(l1, upper);
    AddAdds(l2, BinaryOp(Plus, I64, a, b));
  }

  lemma SingleAdds(l: LState, i: RV.Instruction)
    requires WellFormed(l) && RV.Supported(i) && !RV.IsTerminator(i.opcode)
    ensures Adds(l, LiftSingle(l, i), 6)
  {
    hide LiftR, LiftI, LiftW, LiftWImm, LiftLoad, LiftStore, LiftLui, LiftAuipc, WellFormed, Adds;
    if i.opcode.ADDW? {
      WAdds(l, i.GetRegister(0), i.GetRegister(1), i.GetRegister(2), Plus);
    } else if RV.IsRType(i.opcode) {
      RAdds(l, i.GetRegister(0), i.GetRegister(1), i.GetRegister(2), BinaryOf(i.opcode));
    } else if IsWord(i.opcode) {
      WImmAdds(l, i.GetRegister(0), i.GetRegister(1), i.GetImmediate(2), BinaryOf(i.opcode));
    } else if RV.IsIType(i.opcode) {
      IAdds(l, i.GetRegister(0), i.GetRegister(1), i.GetImmediate(2), BinaryOf(i.opcode));
    } else if RV.IsLoad(i.opcode) {
      LoadAdds(l, i.GetRegister(0), i.GetRegister(1), i.GetImmediate(2),
        AccessType(i.opcode), !i.opcode.LWU? && !i.opcode.LD?);
    } else if RV.IsStore(i.opcode) {
      StoreAdds(l, i.GetRegister(0), i.GetRegister(1), i.GetImmediate(2), AccessType(i.opcode));
    } else {
      UpperAdds(l, i.GetRegister(0), i.GetImmediate(1), i.address);
    }
  }

  lemma {:induction false} AllAdds(insts: seq<RV.Instruction>)
    requires RV.AllSupported(insts) && RV.NoTerminator(insts)
    ensures |LiftAll(Start(1), insts).code| <= 6 * |insts|
  {
    hide LiftSingle, WellFormed, RV.Supported;
    StartWellFormed(1);
    if insts != [] {
      var n := |insts| - 1;
      AllAdds(insts[..n]);
      SingleAdds(LiftAll(Start(1), insts[..n]), insts[n]);
    }
  }

  lemma BranchAdds(l: LState, op: BinaryOpcode, rs1: RegNum, rs2: RegNum, yes: Word, no: Word)
    requires WellFormed(l) && IsComparison(op)
    ensures Adds(l, LiftBranch(l, op, rs1, rs2, yes, no).0, 3)
  {
    hide AddInst, GetReg, WellFormed, Types;
    var (l1, a) := GetReg(l, rs1);
    var (l2, b) := GetReg(l1, rs2);
    GetAdds(l, rs1);
    GetAdds(l1, rs2);
    AddAdds(l2, BinaryOp(op, I1, a, b));
  }

  lemma LinkAdds(l: LState, rd: RegNum, ra: Word)
    requires WellFormed(l)
    ensures Adds(l, LinkTo(l, rd, ra), 1)
  {
    hide AddInst, WellFormed, Types, Keeps;
    AddAdds(l, Const(I64, Signed(ra)));
  }

  lemma JalrAdds(l: LState, rs1: RegNum, imm: int)
    requires WellFormed(l) && -0x800 <= imm < 0x800
    ensures Adds(l, LiftJalr(l, rs1, imm).0, 5)
  {
    hide AddInst, GetReg, WellFormed, Types;
    var (l1, a) := GetReg(l, rs1);
    var (l2, b) := AddInst(l1, Const(I64, imm));
    var (l3, t) := AddInst(l2, BinaryOp(Plus, I64, a, b));
    var (l4, mask) := AddInst(l3, Const(I64, -2));
    GetAdds(l, rs1);
    AddAdds(l1, Const(I64, imm));
    AddAdds(l2, BinaryOp(Plus, I64, a, b));
    AddAdds(l3, Const(I64, -2));
    AddAdds(l4, BinaryOp(And, I64, t, mask));
  }

  lemma TerminatorAdds(l: LState, i: RV.Instruction)
    requires WellFormed(l) && RV.Supported(i) && RV.IsTerminator(i.opcode)
    ensures Adds(l, LiftTerminator(l, i, Add(i.address, 4)).0, 6)
  {
    hide LiftBranch, LinkTo, LiftJalr, WellFormed, Add, ToWord, Types;
    if RV.IsBranch(i.opcode) {
      BranchAdds(l, CompareOf(i.opcode), i.GetRegister(0), i.GetRegister(1),
        Add(i.address, ToWord(i.GetImmediate(2))), Add(i.address, 4));
    } else if i.opcode.JAL? {
      LinkAdds(l, i.GetRegister(0), Add(i.address, 4));
    } else if !RV.IsRet(i) {
      JalrAdds(l, i.GetRegister(1), i.GetImmediate(2));
      LinkAdds(LiftJalr(l, i.GetRegister(1), i.GetImmediate(2)).0, i.GetRegister(0), Add(i.address, 4));
    }
  }

  /* ---- Counting registers ---- */

  // The numbers below n
  function Below(n: nat): (r: set<nat>)
    ensures (forall v: nat :: v in r <==> v < n) && |r| == n
  {
    if n == 0 then {} else Below(n - 1) + {n - 1}
  }

  lemma SmallerSet(a: set<nat>, b: set<nat>)
    requires a <= b
    ensures |a| <= |b|
  {
    assert b == a + (b - a);
  }

  function Vregs(ivs: seq<LiveInterval>): set<nat> { set j | 0 <= j < |ivs| :: ivs[j].vreg }

  lemma {:induction false} VregCount(ivs: seq<LiveInterval>)
    requires Scannable(ivs)
    ensures |Vregs(ivs)| == |ivs|
  {
    if ivs != [] {
      var n := |ivs| - 1;
      PrefixScannable(ivs, n);
      VregCount(ivs[..n]);
      assert Vregs(ivs) == Vregs(ivs[..n]) + {ivs[n].vreg};
      assert ivs[n].vreg !in Vregs(ivs[..n]);
    }
  }

  // Intervals of few registers never crowd
  lemma FewRegisters(ivs: seq<LiveInterval>, n: nat)
    requires Scannable(ivs) && n <= LAST && forall j :: 0 <= j < |ivs| ==> ivs[j].vreg < n
    ensures Scan(ivs).Some?
  {
    VregCount(ivs);
    SmallerSet(Vregs(ivs), Below(n));
    FailsIffCrowded(ivs);
    forall p: nat ensures |Covering(ivs, p)| <= LAST {
      SmallerSet(Covering(ivs, p), Below(|ivs|));
    }
    hide Scan, Scannable;
  }

  lemma StaticSites(st: SState, code: seq<A.Instruction>, v: nat)
    requires Static(st, code) && v in DefSites(code)
    ensures v < st.next
  {
    DefSiteIsLast(code, v);
    AllDefsMember(code, v);
    hide DefSites, Defs, Uses, AllDefs, WindowShape;
    assert v in AllDefs(code);
  }

  lemma TestDefinesNothing(body: seq<A.Instruction>, c: nat, v: nat)
    requires v in DefSites(body + [Test(c)])
    ensures v in DefSites(body)
  {
    DefSiteAppend(body, [Test(c)], v);
    DefSiteIsLast([Test(c)], v);
  }

  // The terminator defines at most three registers, the next five above the counter
  lemma SitesBelow(b: Block, v: nat)
    requires Selectable(b) && v in DefSites(SelectedCode(b))
    ensures SelectAll(INITIAL, b.insts).Some? && v < SelectAll(INITIAL, b.insts).value.0.next + 5
  {
    hide SelectAll, SelectedCode, DefSites, Static, TwoPieces, Choose, Test, Types, Knows, AllClean, WellTyped,
      ConstInto, SelectExit;
    var st0, body := Body(b);
    if b.terminator.CondBranch? {
      var st, a, r := CondPieces(b);
      TargetsDistinct(st);
      TargetsNear(st);
      DefSiteAppend(a, r, v);
      if v !in DefSites(r) {
        TestDefinesNothing(body, st.vregs[b.terminator.cond], v);
        StaticSites(st, body, v);
      }
    } else {
      var exit := SelectExit(st0, b.terminator).value.1;
      DefSiteAppend(body + exit, [RETURN_INST], v);
      DefSiteAppend(body, exit, v);
      ExitDefinesNothing(st0, b.terminator, v);
      if v in DefSites(body) { StaticSites(st0, body, v); }
    }
  }

  lemma TargetsNear(st: SState)
    ensures Targets(st).0.next <= st.next + 4
  {
    hide ConstInto;
  }

  lemma ExitDefinesNothing(st: SState, t: Terminator, v: nat)
    requires SelectExit(st, t).Some? && !t.CondBranch?
    ensures v !in DefSites(SelectExit(st, t).value.1) && v !in DefSites([RETURN_INST])
  {
    DefSiteIsLast(SelectExit(st, t).value.1, v);
    DefSiteIsLast([RETURN_INST], v);
    match t
    case Branch(target) => ConstDefines(I64, Signed(target), A.Phys(A.GUEST_STATE));
    case Return(None) => ConstDefines(I64, 0, A.Phys(A.GUEST_STATE));
    case Return(Some(id)) =>
    case CondBranch(_, _, _) =>
    hide ConstInto, DefSites;
  }

  // The register counter of a lifted block
  lemma LiftedCounter(insts: seq<RV.Instruction>, order: seq<nat>)
    requires RV.IsBlock(insts) && IsOrder(order, Modified(insts))
    ensures
      var b, t := LiftedBlock(1, insts, order), GuestTally(insts);
      && SelectAll(INITIAL, b.insts).Some?
      && SelectAll(INITIAL, b.insts).value.0.next <= 6 * |RV.Straight(insts)| + 3 * t.loads + 2 * t.stores + 6
  {
    hide LiftAll, WriteBack, Dense, GuestTally, RV.Straight, Types, WellFormed, IsOrder, SelectAll, LiftTerminator,
      WellTyped, Ordered;
    var straight := RV.Straight(insts);
    LC.StraightFacts(insts);
    StartWellFormed(1);
    var t0 := LiftedDense(1, straight, order);
    AllAdds(straight);
    var l0 := LiftAll(Start(1), straight);
    WriteBackTypes(l0, order);
    OrderLength(order, l0.modified);
    if RV.EndsInTerminator(insts) { TerminatorAdds(Lifted(1, insts, order), insts[|insts| - 1]); }
    var t := BlockCounted(1, insts, order);
    LiftedSelectable(1, insts, order);
    DenseFromOne(LiftBlock(1, insts, order).0, LiftedBlock(1, insts, order).terminator, t);
  }

  /** A block is always translated when six times its straight-line instructions, three more for each
      load and two more for each store come to at most 17. */
  lemma SmallBlockAllocates(insts: seq<RV.Instruction>, order: seq<nat>, ivs: seq<LiveInterval>)
    requires RV.IsBlock(insts) && IsOrder(order, Modified(insts))
    requires 6 * |RV.Straight(insts)| + 3 * GuestTally(insts).loads + 2 * GuestTally(insts).stores <= 17
    requires AreIntervals(SelectedCode(LiftedBlock(1, insts, order)), ivs)
    ensures Scan(ivs).Some?
  {
    hide LiftAll, LiftedBlock, GuestTally, RV.Straight, IsOrder, SelectAll, SelectedCode, Selectable, Scan, Scannable,
      DefSites, Interval, RV.IsBlock;
    var b := LiftedBlock(1, insts, order);
    LiftedSelectable(1, insts, order);
    LiftedCounter(insts, order);
    SelectedAllocates(b, ivs);
    var n := SelectAll(INITIAL, b.insts).value.0.next;
    forall j | 0 <= j < |ivs| ensures ivs[j].vreg < n + 5 { SitesBelow(b, ivs[j].vreg); }
    FewRegisters(ivs, n + 5);
  }
}
