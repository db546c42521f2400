/** Write-back of the modified registers: its order does not show, and what is emitted after it,
    for the terminator, reads no register that it writes. */
module WriteBackOrder {
  import opened Words
  import opened Guest
  import opened IR
  import opened LifterSpec
  import opened LifterCorrect
  import RV = RiscV

  /** The order in which modified registers are written back does not show. */
  lemma WriteBackOrderIrrelevant(g: Region, next: ValueId, insts: seq<RV.Instruction>, a: seq<nat>, b: seq<nat>,
                                 s: GuestState)
    requires RV.IsBlock(insts) && RV.EndState(g, insts, s).Some?
    requires IsOrder(a, LiftAll(Start(next), RV.Straight(insts)).modified)
    requires IsOrder(b, LiftAll(Start(next), RV.Straight(insts)).modified)
    ensures
      var (l, term) := LiftBlock(next, insts, a);
      var (l', term') := LiftBlock(next, insts, b);
      RunBlock(g, Block(l.code, term), s) == RunBlock(g, Block(l'.code, term'), s)
  {
    hide LiftBlock, LiftAll, RunBlock, RV.EndState, RV.Straight, RV.IsBlock, IsOrder;
    LiftPreservesMeaning(g, next, insts, a, s);
    LiftPreservesMeaning(g, next, insts, b, s);
  }

  // All registers of rs are cached, and the code from n on reads none of them
  ghost predicate ReadsOutside(l: LState, n: nat, rs: set<nat>) {
    n <= |l.code| && rs <= l.cache.Keys &&
    forall k :: n <= k < |l.code| && l.code[k].kind.RegRead? ==> l.code[k].kind.reg !in rs
  }

  lemma AddOutside(l: LState, k: InstructionKind, n: nat, rs: set<nat>)
    requires WellFormed(l) && Typed(Types(l.code), k) && ReadsOutside(l, n, rs) && (k.RegRead? ==> k.reg !in rs)
    ensures ReadsOutside(AddInst(l, k).0, n, rs)
  {
    hide WellFormed, Typed, Types;
  }

  lemma GetOutside(l: LState, r: RegNum, n: nat, rs: set<nat>)
    requires WellFormed(l) && ReadsOutside(l, n, rs)
    ensures ReadsOutside(GetReg(l, r).0, n, rs)
  {
    hide WellFormed, Types, AddInst;
    if r == 0 { AddOutside(l, Const(I64, 0), n, rs); }
    else if r !in l.cache { AddOutside(l, RegRead(r), n, rs); }
  }

  lemma SetOutside(l: LState, r: RegNum, id: ValueId, n: nat, rs: set<nat>)
    requires WellFormed(l) && HasType(l, id, I64) && ReadsOutside(l, n, rs)
    ensures ReadsOutside(SetReg(l, r, id), n, rs)
  {
    hide WellFormed, Types;
  }

  lemma BranchOutside(l: LState, op: BinaryOpcode, rs1: RegNum, rs2: RegNum, yes: Word, no: Word, n: nat, rs: set<nat>)
    requires WellFormed(l) && IsComparison(op) && ReadsOutside(l, n, rs)
    ensures ReadsOutside(LiftBranch(l, op, rs1, rs2, yes, no).0, n, rs)
  {
    hide AddInst, GetReg, WellFormed, Types, ReadsOutside;
    var (l1, a) := GetReg(l, rs1);
    var (l2, b) := GetReg(l1, rs2);
    GetOutside(l, rs1, n, rs);
    GetOutside(l1, rs2, n, rs);
    AddOutside(l2, BinaryOp(op, I1, a, b), n, rs);
  }

  lemma LinkOutside(l: LState, rd: RegNum, ra: Word, n: nat, rs: set<nat>)
    requires WellFormed(l) && ReadsOutside(l, n, rs)
    ensures ReadsOutside(LinkTo(l, rd, ra), n, rs)
  {
    hide AddInst, SetReg, WellFormed, Types, ReadsOutside;
    AddOutside(l, Const(I64, Signed(ra)), n, rs);
    var (l1, v) := AddInst(l, Const(I64, Signed(ra)));
    SetOutside(l1, rd, v, n, rs);
  }

  lemma JalrOutside(l: LState, rs1: RegNum, imm: int, n: nat, rs: set<nat>)
    requires WellFormed(l) && -0x800 <= imm < 0x800 && ReadsOutside(l, n, rs)
    ensures ReadsOutside(LiftJalr(l, rs1, imm).0, n, rs)
  {
    hide AddInst, GetReg, WellFormed, Types, ReadsOutside;
    var (l1, a) := GetReg(l, rs1);
    var (l2, b) := AddInst(l1, Const(I64, imm));
    var (l3, sum) := AddInst(l2, BinaryOp(Plus, I64, a, b));
    var (l4, mask) := AddInst(l3, Const(I64, -2));
    GetOutside(l, rs1, n, rs);
    AddOutside(l1, Const(I64, imm), n, rs);
    AddOutside(l2, BinaryOp(Plus, I64, a, b), n, rs);
    AddOutside(l3, Const(I64, -2), n, rs);
    AddOutside(l4, BinaryOp(And, I64, sum, mask), n, rs);
  }

  lemma NothingYet(l: LState)
    requires WellFormed(l)
    ensures ReadsOutside(l, |l.code|, l.modified)
  {
  }

  /** Register reads emitted for the terminator, after write-back, name only registers that the
      block has not modified. */
  lemma TerminatorReadsUnmodified(l: LState, i: RV.Instruction, fallThrough: Word)
    requires WellFormed(l) && RV.Supported(i) && RV.IsTerminator(i.opcode)
    ensures ReadsOutside(LiftTerminator(l, i, fallThrough).0, |l.code|, l.modified)
  {
    hide LiftBranch, LinkTo, LiftJalr, WellFormed, Types, ReadsOutside, Add, ToWord, CompareOf;
    NothingYet(l);
    var n := |l.code|;
    if RV.IsBranch(i.opcode) {
      BranchOutside(l, CompareOf(i.opcode), i.GetRegister(0), i.GetRegister(1),
        Add(i.address, ToWord(i.GetImmediate(2))), fallThrough, n, l.modified);
    } else if i.opcode.JAL? {
      LinkOutside(l, i.GetRegister(0), Add(i.address, 4), n, l.modified);
    } else if !RV.IsRet(i) {
      JalrOutside(l, i.GetRegister(1), i.GetImmediate(2), n, l.modified);
      LinkOutside(LiftJalr(l, i.GetRegister(1), i.GetImmediate(2)).0, i.GetRegister(0), Add(i.address, 4), n,
        l.modified);
    }
  }
}
