/** When the branch of a translated block goes right, and the blocks for which it does not. */
module BranchOutcome {
  import opened Options
  import opened Words
  import opened Memory
  import opened Guest
  import opened HostLayout
  import opened LivenessSpec
  import opened AllocatorSpec
  import opened AllocationCorrect
  import opened BranchCode
  import opened BranchReuse
  import opened BlockTally
  import opened LiftedBranch
  import opened TargetRegisters
  import opened SharedRegisters
  import opened GuestRegisters
  import opened Pipeline
  import opened IR
  import A = Arm64
  import RV = RiscV
  import L = LifterSpec
  import LC = LifterCorrect

  /* ---- When the compared values share a register ---- */

  // The compared value that was there before the comparison, when one was read for it
  function OlderOperand(b: Block): ValueId
    requires b.insts != [] && b.insts[|b.insts| - 1].kind.BinaryOp?
  {
    var k := b.insts[|b.insts| - 1].kind;
    if k.lhs == |b.insts| - 1 then k.rhs else k.lhs
  }

  // By the intervals alone, a virtual register gets r
  ghost predicate VregGets(ivs: seq<LiveInterval>, v: nat, r: A.Register) {
    exists k :: 0 <= k < |ivs| && ivs[k].vreg == v && Gets(ivs, k, r)
  }

  lemma VregGetsIff(ivs: seq<LiveInterval>, v: nat, r: A.Register)
    requires Scannable(ivs) && Scan(ivs).Some?
    ensures IsIn(Scan(ivs).value.0, v, r) <==> VregGets(ivs, v, r)
  {
    ScanInvariant(ivs);
    hide Scannable, Scan, Gets, ActiveAt, Separates;
    forall k | 0 <= k < |ivs| ensures IsIn(Scan(ivs).value.0, ivs[k].vreg, r) <==> Gets(ivs, k, r) {
      GetsIff(ivs, k, r);
    }
  }

  // A target takes the register of a compared value while the other one is in the register that the
  // target has: the taken target X1, the other one X2
  ghost predicate Collides(insts: seq<RV.Instruction>, b: Block, ivs: seq<LiveInterval>)
    requires RV.IsBlock(insts) && EndsInBranch(insts)
  {
    b.insts != [] && b.insts[|b.insts| - 1].kind.BinaryOp? &&
    var last, k, lead := LastBranch(insts), b.insts[|b.insts| - 1].kind, Lead(insts);
    match Fetches(Cached(insts), last.rs1, last.rs2)
    case 0 => false
    case 1 =>
      var w := RegisterOf(b, OlderOperand(b));
      k.lhs != k.rhs && ((lead == 1 && VregGets(ivs, w, FIRST)) || (lead == 3 && VregGets(ivs, w, FIRST + 1)))
    case _ => lead == 1
  }

  lemma OlderIsOther(b: Block, pre: seq<Inst>, fetched: seq<Inst>, op: BinaryOpcode, x: ValueId, y: ValueId, lead: int)
    requires EndsInCompare(b, pre, fetched, op, x, y) && Numbered(b, pre, lead)
    ensures b.insts != [] && b.insts[|b.insts| - 1].kind == BinaryOp(op, I1, x, y)
    ensures |fetched| == 1 ==> OlderOperand(b) == Other(fetched, x, y)
  {
    ComparisonIds(b, pre, fetched, op, x, y);
    hide IsReader, Types;
    assert b.insts[|b.insts| - 1] == Inst(b.terminator.cond, BinaryOp(op, I1, x, y));
  }

  lemma ScannedAllocates(b: Block, ivs: seq<LiveInterval>)
    requires Selectable(b) && AreIntervals(SelectedCode(b), ivs) && Scan(ivs).Some?
    ensures var alloc := Scan(ivs).value.0; Allocates(SelectedCode(b), alloc) && Scanned(SelectedCode(b), alloc)
  {
    hide SelectedCode, Selectable, AreIntervals, Scan, Allocates, Scanned, AllCovered;
    SelectedAllocates(b, ivs);
  }

  lemma FewReads(insts: seq<RV.Instruction>, b: Block, pre: seq<Inst>, fetched: seq<Inst>, op: BinaryOpcode,
                 x: ValueId, y: ValueId)
    requires RV.IsBlock(insts) && EndsInBranch(insts) && LiftsBranch(insts, b, pre, fetched, op, x, y)
    ensures |fetched| <= 2
  {
  }

  /** Exactly when the compared values of a branch share a register: they are never both older than
      the comparison; with both read for it, when the value ids lead the register counter by one;
      with one of them, when a target takes its register and the older value gets that of the
      target, by the live intervals of the code. */
  lemma SharedIff(insts: seq<RV.Instruction>, order: seq<nat>, ivs: seq<LiveInterval>)
    requires RV.IsBlock(insts) && L.IsOrder(order, Modified(insts)) && EndsInBranch(insts)
    requires AreIntervals(SelectedCode(L.LiftedBlock(1, insts, order)), ivs) && Scan(ivs).Some?
    ensures
      var b, alloc := L.LiftedBlock(1, insts, order), Scan(ivs).value.0;
      SharedOperands(b, alloc) <==> Collides(insts, b, ivs)
  {
    hide L.LiftAll, L.LiftedBlock, L.IsOrder, RV.IsBlock, SelectedCode, SharedOperands, Selectable, EndsInCompare,
      Compared, Numbered, Share, RegisterOf, EndsInBranch, LastBranch, AreIntervals, Scan, Lead, Fetches, Cached,
      Allocates, Scanned, L.CompareOf, OlderOperand, Other, IsIn, VregGets, Scannable;
    var b, alloc := L.LiftedBlock(1, insts, order), Scan(ivs).value.0;
    LiftedSelectable(1, insts, order);
    ScannedAllocates(b, ivs);
    var pre, fetched, op, x, y := BranchLifts(insts, order);
    SharedIsShare(b, pre, fetched, op, x, y, alloc);
    OlderIsOther(b, pre, fetched, op, x, y, Lead(insts));
    FewReads(insts, b, pre, fetched, op, x, y);
    if |fetched| == 0 {
      TargetsComeAfter(b, pre, fetched, op, x, y, Lead(insts));
      OldOperandsApart(b, pre, op, x, y, alloc);
    } else if |fetched| == 1 {
      OneReadShareIff(b, pre, fetched, op, x, y, Lead(insts), alloc);
      SelectedAllocates(b, ivs);
      VregGetsIff(ivs, RegisterOf(b, Other(fetched, x, y)), FIRST);
      VregGetsIff(ivs, RegisterOf(b, Other(fetched, x, y)), FIRST + 1);
    } else {
      TwoReadsShareIff(b, pre, fetched, op, x, y, Lead(insts), alloc);
    }
  }

  /* ---- When a block goes right ---- */

  // A branch on one register instead of two goes the same way
  predicate GoesRight(insts: seq<RV.Instruction>, shared: bool, end: GuestState)
    requires RV.IsBlock(insts)
  {
    shared && EndsInBranch(insts) ==>
      var last := LastBranch(insts);
      last.yes == last.no || RV.Taken(last.op, Get(end, last.rs1), Get(end, last.rs2)) == RV.Taken(last.op, 0, 0)
  }

  lemma BranchTarget(insts: seq<RV.Instruction>, end: GuestState)
    requires RV.IsBlock(insts) && EndsInBranch(insts)
    ensures
      var last := LastBranch(insts);
      LC.LiftedTarget(insts, end) ==
      if RV.Taken(last.op, Get(end, last.rs1), Get(end, last.rs2)) then last.yes else last.no
  {
    assert RV.Supported(insts[|insts| - 1]);
    hide RV.Taken;
  }

  lemma RightIff(insts: seq<RV.Instruction>, shared: bool, end: GuestState)
    requires RV.IsBlock(insts)
    ensures AllocatedTarget(insts, shared, end) == LC.LiftedTarget(insts, end) <==> GoesRight(insts, shared, end)
  {
    hide RV.IsBlock, LastBranch, EndsInBranch, LC.LiftedTarget, RV.Taken;
    if EndsInBranch(insts) { BranchTarget(insts, end); }
  }

  // What a call returned with, it returned with only
  lemma ReturnedUnique(l: Layout, s: A.State, out: Option<A.State>, g: GuestState, pc: Word, g': GuestState, pc': Word)
    requires Returned(l, s, out, g, pc) && Returned(l, s, out, g', pc')
    ensures pc == pc' && g.x == g'.x && forall a :: InRegion(l.region, a, 1) ==> At(g.mem, a) == At(g'.mem, a)
  {
    hide Confined, A.Read, Load;
    forall r: RegNum ensures g.x[r] == g'.x[r] { assert Load(out.value.mem, Slot(l, r), 8) == g.x[r]; }
  }

  // The ISA's block is the end state with the link written
  lemma GuestBlockEnd(g: Region, insts: seq<RV.Instruction>, s: GuestState)
    requires RV.IsBlock(insts) && insts != []
    ensures GuestBlock(g, insts, s).Some? <==> RV.EndState(g, insts, s).Some?
    ensures RV.EndState(g, insts, s).Some? ==>
              var end := RV.EndState(g, insts, s).value;
              GuestBlock(g, insts, s) == Some((RV.BlockLink(insts, end), LC.LiftedTarget(insts, end)))
  {
    hide RV.EndState, RV.BlockLink, RV.BlockTarget, RV.IsRet;
  }

  lemma LinkHeldIff(insts: seq<RV.Instruction>, end: GuestState)
    requires RV.AllSupported(insts)
    ensures LC.LinkHeld(insts, end) <==> RV.BlockLink(insts, end).x == end.x
    ensures RV.BlockLink(insts, end).mem == end.mem
    ensures LC.LinkHeld(insts, end) ==> RV.BlockLink(insts, end) == end
  {
    if RV.EndsInTerminator(insts) {
      var last := insts[|insts| - 1];
      if !RV.IsBranch(last.opcode) && last.GetRegister(0) != 0 {
        assert RV.Link(last, end).x[last.GetRegister(0)] == Add(last.address, 4);
      }
    }
  }

  /** Exactly when the allocated code of a block does what its RISC-V instructions do one by one,
      RET meaning stop: the link register of a jump, if any, holds the link value already, and a
      branch whose compared values share a register goes where comparing a register with itself
      does. */
  lemma BlockCorrectIff(l: Layout, insts: seq<RV.Instruction>, order: seq<nat>, ivs: seq<LiveInterval>, g: GuestState,
                        s: A.State)
    requires RV.IsBlock(insts) && insts != [] && L.IsOrder(order, Modified(insts)) && Ready(l, s, g)
    requires AreIntervals(SelectedCode(L.LiftedBlock(1, insts, order)), ivs) && Scan(ivs).Some?
    requires GuestBlock(l.region, insts, g).Some?
    ensures
      var b, (g', pc) := L.LiftedBlock(1, insts, order), GuestBlock(l.region, insts, g).value;
      && RV.EndState(l.region, insts, g).Some?
      && var end := RV.EndState(l.region, insts, g).value;
         (Returned(l, s, A.Call(Allocated(SelectedCode(b), ivs), s), g', pc) <==>
          LC.LinkHeld(insts, end) && GoesRight(insts, SharedOperands(b, Scan(ivs).value.0), end))
  {
    hide L.LiftAll, L.IsOrder, Ready, Returned, SelectedCode, SharedOperands, A.Call, EndsInBranch, RV.EndState,
      LC.LiftedTarget, AreIntervals, Scan, L.LiftedBlock, Allocated, AllocatedTarget, GuestBlock, RV.BlockLink,
      LC.LinkHeld, GoesRight, RV.TerminatorLast, RV.AllSupported;
    GuestBlockEnd(l.region, insts, g);
    BlockExact(l, insts, order, ivs, g, s);
    var b, end, alloc := L.LiftedBlock(1, insts, order), RV.EndState(l.region, insts, g).value, Scan(ivs).value.0;
    var out := A.Call(Allocated(SelectedCode(b), ivs), s);
    var (g', pc) := GuestBlock(l.region, insts, g).value;
    var pc' := AllocatedTarget(insts, SharedOperands(b, alloc), end);
    LinkHeldIff(insts, end);
    RightIff(insts, SharedOperands(b, alloc), end);
    if Returned(l, s, out, g', pc) { ReturnedUnique(l, s, out, end, pc', g', pc); }
  }

  /* ---- In terms of the guest block ---- */

  // Both registers of the branch are new to the block
  predicate BothNew(insts: seq<RV.Instruction>)
    requires RV.IsBlock(insts) && EndsInBranch(insts)
  {
    var last, named := LastBranch(insts), NamedBy(RV.Straight(insts));
    last.rs1 !in named && last.rs2 !in named && (last.rs1 != last.rs2 || last.rs1 == 0)
  }

  // Written registers beyond three for each load and two for each store
  function Surplus(insts: seq<RV.Instruction>): int
    requires RV.IsBlock(insts)
  {
    var t := GuestTally(insts);
    |WrittenBy(RV.Straight(insts))| - 3 * t.loads - 2 * t.stores
  }

  lemma GuestTerms(insts: seq<RV.Instruction>)
    requires RV.IsBlock(insts)
    ensures Lead(insts) == Surplus(insts) && Cached(insts) == NamedBy(RV.Straight(insts))
  {
    hide L.LiftAll, NamedBy, WrittenBy, GuestTally;
    L.StartWellFormed(1);
    AllTouches(L.Start(1), RV.Straight(insts));
  }

  lemma NewMeansTwo(insts: seq<RV.Instruction>)
    requires RV.IsBlock(insts) && EndsInBranch(insts)
    ensures BothNew(insts) <==> (var last := LastBranch(insts); Fetches(Cached(insts), last.rs1, last.rs2) == 2)
  {
    hide L.LiftAll, GuestTally, LastBranch, RV.IsBlock, EndsInBranch, Lead, Surplus;
    GuestTerms(insts);
    NamedNonzero(RV.Straight(insts));
    hide NamedBy;
  }

  lemma {:induction false} NamedNonzero(insts: seq<RV.Instruction>)
    ensures 0 !in NamedBy(insts)
  {
    if insts != [] { NamedNonzero(insts[..|insts| - 1]); }
  }

  /** A branch on two registers new to its block goes by a comparison of one of them with itself
      exactly when the surplus of written registers is one: without loads and stores, when the
      block writes exactly one register. */
  lemma NewOperandsShareIff(insts: seq<RV.Instruction>, order: seq<nat>, ivs: seq<LiveInterval>)
    requires RV.IsBlock(insts) && L.IsOrder(order, Modified(insts)) && EndsInBranch(insts) && BothNew(insts)
    requires AreIntervals(SelectedCode(L.LiftedBlock(1, insts, order)), ivs) && Scan(ivs).Some?
    ensures SharedOperands(L.LiftedBlock(1, insts, order), Scan(ivs).value.0) <==> Surplus(insts) == 1
  {
    hide L.LiftAll, L.LiftedBlock, L.IsOrder, RV.IsBlock, SelectedCode, SharedOperands, RegisterOf, EndsInBranch,
      LastBranch, AreIntervals, Scan, Lead, Fetches, Cached, Surplus, BothNew;
    SharedIff(insts, order, ivs);
    NewMeansTwo(insts);
    GuestTerms(insts);
    EndsInBinary(insts, order);
  }

  lemma EndsInBinary(insts: seq<RV.Instruction>, order: seq<nat>)
    requires RV.IsBlock(insts) && L.IsOrder(order, Modified(insts)) && EndsInBranch(insts)
    ensures var b := L.LiftedBlock(1, insts, order); b.insts != [] && b.insts[|b.insts| - 1].kind.BinaryOp?
  {
    hide L.LiftAll, L.LiftedBlock, L.IsOrder, RV.IsBlock, EndsInBranch, LastBranch, Lead, Fetches, Cached,
      EndsInCompare, Compared, Numbered;
    var pre, fetched, op, x, y := BranchLifts(insts, order);
    OlderIsOther(L.LiftedBlock(1, insts, order), pre, fetched, op, x, y, Lead(insts));
  }

  // The branch compares values that no target takes the register of: both older than the comparison,
  // both read for it with a surplus other than one, or one of them with a surplus other than one and
  // three
  predicate KeepsApart(insts: seq<RV.Instruction>)
    requires RV.IsBlock(insts) && EndsInBranch(insts)
  {
    var last := LastBranch(insts);
    match Fetches(NamedBy(RV.Straight(insts)), last.rs1, last.rs2)
    case 0 => true
    case 1 => Surplus(insts) != 1 && Surplus(insts) != 3
    case _ => Surplus(insts) != 1
  }

  /** The compared values of such a branch never share a register: lone branches, for instance, branches
      on registers that the block names, and blocks with as many loads as written registers. */
  lemma NeverShared(insts: seq<RV.Instruction>, order: seq<nat>, ivs: seq<LiveInterval>)
    requires RV.IsBlock(insts) && L.IsOrder(order, Modified(insts)) && EndsInBranch(insts) && KeepsApart(insts)
    requires AreIntervals(SelectedCode(L.LiftedBlock(1, insts, order)), ivs) && Scan(ivs).Some?
    ensures !SharedOperands(L.LiftedBlock(1, insts, order), Scan(ivs).value.0)
  {
    hide L.LiftAll, L.LiftedBlock, L.IsOrder, RV.IsBlock, SelectedCode, SharedOperands, RegisterOf, EndsInBranch,
      LastBranch, AreIntervals, Scan, Lead, Fetches, Cached, Surplus, NamedBy;
    SharedIff(insts, order, ivs);
    GuestTerms(insts);
  }

  /** A failing class: the block writes one register more than three for each load and two for each
      store, and branches on two registers that are new to it. Then BNE, BLT and BLTU never branch,
      and BEQ, BGE and BGEU always do, whatever the registers hold. */
  lemma FailingClass(l: Layout, insts: seq<RV.Instruction>, order: seq<nat>, ivs: seq<LiveInterval>, g: GuestState,
                     s: A.State)
    requires RV.IsBlock(insts) && L.IsOrder(order, Modified(insts)) && Ready(l, s, g)
    requires EndsInBranch(insts) && BothNew(insts) && Surplus(insts) == 1
    requires AreIntervals(SelectedCode(L.LiftedBlock(1, insts, order)), ivs) && Scan(ivs).Some?
    requires RV.EndState(l.region, insts, g).Some?
    ensures
      var b, last := L.LiftedBlock(1, insts, order), LastBranch(insts);
      Returned(l, s, A.Call(Allocated(SelectedCode(b), ivs), s), RV.EndState(l.region, insts, g).value,
               if last.op.BEQ? || last.op.BGE? || last.op.BGEU? then last.yes else last.no)
  {
    hide L.LiftAll, L.IsOrder, Ready, Returned, SelectedCode, SharedOperands, A.Call, Modified, RV.EndState,
      AreIntervals, Scan, L.LiftedBlock, Allocated, Surplus, BothNew, RV.TerminatorLast, RV.AllSupported;
    BlockExact(l, insts, order, ivs, g, s);
    NewOperandsShareIff(insts, order, ivs);
  }
}
