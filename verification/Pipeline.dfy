/** The translator's stages composed, down to allocated code: what a call of a block's code does. */
module Pipeline {
  import opened Options
  import opened Words
  import opened Guest
  import opened HostLayout
  import opened LivenessSpec
  import opened AllocatorSpec
  import opened AllocationCorrect
  import opened Pieces
  import opened SelectorSpec
  import opened SelectorShape
  import opened SelectorTotal
  import opened BranchCode
  import opened BranchReuse
  import opened LiftedBranch
  import opened TargetRegisters
  import opened SharedRegisters
  import opened IR
  import A = Arm64
  import RV = RiscV
  import L = LifterSpec
  import LC = LifterCorrect
  import SC = SelectorCorrect

  /* ---- Allocation, as the translator uses it ---- */

  // A failed scan leaves the code as it is
  function Allocated(code: seq<A.Instruction>, ivs: seq<LiveInterval>): seq<A.Instruction> {
    match Scan(ivs)
    case None => code
    case Some((alloc, _)) => RewriteAll(alloc, code)
  }

  lemma AllocationKeys(code: seq<A.Instruction>, ivs: seq<LiveInterval>, alloc: Allocation)
    requires AreIntervals(code, ivs) && Assigned(ivs, alloc)
    ensures alloc.Keys == DefSites(code).Keys
  {
    hide DefSites, Interval;
    forall v | v in DefSites(code) ensures v in alloc {
      var k :| 0 <= k < |ivs| && ivs[k] == Interval(code, v);
      IntervalNames(code, v);
    }
  }

  lemma AssignedInRange(ivs: seq<LiveInterval>, alloc: Allocation)
    requires Assigned(ivs, alloc)
    ensures InRange(alloc)
  {
  }

  lemma OverlapsSymmetric(a: LiveInterval, b: LiveInterval)
    ensures Overlaps(a, b) == Overlaps(b, a)
  {
  }

  lemma ApartWhenOverlapping(code: seq<A.Instruction>, ivs: seq<LiveInterval>, alloc: Allocation, u: nat, v: nat)
    requires AreIntervals(code, ivs) && Separates(ivs, alloc)
    requires u in DefSites(code) && v in DefSites(code) && u != v && u in alloc && v in alloc
    requires Overlaps(Interval(code, u), Interval(code, v))
    ensures alloc[u] != alloc[v]
  {
    IntervalNames(code, u);
    IntervalNames(code, v);
    OverlapsSymmetric(Interval(code, u), Interval(code, v));
    hide DefSites, Interval, Overlaps;
    var j :| 0 <= j < |ivs| && ivs[j] == Interval(code, u);
    var k :| 0 <= k < |ivs| && ivs[k] == Interval(code, v);
    assert Overlaps(ivs[j], ivs[k]) && Overlaps(ivs[k], ivs[j]);
  }

  /** Linear scan over the intervals of any code, when it succeeds, gives each defined register one
      of X1..X28, and different ones to overlapping intervals. */
  lemma ScanAllocates(code: seq<A.Instruction>, ivs: seq<LiveInterval>)
    requires AreIntervals(code, ivs) && Scannable(ivs) && Scan(ivs).Some?
    ensures Allocates(code, Scan(ivs).value.0)
  {
    hide DefSites, Interval, Scan, ActiveAt, AreIntervals, Scannable, Overlaps, Assigned, Separates;
    var (alloc, active) := Scan(ivs).value;
    ScanInvariant(ivs);
    AllocationKeys(code, ivs, alloc);
    AssignedInRange(ivs, alloc);
    forall u, v | u in alloc && v in alloc && u != v && Overlaps(Interval(code, u), Interval(code, v))
      ensures alloc[u] != alloc[v]
    {
      ApartWhenOverlapping(code, ivs, alloc, u, v);
    }
  }

  /* ---- Selected code ---- */

  lemma SelectedParts(b: Block) returns (body: seq<A.Instruction>)
    requires Selectable(b)
    ensures SelectBlock(INITIAL, b).Some? && SelectedCode(b) == body + [RETURN_INST] && SC.NoReturn(body)
  {
    BlockTotal(b);
    hide SelectAll, SelectExit, WellTyped, Types, AllClean;
    var (st, code) := SelectAll(INITIAL, b.insts).value;
    var exit := SelectExit(st, b.terminator).value.1;
    body := code + exit;
    SC.AllNoReturn(INITIAL, b.insts);
    SC.ExitNoReturn(st, b.terminator);
    assert code + (exit + [RETURN_INST]) == body + [RETURN_INST];
  }

  lemma SelectedPlain(b: Block)
    requires Selectable(b)
    ensures AllClean(SelectedCode(b)) && Plain(SelectedCode(b))
  {
    BlockTotal(b);
    hide SelectBlock, WellTyped, Types, Clean, PlainInst;
    forall k | 0 <= k < |SelectedCode(b)| ensures PlainInst(SelectedCode(b)[k]) { CleanIsPlain(SelectedCode(b)[k]); }
  }

  /** The intervals of every selected block can be scanned, and a scan that succeeds allocates all
      its registers, whatever ids the branch temporaries have. */
  lemma SelectedAllocates(b: Block, ivs: seq<LiveInterval>)
    requires Selectable(b) && AreIntervals(SelectedCode(b), ivs)
    ensures Scannable(ivs)
    ensures Scan(ivs).Some? ==>
              var alloc := Scan(ivs).value.0;
              Allocates(SelectedCode(b), alloc) && AllCovered(alloc, SelectedCode(b)) && Scanned(SelectedCode(b), alloc)
  {
    hide SelectedCode, TwoPieces, AreIntervals, Scannable, Scan, Selectable, DefSites, Apart, Plain, AllClean;
    var a, r := SelectedPieces(b);
    SelectedPlain(b);
    PiecesScannable(a, r, ivs);
    if Scan(ivs).Some? {
      ScanAllocates(SelectedCode(b), ivs);
      PiecesCovered(a, r, Scan(ivs).value.0);
    }
  }

  // The code never writes the link register
  lemma {:induction false} LinkKept(code: seq<A.Instruction>, s: A.State)
    requires AllClean(code)
    ensures A.Read(A.Exec(code, s), A.Phys(A.LINK)) == A.Read(s, A.Phys(A.LINK))
  {
    hide Clean, A.Step;
    if code != [] {
      var n := |code| - 1;
      LinkKept(code[..n], s);
      LinkKeptOnce(code[n], A.Exec(code[..n], s));
    }
  }

  lemma LinkKeptOnce(i: A.Instruction, s: A.State)
    requires Clean(i)
    ensures A.Read(A.Step(i, s), A.Phys(A.LINK)) == A.Read(s, A.Phys(A.LINK))
  {
    CleanIsPlain(i);
    StepWrites(i, s);
    hide A.Step, Written;
  }

  /* ---- Calls ---- */

  // Host memory holds the guest, and X0 points to GuestState
  ghost predicate Ready(l: Layout, s: A.State, g: GuestState) {
    Valid(l) && Represents(l, s.mem, g.x, g.mem) && A.Read(s, A.Phys(A.GUEST_STATE)) == l.state
  }

  // A call has returned with the guest in this state and the next guest address in X0; it wrote
  // nothing else in memory, and left its return address in X30
  ghost predicate Returned(l: Layout, s: A.State, out: Option<A.State>, g: GuestState, pc: Word) {
    out.Some? && Represents(l, out.value.mem, g.x, g.mem) && Confined(l, s.mem, out.value.mem) &&
    A.Read(out.value, A.Phys(A.GUEST_STATE)) == pc && A.Read(out.value, A.Phys(A.LINK)) == A.Read(s, A.Phys(A.LINK))
  }

  lemma SelectedReturns(l: Layout, b: Block, g: GuestState, s: A.State)
    requires Selectable(b) && RunBlock(l.region, b, g).Some? && Ready(l, s, g)
    ensures
      var (g', pc) := RunBlock(l.region, b, g).value;
      Returned(l, s, A.Call(SelectedCode(b), s), g', pc)
  {
    SC.SelectPreservesMeaning(l, b, g, s);
    hide Represents, Confined, Valid, RunBlock, A.Call, SelectBlock, A.Read, Types, WellTyped, Clean, SelectedCode,
      A.Exec;
    SelectedWhole(b);
    var body := SelectedParts(b);
    SelectedPlain(b);
    assert forall k :: 0 <= k < |body| ==> body[k] == SelectedCode(b)[k];
    A.CallRunsBody(body, RETURN_INST, s);
    LinkKept(body, s);
  }

  lemma SameReturn(l: Layout, s: A.State, out: Option<A.State>, out': Option<A.State>, g: GuestState, pc: Word)
    requires Returned(l, s, out, g, pc) && out'.Some? && SameOutside(out.value, out'.value)
    ensures Returned(l, s, out', g, pc)
  {
    hide Represents, Confined, A.Read;
  }

  lemma SafeBody(body: seq<A.Instruction>, alloc: Allocation)
    requires Safe(body + [RETURN_INST], {}, alloc) && Needed(body + [RETURN_INST], {}) == {} &&
             AllCovered(alloc, body + [RETURN_INST])
    ensures Safe(body, {}, alloc) && Needed(body, {}) == {} && AllCovered(alloc, body)
  {
    hide Safe, Needed;
    SafeAppend(body, [RETURN_INST], {}, alloc);
    NeededAppend(body, [RETURN_INST], {});
    NeededOne(RETURN_INST, {});
    CoveredAppend(alloc, body, [RETURN_INST]);
  }

  /** Any block, with any value ids, keeps its meaning under an allocation in which no definition
      overwrites the register of a value that is still needed. */
  lemma SafeReturns(l: Layout, b: Block, g: GuestState, s: A.State, alloc: Allocation)
    requires Selectable(b) && RunBlock(l.region, b, g).Some? && Ready(l, s, g)
    requires Safe(SelectedCode(b), {}, alloc) && Needed(SelectedCode(b), {}) == {}
    requires InRange(alloc) && AllCovered(alloc, SelectedCode(b))
    ensures
      var (g', pc) := RunBlock(l.region, b, g).value;
      Returned(l, s, A.Call(RewriteAll(alloc, SelectedCode(b)), s), g', pc)
  {
    hide Represents, Confined, Valid, RunBlock, A.Call, A.Read, RewriteAll, Types, WellTyped, PlainInst, SelectedCode,
      Clean, Safe, Needed, AllCovered, Returned, Ready, Selectable;
    var code := SelectedCode(b);
    var (g', pc) := RunBlock(l.region, b, g).value;
    SelectedReturns(l, b, g, s);
    var body := SelectedParts(b);
    SelectedPlain(b);
    SafeBody(body, alloc);
    assert SameOutside(s, s);
    SafePreservesMeaning(body, RETURN_INST, alloc, s, s);
    SameReturn(l, s, A.Call(code, s), A.Call(RewriteAll(alloc, code), s), g', pc);
  }

  /* ---- Lifted blocks ---- */

  // The ISA's block, except that RET stops
  ghost function GuestBlock(g: Region, insts: seq<RV.Instruction>, s: GuestState): Option<(GuestState, Word)>
    requires RV.IsBlock(insts) && insts != []
  {
    var (t, pc) :- RV.RunBlock(g, insts, s);
    Some((t, if RV.EndsInTerminator(insts) && RV.IsRet(insts[|insts| - 1]) then 0 else pc))
  }

  // Where the allocated code of a block goes: a branch whose compared values share a register
  // compares that register with itself
  function AllocatedTarget(insts: seq<RV.Instruction>, shared: bool, end: GuestState): Word
    requires RV.IsBlock(insts)
  {
    if shared && EndsInBranch(insts) then
      var last := LastBranch(insts);
      if RV.Taken(last.op, 0, 0) then last.yes else last.no
    else LC.LiftedTarget(insts, end)
  }

  lemma NoBranch(next: ValueId, insts: seq<RV.Instruction>, order: seq<nat>)
    requires RV.IsBlock(insts) && L.IsOrder(order, L.LiftAll(L.Start(next), RV.Straight(insts)).modified) &&
             !EndsInBranch(insts)
    ensures !L.LiftedBlock(next, insts, order).terminator.CondBranch?
  {
    hide L.LiftAll, L.Lifted, L.LiftBranch, L.LinkTo, L.LiftJalr, RV.Straight, L.IsOrder;
  }

  // Code without a conditional branch is window-shaped
  lemma StraightIsSafe(b: Block, alloc: Allocation)
    requires Selectable(b) && !b.terminator.CondBranch? && Allocates(SelectedCode(b), alloc)
    ensures Safe(SelectedCode(b), {}, alloc) && Needed(SelectedCode(b), {}) == {}
  {
    hide Safe, Needed, Apart, WindowShape, SelectBlock, SelectAll, DefSites;
    BlockTotal(b);
    TypedOperandsEarlier(b.insts);
    ShapeIffFresh(b);
    SelectedWhole(b);
    WindowIsSafe(SelectedCode(b), alloc);
  }

  // A block whose compared values have registers of their own
  lemma UnsharedReturns(l: Layout, insts: seq<RV.Instruction>, order: seq<nat>, g: GuestState, s: A.State,
                        alloc: Allocation)
    requires RV.IsBlock(insts) && L.IsOrder(order, Modified(insts))
    requires
      var b := L.LiftedBlock(1, insts, order);
      && RunBlock(l.region, b, g).Some? && Ready(l, s, g) && Allocates(SelectedCode(b), alloc) &&
        AllCovered(alloc, SelectedCode(b))
      && !SharedOperands(b, alloc)
    ensures
      var b := L.LiftedBlock(1, insts, order);
      var (g', pc) := RunBlock(l.region, b, g).value;
      Returned(l, s, A.Call(RewriteAll(alloc, SelectedCode(b)), s), g', pc)
  {
    hide L.LiftAll, L.LiftedBlock, L.IsOrder, RV.IsBlock, RunBlock, Ready, Returned, SelectedCode, AllCovered,
      SharedOperands, RewriteAll, A.Call, Selectable, EndsInCompare, Compared, Numbered, Share, Safe, Needed, Apart,
      RegisterOf, DefSites, EndsInBranch;
    var b := L.LiftedBlock(1, insts, order);
    LiftedSelectable(1, insts, order);
    if EndsInBranch(insts) {
      var pre, fetched, op, x, y := BranchLifts(insts, order);
      TargetsComeAfter(b, pre, fetched, op, x, y, Lead(insts));
      SharedIsShare(b, pre, fetched, op, x, y, alloc);
      UnsharedIsSafe(b, pre, fetched, op, x, y, alloc);
    } else {
      NoBranch(1, insts, order);
      StraightIsSafe(b, alloc);
    }
    SafeReturns(l, b, g, s, alloc);
  }

  // A branch whose compared values share a register
  lemma SharedReturns(l: Layout, insts: seq<RV.Instruction>, order: seq<nat>, g: GuestState, s: A.State,
                      alloc: Allocation)
    requires RV.IsBlock(insts) && L.IsOrder(order, Modified(insts)) && EndsInBranch(insts)
    requires
      var b := L.LiftedBlock(1, insts, order);
      && RunBlock(l.region, b, g).Some? && Ready(l, s, g) && Allocates(SelectedCode(b), alloc) &&
        AllCovered(alloc, SelectedCode(b))
      && SharedOperands(b, alloc)
    ensures
      var b, last := L.LiftedBlock(1, insts, order), LastBranch(insts);
      var (g', _) := RunBlock(l.region, b, g).value;
      RV.IsBranch(last.op) &&
      Returned(l, s, A.Call(RewriteAll(alloc, SelectedCode(b)), s), g',
               if RV.Taken(last.op, 0, 0) then last.yes else last.no)
  {
    hide L.LiftAll, L.LiftedBlock, L.IsOrder, RV.IsBlock, RunBlock, Ready, Returned, SelectedCode, AllCovered,
      SharedOperands, RewriteAll, A.Call, Selectable, EndsInCompare, Compared, Numbered, Share, Safe, Needed, Apart,
      RegisterOf, DefSites, EndsInBranch, LastBranch, Compare, RV.Taken, SelfBlock;
    var b := L.LiftedBlock(1, insts, order);
    LiftedSelectable(1, insts, order);
    var pre, fetched, op, x, y := BranchLifts(insts, order);
    TargetsComeAfter(b, pre, fetched, op, x, y, Lead(insts));
    SharedIsShare(b, pre, fetched, op, x, y, alloc);
    SharedIsSelf(b, pre, fetched, op, x, y, alloc);
    ComparisonLength(b, pre, fetched, op, x, y);
    var o := fetched[|fetched| - 1].id;
    LastReadCompared(pre, fetched, x, y);
    SelfRuns(l.region, b, pre, fetched, op, x, y, o, g);
    LC.CompareTable(LastBranch(insts).op, 0, 0);
    SafeReturns(l, SelfBlock(b, pre, fetched, op, o), g, s, alloc);
  }

  lemma LastReadCompared(pre: seq<Inst>, fetched: seq<Inst>, x: ValueId, y: ValueId)
    requires Compared(pre, fetched, x, y) && fetched != []
    ensures fetched[|fetched| - 1].id == x || fetched[|fetched| - 1].id == y
  {
    hide Types;
  }

  /** What the allocated code of a block does, for every block: called with X0 at GuestState it
      leaves the registers and guest memory that the instructions give one by one, changes nothing
      else in host memory, and goes to the block's target, unless the compared values of its
      branch share a register. */
  lemma BlockExact(l: Layout, insts: seq<RV.Instruction>, order: seq<nat>, ivs: seq<LiveInterval>, g: GuestState,
                   s: A.State)
    requires RV.IsBlock(insts) && L.IsOrder(order, Modified(insts)) && Ready(l, s, g)
    requires AreIntervals(SelectedCode(L.LiftedBlock(1, insts, order)), ivs) && Scan(ivs).Some?
    requires RV.EndState(l.region, insts, g).Some?
    ensures
      var b, end := L.LiftedBlock(1, insts, order), RV.EndState(l.region, insts, g).value;
      var shared := SharedOperands(b, Scan(ivs).value.0);
      Returned(l, s, A.Call(Allocated(SelectedCode(b), ivs), s), end, AllocatedTarget(insts, shared, end))
  {
    hide L.LiftAll, L.IsOrder, RV.IsBlock, RunBlock, Ready, Returned, SelectedCode, AllCovered, SharedOperands,
      RewriteAll, A.Call, Selectable, Apart, DefSites, EndsInBranch, LastBranch, RV.EndState, LC.LiftedTarget,
      AreIntervals, Scan, L.LiftBlock, Scanned, Allocates, RV.Taken;
    LC.LiftPreservesMeaning(l.region, 1, insts, order, g);
    var b, alloc := L.LiftedBlock(1, insts, order), Scan(ivs).value.0;
    LiftedSelectable(1, insts, order);
    SelectedAllocates(b, ivs);
    if SharedOperands(b, alloc) && EndsInBranch(insts) {
      SharedReturns(l, insts, order, g, s, alloc);
    } else {
      if !EndsInBranch(insts) { NoBranchNotShared(insts, order, alloc); }
      UnsharedReturns(l, insts, order, g, s, alloc);
    }
  }

  lemma NoBranchNotShared(insts: seq<RV.Instruction>, order: seq<nat>, alloc: Allocation)
    requires RV.IsBlock(insts) && L.IsOrder(order, Modified(insts)) && !EndsInBranch(insts)
    ensures !SharedOperands(L.LiftedBlock(1, insts, order), alloc)
  {
    hide L.LiftAll, L.LiftedBlock, L.IsOrder, RV.IsBlock, EndsInBranch, RegisterOf, Share;
    NoBranch(1, insts, order);
  }

  /* ---- Blocks lifted with any ids ---- */

  /** With value ids that start anywhere, the allocated code of a block is right when no definition in
      it overwrites the register of a value that is still needed. */
  lemma SafeBlockCorrect(l: Layout, next: ValueId, insts: seq<RV.Instruction>, order: seq<nat>, ivs: seq<LiveInterval>,
                         g: GuestState, s: A.State)
    requires RV.IsBlock(insts) && L.IsOrder(order, L.LiftAll(L.Start(next), RV.Straight(insts)).modified) &&
             Ready(l, s, g)
    requires RV.EndState(l.region, insts, g).Some?
    requires
      var code := SelectedCode(L.LiftedBlock(next, insts, order));
      AreIntervals(code, ivs) && Scan(ivs).Some? && Safe(code, {}, Scan(ivs).value.0) && Needed(code, {}) == {}
    ensures
      var end := RV.EndState(l.region, insts, g).value;
      Returned(l, s, A.Call(Allocated(SelectedCode(L.LiftedBlock(next, insts, order)), ivs), s), end,
               LC.LiftedTarget(insts, end))
  {
    hide L.LiftAll, L.IsOrder, RV.IsBlock, RunBlock, Ready, Returned, SelectedCode, AllCovered, RewriteAll, A.Call,
      Selectable, Apart, DefSites, RV.EndState, LC.LiftedTarget, AreIntervals, Scan, L.LiftBlock, Scanned, Safe,
      Needed;
    LC.LiftPreservesMeaning(l.region, next, insts, order, g);
    var b := L.LiftedBlock(next, insts, order);
    LiftedSelectable(next, insts, order);
    SelectedAllocates(b, ivs);
    SafeReturns(l, b, g, s, Scan(ivs).value.0);
  }

  /** In particular when the ids of the branch targets are new. */
  lemma FreshIsSafe(b: Block, ivs: seq<LiveInterval>)
    requires Selectable(b) && AreIntervals(SelectedCode(b), ivs) && Scan(ivs).Some? && SelectAll(INITIAL, b.insts).Some?
    requires FreshTargets(SelectAll(INITIAL, b.insts).value.0, b.terminator)
    ensures Safe(SelectedCode(b), {}, Scan(ivs).value.0) && Needed(SelectedCode(b), {}) == {}
  {
    hide Safe, Needed, Apart, WindowShape, SelectBlock, SelectAll, DefSites, FreshTargets, Scan, AreIntervals,
      SelectedCode, AllCovered, Scanned;
    SelectedAllocates(b, ivs);
    BlockTotal(b);
    TypedOperandsEarlier(b.insts);
    ShapeIffFresh(b);
    SelectedWhole(b);
    WindowIsSafe(SelectedCode(b), Scan(ivs).value.0);
  }
}
