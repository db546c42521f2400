/** Exactly when the two compared values of a lifted branch end up in one register. */
module SharedRegisters {
  import opened Options
  import opened Words
  import opened Guest
  import opened IR
  import opened LivenessSpec
  import opened AllocatorSpec
  import opened AllocationCorrect
  import opened SelectorSpec
  import opened SelectorShape
  import opened Pieces
  import opened BranchCode
  import opened BranchReuse
  import opened LiftedBranch
  import opened TargetRegisters
  import A = Arm64
  import SC = SelectorCorrect

  lemma InjectiveRegisters(st: SState, x: ValueId, y: ValueId)
    requires SC.WellNumbered(st) && x in st.vregs && y in st.vregs && x != y
    ensures st.vregs[x] != st.vregs[y] && st.vregs[x] < st.next && st.vregs[y] < st.next
  {
  }

  // What the scan gives the targets, whose second piece defines the registers r
  ghost predicate TargetsHold(st: SState, r: set<nat>, alloc: Allocation) {
    var (_, yes, no) := Targets(st);
    && (forall v :: v < st.next ==> (v in r <==> v == yes || v == no))
    && yes in alloc && no in alloc && alloc[yes] == FIRST && alloc[no] == FIRST + 1
  }

  // Of two values read for the comparison, the first one that no target takes gets X1
  ghost predicate ReadsHold(x: nat, y: nat, r: set<nat>, alloc: Allocation) {
    && (x !in r ==> x in alloc && alloc[x] == FIRST)
    && (x in r && y !in r ==> y in alloc && alloc[y] == FIRST)
  }

  lemma CompareRegisters(b: Block, pre: seq<Inst>, fetched: seq<Inst>, op: BinaryOpcode, x: ValueId, y: ValueId,
                         alloc: Allocation)
    returns (st: SState, r: set<nat>)
    requires Selectable(b) && EndsInCompare(b, pre, fetched, op, x, y) && Compared(pre, fetched, x, y)
    requires Scanned(SelectedCode(b), alloc)
    ensures SelectAll(INITIAL, b.insts).Some? && st == SelectAll(INITIAL, b.insts).value.0 && SC.WellNumbered(st)
    ensures x in st.vregs && y in st.vregs && TargetsHold(st, r, alloc)
    ensures |fetched| == 2 ==> ReadsHold(st.vregs[x], st.vregs[y], r, alloc)
  {
    hide SelectAll, SelectedCode, TwoPieces, Static, CompareCode, Choose, Test, Types, WellTyped, Ordered, DefSites,
      ReadInto, SC.WellNumbered, IsReader, Scanned, Later, Grew, IsReadOf, Targets, Selectable, ReadsHold,
      EndsInCompare, Compared;
    var st0, base, st1, mid, tail, r';
    st0, base, st1, mid, st, tail, r' := CompareParts(b, pre, fetched, op, x, y);
    ComparisonLength(b, pre, fetched, op, x, y);
    TargetsDistinct(st);
    var (st2, u, n) := Targets(st);
    r := DefSites(r').Keys;
    TargetsGetFirstTwo(base + tail, u, n, st2.next, b.terminator.trueTarget, b.terminator.falseTarget, alloc);
    OperandsThere(st0, st1, st, b.terminator.cond, x, y);
    if |fetched| == 2 {
      DistinctOperands(b, pre, fetched, op, x, y);
      ThreeRegisters(st1, st, b.terminator.cond, x, y);
      TwoReadInto(st, fetched, mid, pre, x, y, st1.next);
      ReadsAllocated(base, mid, st.vregs[x], st.vregs[y], st1.next, ConditionOf(op).value, r', alloc);
    }
  }

  lemma DistinctOperands(b: Block, pre: seq<Inst>, fetched: seq<Inst>, op: BinaryOpcode, x: ValueId, y: ValueId)
    requires Selectable(b) && EndsInCompare(b, pre, fetched, op, x, y) && Compared(pre, fetched, x, y) && |fetched| == 2
    ensures x != y
  {
    DistinctReads(b, pre, fetched, op, x, y);
  }

  lemma TwoReadInto(st: SState, fetched: seq<Inst>, mid: seq<A.Instruction>, pre: seq<Inst>, x: ValueId, y: ValueId,
                    c: nat)
    requires ReadInto(st, fetched, mid) && Compared(pre, fetched, x, y) && |fetched| == 2
    requires x in st.vregs && y in st.vregs && st.vregs[x] != st.vregs[y] && c != st.vregs[x] && c != st.vregs[y]
    ensures |mid| == 2 && ReadsTwo(mid[0], mid[1], st.vregs[x], st.vregs[y], c)
  {
    hide IsReadOf;
  }

  lemma OperandsThere(st0: SState, st1: SState, st: SState, c: ValueId, x: ValueId, y: ValueId)
    requires Grew(st1, st, c) && x in st1.vregs && y in st1.vregs
    ensures x in st.vregs && y in st.vregs
  {
  }

  lemma ReadsAllocated(base: seq<A.Instruction>, mid: seq<A.Instruction>, x: nat, y: nat, c: nat, cond: A.Condition,
                       r: seq<A.Instruction>, alloc: Allocation)
    requires |mid| == 2 && ReadsTwo(mid[0], mid[1], x, y, c)
    requires var a := base + (mid + CompareCode(x, y, c, cond)); TwoPieces(a, r) && Scanned(a + r, alloc)
    ensures ReadsHold(x, y, DefSites(r).Keys, alloc)
  {
    hide DefSites, TwoPieces, Scanned, Alone, ReadsTwo, CompareCode;
    assert mid == [mid[0], mid[1]];
    var code := base + (mid + CompareCode(x, y, c, cond)) + r;
    ReadsAlone(base, mid[0], mid[1], x, y, c, cond, r);
    if x !in DefSites(r) { AloneInFirst(code, x, alloc); }
    if x in DefSites(r) && y !in DefSites(r) { AloneInFirst(code, y, alloc); }
  }

  lemma ThreeRegisters(st1: SState, st: SState, c: ValueId, x: ValueId, y: ValueId)
    requires Grew(st1, st, c) && SC.WellNumbered(st) && x in st1.vregs && y in st1.vregs && x != y
    ensures x in st.vregs && y in st.vregs && st.vregs[x] != st.vregs[y] && st1.next != st.vregs[x] &&
            st1.next != st.vregs[y]
  {
    assert st.vregs[c] == st1.next;
  }

  /* ---- Two values read ---- */

  // Which of two values read the targets take
  lemma TakenOfTwo(b: Block, pre: seq<Inst>, fetched: seq<Inst>, op: BinaryOpcode, x: ValueId, y: ValueId, lead: int,
                   st: SState)
    requires Selectable(b) && EndsInCompare(b, pre, fetched, op, x, y) && Compared(pre, fetched, x, y) &&
             Numbered(b, pre, lead)
    requires |fetched| == 2 && st == SelectAll(INITIAL, b.insts).value.0 && SC.WellNumbered(st) && x in st.vregs &&
             y in st.vregs
    ensures
      var (_, yes, no) := Targets(st);
      && (yes == st.vregs[x] <==> lead == 2) && (yes == st.vregs[y] <==> lead == 1)
      && (no == st.vregs[x] <==> lead == 4) && (no == st.vregs[y] <==> lead == 2 || lead == 3)
  {
    ComparisonIds(b, pre, fetched, op, x, y);
    TargetIds(b, pre, fetched, op, x, y, lead);
    assert x == |pre| + 1 && y == |pre| + 2 && |b.insts| == |pre| + 3;
    hide SelectAll, EndsInCompare, Compared, Selectable, Targets, Types, FromOne;
  }

  /** Of two values that are both read for the comparison, both are in X1 exactly when the ids lead
      by 1: then the taken target has the register of the second one, and the interval of that
      value begins only at the target. */
  lemma TwoReadsShareIff(b: Block, pre: seq<Inst>, fetched: seq<Inst>, op: BinaryOpcode, x: ValueId, y: ValueId,
                         lead: int,
                         alloc: Allocation)
    requires Selectable(b) && EndsInCompare(b, pre, fetched, op, x, y) && Compared(pre, fetched, x, y) &&
             Numbered(b, pre, lead)
    requires Scanned(SelectedCode(b), alloc) && Allocates(SelectedCode(b), alloc) && |fetched| == 2
    ensures Share(alloc, RegisterOf(b, x), RegisterOf(b, y)) <==> lead == 1
  {
    hide SelectAll, EndsInCompare, Compared, Selectable, Targets, SelectedCode, Scanned, Allocates, Numbered, Types;
    var st, r := CompareRegisters(b, pre, fetched, op, x, y, alloc);
    TakenOfTwo(b, pre, fetched, op, x, y, lead, st);
    DistinctOperands(b, pre, fetched, op, x, y);
    BelowNext(st, x, y);
    InjectiveRegisters(st, x, y);
    if lead < 1 || lead > 4 { KeptOperandsApart(b, pre, fetched, op, x, y, alloc); }
  }

  /* ---- One value read ---- */

  // When the targets take the one value read
  lemma TakenOfOne(b: Block, pre: seq<Inst>, fetched: seq<Inst>, op: BinaryOpcode, x: ValueId, y: ValueId, lead: int,
                   st: SState)
    requires Selectable(b) && EndsInCompare(b, pre, fetched, op, x, y) && Compared(pre, fetched, x, y) &&
             Numbered(b, pre, lead)
    requires |fetched| == 1 && st == SelectAll(INITIAL, b.insts).value.0 && SC.WellNumbered(st) && x in st.vregs &&
             y in st.vregs
    ensures
      var (_, yes, no) := Targets(st);
      && (yes == st.vregs[fetched[0].id] <==> lead == 1) && (no == st.vregs[fetched[0].id] <==> lead == 3)
      && forall id :: id in Types(pre) && id in st.vregs ==> yes != st.vregs[id] && no != st.vregs[id]
  {
    ComparisonIds(b, pre, fetched, op, x, y);
    TargetIds(b, pre, fetched, op, x, y, lead);
    hide SelectAll, EndsInCompare, Selectable, Targets, Types, FromOne;
  }

  // The other operand
  function Other(fetched: seq<Inst>, x: ValueId, y: ValueId): ValueId
    requires fetched != []
  {
    if x == fetched[0].id then y else x
  }

  predicate IsIn(alloc: Allocation, v: nat, r: nat) { v in alloc && alloc[v] == r }

  /** When one value is read for the comparison, it shares with the other operand exactly when the
      taken target has its register and the other operand is in X1, or the other target has and
      the operand is in X2. */
  lemma OneReadShareIff(b: Block, pre: seq<Inst>, fetched: seq<Inst>, op: BinaryOpcode, x: ValueId, y: ValueId,
                        lead: int,
                        alloc: Allocation)
    requires Selectable(b) && EndsInCompare(b, pre, fetched, op, x, y) && Compared(pre, fetched, x, y) &&
             Numbered(b, pre, lead)
    requires Scanned(SelectedCode(b), alloc) && Allocates(SelectedCode(b), alloc) && |fetched| == 1
    ensures
      var w := RegisterOf(b, Other(fetched, x, y));
      Share(alloc, RegisterOf(b, x), RegisterOf(b, y)) <==>
      x != y && ((lead == 1 && IsIn(alloc, w, FIRST)) || (lead == 3 && IsIn(alloc, w, FIRST + 1)))
  {
    hide SelectAll, EndsInCompare, Selectable, Targets, SelectedCode, Scanned, Allocates, Numbered, Types;
    var st, r := CompareRegisters(b, pre, fetched, op, x, y, alloc);
    TakenOfOne(b, pre, fetched, op, x, y, lead, st);
    BelowNext(st, x, y);
    if x != y {
      InjectiveRegisters(st, x, y);
      if lead != 1 && lead != 3 { KeptOperandsApart(b, pre, fetched, op, x, y, alloc); }
    }
  }

  /* ---- What the block then does ---- */

  // The compared values of a block that ends in a conditional branch share a register
  predicate SharedOperands(b: Block, alloc: Allocation) {
    b.terminator.CondBranch? && b.insts != [] &&
    var k := b.insts[|b.insts| - 1].kind;
    k.BinaryOp? && Share(alloc, RegisterOf(b, k.lhs), RegisterOf(b, k.rhs))
  }

  lemma SharedIsShare(b: Block, pre: seq<Inst>, fetched: seq<Inst>, op: BinaryOpcode, x: ValueId, y: ValueId,
                      alloc: Allocation)
    requires EndsInCompare(b, pre, fetched, op, x, y)
    ensures SharedOperands(b, alloc) == Share(alloc, RegisterOf(b, x), RegisterOf(b, y))
  {
    hide Share, RegisterOf, IsReader;
    assert b.insts[|b.insts| - 1] == Inst(b.terminator.cond, BinaryOp(op, I1, x, y));
  }

  lemma SelfCompare(op: BinaryOpcode, v: Word)
    requires IsComparison(op)
    ensures Compare(op, v, v) == Compare(op, 0, 0)
  {
  }

  lemma RunCompare(g: Region, insts: seq<Inst>, c: ValueId, op: BinaryOpcode, x: ValueId, y: ValueId, yes: Word,
                   no: Word,
                   s: GuestState)
    requires IsComparison(op) && Exec(g, insts, Enter(s)).Some?
    requires
      var t := Exec(g, insts, Enter(s)).value;
      Is(EnvTypes(t), x, I64) && Is(EnvTypes(t), y, I64)
    ensures
      var t := Exec(g, insts, Enter(s)).value;
      RunBlock(g, Block(insts + [Inst(c, BinaryOp(op, I1, x, y))], CondBranch(c, yes, no)), s) ==
      Some((GuestState(t.x, t.mem), if Compare(op, t.env[x].bits, t.env[y].bits) then yes else no))
  {
    hide Exec, Compare;
    ExecSnoc(g, insts, Inst(c, BinaryOp(op, I1, x, y)), Enter(s));
  }

  // The block that compares a value with itself takes the branch exactly when the comparison is
  // reflexive
  lemma SelfRuns(g: Region, b: Block, pre: seq<Inst>, fetched: seq<Inst>, op: BinaryOpcode, x: ValueId, y: ValueId,
                 o: ValueId,
                 s: GuestState)
    requires EndsInCompare(b, pre, fetched, op, x, y) && (o == x || o == y) && RunBlock(g, b, s).Some?
    ensures
      RunBlock(g, SelfBlock(b, pre, fetched, op, o), s) ==
      Some((RunBlock(g, b, s).value.0, if Compare(op, 0, 0) then b.terminator.trueTarget else b.terminator.falseTarget))
  {
    var c, insts := b.terminator.cond, pre + fetched;
    var cmp := Inst(c, BinaryOp(op, I1, x, y));
    ExecSnoc(g, insts, cmp, Enter(s));
    assert b.insts == insts + [cmp];
    var t := Exec(g, insts, Enter(s)).value;
    CompareTyped(g, cmp, op, x, y, t);
    hide Exec, Compare, IsReader, RunBlock;
    RunCompare(g, insts, c, op, x, y, b.terminator.trueTarget, b.terminator.falseTarget, s);
    RunCompare(g, insts, c, op, o, o, b.terminator.trueTarget, b.terminator.falseTarget, s);
    SelfCompare(op, t.env[o].bits);
    assert b == Block(insts + [cmp], CondBranch(c, b.terminator.trueTarget, b.terminator.falseTarget));
  }

  lemma CompareTyped(g: Region, cmp: Inst, op: BinaryOpcode, x: ValueId, y: ValueId, t: IR.State)
    requires cmp.kind == BinaryOp(op, I1, x, y) && IsComparison(op) && Step(g, cmp, t).Some?
    ensures Is(EnvTypes(t), x, I64) && Is(EnvTypes(t), y, I64)
  {
  }
}
