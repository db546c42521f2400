/** Conditional branches as the lifter ends a block with them: what is read for the comparison, and
    which values the ids of the two targets fall on. */
module LiftedBranch {
  import opened Words
  import opened Guest
  import opened IR
  import opened LifterSpec
  import opened SelectorSpec
  import opened SelectorShape
  import opened SelectorTotal
  import opened BlockTally
  import opened BranchCode
  import opened BranchReuse
  import opened LivenessSpec
  import opened Pieces
  import RV = RiscV
  import SC = SelectorCorrect
  import LC = LifterCorrect

  /* ---- What is read for the comparison ---- */

  // Reading the register emits an instruction
  predicate Emits(cached: set<nat>, r: RegNum) { r == 0 || r !in cached }

  // The values read to compare two registers
  function Fetches(cached: set<nat>, rs1: RegNum, rs2: RegNum): nat {
    (if Emits(cached, rs1) then 1 else 0) + (if Emits(cached + {rs1}, rs2) then 1 else 0)
  }

  lemma FetchOne(l: LState, r: RegNum) returns (read: seq<Inst>)
    requires WellFormed(l)
    ensures
      var (l', id) := GetReg(l, r);
      && l'.code == l.code + read && l'.modified == l.modified && l'.cache.Keys == l.cache.Keys + ({r} - {0})
      && (if Emits(l.cache.Keys, r) then read == [Inst(id, read[0].kind)] && IsReader(read[0].kind)
          else read == [] && l' == l && id == l.cache[r])
      && (r != 0 ==> l'.cache[r] == id) && forall q :: q in l.cache && q != r ==> l'.cache[q] == l.cache[q]
  {
    hide WellFormed, Types;
    read := GetReg(l, r).0.code[|l.code|..];
    if !Emits(l.cache.Keys, r) { assert l.code + [] == l.code; }
  }

  lemma CachedValue(l: LState, r: RegNum)
    requires WellFormed(l) && r in l.cache
    ensures l.cache[r] in Types(l.code) && r != 0
  {
    hide Types;
  }

  // Reading two registers for a comparison
  lemma ReadsFor(l: LState, rs1: RegNum, rs2: RegNum) returns (fetched: seq<Inst>)
    requires WellFormed(l)
    ensures
      var (l1, x) := GetReg(l, rs1);
      var (l2, y) := GetReg(l1, rs2);
      && l2.code == l.code + fetched && Compared(l.code, fetched, x, y)
      && |fetched| == Fetches(l.cache.Keys, rs1, rs2)
      && forall k :: 0 <= k < |fetched| ==> IsReader(fetched[k].kind)
  {
    hide WellFormed, Types, GetReg, IsReader;
    var first := FetchOne(l, rs1);
    var (l1, x) := GetReg(l, rs1);
    var second := FetchOne(l1, rs2);
    fetched := first + second;
    assert l.code + first + second == l.code + fetched;
    if !Emits(l.cache.Keys, rs1) { CachedValue(l, rs1); }
    if rs2 in l.cache { CachedValue(l, rs2); }
  }

  lemma CachedOperands(l: LState, rs1: RegNum, rs2: RegNum)
    requires WellFormed(l)
    ensures
      var (l1, x) := GetReg(l, rs1);
      (rs1 in l.cache ==> x == l.cache[rs1]) && (rs2 in l.cache ==> GetReg(l1, rs2).1 == l.cache[rs2])
  {
    hide WellFormed, Types, GetReg, IsReader;
    var first := FetchOne(l, rs1);
    var second := FetchOne(GetReg(l, rs1).0, rs2);
    if rs1 in l.cache { CachedValue(l, rs1); }
    if rs2 in l.cache { CachedValue(l, rs2); }
  }

  // The comparison at the end of a lifted branch
  lemma BranchParts(l: LState, op: BinaryOpcode, rs1: RegNum, rs2: RegNum, yes: Word, no: Word)
    returns (fetched: seq<Inst>, x: ValueId, y: ValueId)
    requires WellFormed(l) && IsComparison(op)
    ensures
      var (l', term) := LiftBranch(l, op, rs1, rs2, yes, no);
      && EndsInCompare(Block(l'.code, term), l.code, fetched, op, x, y) && Compared(l.code, fetched, x, y)
      && |fetched| == Fetches(l.cache.Keys, rs1, rs2) && term.trueTarget == yes && term.falseTarget == no
      && (rs1 in l.cache ==> x == l.cache[rs1]) && (rs2 in l.cache ==> y == l.cache[rs2])
  {
    hide WellFormed, Types, GetReg, IsReader, Compared, Fetches;
    fetched := ReadsFor(l, rs1, rs2);
    CachedOperands(l, rs1, rs2);
    x := GetReg(l, rs1).1;
    y := GetReg(GetReg(l, rs1).0, rs2).1;
  }

  /* ---- Lifted blocks that end in a branch ---- */

  predicate EndsInBranch(insts: seq<RV.Instruction>) {
    RV.EndsInTerminator(insts) && RV.IsBranch(insts[|insts| - 1].opcode)
  }

  // The registers in the cache, and those to be written back, after the straight-line part
  ghost function Cached(insts: seq<RV.Instruction>): set<nat>
    requires RV.IsBlock(insts)
  {
    LiftAll(Start(1), RV.Straight(insts)).cache.Keys
  }

  ghost function Modified(insts: seq<RV.Instruction>): set<nat>
    requires RV.IsBlock(insts)
  {
    LiftAll(Start(1), RV.Straight(insts)).modified
  }

  // By how much the value ids are ahead of the register counter: a written register takes an id
  // and no register, a load three registers more than ids, a store two
  ghost function Lead(insts: seq<RV.Instruction>): int
    requires RV.IsBlock(insts)
  {
    var t := GuestTally(insts);
    |Modified(insts)| - 3 * t.loads - 2 * t.stores
  }

  predicate FromOne(insts: seq<Inst>) { forall k :: 0 <= k < |insts| ==> insts[k].id == 1 + k }

  // The block numbers its values from 1, the values before the branch all below the register counter
  ghost predicate Numbered(b: Block, pre: seq<Inst>, lead: int) {
    && FromOne(b.insts) && SelectAll(INITIAL, b.insts).Some?
    && SelectAll(INITIAL, b.insts).value.0.next == |b.insts| - lead
    && forall id :: id in Types(pre) ==> id < |b.insts| - lead
  }

  lemma WriteDeclaresNothing(l: LState, r: nat)
    requires WellFormed(l) && r in l.cache
    ensures Typed(Types(l.code), RegWrite(r, l.cache[r]))
    ensures
      var l' := AddInst(l, RegWrite(r, l.cache[r])).0;
      Types(l'.code) == Types(l.code) && |l'.code| == |l.code| + 1
  {
    CachedTyped(l, r);
    hide WellFormed, Types, Typed, Keeps;
    Snoc(l.code, Inst(l.next, RegWrite(r, l.cache[r])));
  }

  lemma {:induction false} WriteBackTypes(l: LState, order: seq<nat>)
    requires WellFormed(l) && forall r :: r in order ==> r in l.cache
    ensures Types(WriteBack(l, order).code) == Types(l.code) && |WriteBack(l, order).code| == |l.code| + |order|
  {
    hide WellFormed, Types, Keeps, Typed, AddInst;
    if order != [] {
      var n := |order| - 1;
      WriteBackTypes(l, order[..n]);
      var l1 := WriteBack(l, order[..n]);
      WriteDeclaresNothing(l1, order[n]);
    }
  }

  lemma DenseFromOne(l: LState, term: Terminator, t: Tally)
    requires Dense(1, l, t) && WellTyped(l.code) && Ordered(l.code)
    ensures FromOne(l.code) && SelectAll(INITIAL, l.code).Some?
    ensures SelectAll(INITIAL, l.code).value.0.next == |l.code| - (t.writes - 3 * t.loads - 2 * t.stores)
  {
    Counter(l.code);
    hide SelectAll, WellTyped, TallyOf;
  }

  lemma DenseCounts(l: LState, t: Tally)
    requires WellFormed(l) && Dense(1, l, t)
    ensures forall id :: id in Types(l.code) ==> id <= |l.code|
  {
    hide Types, TallyOf;
  }

  // The values before the write-back have ids up to its start
  lemma ValuesBeforeWriteBack(insts: seq<RV.Instruction>, order: seq<nat>)
    requires RV.IsBlock(insts) && IsOrder(order, Modified(insts))
    ensures
      var l := Lifted(1, insts, order);
      l.cache.Keys == Cached(insts) && forall id :: id in Types(l.code) ==> id <= |l.code| - |Modified(insts)|
  {
    hide LiftAll, WriteBack, Dense, GuestTally, RV.Straight, Types, WellFormed, IsOrder;
    var straight := RV.Straight(insts);
    LC.StraightFacts(insts);
    StartWellFormed(1);
    var t := LiftedDense(1, straight, order);
    var l0 := LiftAll(Start(1), straight);
    WriteBackTypes(l0, order);
    AllDense(1, straight);
    DenseCounts(l0, GuestTally(straight));
    OrderLength(order, l0.modified);
  }

  // The conditional branch of a block
  datatype Jump = Jump(op: RV.Opcode, rs1: RegNum, rs2: RegNum, yes: Word, no: Word)

  function LastBranch(insts: seq<RV.Instruction>): Jump
    requires RV.IsBlock(insts) && EndsInBranch(insts)
  {
    var last := insts[|insts| - 1];
    assert RV.Supported(last);
    Jump(last.opcode, last.GetRegister(0), last.GetRegister(1), Add(last.address, ToWord(last.GetImmediate(2))),
           Add(last.address, 4))
  }

  // A lifted branch: the code before it, the values it reads and its comparison
  ghost predicate LiftsBranch(insts: seq<RV.Instruction>, b: Block, pre: seq<Inst>, fetched: seq<Inst>,
                              op: BinaryOpcode,
                              x: ValueId, y: ValueId)
    requires RV.IsBlock(insts) && EndsInBranch(insts)
  {
    hide LastBranch, EndsInCompare, Compared, Numbered;
    var last := LastBranch(insts);
    && EndsInCompare(b, pre, fetched, op, x, y) && Compared(pre, fetched, x, y) && Numbered(b, pre, Lead(insts))
    && RV.IsBranch(last.op) && op == CompareOf(last.op) && |fetched| == Fetches(Cached(insts), last.rs1, last.rs2)
    && b.terminator.CondBranch? && b.terminator.trueTarget == last.yes && b.terminator.falseTarget == last.no
  }

  lemma LiftedSelectable(next: ValueId, insts: seq<RV.Instruction>, order: seq<nat>)
    requires RV.IsBlock(insts) && IsOrder(order, LiftAll(Start(next), RV.Straight(insts)).modified)
    ensures Selectable(LiftedBlock(next, insts, order))
  {
    hide LiftBlock, LiftAll, RV.Straight, IsOrder, RV.IsBlock, Types, WellTyped;
  }

  lemma BranchLifts(insts: seq<RV.Instruction>, order: seq<nat>)
    returns (pre: seq<Inst>, fetched: seq<Inst>, op: BinaryOpcode, x: ValueId, y: ValueId)
    requires RV.IsBlock(insts) && IsOrder(order, Modified(insts)) && EndsInBranch(insts)
    ensures LiftsBranch(insts, LiftedBlock(1, insts, order), pre, fetched, op, x, y)
    ensures
      var l, last := Lifted(1, insts, order), LastBranch(insts);
      && pre == l.code && (last.rs1 in l.cache ==> x == l.cache[last.rs1])
      && (last.rs2 in l.cache ==> y == l.cache[last.rs2])
  {
    hide LiftAll, WriteBack, Dense, GuestTally, RV.Straight, Types, WellFormed, IsOrder, EndsInCompare, Compared,
      Fetches, SelectAll, CompareOf, LiftBranch, WellTyped, Ordered;
    var b, last := LiftedBlock(1, insts, order), LastBranch(insts);
    var l := Lifted(1, insts, order);
    op, pre := CompareOf(last.op), l.code;
    fetched, x, y := BranchParts(l, op, last.rs1, last.rs2, last.yes, last.no);
    ValuesBeforeWriteBack(insts, order);
    var t := BlockCounted(1, insts, order);
    LiftedSelectable(1, insts, order);
    DenseFromOne(LiftBlock(1, insts, order).0, b.terminator, t);
    ComparisonLength(b, pre, fetched, op, x, y);
  }

  lemma ComparisonLength(b: Block, pre: seq<Inst>, fetched: seq<Inst>, op: BinaryOpcode, x: ValueId, y: ValueId)
    requires EndsInCompare(b, pre, fetched, op, x, y)
    ensures |b.insts| == |pre| + |fetched| + 1 && b.terminator.CondBranch?
  {
  }

  /* ---- The ids of the targets ---- */

  lemma {:induction false} ReadersTyped(pre: seq<Inst>, fetched: seq<Inst>)
    requires FromOne(pre + fetched) && forall k :: 0 <= k < |fetched| ==> IsReader(fetched[k].kind)
    ensures forall id :: id in Types(pre + fetched) <==> id in Types(pre) || |pre| < id <= |pre| + |fetched|
    decreases |fetched|
  {
    hide Types;
    if fetched == [] {
      assert pre + fetched == pre;
    } else {
      var n := |fetched| - 1;
      var before := pre + fetched[..n];
      assert pre + fetched == before + [fetched[n]];
      assert forall k :: 0 <= k < |before| ==> before[k] == (pre + fetched)[k];
      assert (pre + fetched)[|before|] == fetched[n];
      ReadersTyped(pre, fetched[..n]);
      Snoc(before, fetched[n]);
    }
  }

  // Where the values read and compared stand
  lemma ComparisonIds(b: Block, pre: seq<Inst>, fetched: seq<Inst>, op: BinaryOpcode, x: ValueId, y: ValueId)
    requires EndsInCompare(b, pre, fetched, op, x, y) && FromOne(b.insts)
    ensures FromOne(pre + fetched) && b.terminator.cond == |b.insts| == |pre| + |fetched| + 1
    ensures forall k :: 0 <= k < |fetched| ==> fetched[k].id == |pre| + 1 + k
  {
    var before := pre + fetched;
    hide IsReader, IsComparison;
    assert forall k :: 0 <= k < |before| ==> before[k] == b.insts[k];
    assert b.insts[|before|].id == b.terminator.cond;
    forall k | 0 <= k < |fetched| ensures fetched[k].id == |pre| + 1 + k { assert before[|pre| + k] == fetched[k]; }
  }

  // The values of the block: the earlier ones, and those read and compared at its end
  lemma ComparisonTypes(b: Block, pre: seq<Inst>, fetched: seq<Inst>, op: BinaryOpcode, x: ValueId, y: ValueId)
    requires EndsInCompare(b, pre, fetched, op, x, y) && FromOne(b.insts)
    ensures forall id :: id in Types(b.insts) <==> id in Types(pre) || |pre| < id <= |b.insts|
  {
    hide Types, FromOne, IsReader, IsComparison;
    ComparisonIds(b, pre, fetched, op, x, y);
    ReadersTyped(pre, fetched);
    CompareDeclared(pre + fetched, b.terminator.cond, op, x, y);
    LastDeclared(Types(pre), Types(pre + fetched), Types(b.insts), |pre|, |b.insts|);
  }

  lemma LastDeclared(first: TypeEnv, before: TypeEnv, all: TypeEnv, m: nat, n: nat)
    requires all.Keys == before.Keys + {n} && m < n
    requires forall id :: id in before <==> id in first || m < id <= n - 1
    ensures forall id :: id in all <==> id in first || m < id <= n
  {
    assert forall id :: id in all <==> id in all.Keys;
    assert forall id :: id in before <==> id in before.Keys;
  }

  lemma CompareDeclared(insts: seq<Inst>, c: ValueId, op: BinaryOpcode, x: ValueId, y: ValueId)
    ensures Types(insts + [Inst(c, BinaryOp(op, I1, x, y))]).Keys == Types(insts).Keys + {c}
  {
    hide Types;
    Snoc(insts, Inst(c, BinaryOp(op, I1, x, y)));
  }

  // The ids at and above the register counter that stand for values
  lemma ValueIds(b: Block, pre: seq<Inst>, fetched: seq<Inst>, op: BinaryOpcode, x: ValueId, y: ValueId, lead: int)
    requires Selectable(b) && EndsInCompare(b, pre, fetched, op, x, y) && Numbered(b, pre, lead)
    ensures
      var st := SelectAll(INITIAL, b.insts).value.0;
      forall id :: id >= st.next ==> (id in st.vregs <==> |pre| < id <= |b.insts|)
  {
    ComparisonTypes(b, pre, fetched, op, x, y);
    hide Types, SelectAll, EndsInCompare, SelectedCode, SelectExit, Static, AllClean, Knows, WellTyped,
      TypedTerminator;
    var st, body := Body(b);
    KnowsKeys(st, Types(b.insts));
  }

  // Which registers the targets take
  lemma TargetIds(b: Block, pre: seq<Inst>, fetched: seq<Inst>, op: BinaryOpcode, x: ValueId, y: ValueId, lead: int)
    requires Selectable(b) && EndsInCompare(b, pre, fetched, op, x, y) && Numbered(b, pre, lead)
    ensures
      var st, n := SelectAll(INITIAL, b.insts).value.0, |b.insts|;
      var (_, yes, no) := Targets(st);
      var second := if 0 <= lead <= |fetched| then n - lead + 1 else n - lead + 2;
      && (if 0 <= lead <= |fetched| then n - lead in st.vregs && yes == st.vregs[n - lead] else yes >= st.next)
      && (if |pre| < second <= n then second in st.vregs && no == st.vregs[second] else no >= st.next)
  {
    hide SelectAll, EndsInCompare, Selectable, ConstInto, FromOne, Types;
    ComparisonLength(b, pre, fetched, op, x, y);
    ValueIds(b, pre, fetched, op, x, y, lead);
  }

  // No target takes a register of an earlier value
  lemma TargetsComeAfter(b: Block, pre: seq<Inst>, fetched: seq<Inst>, op: BinaryOpcode, x: ValueId, y: ValueId,
                         lead: int)
    requires Selectable(b) && EndsInCompare(b, pre, fetched, op, x, y) && Numbered(b, pre, lead)
    ensures TargetsAfter(b, pre)
  {
    hide SelectAll, EndsInCompare, Selectable, ConstInto, FromOne, Types, SelectedCode, TwoPieces, Static,
      CompareCode, Choose, Test, ReadInto, SC.WellNumbered, IsReader, DefSites;
    var st0, base, st1, mid, st, tail, r := CompareParts(b, pre, fetched, op, x, y);
    TargetLater(st0, st);
  }

  lemma TargetLater(st0: SState, st: SState)
    requires Later(st0, st) && forall id :: id in st0.vregs ==> id < st.next
    ensures var (_, yes, no) := Targets(st); yes >= st0.next && no >= st0.next
  {
    hide ConstInto;
  }

  /** The ids of the targets are new exactly when the register counter has passed all value ids, or
      points into the write-back: with e values read or compared at the end of the block, when the
      ids lead by less than 0 or more than e + 1, or by e = 1. */
  lemma FreshIff(insts: seq<RV.Instruction>, order: seq<nat>)
    requires RV.IsBlock(insts) && IsOrder(order, Modified(insts)) && EndsInBranch(insts)
    ensures
      var b, last, lead := LiftedBlock(1, insts, order), LastBranch(insts), Lead(insts);
      var e := Fetches(Cached(insts), last.rs1, last.rs2) + 1;
      SelectAll(INITIAL, b.insts).Some? &&
      (FreshTargets(SelectAll(INITIAL, b.insts).value.0, b.terminator) <==>
        lead < 0 || lead > e + 1 || (lead == 1 && e == 1))
  {
    hide SelectAll, EndsInCompare, Selectable, FromOne, Types, LiftedBlock, LastBranch, Fetches, Cached, Lead,
      IsOrder, LiftAll, RV.Straight, RV.IsBlock, Compared, CompareOf;
    var pre, fetched, op, x, y := BranchLifts(insts, order);
    var b := LiftedBlock(1, insts, order);
    LiftedSelectable(1, insts, order);
    ComparisonLength(b, pre, fetched, op, x, y);
    ValueIds(b, pre, fetched, op, x, y, Lead(insts));
  }
}
