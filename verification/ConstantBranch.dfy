/** A second class of blocks whose branch goes wrong: a constant is loaded last, by LUI into the only
    register that the block writes, and compared with a register that is new to the block. */
module ConstantBranch {
  import opened Options
  import opened Guest
  import opened HostLayout
  import opened IR
  import opened LivenessSpec
  import opened AllocatorSpec
  import opened AllocationCorrect
  import opened SelectorSpec
  import opened SelectorShape
  import opened SelectorTotal
  import opened Pieces
  import opened BranchCode
  import opened BranchReuse
  import opened BlockTally
  import opened LiftedBranch
  import opened TargetRegisters
  import opened SharedRegisters
  import opened GuestRegisters
  import opened Pipeline
  import opened BranchOutcome
  import A = Arm64
  import SC = SelectorCorrect
  import RV = RiscV
  import L = LifterSpec
  import LC = LifterCorrect
  import U = UpperImmediates

  /* ---- Lifting ---- */

  // The last instruction before the branch is LUI, and writes the only register written
  predicate LoadsConstant(insts: seq<RV.Instruction>)
    requires RV.IsBlock(insts)
  {
    var straight := RV.Straight(insts);
    straight != [] &&
    var lui := straight[|straight| - 1];
    lui.opcode.LUI? && lui.GetRegister(0) != 0 && WrittenBy(straight) == {lui.GetRegister(0) as nat}
  }

  lemma LastInstruction(insts: seq<RV.Instruction>)
    requires RV.AllSupported(insts) && RV.NoTerminator(insts) && insts != []
    ensures
      var front, i := insts[..|insts| - 1], insts[|insts| - 1];
      && RV.AllSupported(front) && RV.NoTerminator(front) && RV.Supported(i) && !RV.IsTerminator(i.opcode)
      && L.LiftAll(L.Start(1), insts) == L.LiftSingle(L.LiftAll(L.Start(1), front), i)
  {
    hide L.LiftSingle, RV.Supported;
  }

  lemma OneOrder(order: seq<nat>, r: nat)
    requires L.IsOrder(order, {r})
    ensures order == [r]
  {
    OrderLength(order, {r});
    assert order[0] in order;
  }

  lemma LuiCache(l: L.LState, rd: nat, imm: int)
    requires L.WellFormed(l) && 0 < rd < 32 && -0x8000_0000 <= imm < 0x8000_0000
    ensures rd in L.LiftLui(l, rd, imm).cache && L.LiftLui(l, rd, imm).cache[rd] == l.next
  {
    hide L.WellFormed, Types;
  }

  // LUI caches its constant and marks its register
  lemma LuiCaches(l: L.LState, i: RV.Instruction, rd: nat, imm: int)
    requires L.WellFormed(l) && RV.Supported(i) && i.opcode.LUI? && RV.RegImm(i, 0x8000_0000) &&
      !RV.IsTerminator(i.opcode)
    requires rd == i.GetRegister(0) != 0 && imm == i.GetImmediate(1)
    ensures
      var l' := L.LiftSingle(l, i);
      && l'.code == l.code + [Inst(l.next, Const(I64, imm * 0x1000))] && rd in l'.cache && l'.cache[rd] == l.next
  {
    hide L.WellFormed, Types, L.LiftSingle, L.LiftLui, RV.Supported, RV.IsTerminator;
    U.SingleIsUpper(l, i);
    LuiCache(l, rd, imm);
    U.LuiLifts(l, rd, imm);
  }

  // The code before the branch: the constant, and the write of its register
  lemma ConstantCode(insts: seq<RV.Instruction>, order: seq<nat>)
    returns (first: seq<Inst>, c: Inst, w: Inst, v: int, r: RegNum)
    requires RV.IsBlock(insts) && L.IsOrder(order, Modified(insts)) && LoadsConstant(insts)
    ensures
      var l, lui := L.Lifted(1, insts, order), RV.Straight(insts)[|RV.Straight(insts)| - 1];
      && lui.operands != [] && lui.operands[0] == RV.Register(r) && r != 0
      && c.kind == Const(I64, v) && w.kind == RegWrite(r, c.id) && l.code == first + [c] + [w]
      && r in l.cache && l.cache[r] == c.id
  {
    hide L.LiftSingle, L.WellFormed, Types, RV.Supported, L.LiftAll, RV.IsBlock, WrittenBy, NamedBy, L.WriteBack;
    var straight := RV.Straight(insts);
    var i := straight[|straight| - 1];
    LC.StraightFacts(insts);
    LastInstruction(straight);
    L.StartWellFormed(1);
    U.UpperOperands(i);
    AllTouches(L.Start(1), straight);
    var l1, l0 := L.LiftAll(L.Start(1), straight[..|straight| - 1]), L.LiftAll(L.Start(1), straight);
    LuiCaches(l1, i, i.GetRegister(0), i.GetImmediate(1));
    OneOrder(order, i.GetRegister(0));
    r := i.GetRegister(0);
    first, c, w, v := l1.code, Inst(l1.next, Const(I64, i.GetImmediate(1) * 0x1000)),
      Inst(l0.next, RegWrite(i.GetRegister(0), l1.next)), i.GetImmediate(1) * 0x1000;
    WriteOne(l0, i.GetRegister(0));
  }

  lemma WriteOne(l: L.LState, r: nat)
    requires L.WellFormed(l) && r in l.cache
    ensures
      var l' := L.WriteBack(l, [r]);
      l'.code == l.code + [Inst(l.next, RegWrite(r, l.cache[r]))] && l'.cache == l.cache
  {
    hide L.WellFormed, Types, Typed;
    assert [r][..0] == [];
    L.CachedTyped(l, r);
  }

  /* ---- Selection ---- */

  // The store of a register
  predicate IsStoreOf(i: A.Instruction, d: nat) { Defs(i) == {} && Uses(i) == {d} }

  lemma SelectConstant(st: SState, c: Inst, v: int)
    requires c.kind == Const(I64, v) && c.id !in st.vregs
    ensures
      var r := SelectInstruction(st, c);
      r.Some? && Grew(st, r.value.0, c.id) && r.value.1 == ConstInto(I64, v, A.VReg(st.next))
  {
    hide ConstInto;
  }

  lemma SelectWrite(st: SState, w: Inst, r: RegNum, id: ValueId)
    requires w.kind == RegWrite(r, id) && id in st.vregs
    ensures
      var r := SelectInstruction(st, w);
      r.Some? && r.value.0.vregs == st.vregs && |r.value.1| == 1 && IsStoreOf(r.value.1[0], st.vregs[id])
  {
  }

  lemma ConstantSelected(first: seq<Inst>, c: Inst, w: Inst, v: int, r: RegNum)
    returns (st: SState, body: seq<A.Instruction>, p: seq<A.Instruction>, store: A.Instruction)
    requires WellTyped(first + [c] + [w]) && Ordered(first + [c] + [w])
    requires c.kind == Const(I64, v) && w.kind == RegWrite(r, c.id)
    ensures SelectAll(INITIAL, first + [c] + [w]) == Some((st, body + p + [store]))
    ensures c.id in st.vregs && Loads(p, st.vregs[c.id]) && IsStoreOf(store, st.vregs[c.id])
  {
    hide SelectAll, SelectInstruction, WellTyped, Ordered, Typed, Types, AllClean, Knows, ConstInto, Loads, IsStoreOf;
    PrefixSelectable(first + [c], w);
    PrefixSelectable(first, c);
    AllTotal(first);
    var st0;
    st0, body := SelectAll(INITIAL, first).value.0, SelectAll(INITIAL, first).value.1;
    KnowsKeys(st0, Types(first));
    SelectConstant(st0, c, v);
    SelectSnoc(INITIAL, first, c);
    p := ConstInto(I64, v, A.VReg(st0.next));
    ConstLoads(v, st0.next);
    var st1 := SelectInstruction(st0, c).value.0;
    SelectWrite(st1, w, r, c.id);
    SelectSnoc(INITIAL, first + [c], w);
    st, store := SelectInstruction(st1, w).value.0, SelectInstruction(st1, w).value.1[0];
    assert SelectInstruction(st1, w).value.1 == [store];
  }

  /* ---- The constant gets X1 ---- */

  // After the constant: its store, the read of the other register, and the comparison
  function AfterConstant(store: A.Instruction, i: A.Instruction, x: nat, y: nat, c: nat, cond: A.Condition)
    : seq<A.Instruction>
  {
    [store, i] + CompareCode(x, y, c, cond)
  }

  lemma AfterSites(store: A.Instruction, i: A.Instruction, x: nat, y: nat, c: nat, cond: A.Condition, d: nat, o: nat)
    requires IsStoreOf(store, d) && IsReadOf(i, o)
    ensures
      var e := AfterConstant(store, i, x, y, c, cond);
      && |e| == 5 && Uses(e[0]) == {d} && Uses(e[1]) == {} && Uses(e[2]) == {x, y} && Uses(e[3]) == {} &&
        Uses(e[4]) == {c}
      && Defs(e[0]) == {} && Defs(e[1]) == {o} && Defs(e[2]) == {} && Defs(e[3]) == {c} && Defs(e[4]) == {}
  {
  }

  // Where the registers of the end are defined
  lemma AfterStarts(base: seq<A.Instruction>, p: seq<A.Instruction>, e: seq<A.Instruction>, d: nat, o: nat, c: nat)
    requires Loads(p, d) && |e| == 5 && o != d && c != d && o != c
    requires Defs(e[0]) == {} && Defs(e[1]) == {o} && Defs(e[2]) == {} && Defs(e[3]) == {c} && Defs(e[4]) == {}
    ensures
      var a, n := base + p + e, |base| + |p|;
      && d in DefSites(a) && o in DefSites(a) && c in DefSites(a)
      && DefSites(a)[d] == n - 1 && DefSites(a)[o] == n + 1 && DefSites(a)[c] == n + 3
  {
    var a, n := base + p + e, |base| + |p|;
    hide Defs, DefSites;
    assert a[n - 1] == p[|p| - 1];
    assert a[n] == e[0] && a[n + 1] == e[1] && a[n + 2] == e[2] && a[n + 3] == e[3] && a[n + 4] == e[4];
    assert forall k :: n <= k < |a| ==> a[k] == e[k - n];
    DefSiteIsLast(a, d);
    DefSiteIsLast(a, o);
    DefSiteIsLast(a, c);
  }

  // A register that is not one of the end is last defined and last used before the constant, or after
  lemma EndedBefore(base: seq<A.Instruction>, p: seq<A.Instruction>, e: seq<A.Instruction>, d: nat, o: nat, c: nat,
                    u: nat)
    requires Loads(p, d) && |e| == 5 && u != d && u != o && u != c
    requires Uses(e[0]) == {d} && Uses(e[1]) == {} && Uses(e[2]) == {d, o} && Uses(e[3]) == {} && Uses(e[4]) == {c}
    requires u in DefSites(base + p + e) && DefSites(base + p + e)[u] < |base| + |p| - 1
    ensures Interval(base + p + e, u).end < |base|
  {
    var a, n := base + p + e, |base| + |p|;
    DefSiteIsLast(a, u);
    hide Defs, Uses, DefSites, Interval;
    assert forall k :: |base| <= k < n ==> a[k] == p[k - |base|];
    assert a[n] == e[0] && a[n + 1] == e[1] && a[n + 2] == e[2] && a[n + 3] == e[3] && a[n + 4] == e[4];
    assert DefSites(a)[u] < |base|;
    EndsBefore(a, u, |base|);
  }

  lemma ConstantAlone(base: seq<A.Instruction>, p: seq<A.Instruction>, store: A.Instruction, i: A.Instruction, x: nat,
                      y: nat, c: nat, cond: A.Condition, d: nat, o: nat, r: seq<A.Instruction>)
    requires Loads(p, d) && IsStoreOf(store, d) && IsReadOf(i, o) && {x, y} == {d, o} && o != d && c != d && o != c
    requires TwoPieces(base + p + AfterConstant(store, i, x, y, c, cond), r) && d !in DefSites(r)
    ensures Alone(base + p + AfterConstant(store, i, x, y, c, cond) + r, d)
  {
    var e := AfterConstant(store, i, x, y, c, cond);
    var a, n := base + p + e, |base| + |p| - 1;
    AfterSites(store, i, x, y, c, cond, d, o);
    assert p != [];
    hide Defs, Uses, DefSites, Interval, TwoPieces, AfterConstant, Loads;
    AfterStarts(base, p, e, d, o, c);
    forall u | u in DefSites(a) && u !in DefSites(r) && DefSites(a)[u] < n ensures Interval(a, u).end < n {
      EndedBefore(base, p, e, d, o, c, u);
    }
    AloneAt(a, r, d, n);
  }

  /* ---- The compared values share it ---- */

  lemma PrefixOfBlock(b: Block, pre: seq<Inst>, fetched: seq<Inst>, op: BinaryOpcode, x: ValueId, y: ValueId)
    requires Selectable(b) && EndsInCompare(b, pre, fetched, op, x, y)
    ensures WellTyped(pre) && Ordered(pre)
  {
    hide WellTyped, Ordered, IsReader;
    PrefixSelectable(pre + fetched, Inst(b.terminator.cond, BinaryOp(op, I1, x, y)));
    PrefixesSelectable(pre, fetched);
  }

  lemma KeptRegister(st0: SState, st: SState, id: ValueId)
    requires Later(st0, st) && id in st0.vregs
    ensures id in st.vregs && st.vregs[id] == st0.vregs[id]
  {
  }

  lemma OneReadInto(st: SState, fetched: seq<Inst>, mid: seq<A.Instruction>)
    requires ReadInto(st, fetched, mid) && |fetched| == 1
    ensures fetched[0].id in st.vregs && mid == [mid[0]] && IsReadOf(mid[0], st.vregs[fetched[0].id])
  {
    hide IsReadOf;
  }

  lemma SameEnd(body: seq<A.Instruction>, p: seq<A.Instruction>, store: A.Instruction, i: A.Instruction,
                compare: seq<A.Instruction>)
    ensures body + p + [store] + ([i] + compare) == body + p + ([store, i] + compare)
  {
  }

  // The registers of the end
  lemma EndRegisters(st1: SState, st: SState, cond: ValueId, x: ValueId, y: ValueId, c: ValueId, o: ValueId)
    requires Grew(st1, st, cond) && SC.WellNumbered(st) && x in st1.vregs && y in st1.vregs && {x, y} == {c, o} &&
      c != o
    ensures c in st.vregs && o in st.vregs && st.vregs[c] != st.vregs[o] && st1.next != st.vregs[c] &&
      st1.next != st.vregs[o]
    ensures {st.vregs[x], st.vregs[y]} == {st.vregs[c], st.vregs[o]} && st.vregs[c] < st.next
  {
    assert x in {c, o} && y in {c, o} && c in {x, y} && o in {x, y};
    ThreeRegisters(st1, st, cond, x, y);
    InjectiveRegisters(st, x, y);
  }

  // A block whose code ends with a constant, its store, one read and the comparison: the constant gets X1
  lemma ConstantInFirst(b: Block, first: seq<Inst>, c: Inst, w: Inst, v: int, g: RegNum, fetched: seq<Inst>,
                        op: BinaryOpcode, x: ValueId, y: ValueId, lead: int, alloc: Allocation)
    requires c.kind == Const(I64, v) && w.kind == RegWrite(g, c.id) && |fetched| == 1
    requires var pre := first + [c] + [w];
             Selectable(b) && EndsInCompare(b, pre, fetched, op, x, y) && Compared(pre, fetched, x, y) &&
             Numbered(b, pre, lead)
    requires {x, y} == {c.id, fetched[0].id} && c.id != fetched[0].id && Scanned(SelectedCode(b), alloc)
    ensures IsIn(alloc, RegisterOf(b, c.id), FIRST)
  {
    hide SelectAll, SelectedCode, TwoPieces, Static, CompareCode, Choose, Test, Types, WellTyped, Ordered, DefSites,
      ReadInto, SC.WellNumbered, IsReader, Scanned, Later, Grew, IsReadOf, Targets, Selectable, EndsInCompare,
      Compared, Loads, IsStoreOf, Numbered, FromOne;
    var pre := first + [c] + [w];
    var st0, base, st1, mid, st, tail, r := CompareParts(b, pre, fetched, op, x, y);
    PrefixOfBlock(b, pre, fetched, op, x, y);
    ComparisonLength(b, pre, fetched, op, x, y);
    var st', body, p, store := ConstantSelected(first, c, w, v, g);
    assert st' == st0 && base == body + p + [store];
    assert c.id in Types(pre).Keys;
    KeptRegister(st0, st, c.id);
    EndRegisters(st1, st, b.terminator.cond, x, y, c.id, fetched[0].id);
    OperandsThere(st0, st1, st, b.terminator.cond, x, y);
    TakenOfOne(b, pre, fetched, op, x, y, lead, st);
    OneReadInto(st, fetched, mid);
    var compare := CompareCode(st.vregs[x], st.vregs[y], st1.next, ConditionOf(op).value);
    SameEnd(body, p, store, mid[0], compare);
    assert base + tail ==
      body + p + AfterConstant(store, mid[0], st.vregs[x], st.vregs[y], st1.next, ConditionOf(op).value);
    ConstantAlone(body, p, store, mid[0], st.vregs[x], st.vregs[y], st1.next, ConditionOf(op).value, st.vregs[c.id],
      st.vregs[fetched[0].id], r);
    AloneInFirst(SelectedCode(b), st.vregs[c.id], alloc);
  }

  // The branch compares the constant with a register that the block does not name
  predicate ComparesConstant(insts: seq<RV.Instruction>)
    requires RV.IsBlock(insts) && EndsInBranch(insts) && LoadsConstant(insts)
  {
    var straight, last := RV.Straight(insts), LastBranch(insts);
    var r := straight[|straight| - 1].GetRegister(0);
    (last.rs1 == r && last.rs2 !in NamedBy(straight)) || (last.rs2 == r && last.rs1 !in NamedBy(straight))
  }

  // Then one value is read for the comparison, and the other one is the constant
  lemma OneIsConstant(l: L.LState, b: Block, pre: seq<Inst>, fetched: seq<Inst>, op: BinaryOpcode, x: ValueId,
                      y: ValueId, lead: int, c: ValueId, rs1: RegNum, rs2: RegNum, r: nat, first: seq<Inst>)
    requires EndsInCompare(b, pre, fetched, op, x, y) && Compared(pre, fetched, x, y) && Numbered(b, pre, lead)
    requires |fetched| == 1 && |first| < |pre| && pre[|first|].id == c
    requires r in l.cache && l.cache[r] == c && (rs1 == r || rs2 == r)
    requires (rs1 in l.cache ==> x == l.cache[rs1]) && (rs2 in l.cache ==> y == l.cache[rs2])
    ensures {x, y} == {c, fetched[0].id} && c != fetched[0].id && x != y && Other(fetched, x, y) == c
  {
    ComparisonIds(b, pre, fetched, op, x, y);
    assert pre[|first|] == b.insts[|first|];
    hide Types, SelectAll, IsReader;
  }

  /** When the block writes only the register of its last constant, and neither loads nor stores, the
      branch on it and a new register compares one of them with itself. */
  lemma ConstantShared(insts: seq<RV.Instruction>, order: seq<nat>, ivs: seq<LiveInterval>)
    requires RV.IsBlock(insts) && L.IsOrder(order, Modified(insts)) && EndsInBranch(insts)
    requires LoadsConstant(insts) && ComparesConstant(insts) && Surplus(insts) == 1
    requires AreIntervals(SelectedCode(L.LiftedBlock(1, insts, order)), ivs) && Scan(ivs).Some?
    ensures SharedOperands(L.LiftedBlock(1, insts, order), Scan(ivs).value.0)
  {
    hide L.LiftAll, L.LiftedBlock, L.Lifted, L.IsOrder, RV.IsBlock, SelectedCode, SharedOperands, Selectable,
      EndsInCompare, Compared, Numbered, Share, RegisterOf, EndsInBranch, LastBranch, AreIntervals, Scan, Lead,
      Cached, Allocates, Scanned, L.CompareOf, OlderOperand, Other, IsIn, Surplus, WrittenBy, Scannable, AllCovered;
    var b, alloc, last := L.LiftedBlock(1, insts, order), Scan(ivs).value.0, LastBranch(insts);
    LiftedSelectable(1, insts, order);
    SelectedAllocates(b, ivs);
    var pre, fetched, op, x, y := BranchLifts(insts, order);
    var first, c, w, v, r := ConstantCode(insts, order);
    GuestTerms(insts);
    NamesItself(RV.Straight(insts), r);
    assert |fetched| == 1;
    assert pre[|first|] == c;
    OneIsConstant(L.Lifted(1, insts, order), b, pre, fetched, op, x, y, Lead(insts), c.id, last.rs1, last.rs2, r,
      first);
    ConstantInFirst(b, first, c, w, v, r, fetched, op, x, y, Lead(insts), alloc);
    OneReadShareIff(b, pre, fetched, op, x, y, Lead(insts), alloc);
    SharedIsShare(b, pre, fetched, op, x, y, alloc);
  }

  lemma NamesItself(straight: seq<RV.Instruction>, r: nat)
    requires straight != [] && r != 0
    requires straight[|straight| - 1].operands != [] && straight[|straight| - 1].operands[0] == RV.Register(r)
    ensures r in NamedBy(straight)
  {
    var i := straight[|straight| - 1];
    assert r in Named(i);
    hide Named;
  }

  /** A second failing class: the last instruction before the branch is LUI, its register is the only
      one that the block writes, there is no load and no store, and the branch compares that register
      with one that the block does not name. BNE, BLT and BLTU then never branch, and BEQ, BGE and
      BGEU always do, whatever the registers hold. */
  lemma ConstantFailingClass(l: Layout, insts: seq<RV.Instruction>, order: seq<nat>, ivs: seq<LiveInterval>,
                             g: GuestState, s: A.State)
    requires RV.IsBlock(insts) && L.IsOrder(order, Modified(insts)) && Ready(l, s, g)
    requires EndsInBranch(insts) && LoadsConstant(insts) && ComparesConstant(insts) && Surplus(insts) == 1
    requires AreIntervals(SelectedCode(L.LiftedBlock(1, insts, order)), ivs) && Scan(ivs).Some?
    requires RV.EndState(l.region, insts, g).Some?
    ensures
      var b, last := L.LiftedBlock(1, insts, order), LastBranch(insts);
      Returned(l, s, A.Call(Allocated(SelectedCode(b), ivs), s), RV.EndState(l.region, insts, g).value,
               if last.op.BEQ? || last.op.BGE? || last.op.BGEU? then last.yes else last.no)
  {
    hide L.LiftAll, L.IsOrder, Ready, Returned, SelectedCode, SharedOperands, A.Call, Modified, RV.EndState,
      AreIntervals, Scan, L.LiftedBlock, Allocated, Surplus, LoadsConstant, ComparesConstant, RV.TerminatorLast,
      RV.AllSupported;
    BlockExact(l, insts, order, ivs, g, s);
    ConstantShared(insts, order, ivs);
  }
}
