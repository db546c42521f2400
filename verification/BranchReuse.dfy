/** What becomes of a conditional branch whose targets take over registers of the comparison: it
    goes wrong exactly when the two compared values end up in the same register. */
module BranchReuse {
  import opened Options
  import opened IR
  import opened SelectorSpec
  import opened SelectorShape
  import opened SelectorTotal
  import opened LivenessSpec
  import opened AllocatorSpec
  import opened AllocationCorrect
  import opened Pieces
  import opened BranchCode
  import A = Arm64
  import SC = SelectorCorrect

  /* ---- Blocks that end in a comparison ---- */

  // Reads a guest register, or stands for x0
  predicate IsReader(k: InstructionKind) { k.RegRead? || (k.Const? && k.ty.I64? && k.value == 0) }

  // A conditional branch on a comparison, with the values read just before it
  ghost predicate EndsInCompare(b: Block, pre: seq<Inst>, fetched: seq<Inst>, op: BinaryOpcode, x: ValueId,
                                y: ValueId) {
    && b.terminator.CondBranch? && IsComparison(op)
    && b.insts == pre + fetched + [Inst(b.terminator.cond, BinaryOp(op, I1, x, y))]
    && forall k :: 0 <= k < |fetched| ==> IsReader(fetched[k].kind)
  }

  // The operands of the comparison: earlier values, or the values read just before it
  ghost predicate Compared(pre: seq<Inst>, fetched: seq<Inst>, x: ValueId, y: ValueId) {
    if fetched == [] then x in Types(pre) && y in Types(pre)
    else if |fetched| == 1 then
      var o := fetched[0].id;
      (x == o || y == o) && (x != o ==> x in Types(pre)) && (y != o ==> y in Types(pre))
    else |fetched| == 2 && x == fetched[0].id && y == fetched[1].id
  }

  /* ---- The end of the first piece, on registers ---- */

  // One load or move into v
  predicate IsReadOf(i: A.Instruction, v: nat) { Reads(i) == {} && Defs(i) == {v} }

  function CompareCode(x: nat, y: nat, c: nat, cond: A.Condition): seq<A.Instruction> {
    [A.TwoOperand(A.CMP, A.X, A.VReg(x), A.VReg(y)), A.Conditional(A.CSET, A.X, A.VReg(c), cond), Test(c)]
  }

  lemma CompareNeeds(x: nat, y: nat, c: nat, cond: A.Condition, alloc: Allocation)
    ensures Needed(CompareCode(x, y, c, cond), {}) == {x, y} && Safe(CompareCode(x, y, c, cond), {}, alloc)
  {
    var code := CompareCode(x, y, c, cond);
    assert code[..2] == [code[0], code[1]] && code[..2][..1] == [code[0]] && code[..2][..1][..0] == [];
    assert NeededBefore(code[2], {}) == {c};
    assert NeededBefore(code[1], {c}) == {};
    assert NeededBefore(code[0], {}) == {x, y};
    assert Needed(code[..2][..1][..0], {x, y}) == {x, y};
    assert Needed(code[..2][..1], {}) == {x, y};
    assert Needed(code[..2], {c}) == {x, y};
    assert Safe(code[..2][..1], {}, alloc);
    assert Safe(code[..2], {c}, alloc);
  }

  lemma ReadNeeds(i: A.Instruction, v: nat, out: set<nat>, alloc: Allocation)
    requires IsReadOf(i, v)
    ensures Needed([i], out) == out - {v}
    ensures Safe([i], out, alloc) <==> forall u :: u in out && u != v && u in alloc && v in alloc ==>
            alloc[u] != alloc[v]
  {
    assert [i][..0] == [];
    hide Reads, Defs;
    assert Needed([], NeededBefore(i, out)) == out - {v};
  }

  // Both operands are in one register
  predicate Share(alloc: Allocation, x: nat, y: nat) { x != y && x in alloc && y in alloc && alloc[x] == alloc[y] }

  // One value read before the comparison, the other operand older (or the same)
  lemma OneRead(i: A.Instruction, x: nat, y: nat, o: nat, c: nat, cond: A.Condition, alloc: Allocation)
    requires IsReadOf(i, o) && (x == o || y == o)
    ensures Needed([i] + CompareCode(x, y, c, cond), {}) == {x, y} - {o}
    ensures Safe([i] + CompareCode(x, y, c, cond), {}, alloc) <==> !Share(alloc, x, y)
  {
    hide CompareCode, Needed, Safe, IsReadOf;
    CompareNeeds(x, y, c, cond, alloc);
    NeededAppend([i], CompareCode(x, y, c, cond), {});
    SafeAppend([i], CompareCode(x, y, c, cond), {}, alloc);
    ReadNeeds(i, o, {x, y}, alloc);
  }

  // Both values read before the comparison
  lemma TwoReads(i: A.Instruction, j: A.Instruction, x: nat, y: nat, c: nat, cond: A.Condition, alloc: Allocation)
    requires IsReadOf(i, x) && IsReadOf(j, y) && x != y
    ensures Needed([i] + ([j] + CompareCode(x, y, c, cond)), {}) == {}
    ensures Safe([i] + ([j] + CompareCode(x, y, c, cond)), {}, alloc) <==> !Share(alloc, x, y)
  {
    hide CompareCode, Needed, Safe, IsReadOf;
    OneRead(j, x, y, y, c, cond, alloc);
    var tail := [j] + CompareCode(x, y, c, cond);
    assert {x, y} - {y} == {x} && {x} - {x} == {};
    NeededAppend([i], tail, {});
    SafeAppend([i], tail, {}, alloc);
    ReadNeeds(i, x, {x}, alloc);
  }

  // Both values read, the second compared with itself
  lemma TwoReadsSelf(i: A.Instruction, j: A.Instruction, x: nat, y: nat, c: nat, cond: A.Condition, alloc: Allocation)
    requires IsReadOf(i, x) && IsReadOf(j, y) && x != y
    ensures Needed([i] + ([j] + CompareCode(y, y, c, cond)), {}) == {}
    ensures Safe([i] + ([j] + CompareCode(y, y, c, cond)), {}, alloc)
  {
    hide CompareCode, Needed, Safe, IsReadOf;
    OneRead(j, y, y, y, c, cond, alloc);
    var tail := [j] + CompareCode(y, y, c, cond);
    var none: set<nat> := {};
    assert {y, y} - {y} == none && none - {x} == none;
    NeededAppend([i], tail, {});
    SafeAppend([i], tail, {}, alloc);
    ReadNeeds(i, x, {}, alloc);
  }

  /* ---- Selecting them ---- */

  // One value was given the next register
  predicate Grew(st: SState, st': SState, id: ValueId) {
    id !in st.vregs && st'.vregs == st.vregs[id := st.next] && st'.next == st.next + 1
  }

  lemma PrefixSelectable(insts: seq<Inst>, i: Inst)
    requires WellTyped(insts + [i]) && Ordered(insts + [i])
    ensures WellTyped(insts) && Ordered(insts) && Typed(Types(insts), i.kind) && i.id !in Types(insts)
  {
    Snoc(insts, i);
    NewId(insts + [i]);
    assert (insts + [i])[..|insts|] == insts;
    hide WellTyped, Typed, Types;
    forall j, k | 0 <= j < k < |insts| ensures insts[j].id < insts[k].id {
      assert (insts + [i])[j] == insts[j] && (insts + [i])[k] == insts[k];
    }
  }

  lemma SelectReader(st: SState, i: Inst)
    requires IsReader(i.kind) && i.id !in st.vregs
    ensures
      var r := SelectInstruction(st, i);
      r.Some? && Grew(st, r.value.0, i.id) && |r.value.1| == 1 && IsReadOf(r.value.1[0], st.next)
  {
  }

  lemma SelectCompare(st: SState, c: ValueId, op: BinaryOpcode, x: ValueId, y: ValueId)
    requires IsComparison(op) && c !in st.vregs && x in st.vregs && y in st.vregs && x != c && y != c
    ensures
      var r := SelectInstruction(st, Inst(c, BinaryOp(op, I1, x, y)));
      && r.Some? && Grew(st, r.value.0, c) && ConditionOf(op).Some?
      && r.value.1 + [Test(st.next)] == CompareCode(st.vregs[x], st.vregs[y], st.next, ConditionOf(op).value)
  {
  }

  lemma AddReader(insts: seq<Inst>, i: Inst, st: SState, code: seq<A.Instruction>)
    returns (st': SState, read: A.Instruction)
    requires WellTyped(insts + [i]) && Ordered(insts + [i]) && IsReader(i.kind)
    requires SelectAll(INITIAL, insts) == Some((st, code))
    ensures Grew(st, st', i.id) && IsReadOf(read, st.next)
    ensures SelectAll(INITIAL, insts + [i]) == Some((st', code + [read]))
  {
    hide SelectAll, SelectInstruction, WellTyped, Typed, Types, AllClean, IsReadOf, Grew;
    PrefixSelectable(insts, i);
    AllTotal(insts);
    KnowsKeys(st, Types(insts));
    SelectReader(st, i);
    SelectSnoc(INITIAL, insts, i);
    var more := SelectInstruction(st, i).value.1;
    st', read := SelectInstruction(st, i).value.0, more[0];
    assert more == [read];
  }

  lemma KnowsKeys(st: SState, types: TypeEnv)
    requires Knows(st, types)
    ensures st.vregs.Keys == types.Keys
  {
  }

  lemma AddCompare(insts: seq<Inst>, c: ValueId, op: BinaryOpcode, x: ValueId, y: ValueId, st: SState,
                   code: seq<A.Instruction>)
    returns (st': SState)
    requires IsComparison(op)
    requires var i := Inst(c, BinaryOp(op, I1, x, y)); WellTyped(insts + [i]) && Ordered(insts + [i])
    requires SelectAll(INITIAL, insts) == Some((st, code))
    ensures Grew(st, st', c) && x in st.vregs && y in st.vregs && ConditionOf(op).Some?
    ensures
      var r := SelectAll(INITIAL, insts + [Inst(c, BinaryOp(op, I1, x, y))]);
      && r.Some? && r.value.0 == st'
      && r.value.1 + [Test(st.next)] == code + CompareCode(st.vregs[x], st.vregs[y], st.next, ConditionOf(op).value)
  {
    var i := Inst(c, BinaryOp(op, I1, x, y));
    PrefixSelectable(insts, i);
    hide SelectAll, SelectInstruction, WellTyped, Types, AllClean, Grew, CompareCode, Test;
    AllTotal(insts);
    KnowsKeys(st, Types(insts));
    SelectCompare(st, c, op, x, y);
    SelectSnoc(INITIAL, insts, i);
    st' := SelectInstruction(st, i).value.0;
  }

  // Values keep their registers, and later ones get later registers
  ghost predicate Later(st0: SState, st: SState) {
    st0.next <= st.next && st0.vregs.Keys <= st.vregs.Keys &&
    forall id :: id in st.vregs ==>
      if id in st0.vregs then st.vregs[id] == st0.vregs[id] else st0.next <= st.vregs[id] < st.next
  }

  lemma LaterGrew(st0: SState, st: SState, st': SState, id: ValueId)
    requires Later(st0, st) && Grew(st, st', id)
    ensures Later(st0, st')
  {
  }

  // The instructions that read the values
  ghost predicate ReadInto(st: SState, fetched: seq<Inst>, mid: seq<A.Instruction>) {
    |mid| == |fetched| &&
    forall k :: 0 <= k < |mid| ==> fetched[k].id in st.vregs && IsReadOf(mid[k], st.vregs[fetched[k].id])
  }

  lemma ReadIntoGrew(st: SState, st': SState, fetched: seq<Inst>, mid: seq<A.Instruction>, id: ValueId)
    requires ReadInto(st, fetched, mid) && Grew(st, st', id)
    ensures ReadInto(st', fetched, mid)
  {
    hide IsReadOf;
  }

  lemma {:induction false} AddReaders(pre: seq<Inst>, fetched: seq<Inst>, st0: SState, base: seq<A.Instruction>)
    returns (st: SState, mid: seq<A.Instruction>)
    requires WellTyped(pre + fetched) && Ordered(pre + fetched) && forall k :: 0 <= k < |fetched| ==>
             IsReader(fetched[k].kind)
    requires SelectAll(INITIAL, pre) == Some((st0, base))
    ensures SelectAll(INITIAL, pre + fetched) == Some((st, base + mid))
    ensures ReadInto(st, fetched, mid) && Later(st0, st)
    decreases |fetched|
  {
    hide SelectAll, WellTyped, IsReader, Ordered, IsReadOf;
    if fetched == [] {
      st, mid := st0, [];
      assert pre + fetched == pre && base + mid == base;
    } else {
      var n := |fetched| - 1;
      var before := pre + fetched[..n];
      assert pre + fetched == before + [fetched[n]];
      PrefixSelectable(before, fetched[n]);
      var st1, mid1 := AddReaders(pre, fetched[..n], st0, base);
      var read;
      st, read := AddReader(before, fetched[n], st1, base + mid1);
      mid := mid1 + [read];
      LaterGrew(st0, st1, st, fetched[n].id);
      ReadIntoGrew(st1, st, fetched[..n], mid1, fetched[n].id);
      assert base + mid == base + mid1 + [read];
      forall k | 0 <= k < |mid| ensures fetched[k].id in st.vregs && IsReadOf(mid[k], st.vregs[fetched[k].id]) {
        if k < n { assert fetched[..n][k] == fetched[k]; }
      }
    }
  }

  lemma {:induction false} PrefixesSelectable(pre: seq<Inst>, more: seq<Inst>)
    requires WellTyped(pre + more) && Ordered(pre + more)
    ensures WellTyped(pre) && Ordered(pre)
    decreases |more|
  {
    hide WellTyped, Ordered;
    if more == [] {
      assert pre + more == pre;
    } else {
      var n := |more| - 1;
      assert pre + more == (pre + more[..n]) + [more[n]];
      PrefixSelectable(pre + more[..n], more[n]);
      PrefixesSelectable(pre, more[..n]);
    }
  }

  /** The first piece of such a block: the code before, one instruction for each value read, and
      the comparison. */
  lemma CompareBlockCode(b: Block, pre: seq<Inst>, fetched: seq<Inst>, op: BinaryOpcode, x: ValueId, y: ValueId)
    returns (st0: SState, base: seq<A.Instruction>, st1: SState, mid: seq<A.Instruction>, st: SState)
    requires Selectable(b) && EndsInCompare(b, pre, fetched, op, x, y)
    ensures SelectAll(INITIAL, pre) == Some((st0, base)) && Static(st0, base)
    ensures SelectAll(INITIAL, pre + fetched) == Some((st1, base + mid)) && Grew(st1, st, b.terminator.cond)
    ensures x in st1.vregs && y in st1.vregs
    ensures SelectAll(INITIAL, b.insts).Some? && st == SelectAll(INITIAL, b.insts).value.0
    ensures Later(st0, st) && x in st.vregs && y in st.vregs && b.terminator.cond in st.vregs && ConditionOf(op).Some?
    ensures ReadInto(st, fetched, mid)
    ensures
      var c := st.vregs[b.terminator.cond];
      SelectAll(INITIAL, b.insts).value.1 + [Test(c)] ==
      base + mid + CompareCode(st.vregs[x], st.vregs[y], c, ConditionOf(op).value)
    ensures st0.vregs.Keys == Types(pre).Keys
  {
    hide SelectAll, WellTyped, Ordered, IsReader, Static, Types, CompareCode, Test, AllClean, OperandsEarlier, Typed;
    var c := b.terminator.cond;
    var cmp := Inst(c, BinaryOp(op, I1, x, y));
    PrefixSelectable(pre + fetched, cmp);
    PrefixesSelectable(pre, fetched);
    AllTotal(pre);
    TypedOperandsEarlier(pre);
    AllShape(pre);
    st0 := SelectAll(INITIAL, pre).value.0;
    base := SelectAll(INITIAL, pre).value.1;
    KnowsKeys(st0, Types(pre));
    st1, mid := AddReaders(pre, fetched, st0, base);
    st := AddCompare(pre + fetched, c, op, x, y, st1, base + mid);
    LaterGrew(st0, st1, st, c);
    ReadIntoGrew(st1, st, fetched, mid, c);
  }

  /* ---- When the first piece is safe ---- */

  // What the end of the first piece needs, and when it is safe
  lemma TailSafe(st: SState, pre: seq<Inst>, fetched: seq<Inst>, mid: seq<A.Instruction>, x: ValueId, y: ValueId,
                 c: nat,
                 cond: A.Condition, alloc: Allocation)
    requires ReadInto(st, fetched, mid) && Compared(pre, fetched, x, y) && SC.WellNumbered(st)
    requires x in st.vregs && y in st.vregs && (|fetched| == 2 ==> x != y)
    ensures
      var tail := mid + CompareCode(st.vregs[x], st.vregs[y], c, cond);
      && (Safe(tail, {}, alloc) <==> fetched == [] || !Share(alloc, st.vregs[x], st.vregs[y]))
      && forall v :: v in Needed(tail, {}) ==>
           (v == st.vregs[x] && x in Types(pre)) || (v == st.vregs[y] && y in Types(pre))
  {
    hide CompareCode, Needed, Safe, IsReadOf, Share, Types;
    var vx, vy := st.vregs[x], st.vregs[y];
    if fetched == [] {
      assert mid + CompareCode(vx, vy, c, cond) == CompareCode(vx, vy, c, cond);
      CompareNeeds(vx, vy, c, cond, alloc);
    } else if |fetched| == 1 {
      assert mid == [mid[0]];
      OneRead(mid[0], vx, vy, st.vregs[fetched[0].id], c, cond, alloc);
    } else {
      assert mid + CompareCode(vx, vy, c, cond) == [mid[0]] + ([mid[1]] + CompareCode(vx, vy, c, cond));
      TwoReads(mid[0], mid[1], vx, vy, c, cond, alloc);
    }
  }

  // Comparing the value read last with itself is always safe
  lemma SelfTailSafe(st: SState, fetched: seq<Inst>, mid: seq<A.Instruction>, c: nat, cond: A.Condition,
                     alloc: Allocation)
    requires ReadInto(st, fetched, mid) && SC.WellNumbered(st) && (|fetched| == 1 || |fetched| == 2)
    requires |fetched| == 2 ==> fetched[0].id != fetched[1].id
    ensures
      var o := st.vregs[fetched[|fetched| - 1].id];
      var tail := mid + CompareCode(o, o, c, cond);
      Safe(tail, {}, alloc) && Needed(tail, {}) == {}
  {
    hide CompareCode, Needed, Safe, IsReadOf;
    var o := st.vregs[fetched[|fetched| - 1].id];
    if |fetched| == 1 {
      assert mid == [mid[0]];
      OneRead(mid[0], o, o, o, c, cond, alloc);
      var none: set<nat> := {};
      assert {o, o} - {o} == none;
    } else {
      assert mid + CompareCode(o, o, c, cond) == [mid[0]] + ([mid[1]] + CompareCode(o, o, c, cond));
      TwoReadsSelf(mid[0], mid[1], st.vregs[fetched[0].id], o, c, cond, alloc);
    }
  }

  // Code for earlier values touches no later register
  lemma BaseRegisters(st0: SState, base: seq<A.Instruction>, k: nat, ks: set<nat>)
    requires Static(st0, base) && k < |base| && forall v :: v in ks ==> v >= st0.next
    ensures Reads(base[k]) !! ks && Defs(base[k]) !! ks
  {
    hide Defs, Uses, AllDefs;
    forall v | v in ks ensures v !in Reads(base[k]) && v !in Defs(base[k]) {
      AllDefsMember(base, v);
      if v in Reads(base[k]) { ReadAfterDefinition(base, k, v); }
    }
  }

  // The code before is safe when the targets take later registers only
  lemma BaseSafe(st0: SState, base: seq<A.Instruction>, tail: seq<A.Instruction>, ks: set<nat>, alloc: Allocation)
    requires Static(st0, base) && WindowShape(base + tail) && Apart(base + tail, alloc - ks)
    requires (forall v :: v in ks ==> v >= st0.next) && (forall v :: v in Needed(tail, {}) ==> v < st0.next)
    ensures Safe(base, Needed(tail, {}), alloc)
  {
    hide Static, WindowShape, Apart, Needed, Safe, Reads, Defs;
    var a := base + tail;
    SafePrefix(a, |base|, alloc - ks);
    assert a[..|base|] == base && a[|base|..] == tail;
    forall k | 0 <= k < |base| ensures Reads(base[k]) !! ks && Defs(base[k]) !! ks { BaseRegisters(st0, base, k, ks); }
    SafeWithMore(base, Needed(tail, {}), alloc, ks);
  }

  // The targets take no register of the code before the values that are read for the comparison
  ghost predicate TargetsAfter(b: Block, pre: seq<Inst>) {
    && SelectAll(INITIAL, pre).Some? && SelectAll(INITIAL, b.insts).Some?
    && var (_, y, n) := Targets(SelectAll(INITIAL, b.insts).value.0);
       y >= SelectAll(INITIAL, pre).value.0.next && n >= SelectAll(INITIAL, pre).value.0.next
  }

  // The register of a value at the end of the block
  function RegisterOf(b: Block, id: ValueId): nat {
    match SelectAll(INITIAL, b.insts)
    case None => 0
    case Some((st, _)) => if id in st.vregs then st.vregs[id] else 0
  }

  lemma DistinctReads(b: Block, pre: seq<Inst>, fetched: seq<Inst>, op: BinaryOpcode, x: ValueId, y: ValueId)
    requires Ordered(b.insts) && EndsInCompare(b, pre, fetched, op, x, y) && |fetched| == 2
    ensures fetched[0].id != fetched[1].id
  {
    assert b.insts[|pre|] == fetched[0] && b.insts[|pre| + 1] == fetched[1];
  }

  lemma LaterTargets(st0: SState, st: SState, y: nat, n: nat, t: nat, r: set<nat>)
    requires Later(st0, st) && y >= st0.next && n >= st0.next && t >= st.next && r == {y, n, t}
    ensures forall v :: v in r ==> v >= st0.next
  {
  }

  // The two pieces of such a block, and the parts of the first one
  lemma CompareParts(b: Block, pre: seq<Inst>, fetched: seq<Inst>, op: BinaryOpcode, x: ValueId, y: ValueId)
    returns (st0: SState, base: seq<A.Instruction>, st1: SState, mid: seq<A.Instruction>, st: SState,
             tail: seq<A.Instruction>, r: seq<A.Instruction>)
    requires Selectable(b) && EndsInCompare(b, pre, fetched, op, x, y)
    ensures SelectAll(INITIAL, pre) == Some((st0, base)) && Static(st0, base) && st0.vregs.Keys == Types(pre).Keys
    ensures SelectAll(INITIAL, pre + fetched) == Some((st1, base + mid)) && Grew(st1, st, b.terminator.cond)
    ensures SelectAll(INITIAL, b.insts).Some? && st == SelectAll(INITIAL, b.insts).value.0 && Later(st0, st)
    ensures x in st1.vregs && y in st1.vregs && ReadInto(st, fetched, mid) && ConditionOf(op).Some? &&
            SC.WellNumbered(st)
    ensures tail == mid + CompareCode(st.vregs[x], st.vregs[y], st1.next, ConditionOf(op).value)
    ensures
      var (st2, u, n) := Targets(st);
      r == Choose(u, n, st2.next, b.terminator.trueTarget, b.terminator.falseTarget) + [RETURN_INST] &&
      DefSites(r).Keys == {u, n, st2.next} && st.next <= st2.next
    ensures SelectedCode(b) == base + tail + r && TwoPieces(base + tail, r)
  {
    hide SelectAll, SelectedCode, TwoPieces, Static, CompareCode, Choose, Test, Types, WellTyped, Ordered, DefSites,
      ReadInto, SC.WellNumbered, IsReader;
    st0, base, st1, mid, st := CompareBlockCode(b, pre, fetched, op, x, y);
    var st', a;
    st', a, r := CondPieces(b);
    TargetsDistinct(st);
    tail := mid + CompareCode(st.vregs[x], st.vregs[y], st1.next, ConditionOf(op).value);
    assert a == base + tail;
  }

  /** A block whose compared values have registers of their own is safe, whatever registers its
      targets take over from values read for the comparison. */
  lemma UnsharedIsSafe(b: Block, pre: seq<Inst>, fetched: seq<Inst>, op: BinaryOpcode, x: ValueId, y: ValueId,
                       alloc: Allocation)
    requires Selectable(b) && EndsInCompare(b, pre, fetched, op, x, y) && Compared(pre, fetched, x, y) &&
             TargetsAfter(b, pre)
    requires Allocates(SelectedCode(b), alloc) && !Share(alloc, RegisterOf(b, x), RegisterOf(b, y))
    ensures Safe(SelectedCode(b), {}, alloc) && Needed(SelectedCode(b), {}) == {}
  {
    if |fetched| == 2 { DistinctReads(b, pre, fetched, op, x, y); }
    hide SelectAll, SelectedCode, TwoPieces, Static, CompareCode, Choose, Test, Types, WellTyped, Ordered, DefSites,
      ReadInto, SC.WellNumbered, IsReader, Safe, Needed, Apart, Compared, Targets, Share;
    var st0, base, st1, mid, st, tail, r := CompareParts(b, pre, fetched, op, x, y);
    var a := base + tail;
    var (st2, u, n) := Targets(st);
    LaterTargets(st0, st, u, n, st2.next, DefSites(r).Keys);
    PiecesApart(a, r, alloc);
    PiecesShaped(a, r);
    TailSafe(st, pre, fetched, mid, x, y, st1.next, ConditionOf(op).value, alloc);
    EarlierOperands(st0, st, pre, x, y, Needed(tail, {}));
    BaseSafe(st0, base, tail, DefSites(r).Keys, alloc);
    SafeAppend(base, tail, {}, alloc);
    PiecesSafe(a, r, alloc);
  }

  lemma PiecesShaped(a: seq<A.Instruction>, r: seq<A.Instruction>)
    requires TwoPieces(a, r)
    ensures WindowShape(a) && WindowShape(r)
  {
  }

  lemma EarlierOperands(st0: SState, st: SState, pre: seq<Inst>, x: ValueId, y: ValueId, needed: set<nat>)
    requires Later(st0, st) && st0.vregs.Keys == Types(pre).Keys && SC.WellNumbered(st0) && x in st.vregs &&
             y in st.vregs
    requires forall v :: v in needed ==> (v == st.vregs[x] && x in Types(pre)) || (v == st.vregs[y] && y in Types(pre))
    ensures forall v :: v in needed ==> v < st0.next
  {
    hide Types;
  }

  /* ---- When the operands cannot share ---- */

  // Two registers used by one instruction are apart
  lemma UsedTogether(a: seq<A.Instruction>, p: nat, u: nat, v: nat)
    requires WindowShape(a) && p < |a| && u in Uses(a[p]) && v in Uses(a[p])
    ensures u in DefSites(a) && v in DefSites(a) && Overlaps(Interval(a, u), Interval(a, v))
  {
    UsedInside(a, p, u);
    UsedInside(a, p, v);
    hide Interval, DefSites, WindowShape, Uses;
  }

  lemma UsedInside(a: seq<A.Instruction>, p: nat, u: nat)
    requires WindowShape(a) && p < |a| && u in Uses(a[p])
    ensures u in DefSites(a) && Interval(a, u).start <= p <= Interval(a, u).end
  {
    hide Uses, Defs;
    assert DefinedBefore(a, u, p);
    DefSiteIsLast(a, u);
    IntervalEnd(a, u);
  }

  /** The compared values have registers of their own when the targets take neither of theirs: in
      particular when each target id is new or is the comparison's own. */
  lemma KeptOperandsApart(b: Block, pre: seq<Inst>, fetched: seq<Inst>, op: BinaryOpcode, x: ValueId, y: ValueId,
                          alloc: Allocation)
    requires Selectable(b) && EndsInCompare(b, pre, fetched, op, x, y) && Allocates(SelectedCode(b), alloc)
    requires SelectAll(INITIAL, b.insts).Some?
    requires
      var (_, u, n) := Targets(SelectAll(INITIAL, b.insts).value.0);
      u != RegisterOf(b, x) && u != RegisterOf(b, y) && n != RegisterOf(b, x) && n != RegisterOf(b, y)
    ensures !Share(alloc, RegisterOf(b, x), RegisterOf(b, y))
  {
    var vx, vy := RegisterOf(b, x), RegisterOf(b, y);
    hide SelectAll, SelectedCode, TwoPieces, Static, Choose, Test, Types, WellTyped, Ordered, DefSites, ReadInto,
      SC.WellNumbered, IsReader, Apart, Targets, Interval, Overlaps, Uses, Defs;
    var st0, base, st1, mid, st, tail, r := CompareParts(b, pre, fetched, op, x, y);
    var a := base + tail;
    PiecesApart(a, r, alloc);
    PiecesShaped(a, r);
    var p := |base| + |mid|;
    assert a[p] == A.TwoOperand(A.CMP, A.X, A.VReg(st.vregs[x]), A.VReg(st.vregs[y]));
    CompareUses(a[p], vx, vy);
    UsedTogether(a, p, vx, vy);
    BelowNext(st, x, y);
    ApartThere(a, alloc - DefSites(r).Keys, vx, vy);
  }

  lemma CompareUses(i: A.Instruction, u: nat, v: nat)
    requires i == A.TwoOperand(A.CMP, A.X, A.VReg(u), A.VReg(v))
    ensures u in Uses(i) && v in Uses(i)
  {
  }

  lemma BelowNext(st: SState, x: ValueId, y: ValueId)
    requires SC.WellNumbered(st) && x in st.vregs && y in st.vregs
    ensures st.vregs[x] < st.next && st.vregs[y] < st.next
  {
  }

  lemma ApartThere(a: seq<A.Instruction>, alloc: Allocation, u: nat, v: nat)
    requires Apart(a, alloc) && u in DefSites(a) && v in DefSites(a) && Overlaps(Interval(a, u), Interval(a, v))
    ensures !Share(alloc, u, v)
  {
    hide DefSites, Interval, Overlaps;
  }

  // Values older than the comparison's own reads cannot share
  lemma OldOperandsApart(b: Block, pre: seq<Inst>, op: BinaryOpcode, x: ValueId, y: ValueId, alloc: Allocation)
    requires Selectable(b) && EndsInCompare(b, pre, [], op, x, y) && Compared(pre, [], x, y) && TargetsAfter(b, pre)
    requires Allocates(SelectedCode(b), alloc)
    ensures !Share(alloc, RegisterOf(b, x), RegisterOf(b, y))
  {
    hide SelectAll, SelectedCode, TwoPieces, Types, WellTyped, Ordered, DefSites, IsReader, Apart, Targets, Share,
      Choose, CompareCode, ReadInto;
    var st0, base, st1, mid, st, tail, r := CompareParts(b, pre, [], op, x, y);
    KeptOperandsApart(b, pre, [], op, x, y, alloc);
  }

  /* ---- When they do share ---- */

  // The same block, comparing a value with itself
  function SelfBlock(b: Block, pre: seq<Inst>, fetched: seq<Inst>, op: BinaryOpcode, o: ValueId): Block
    requires b.terminator.CondBranch?
  {
    Block(pre + fetched + [Inst(b.terminator.cond, BinaryOp(op, I1, o, o))], b.terminator)
  }

  lemma SelfSelectable(b: Block, pre: seq<Inst>, fetched: seq<Inst>, op: BinaryOpcode, x: ValueId, y: ValueId,
                       o: ValueId)
    requires Selectable(b) && EndsInCompare(b, pre, fetched, op, x, y) && (o == x || o == y)
    ensures Selectable(SelfBlock(b, pre, fetched, op, o))
    ensures EndsInCompare(SelfBlock(b, pre, fetched, op, o), pre, fetched, op, o, o)
  {
    var c := b.terminator.cond;
    var insts := pre + fetched;
    Snoc(insts, Inst(c, BinaryOp(op, I1, x, y)));
    Snoc(insts, Inst(c, BinaryOp(op, I1, o, o)));
    var b' := SelfBlock(b, pre, fetched, op, o);
    hide WellTyped, Types;
    assert |b'.insts| == |b.insts| && forall k :: 0 <= k < |b.insts| ==> b'.insts[k].id == b.insts[k].id;
  }

  lemma SameNumbering(st1: SState, st: SState, st': SState, c: ValueId)
    requires Grew(st1, st, c) && Grew(st1, st', c)
    ensures st.vregs == st'.vregs && st.next == st'.next && Targets(st).1 == Targets(st').1 &&
            Targets(st).2 == Targets(st').2
    ensures Targets(st).0.next == Targets(st').0.next
  {
    hide ConstInto;
  }

  // Rewriting forgets which of two sharing registers was named
  lemma SharedCompare(alloc: Allocation, x: nat, y: nat, o: nat, c: nat, cond: A.Condition)
    requires Share(alloc, x, y) && (o == x || o == y)
    ensures RewriteAll(alloc, CompareCode(x, y, c, cond)) == RewriteAll(alloc, CompareCode(o, o, c, cond))
  {
    var code, code' := CompareCode(x, y, c, cond), CompareCode(o, o, c, cond);
    assert forall k :: 0 <= k < 3 ==> Rewrite(alloc, code[k]) == Rewrite(alloc, code'[k]);
    hide RewriteAll;
  }

  lemma RewriteAppend(alloc: Allocation, a: seq<A.Instruction>, b: seq<A.Instruction>)
    ensures RewriteAll(alloc, a + b) == RewriteAll(alloc, a) + RewriteAll(alloc, b)
  {
    hide Rewrite;
    var w, w' := RewriteAll(alloc, a + b), RewriteAll(alloc, a) + RewriteAll(alloc, b);
    assert |w| == |w'| && forall k :: 0 <= k < |w| ==> w[k] == w'[k];
    hide RewriteAll;
  }

  lemma CoveredAppend(alloc: Allocation, a: seq<A.Instruction>, b: seq<A.Instruction>)
    ensures AllCovered(alloc, a + b) <==> AllCovered(alloc, a) && AllCovered(alloc, b)
  {
    hide Covered;
    if AllCovered(alloc, a + b) {
      forall k | 0 <= k < |a| ensures Covered(alloc, a[k]) { assert Covered(alloc, (a + b)[k]); }
      forall k | 0 <= k < |b| ensures Covered(alloc, b[k]) { assert Covered(alloc, (a + b)[|a| + k]); }
    }
  }

  lemma SharedCovered(alloc: Allocation, x: nat, y: nat, o: nat, c: nat, cond: A.Condition)
    requires AllCovered(alloc, CompareCode(x, y, c, cond)) && (o == x || o == y)
    ensures AllCovered(alloc, CompareCode(o, o, c, cond))
  {
    var code, code' := CompareCode(x, y, c, cond), CompareCode(o, o, c, cond);
    assert Covered(alloc, code[0]) && Covered(alloc, code[1]) && Covered(alloc, code[2]);
  }

  // The parts of the block that compares a value with itself are those of the block
  lemma SameParts(b: Block, pre: seq<Inst>, fetched: seq<Inst>, op: BinaryOpcode, x: ValueId, y: ValueId, o: ValueId)
    returns (st0: SState, base: seq<A.Instruction>, mid: seq<A.Instruction>, st: SState, c: nat, cond: A.Condition,
             r: seq<A.Instruction>, ks: set<nat>)
    requires Selectable(b) && EndsInCompare(b, pre, fetched, op, x, y) && (o == x || o == y)
    requires Selectable(SelfBlock(b, pre, fetched, op, o))
    requires EndsInCompare(SelfBlock(b, pre, fetched, op, o), pre, fetched, op, o, o)
    ensures Static(st0, base) && st0.vregs.Keys == Types(pre).Keys && Later(st0, st) && SC.WellNumbered(st)
    ensures SelectAll(INITIAL, pre) == Some((st0, base))
    ensures SelectAll(INITIAL, b.insts).Some? && st == SelectAll(INITIAL, b.insts).value.0
    ensures x in st.vregs && y in st.vregs && o in st.vregs && ReadInto(st, fetched, mid)
    ensures ks == DefSites(r).Keys && (var (st2, u, n) := Targets(st); ks == {u, n, st2.next} && st.next <= st2.next)
    ensures
      var a := base + (mid + CompareCode(st.vregs[x], st.vregs[y], c, cond));
      SelectedCode(b) == a + r && TwoPieces(a, r)
    ensures
      var a := base + (mid + CompareCode(st.vregs[o], st.vregs[o], c, cond));
      SelectedCode(SelfBlock(b, pre, fetched, op, o)) == a + r && TwoPieces(a, r)
  {
    hide SelectAll, SelectedCode, TwoPieces, Static, CompareCode, Choose, Types, WellTyped, Ordered, DefSites,
      ReadInto, SC.WellNumbered, IsReader, Targets, Selectable, Later;
    var st1, tail;
    st0, base, st1, mid, st, tail, r := CompareParts(b, pre, fetched, op, x, y);
    var b' := SelfBlock(b, pre, fetched, op, o);
    var st0', base', st1', mid', st', tail', r' := CompareParts(b', pre, fetched, op, o, o);
    SameTail(base, mid, mid');
    SameNumbering(st1, st, st', b.terminator.cond);
    c, cond, ks := st1.next, ConditionOf(op).value, DefSites(r).Keys;
  }

  lemma SameTail(base: seq<A.Instruction>, mid: seq<A.Instruction>, mid': seq<A.Instruction>)
    requires base + mid == base + mid'
    ensures mid == mid'
  {
    assert (base + mid)[|base|..] == mid && (base + mid')[|base|..] == mid';
  }

  /** When the compared values share a register, the allocated code is that of the block that
      compares the value read last with itself, and for that block it is safe. */
  lemma SharedIsSelf(b: Block, pre: seq<Inst>, fetched: seq<Inst>, op: BinaryOpcode, x: ValueId, y: ValueId,
                     alloc: Allocation)
    requires Selectable(b) && EndsInCompare(b, pre, fetched, op, x, y) && Compared(pre, fetched, x, y) &&
             TargetsAfter(b, pre)
    requires Allocates(SelectedCode(b), alloc) && AllCovered(alloc, SelectedCode(b))
    requires Share(alloc, RegisterOf(b, x), RegisterOf(b, y))
    ensures fetched != []
    ensures
      var b' := SelfBlock(b, pre, fetched, op, fetched[|fetched| - 1].id);
      && Selectable(b') && RewriteAll(alloc, SelectedCode(b)) == RewriteAll(alloc, SelectedCode(b'))
      && Safe(SelectedCode(b'), {}, alloc) && Needed(SelectedCode(b'), {}) == {} && AllCovered(alloc, SelectedCode(b'))
  {
    if fetched == [] { OldOperandsApart(b, pre, op, x, y, alloc); }
    if |fetched| == 2 { DistinctReads(b, pre, fetched, op, x, y); }
    var o := fetched[|fetched| - 1].id;
    SelfSelectable(b, pre, fetched, op, x, y, o);
    hide SelectAll, SelectedCode, TwoPieces, Static, CompareCode, Choose, Types, WellTyped, Ordered, DefSites,
      ReadInto, SC.WellNumbered, IsReader, Safe, Needed, Apart, Compared, Targets, Share, SelfBlock, EndsInCompare,
      Later, Selectable, Covered;
    var st0, base, mid, st, c, cond, r, ks := SameParts(b, pre, fetched, op, x, y, o);
    var (st2, u, n) := Targets(st);
    LaterTargets(st0, st, u, n, st2.next, ks);
    var vx, vy, vo := st.vregs[x], st.vregs[y], st.vregs[o];
    var tail, tail' := mid + CompareCode(vx, vy, c, cond), mid + CompareCode(vo, vo, c, cond);
    ApartPieces(b, base + tail, r, alloc);
    TailSafe(st, pre, fetched, mid, x, y, c, cond, alloc);
    SelfTailSafe(st, fetched, mid, c, cond, alloc);
    EarlierOperands(st0, st, pre, x, y, Needed(tail, {}));
    BaseSafe(st0, base, tail, ks, alloc);
    SafeWithLess(base, Needed(tail, {}), {}, alloc);
    SafeAppend(base, tail', {}, alloc);
    PiecesSafe(base + tail', r, alloc);
    SharedRewriting(alloc, base, mid, vx, vy, vo, c, cond, r);
  }

  lemma ApartPieces(b: Block, a: seq<A.Instruction>, r: seq<A.Instruction>, alloc: Allocation)
    requires SelectedCode(b) == a + r && TwoPieces(a, r) && Allocates(SelectedCode(b), alloc)
    ensures Apart(r, alloc) && Apart(a, alloc - DefSites(r).Keys) && WindowShape(a)
  {
    hide SelectedCode, DefSites, WindowShape, Apart;
    PiecesApart(a, r, alloc);
  }

  lemma SharedRewriting(alloc: Allocation, base: seq<A.Instruction>, mid: seq<A.Instruction>, x: nat, y: nat, o: nat,
                        c: nat,
                        cond: A.Condition, r: seq<A.Instruction>)
    requires Share(alloc, x, y) && (o == x || o == y)
    ensures
      var code := base + (mid + CompareCode(x, y, c, cond)) + r;
      var code' := base + (mid + CompareCode(o, o, c, cond)) + r;
      RewriteAll(alloc, code) == RewriteAll(alloc, code') && (AllCovered(alloc, code) ==> AllCovered(alloc, code'))
  {
    hide CompareCode, Share, RewriteAll, AllCovered;
    var cmp, cmp' := CompareCode(x, y, c, cond), CompareCode(o, o, c, cond);
    SharedCompare(alloc, x, y, o, c, cond);
    RewriteAppend(alloc, mid, cmp);
    RewriteAppend(alloc, mid, cmp');
    RewriteAppend(alloc, base, mid + cmp);
    RewriteAppend(alloc, base, mid + cmp');
    RewriteAppend(alloc, base + (mid + cmp), r);
    RewriteAppend(alloc, base + (mid + cmp'), r);
    CoveredAppend(alloc, mid, cmp);
    CoveredAppend(alloc, mid, cmp');
    CoveredAppend(alloc, base, mid + cmp);
    CoveredAppend(alloc, base, mid + cmp');
    CoveredAppend(alloc, base + (mid + cmp), r);
    CoveredAppend(alloc, base + (mid + cmp'), r);
    if AllCovered(alloc, cmp) { SharedCovered(alloc, x, y, o, c, cond); }
  }
}
