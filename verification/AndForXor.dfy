/** XOR is encoded as ANDS. Putting AND in the place of XOR commutes with selection and with
    allocation, and no flags are live where it happens. */
module AndForXor {
  import opened Options
  import opened Words
  import opened IR
  import opened LivenessSpec
  import opened AllocatorSpec
  import opened SelectorSpec
  import opened SelectorTotal
  import opened BranchCode
  import opened MachineCode
  import A = Arm64

  /* ---- Flags in selected code ---- */

  // The flags matter neither before the code nor at an EOR in it
  predicate Settled(code: seq<A.Instruction>) { Quiet(code) && !FlagsNeeded(code) }

  lemma {:induction false} SettledAppend(a: seq<A.Instruction>, b: seq<A.Instruction>)
    requires Settled(b) && Settled(a)
    ensures Settled(a + b)
    decreases |a|
  {
    if a == [] {
      assert a + b == b;
    } else {
      assert (a + b)[1..] == a[1..] + b;
      if !FlagsNeeded(a[1..]) {
        RestQuiet(a);
        SettledAppend(a[1..], b);
      }
      QuietAppend(a, b);
      FlagsAppend(a, b);
    }
  }

  lemma RestQuiet(a: seq<A.Instruction>)
    requires Quiet(a) && a != []
    ensures Quiet(a[1..])
  {
    hide FlagsNeeded, IsEor;
    forall k | 0 <= k < |a| - 1 && IsEor(a[1..][k]) ensures !FlagsNeeded(a[1..][k + 1..]) {
      assert a[1..][k] == a[k + 1] && a[1..][k + 1..] == a[k + 2..];
    }
  }

  lemma {:induction false} FlagsAppend(a: seq<A.Instruction>, b: seq<A.Instruction>)
    requires !FlagsNeeded(a) && !FlagsNeeded(b)
    ensures !FlagsNeeded(a + b)
    decreases |a|
  {
    if a == [] {
      assert a + b == b;
    } else {
      assert (a + b)[1..] == a[1..] + b;
      if !FlagsNeeded(a[1..]) { FlagsAppend(a[1..], b); }
    }
  }

  lemma QuietAppend(a: seq<A.Instruction>, b: seq<A.Instruction>)
    requires Quiet(a) && Quiet(b) && !FlagsNeeded(b)
    ensures Quiet(a + b)
  {
    hide FlagsNeeded, IsEor;
    forall k | 0 <= k < |a + b| && IsEor((a + b)[k]) ensures !FlagsNeeded((a + b)[k + 1..]) {
      if k < |a| {
        assert (a + b)[k + 1..] == a[k + 1..] + b;
        FlagsAppend(a[k + 1..], b);
      } else {
        assert (a + b)[k + 1..] == b[k - |a| + 1..];
      }
    }
  }

  // Neither EOR nor a use of the flags
  predicate Neutral(code: seq<A.Instruction>) { forall k :: 0 <= k < |code| ==> !IsEor(code[k]) && !UsesFlags(code[k]) }

  lemma {:induction false} NeutralSettled(code: seq<A.Instruction>)
    requires Neutral(code)
    ensures Settled(code)
  {
    if code != [] { NeutralSettled(code[1..]); }
  }

  predicate NoEor(code: seq<A.Instruction>) { forall k :: 0 <= k < |code| ==> !IsEor(code[k]) }

  lemma {:induction false} ChunksNeutral(v: Word, size: A.DataSize, target: A.Operand, shift: nat, first: bool)
    ensures Neutral(MoveChunks(v, size, target, shift, first))
    decreases 64 - shift
  {
    if shift < 64 {
      hide A.Chunk;
      ChunksNeutral(v, size, target, shift + 16, first);
      ChunksNeutral(v, size, target, shift + 16, false);
    }
  }

  lemma ConstNeutral(ty: Type, v: int, target: A.Operand)
    ensures Neutral(ConstInto(ty, v, target)) && Settled(ConstInto(ty, v, target))
  {
    ChunksNeutral(ToWord(v), SizeOf(ty), target, 0, true);
    hide MoveChunks, ToWord, SizeOf;
    NeutralSettled(ConstInto(ty, v, target));
  }

  lemma OneEorSettled(i: A.Instruction)
    requires !UsesFlags(i)
    ensures Settled([i])
  {
    assert [i][1..] == [];
  }

  lemma CompareSettled(i: A.Instruction, j: A.Instruction)
    requires SetsFlags(i) && !IsEor(j)
    ensures Settled([i, j])
  {
  }

  lemma NeutralParts(st: SState, i: Inst)
    requires SelectInstruction(st, i).Some? && !i.kind.Const? && !i.kind.BinaryOp?
    ensures Neutral(SelectInstruction(st, i).value.1)
  {
    hide SizeOf, SextOpcode, ZextOpcode, Assign, Record, Lookup, ValueType;
  }

  lemma BinarySettled(st: SState, id: ValueId, op: BinaryOpcode, ty: Type, x: ValueId, y: ValueId)
    requires SelectBinary(st, id, op, ty, x, y).Some?
    ensures Settled(SelectBinary(st, id, op, ty, x, y).value.1)
    ensures !op.Xor? ==> NoEor(SelectBinary(st, id, op, ty, x, y).value.1)
  {
    var code := SelectBinary(st, id, op, ty, x, y).value.1;
    if IsComparison(op) { CompareSettled(code[0], code[1]); } else { OneEorSettled(code[0]); }
  }

  lemma NeutralNoEor(code: seq<A.Instruction>)
    requires Neutral(code)
    ensures NoEor(code) && Settled(code)
  {
    NeutralSettled(code);
  }

  // The code of one instruction
  lemma InstructionSettled(st: SState, i: Inst)
    requires SelectInstruction(st, i).Some?
    ensures Settled(SelectInstruction(st, i).value.1)
    ensures !(i.kind.BinaryOp? && i.kind.op.Xor?) ==> NoEor(SelectInstruction(st, i).value.1)
  {
    hide Settled, NoEor, Neutral, SelectBinary, ConstInto;
    match i.kind
    case Const(ty, v) =>
      ConstNeutral(ty, v, A.VReg(Assign(Record(st, i.id, ty), i.id).1));
      NeutralNoEor(SelectInstruction(st, i).value.1);
    case BinaryOp(op, ty, x, y) => BinarySettled(st, i.id, op, ty, x, y);
    case _ =>
      NeutralParts(st, i);
      NeutralNoEor(SelectInstruction(st, i).value.1);
  }

  lemma NothingSettled()
    ensures Settled([])
  {
  }

  lemma {:induction false} AllSettled(insts: seq<Inst>)
    requires SelectAll(INITIAL, insts).Some?
    ensures Settled(SelectAll(INITIAL, insts).value.1)
  {
    hide SelectInstruction, Settled;
    if insts == [] {
      NothingSettled();
    } else {
      var n := |insts| - 1;
      AllSettled(insts[..n]);
      var (st, code) := SelectAll(INITIAL, insts[..n]).value;
      InstructionSettled(st, insts[n]);
      SettledAppend(code, SelectInstruction(st, insts[n]).value.1);
    }
  }

  lemma NoEorAppend(a: seq<A.Instruction>, b: seq<A.Instruction>)
    requires NoEor(a) && NoEor(b)
    ensures NoEor(a + b)
  {
  }

  lemma CompareFirstSettled(code: seq<A.Instruction>)
    requires code != [] && SetsFlags(code[0]) && NoEor(code)
    ensures Settled(code)
  {
  }

  lemma NeutralEnds(i: A.Instruction)
    requires !IsEor(i)
    ensures NoEor([i])
  {
  }

  // The code of the terminator
  lemma ExitSettled(st: SState, t: Terminator)
    requires SelectExit(st, t).Some?
    ensures Settled(SelectExit(st, t).value.1) && NoEor(SelectExit(st, t).value.1)
  {
    hide ConstInto, Signed, Settled, NoEor, Neutral, FlagsNeeded;
    match t
    case Branch(target) =>
      ConstNeutral(I64, Signed(target), A.Phys(A.GUEST_STATE));
      NeutralNoEor(SelectExit(st, t).value.1);
    case CondBranch(c, yes, no) => CondBranchSettled(st, c, yes, no);
    case Return(None) =>
      ConstNeutral(I64, 0, A.Phys(A.GUEST_STATE));
      NeutralNoEor(SelectExit(st, t).value.1);
    case Return(Some(_)) =>
      OneEorSettled(SelectExit(st, t).value.1[0]);
      NeutralEnds(SelectExit(st, t).value.1[0]);
  }

  lemma CondBranchSettled(st: SState, cond: ValueId, yes: Word, no: Word)
    requires SelectCondBranch(st, cond, yes, no).Some?
    ensures Settled(SelectCondBranch(st, cond, yes, no).value.1) && NoEor(SelectCondBranch(st, cond, yes, no).value.1)
  {
    hide ConstInto, Signed, Settled, NoEor, Neutral, FlagsNeeded, SelectCondBranch;
    CondBranchFound(st, cond, yes, no);
    CondBranchCode(st, cond, yes, no);
    var (st2, y, n) := Targets(st);
    ChooseNoEor(y, n, st2.next, yes, no);
    NeutralEnds(Test(st.vregs[cond]));
    NoEorAppend([Test(st.vregs[cond])], Choose(y, n, st2.next, yes, no));
    CompareFirstSettled([Test(st.vregs[cond])] + Choose(y, n, st2.next, yes, no));
  }

  lemma CondBranchFound(st: SState, cond: ValueId, yes: Word, no: Word)
    requires SelectCondBranch(st, cond, yes, no).Some?
    ensures cond in st.vregs
  {
    hide ConstInto;
  }

  lemma ChooseNoEor(y: nat, n: nat, t: nat, yes: Word, no: Word)
    ensures NoEor(Choose(y, n, t, yes, no))
  {
    hide ConstInto, Signed, Settled, NoEor, Neutral;
    ConstNeutral(I64, Signed(yes), A.VReg(y));
    ConstNeutral(I64, Signed(no), A.VReg(n));
    NeutralNoEor(ConstInto(I64, Signed(yes), A.VReg(y)));
    NeutralNoEor(ConstInto(I64, Signed(no), A.VReg(n)));
    var csel := A.ConditionalSelect(A.CSEL, A.X, A.VReg(t), A.VReg(y), A.VReg(n), A.NE);
    var mov := A.TwoOperand(A.MOV, A.X, A.Phys(A.GUEST_STATE), A.VReg(t));
    NeutralEnds(csel);
    NeutralEnds(mov);
    var a, b := ConstInto(I64, Signed(yes), A.VReg(y)), ConstInto(I64, Signed(no), A.VReg(n));
    NoEorAppend(a, b);
    NoEorAppend(a + b, [csel]);
    NoEorAppend(a + b + [csel], [mov]);
  }

  // No flags are live at an EOR of selected code
  lemma SelectedQuiet(b: Block)
    requires Selectable(b)
    ensures Quiet(SelectedCode(b))
  {
    hide SelectAll, SelectExit, SelectedCode, Settled, Selectable, AllClean;
    var st, body := Body(b);
    AllSettled(b.insts);
    ExitSettled(st, b.terminator);
    OneEorSettled(RETURN_INST);
    var exit := SelectExit(st, b.terminator).value.1;
    SettledAppend(body, exit);
    SettledAppend(body + exit, [RETURN_INST]);
    SettledIsQuiet(SelectedCode(b));
  }

  lemma SettledIsQuiet(code: seq<A.Instruction>)
    requires Settled(code)
    ensures Quiet(code)
  {
  }

  /* ---- Rewriting ---- */

  predicate SameKind(i: A.Instruction, j: A.Instruction) {
    && A.IsReturn(i) == A.IsReturn(j) && SetsFlags(i) == SetsFlags(j) && UsesFlags(i) == UsesFlags(j)
    && IsEor(i) == IsEor(j) && IsLsr(i) == IsLsr(j)
  }

  lemma {:induction false} SameNeeds(a: seq<A.Instruction>, b: seq<A.Instruction>)
    requires |a| == |b| && forall k :: 0 <= k < |a| ==> SameKind(a[k], b[k])
    ensures FlagsNeeded(a) == FlagsNeeded(b)
  {
    if a != [] {
      assert forall k :: 0 <= k < |a| - 1 ==> SameKind(a[1..][k], b[1..][k]);
      SameNeeds(a[1..], b[1..]);
    }
  }

  lemma RewrittenKind(alloc: Allocation, i: A.Instruction)
    ensures SameKind(i, Rewrite(alloc, i)) && Rewrite(alloc, WithAnd(i)) == WithAnd(Rewrite(alloc, i))
  {
  }

  lemma RewrittenQuiet(alloc: Allocation, code: seq<A.Instruction>)
    requires Quiet(code)
    ensures Quiet(RewriteAll(alloc, code))
  {
    var code' := RewriteAll(alloc, code);
    hide Rewrite, FlagsNeeded;
    forall k | 0 <= k < |code| ensures SameKind(code[k], code'[k]) { RewrittenKind(alloc, code[k]); }
    forall k | 0 <= k < |code'| && IsEor(code'[k]) ensures !FlagsNeeded(code'[k + 1..]) {
      SameNeeds(code[k + 1..], code'[k + 1..]);
    }
  }

  lemma RewriteWithAnd(alloc: Allocation, code: seq<A.Instruction>)
    ensures RewriteAll(alloc, AllWithAnd(code)) == AllWithAnd(RewriteAll(alloc, code))
  {
    hide Rewrite, WithAnd;
    var a, b := RewriteAll(alloc, AllWithAnd(code)), AllWithAnd(RewriteAll(alloc, code));
    forall k | 0 <= k < |code| ensures a[k] == b[k] { RewrittenKind(alloc, code[k]); }
  }

  /* ---- Selection ---- */

  function AndOp(op: BinaryOpcode): BinaryOpcode { if op.Xor? then And else op }

  function AndKind(k: InstructionKind): InstructionKind {
    match k
    case BinaryOp(op, ty, x, y) => BinaryOp(AndOp(op), ty, x, y)
    case _ => k
  }

  // AND for XOR
  function AndInsts(insts: seq<Inst>): seq<Inst> {
    seq(|insts|, k requires 0 <= k < |insts| => Inst(insts[k].id, AndKind(insts[k].kind)))
  }

  function AndBlock(b: Block): Block { Block(AndInsts(b.insts), b.terminator) }

  lemma WithoutEor(code: seq<A.Instruction>)
    requires NoEor(code)
    ensures AllWithAnd(code) == code
  {
  }

  lemma AllWithAndAppend(a: seq<A.Instruction>, b: seq<A.Instruction>)
    ensures AllWithAnd(a + b) == AllWithAnd(a) + AllWithAnd(b)
  {
    hide WithAnd;
  }

  // The state, and the code with AND for EOR
  function MapCode(r: Option<(SState, seq<A.Instruction>)>): Option<(SState, seq<A.Instruction>)> {
    match r
    case None => None
    case Some((st, code)) => Some((st, AllWithAnd(code)))
  }

  lemma SelectXor(st: SState, id: ValueId, ty: Type, x: ValueId, y: ValueId)
    ensures SelectBinary(st, id, And, ty, x, y) == MapCode(SelectBinary(st, id, Xor, ty, x, y))
  {
    var r := SelectBinary(st, id, Xor, ty, x, y);
    if r.Some? { assert AllWithAnd(r.value.1) == SelectBinary(st, id, And, ty, x, y).value.1; }
  }

  lemma SelectWithAnd(st: SState, i: Inst)
    ensures SelectInstruction(st, Inst(i.id, AndKind(i.kind))) == MapCode(SelectInstruction(st, i))
  {
    hide SelectBinary, NoEor, Settled, AllWithAnd;
    if i.kind.BinaryOp? && i.kind.op.Xor? {
      SelectXor(st, i.id, i.kind.ty, i.kind.lhs, i.kind.rhs);
    } else if SelectInstruction(st, i).Some? {
      assert AndKind(i.kind) == i.kind;
      InstructionSettled(st, i);
      WithoutEor(SelectInstruction(st, i).value.1);
    }
  }

  lemma {:induction false} SelectAllWithAnd(insts: seq<Inst>)
    ensures SelectAll(INITIAL, AndInsts(insts)) == MapCode(SelectAll(INITIAL, insts))
  {
    hide SelectInstruction, AndKind, AllWithAnd;
    if insts == [] {
      assert AndInsts(insts) == [];
      assert AllWithAnd([]) == [] by { WithoutEor([]); }
    } else {
      var n := |insts| - 1;
      var before, i := insts[..n], insts[n];
      assert AndInsts(insts)[..n] == AndInsts(before);
      SelectAllWithAnd(before);
      if SelectAll(INITIAL, before).Some? {
        var (st, code) := SelectAll(INITIAL, before).value;
        SelectWithAnd(st, i);
        if SelectInstruction(st, i).Some? { AllWithAndAppend(code, SelectInstruction(st, i).value.1); }
      }
    }
  }

  /** Selecting the block with AND for XOR gives the code with AND for EOR. */
  lemma SelectedWithAnd(b: Block)
    requires Selectable(b) && Selectable(AndBlock(b))
    ensures SelectedCode(AndBlock(b)) == AllWithAnd(SelectedCode(b))
    ensures SelectAll(INITIAL, b.insts).Some? && SelectAll(INITIAL, AndInsts(b.insts)).Some?
    ensures SelectAll(INITIAL, b.insts).value.0 == SelectAll(INITIAL, AndInsts(b.insts)).value.0
  {
    hide SelectAll, SelectExit, SelectedCode, Settled, Selectable, AllClean, AllWithAnd, NoEor, AndInsts;
    var st, body := Body(b);
    var st', body' := Body(AndBlock(b));
    SelectAllWithAnd(b.insts);
    ExitSettled(st, b.terminator);
    var exit := SelectExit(st, b.terminator).value.1;
    WithoutEor(exit);
    ReturnUnchanged();
    AllWithAndAppend(body, exit);
    AllWithAndAppend(body + exit, [RETURN_INST]);
  }

  lemma ReturnUnchanged()
    ensures AllWithAnd([RETURN_INST]) == [RETURN_INST]
  {
  }

  /* ---- Intervals ---- */

  ghost predicate SameSites(a: seq<A.Instruction>, b: seq<A.Instruction>) {
    |a| == |b| && forall k :: 0 <= k < |a| ==> Uses(a[k]) == Uses(b[k]) && Defs(a[k]) == Defs(b[k])
  }

  lemma {:induction false} SitesSame(a: seq<A.Instruction>, b: seq<A.Instruction>)
    requires SameSites(a, b)
    ensures DefSites(a) == DefSites(b) && UseSites(a) == UseSites(b)
  {
    if a != [] {
      hide Uses, Defs, DefSites, UseSites, DefsAdded, UsesAdded;
      var n := |a| - 1;
      assert Uses(a[n]) == Uses(b[n]) && Defs(a[n]) == Defs(b[n]);
      SitesSame(a[..n], b[..n]);
      DefsStep(a);
      DefsStep(b);
      UsesStep(a);
      UsesStep(b);
      AddedSame(DefSites(a[..n]), UseSites(a[..n]), Defs(a[n]), Uses(a[n]), n, DefSites(a), DefSites(b), UseSites(a),
        UseSites(b));
    }
  }

  lemma AddedSame(defs: map<nat, nat>, uses: map<nat, seq<nat>>, ds: set<nat>, us: set<nat>, n: nat,
                  defs1: map<nat, nat>, defs2: map<nat, nat>, uses1: map<nat, seq<nat>>, uses2: map<nat, seq<nat>>)
    requires DefsAdded(defs, defs1, ds, n) && DefsAdded(defs, defs2, ds, n)
    requires UsesAdded(uses, uses1, us, n) && UsesAdded(uses, uses2, us, n)
    ensures defs1 == defs2 && uses1 == uses2
  {
    hide Sites;
  }

  lemma SameIntervals(a: seq<A.Instruction>, b: seq<A.Instruction>, ivs: seq<LiveInterval>)
    requires SameSites(a, b) && AreIntervals(a, ivs)
    ensures AreIntervals(b, ivs)
  {
    SitesSame(a, b);
    hide DefSites, UseSites;
  }

  lemma WithAndSites(code: seq<A.Instruction>)
    ensures SameSites(code, AllWithAnd(code))
  {
  }
}
