/** The code of a block that ends in a conditional branch, in two pieces: up to the test of the
    condition, and the choice of the target, which may take registers of the first piece. */
module BranchCode {
  import opened Options
  import opened Words
  import opened IR
  import opened SelectorSpec
  import opened SelectorShape
  import opened SelectorTotal
  import opened LivenessSpec
  import opened AllocationCorrect
  import opened Pieces
  import A = Arm64
  import SC = SelectorCorrect

  /* ---- The two pieces ---- */

  // The comparison of the condition with zero
  function Test(c: nat): A.Instruction { A.TwoOperand(A.CMP, A.X, A.VReg(c), A.Imm(0)) }

  // The registers of the two targets, and the state after them
  function Targets(st: SState): (SState, nat, nat) {
    var (st1, _, y) := SelectTarget(st, 0);
    var (st2, _, n) := SelectTarget(st1, 0);
    (st2, y, n)
  }

  // Loads both targets, and leaves the one that the flags choose in X0
  function Choose(y: nat, n: nat, t: nat, yes: Word, no: Word): seq<A.Instruction> {
    ConstInto(I64, Signed(yes), A.VReg(y)) + ConstInto(I64, Signed(no), A.VReg(n))
    + [A.ConditionalSelect(A.CSEL, A.X, A.VReg(t), A.VReg(y), A.VReg(n), A.NE)]
    + [A.TwoOperand(A.MOV, A.X, A.Phys(A.GUEST_STATE), A.VReg(t))]
  }

  lemma CondBranchCode(st: SState, cond: ValueId, yes: Word, no: Word)
    requires cond in st.vregs
    ensures
      var (st2, y, n) := Targets(st);
      SelectCondBranch(st, cond, yes, no) ==
      Some((st2.(next := st2.next + 1), [Test(st.vregs[cond])] + Choose(y, n, st2.next, yes, no)))
  {
    hide ConstInto, Signed;
    var (st1, yesCode, y) := SelectTarget(st, yes);
    var (st2, noCode, n) := SelectTarget(st1, no);
    assert [Test(st.vregs[cond])] + Choose(y, n, st2.next, yes, no) ==
      [Test(st.vregs[cond])] + yesCode + noCode
      + [A.ConditionalSelect(A.CSEL, A.X, A.VReg(st2.next), A.VReg(y), A.VReg(n), A.NE)]
      + [A.TwoOperand(A.MOV, A.X, A.Phys(A.GUEST_STATE), A.VReg(st2.next))];
  }

  // The registers of the targets differ, and the chosen one is new
  lemma TargetsDistinct(st: SState)
    requires SC.WellNumbered(st)
    ensures var (st2, y, n) := Targets(st); y != n && y < st2.next && n < st2.next && st.next <= st2.next
    ensures
      var (st2, y, n) := Targets(st);
      (y >= st.next || (st.next in st.vregs && y == st.vregs[st.next]))
  {
  }

  lemma SitesAreDefs(code: seq<A.Instruction>)
    ensures DefSites(code).Keys == AllDefs(code)
  {
    forall v ensures v in DefSites(code) <==> v in AllDefs(code) {
      DefSiteIsLast(code, v);
      AllDefsMember(code, v);
    }
    hide DefSites, AllDefs;
  }

  lemma ChooseShape(y: nat, n: nat, t: nat, yes: Word, no: Word)
    requires y != n && y != t && n != t
    ensures
      var code := Choose(y, n, t, yes, no) + [RETURN_INST];
      WindowShape(code) && DefSites(code).Keys == {y, n, t}
  {
    var yesCode := ConstInto(I64, Signed(yes), A.VReg(y));
    var noCode := ConstInto(I64, Signed(no), A.VReg(n));
    EmptyShape();
    hide WindowShape, AllDefs, ConstInto, Signed, Defs, Uses, DefSites;
    ConstShape([], I64, Signed(yes), y);
    GrownFacts([], yesCode, {y});
    assert [] + yesCode == yesCode;
    ConstShape(yesCode, I64, Signed(no), n);
    GrownFacts(yesCode, noCode, {n});
    var csel := A.ConditionalSelect(A.CSEL, A.X, A.VReg(t), A.VReg(y), A.VReg(n), A.NE);
    CselShape(yesCode + noCode, t, y, n);
    AllDefsSnoc(yesCode + noCode, csel);
    CselDefines(csel);
    MoveOutShape(yesCode + noCode + [csel], t);
    var mov := A.TwoOperand(A.MOV, A.X, A.Phys(A.GUEST_STATE), A.VReg(t));
    DefineNothing(yesCode + noCode + [csel], mov);
    DefineNothing(yesCode + noCode + [csel] + [mov], RETURN_INST);
    ReturnShape(yesCode + noCode + [csel] + [mov]);
    SitesAreDefs(Choose(y, n, t, yes, no) + [RETURN_INST]);
  }

  lemma EmptyShape()
    ensures WindowShape([]) && AllDefs([]) == {}
  {
  }

  lemma DefineNothing(code: seq<A.Instruction>, x: A.Instruction)
    requires x == RETURN_INST || (x.TwoOperand? && x.op.MOV? && x.dest == A.Phys(A.GUEST_STATE))
    ensures AllDefs(code + [x]) == AllDefs(code)
  {
    AllDefsSnoc(code, x);
  }

  lemma CselDefines(x: A.Instruction)
    requires x.ConditionalSelect? && x.dest.VReg?
    ensures Defs(x) == {x.dest.v}
  {
  }

  lemma ChooseUses(y: nat, n: nat, t: nat, yes: Word, no: Word)
    ensures
      var code := Choose(y, n, t, yes, no) + [RETURN_INST];
      y in UseSites(code) && n in UseSites(code) && t in UseSites(code)
  {
    hide ConstInto, Signed, UseSites;
    var code := Choose(y, n, t, yes, no) + [RETURN_INST];
    var k := |ConstInto(I64, Signed(yes), A.VReg(y))| + |ConstInto(I64, Signed(no), A.VReg(n))|;
    assert code[k] == A.ConditionalSelect(A.CSEL, A.X, A.VReg(t), A.VReg(y), A.VReg(n), A.NE);
    assert code[k + 1] == A.TwoOperand(A.MOV, A.X, A.Phys(A.GUEST_STATE), A.VReg(t));
    hide Choose;
    UsedIsListed(code, y, k);
    UsedIsListed(code, n, k);
    UsedIsListed(code, t, k + 1);
  }

  lemma ChoosePieces(a: seq<A.Instruction>, y: nat, n: nat, t: nat, yes: Word, no: Word)
    requires WindowShape(a) && y != n && y != t && n != t
    ensures TwoPieces(a, Choose(y, n, t, yes, no) + [RETURN_INST])
  {
    hide WindowShape, DefSites, UseSites, Choose;
    ChooseShape(y, n, t, yes, no);
    ChooseUses(y, n, t, yes, no);
  }

  // The test extends the first piece
  lemma TestShape(st: SState, body: seq<A.Instruction>, c: nat)
    requires Static(st, body) && c in AllDefs(body)
    ensures WindowShape(body + [Test(c)]) && AllDefs(body + [Test(c)]) == AllDefs(body)
  {
    StaticFacts(st, body);
    hide Static, WindowShape, AllDefs;
    OpenShape(body, Test(c));
  }

  /* ---- Blocks ---- */

  ghost predicate Selectable(b: Block) {
    WellTyped(b.insts) && Ordered(b.insts) && TypedTerminator(Types(b.insts), b.terminator)
  }

  function SelectedCode(b: Block): seq<A.Instruction> {
    if SelectBlock(INITIAL, b).Some? then SelectBlock(INITIAL, b).value.1 else []
  }

  // The selector's state and code before the terminator
  lemma Body(b: Block) returns (st: SState, body: seq<A.Instruction>)
    requires Selectable(b)
    ensures SelectAll(INITIAL, b.insts) == Some((st, body))
    ensures SelectBlock(INITIAL, b).Some? && SelectExit(st, b.terminator).Some?
    ensures SelectedCode(b) == body + SelectExit(st, b.terminator).value.1 + [RETURN_INST]
    ensures Static(st, body) && Knows(st, Types(b.insts))
    ensures AllClean(body) && AllClean(SelectExit(st, b.terminator).value.1)
  {
    hide SelectAll, SelectExit, WellTyped, Types, AllClean, Static, Knows;
    AllTotal(b.insts);
    TypedOperandsEarlier(b.insts);
    AllShape(b.insts);
    st := SelectAll(INITIAL, b.insts).value.0;
    body := SelectAll(INITIAL, b.insts).value.1;
    ExitTotal(st, Types(b.insts), b.terminator);
    var exit := SelectExit(st, b.terminator).value.1;
    assert body + (exit + [RETURN_INST]) == body + exit + [RETURN_INST];
  }

  lemma ConditionDefined(st: SState, body: seq<A.Instruction>, types: TypeEnv, c: ValueId)
    requires Static(st, body) && Knows(st, types) && c in types
    ensures c in st.vregs && st.vregs[c] in AllDefs(body) && SC.WellNumbered(st)
  {
    hide WindowShape, AllDefs;
  }

  lemma Regrouped(a: seq<A.Instruction>, b: seq<A.Instruction>, c: seq<A.Instruction>, d: seq<A.Instruction>)
    ensures a + (b + c) + d == (a + b) + (c + d)
  {
  }

  // The pieces of a block that ends in a conditional branch
  lemma CondPieces(b: Block) returns (st: SState, a: seq<A.Instruction>, r: seq<A.Instruction>)
    requires Selectable(b) && b.terminator.CondBranch?
    ensures SelectAll(INITIAL, b.insts).Some? && st == SelectAll(INITIAL, b.insts).value.0
    ensures b.terminator.cond in st.vregs && SC.WellNumbered(st)
    ensures a == SelectAll(INITIAL, b.insts).value.1 + [Test(st.vregs[b.terminator.cond])]
    ensures
      var (st2, y, n) := Targets(st);
      r == Choose(y, n, st2.next, b.terminator.trueTarget, b.terminator.falseTarget) + [RETURN_INST] &&
      DefSites(r).Keys == {y, n, st2.next}
    ensures SelectedCode(b) == a + r && TwoPieces(a, r)
  {
    hide SelectAll, SelectBlock, SelectedCode, Types, Static, Knows, AllClean, Choose, Test, TwoPieces,
      SelectCondBranch, Targets, SC.WellNumbered, WellTyped, DefSites;
    var body;
    st, body := Body(b);
    var c, yes, no := b.terminator.cond, b.terminator.trueTarget, b.terminator.falseTarget;
    ConditionDefined(st, body, Types(b.insts), c);
    CondBranchCode(st, c, yes, no);
    TargetsDistinct(st);
    var (st2, y, n) := Targets(st);
    TestShape(st, body, st.vregs[c]);
    a := body + [Test(st.vregs[c])];
    r := Choose(y, n, st2.next, yes, no) + [RETURN_INST];
    ChooseShape(y, n, st2.next, yes, no);
    ChoosePieces(a, y, n, st2.next, yes, no);
    Regrouped(body, [Test(st.vregs[c])], Choose(y, n, st2.next, yes, no), [RETURN_INST]);
  }

  lemma WholePiece(code: seq<A.Instruction>)
    requires WindowShape(code)
    ensures TwoPieces(code, [])
  {
    EmptyShape();
    hide WindowShape;
  }

  /** Every block is selected into two window-shaped pieces. */
  lemma SelectedPieces(b: Block) returns (a: seq<A.Instruction>, r: seq<A.Instruction>)
    requires Selectable(b)
    ensures SelectedCode(b) == a + r && TwoPieces(a, r)
  {
    hide SelectAll, SelectBlock, SelectedCode, Types, Static, AllClean, TwoPieces, WindowShape, WellTyped, Choose,
      Test, Targets;
    if b.terminator.CondBranch? {
      var st;
      st, a, r := CondPieces(b);
    } else {
      var st, body := Body(b);
      TypedOperandsEarlier(b.insts);
      ShapeIffFresh(b);
      a, r := SelectedCode(b), [];
      SelectedWhole(b);
      WholePiece(a);
      assert a + r == a;
    }
  }

  lemma SelectedWhole(b: Block)
    requires SelectBlock(INITIAL, b).Some?
    ensures SelectedCode(b) == SelectBlock(INITIAL, b).value.1
  {
  }
}
