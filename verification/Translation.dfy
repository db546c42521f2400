/** Whole translations, down to the bytes: when a block is translated, and what its bytes do. */
module Translation {
  import opened Options
  import opened Words
  import opened Memory
  import opened Guest
  import opened HostLayout
  import opened LivenessSpec
  import opened AllocatorSpec
  import opened AllocationCorrect
  import opened SelectorSpec
  import opened SelectorTotal
  import opened BranchCode
  import opened EncoderCorrect
  import opened MachineCode
  import opened BlockTally
  import opened LiftedBranch
  import opened BranchReuse
  import opened SharedRegisters
  import opened Pipeline
  import opened HostAccess
  import opened BranchOutcome
  import opened AndForXor
  import opened LiftedAnd
  import opened IR
  import A = Arm64
  import RV = RiscV
  import L = LifterSpec
  import LC = LifterCorrect
  import SC = SelectorCorrect

  /* ---- Misencoded instructions ---- */

  ghost predicate SomeEor(code: seq<A.Instruction>) { exists k :: 0 <= k < |code| && IsEor(code[k]) }

  ghost predicate SomeLsr(code: seq<A.Instruction>) { exists k :: 0 <= k < |code| && IsLsr(code[k]) }

  lemma SomeAppend(a: seq<A.Instruction>, b: seq<A.Instruction>)
    ensures SomeEor(a + b) <==> SomeEor(a) || SomeEor(b)
    ensures SomeLsr(a + b) <==> SomeLsr(a) || SomeLsr(b)
  {
    hide IsEor, IsLsr;
    assert forall k :: 0 <= k < |a| ==> (a + b)[k] == a[k];
    assert forall k :: 0 <= k < |b| ==> (a + b)[|a| + k] == b[k];
    assert forall k :: |a| <= k < |a + b| ==> (a + b)[k] == b[k - |a|];
  }

  lemma {:induction false} ChunksNoLsr(v: Word, size: A.DataSize, target: A.Operand, shift: nat, first: bool)
    ensures !SomeLsr(MoveChunks(v, size, target, shift, first))
    decreases 64 - shift
  {
    if shift < 64 {
      hide A.Chunk;
      ChunksNoLsr(v, size, target, shift + 16, first);
      ChunksNoLsr(v, size, target, shift + 16, false);
    }
  }

  lemma ConstClear(ty: Type, v: int, target: A.Operand)
    ensures !SomeLsr(ConstInto(ty, v, target)) && !SomeEor(ConstInto(ty, v, target))
  {
    ChunksNoLsr(ToWord(v), SizeOf(ty), target, 0, true);
    ConstNeutral(ty, v, target);
    hide MoveChunks, ToWord, SizeOf;
  }

  lemma InstructionClear(st: SState, i: Inst)
    requires SelectInstruction(st, i).Some?
    ensures SomeLsr(SelectInstruction(st, i).value.1) <==> i.kind.BinaryOp? && i.kind.op.Shr?
    ensures SomeEor(SelectInstruction(st, i).value.1) <==> i.kind.BinaryOp? && i.kind.op.Xor?
  {
    hide ConstInto, ConditionOf, SizeOf, SextOpcode, ZextOpcode;
    match i.kind
    case Const(ty, v) => ConstClear(ty, v, A.VReg(Assign(Record(st, i.id, ty), i.id).1));
    case BinaryOp(op, _, _, _) =>
      if !IsComparison(op) {
        assert SelectInstruction(st, i).value.1[0].op == OpcodeOf(op);
      }
    case _ =>
  }

  lemma {:induction false} AllTallied(insts: seq<Inst>)
    requires SelectAll(INITIAL, insts).Some?
    ensures SomeEor(SelectAll(INITIAL, insts).value.1) <==> TallyOf(insts).xors > 0
    ensures SomeLsr(SelectAll(INITIAL, insts).value.1) <==> TallyOf(insts).shifts > 0
  {
    hide SelectInstruction, SomeEor, SomeLsr;
    if insts == [] {
      NothingThere();
    } else {
      var n := |insts| - 1;
      AllTallied(insts[..n]);
      var (st, code) := SelectAll(INITIAL, insts[..n]).value;
      InstructionClear(st, insts[n]);
      SomeAppend(code, SelectInstruction(st, insts[n]).value.1);
    }
  }

  lemma NothingThere()
    ensures !SomeEor([]) && !SomeLsr([])
  {
  }

  lemma ExitClear(st: SState, t: Terminator)
    requires SelectExit(st, t).Some?
    ensures !SomeLsr(SelectExit(st, t).value.1 + [RETURN_INST]) && !SomeEor(SelectExit(st, t).value.1 + [RETURN_INST])
  {
    hide ConstInto, Signed;
    match t
    case Branch(target) => ConstClear(I64, Signed(target), A.Phys(A.GUEST_STATE));
    case CondBranch(c, yes, no) =>
      var (st1, yesCode, y) := SelectTarget(st, yes);
      ConstClear(I64, Signed(yes), A.VReg(y));
      ConstClear(I64, Signed(no), A.VReg(SelectTarget(st1, no).2));
    case Return(None) => ConstClear(I64, 0, A.Phys(A.GUEST_STATE));
    case Return(Some(_)) =>
  }

  // Selected code has an EOR for a XOR of the block and a register LSR for a logical right shift
  lemma SelectedTallied(b: Block)
    requires Selectable(b)
    ensures SomeEor(SelectedCode(b)) <==> TallyOf(b.insts).xors > 0
    ensures SomeLsr(SelectedCode(b)) <==> TallyOf(b.insts).shifts > 0
  {
    hide SelectAll, SelectExit, SomeEor, SomeLsr, TallyOf, Selectable, AllClean, SelectedCode;
    var st, body := Body(b);
    AllTallied(b.insts);
    ExitClear(st, b.terminator);
    var exit := SelectExit(st, b.terminator).value.1;
    SomeAppend(body, exit + [RETURN_INST]);
    assert body + (exit + [RETURN_INST]) == SelectedCode(b);
  }

  /* ---- When a block is translated ---- */

  lemma AllocatedKinds(alloc: Allocation, code: seq<A.Instruction>)
    requires AllClean(code) && AllCovered(alloc, code) && InRange(alloc)
    ensures AllEncodable(RewriteAll(alloc, code))
    ensures SomeEor(RewriteAll(alloc, code)) == SomeEor(code) && SomeLsr(RewriteAll(alloc, code)) == SomeLsr(code)
  {
    hide Covered, Clean, Rewrite, Emitted, Physical, IsEor, IsLsr;
    var code' := RewriteAll(alloc, code);
    forall k | 0 <= k < |code|
      ensures Encodable(code'[k]) && IsEor(code'[k]) == IsEor(code[k]) && IsLsr(code'[k]) == IsLsr(code[k])
    {
      assert Covered(alloc, code[k]) && Clean(code[k]);
      RewrittenEncodes(alloc, code[k]);
      RewrittenKind(alloc, code[k]);
    }
  }

  /** Every instruction of a block whose registers were allocated encodes to four bytes, whatever ids
      its branch temporaries have; there is an EOR in the code exactly when the guest block has a XOR,
      and a register LSR exactly when it has a logical right shift. */
  lemma BlockEncodes(next: ValueId, insts: seq<RV.Instruction>, order: seq<nat>, ivs: seq<LiveInterval>)
    requires RV.IsBlock(insts) && L.IsOrder(order, L.LiftAll(L.Start(next), RV.Straight(insts)).modified)
    requires AreIntervals(SelectedCode(L.LiftedBlock(next, insts, order)), ivs) && Scan(ivs).Some?
    ensures
      var code := Allocated(SelectedCode(L.LiftedBlock(next, insts, order)), ivs);
      && AllEncodable(code)
      && EncodeAll(code).Some? && |EncodeAll(code).value| == 4 * |code|
      && (SomeEor(code) <==> GuestTally(insts).xors > 0) && (SomeLsr(code) <==> GuestTally(insts).shifts > 0)
  {
    hide Selectable, L.LiftBlock, L.LiftAll, L.IsOrder, RV.IsBlock, RV.Straight, AreIntervals, SelectedCode,
      RewriteAll, EncodeAll, AllEncodable, SomeEor, SomeLsr, Scan, TallyOf, GuestTally, AllClean, AllCovered, Apart,
      DefSites;
    var b := L.LiftedBlock(next, insts, order);
    LiftedSelectable(next, insts, order);
    SelectedAllocates(b, ivs);
    SelectedPlain(b);
    AllocatedKinds(Scan(ivs).value.0, SelectedCode(b));
    SelectedTallied(b);
    EncodingTotal(Allocated(SelectedCode(b), ivs));
    var t := BlockCounted(next, insts, order);
    DenseTally(next, L.LiftBlock(next, insts, order).0, t);
  }

  lemma DenseTally(next: ValueId, l: L.LState, t: Tally)
    requires Dense(next, l, t)
    ensures TallyOf(l.code) == t
  {
  }

  lemma DefinitionMentions(i: A.Instruction, v: nat)
    requires v in Defs(i)
    ensures MentionsVirtual(i)
  {
  }

  /** Fail-stop: when allocation fails, virtual registers are left in the code, and encoding
      throws before anything runs. */
  lemma AllocationFailureStops(code: seq<A.Instruction>, ivs: seq<LiveInterval>)
    requires AreIntervals(code, ivs) && Scan(ivs).None?
    ensures EncodeAll(Allocated(code, ivs)).None?
  {
    var v := ivs[0].vreg;
    DefSiteIsLast(code, v);
    var k := DefSites(code)[v];
    DefinitionMentions(code[k], v);
    VirtualStops(code, k);
  }

  /** Translation yields bytes exactly when no program point lies in more than 28 intervals, for
      every block. */
  lemma TranslationSucceedsIff(next: ValueId, insts: seq<RV.Instruction>, order: seq<nat>, ivs: seq<LiveInterval>)
    requires RV.IsBlock(insts) && L.IsOrder(order, L.LiftAll(L.Start(next), RV.Straight(insts)).modified)
    requires AreIntervals(SelectedCode(L.LiftedBlock(next, insts, order)), ivs)
    ensures
      EncodeAll(Allocated(SelectedCode(L.LiftedBlock(next, insts, order)), ivs)).Some? <==>
      forall p :: |Covering(ivs, p)| <= LAST
  {
    hide Selectable, L.LiftedBlock, L.LiftAll, L.IsOrder, RV.IsBlock, AreIntervals, SelectedCode, Allocated,
      EncodeAll, AllEncodable, Scan, GuestTally, Covering, Scannable, Allocates, AllCovered;
    var b := L.LiftedBlock(next, insts, order);
    LiftedSelectable(next, insts, order);
    SelectedAllocates(b, ivs);
    FailsIffCrowded(ivs);
    if Scan(ivs).None? {
      AllocationFailureStops(SelectedCode(b), ivs);
    } else {
      BlockEncodes(next, insts, order, ivs);
    }
  }

  /* ---- What the bytes of a block do ---- */

  lemma BytesReturn(l: Layout, s: A.State, out: Option<A.State>, out': Option<A.State>, g: GuestState, pc: Word)
    requires Returned(l, s, out, g, pc) && SameOutcome(out, out')
    ensures Returned(l, s, out', g, pc)
  {
    hide Represents, Confined;
  }

  // Sharing does not depend on the operations of the block
  lemma SharedWithAnd(b: Block, alloc: Allocation)
    requires Selectable(b) && Selectable(AndBlock(b))
    ensures SharedOperands(AndBlock(b), alloc) == SharedOperands(b, alloc)
  {
    hide SelectAll, SelectedCode, Selectable, AllWithAnd, Share;
    SelectedWithAnd(b);
  }

  lemma NoLsrThere(code: seq<A.Instruction>)
    requires !SomeLsr(code)
    ensures forall k :: 0 <= k < |code| ==> !IsLsr(code[k])
  {
  }

  lemma AllocatedWithAnd(b: Block, ivs: seq<LiveInterval>)
    requires Selectable(b) && Selectable(AndBlock(b)) && AreIntervals(SelectedCode(b), ivs) && Scan(ivs).Some?
    ensures AreIntervals(SelectedCode(AndBlock(b)), ivs)
    ensures Allocated(SelectedCode(AndBlock(b)), ivs) == AllWithAnd(Allocated(SelectedCode(b), ivs))
    ensures Quiet(Allocated(SelectedCode(b), ivs))
  {
    hide SelectedCode, Selectable, AllWithAnd, AreIntervals, Scan, RewriteAll, SelectAll, Quiet, SameSites, AndBlock;
    SelectedWithAnd(b);
    WithAndSites(SelectedCode(b));
    SameIntervals(SelectedCode(b), SelectedCode(AndBlock(b)), ivs);
    RewriteWithAnd(Scan(ivs).value.0, SelectedCode(b));
    SelectedQuiet(b);
    RewrittenQuiet(Scan(ivs).value.0, SelectedCode(b));
  }

  // What the translation of a block does, as a function on the guest: its instructions with AND in
  // the place of XOR, without the link, and then the allocated target
  ghost function TranslatedBlock(g: Region, insts: seq<RV.Instruction>, shared: bool,
                                 s: GuestState): Option<(GuestState, Word)>
    requires RV.IsBlock(insts)
  {
    BlockKept(insts);
    var end :- RV.EndState(g, AllAndGuest(insts), s);
    Some((end, AllocatedTarget(AllAndGuest(insts), shared, end)))
  }

  lemma CallReturns(b: Block, alloc: Allocation, s: A.State)
    requires Selectable(b)
    ensures A.Call(RewriteAll(alloc, SelectedCode(b)), s).Some?
  {
    hide SelectedCode, Selectable, A.Call, Rewrite, SC.NoReturn;
    var body := SelectedParts(b);
    BodyReturnsNot(body);
    RewriteSnoc(alloc, body, RETURN_INST);
    RewrittenKind(alloc, RETURN_INST);
    var body' := RewriteAll(alloc, body);
    forall k | 0 <= k < |body'| ensures !A.IsReturn(body'[k]) { RewrittenKind(alloc, body[k]); }
    A.CallRunsBody(body', Rewrite(alloc, RETURN_INST), s);
  }

  /** The bytes of a block without a logical right shift that stays in guest memory return, and run the
      same when nothing but GuestState and the shadow mapping is mapped: they access nothing else. */
  lemma PlainBlockReturns(l: Layout, insts: seq<RV.Instruction>, order: seq<nat>, ivs: seq<LiveInterval>, g: GuestState,
                          s: A.State)
    requires RV.IsBlock(insts) && L.IsOrder(order, Modified(insts)) && Ready(l, s, g) && GuestTally(insts).shifts == 0
    requires AreIntervals(SelectedCode(L.LiftedBlock(1, insts, order)), ivs) && Scan(ivs).Some?
    requires
      TranslatedBlock(l.region, insts, SharedOperands(L.LiftedBlock(1, insts, order), Scan(ivs).value.0), g).Some?
    ensures
      var code := Allocated(SelectedCode(L.LiftedBlock(1, insts, order)), ivs);
      var bytes := EncodeAll(code);
      && bytes.Some? && Run(bytes.value, s).Some? && RunMapped(l, bytes.value, s) == Run(bytes.value, s)
      && SameOutcome(A.Call(AllWithAnd(code), s), Run(bytes.value, s))
  {
    BlockKept(insts);
    hide L.LiftAll, L.IsOrder, RV.IsBlock, Ready, SelectedCode, SharedOperands, RV.Straight, A.Call, Selectable,
      RV.EndState, AreIntervals, Scan, L.LiftedBlock, AllocatedTarget, RewriteAll, AllWithAnd, EncodeAll, Run,
      RunMapped, AllEncodable, SomeEor, SomeLsr, Quiet, AndBlock, AllAndGuest, AllInside;
    var b := L.LiftedBlock(1, insts, order);
    var code := Allocated(SelectedCode(b), ivs);
    LiftedSelectable(1, insts, order);
    LiftedWithAnd(1, insts, order);
    LiftedSelectable(1, AllAndGuest(insts), order);
    AllocatedWithAnd(b, ivs);
    BlockEncodes(1, insts, order, ivs);
    NoLsrThere(code);
    BytesMeanCode(code, s);
    AllocatedInside(l, AllAndGuest(insts), order, ivs, g, s);
    BytesStayInside(l, code, s);
    CallReturns(AndBlock(b), Scan(ivs).value.0, s);
  }

  /** What the bytes of a block do, for every block without a logical right shift. */
  lemma MachineCodeExact(l: Layout, insts: seq<RV.Instruction>, order: seq<nat>, ivs: seq<LiveInterval>, g: GuestState,
                         s: A.State)
    requires RV.IsBlock(insts) && L.IsOrder(order, Modified(insts)) && Ready(l, s, g) && GuestTally(insts).shifts == 0
    requires AreIntervals(SelectedCode(L.LiftedBlock(1, insts, order)), ivs) && Scan(ivs).Some?
    requires
      TranslatedBlock(l.region, insts, SharedOperands(L.LiftedBlock(1, insts, order), Scan(ivs).value.0), g).Some?
    ensures
      var b := L.LiftedBlock(1, insts, order);
      var (g', pc) := TranslatedBlock(l.region, insts, SharedOperands(b, Scan(ivs).value.0), g).value;
      var bytes := EncodeAll(Allocated(SelectedCode(b), ivs));
      bytes.Some? && Returned(l, s, RunMapped(l, bytes.value, s), g', pc)
  {
    BlockKept(insts);
    hide L.LiftAll, L.IsOrder, RV.IsBlock, Ready, Returned, SelectedCode, SharedOperands, RV.Straight, A.Call,
      Selectable, RV.EndState, AreIntervals, Scan, L.LiftedBlock, AllocatedTarget, Allocated, AllWithAnd, EncodeAll,
      Run, RunMapped, AllEncodable, SomeEor, SomeLsr, Quiet, SameOutcome, AndBlock, AllAndGuest;
    var b := L.LiftedBlock(1, insts, order);
    var code := Allocated(SelectedCode(b), ivs);
    PlainBlockReturns(l, insts, order, ivs, g, s);
    LiftedSelectable(1, insts, order);
    LiftedWithAnd(1, insts, order);
    LiftedSelectable(1, AllAndGuest(insts), order);
    AllocatedWithAnd(b, ivs);
    SharedWithAnd(b, Scan(ivs).value.0);
    BlockExact(l, AllAndGuest(insts), order, ivs, g, s);
    var end := RV.EndState(l.region, AllAndGuest(insts), g).value;
    BytesReturn(l, s, A.Call(AllWithAnd(code), s), Run(EncodeAll(code).value, s), end,
      AllocatedTarget(AllAndGuest(insts), SharedOperands(b, Scan(ivs).value.0), end));
  }

  lemma NoReturnBefore(b: Block, ivs: seq<LiveInterval>, n: nat)
    requires Selectable(b) && AreIntervals(SelectedCode(b), ivs) && Scan(ivs).Some?
    requires n < |Allocated(SelectedCode(b), ivs)| && IsLsr(Allocated(SelectedCode(b), ivs)[n])
    ensures forall j :: 0 <= j < n ==> !A.IsReturn(Allocated(SelectedCode(b), ivs)[j])
  {
    hide SelectedCode, Selectable, AreIntervals, Scan, Rewrite, IsLsr, SC.NoReturn;
    var body := SelectedParts(b);
    var alloc, code := Scan(ivs).value.0, SelectedCode(b);
    LastIsReturn(alloc, body, n);
    BodyReturnsNot(body);
    forall j | 0 <= j < n ensures !A.IsReturn(Allocated(code, ivs)[j]) {
      assert code[j] == body[j];
      RewrittenKind(alloc, code[j]);
    }
  }

  lemma BodyReturnsNot(body: seq<A.Instruction>)
    requires SC.NoReturn(body)
    ensures forall k :: 0 <= k < |body| ==> !A.IsReturn(body[k])
  {
  }

  lemma LastIsReturn(alloc: Allocation, body: seq<A.Instruction>, n: nat)
    requires n <= |body| && IsLsr(RewriteAll(alloc, body + [RETURN_INST])[n])
    ensures n < |body|
  {
    RewrittenKind(alloc, (body + [RETURN_INST])[n]);
  }

  /** A block with a logical right shift is translated, and its bytes come to a word that is not an
      instruction before they return. */
  lemma ShiftBlockStops(insts: seq<RV.Instruction>, order: seq<nat>, ivs: seq<LiveInterval>, s: A.State)
    requires RV.IsBlock(insts) && L.IsOrder(order, Modified(insts)) && GuestTally(insts).shifts > 0
    requires AreIntervals(SelectedCode(L.LiftedBlock(1, insts, order)), ivs) && Scan(ivs).Some?
    ensures
      var bytes := EncodeAll(Allocated(SelectedCode(L.LiftedBlock(1, insts, order)), ivs));
      bytes.Some? && Run(bytes.value, s).None?
  {
    hide L.LiftAll, L.IsOrder, RV.IsBlock, SelectedCode, Selectable, AreIntervals, Scan, L.LiftedBlock, Allocated,
      EncodeAll, Run, AllEncodable, SomeEor, IsLsr;
    var b := L.LiftedBlock(1, insts, order);
    var code := Allocated(SelectedCode(b), ivs);
    LiftedSelectable(1, insts, order);
    BlockEncodes(1, insts, order, ivs);
    var n :| 0 <= n < |code| && IsLsr(code[n]);
    NoReturnBefore(b, ivs, n);
    ShiftStops(code, n, s);
  }

  /* ---- When the bytes do what the instructions do ---- */

  // The same registers and guest memory
  ghost predicate SameView(g: Region, s: GuestState, t: GuestState) {
    s.x == t.x && forall a {:trigger At(s.mem, a)} :: InRegion(g, a, 1) ==> At(s.mem, a) == At(t.mem, a)
  }

  lemma SameViewReturned(l: Layout, s: A.State, out: Option<A.State>, g: GuestState, g': GuestState, pc: Word)
    requires Returned(l, s, out, g, pc) && SameView(l.region, g', g)
    ensures Returned(l, s, out, g', pc)
  {
    hide Confined, A.Read, Load;
    forall a | InRegion(l.region, a, 1) ensures At(g'.mem, a) == At(out.value.mem, HostOf(l, a)) {
      assert At(g.mem, a) == At(out.value.mem, HostOf(l, a));
    }
  }

  /** Exactly when the bytes of a block do what its RISC-V instructions do one by one, RET meaning stop:
      it has no logical right shift, and AND in the place of XOR, without the link and with the allocated
      target, comes to the same. */
  lemma MachineCodeCorrectIff(l: Layout, insts: seq<RV.Instruction>, order: seq<nat>, ivs: seq<LiveInterval>,
                              g: GuestState, s: A.State)
    requires RV.IsBlock(insts) && insts != [] && L.IsOrder(order, Modified(insts)) && Ready(l, s, g)
    requires AreIntervals(SelectedCode(L.LiftedBlock(1, insts, order)), ivs) && Scan(ivs).Some?
    requires
      TranslatedBlock(l.region, insts, SharedOperands(L.LiftedBlock(1, insts, order), Scan(ivs).value.0), g).Some?
    requires GuestBlock(l.region, insts, g).Some?
    ensures
      var b, (g', pc) := L.LiftedBlock(1, insts, order), GuestBlock(l.region, insts, g).value;
      var (t, pc') := TranslatedBlock(l.region, insts, SharedOperands(b, Scan(ivs).value.0), g).value;
      var bytes := EncodeAll(Allocated(SelectedCode(b), ivs));
      && bytes.Some?
      && (Returned(l, s, RunMapped(l, bytes.value, s), g', pc) <==>
          GuestTally(insts).shifts == 0 && SameView(l.region, g', t) && pc == pc')
  {
    hide L.LiftAll, L.IsOrder, RV.IsBlock, Ready, SelectedCode, SharedOperands, RV.Straight, TranslatedBlock,
      GuestBlock, AreIntervals, Scan, L.LiftedBlock, Allocated, EncodeAll, Run, RunMapped, SameView, GuestTally,
      Represents, Confined, A.Read;
    var b := L.LiftedBlock(1, insts, order);
    var (g', pc) := GuestBlock(l.region, insts, g).value;
    var (t, pc') := TranslatedBlock(l.region, insts, SharedOperands(b, Scan(ivs).value.0), g).value;
    var bytes := EncodeAll(Allocated(SelectedCode(b), ivs));
    if GuestTally(insts).shifts > 0 {
      ShiftBlockStops(insts, order, ivs, s);
      StopsMapped(l, bytes.value, s);
    } else {
      MachineCodeExact(l, insts, order, ivs, g, s);
      var out := RunMapped(l, bytes.value, s);
      if Returned(l, s, out, g', pc) { UniqueView(l, s, out, g', pc, t, pc'); }
      if SameView(l.region, g', t) { SameViewReturned(l, s, out, t, g', pc'); }
    }
  }

  lemma UniqueView(l: Layout, s: A.State, out: Option<A.State>, g: GuestState, pc: Word, g': GuestState, pc': Word)
    requires Returned(l, s, out, g, pc) && Returned(l, s, out, g', pc')
    ensures SameView(l.region, g, g') && pc == pc'
  {
    hide Returned;
    ReturnedUnique(l, s, out, g, pc, g', pc');
  }

  lemma CountedXor(t: Tally, op: RV.Opcode)
    ensures CountGuest(t, op).xors >= t.xors && (CountGuest(t, op).xors == t.xors ==> !op.XOR? && !op.XORI?)
  {
  }

  lemma {:induction false} NoXorAt(insts: seq<RV.Instruction>, k: nat)
    requires GuestTally(insts).xors == 0 && k < |insts|
    ensures !insts[k].opcode.XOR? && !insts[k].opcode.XORI?
  {
    hide CountGuest;
    var n := |insts| - 1;
    CountedXor(GuestTally(insts[..n]), insts[n].opcode);
    if k < n { NoXorAt(insts[..n], k); }
  }

  lemma NoXorKept(insts: seq<RV.Instruction>)
    requires GuestTally(insts).xors == 0
    ensures AllAndGuest(insts) == insts
  {
    hide GuestTally, AndGuest;
    forall k | 0 <= k < |insts| ensures AndGuest(insts[k]) == insts[k] {
      NoXorAt(insts, k);
      NotXorKept(insts[k]);
    }
    assert AllAndGuest(insts) == insts;
  }

  lemma NotXorKept(i: RV.Instruction)
    requires !i.opcode.XOR? && !i.opcode.XORI?
    ensures AndGuest(i) == i
  {
  }

  /** Without XOR: exactly when there is no logical right shift, the link register of a jump holds the
      link value already, and the branch goes right. */
  lemma PlainCodeCorrectIff(l: Layout, insts: seq<RV.Instruction>, order: seq<nat>, ivs: seq<LiveInterval>,
                            g: GuestState, s: A.State)
    requires RV.IsBlock(insts) && insts != [] && L.IsOrder(order, Modified(insts)) && Ready(l, s, g)
    requires AreIntervals(SelectedCode(L.LiftedBlock(1, insts, order)), ivs) && Scan(ivs).Some?
    requires GuestBlock(l.region, insts, g).Some? && GuestTally(insts).xors == 0
    ensures
      var b, (g', pc) := L.LiftedBlock(1, insts, order), GuestBlock(l.region, insts, g).value;
      var bytes := EncodeAll(Allocated(SelectedCode(b), ivs));
      && bytes.Some? && RV.EndState(l.region, insts, g).Some?
      && var end := RV.EndState(l.region, insts, g).value;
         (Returned(l, s, RunMapped(l, bytes.value, s), g', pc) <==>
          GuestTally(insts).shifts == 0 && LC.LinkHeld(insts, end) &&
            GoesRight(insts, SharedOperands(b, Scan(ivs).value.0), end))
  {
    GuestBlockEnd(l.region, insts, g);
    hide L.LiftAll, L.IsOrder, RV.IsBlock, Ready, SelectedCode, SharedOperands, RV.Straight, GuestBlock, Returned,
      GoesRight, AreIntervals, Scan, L.LiftedBlock, Allocated, EncodeAll, Run, RunMapped, GuestTally, AllocatedTarget,
      RV.EndState, RV.BlockLink, LC.LinkHeld, LC.LiftedTarget;
    NoXorKept(insts);
    MachineCodeCorrectIff(l, insts, order, ivs, g, s);
    var end := RV.EndState(l.region, insts, g).value;
    SupportedBlock(insts);
    LinkHeldIff(insts, end);
    RightIff(insts, SharedOperands(L.LiftedBlock(1, insts, order), Scan(ivs).value.0), end);
  }

  lemma SupportedBlock(insts: seq<RV.Instruction>)
    requires RV.IsBlock(insts)
    ensures RV.AllSupported(insts)
  {
  }

  /* ---- A single XOR ---- */

  predicate IsXor(i: RV.Instruction) { RV.Supported(i) && (i.opcode.XOR? || i.opcode.XORI?) && i.GetRegister(0) != 0 }

  // The two operands of a XOR or XORI
  function XorOperands(i: RV.Instruction, s: GuestState): (Word, Word)
    requires IsXor(i)
  {
    (Get(s, i.GetRegister(1)), if i.opcode.XOR? then Get(s, i.GetRegister(2)) else ToWord(i.GetImmediate(2)))
  }

  lemma OneXorBlocks(g: Region, i: RV.Instruction, shared: bool, s: GuestState)
    requires IsXor(i)
    ensures RV.IsBlock([i])
    ensures
      var (a, b) := XorOperands(i, s);
      && GuestBlock(g, [i], s) == Some((Set(s, i.GetRegister(0), Bits64(BitXor, a, b)), Add(i.address, 4)))
      && TranslatedBlock(g, [i], shared, s) == Some((Set(s, i.GetRegister(0), Bits64(BitAnd, a, b)), Add(i.address, 4)))
  {
    hide Bits64, RV.Body, AllAndGuest, RV.IsBlock, AllocatedTarget, GuestBlock, RV.EndState, AndGuest;
    XorStep(g, i, s);
    OneBlockRuns(g, i, s);
    OneBlockRuns(g, AndGuest(i), s);
    assert AllAndGuest([i]) == [AndGuest(i)] by { OneKept(i); }
    NoTarget([AndGuest(i)], shared, Set(s, i.GetRegister(0), Bits64(BitAnd, XorOperands(i, s).0, XorOperands(i, s).1)));
  }

  lemma OneKept(i: RV.Instruction)
    ensures AllAndGuest([i]) == [AndGuest(i)]
  {
    hide AndGuest;
  }

  // A XOR, and the AND in its place
  lemma XorStep(g: Region, i: RV.Instruction, s: GuestState)
    requires IsXor(i)
    ensures
      var and, (a, b) := AndGuest(i), XorOperands(i, s);
      && RV.Supported(and) && !RV.IsTerminator(i.opcode) && !RV.IsTerminator(and.opcode) && and.address == i.address
      && RV.Step(g, i, s) == Some(Set(s, i.GetRegister(0), Bits64(BitXor, a, b)))
      && RV.Step(g, and, s) == Some(Set(s, i.GetRegister(0), Bits64(BitAnd, a, b)))
  {
    hide Bits64;
  }

  // A block of one instruction that is not a control transfer
  lemma OneBlockRuns(g: Region, i: RV.Instruction, s: GuestState)
    requires RV.Supported(i) && !RV.IsTerminator(i.opcode) && RV.Step(g, i, s).Some?
    ensures RV.IsBlock([i]) && !EndsInBranch([i])
    ensures RV.EndState(g, [i], s) == RV.Step(g, i, s)
    ensures GuestBlock(g, [i], s) == Some((RV.Step(g, i, s).value, Add(i.address, 4)))
    ensures LC.LiftedTarget([i], RV.Step(g, i, s).value) == Add(i.address, 4)
  {
    OneInstruction(g, i, s);
    assert RV.Straight([i]) == [i];
    hide RV.Step, RV.Body;
  }

  lemma NoTarget(insts: seq<RV.Instruction>, shared: bool, end: GuestState)
    requires RV.IsBlock(insts) && !EndsInBranch(insts)
    ensures AllocatedTarget(insts, shared, end) == LC.LiftedTarget(insts, end)
  {
  }

  lemma OneInstruction(g: Region, i: RV.Instruction, s: GuestState)
    requires RV.Supported(i) && !RV.IsTerminator(i.opcode)
    ensures RV.AllSupported([i]) && RV.NoTerminator([i]) && RV.Body(g, [i], s) == RV.Step(g, i, s)
  {
    hide RV.Step;
    assert [i][..0] == [];
    assert RV.Body(g, [], s) == Some(s);
  }

  /** The bytes of a block of one XOR or XORI are right exactly when both operands are zero. */
  lemma OneXorRightIff(l: Layout, i: RV.Instruction, order: seq<nat>, ivs: seq<LiveInterval>, g: GuestState, s: A.State)
    requires IsXor(i) && RV.IsBlock([i]) && L.IsOrder(order, Modified([i])) && Ready(l, s, g)
    requires AreIntervals(SelectedCode(L.LiftedBlock(1, [i], order)), ivs) && Scan(ivs).Some?
    ensures
      var (a, b) := XorOperands(i, g);
      var bytes := EncodeAll(Allocated(SelectedCode(L.LiftedBlock(1, [i], order)), ivs));
      bytes.Some? && GuestBlock(l.region, [i], g).Some? &&
      var (g', pc) := GuestBlock(l.region, [i], g).value;
      (Returned(l, s, RunMapped(l, bytes.value, s), g', pc) <==> a == 0 && b == 0)
  {
    hide L.LiftAll, L.IsOrder, Ready, SelectedCode, SharedOperands, TranslatedBlock, GuestBlock, AreIntervals, Scan,
      L.LiftedBlock, Allocated, EncodeAll, Run, RunMapped, Returned, XorOperands, Bits64, RV.IsBlock;
    OneXorBlocks(l.region, i, SharedOperands(L.LiftedBlock(1, [i], order), Scan(ivs).value.0), g);
    MachineCodeCorrectIff(l, [i], order, ivs, g, s);
    var (a, b) := XorOperands(i, g);
    AndIsXorIff(a, b);
    NoShiftThere(i);
    SameWhenEqual(l.region, g, i.GetRegister(0), Bits64(BitXor, a, b), Bits64(BitAnd, a, b));
  }

  lemma NoShiftThere(i: RV.Instruction)
    requires IsXor(i)
    ensures GuestTally([i]).shifts == 0
  {
    assert [i][..0] == [];
  }

  lemma SameWhenEqual(g: Region, s: GuestState, r: RegNum, v: Word, w: Word)
    requires r != 0
    ensures SameView(g, Set(s, r, v), Set(s, r, w)) <==> v == w
  {
    assert Set(s, r, v).x[r] == v && Set(s, r, w).x[r] == w;
  }
}
