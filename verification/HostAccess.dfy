/** Where translated code accesses host memory: GuestState and the shadow mapping, and nothing else. */
module HostAccess {
  import opened Options
  import opened Words
  import opened Memory
  import opened Guest
  import opened HostLayout
  import opened LivenessSpec
  import opened AllocatorSpec
  import opened AllocationCorrect
  import opened SelectorSpec
  import opened SelectorTotal
  import opened BranchCode
  import opened BranchReuse
  import opened LiftedBranch
  import opened SharedRegisters
  import opened Pipeline
  import opened MachineCode
  import opened EncoderCorrect
  import opened IR
  import A = Arm64
  import E = Encoder
  import RV = RiscV
  import L = LifterSpec
  import LC = LifterCorrect
  import SC = SelectorCorrect

  /* ---- Accesses ---- */

  // Bytes of GuestState or of the shadow mapping
  predicate Mapped(l: Layout, a: int, n: nat) {
    (l.state <= a && a + n <= l.state + STATE_SIZE) || (l.shadow <= a && a + n <= l.shadow + l.region.size)
  }

  // The instruction accesses no memory, or only such bytes
  predicate Inside(l: Layout, i: A.Instruction, s: A.State) {
    i.MemoryInst? ==> Mapped(l, Offset(A.Read(s, i.base), i.offset), A.Bytes(i.size))
  }

  predicate AllInside(l: Layout, code: seq<A.Instruction>, s: A.State) {
    code == [] || (AllInside(l, code[..|code| - 1], s) && Inside(l, code[|code| - 1], A.Exec(code[..|code| - 1], s)))
  }

  lemma {:induction false} InsideAppend(l: Layout, a: seq<A.Instruction>, b: seq<A.Instruction>, s: A.State)
    ensures AllInside(l, a + b, s) <==> AllInside(l, a, s) && AllInside(l, b, A.Exec(a, s))
    decreases |b|
  {
    hide Inside, A.Step;
    if b == [] {
      assert a + b == a;
    } else {
      var n := |b| - 1;
      assert (a + b)[..|a + b| - 1] == a + b[..n];
      InsideAppend(l, a, b[..n], s);
      A.ExecAppend(a, b[..n], s);
    }
  }

  lemma InsideOne(l: Layout, i: A.Instruction, s: A.State)
    ensures AllInside(l, [i], s) <==> Inside(l, i, s)
  {
    hide Inside;
    assert [i][..0] == [];
    assert A.Exec([], s) == s;
  }

  predicate NoAccess(code: seq<A.Instruction>) { forall k :: 0 <= k < |code| ==> !code[k].MemoryInst? }

  lemma {:induction false} NoAccessInside(l: Layout, code: seq<A.Instruction>, s: A.State)
    requires NoAccess(code)
    ensures AllInside(l, code, s)
  {
    if code != [] {
      NoAccessInside(l, code[..|code| - 1], s);
      hide Mapped, A.Exec;
    }
  }

  /* ---- Selected code ---- */

  lemma {:induction false} ChunksNoAccess(v: Word, size: A.DataSize, target: A.Operand, shift: nat, first: bool)
    ensures NoAccess(MoveChunks(v, size, target, shift, first))
    decreases 64 - shift
  {
    if shift < 64 {
      ChunksNoAccess(v, size, target, shift + 16, first);
      ChunksNoAccess(v, size, target, shift + 16, false);
    }
  }

  lemma ConstNoAccess(ty: Type, v: int, target: A.Operand)
    ensures NoAccess(ConstInto(ty, v, target))
  {
    ChunksNoAccess(ToWord(v), SizeOf(ty), target, 0, true);
  }

  // Instructions without an access
  lemma PlainNoAccess(st: SState, i: Inst)
    requires SelectInstruction(st, i).Some?
    requires !i.kind.LoadFrom? && !i.kind.StoreTo? && !i.kind.RegRead? && !i.kind.RegWrite?
    ensures NoAccess(SelectInstruction(st, i).value.1)
  {
    hide ConstInto, SizeOf, ConditionOf, IsComparison, OpcodeOf, SextOpcode, ZextOpcode;
    if i.kind.Const? {
      ConstNoAccess(i.kind.ty, i.kind.value, A.VReg(Assign(Record(st, i.id, i.kind.ty), i.id).1));
    }
  }

  lemma ExitNoAccess(st: SState, term: Terminator)
    requires SelectExit(st, term).Some?
    ensures NoAccess(SelectExit(st, term).value.1 + [RETURN_INST])
  {
    hide ConstInto, Signed;
    match term
    case Branch(target) => ConstNoAccess(I64, Signed(target), A.Phys(A.GUEST_STATE));
    case CondBranch(c, yes, no) =>
      var (st1, yesCode, y) := SelectTarget(st, yes);
      ConstNoAccess(I64, Signed(yes), A.VReg(y));
      ConstNoAccess(I64, Signed(no), A.VReg(SelectTarget(st1, no).2));
    case Return(None) => ConstNoAccess(I64, 0, A.Phys(A.GUEST_STATE));
    case Return(Some(_)) =>
  }

  // A field of GuestState
  lemma FieldInside(l: Layout, i: A.Instruction, s: A.State)
    requires Valid(l) && A.Read(s, A.Phys(A.GUEST_STATE)) == l.state
    requires i.MemoryInst? && i.size.X? && i.base == A.Phys(A.GUEST_STATE) && 0 <= i.offset &&
      i.offset + 8 <= STATE_SIZE
    ensures Inside(l, i, s)
  {
    OffsetInRange(l.state, i.offset);
    hide Offset;
  }

  // A register slot
  lemma SlotInside(l: Layout, op: A.Opcode, o: A.Operand, r: RegNum, s: A.State)
    requires Valid(l) && A.Read(s, A.Phys(A.GUEST_STATE)) == l.state
    ensures AllInside(l, [A.MemoryInst(op, A.X, o, A.Phys(A.GUEST_STATE), REGISTER_SIZE_BYTES * r)], s)
  {
    hide Inside, AllInside, Valid;
    var i := A.MemoryInst(op, A.X, o, A.Phys(A.GUEST_STATE), REGISTER_SIZE_BYTES * r);
    InsideOne(l, i, s);
    FieldInside(l, i, s);
  }

  lemma RegReadInside(l: Layout, h0: Mem, st: SState, t: IR.State, s: A.State, id: ValueId, r: RegNum)
    requires SC.Sim(l, h0, st, t, s)
    ensures AllInside(l, SelectRegRead(st, id, r).1, s)
  {
    hide SC.Sim, SC.HostSim, AllInside, Valid, A.Read;
    SC.SimHost(l, h0, st, t, s);
    SC.HostFacts(l, h0, t, s);
    SlotInside(l, A.LDR, A.VReg(Assign(Record(st, id, I64), id).1), r, s);
  }

  lemma RegWriteInside(l: Layout, h0: Mem, st: SState, t: IR.State, s: A.State, r: RegNum, x: ValueId)
    requires SC.Sim(l, h0, st, t, s) && SelectRegWrite(st, r, x).Some?
    ensures AllInside(l, SelectRegWrite(st, r, x).value.1, s)
  {
    hide SC.Sim, SC.HostSim, AllInside, Valid, A.Read;
    SC.SimHost(l, h0, st, t, s);
    SC.HostFacts(l, h0, t, s);
    SlotInside(l, A.STR, A.VReg(st.vregs[x]), r, s);
  }

  lemma TranslateInside(l: Layout, st: SState, s: A.State, guest: nat)
    requires Valid(l) && A.Read(s, A.Phys(A.GUEST_STATE)) == l.state
    ensures AllInside(l, Translate(st, guest).1, s)
  {
    var bases := LoadBasesCode(st.next);
    var s1 := A.Step(bases[0], s);
    PointerKept(s, bases[0]);
    hide A.Step, Inside, AllInside, A.Exec, Valid, ConvertCode;
    assert bases == [bases[0]] + [bases[1]];
    SC.ExecOne(bases[0], s);
    FieldInside(l, bases[0], s);
    FieldInside(l, bases[1], s1);
    InsideOne(l, bases[0], s);
    InsideOne(l, bases[1], s1);
    InsideAppend(l, [bases[0]], [bases[1]], s);
    ConvertNoAccess(st.next, guest);
    NoAccessInside(l, ConvertCode(st.next, guest), A.Exec(bases, s));
    InsideAppend(l, bases, ConvertCode(st.next, guest), s);
  }

  lemma PointerKept(s: A.State, i: A.Instruction)
    requires i.MemoryInst? && i.op.LDR? && i.reg.VReg?
    ensures A.Read(A.Step(i, s), A.Phys(A.GUEST_STATE)) == A.Read(s, A.Phys(A.GUEST_STATE))
  {
    hide A.LoadSized, Offset;
  }

  lemma ConvertNoAccess(n: nat, guest: nat)
    ensures NoAccess(ConvertCode(n, guest))
  {
  }

  // An access to guest memory inside its region
  lemma ShadowInside(l: Layout, i: A.Instruction, s: A.State, a: Word, ty: Type)
    requires Valid(l) && InRegion(l.region, a, Width(ty)) && i.MemoryInst? && i.offset == 0 && i.size == SizeOf(ty)
    requires A.Read(s, i.base) == HostOf(l, a)
    ensures Inside(l, i, s)
  {
    OffsetInRange(A.Read(s, i.base), 0);
    hide Offset, A.Read;
  }

  // Translation and the access itself
  lemma AccessInside(l: Layout, h0: Mem, st: SState, st1: SState, t: IR.State, s: A.State, addr: ValueId, ty: Type,
                     i: A.Instruction)
    requires SC.Sim(l, h0, st, t, s) && SC.Operand(t, addr, I64) && InRegion(l.region, t.env[addr].bits, Width(ty))
    requires addr in st.vregs && st.vregs[addr] < st1.next
    requires i.MemoryInst? && i.offset == 0 && i.size == SizeOf(ty) && i.base == A.VReg(st1.next)
    ensures AllInside(l, Translate(st1, st.vregs[addr]).1 + [i], s)
  {
    SC.SimHost(l, h0, st, t, s);
    SC.HostFacts(l, h0, t, s);
    SC.SimHeld(l, h0, st, t, s, addr);
    SC.WidthPositive(ty);
    hide SC.Sim, Inside, AllInside, A.Exec, A.Read, Valid, Translate, InRegion, Width, HostOf, Represents, Confined,
      SizeOf, SC.Frame;
    var guest := st.vregs[addr];
    TranslateInside(l, st1, s, guest);
    var s1 := SC.HostTranslate(l, h0, t, st1, s, guest, Width(ty));
    ShadowInside(l, i, s1, t.env[addr].bits, ty);
    InsideOne(l, i, s1);
    InsideAppend(l, Translate(st1, guest).1, [i], s);
  }

  lemma LoadInside(l: Layout, h0: Mem, st: SState, t: IR.State, s: A.State, id: ValueId, ty: Type, addr: ValueId)
    requires SC.Sim(l, h0, st, t, s) && id !in st.vregs && SC.Operand(t, addr, I64)
    requires InRegion(l.region, t.env[addr].bits, Width(ty)) && SelectLoad(st, id, ty, addr).Some?
    ensures AllInside(l, SelectLoad(st, id, ty, addr).value.1, s)
  {
    SC.SimHeld(l, h0, st, t, s, addr);
    hide SC.Sim, Inside, AllInside, A.Exec, A.Read, Valid, InRegion, Width, HostOf, SizeOf, LoadBasesCode,
      ConvertCode;
    var (st1, d) := Assign(Record(st, id, ty), id);
    AccessInside(l, h0, st, st1, t, s, addr, ty, A.MemoryInst(A.LDR, SizeOf(ty), A.VReg(d), A.VReg(st1.next), 0));
  }

  lemma StoreInside(l: Layout, h0: Mem, st: SState, t: IR.State, s: A.State, x: ValueId, addr: ValueId)
    requires SC.Sim(l, h0, st, t, s) && x in t.env && SC.Operand(t, addr, I64)
    requires InRegion(l.region, t.env[addr].bits, Width(t.env[x].ty)) && SelectStore(st, x, addr).Some?
    ensures AllInside(l, SelectStore(st, x, addr).value.1, s)
  {
    SC.SimHeld(l, h0, st, t, s, addr);
    SC.SimHeld(l, h0, st, t, s, x);
    hide SC.Sim, Inside, AllInside, A.Exec, A.Read, Valid, InRegion, Width, HostOf, SizeOf, LoadBasesCode,
      ConvertCode;
    AccessInside(l, h0, st, st, t, s, addr, t.env[x].ty,
      A.MemoryInst(A.STR, SizeOf(t.env[x].ty), A.VReg(st.vregs[x]), A.VReg(st.next), 0));
  }

  lemma InstructionInside(l: Layout, h0: Mem, st: SState, t: IR.State, s: A.State, i: Inst)
    requires SC.Sim(l, h0, st, t, s) && i.id !in st.vregs && SelectInstruction(st, i).Some?
    requires Typed(EnvTypes(t), i.kind) && Accessible(l.region, i.kind, t)
    ensures AllInside(l, SelectInstruction(st, i).value.1, s)
  {
    hide SC.Sim, AllInside, A.Exec, InRegion, Width, SelectLoad, SelectStore, SelectRegRead, SelectRegWrite;
    match i.kind
    case LoadFrom(ty, addr) => LoadInside(l, h0, st, t, s, i.id, ty, addr);
    case StoreTo(x, addr) => StoreInside(l, h0, st, t, s, x, addr);
    case RegRead(r) => RegReadInside(l, h0, st, t, s, i.id, r);
    case RegWrite(r, x) => RegWriteInside(l, h0, st, t, s, r, x);
    case _ =>
      PlainNoAccess(st, i);
      NoAccessInside(l, SelectInstruction(st, i).value.1, s);
  }

  lemma {:induction false} SelectedAllInside(l: Layout, h0: Mem, insts: seq<Inst>, t0: IR.State, s: A.State)
    requires SC.Sim(l, h0, INITIAL, t0, s) && Ordered(insts) && Exec(l.region, insts, t0).Some?
    requires SelectAll(INITIAL, insts).Some?
    ensures AllInside(l, SelectAll(INITIAL, insts).value.1, s)
  {
    hide SC.Sim, Typed, Accessible, Execute, SelectInstruction, A.Exec, AllInside;
    if insts == [] {
      NoAccessInside(l, [], s);
    } else {
      SelectedAllInside(l, h0, insts[..|insts| - 1], t0, s);
      OneMoreInside(l, h0, insts, t0, s);
    }
  }

  lemma OneMoreInside(l: Layout, h0: Mem, insts: seq<Inst>, t0: IR.State, s: A.State)
    requires SC.Sim(l, h0, INITIAL, t0, s) && Ordered(insts) && Exec(l.region, insts, t0).Some? && insts != []
    requires SelectAll(INITIAL, insts).Some? && AllInside(l, SelectAll(INITIAL, insts[..|insts| - 1]).value.1, s)
    ensures AllInside(l, SelectAll(INITIAL, insts).value.1, s)
  {
    hide SC.Sim, Typed, Accessible, Execute, SelectInstruction, A.Exec, AllInside;
    var n := |insts| - 1;
    SC.AllCorrect(l, h0, insts[..n], t0, s);
    var (st, code) := SelectAll(INITIAL, insts[..n]).value;
    SC.RegistersOfCode(INITIAL, insts[..n]);
    InstructionInside(l, h0, st, Exec(l.region, insts[..n], t0).value, A.Exec(code, s), insts[n]);
    InsideAppend(l, code, SelectInstruction(st, insts[n]).value.1, s);
  }

  // Called with X0 at GuestState, selected code stays inside
  lemma SelectedInside(l: Layout, b: Block, g: GuestState, s: A.State)
    requires Selectable(b) && RunBlock(l.region, b, g).Some? && Ready(l, s, g)
    ensures AllInside(l, SelectedCode(b), s)
  {
    hide Represents, Confined, Valid, SelectInstruction, SelectExit, SelectAll, Exec, A.Exec, Ordered, NextPc,
      AllInside, NoAccess, AllClean, Types, WellTyped;
    BlockTotal(b);
    var t0 := Enter(g);
    assert Confined(l, s.mem, s.mem) by { SC.ConfinedRefl(l, s.mem); }
    SelectedAllInside(l, s.mem, b.insts, t0, s);
    var (st, code) := SelectAll(INITIAL, b.insts).value;
    var rest := SelectExit(st, b.terminator).value.1 + [RETURN_INST];
    ExitNoAccess(st, b.terminator);
    NoAccessInside(l, rest, A.Exec(code, s));
    InsideAppend(l, code, rest, s);
    assert SelectedCode(b) == code + rest;
  }

  /* ---- Allocated code ---- */

  lemma InsideRewritten(l: Layout, alloc: Allocation, i: A.Instruction, out: set<nat>, s: A.State, s': A.State)
    requires PlainInst(i) && Covered(alloc, i) && AgreeOn(alloc, NeededBefore(i, out), s, s') && Inside(l, i, s)
    ensures Inside(l, Rewrite(alloc, i), s')
  {
    AllReadsAgree(alloc, i, NeededBefore(i, out), s, s');
    hide AgreeOn, Mapped, PlainInst, Covered, NeededBefore;
  }

  /** An allocation that overwrites nothing needed keeps every access where it was. */
  lemma {:induction false} SafeStaysInside(l: Layout, code: seq<A.Instruction>, out: set<nat>, alloc: Allocation,
                                           s: A.State, s': A.State)
    requires Safe(code, out, alloc) && InRange(alloc) && Plain(code) && AllCovered(alloc, code)
    requires AgreeOn(alloc, Needed(code, out), s, s') && AllInside(l, code, s)
    ensures AllInside(l, RewriteAll(alloc, code), s')
    decreases |code|
  {
    hide InRange, AgreeOn, Harmless, A.Step, Rewrite, PlainInst, Covered, NeededBefore, Inside, A.Exec;
    if code != [] {
      var n := |code| - 1;
      var code' := RewriteAll(alloc, code[..n]);
      SafeStaysInside(l, code[..n], NeededBefore(code[n], out), alloc, s, s');
      SafeSimulates(code[..n], NeededBefore(code[n], out), alloc, s, s');
      InsideRewritten(l, alloc, code[n], out, A.Exec(code[..n], s), A.Exec(code', s'));
      assert RewriteAll(alloc, code)[..n] == code';
    }
  }

  // The allocated code of a block is that of some block that runs and is safe: of itself, or of the
  // one that compares a value with itself
  lemma SafeForm(l: Layout, insts: seq<RV.Instruction>, order: seq<nat>, g: GuestState, alloc: Allocation)
    returns (b': Block)
    requires RV.IsBlock(insts) && L.IsOrder(order, Modified(insts))
    requires
      var b := L.LiftedBlock(1, insts, order);
      RunBlock(l.region, b, g).Some? && Allocates(SelectedCode(b), alloc) && AllCovered(alloc, SelectedCode(b))
    ensures Selectable(b') && RunBlock(l.region, b', g).Some? && AllCovered(alloc, SelectedCode(b')) && InRange(alloc)
    ensures RewriteAll(alloc, SelectedCode(b')) == RewriteAll(alloc, SelectedCode(L.LiftedBlock(1, insts, order)))
    ensures Safe(SelectedCode(b'), {}, alloc) && Needed(SelectedCode(b'), {}) == {}
  {
    hide L.LiftAll, L.LiftedBlock, L.IsOrder, RV.IsBlock, RunBlock, SelectedCode, AllCovered, SharedOperands,
      RewriteAll, Selectable, EndsInCompare, Compared, Numbered, Share, Safe, Needed, Apart, RegisterOf, DefSites,
      EndsInBranch, LastBranch, SelfBlock;
    b' := L.LiftedBlock(1, insts, order);
    LiftedSelectable(1, insts, order);
    if !EndsInBranch(insts) {
      NoBranch(1, insts, order);
      StraightIsSafe(b', alloc);
    } else {
      var pre, fetched, op, x, y := BranchLifts(insts, order);
      TargetsComeAfter(b', pre, fetched, op, x, y, Lead(insts));
      SharedIsShare(b', pre, fetched, op, x, y, alloc);
      if SharedOperands(b', alloc) {
        SharedIsSelf(b', pre, fetched, op, x, y, alloc);
        LastReadCompared(pre, fetched, x, y);
        var o := fetched[|fetched| - 1].id;
        SelfRuns(l.region, b', pre, fetched, op, x, y, o, g);
        b' := SelfBlock(b', pre, fetched, op, o);
      } else {
        UnsharedIsSafe(b', pre, fetched, op, x, y, alloc);
      }
    }
  }

  /** The allocated code of every block that stays in guest memory accesses GuestState and the shadow
      mapping only. */
  lemma AllocatedInside(l: Layout, insts: seq<RV.Instruction>, order: seq<nat>, ivs: seq<LiveInterval>, g: GuestState,
                        s: A.State)
    requires RV.IsBlock(insts) && L.IsOrder(order, Modified(insts)) && Ready(l, s, g)
    requires AreIntervals(SelectedCode(L.LiftedBlock(1, insts, order)), ivs) && Scan(ivs).Some?
    requires RV.EndState(l.region, insts, g).Some?
    ensures AllInside(l, Allocated(SelectedCode(L.LiftedBlock(1, insts, order)), ivs), s)
  {
    hide L.LiftAll, L.IsOrder, RV.IsBlock, RunBlock, Ready, SelectedCode, AllCovered, RewriteAll, Selectable,
      RV.EndState, AreIntervals, Scan, L.LiftBlock, Allocates, Safe, Needed, AllInside, LC.LiftedTarget, Plain,
      InRange;
    LC.LiftPreservesMeaning(l.region, 1, insts, order, g);
    var b, alloc := L.LiftedBlock(1, insts, order), Scan(ivs).value.0;
    LiftedSelectable(1, insts, order);
    SelectedAllocates(b, ivs);
    var b' := SafeForm(l, insts, order, g, alloc);
    SelectedInside(l, b', g, s);
    SelectedPlain(b');
    assert AgreeOn(alloc, {}, s, s);
    SafeStaysInside(l, SelectedCode(b'), {}, alloc, s, s);
  }

  /* ---- Bytes ---- */

  // Fetch, decode and execute on a host where nothing but GuestState and the shadow mapping is
  // mapped: any other access ends the run
  function RunMapped(l: Layout, bytes: seq<bv8>, s: A.State): Option<A.State>
    decreases |bytes|
  {
    if |bytes| < 4 then None
    else
      var i :- E.Decode(E.WordOfBytes(bytes[..4]));
      if A.IsReturn(i) then Some(s)
      else if Inside(l, i, s) then RunMapped(l, bytes[4..], A.Step(i, s))
      else None
  }

  // A run that does not come to its RET does not on such a host either
  lemma {:induction false} StopsMapped(l: Layout, bytes: seq<bv8>, s: A.State)
    requires Run(bytes, s).None?
    ensures RunMapped(l, bytes, s).None?
    decreases |bytes|
  {
    hide E.Decode, E.WordOfBytes, Inside, A.Step;
    if |bytes| >= 4 && E.Decode(E.WordOfBytes(bytes[..4])).Some? {
      var i := E.Decode(E.WordOfBytes(bytes[..4])).value;
      if !A.IsReturn(i) { StopsMapped(l, bytes[4..], A.Step(i, s)); }
    }
  }

  lemma InsideFront(l: Layout, code: seq<A.Instruction>, s: A.State)
    requires code != [] && AllInside(l, code, s)
    ensures Inside(l, code[0], s) && AllInside(l, code[1..], A.Step(code[0], s))
  {
    hide Inside, AllInside, A.Exec, A.Step;
    assert code == [code[0]] + code[1..];
    InsideAppend(l, [code[0]], code[1..], s);
    InsideOne(l, code[0], s);
    SC.ExecOne(code[0], s);
  }

  lemma InsideAsExecuted(l: Layout, i: A.Instruction, s: A.State, s': A.State)
    requires !IsLsr(i) && s'.regs == s.regs && Inside(l, WithAnd(i), s)
    ensures AsExecuted(i).Some? && Inside(l, AsExecuted(i).value, s')
  {
    hide Mapped;
  }

  lemma {:induction false} RunMappedFrom(l: Layout, code: seq<A.Instruction>, bytes: seq<bv8>, k: nat, s: A.State,
                                         s': A.State)
    requires AllEncodable(code) && Quiet(code) && (forall j :: 0 <= j < |code| ==> !IsLsr(code[j]))
    requires k <= |code| && |bytes| == 4 * |code| && Alike(s, s', FlagsNeeded(code[k..]))
    requires forall j :: 0 <= j < |code| ==> E.EncodeInstruction(code[j]) == Some(bytes[4 * j..4 * j + 4])
    requires AllInside(l, AllWithAnd(code)[k..], s)
    ensures RunMapped(l, bytes[4 * k..], s') == Run(bytes[4 * k..], s')
    decreases |code| - k
  {
    hide E.EncodeInstruction, Emitted, Physical, E.Decode, E.WordOfBytes, Canonical, Misencoded, A.Step, AsExecuted,
      WithAnd, IsEor, IsLsr, Inside, AllInside;
    if k < |code| {
      var i := code[k];
      var rest := bytes[4 * k..];
      assert rest[..4] == bytes[4 * k..4 * k + 4];
      EncodingRoundTrip(i);
      ReturnsAsEncoded(i);
      assert code[k..][1..] == code[k + 1..];
      assert AllWithAnd(code)[k..][1..] == AllWithAnd(code)[k + 1..];
      InsideFront(l, AllWithAnd(code)[k..], s);
      InsideAsExecuted(l, i, s, s');
      if !A.IsReturn(i) {
        StepAlike(i, s, s', FlagsNeeded(code[k + 1..]));
        assert rest[4..] == bytes[4 * (k + 1)..];
        RunMappedFrom(l, code, bytes, k + 1, A.Step(WithAnd(i), s), A.Step(AsExecuted(i).value, s'));
      }
    }
  }

  /** The bytes of code that stays inside, with AND in the place of EOR, run the same on a host where
      nothing else is mapped. */
  lemma BytesStayInside(l: Layout, code: seq<A.Instruction>, s: A.State)
    requires AllEncodable(code) && Quiet(code) && forall k :: 0 <= k < |code| ==> !IsLsr(code[k])
    requires AllInside(l, AllWithAnd(code), s)
    ensures EncodeAll(code).Some? && RunMapped(l, EncodeAll(code).value, s) == Run(EncodeAll(code).value, s)
  {
    EncodingTotal(code);
    hide EncodeAll, E.EncodeInstruction, Encodable, Run, RunMapped, Quiet, IsLsr, AllWithAnd, FlagsNeeded, AllInside;
    var bytes := EncodeAll(code).value;
    assert bytes[0..] == bytes && AllWithAnd(code)[0..] == AllWithAnd(code);
    RunMappedFrom(l, code, bytes, 0, s, s);
  }
}
