/** Allocation preserves meaning. The analysis knows only the last definition of a register
    and does not see that MOVK reads its destination; it is sound for code in which the
    definitions of each register form one window that nothing interferes with. */
module AllocationCorrect {
  import opened Options
  import opened Words
  import opened Memory
  import opened Arm64
  import opened LivenessSpec
  import opened AllocatorSpec

  /* ---- The shape of code that can be allocated ---- */

  // The definitions of a register are consecutive
  ghost predicate OneWindow(code: seq<Instruction>) {
    forall i, k, j, v :: 0 <= i <= k <= j < |code| && v in Defs(code[i]) && v in Defs(code[j]) ==> v in Defs(code[k])
  }

  // Strictly inside a window nothing is used
  ghost predicate QuietWindow(code: seq<Instruction>) {
    forall i, k, j, v :: 0 <= i < k < j < |code| && v in Defs(code[i]) && v in Defs(code[j]) ==> Uses(code[k]) == {}
  }

  // v is defined before point i
  ghost predicate DefinedBefore(code: seq<Instruction>, v: nat, i: int) {
    exists k :: 0 <= k < i && k < |code| && v in Defs(code[k])
  }

  // A use follows the first definition and no definition follows a use
  ghost predicate DefsThenUses(code: seq<Instruction>) {
    forall j, v :: 0 <= j < |code| && v in Uses(code[j]) ==>
      DefinedBefore(code, v, j) && forall k :: j < k < |code| ==> v !in Defs(code[k])
  }

  // MOVK keeps three quarters of its destination
  predicate ReadsDest(i: Instruction) { i.MoveWide? && !i.op.MOVZ? }

  ghost predicate KeepsInWindow(code: seq<Instruction>) {
    forall j, v :: 0 <= j < |code| && ReadsDest(code[j]) && v in Defs(code[j]) ==> j > 0 && v in Defs(code[j - 1])
  }

  ghost predicate WindowShape(code: seq<Instruction>) {
    OneWindow(code) && QuietWindow(code) && DefsThenUses(code) && KeepsInWindow(code)
  }

  // Physical registers in the code are reserved ones, and destinations are registers
  predicate PlainOperand(o: Operand) { o.Phys? ==> o.reg < FIRST || o.reg > LAST }

  predicate PlainInst(i: Instruction) {
    match i
    case ThreeOperand(_, _, d, a, b) => PlainOperand(d) && PlainOperand(a) && PlainOperand(b) && !d.Imm?
    case TwoOperand(op, _, d, a) => PlainOperand(d) && PlainOperand(a) && !d.Imm? && (op.RET? ==> d.Phys?)
    case MemoryInst(op, _, r, b, _) => PlainOperand(r) && PlainOperand(b) && !r.Imm? && !b.Imm? && (op.LDR? || op.STR?)
    case MoveWide(_, _, d, _, _) => PlainOperand(d) && !d.Imm?
    case Conditional(_, _, d, _) => PlainOperand(d) && !d.Imm?
    case ConditionalSelect(_, _, d, a, b, _) => PlainOperand(d) && PlainOperand(a) && PlainOperand(b) && !d.Imm?
  }

  predicate Plain(code: seq<Instruction>) { forall k :: 0 <= k < |code| ==> PlainInst(code[k]) }

  // What linear scan guarantees about the intervals of the code
  ghost predicate Allocates(code: seq<Instruction>, alloc: Allocation) {
    alloc.Keys == DefSites(code).Keys && InRange(alloc) && Apart(code, alloc)
  }

  ghost predicate InRange(alloc: Allocation) { forall v :: v in alloc ==> FIRST <= alloc[v] <= LAST }

  // Registers whose intervals overlap are kept apart
  ghost predicate Apart(code: seq<Instruction>, alloc: Allocation) {
    forall u, v :: u in alloc && v in alloc && u in DefSites(code) && v in DefSites(code) && u != v &&
                   Overlaps(Interval(code, u), Interval(code, v)) ==>
      alloc[u] != alloc[v]
  }

  predicate AllCovered(alloc: Allocation, code: seq<Instruction>) {
    forall k :: 0 <= k < |code| ==> Covered(alloc, code[k])
  }

  /* ---- What is needed, by true dataflow ---- */

  // All that an instruction reads, the destination of MOVK included
  function Reads(i: Instruction): set<nat> { Uses(i) + if ReadsDest(i) then Defs(i) else {} }

  function NeededBefore(i: Instruction, out: set<nat>): set<nat> { Reads(i) + (out - Defs(i)) }

  // The registers needed before the code, when `out` are needed after it
  function Needed(code: seq<Instruction>, out: set<nat>): set<nat> {
    if code == [] then out else Needed(code[..|code| - 1], NeededBefore(code[|code| - 1], out))
  }

  // The instruction overwrites no physical register that is needed for another value
  ghost predicate Harmless(i: Instruction, out: set<nat>, alloc: Allocation) {
    forall u, v :: u in out && v in Defs(i) && u != v && u in alloc && v in alloc ==> alloc[u] != alloc[v]
  }

  // No instruction does
  ghost predicate Safe(code: seq<Instruction>, out: set<nat>, alloc: Allocation) {
    code == [] ||
    var x := code[|code| - 1];
    Harmless(x, out, alloc) && Safe(code[..|code| - 1], NeededBefore(x, out), alloc)
  }

  lemma {:induction false} NeededAppend(a: seq<Instruction>, b: seq<Instruction>, out: set<nat>)
    ensures Needed(a + b, out) == Needed(a, Needed(b, out))
    decreases |b|
  {
    hide NeededBefore;
    if b == [] {
      assert a + b == a;
    } else {
      var n := |b| - 1;
      assert (a + b)[..|a + b| - 1] == a + b[..n];
      NeededAppend(a, b[..n], NeededBefore(b[n], out));
    }
  }

  lemma {:induction false} SafeAppend(a: seq<Instruction>, b: seq<Instruction>, out: set<nat>, alloc: Allocation)
    ensures Safe(a + b, out, alloc) <==> Safe(a, Needed(b, out), alloc) && Safe(b, out, alloc)
    decreases |b|
  {
    hide NeededBefore, Harmless;
    if b == [] {
      assert a + b == a;
    } else {
      var n := |b| - 1;
      assert (a + b)[..|a + b| - 1] == a + b[..n];
      SafeAppend(a, b[..n], NeededBefore(b[n], out), alloc);
    }
  }

  // Needing less is no harder
  lemma {:induction false} SafeWithLess(code: seq<Instruction>, out: set<nat>, less: set<nat>, alloc: Allocation)
    requires Safe(code, out, alloc) && less <= out
    ensures Safe(code, less, alloc)
  {
    if code != [] {
      var n := |code| - 1;
      hide Reads, Defs;
      SafeWithLess(code[..n], NeededBefore(code[n], out), NeededBefore(code[n], less), alloc);
    }
  }

  /* ---- Simulation ---- */

  // Memory, flags and reserved registers agree, and each register in rs is held by the physical
  // register it was given
  ghost predicate AgreeOn(alloc: Allocation, rs: set<nat>, s: State, s': State) {
    && SameOutside(s, s')
    && (forall v :: v in rs && v in alloc ==> Read(s', Phys(alloc[v])) == Read(s, VReg(v)))
  }

  // Agreement on everything but allocatable and virtual registers
  ghost predicate SameOutside(s: State, s': State) {
    s'.mem == s.mem && s'.flags == s.flags &&
    forall r: Register :: r < FIRST || r > LAST ==> Read(s', Phys(r)) == Read(s, Phys(r))
  }

  predicate SameRead(alloc: Allocation, o: Operand, s: State, s': State) {
    Read(s', RewriteOperand(alloc, o)) == Read(s, o)
  }

  predicate ReadsAgree(alloc: Allocation, i: Instruction, s: State, s': State) {
    match i
    case ThreeOperand(_, _, _, a, b) => SameRead(alloc, a, s, s') && SameRead(alloc, b, s, s')
    case TwoOperand(op, _, d, a) => SameRead(alloc, a, s, s') && (op.CMP? ==> SameRead(alloc, d, s, s'))
    case MemoryInst(op, _, r, b, _) => SameRead(alloc, b, s, s') && (!op.LDR? ==> SameRead(alloc, r, s, s'))
    case MoveWide(op, _, d, _, _) => !op.MOVZ? ==> SameRead(alloc, d, s, s')
    case Conditional(_, _, _, _) => true
    case ConditionalSelect(_, _, _, a, b, _) => SameRead(alloc, a, s, s') && SameRead(alloc, b, s, s')
  }

  // The location an instruction writes
  function Target(i: Instruction): Option<Operand> {
    match i
    case ThreeOperand(_, _, d, _, _) => Some(d)
    case TwoOperand(op, _, d, _) => if op.CMP? || op.RET? then None else Some(d)
    case MemoryInst(op, _, r, _, _) => if op.LDR? then Some(r) else None
    case MoveWide(_, _, d, _, _) => Some(d)
    case Conditional(_, _, d, _) => Some(d)
    case ConditionalSelect(_, _, d, _, _, _) => Some(d)
  }

  // The value written there
  function Written(i: Instruction, s: State): Word {
    if Target(i).Some? then Read(Step(i, s), Target(i).value) else 0
  }

  lemma StepWrites(i: Instruction, s: State)
    requires PlainInst(i)
    ensures Step(i, s).regs == if Target(i).Some? then s.regs[Target(i).value := Written(i, s)] else s.regs
  {
    hide Alu64, Alu32, Unary, CompareFlags, LoadSized, MoveWideValue, Holds, Sized, Store, Offset, Bytes;
  }

  lemma SameEffect(alloc: Allocation, i: Instruction, s: State, s': State)
    requires PlainInst(i) && ReadsAgree(alloc, i, s, s') && s'.mem == s.mem && s'.flags == s.flags
    ensures Written(Rewrite(alloc, i), s') == Written(i, s)
    ensures Step(Rewrite(alloc, i), s').mem == Step(i, s).mem
    ensures Step(Rewrite(alloc, i), s').flags == Step(i, s).flags
  {
    hide Alu64, Alu32, Unary, CompareFlags, LoadSized, Holds, Sized, Store, Offset, Bytes, Field, Chunk;
  }

  lemma RewriteKeepsForm(alloc: Allocation, i: Instruction)
    requires PlainInst(i) && InRange(alloc)
    ensures Target(Rewrite(alloc, i)) == if Target(i).Some? then Some(RewriteOperand(alloc, Target(i).value)) else None
    ensures Target(i).Some? && Target(i).value.VReg? <==> Defs(i) != {}
    ensures Target(i).Some? && Target(i).value.VReg? ==> Defs(i) == {Target(i).value.v}
    ensures Target(i).Some? ==> !Target(i).value.Imm? && PlainOperand(Target(i).value)
    ensures IsReturn(Rewrite(alloc, i)) == IsReturn(i)
  {
  }

  // Step writes the same way even when its operands are not plain
  lemma RewrittenWrites(alloc: Allocation, i: Instruction, s: State)
    requires PlainInst(i)
    ensures
      var j := Rewrite(alloc, i);
      Step(j, s).regs == if Target(j).Some? then s.regs[Target(j).value := Written(j, s)] else s.regs
  {
    hide Alu64, Alu32, Unary, CompareFlags, LoadSized, MoveWideValue, Holds, Sized, Store, Offset, Bytes;
  }

  lemma OperandAgrees(alloc: Allocation, rs: set<nat>, o: Operand, s: State, s': State)
    requires AgreeOn(alloc, rs, s, s') && PlainOperand(o) && VRegs(o) <= rs && VRegs(o) <= alloc.Keys
    ensures SameRead(alloc, o, s, s')
  {
  }

  lemma AllReadsAgree(alloc: Allocation, i: Instruction, rs: set<nat>, s: State, s': State)
    requires AgreeOn(alloc, rs, s, s') && PlainInst(i) && Covered(alloc, i) && Reads(i) <= rs
    ensures ReadsAgree(alloc, i, s, s')
  {
    hide AgreeOn, SameRead, PlainOperand;
    match i
    case ThreeOperand(_, _, _, a, b) =>
      OperandAgrees(alloc, rs, a, s, s');
      OperandAgrees(alloc, rs, b, s, s');
    case TwoOperand(op, _, d, a) =>
      OperandAgrees(alloc, rs, a, s, s');
      if op.CMP? { OperandAgrees(alloc, rs, d, s, s'); }
    case MemoryInst(op, _, r, b, _) =>
      OperandAgrees(alloc, rs, b, s, s');
      if !op.LDR? { OperandAgrees(alloc, rs, r, s, s'); }
    case MoveWide(op, _, d, _, _) =>
      if !op.MOVZ? { OperandAgrees(alloc, rs, d, s, s'); }
    case Conditional(_, _, _, _) =>
    case ConditionalSelect(_, _, _, a, b, _) =>
      OperandAgrees(alloc, rs, a, s, s');
      OperandAgrees(alloc, rs, b, s, s');
  }

  // One rewritten instruction that harms nothing needed after it
  lemma SafeStep(alloc: Allocation, i: Instruction, out: set<nat>, s: State, s': State)
    requires InRange(alloc) && PlainInst(i) && Covered(alloc, i) && Harmless(i, out, alloc)
    requires AgreeOn(alloc, NeededBefore(i, out), s, s')
    ensures AgreeOn(alloc, out, Step(i, s), Step(Rewrite(alloc, i), s'))
  {
    AllReadsAgree(alloc, i, NeededBefore(i, out), s, s');
    SameEffect(alloc, i, s, s');
    StepWrites(i, s);
    RewrittenWrites(alloc, i, s');
    RewriteKeepsForm(alloc, i);
    DefsCovered(alloc, i);
    hide Step, Written, Rewrite, ReadsAgree, PlainInst, Target, Covered, Defs, Reads;
    var t, t' := Step(i, s), Step(Rewrite(alloc, i), s');
    if Target(i).None? {
      NothingWritten(alloc, out, NeededBefore(i, out), s, s', t, t');
    } else {
      OneWritten(alloc, i, out, Target(i).value, Written(i, s), s, s', t, t');
    }
  }

  lemma DefsCovered(alloc: Allocation, i: Instruction)
    requires Covered(alloc, i)
    ensures Defs(i) <= alloc.Keys
  {
  }

  lemma NothingWritten(alloc: Allocation, out: set<nat>, rs: set<nat>, s: State, s': State, t: State, t': State)
    requires AgreeOn(alloc, rs, s, s') && out <= rs
    requires t.regs == s.regs && t'.regs == s'.regs && t'.mem == t.mem && t'.flags == t.flags
    ensures AgreeOn(alloc, out, t, t')
  {
  }

  lemma OneWritten(alloc: Allocation, i: Instruction, out: set<nat>, d: Operand, v: Word,
                   s: State, s': State, t: State, t': State)
    requires InRange(alloc) && AgreeOn(alloc, NeededBefore(i, out), s, s') && Harmless(i, out, alloc)
    requires !d.Imm? && PlainOperand(d) && Defs(i) == VRegs(d) && VRegs(d) <= alloc.Keys
    requires t.regs == s.regs[d := v] && t'.regs == s'.regs[RewriteOperand(alloc, d) := v]
    requires t'.mem == t.mem && t'.flags == t.flags
    ensures AgreeOn(alloc, out, t, t')
  {
    hide Defs, Reads;
    ReservedKept(alloc, d, v, s, s', t, t');
    forall u | u in out && u in alloc ensures Read(t', Phys(alloc[u])) == Read(t, VReg(u)) {
      if VReg(u) != d { assert u in NeededBefore(i, out); }
      PairKept(alloc, d, v, u, s, s', t, t');
    }
  }

  lemma ReservedKept(alloc: Allocation, d: Operand, v: Word, s: State, s': State, t: State, t': State)
    requires InRange(alloc) && SameOutside(s, s') && !d.Imm? && PlainOperand(d) && VRegs(d) <= alloc.Keys
    requires t.regs == s.regs[d := v] && t'.regs == s'.regs[RewriteOperand(alloc, d) := v]
    ensures forall r: Register :: r < FIRST || r > LAST ==> Read(t', Phys(r)) == Read(t, Phys(r))
  {
  }

  // Writing d (and what it was rewritten to) does not disturb another register's pair
  lemma PairKept(alloc: Allocation, d: Operand, v: Word, u: nat, s: State, s': State, t: State, t': State)
    requires u in alloc && FIRST <= alloc[u] <= LAST && !d.Imm? && PlainOperand(d) && (d.VReg? ==> d.v in alloc)
    requires t.regs == s.regs[d := v] && t'.regs == s'.regs[RewriteOperand(alloc, d) := v]
    requires VReg(u) != d ==> Read(s', Phys(alloc[u])) == Read(s, VReg(u)) && (d.VReg? ==> alloc[u] != alloc[d.v])
    ensures Read(t', Phys(alloc[u])) == Read(t, VReg(u))
  {
  }

  /** Rewriting preserves meaning whenever no definition overwrites the register of a value that
      is still needed: whatever is needed after the code is found where it was put. */
  lemma {:induction false} SafeSimulates(code: seq<Instruction>, out: set<nat>, alloc: Allocation, s: State, s': State)
    requires Safe(code, out, alloc) && InRange(alloc) && Plain(code) && AllCovered(alloc, code)
    requires AgreeOn(alloc, Needed(code, out), s, s')
    ensures AgreeOn(alloc, out, Exec(code, s), Exec(RewriteAll(alloc, code), s'))
    decreases |code|
  {
    hide InRange, AgreeOn, Harmless, Step, Rewrite, PlainInst, Covered, NeededBefore;
    if code != [] {
      var n := |code| - 1;
      SafeSimulates(code[..n], NeededBefore(code[n], out), alloc, s, s');
      SafeStep(alloc, code[n], out, Exec(code[..n], s), Exec(RewriteAll(alloc, code[..n]), s'));
      assert RewriteAll(alloc, code) == RewriteAll(alloc, code[..n]) + [Rewrite(alloc, code[n])];
      ExecSnoc(RewriteAll(alloc, code[..n]), Rewrite(alloc, code[n]), s');
    }
  }

  /** The same for a call of code whose only RET is last. */
  lemma SafePreservesMeaning(body: seq<Instruction>, ret: Instruction, alloc: Allocation, s: State, s': State)
    requires IsReturn(ret) && forall k :: 0 <= k < |body| ==> !IsReturn(body[k])
    requires Safe(body, {}, alloc) && Needed(body, {}) == {} && InRange(alloc)
    requires Plain(body + [ret]) && AllCovered(alloc, body) && SameOutside(s, s')
    ensures
      var out, out' := Call(body + [ret], s), Call(RewriteAll(alloc, body + [ret]), s');
      out.Some? && out'.Some? && SameOutside(out.value, out'.value)
  {
    var code := body + [ret];
    var body' := RewriteAll(alloc, body);
    forall k | 0 <= k < |code| ensures IsReturn(Rewrite(alloc, code[k])) == IsReturn(code[k]) {
      assert PlainInst(code[k]);
      RewriteKeepsForm(alloc, code[k]);
    }
    assert Plain(body) by { forall k | 0 <= k < |body| ensures PlainInst(body[k]) { assert PlainInst(code[k]); } }
    RewriteSnoc(alloc, body, ret);
    hide Safe, PlainInst, Rewrite, Exec, Call, RewriteAll, Covered;
    SafeSimulates(body, {}, alloc, s, s');
    CallRunsBody(body, ret, s);
    assert code[|body|] == ret;
    forall k | 0 <= k < |body| ensures !IsReturn(body'[k]) { assert code[k] == body[k]; }
    CallRunsBody(body', Rewrite(alloc, ret), s');
  }

  lemma RewriteSnoc(alloc: Allocation, code: seq<Instruction>, i: Instruction)
    ensures RewriteAll(alloc, code + [i]) == RewriteAll(alloc, code) + [Rewrite(alloc, i)]
    ensures forall k :: 0 <= k < |code| ==> RewriteAll(alloc, code)[k] == Rewrite(alloc, (code + [i])[k])
  {
    assert (code + [i])[..|code|] == code;
  }

  /* ---- Window-shaped code ---- */

  lemma EndsAfterDefinition(code: seq<Instruction>, v: nat)
    requires WindowShape(code) && v in DefSites(code)
    ensures Interval(code, v).start <= Interval(code, v).end
  {
    IntervalEnd(code, v);
  }

  // What is needed is read later, before it is defined again
  lemma {:induction false} NeededIsRead(code: seq<Instruction>, i: nat, u: nat) returns (j: nat)
    requires i <= |code| && u in Needed(code[i..], {})
    ensures i <= j < |code| && u in Reads(code[j]) && forall k :: i <= k < j ==> u !in Defs(code[k])
    decreases |code| - i
  {
    hide Reads, Defs;
    NothingAfter(code);
    j := i;
    if i < |code| {
      assert code[i..] == [code[i]] + code[i + 1..];
      NeededAppend([code[i]], code[i + 1..], {});
      NeededOne(code[i], Needed(code[i + 1..], {}));
      if u !in Reads(code[i]) { j := NeededIsRead(code, i + 1, u); }
    }
  }

  lemma NothingAfter(code: seq<Instruction>)
    ensures Needed(code[|code|..], {}) == {}
  {
    assert code[|code|..] == [];
  }

  lemma NeededOne(x: Instruction, out: set<nat>)
    ensures Needed([x], out) == NeededBefore(x, out)
  {
    assert [x][..0] == [];
  }

  lemma ReadAfterDefinition(code: seq<Instruction>, j: nat, u: nat)
    requires WindowShape(code) && j < |code| && u in Reads(code[j])
    ensures DefinedBefore(code, u, j)
  {
    hide Defs, Uses;
    if u !in Uses(code[j]) { assert u in Defs(code[j - 1]); }
  }

  lemma NotNeeded(code: seq<Instruction>, u: nat)
    requires WindowShape(code)
    ensures u !in Needed(code, {})
  {
    assert code[0..] == code;
    hide WindowShape, Needed, Reads, Defs;
    if u in Needed(code, {}) {
      var j := NeededIsRead(code, 0, u);
      ReadAfterDefinition(code, j, u);
    }
  }

  // Window-shaped code needs nothing from before it
  lemma NothingNeeded(code: seq<Instruction>)
    requires WindowShape(code)
    ensures Needed(code, {}) == {}
  {
    hide WindowShape, Needed;
    forall u ensures u !in Needed(code, {}) { NotNeeded(code, u); }
  }

  // A needed value was defined before and is used later, if the instruction in between is not
  // its own
  lemma NeededAcross(code: seq<Instruction>, i: nat, v: nat, u: nat)
    requires WindowShape(code) && i < |code| && v in Defs(code[i]) && u in Needed(code[i + 1..], {}) && u != v
    ensures DefinedBefore(code, u, i) && u in DefSites(code) && i < Interval(code, u).end
  {
    var j := NeededIsRead(code, i + 1, u);
    ReadAfterDefinition(code, j, u);
    if u in Defs(code[i]) { OneDefinition(code[i], u, v); }
    NeededByUse(code, i, j, u);
    DefSiteIsLast(code, u);
    IntervalEnd(code, u);
    hide Needed, DefSites, Interval, Uses, Defs, WindowShape;
  }

  lemma NeededByUse(code: seq<Instruction>, i: nat, j: nat, u: nat)
    requires WindowShape(code) && i < j < |code| && u in Reads(code[j]) && u !in Defs(code[i])
    requires forall k :: i < k < j ==> u !in Defs(code[k])
    ensures u in Uses(code[j])
  {
    hide Uses, Defs;
    assert ReadsDest(code[j]) && u in Defs(code[j]) ==> u in Defs(code[j - 1]);
  }

  /** A definition inside a window interferes with every value defined before it and used after
      it, although the interval of the window starts only at its end. */
  lemma Interferes(code: seq<Instruction>, i: nat, v: nat, u: nat)
    requires WindowShape(code) && i < |code| && v in Defs(code[i]) && u != v
    requires DefinedBefore(code, u, i) && u in DefSites(code) && i < Interval(code, u).end
    ensures v in DefSites(code) && Overlaps(Interval(code, u), Interval(code, v))
  {
    hide Interval, DefSites, Uses, Defs, WindowShape;
    DefSiteIsLast(code, v);
    IntervalEnd(code, u);
    IntervalEnd(code, v);
    EndsAfterDefinition(code, v);
    if u in Defs(code[i]) { OneDefinition(code[i], u, v); }
    StartsBefore(code, i, u, Interval(code, u).start);
    UsedAfterWindow(code, i, v, u, Interval(code, v).start, Interval(code, u).end);
  }

  // A register that is defined before i, but neither there nor in a window around it, is last defined
  // before i when it is used later
  lemma StartsBefore(code: seq<Instruction>, i: nat, u: nat, du: nat)
    requires WindowShape(code) && i < |code| && DefinedBefore(code, u, i) && u !in Defs(code[i])
    requires du < |code| && u in Defs(code[du])
    ensures du < i
  {
    hide Uses, Defs;
  }

  // A use beyond i of another register is not inside the window of v, which i is in
  lemma UsedAfterWindow(code: seq<Instruction>, i: nat, v: nat, u: nat, dv: nat, eu: nat)
    requires WindowShape(code) && i < eu < |code| && u in Uses(code[eu]) && v in Defs(code[i])
    requires dv < |code| && v in Defs(code[dv])
    ensures eu >= dv
  {
    hide Uses, Defs;
  }

  lemma NoClobber(code: seq<Instruction>, alloc: Allocation, i: nat, v: nat, u: nat)
    requires WindowShape(code) && Apart(code, alloc) && i < |code|
    requires v in Defs(code[i]) && u in Needed(code[i + 1..], {}) && u != v && u in alloc && v in alloc
    ensures alloc[u] != alloc[v]
  {
    NeededAcross(code, i, v, u);
    DefSiteIsLast(code, u);
    hide Needed, Interval, WindowShape;
    Interferes(code, i, v, u);
  }

  // A prefix of window-shaped code is safe when the registers it defines are kept apart
  lemma {:induction false} SafePrefix(code: seq<Instruction>, n: nat, alloc: Allocation)
    requires WindowShape(code) && Apart(code, alloc) && n <= |code|
    ensures Safe(code[..n], Needed(code[n..], {}), alloc)
    decreases n
  {
    hide WindowShape, Apart, Defs;
    if n != 0 {
      var m := n - 1;
      SafePrefix(code, m, alloc);
      assert code[..n] == code[..m] + [code[m]] && code[m..] == [code[m]] + code[n..];
      NeededAppend([code[m]], code[n..], {});
      NeededOne(code[m], Needed(code[n..], {}));
      forall u, v | u in Needed(code[n..], {}) && v in Defs(code[m]) && u != v && u in alloc && v in alloc
        ensures alloc[u] != alloc[v]
      {
        NoClobber(code, alloc, m, v, u);
      }
    }
  }

  /** Intervals are enough for window-shaped code: an allocation that keeps overlapping ones apart
      overwrites nothing that is needed. */
  lemma WindowIsSafe(code: seq<Instruction>, alloc: Allocation)
    requires WindowShape(code) && Apart(code, alloc)
    ensures Safe(code, {}, alloc) && Needed(code, {}) == {}
  {
    hide WindowShape, Apart;
    SafePrefix(code, |code|, alloc);
    assert code[..|code|] == code && code[|code|..] == [];
    NothingNeeded(code);
  }

  /** On window-shaped code the physical register alloc[v] holds v's value from its last definition
      to its last use. */
  lemma AllocationSimulates(code: seq<Instruction>, alloc: Allocation, n: nat, v: nat, s: State, s': State)
    requires WindowShape(code) && Allocates(code, alloc) && Plain(code) && AllCovered(alloc, code)
    requires SameOutside(s, s') && n <= |code| && v in alloc
    requires Interval(code, v).start < n <= Interval(code, v).end
    ensures Read(Exec(RewriteAll(alloc, code)[..n], s'), Phys(alloc[v])) == Read(Exec(code[..n], s), VReg(v))
    ensures SameOutside(Exec(code[..n], s), Exec(RewriteAll(alloc, code)[..n], s'))
  {
    hide WindowShape, Interval, DefSites, PlainInst, Covered, Rewrite, Exec, Safe, Apart;
    SafePrefix(code, n, alloc);
    NothingNeeded(code);
    assert code == code[..n] + code[n..];
    NeededAppend(code[..n], code[n..], {});
    assert RewriteAll(alloc, code)[..n] == RewriteAll(alloc, code[..n]);
    StillNeeded(code, n, v);
    SafeSimulates(code[..n], Needed(code[n..], {}), alloc, s, s');
    hide Needed;
  }

  lemma StillNeeded(code: seq<Instruction>, n: nat, v: nat)
    requires v in DefSites(code) && Interval(code, v).start < n <= Interval(code, v).end
    ensures n <= |code| && v in Needed(code[n..], {})
  {
    IntervalEnd(code, v);
    hide DefSites, Interval;
    ReadIsNeeded(code, n, Interval(code, v).end, v);
  }

  lemma {:induction false} ReadIsNeeded(code: seq<Instruction>, n: nat, j: nat, v: nat)
    requires n <= j < |code| && v in Uses(code[j]) && forall k :: n <= k < j ==> v !in Defs(code[k])
    ensures v in Needed(code[n..], {})
    decreases j - n
  {
    hide Uses, Defs;
    assert code[n..] == [code[n]] + code[n + 1..];
    NeededAppend([code[n]], code[n + 1..], {});
    NeededOne(code[n], Needed(code[n + 1..], {}));
    if n < j { ReadIsNeeded(code, n + 1, j, v); }
  }
}
