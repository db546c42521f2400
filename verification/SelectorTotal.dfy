/** Selection of well-typed code never throws, and what it emits can be allocated and encoded. */
module SelectorTotal {
  import opened Words
  import opened IR
  import opened SelectorSpec
  import opened AllocatorSpec
  import opened AllocationCorrect
  import opened EncoderCorrect
  import opened SelectorShape
  import A = Arm64

  /* ---- Emitted instructions over X0 and virtual registers, and X30 for RET ---- */

  predicate HostRegister(o: A.Operand) { o.Phys? ==> o.reg == A.GUEST_STATE }

  predicate HostRegisters(i: A.Instruction) {
    match i
    case ThreeOperand(_, _, d, a, b) => HostRegister(d) && HostRegister(a) && HostRegister(b)
    case TwoOperand(op, _, d, a) =>
      if op.RET? then d == A.Phys(A.LINK) && a == d else HostRegister(d) && HostRegister(a)
    case MemoryInst(_, _, r, b, _) => HostRegister(r) && HostRegister(b)
    case MoveWide(_, _, d, _, _) => HostRegister(d)
    case Conditional(_, _, d, _) => HostRegister(d)
    case ConditionalSelect(_, _, d, a, b, _) => HostRegister(d) && HostRegister(a) && HostRegister(b)
  }

  predicate Clean(i: A.Instruction) { Emitted(i) && HostRegisters(i) }

  predicate AllClean(code: seq<A.Instruction>) { forall k :: 0 <= k < |code| ==> Clean(code[k]) }

  lemma CleanIsPlain(i: A.Instruction)
    requires Clean(i)
    ensures PlainInst(i)
  {
  }

  // Rewriting with a register for each virtual register leaves an encodable instruction
  lemma RewrittenEncodes(alloc: Allocation, i: A.Instruction)
    requires Clean(i) && Covered(alloc, i) && forall v :: v in alloc ==> FIRST <= alloc[v] <= LAST
    ensures Emitted(Rewrite(alloc, i)) && Physical(Rewrite(alloc, i))
    ensures Misencoded(Rewrite(alloc, i)) == Misencoded(i)
  {
  }

  lemma CleanAppend(a: seq<A.Instruction>, b: seq<A.Instruction>)
    requires AllClean(a) && AllClean(b)
    ensures AllClean(a + b)
  {
  }

  /* ---- Constants ---- */

  lemma NoHighChunk(value: Word, shift: nat)
    requires value < TWO32 && (shift == 32 || shift == 48)
    ensures A.Chunk(value, shift) == 0
  {
  }

  lemma {:induction false} ChunksClean(value: Word, size: A.DataSize, target: A.Operand, shift: nat, first: bool)
    requires !target.Imm? && HostRegister(target) && (size.X? || (size.W? && value < TWO32))
    requires shift == 0 || shift == 16 || shift == 32 || shift == 48 || shift == 64
    ensures AllClean(MoveChunks(value, size, target, shift, first))
    decreases 64 - shift
  {
    if shift < 64 {
      hide A.Chunk;
      ChunksClean(value, size, target, shift + 16, first);
      ChunksClean(value, size, target, shift + 16, false);
      if size.W? && shift >= 32 { NoHighChunk(value, shift); }
      var x := A.MoveWide(if first then A.MOVZ else A.MOVK, size, target, A.Chunk(value, shift), shift);
      if A.Chunk(value, shift) != 0 { CleanAppend([x], MoveChunks(value, size, target, shift + 16, false)); }
    }
  }

  lemma ConstClean(ty: Type, v: int, target: A.Operand)
    requires ConstInRange(ty, v) && !target.Imm? && HostRegister(target)
    ensures AllClean(ConstInto(ty, v, target))
  {
    if !(-0x1_0000 <= v <= 0xFFFF) { ChunksClean(ToWord(v), SizeOf(ty), target, 0, true); }
    hide MoveChunks;
  }

  /* ---- One instruction ---- */

  // The selector has a register and the right type for each value in scope
  ghost predicate Knows(st: SState, types: TypeEnv) {
    st.vregs.Keys == types.Keys && forall id :: id in types ==> id in st.types && st.types[id] == types[id]
  }

  lemma InstructionTotal(st: SState, types: TypeEnv, i: Inst)
    requires Knows(st, types) && Typed(types, i.kind) && i.id !in types
    ensures SelectInstruction(st, i).Some?
    ensures Knows(SelectInstruction(st, i).value.0, Declare(types, i))
  {
    hide ConstInto, LoadBasesCode, ConvertCode, SizeOf, OpcodeOf, SextOpcode, ZextOpcode, ConditionOf, ConstInRange;
  }

  lemma TranslateClean(st: SState, guest: nat)
    ensures AllClean(Translate(st, guest).1)
  {
  }

  lemma AccessClean(st: SState, guest: nat, op: A.Opcode, size: A.DataSize, v: nat)
    requires op.LDR? || op.STR?
    ensures AllClean(Translate(st, guest).1 + [A.MemoryInst(op, size, A.VReg(v), A.VReg(Translate(st, guest).2), 0)])
  {
    TranslateClean(st, guest);
    hide Translate;
    CleanAppend(Translate(st, guest).1, [A.MemoryInst(op, size, A.VReg(v), A.VReg(Translate(st, guest).2), 0)]);
  }

  lemma BinaryClean(st: SState, types: TypeEnv, id: ValueId, op: BinaryOpcode, ty: Type, x: ValueId, y: ValueId)
    requires Typed(types, BinaryOp(op, ty, x, y)) && SelectBinary(st, id, op, ty, x, y).Some?
    ensures AllClean(SelectBinary(st, id, op, ty, x, y).value.1)
  {
  }

  lemma InstructionClean(st: SState, types: TypeEnv, i: Inst)
    requires Knows(st, types) && Typed(types, i.kind) && i.id !in types && SelectInstruction(st, i).Some?
    ensures AllClean(SelectInstruction(st, i).value.1)
  {
    hide ConstInto, Translate, AllClean, SelectBinary, ConstInRange;
    match i.kind
    case Const(ty, v) => ConstClean(ty, v, A.VReg(Assign(Record(st, i.id, ty), i.id).1));
    case BinaryOp(op, ty, x, y) => BinaryClean(st, types, i.id, op, ty, x, y);
    case LoadFrom(ty, addr) =>
      var (st1, d) := Assign(Record(st, i.id, ty), i.id);
      AccessClean(st1, st1.vregs[addr], A.LDR, SizeOf(ty), d);
    case StoreTo(x, addr) =>
      AccessClean(st, st.vregs[addr], A.STR, SizeOf(ValueType(st, x)), st.vregs[x]);
    case _ => SingleClean(st, types, i);
  }

  // The kinds selected as one instruction
  lemma SingleClean(st: SState, types: TypeEnv, i: Inst)
    requires Knows(st, types) && Typed(types, i.kind) && i.id !in types && SelectInstruction(st, i).Some?
    requires i.kind.Sext? || i.kind.Zext? || i.kind.Trunc? || i.kind.RegRead? || i.kind.RegWrite?
    ensures AllClean(SelectInstruction(st, i).value.1)
  {
  }

  /* ---- Blocks ---- */

  /** Well-typed code is always selected, into encodable instructions. */
  lemma {:induction false} AllTotal(insts: seq<Inst>)
    requires WellTyped(insts) && Ordered(insts)
    ensures SelectAll(INITIAL, insts).Some?
    ensures Knows(SelectAll(INITIAL, insts).value.0, Types(insts))
    ensures AllClean(SelectAll(INITIAL, insts).value.1)
  {
    hide SelectInstruction, Knows, Typed, AllClean;
    if insts == [] {
      assert Knows(INITIAL, map[]) && AllClean([]) by { NothingSelected(); }
    } else {
      var n := |insts| - 1;
      AllTotal(insts[..n]);
      var (st, code) := SelectAll(INITIAL, insts[..n]).value;
      NewId(insts);
      InstructionTotal(st, Types(insts[..n]), insts[n]);
      InstructionClean(st, Types(insts[..n]), insts[n]);
      CleanAppend(code, SelectInstruction(st, insts[n]).value.1);
    }
  }

  lemma NothingSelected()
    ensures Knows(INITIAL, map[]) && AllClean([])
  {
  }

  // Types are those of values the code defines
  lemma {:induction false} TypesDefined(insts: seq<Inst>, id: ValueId)
    requires id in Types(insts)
    ensures exists k :: 0 <= k < |insts| && insts[k].id == id
  {
    if insts != [] {
      var n := |insts| - 1;
      if insts[n].id != id {
        TypesDefined(insts[..n], id);
        assert forall k :: 0 <= k < n ==> insts[..n][k] == insts[k];
      }
    }
  }

  lemma NewId(insts: seq<Inst>)
    requires insts != [] && Ordered(insts)
    ensures insts[|insts| - 1].id !in Types(insts[..|insts| - 1])
  {
    var n := |insts| - 1;
    if insts[n].id in Types(insts[..n]) { TypesDefined(insts[..n], insts[n].id); }
  }

  lemma {:induction false} TypedAt(insts: seq<Inst>, k: nat)
    requires WellTyped(insts) && k < |insts|
    ensures Typed(Types(insts[..k]), insts[k].kind)
    decreases |insts|
  {
    var n := |insts| - 1;
    if k < n {
      TypedAt(insts[..n], k);
      assert insts[..n][..k] == insts[..k];
    }
  }

  lemma OperandsTyped(types: TypeEnv, k: InstructionKind)
    requires Typed(types, k)
    ensures Operands(k) <= types.Keys
  {
  }

  // Typed code uses values after it defines them
  lemma TypedOperandsEarlier(insts: seq<Inst>)
    requires WellTyped(insts) && Ordered(insts)
    ensures OperandsEarlier(insts)
  {
    hide Typed, Operands;
    forall k, id | 0 <= k < |insts| && id in Operands(insts[k].kind) ensures id < insts[k].id {
      TypedAt(insts, k);
      OperandsTyped(Types(insts[..k]), insts[k].kind);
      TypesDefined(insts[..k], id);
    }
  }

  lemma ExitTotal(st: SState, types: TypeEnv, t: Terminator)
    requires Knows(st, types) && TypedTerminator(types, t)
    ensures SelectExit(st, t).Some? && AllClean(SelectExit(st, t).value.1)
  {
    hide ConstInto, Signed, AllClean;
    match t
    case Branch(target) => PcClean(target, A.Phys(A.GUEST_STATE));
    case CondBranch(c, yes, no) => CondBranchClean(st, c, yes, no);
    case Return(None) => ConstClean(I64, 0, A.Phys(A.GUEST_STATE));
    case Return(Some(id)) => OneClean(A.TwoOperand(A.MOV, A.X, A.Phys(A.GUEST_STATE), A.VReg(st.vregs[id])));
  }

  lemma OneClean(i: A.Instruction)
    requires Clean(i)
    ensures AllClean([i])
  {
  }

  lemma PcClean(target: Word, d: A.Operand)
    requires !d.Imm? && HostRegister(d)
    ensures AllClean(ConstInto(I64, Signed(target), d))
  {
    hide ConstInto;
    ConstClean(I64, Signed(target), d);
  }

  lemma CondBranchClean(st: SState, c: ValueId, yes: Word, no: Word)
    requires c in st.vregs
    ensures SelectCondBranch(st, c, yes, no).Some? && AllClean(SelectCondBranch(st, c, yes, no).value.1)
  {
    hide ConstInto, Signed, AllClean;
    var (st1, yesCode, y) := SelectTarget(st, yes);
    var (st2, noCode, n) := SelectTarget(st1, no);
    PcClean(yes, A.VReg(y));
    PcClean(no, A.VReg(n));
    hide SelectTarget;
    var cmp := A.TwoOperand(A.CMP, A.X, A.VReg(st.vregs[c]), A.Imm(0));
    var csel := A.ConditionalSelect(A.CSEL, A.X, A.VReg(st2.next), A.VReg(y), A.VReg(n), A.NE);
    var mov := A.TwoOperand(A.MOV, A.X, A.Phys(A.GUEST_STATE), A.VReg(st2.next));
    OneClean(cmp);
    OneClean(csel);
    OneClean(mov);
    CleanAppend([cmp], yesCode);
    CleanAppend([cmp] + yesCode, noCode);
    CleanAppend([cmp] + yesCode + noCode, [csel]);
    CleanAppend([cmp] + yesCode + noCode + [csel], [mov]);
  }

  /** Every well-typed block is selected without an error, into instructions that allocation
      can handle and that can be encoded once allocated. */
  lemma BlockTotal(b: Block)
    requires WellTyped(b.insts) && Ordered(b.insts) && TypedTerminator(Types(b.insts), b.terminator)
    ensures SelectBlock(INITIAL, b).Some? && AllClean(SelectBlock(INITIAL, b).value.1)
  {
    hide SelectAll, SelectExit, AllClean, Types, WellTyped;
    AllTotal(b.insts);
    var (st, code) := SelectAll(INITIAL, b.insts).value;
    ExitTotal(st, Types(b.insts), b.terminator);
    var exit := SelectExit(st, b.terminator).value.1;
    OneClean(RETURN_INST);
    CleanAppend(exit, [RETURN_INST]);
    CleanAppend(code, exit + [RETURN_INST]);
  }
}
