/** Instruction selection preserves meaning: the ARM64 code over virtual registers does on
    host memory what the IR does on the guest. Every IR value sits zero-extended in its
    64-bit register. */
module SelectorCorrect {
  import opened Options
  import opened Words
  import opened Memory
  import opened Guest
  import opened IR
  import opened HostLayout
  import opened SelectorSpec
  import A = Arm64

  /* ---- Simulation relation ---- */

  ghost predicate WellNumbered(st: SState) {
    && (forall id :: id in st.vregs ==> st.vregs[id] < st.next)
    && (forall i, j :: i in st.vregs && j in st.vregs && i != j ==> st.vregs[i] != st.vregs[j])
  }

  ghost predicate Held(st: SState, t: IR.State, s: A.State, id: ValueId)
    requires id in t.env
  {
    && Fits(t.env[id])
    && id in st.vregs && id in st.types
    && st.types[id] == t.env[id].ty
    && A.Read(s, A.VReg(st.vregs[id])) == t.env[id].bits
  }

  ghost predicate HostSim(l: Layout, h0: Mem, t: IR.State, s: A.State) {
    && Valid(l)
    && Represents(l, s.mem, t.x, t.mem)
    && Confined(l, h0, s.mem)
    && A.Read(s, A.Phys(A.GUEST_STATE)) == l.state
  }

  ghost predicate Sim(l: Layout, h0: Mem, st: SState, t: IR.State, s: A.State) {
    && HostSim(l, h0, t, s)
    && WellNumbered(st)
    && (forall id :: id in t.env ==> Held(st, t, s, id))
  }

  // Code for one instruction leaves earlier virtual registers and all physical ones alone
  ghost predicate Frame(n: nat, s: A.State, s': A.State) {
    && (forall v :: 0 <= v < n ==> A.Read(s', A.VReg(v)) == A.Read(s, A.VReg(v)))
    && (forall r: A.Register :: A.Read(s', A.Phys(r)) == A.Read(s, A.Phys(r)))
  }

  lemma SimDefine(l: Layout, h0: Mem, st: SState, st': SState, t: IR.State, s: A.State, s': A.State, id: ValueId,
                  v: Value)
    requires Sim(l, h0, st, t, s) && id !in st.vregs && Fits(v)
    requires st'.vregs == st.vregs[id := st.next] && st'.types == st.types[id := v.ty] && st'.next > st.next
    requires Frame(st.next, s, s') && s'.mem == s.mem && A.Read(s', A.VReg(st.next)) == v.bits
    ensures Sim(l, h0, st', t.(env := t.env[id := v]), s')
  {
    hide Represents, Confined, Valid, A.Read;
  }

  lemma SimEffect(l: Layout, h0: Mem, st: SState, st': SState, t: IR.State, t': IR.State, s: A.State, s': A.State)
    requires Sim(l, h0, st, t, s) && t'.env == t.env
    requires st' == st.(next := st'.next) && st'.next >= st.next
    requires Frame(st.next, s, s')
    requires Represents(l, s'.mem, t'.x, t'.mem) && Confined(l, h0, s'.mem)
    ensures Sim(l, h0, st', t', s')
  {
    hide Represents, Confined, Valid, A.Read;
  }

  // Free registers and memory have changed from s to s1, then memory to h
  lemma MemoryEffect(l: Layout, h0: Mem, st: SState, st': SState, t: IR.State, x: RegFile, m: Mem,
                     s: A.State, s1: A.State, h: Mem)
    requires Sim(l, h0, st, t, s) && st' == st.(next := st'.next) && st'.next >= st.next
    requires Frame(st.next, s, s1) && Represents(l, h, x, m) && Confined(l, h0, h)
    ensures Sim(l, h0, st', IR.State.State(x, m, t.env), s1.(mem := h))
  {
    var s' := s1.(mem := h);
    assert Frame(st.next, s, s');
    hide Represents, Confined, Valid, Frame, Sim;
    SimEffect(l, h0, st, st', t, IR.State.State(x, m, t.env), s, s');
  }

  /* ---- Constant synthesis ---- */

  // The part of v below position shift
  function Below(v: Word, shift: nat): Word {
    if shift >= 64 then v
    else if shift == 48 then v % 0x1_0000_0000_0000
    else if shift == 32 then v % TWO32
    else if shift == 16 then v % 0x1_0000
    else 0
  }

  predicate IsShift(shift: nat) { shift == 0 || shift == 16 || shift == 32 || shift == 48 }

  lemma NextChunk(v: Word, shift: nat)
    requires IsShift(shift)
    ensures Below(v, shift + 16) == Below(v, shift) + A.Field(A.Chunk(v, shift), shift)
    ensures A.Chunk(Below(v, shift), shift) == 0
  {
    if shift == 16 { SplitAt16(v); } else if shift == 32 { SplitAt32(v); } else if shift == 48 { SplitAt48(v); }
  }

  lemma SplitAt16(v: Word)
    ensures v % TWO32 == v % 0x1_0000 + v / 0x1_0000 % 0x1_0000 * 0x1_0000
    ensures v % 0x1_0000 / 0x1_0000 == 0
  {
  }

  lemma SplitAt32(v: Word)
    ensures v % 0x1_0000_0000_0000 == v % TWO32 + v / TWO32 % 0x1_0000 * TWO32
    ensures v % TWO32 / TWO32 == 0
  {
  }

  lemma SplitAt48(v: Word)
    ensures v == v % 0x1_0000_0000_0000 + v / 0x1_0000_0000_0000 % 0x1_0000 * 0x1_0000_0000_0000
    ensures v % 0x1_0000_0000_0000 / 0x1_0000_0000_0000 == 0
  {
  }

  lemma BelowAtMost(v: Word, shift: nat)
    ensures Below(v, shift) <= v
  {
  }

  lemma FieldOfZero(shift: nat)
    ensures A.Field(0, shift) == 0
  {
  }

  // The next chunk, written by MOVZ over anything or by MOVK over the chunks before it
  lemma MoveStep(v: Word, size: A.DataSize, was: Word, shift: nat, first: bool)
    requires IsShift(shift) && (size.X? || v < TWO32)
    requires if first then Below(v, shift) == 0 else was == Below(v, shift)
    ensures A.MoveWideValue(if first then A.MOVZ else A.MOVK, size, was, A.Chunk(v, shift), shift) ==
      Below(v, shift + 16)
  {
    hide A.Field, A.Chunk, Below;
    NextChunk(v, shift);
    BelowAtMost(v, shift + 16);
    FieldOfZero(shift);
    SizedSmall(size, Below(v, shift + 16));
  }

  lemma SizedSmall(size: A.DataSize, w: Word)
    requires size.X? || w < TWO32
    ensures A.Sized(size, w) == w && w % TWO64 == w
  {
  }

  // The chunks below position shift are in place: nothing yet, or all of them
  ghost predicate Placed(v: Word, target: A.Operand, shift: nat, first: bool, s: A.State) {
    if first then Below(v, shift) == 0 else target in s.regs && A.Read(s, target) == Below(v, shift)
  }

  lemma {:induction false} ChunksCorrect(v: Word, size: A.DataSize, target: A.Operand, shift: nat, first: bool,
                                         s: A.State)
    requires (IsShift(shift) || shift == 64) && (size.X? || v < TWO32) && !target.Imm?
    requires Placed(v, target, shift, first, s)
    ensures A.Exec(MoveChunks(v, size, target, shift, first), s) == A.Write(s, target, v)
    decreases 64 - shift
  {
    if shift == 64 {
      AllPlaced(v, size, target, first, s);
    } else if A.Chunk(v, shift) == 0 {
      SkipChunk(v, shift);
      hide A.Chunk, Below, A.Exec;
      ChunksCorrect(v, size, target, shift + 16, first, s);
    } else {
      var i := A.MoveWide(if first then A.MOVZ else A.MOVK, size, target, A.Chunk(v, shift), shift);
      PlaceChunk(v, size, target, shift, first, s);
      hide A.Chunk, Below, A.Exec, A.Step, Placed;
      A.ExecAppend([i], MoveChunks(v, size, target, shift + 16, false), s);
      ExecOne(i, s);
      ChunksCorrect(v, size, target, shift + 16, false, A.Step(i, s));
      WriteTwice(s, target, Below(v, shift + 16), v);
    }
  }

  lemma AllPlaced(v: Word, size: A.DataSize, target: A.Operand, first: bool, s: A.State)
    requires Placed(v, target, 64, first, s) && !target.Imm?
    ensures A.Exec(MoveChunks(v, size, target, 64, first), s) == A.Write(s, target, v)
  {
    if first {
      ExecOne(A.MoveWide(A.MOVZ, size, target, 0, 0), s);
    }
  }

  lemma PlaceChunk(v: Word, size: A.DataSize, target: A.Operand, shift: nat, first: bool, s: A.State)
    requires IsShift(shift) && (size.X? || v < TWO32) && !target.Imm?
    requires Placed(v, target, shift, first, s)
    ensures
      var i := A.MoveWide(if first then A.MOVZ else A.MOVK, size, target, A.Chunk(v, shift), shift);
      A.Step(i, s) == A.Write(s, target, Below(v, shift + 16)) && Placed(v, target, shift + 16, false, A.Step(i, s))
  {
    MoveStep(v, size, A.Read(s, target), shift, first);
    hide A.MoveWideValue, A.Chunk, Below;
  }

  lemma WriteTwice(s: A.State, o: A.Operand, v: Word, w: Word)
    ensures A.Write(A.Write(s, o, v), o, w) == A.Write(s, o, w)
  {
  }

  lemma SkipChunk(v: Word, shift: nat)
    requires IsShift(shift) && A.Chunk(v, shift) == 0
    ensures Below(v, shift + 16) == Below(v, shift)
  {
    NextChunk(v, shift);
    FieldOfZero(shift);
  }

  lemma ExecOne(i: A.Instruction, s: A.State)
    ensures A.Exec([i], s) == A.Step(i, s)
  {
    A.ExecSnoc([], i, s);
    assert [] + [i] == [i];
  }

  lemma ExecTwo(i: A.Instruction, j: A.Instruction, s: A.State)
    ensures A.Exec([i, j], s) == A.Step(j, A.Step(i, s))
  {
    ExecOne(i, s);
    A.ExecSnoc([i], j, s);
    assert [i] + [j] == [i, j];
  }

  lemma SmallConstant(ty: Type, v: int)
    requires ConstInRange(ty, v) && -0x1_0000 <= v <= 0xFFFF
    ensures v < 0 ==> A.Unary(A.MOVN, SizeOf(ty), -v - 1) == ConstBits(ty, v)
    ensures v >= 0 ==> A.Unary(A.MOV, SizeOf(ty), v) == ConstBits(ty, v)
  {
  }

  lemma WideConstant(ty: Type, v: int)
    requires ConstInRange(ty, v) && !(-0x1_0000 <= v < 0)
    ensures ToWord(v) == ConstBits(ty, v)
    ensures SizeOf(ty).X? || ToWord(v) < TWO32
  {
  }

  /** Whatever the target held before, it holds the constant after. */
  lemma ConstantSynthesis(ty: Type, v: int, target: A.Operand, s: A.State)
    requires ConstInRange(ty, v) && !target.Imm?
    ensures A.Exec(ConstInto(ty, v, target), s) == A.Write(s, target, ConstBits(ty, v))
  {
    if -0x1_0000 <= v <= 0xFFFF {
      SmallConstant(ty, v);
      hide A.Unary, ConstBits;
      if v < 0 {
        ExecOne(A.TwoOperand(A.MOVN, SizeOf(ty), target, A.Imm(-v - 1)), s);
      } else {
        ExecOne(A.TwoOperand(A.MOV, SizeOf(ty), target, A.Imm(v)), s);
      }
    } else {
      WideConstant(ty, v);
      hide ConstBits, ToWord, SizeOf, MoveChunks;
      ChunksCorrect(ToWord(v), SizeOf(ty), target, 0, true, s);
    }
  }

  /* ---- Comparisons ---- */

  lemma CompareLowering(op: BinaryOpcode, a: Word, b: Word)
    requires IsComparison(op)
    ensures ConditionOf(op).Some?
    ensures A.Holds(ConditionOf(op).value, A.SubFlags(a, b)) <==> Compare(op, a, b)
  {
  }

  /* ---- Instructions that define a value ---- */

  // Code whose whole effect on locations is to put v's bits into the next free register
  lemma DefineByWrite(l: Layout, h0: Mem, st: SState, t: IR.State, s: A.State, s': A.State, id: ValueId, v: Value)
    requires Sim(l, h0, st, t, s) && id !in st.vregs && Fits(v)
    requires s'.regs == s.regs[A.VReg(st.next) := v.bits] && s'.mem == s.mem
    ensures Sim(l, h0, Assign(Record(st, id, v.ty), id).0, t.(env := t.env[id := v]), s')
  {
    hide Sim, Fits;
    SimDefine(l, h0, st, Assign(Record(st, id, v.ty), id).0, t, s, s', id, v);
  }

  lemma SimHost(l: Layout, h0: Mem, st: SState, t: IR.State, s: A.State)
    requires Sim(l, h0, st, t, s)
    ensures HostSim(l, h0, t, s)
  {
  }

  lemma SimNumbered(l: Layout, h0: Mem, st: SState, t: IR.State, s: A.State)
    requires Sim(l, h0, st, t, s)
    ensures WellNumbered(st)
  {
  }

  lemma SimHeld(l: Layout, h0: Mem, st: SState, t: IR.State, s: A.State, id: ValueId)
    requires Sim(l, h0, st, t, s) && id in t.env
    ensures Held(st, t, s, id) && st.vregs[id] < st.next
  {
  }

  lemma ArithmeticTable(op: BinaryOpcode, ty: Type, a: Word, b: Word)
    requires !IsComparison(op) && (ty.I64? || (ty.I32? && Has32(op))) && (ty.I32? ==> a < TWO32 && b < TWO32)
    ensures
      (if SizeOf(ty).X? then A.Alu64(OpcodeOf(op), a, b) else A.Alu32(OpcodeOf(op), a, b)) == Arithmetic(op, ty, a, b)
    ensures Fits(Value(ty, Arithmetic(op, ty, a, b)))
  {
    if ty.I32? { Arithmetic32(op, a, b); }
    hide Add, Sub, Bits64, Shl64, Shr64, Sar64, A.Alu32, Binary32;
  }

  lemma Arithmetic32(op: BinaryOpcode, a: Word, b: Word)
    requires Has32(op) && a < TWO32 && b < TWO32
    ensures A.Alu32(OpcodeOf(op), a, b) == Binary32(op, a, b) && Binary32(op, a, b) < TWO32
  {
  }

  function Arithmetic(op: BinaryOpcode, ty: Type, a: Word, b: Word): Word
    requires !IsComparison(op) && (ty.I64? || Has32(op))
  {
    if ty.I64? then Binary64(op, a, b) else Binary32(op, a, b)
  }

  // What selecting and running one instruction must establish
  ghost predicate Simulated(l: Layout, h0: Mem, st: SState, r: Option<(SState, seq<A.Instruction>)>, t': IR.State,
                            s: A.State) {
    r.Some? && r.value.0.next >= st.next && Sim(l, h0, r.value.0, t', A.Exec(r.value.1, s))
  }

  function Define(t: IR.State, id: ValueId, ty: Type, bits: Word): IR.State {
    t.(env := t.env[id := Value(ty, bits)])
  }

  // A value of type ty that the simulation holds in a register
  ghost predicate Operand(t: IR.State, id: ValueId, ty: Type) { id in t.env && t.env[id].ty == ty }

  lemma ConstCorrect(l: Layout, h0: Mem, st: SState, t: IR.State, s: A.State, id: ValueId, ty: Type, v: int)
    requires Sim(l, h0, st, t, s) && id !in st.vregs && ConstInRange(ty, v)
    ensures Simulated(l, h0, st, Some(SelectConst(st, id, ty, v)), Define(t, id, ty, ConstBits(ty, v)), s)
  {
    hide Sim, ConstBits, ConstInto, A.Exec;
    var target := A.VReg(st.next);
    ConstantSynthesis(ty, v, target, s);
    assert Fits(Value(ty, ConstBits(ty, v))) by { ConstFits(ty, v); }
    hide Fits;
    DefineByWrite(l, h0, st, t, s, A.Exec(ConstInto(ty, v, target), s), id, Value(ty, ConstBits(ty, v)));
  }

  lemma ConstFits(ty: Type, v: int)
    requires ConstInRange(ty, v)
    ensures Fits(Value(ty, ConstBits(ty, v)))
  {
  }

  lemma ArithmeticCorrect(l: Layout, h0: Mem, st: SState, t: IR.State, s: A.State,
                          id: ValueId, op: BinaryOpcode, ty: Type, x: ValueId, y: ValueId)
    requires Sim(l, h0, st, t, s) && id !in st.vregs
    requires !IsComparison(op) && (ty.I64? || (ty.I32? && Has32(op))) && Operand(t, x, ty) && Operand(t, y, ty)
    ensures
      Simulated(l, h0, st, SelectBinary(st, id, op, ty, x, y),
                Define(t, id, ty, Arithmetic(op, ty, t.env[x].bits, t.env[y].bits)), s)
  {
    hide Sim, A.Exec, A.Alu64, A.Alu32, OpcodeOf, Arithmetic, Has32, IsComparison, SizeOf;
    SimHeld(l, h0, st, t, s, x);
    SimHeld(l, h0, st, t, s, y);
    ArithmeticTable(op, ty, t.env[x].bits, t.env[y].bits);
    hide Fits;
    var inst := A.ThreeOperand(OpcodeOf(op), SizeOf(ty), A.VReg(st.next), A.VReg(st.vregs[x]), A.VReg(st.vregs[y]));
    ExecOne(inst, s);
    DefineByWrite(l, h0, st, t, s, A.Step(inst, s), id, Value(ty, Arithmetic(op, ty, t.env[x].bits, t.env[y].bits)));
  }

  lemma CompareSteps(s: A.State, u: A.Operand, v: A.Operand, d: A.Operand, cond: A.Condition)
    ensures
      var t := A.Step(A.Conditional(A.CSET, A.X, d, cond), A.Step(A.TwoOperand(A.CMP, A.X, u, v), s));
      t.regs == s.regs[d := Flag(A.Holds(cond, A.SubFlags(A.Read(s, u), A.Read(s, v))))] && t.mem == s.mem
  {
    hide A.Holds, A.SubFlags;
  }

  lemma SelectedComparison(st: SState, id: ValueId, op: BinaryOpcode, ty: Type, x: ValueId, y: ValueId)
    requires IsComparison(op) && id !in st.vregs && x in st.vregs && y in st.vregs && x != id && y != id &&
             ConditionOf(op).Some?
    ensures
      SelectBinary(st, id, op, ty, x, y) ==
      Some((Assign(Record(st, id, ty), id).0,
            [A.TwoOperand(A.CMP, A.X, A.VReg(st.vregs[x]), A.VReg(st.vregs[y])),
             A.Conditional(A.CSET, A.X, A.VReg(st.next), ConditionOf(op).value)]))
  {
    hide ConditionOf, IsComparison;
  }

  lemma ComparisonCorrect(l: Layout, h0: Mem, st: SState, t: IR.State, s: A.State,
                          id: ValueId, op: BinaryOpcode, ty: Type, x: ValueId, y: ValueId)
    requires Sim(l, h0, st, t, s) && id !in st.vregs
    requires IsComparison(op) && Operand(t, x, I64) && Operand(t, y, I64)
    ensures
      Simulated(l, h0, st, SelectBinary(st, id, op, ty, x, y),
                Define(t, id, ty, Flag(Compare(op, t.env[x].bits, t.env[y].bits))), s)
  {
    hide Sim, A.Exec, A.SubFlags, A.Holds, ConditionOf, Compare, IsComparison, A.Step, SelectBinary;
    SimHeld(l, h0, st, t, s, x);
    SimHeld(l, h0, st, t, s, y);
    CompareLowering(op, t.env[x].bits, t.env[y].bits);
    SelectedComparison(st, id, op, ty, x, y);
    var cmp := A.TwoOperand(A.CMP, A.X, A.VReg(st.vregs[x]), A.VReg(st.vregs[y]));
    var cset := A.Conditional(A.CSET, A.X, A.VReg(st.next), ConditionOf(op).value);
    ExecTwo(cmp, cset, s);
    CompareSteps(s, A.VReg(st.vregs[x]), A.VReg(st.vregs[y]), A.VReg(st.next), ConditionOf(op).value);
    var v := Value(ty, Flag(Compare(op, t.env[x].bits, t.env[y].bits)));
    FlagFits(ty, Compare(op, t.env[x].bits, t.env[y].bits));
    hide Fits, Held;
    DefineByWrite(l, h0, st, t, s, A.Step(cset, A.Step(cmp, s)), id, v);
  }

  lemma FlagFits(ty: Type, b: bool)
    ensures Fits(Value(ty, Flag(b)))
  {
  }

  lemma UnaryCorrect(l: Layout, h0: Mem, st: SState, t: IR.State, s: A.State,
                     id: ValueId, op: A.Opcode, to: Type, x: ValueId)
    requires Sim(l, h0, st, t, s) && id !in st.vregs && x in t.env && x in st.vregs
    requires !op.RET? && !op.CMP? && Fits(Value(to, A.Unary(op, SizeOf(to), t.env[x].bits)))
    ensures
      var st' := Assign(Record(st, id, to), id).0;
      var inst := A.TwoOperand(op, SizeOf(to), A.VReg(st.next), A.VReg(st.vregs[x]));
      Simulated(l, h0, st, Some((st', [inst])), Define(t, id, to, A.Unary(op, SizeOf(to), t.env[x].bits)), s)
  {
    SimHeld(l, h0, st, t, s, x);
    var inst := A.TwoOperand(op, SizeOf(to), A.VReg(st.next), A.VReg(st.vregs[x]));
    ExecOne(inst, s);
    hide Sim, A.Exec, A.Unary, SizeOf, Fits;
    DefineByWrite(l, h0, st, t, s, A.Step(inst, s), id, Value(to, A.Unary(op, SizeOf(to), t.env[x].bits)));
  }

  lemma SextTable(from: Type, a: Word)
    requires from.I8? || from.I16? || from.I32?
    ensures A.Unary(SextOpcode(from), A.X, a) == Extend(from, a)
    ensures !SextOpcode(from).RET? && !SextOpcode(from).CMP?
  {
  }

  lemma SextCorrect(l: Layout, h0: Mem, st: SState, t: IR.State, s: A.State, id: ValueId, x: ValueId)
    requires Sim(l, h0, st, t, s) && id !in st.vregs
    requires Operand(t, x, I8) || Operand(t, x, I16) || Operand(t, x, I32)
    ensures Simulated(l, h0, st, SelectSext(st, id, I64, x), Define(t, id, I64, Extend(t.env[x].ty, t.env[x].bits)), s)
  {
    SimHeld(l, h0, st, t, s, x);
    SextTable(t.env[x].ty, t.env[x].bits);
    hide Sim, A.Exec, A.Unary, Extend, SextOpcode;
    UnaryCorrect(l, h0, st, t, s, id, SextOpcode(t.env[x].ty), I64, x);
  }

  // A 64-bit MOV zero-extends an i32 because the register holds it zero-extended already
  lemma MoveKeeps(v: Word)
    ensures A.Unary(A.MOV, A.X, v) == v && A.Unary(A.MOV, A.W, v) == Low32(v)
  {
  }

  lemma ZextCorrect(l: Layout, h0: Mem, st: SState, t: IR.State, s: A.State, id: ValueId, x: ValueId)
    requires Sim(l, h0, st, t, s) && id !in st.vregs && Operand(t, x, I32)
    ensures Simulated(l, h0, st, SelectZext(st, id, I64, x), Define(t, id, I64, t.env[x].bits), s)
  {
    hide Sim, A.Exec, A.Unary;
    SimHeld(l, h0, st, t, s, x);
    MoveKeeps(t.env[x].bits);
    UnaryCorrect(l, h0, st, t, s, id, A.MOV, I64, x);
  }

  lemma TruncCorrect(l: Layout, h0: Mem, st: SState, t: IR.State, s: A.State, id: ValueId, x: ValueId)
    requires Sim(l, h0, st, t, s) && id !in st.vregs && Operand(t, x, I64)
    ensures Simulated(l, h0, st, SelectTrunc(st, id, I32, x), Define(t, id, I32, Low32(t.env[x].bits)), s)
  {
    hide Sim, A.Exec, A.Unary;
    SimHeld(l, h0, st, t, s, x);
    MoveKeeps(t.env[x].bits);
    UnaryCorrect(l, h0, st, t, s, id, A.MOV, I32, x);
  }

  /* ---- Guest registers ---- */

  // LDR/STR [X0, #8r] addresses the slot of register r
  lemma HostFacts(l: Layout, h0: Mem, t: IR.State, s: A.State)
    requires HostSim(l, h0, t, s)
    ensures Valid(l) && A.Read(s, A.Phys(A.GUEST_STATE)) == l.state
  {
  }

  lemma SlotAddress(l: Layout, h0: Mem, t: IR.State, s: A.State, r: RegNum)
    requires HostSim(l, h0, t, s)
    ensures Offset(A.Read(s, A.Phys(A.GUEST_STATE)), REGISTER_SIZE_BYTES * r) == Slot(l, r)
    ensures Load(s.mem, Slot(l, r), 8) == t.x[r]
  {
    OffsetInRange(A.Read(s, A.Phys(A.GUEST_STATE)), REGISTER_SIZE_BYTES * r);
    hide Offset, Load, Confined;
  }

  lemma RegReadCorrect(l: Layout, h0: Mem, st: SState, t: IR.State, s: A.State, id: ValueId, r: RegNum)
    requires Sim(l, h0, st, t, s) && id !in st.vregs
    ensures Simulated(l, h0, st, Some(SelectRegRead(st, id, r)), Define(t, id, I64, t.x[r]), s)
  {
    hide Sim, HostSim, A.Exec, A.Step, Load;
    var inst := A.MemoryInst(A.LDR, A.X, A.VReg(st.next), A.Phys(A.GUEST_STATE), REGISTER_SIZE_BYTES * r);
    ExecOne(inst, s);
    SimHost(l, h0, st, t, s);
    HostFacts(l, h0, t, s);
    SlotAddress(l, h0, t, s, r);
    LoadField(l, s, REGISTER_SIZE_BYTES * r, A.VReg(st.next));
    DefineByWrite(l, h0, st, t, s, A.Step(inst, s), id, Value(I64, t.x[r]));
  }

  lemma SlotWrite(l: Layout, h0: Mem, t: IR.State, s: A.State, r: RegNum, v: Word)
    requires HostSim(l, h0, t, s)
    ensures Represents(l, Store(s.mem, Slot(l, r), 8, v), t.x[r := v], t.mem)
    ensures Confined(l, h0, Store(s.mem, Slot(l, r), 8, v))
  {
    hide Store, Represents, Confined;
    WriteRegister(l, s.mem, t.x, t.mem, r, v);
    StoreConfined(l, h0, s.mem, Slot(l, r), 8, v);
  }

  lemma RegWriteCorrect(l: Layout, h0: Mem, st: SState, t: IR.State, s: A.State, r: RegNum, x: ValueId)
    requires Sim(l, h0, st, t, s) && x in t.env
    ensures Simulated(l, h0, st, SelectRegWrite(st, r, x), t.(x := t.x[r := t.env[x].bits]), s)
  {
    hide Sim, HostSim, A.Exec, A.Step, A.Read, Load, Slot, Store, Represents, Confined, Valid, Offset, Fits;
    SimHeld(l, h0, st, t, s, x);
    SimHost(l, h0, st, t, s);
    var v := st.vregs[x];
    ExecOne(A.MemoryInst(A.STR, A.X, A.VReg(v), A.Phys(A.GUEST_STATE), REGISTER_SIZE_BYTES * r), s);
    StoreStep(l, h0, t, s, r, v);
    SlotWrite(l, h0, t, s, r, t.env[x].bits);
    MemoryEffect(l, h0, st, st, t, t.x[r := t.env[x].bits], t.mem, s, s, Store(s.mem, Slot(l, r), 8, t.env[x].bits));
  }

  lemma StoreStep(l: Layout, h0: Mem, t: IR.State, s: A.State, r: RegNum, v: nat)
    requires HostSim(l, h0, t, s)
    ensures
      A.Step(A.MemoryInst(A.STR, A.X, A.VReg(v), A.Phys(A.GUEST_STATE), REGISTER_SIZE_BYTES * r), s) ==
      s.(mem := Store(s.mem, Slot(l, r), 8, A.Read(s, A.VReg(v))))
  {
    SlotAddress(l, h0, t, s, r);
    hide Load, Slot, Store, Represents, Confined, Valid, Offset;
  }

  /* ---- Guest memory ---- */

  // LDR [X0, #offset] of a GuestState field
  lemma LoadField(l: Layout, s: A.State, offset: int, d: A.Operand)
    requires Valid(l) && A.Read(s, A.Phys(A.GUEST_STATE)) == l.state && 0 <= offset < STATE_SIZE
    ensures
      A.Step(A.MemoryInst(A.LDR, A.X, d, A.Phys(A.GUEST_STATE), offset), s) ==
      A.Write(s, d, Load64(s.mem, l.state + offset))
  {
    OffsetInRange(l.state, offset);
    hide Offset, Load;
  }

  lemma LoadBases(l: Layout, s: A.State, base: A.Operand, shadow: A.Operand)
    requires Valid(l) && HoldsBases(l, s.mem) && A.Read(s, A.Phys(A.GUEST_STATE)) == l.state
    requires base.VReg? && shadow.VReg? && base != shadow
    ensures
      var x0 := A.Phys(A.GUEST_STATE);
      var s1 := A.Step(A.MemoryInst(A.LDR, A.X, base, x0, BASE_OFFSET), s);
      var s2 := A.Step(A.MemoryInst(A.LDR, A.X, shadow, x0, SHADOW_OFFSET), s1);
      s2 == s.(regs := s.regs[base := l.region.base][shadow := l.shadow])
  {
    hide A.Step, Load;
    LoadField(l, s, BASE_OFFSET, base);
    LoadField(l, A.Write(s, base, l.region.base), SHADOW_OFFSET, shadow);
  }

  lemma HostAddress(l: Layout, a: Word, n: nat)
    requires Valid(l) && InRegion(l.region, a, n) && n > 0
    ensures Add(Sub(a, l.region.base), l.shadow) == HostOf(l, a)
  {
  }

  lemma SubAdd(s2: A.State, n: nat, guest: nat)
    requires guest != n
    ensures
      A.Exec(ConvertCode(n, guest), s2) ==
      s2.(regs := s2.regs[A.VReg(n) := Add(Sub(A.Read(s2, A.VReg(guest)), A.Read(s2, A.VReg(n + 1))),
                                           A.Read(s2, A.VReg(n + 2)))])
  {
    hide Add, Sub, A.Exec, A.Step;
    var sub := A.ThreeOperand(A.SUB, A.X, A.VReg(n), A.VReg(guest), A.VReg(n + 1));
    var add := A.ThreeOperand(A.ADD, A.X, A.VReg(n), A.VReg(n), A.VReg(n + 2));
    ExecTwo(sub, add, s2);
    SubStep(s2, n, guest);
    AddStep(A.Step(sub, s2), n);
  }

  lemma SubStep(s: A.State, n: nat, guest: nat)
    ensures
      A.Step(A.ThreeOperand(A.SUB, A.X, A.VReg(n), A.VReg(guest), A.VReg(n + 1)), s) ==
      A.Write(s, A.VReg(n), Sub(A.Read(s, A.VReg(guest)), A.Read(s, A.VReg(n + 1))))
  {
    hide Sub;
  }

  lemma AddStep(s: A.State, n: nat)
    ensures
      A.Step(A.ThreeOperand(A.ADD, A.X, A.VReg(n), A.VReg(n), A.VReg(n + 2)), s) ==
      A.Write(s, A.VReg(n), Add(A.Read(s, A.VReg(n)), A.Read(s, A.VReg(n + 2))))
  {
    hide Add;
  }

  // Runs the whole translation sequence
  lemma TranslateEffect(l: Layout, s: A.State, n: nat, guest: nat)
    requires Valid(l) && HoldsBases(l, s.mem) && A.Read(s, A.Phys(A.GUEST_STATE)) == l.state && guest < n
    ensures
      A.Exec(LoadBasesCode(n) + ConvertCode(n, guest), s) ==
      s.(regs := s.regs[A.VReg(n + 1) := l.region.base][A.VReg(n + 2) := l.shadow]
                       [A.VReg(n) := Add(Sub(A.Read(s, A.VReg(guest)), l.region.base), l.shadow)])
  {
    hide Add, Sub, A.Exec, HoldsBases, A.Step, ConvertCode;
    var bases := LoadBasesCode(n);
    LoadBases(l, s, A.VReg(n + 1), A.VReg(n + 2));
    ExecTwo(bases[0], bases[1], s);
    A.ExecAppend(bases, ConvertCode(n, guest), s);
    SubAdd(A.Exec(bases, s), n, guest);
  }

  // SUB/ADD translation of an in-range guest address, whatever the free registers held
  lemma TranslateCorrect(l: Layout, st: SState, s: A.State, guest: nat, n: nat)
    returns (s': A.State)
    requires Valid(l) && HoldsBases(l, s.mem) && A.Read(s, A.Phys(A.GUEST_STATE)) == l.state
    requires guest < st.next && InRegion(l.region, A.Read(s, A.VReg(guest)), n) && n > 0
    ensures s' == A.Exec(Translate(st, guest).1, s) && Frame(st.next, s, s') && s'.mem == s.mem
    ensures A.Read(s', A.VReg(st.next)) == HostOf(l, A.Read(s, A.VReg(guest)))
  {
    HostAddress(l, A.Read(s, A.VReg(guest)), n);
    TranslateEffect(l, s, st.next, guest);
    hide A.Exec, HoldsBases, HostOf, Add, Sub, InRegion, LoadBasesCode, ConvertCode;
    s' := A.Exec(Translate(st, guest).1, s);
  }

  lemma HostTranslate(l: Layout, h0: Mem, t: IR.State, st: SState, s: A.State, guest: nat, n: nat)
    returns (s': A.State)
    requires HostSim(l, h0, t, s)
    requires guest < st.next && InRegion(l.region, A.Read(s, A.VReg(guest)), n) && n > 0
    ensures s' == A.Exec(Translate(st, guest).1, s) && Frame(st.next, s, s') && s'.mem == s.mem
    ensures A.Read(s', A.VReg(st.next)) == HostOf(l, A.Read(s, A.VReg(guest)))
    ensures 0 <= HostOf(l, A.Read(s, A.VReg(guest))) < TWO64
  {
    hide A.Exec, HoldsBases, HoldsRegisters, HoldsMemory, Confined, Translate, Frame;
    s' := TranslateCorrect(l, st, s, guest, n);
  }

  lemma LoadStep(l: Layout, m: Mem, x: RegFile, s: A.State, ty: Type, d: nat, host: nat, a: Word)
    requires Represents(l, s.mem, x, m) && InRegion(l.region, a, Width(ty))
    requires A.Read(s, A.VReg(host)) == HostOf(l, a)
    ensures
      A.Step(A.MemoryInst(A.LDR, SizeOf(ty), A.VReg(d), A.VReg(host), 0), s) ==
      A.Write(s, A.VReg(d), ReadTyped(ty, m, a))
  {
    hide Represents, HostOf, InRegion, Load;
    ReadShadow(l, s.mem, x, m, a, Width(ty));
    OffsetInRange(A.Read(s, A.VReg(host)), 0);
    hide Offset;
  }

  lemma ReadFits(ty: Type, m: Mem, a: Word)
    requires !ty.I1?
    ensures Fits(Value(ty, ReadTyped(ty, m, a)))
  {
    WordBytes();
  }

  lemma LoadCorrect(l: Layout, h0: Mem, st: SState, t: IR.State, s: A.State, id: ValueId, ty: Type, addr: ValueId)
    requires Sim(l, h0, st, t, s) && id !in st.vregs && Operand(t, addr, I64) && !ty.I1?
    requires InRegion(l.region, t.env[addr].bits, Width(ty))
    ensures
      Simulated(l, h0, st, SelectLoad(st, id, ty, addr), Define(t, id, ty, ReadTyped(ty, t.mem, t.env[addr].bits)), s)
  {
    hide Sim, A.Exec, A.Step, A.Read, Represents, Confined, Valid, HostOf, ReadTyped, InRegion, Fits, SizeOf, Width,
      LoadBasesCode, ConvertCode;
    var a := t.env[addr].bits;
    SimHeld(l, h0, st, t, s, addr);
    SimHost(l, h0, st, t, s);
    var guest := st.vregs[addr];
    var (st1, d) := Assign(Record(st, id, ty), id);
    WidthPositive(ty);
    var s1 := HostTranslate(l, h0, t, st1, s, guest, Width(ty));
    var ldr := A.MemoryInst(A.LDR, SizeOf(ty), A.VReg(d), A.VReg(st1.next), 0);
    LoadStep(l, t.mem, t.x, s1, ty, d, st1.next, a);
    ExecOne(ldr, s1);
    A.ExecAppend(Translate(st1, guest).1, [ldr], s);
    ReadFits(ty, t.mem, a);
    var v := Value(ty, ReadTyped(ty, t.mem, a));
    var s2 := A.Write(s1, A.VReg(d), v.bits);
    FrameWrite(st.next, s, s1, v.bits);
    SimDefine(l, h0, st, Translate(st1, guest).0, t, s, s2, id, v);
  }

  lemma WidthPositive(ty: Type)
    ensures Width(ty) > 0
  {
  }

  // Writing the first of the free registers
  lemma FrameWrite(n: nat, s: A.State, s1: A.State, v: Word)
    requires Frame(n + 1, s, s1)
    ensures Frame(n, s, A.Write(s1, A.VReg(n), v)) && A.Read(A.Write(s1, A.VReg(n), v), A.VReg(n)) == v
  {
  }

  lemma StoreTypedStep(l: Layout, s: A.State, ty: Type, v: nat, host: nat, a: int)
    requires A.Read(s, A.VReg(host)) == HostOf(l, a)
    ensures
      A.Step(A.MemoryInst(A.STR, SizeOf(ty), A.VReg(v), A.VReg(host), 0), s) ==
      s.(mem := Store(s.mem, HostOf(l, a), Width(ty), A.Read(s, A.VReg(v))))
  {
    hide HostOf, Store;
    OffsetInRange(A.Read(s, A.VReg(host)), 0);
    hide Offset;
  }

  lemma StoreCorrect(l: Layout, h0: Mem, st: SState, t: IR.State, s: A.State, x: ValueId, addr: ValueId)
    requires Sim(l, h0, st, t, s) && x in t.env && Operand(t, addr, I64)
    requires InRegion(l.region, t.env[addr].bits, Width(t.env[x].ty))
    ensures
      Simulated(l, h0, st, SelectStore(st, x, addr),
                t.(mem := Store(t.mem, t.env[addr].bits, Width(t.env[x].ty), t.env[x].bits)), s)
  {
    hide Sim, A.Exec, A.Step, A.Read, Represents, Confined, Valid, HostOf, InRegion, Fits, SizeOf, Width,
      LoadBasesCode, ConvertCode, Store;
    var a, ty, bits := t.env[addr].bits, t.env[x].ty, t.env[x].bits;
    SimHeld(l, h0, st, t, s, addr);
    SimHeld(l, h0, st, t, s, x);
    SimHost(l, h0, st, t, s);
    WidthPositive(ty);
    var guest, v := st.vregs[addr], st.vregs[x];
    var s1 := HostTranslate(l, h0, t, st, s, guest, Width(ty));
    var str := A.MemoryInst(A.STR, SizeOf(ty), A.VReg(v), A.VReg(st.next), 0);
    StoreTypedStep(l, s1, ty, v, st.next, a);
    ExecOne(str, s1);
    A.ExecAppend(Translate(st, guest).1, [str], s);
    ShadowWrite(l, h0, t, s, a, Width(ty), bits);
    MemoryEffect(l, h0, st, Translate(st, guest).0, t, t.x, Store(t.mem, a, Width(ty), bits), s, s1,
      Store(s.mem, HostOf(l, a), Width(ty), bits));
  }

  lemma ShadowWrite(l: Layout, h0: Mem, t: IR.State, s: A.State, a: int, n: nat, v: Word)
    requires HostSim(l, h0, t, s) && InRegion(l.region, a, n)
    ensures Represents(l, Store(s.mem, HostOf(l, a), n, v), t.x, Store(t.mem, a, n, v))
    ensures Confined(l, h0, Store(s.mem, HostOf(l, a), n, v))
  {
    hide Store, Represents, Confined;
    WriteShadow(l, s.mem, t.x, t.mem, a, n, v);
    StoreConfined(l, h0, s.mem, HostOf(l, a), n, v);
  }

  /* ---- Whole blocks ---- */

  lemma InstructionCorrect(l: Layout, h0: Mem, st: SState, t: IR.State, s: A.State, i: Inst)
    requires Sim(l, h0, st, t, s) && i.id !in st.vregs
    requires Typed(EnvTypes(t), i.kind) && Accessible(l.region, i.kind, t)
    ensures Simulated(l, h0, st, SelectInstruction(st, i), Execute(i, t), s)
  {
    hide Sim, Simulated, A.Exec, InRegion, ConstInRange, ConstBits, IsComparison, Has32, Compare, Binary64, Binary32,
      Extend, Low32, ReadTyped, Store, Width, SelectConst, SelectBinary, SelectSext, SelectZext, SelectTrunc,
      SelectLoad, SelectStore, SelectRegRead, SelectRegWrite, SextOpcode, ZextOpcode;
    match i.kind
    case Const(ty, v) => ConstCorrect(l, h0, st, t, s, i.id, ty, v);
    case BinaryOp(op, ty, x, y) =>
      if IsComparison(op) {
        ComparisonCorrect(l, h0, st, t, s, i.id, op, ty, x, y);
      } else {
        ArithmeticCorrect(l, h0, st, t, s, i.id, op, ty, x, y);
      }
    case Sext(_, x) => SextCorrect(l, h0, st, t, s, i.id, x);
    case Zext(_, x) => ZextCorrect(l, h0, st, t, s, i.id, x);
    case Trunc(_, x) => TruncCorrect(l, h0, st, t, s, i.id, x);
    case LoadFrom(ty, addr) => LoadCorrect(l, h0, st, t, s, i.id, ty, addr);
    case StoreTo(x, addr) => StoreCorrect(l, h0, st, t, s, x, addr);
    case RegRead(r) => RegReadCorrect(l, h0, st, t, s, i.id, r);
    case RegWrite(r, x) => RegWriteCorrect(l, h0, st, t, s, r, x);
  }

  // Only the values of the code so far have registers
  lemma {:induction false} RegistersOfCode(st: SState, insts: seq<Inst>)
    requires SelectAll(st, insts).Some?
    ensures forall id :: id in SelectAll(st, insts).value.0.vregs ==>
              id in st.vregs || exists k :: 0 <= k < |insts| && insts[k].id == id
  {
    if insts != [] {
      var n := |insts| - 1;
      RegistersOfCode(st, insts[..n]);
      OneRegister(SelectAll(st, insts[..n]).value.0, insts[n]);
      assert forall k :: 0 <= k < n ==> insts[..n][k] == insts[k];
    }
  }

  lemma AssignedKeys(st: SState, id: ValueId, ty: Type)
    ensures Assign(Record(st, id, ty), id).0.vregs.Keys <= st.vregs.Keys + {id}
  {
  }

  lemma OneRegister(st: SState, i: Inst)
    requires SelectInstruction(st, i).Some?
    ensures SelectInstruction(st, i).value.0.vregs.Keys <= st.vregs.Keys + {i.id}
  {
    hide ConstInto, LoadBasesCode, ConvertCode, SizeOf, ConditionOf, OpcodeOf, SextOpcode, ZextOpcode, IsComparison,
      Assign, Record;
    match i.kind
    case Const(ty, _) => AssignedKeys(st, i.id, ty);
    case BinaryOp(_, ty, _, _) => AssignedKeys(st, i.id, ty);
    case Sext(ty, _) => AssignedKeys(st, i.id, ty);
    case Zext(ty, _) => AssignedKeys(st, i.id, ty);
    case Trunc(ty, _) => AssignedKeys(st, i.id, ty);
    case LoadFrom(ty, _) => AssignedKeys(st, i.id, ty);
    case RegRead(_) => AssignedKeys(st, i.id, I64);
    case _ =>
  }

  lemma {:induction false} AllCorrect(l: Layout, h0: Mem, insts: seq<Inst>, t0: IR.State, s: A.State)
    requires Sim(l, h0, INITIAL, t0, s) && Ordered(insts) && Exec(l.region, insts, t0).Some?
    ensures
      var r := SelectAll(INITIAL, insts);
      r.Some? && Sim(l, h0, r.value.0, Exec(l.region, insts, t0).value, A.Exec(r.value.1, s))
  {
    if insts != [] {
      var n := |insts| - 1;
      AllCorrect(l, h0, insts[..n], t0, s);
      hide Sim, Typed, Accessible, Execute, SelectInstruction, A.Exec, IR.Exec;
      AllStep(l, h0, insts, t0, s);
    }
  }

  lemma AllStep(l: Layout, h0: Mem, insts: seq<Inst>, t0: IR.State, s: A.State)
    requires insts != [] && Ordered(insts) && Exec(l.region, insts, t0).Some?
    requires
      var r := SelectAll(INITIAL, insts[..|insts| - 1]);
      r.Some? && Sim(l, h0, r.value.0, Exec(l.region, insts[..|insts| - 1], t0).value, A.Exec(r.value.1, s))
    ensures
      var r := SelectAll(INITIAL, insts);
      r.Some? && Sim(l, h0, r.value.0, Exec(l.region, insts, t0).value, A.Exec(r.value.1, s))
  {
    var n := |insts| - 1;
    var (st, code) := SelectAll(INITIAL, insts[..n]).value;
    var t := Exec(l.region, insts[..n], t0).value;
    RegistersOfCode(INITIAL, insts[..n]);
    hide Sim, Typed, Accessible, Execute, SelectInstruction, A.Exec;
    InstructionCorrect(l, h0, st, t, A.Exec(code, s), insts[n]);
    A.ExecAppend(code, SelectInstruction(st, insts[n]).value.1, s);
  }

  /* ---- Leaving the block ---- */

  lemma PcConstant(target: Word)
    ensures ConstInRange(I64, Signed(target)) && ConstBits(I64, Signed(target)) == target
  {
  }

  // A branch-target constant goes to a register of its own id, new or (if the id happens to be
  // a value's) reused
  lemma TargetCorrect(st: SState, target: Word, s: A.State)
    requires WellNumbered(st)
    ensures
      var (st1, code, d) := SelectTarget(st, target);
      && WellNumbered(st1) && st1.next > st.next
      && A.Exec(code, s) == A.Write(s, A.VReg(d), target)
      && st.next in st1.vregs && st1.vregs[st.next] == d
      && (forall id :: id in st.vregs ==> id in st1.vregs && st1.vregs[id] == st.vregs[id])
  {
    PcConstant(target);
    hide ConstBits, ConstInto, A.Exec, Signed, ConstInRange;
    ConstantSynthesis(I64, Signed(target), A.VReg(SelectTarget(st, target).2), s);
  }

  lemma CompareWithZero(a: Word)
    ensures A.Holds(A.NE, A.SubFlags(a, 0)) <==> a != 0
  {
  }

  lemma {:induction false} ExecThree(a: seq<A.Instruction>, b: seq<A.Instruction>, c: seq<A.Instruction>,
                                     i: A.Instruction, j: A.Instruction, s: A.State)
    ensures A.Exec(a + b + c + [i] + [j], s) == A.Step(j, A.Step(i, A.Exec(c, A.Exec(b, A.Exec(a, s)))))
  {
    A.ExecAppend(a, b, s);
    A.ExecAppend(a + b, c, s);
    A.ExecSnoc(a + b + c, i, s);
    A.ExecSnoc(a + b + c + [i], j, s);
  }

  lemma CondBranchCorrect(st: SState, s: A.State, cond: ValueId, yes: Word, no: Word)
    requires WellNumbered(st) && cond in st.vregs
    ensures
      var s' := A.Exec(SelectCondBranch(st, cond, yes, no).value.1, s);
      s'.mem == s.mem &&
      A.Read(s', A.Phys(A.GUEST_STATE)) == if A.Read(s, A.VReg(st.vregs[cond])) != 0 then yes else no
  {
    hide ConstInto, A.Exec, Signed, WellNumbered, A.SubFlags, SelectTarget;
    var (st1, yesCode, y) := SelectTarget(st, yes);
    var (st2, noCode, n) := SelectTarget(st1, no);
    var cmp := A.TwoOperand(A.CMP, A.X, A.VReg(st.vregs[cond]), A.Imm(0));
    var csel := A.ConditionalSelect(A.CSEL, A.X, A.VReg(st2.next), A.VReg(y), A.VReg(n), A.NE);
    var mov := A.TwoOperand(A.MOV, A.X, A.Phys(A.GUEST_STATE), A.VReg(st2.next));
    var s1 := A.Step(cmp, s);
    ExecOne(cmp, s);
    TargetCorrect(st, yes, s1);
    TargetCorrect(st1, no, A.Write(s1, A.VReg(y), yes));
    CompareWithZero(A.Read(s, A.VReg(st.vregs[cond])));
    assert y != n by { DistinctTargets(st2, st.next, st1.next); }
    ExecThree([cmp], yesCode, noCode, csel, mov, s);
  }

  lemma DistinctTargets(st: SState, i: ValueId, j: ValueId)
    requires WellNumbered(st) && i in st.vregs && j in st.vregs && i != j
    ensures st.vregs[i] != st.vregs[j]
  {
  }

  lemma ExitCorrect(l: Layout, h0: Mem, st: SState, t: IR.State, s: A.State, term: Terminator)
    requires Sim(l, h0, st, t, s) && TypedTerminator(EnvTypes(t), term)
    ensures
      var r := SelectExit(st, term);
      r.Some? && A.Exec(r.value.1, s).mem == s.mem &&
      A.Read(A.Exec(r.value.1, s), A.Phys(A.GUEST_STATE)) == NextPc(term, t)
  {
    hide Sim, ConstInto, SelectTarget, A.Exec, Fits;
    var x0 := A.Phys(A.GUEST_STATE);
    match term
    case Branch(target) =>
      PcConstant(target);
      ConstantSynthesis(I64, Signed(target), x0, s);
    case CondBranch(c, yes, no) =>
      SimHeld(l, h0, st, t, s, c);
      SimNumbered(l, h0, st, t, s);
      CondBranchCorrect(st, s, c, yes, no);
    case Return(None) =>
      PcConstant(0);
      ConstantSynthesis(I64, 0, x0, s);
    case Return(Some(id)) =>
      SimHeld(l, h0, st, t, s, id);
      ExecOne(A.TwoOperand(A.MOV, A.X, x0, A.VReg(st.vregs[id])), s);
  }

  /* ---- RET comes last ---- */

  predicate NoReturn(code: seq<A.Instruction>) { forall k :: 0 <= k < |code| ==> !A.IsReturn(code[k]) }

  lemma {:induction false} ChunksNoReturn(v: Word, size: A.DataSize, target: A.Operand, shift: nat, first: bool)
    ensures NoReturn(MoveChunks(v, size, target, shift, first))
    decreases 64 - shift
  {
    if shift < 64 {
      ChunksNoReturn(v, size, target, shift + 16, first);
      ChunksNoReturn(v, size, target, shift + 16, false);
    }
  }

  lemma ConstNoReturn(ty: Type, v: int, target: A.Operand)
    ensures NoReturn(ConstInto(ty, v, target))
  {
    ChunksNoReturn(ToWord(v), SizeOf(ty), target, 0, true);
  }

  lemma InstructionNoReturn(st: SState, i: Inst)
    requires SelectInstruction(st, i).Some?
    ensures NoReturn(SelectInstruction(st, i).value.1)
  {
    hide ConstInto, SizeOf, ConditionOf, IsComparison;
    if i.kind.Const? {
      ConstNoReturn(i.kind.ty, i.kind.value, A.VReg(Assign(Record(st, i.id, i.kind.ty), i.id).1));
    }
  }

  lemma {:induction false} AllNoReturn(st: SState, insts: seq<Inst>)
    requires SelectAll(st, insts).Some?
    ensures NoReturn(SelectAll(st, insts).value.1)
  {
    if insts != [] {
      var n := |insts| - 1;
      hide SelectInstruction;
      AllNoReturn(st, insts[..n]);
      InstructionNoReturn(SelectAll(st, insts[..n]).value.0, insts[n]);
    }
  }

  lemma ExitNoReturn(st: SState, term: Terminator)
    requires SelectExit(st, term).Some?
    ensures NoReturn(SelectExit(st, term).value.1)
  {
    hide ConstInto, Signed;
    match term
    case Branch(target) => ConstNoReturn(I64, Signed(target), A.Phys(A.GUEST_STATE));
    case CondBranch(c, yes, no) =>
      var (st1, yesCode, y) := SelectTarget(st, yes);
      ConstNoReturn(I64, Signed(yes), A.VReg(y));
      ConstNoReturn(I64, Signed(no), A.VReg(SelectTarget(st1, no).2));
    case Return(None) => ConstNoReturn(I64, 0, A.Phys(A.GUEST_STATE));
    case Return(Some(_)) =>
  }

  /** Selection preserves meaning: called with X0 at GuestState, the code returns with guest
      registers and memory as the IR block leaves them, the next guest address in X0, and
      nothing else in host memory changed. */
  lemma SelectPreservesMeaning(l: Layout, b: Block, g: GuestState, s: A.State)
    requires Valid(l) && Represents(l, s.mem, g.x, g.mem) && A.Read(s, A.Phys(A.GUEST_STATE)) == l.state
    requires Ordered(b.insts) && RunBlock(l.region, b, g).Some?
    ensures
      var r := SelectBlock(INITIAL, b);
      var (g', pc) := RunBlock(l.region, b, g).value;
      && r.Some?
      && var out := A.Call(r.value.1, s);
      && out.Some?
      && Represents(l, out.value.mem, g'.x, g'.mem)
      && Confined(l, s.mem, out.value.mem)
      && A.Read(out.value, A.Phys(A.GUEST_STATE)) == pc
  {
    hide Represents, Confined, Valid, SelectInstruction, SelectExit, SelectAll, Exec, A.Exec, A.Call, Ordered, NextPc;
    var t0 := Enter(g);
    assert Confined(l, s.mem, s.mem) by { ConfinedRefl(l, s.mem); }
    AllCorrect(l, s.mem, b.insts, t0, s);
    var (st, code) := SelectAll(INITIAL, b.insts).value;
    var t := Exec(l.region, b.insts, t0).value;
    ExitCorrect(l, s.mem, st, t, A.Exec(code, s), b.terminator);
    var exit := SelectExit(st, b.terminator).value.1;
    A.ExecAppend(code, exit, s);
    AllNoReturn(INITIAL, b.insts);
    ExitNoReturn(st, b.terminator);
    A.CallRunsBody(code + exit, RETURN_INST, s);
    assert code + (exit + [RETURN_INST]) == code + exit + [RETURN_INST];
  }

  lemma ConfinedRefl(l: Layout, h: Mem)
    ensures Confined(l, h, h)
  {
  }
}
