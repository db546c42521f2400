/** Lifting preserves meaning: the lifted block, run from the guest state at block entry,
    does what the RISC-V instructions do one by one. */
module LifterCorrect {
  import opened Options
  import opened Words
  import opened Memory
  import opened Guest
  import opened IR
  import opened LifterSpec
  import RV = RiscV

  ghost function Sem(g: Region, l: LState, s0: GuestState): Option<IR.State> { Exec(g, l.code, Enter(s0)) }

  // The run of the code emitted so far has reached IR state t, which stands for guest state s:
  // cached values are current, and registers not modified since are current in t itself.
  ghost predicate Inv(g: Region, l: LState, s0: GuestState, s: GuestState, t: IR.State) {
    && WellFormed(l)
    && Sem(g, l, s0) == Some(t)
    && EnvTypes(t) == Types(l.code)
    && t.mem == s.mem
    && (forall r :: r in l.cache ==> Denotes(t, l.cache[r], s.x[r]))
    && (forall r :: 0 <= r < 32 && r !in l.modified ==> t.x[r] == s.x[r])
  }

  ghost predicate Denotes(t: IR.State, id: ValueId, v: Word) { id in t.env && t.env[id].bits == v }

  // Values once defined stay, and registers change only by write-back
  ghost predicate Grows(t: IR.State, t': IR.State) {
    t'.x == t.x && forall id :: id in t.env ==> id in t'.env && t'.env[id] == t.env[id]
  }

  /* ---- One emitted instruction ---- */

  lemma InvFacts(g: Region, l: LState, s0: GuestState, s: GuestState, t: IR.State)
    requires Inv(g, l, s0, s, t)
    ensures WellFormed(l) && EnvTypes(t) == Types(l.code) && t.mem == s.mem
  {
  }

  lemma Define(g: Region, l: LState, k: InstructionKind, s0: GuestState, s: GuestState, t: IR.State)
    returns (t': IR.State)
    requires Inv(g, l, s0, s, t)
    requires Typed(Types(l.code), k) && DefinesValue(k) && Accessible(g, k, t)
    ensures Inv(g, AddInst(l, k).0, s0, s, t') && Grows(t, t')
    ensures Denotes(t', AddInst(l, k).1, Evaluate(k, t))
  {
    hide WellFormed, Types, Typed, Accessible, Evaluate, Execute;
    var i := Inst(l.next, k);
    FreshId(l, t);
    Snoc(l.code, i);
    t' := Execute(i, t);
    Executes(i, t);
    DefineRuns(g, l, k, s0, t);
    DefineTypes(t, i.id, Value(TypeOf(k), Evaluate(k, t)));
  }

  lemma FreshId(l: LState, t: IR.State)
    requires WellFormed(l) && EnvTypes(t) == Types(l.code)
    ensures l.next !in t.env
  {
    hide Types;
    assert l.next in t.env <==> l.next in EnvTypes(t);
  }

  lemma Executes(i: Inst, t: IR.State)
    requires DefinesValue(i.kind) && Typed(EnvTypes(t), i.kind)
    ensures Execute(i, t) == t.(env := t.env[i.id := Value(TypeOf(i.kind), Evaluate(i.kind, t))])
  {
    hide Evaluate, Typed;
  }

  lemma DefineRuns(g: Region, l: LState, k: InstructionKind, s0: GuestState, t: IR.State)
    requires WellFormed(l) && Sem(g, l, s0) == Some(t) && EnvTypes(t) == Types(l.code)
    requires Typed(Types(l.code), k) && Accessible(g, k, t)
    ensures Sem(g, AddInst(l, k).0, s0) == Some(Execute(Inst(l.next, k), t))
  {
    hide WellFormed, Types, Typed, Accessible, Execute, Exec;
    ExecSnoc(g, l.code, Inst(l.next, k), Enter(s0));
  }

  lemma DefineTypes(t: IR.State, id: ValueId, v: Value)
    ensures EnvTypes(t.(env := t.env[id := v])) == EnvTypes(t)[id := v.ty]
  {
  }

  lemma DefineConst(g: Region, l: LState, v: int, s0: GuestState, s: GuestState, t: IR.State)
    returns (t': IR.State)
    requires Inv(g, l, s0, s, t) && ConstInRange(I64, v)
    ensures Inv(g, AddInst(l, Const(I64, v)).0, s0, s, t') && Grows(t, t')
    ensures Denotes(t', AddInst(l, Const(I64, v)).1, ToWord(v))
  {
    hide AddInst, WellFormed, Types, Sem;
    t' := Define(g, l, Const(I64, v), s0, s, t);
  }

  lemma ReadReg(g: Region, l: LState, r: RegNum, s0: GuestState, s: GuestState, t: IR.State)
    returns (t': IR.State)
    requires Inv(g, l, s0, s, t)
    ensures Inv(g, GetReg(l, r).0, s0, s, t') && Grows(t, t')
    ensures Denotes(t', GetReg(l, r).1, Get(s, r))
  {
    if r == 0 {
      t' := Define(g, l, Const(I64, 0), s0, s, t);
    } else if r in l.cache {
      t' := t;
    } else {
      t' := Define(g, l, RegRead(r), s0, s, t);
    }
  }

  lemma WriteReg(g: Region, l: LState, r: RegNum, id: ValueId, s0: GuestState, s: GuestState, t: IR.State)
    requires Inv(g, l, s0, s, t) && HasType(l, id, I64)
    ensures Inv(g, SetReg(l, r, id), s0, Set(s, r, t.env[id].bits), t)
  {
  }

  /* ---- One lifted instruction ---- */

  lemma RCorrect(g: Region, l: LState, rd: RegNum, rs1: RegNum, rs2: RegNum, op: BinaryOpcode,
                 s0: GuestState, s: GuestState, t: IR.State)
    returns (t': IR.State)
    requires Inv(g, l, s0, s, t)
    ensures Inv(g, LiftR(l, rd, rs1, rs2, op), s0, Set(s, rd, Result(op, Get(s, rs1), Get(s, rs2))), t')
  {
    hide AddInst, GetReg, SetReg, WellFormed, Types, Sem, Compare, Binary64;
    var (l1, a) := GetReg(l, rs1);
    var t1 := ReadReg(g, l, rs1, s0, s, t);
    var (l2, b) := GetReg(l1, rs2);
    var t2 := ReadReg(g, l1, rs2, s0, s, t1);
    var k := BinaryOp(op, I64, a, b);
    var (l3, c) := AddInst(l2, k);
    t' := Define(g, l2, k, s0, s, t2);
    WriteReg(g, l3, rd, c, s0, s, t');
  }

  function Result(op: BinaryOpcode, a: Word, b: Word): Word {
    if IsComparison(op) then Flag(Compare(op, a, b)) else Binary64(op, a, b)
  }

  lemma ICorrect(g: Region, l: LState, rd: RegNum, rs1: RegNum, imm: int, op: BinaryOpcode,
                 s0: GuestState, s: GuestState, t: IR.State)
    returns (t': IR.State)
    requires Inv(g, l, s0, s, t) && -0x800 <= imm < 0x800
    ensures Inv(g, LiftI(l, rd, rs1, imm, op), s0, Set(s, rd, Result(op, Get(s, rs1), ToWord(imm))), t')
  {
    hide AddInst, GetReg, SetReg, WellFormed, Types, Sem, Compare, Binary64, ToWord;
    var (l1, a) := GetReg(l, rs1);
    var t1 := ReadReg(g, l, rs1, s0, s, t);
    var (l2, b) := AddInst(l1, Const(I64, imm));
    var t2 := DefineConst(g, l1, imm, s0, s, t1);
    var k := BinaryOp(op, I64, a, b);
    var (l3, c) := AddInst(l2, k);
    t' := Define(g, l2, k, s0, s, t2);
    WriteReg(g, l3, rd, c, s0, s, t');
  }

  lemma WCorrect(g: Region, l: LState, rd: RegNum, rs1: RegNum, rs2: RegNum, op: BinaryOpcode,
                 s0: GuestState, s: GuestState, t: IR.State)
    returns (t': IR.State)
    requires Inv(g, l, s0, s, t) && Has32(op)
    ensures Inv(g, LiftW(l, rd, rs1, rs2, op), s0, Set(s, rd, WordResult(op, Get(s, rs1), Low32(Get(s, rs2)))), t')
  {
    hide AddInst, GetReg, WordEnd, WellFormed, Types, Sem, Binary32, SignExtend32, Low32;
    var (l1, a) := GetReg(l, rs1);
    var t1 := ReadReg(g, l, rs1, s0, s, t);
    var (l2, b) := GetReg(l1, rs2);
    var t2 := ReadReg(g, l1, rs2, s0, s, t1);
    var (l3, a32) := AddInst(l2, Trunc(I32, a));
    var t3 := Define(g, l2, Trunc(I32, a), s0, s, t2);
    var (l4, b32) := AddInst(l3, Trunc(I32, b));
    var t4 := Define(g, l3, Trunc(I32, b), s0, s, t3);
    t' := WordTail(g, l4, rd, op, a32, b32, s0, s, t4);
  }

  function WordResult(op: BinaryOpcode, a: Word, b32: Word): Word
    requires Has32(op)
  {
    SignExtend32(Binary32(op, Low32(a), b32))
  }

  lemma WImmCorrect(g: Region, l: LState, rd: RegNum, rs1: RegNum, imm: int, op: BinaryOpcode,
                    s0: GuestState, s: GuestState, t: IR.State)
    returns (t': IR.State)
    requires Inv(g, l, s0, s, t) && Has32(op) && -0x800 <= imm < 0x800
    ensures Inv(g, LiftWImm(l, rd, rs1, imm, op), s0, Set(s, rd, WordResult(op, Get(s, rs1), ConstBits(I32, imm))), t')
  {
    hide AddInst, GetReg, WordEnd, WellFormed, Types, Sem, Binary32, SignExtend32, Low32, ConstBits;
    var (l1, a) := GetReg(l, rs1);
    var t1 := ReadReg(g, l, rs1, s0, s, t);
    var (l2, b32) := AddInst(l1, Const(I32, imm));
    var t2 := Define(g, l1, Const(I32, imm), s0, s, t1);
    var (l3, a32) := AddInst(l2, Trunc(I32, a));
    var t3 := Define(g, l2, Trunc(I32, a), s0, s, t2);
    t' := WordTail(g, l3, rd, op, a32, b32, s0, s, t3);
  }

  // The 32-bit operation and the sign extension that end both word patterns
  lemma WordTail(g: Region, l: LState, rd: RegNum, op: BinaryOpcode, a: ValueId, b: ValueId,
                 s0: GuestState, s: GuestState, t: IR.State)
    returns (t': IR.State)
    requires Inv(g, l, s0, s, t) && Has32(op) && HasType(l, a, I32) && HasType(l, b, I32)
    ensures Inv(g, WordEnd(l, rd, a, b, op), s0, Set(s, rd, SignExtend32(Binary32(op, t.env[a].bits, t.env[b].bits))),
      t')
  {
    hide AddInst, GetReg, SetReg, WellFormed, Types, Sem, Binary32, SignExtend32;
    var k := BinaryOp(op, I32, a, b);
    var (l1, c32) := AddInst(l, k);
    var t1 := Define(g, l, k, s0, s, t);
    var (l2, c) := AddInst(l1, Sext(I64, c32));
    t' := Define(g, l1, Sext(I64, c32), s0, s, t1);
    WriteReg(g, l2, rd, c, s0, s, t');
  }

  // base + offset, as loads and stores compute their address
  lemma AddressCorrect(g: Region, l: LState, a: ValueId, base: Word, offset: int,
                       s0: GuestState, s: GuestState, t: IR.State)
    returns (t': IR.State)
    requires Inv(g, l, s0, s, t) && HasType(l, a, I64) && Denotes(t, a, base) && -0x800 <= offset < 0x800
    ensures
      var (l1, b) := AddInst(l, Const(I64, offset));
      var (l2, addr) := AddInst(l1, BinaryOp(Plus, I64, a, b));
      Inv(g, l2, s0, s, t') && Grows(t, t') && Denotes(t', addr, Add(base, ToWord(offset)))
  {
    hide AddInst, GetReg, SetReg, WellFormed, Types, Sem;
    var (l1, b) := AddInst(l, Const(I64, offset));
    var t1 := DefineConst(g, l, offset, s0, s, t);
    t' := Define(g, l1, BinaryOp(Plus, I64, a, b), s0, s, t1);
  }

  // The load itself
  lemma LoadTyped(g: Region, l: LState, addr: ValueId, at: Word, ty: Type, s0: GuestState, s: GuestState, t: IR.State)
    returns (t': IR.State)
    requires Inv(g, l, s0, s, t) && HasType(l, addr, I64) && Denotes(t, addr, at) && !ty.I1?
    requires InRegion(g, at, Width(ty))
    ensures
      var (l1, v) := AddInst(l, LoadFrom(ty, addr));
      Inv(g, l1, s0, s, t') && Denotes(t', v, ReadTyped(ty, s.mem, at))
  {
    hide AddInst, WellFormed, Types, Sem, ReadTyped;
    t' := Define(g, l, LoadFrom(ty, addr), s0, s, t);
  }

  // The sign or zero extension that ends a narrow load
  lemma ExtendCorrect(g: Region, l: LState, rd: RegNum, v: ValueId, signed: bool, s0: GuestState, s: GuestState,
                      t: IR.State)
    returns (t': IR.State)
    requires Inv(g, l, s0, s, t) && v in Types(l.code)
    requires var ty := Types(l.code)[v]; ty.I32? || (signed && (ty.I8? || ty.I16?))
    ensures
      var ty := Types(l.code)[v];
      var w: Word := if signed then Extend(ty, t.env[v].bits) else t.env[v].bits;
      var (l1, id) := AddInst(l, if signed then Sext(I64, v) else Zext(I64, v));
      Inv(g, SetReg(l1, rd, id), s0, Set(s, rd, w), t')
  {
    hide AddInst, SetReg, WellFormed, Types, Sem, Extend;
    var k := if signed then Sext(I64, v) else Zext(I64, v);
    var (l1, id) := AddInst(l, k);
    t' := Define(g, l, k, s0, s, t);
    WriteReg(g, l1, rd, id, s0, s, t');
  }

  lemma LoadTail(g: Region, l: LState, rd: RegNum, v: ValueId, ty: Type, signed: bool,
                 s0: GuestState, s: GuestState, t: IR.State)
    returns (t': IR.State)
    requires Inv(g, l, s0, s, t) && HasType(l, v, ty)
    requires ty.I8? || ty.I16? || ty.I32? || ty.I64?
    requires !signed ==> ty.I32? || ty.I64?
    ensures Inv(g, LoadEnd(l, rd, v, ty, signed), s0, Set(s, rd, LoadResult(ty, signed, t.env[v].bits)), t')
  {
    InvFacts(g, l, s0, s, t);
    hide Inv, AddInst, SetReg, WellFormed, Types, Extend, Set;
    if ty.I64? {
      t' := t;
      WriteReg(g, l, rd, v, s0, s, t');
    } else {
      t' := ExtendCorrect(g, l, rd, v, signed, s0, s, t);
    }
  }

  function LoadResult(ty: Type, signed: bool, v: Word): Word {
    if ty.I64? || !signed then v else Extend(ty, v)
  }

  lemma LoadCorrect(g: Region, l: LState, rd: RegNum, rs1: RegNum, imm: int, ty: Type, signed: bool,
                    s0: GuestState, s: GuestState, t: IR.State)
    returns (t': IR.State)
    requires Inv(g, l, s0, s, t) && -0x800 <= imm < 0x800
    requires ty.I8? || ty.I16? || ty.I32? || ty.I64?
    requires !signed ==> ty.I32? || ty.I64?
    requires InRegion(g, Add(Get(s, rs1), ToWord(imm)), Width(ty))
    ensures
      Inv(g, LiftLoad(l, rd, rs1, imm, ty, signed), s0,
          Set(s, rd, LoadResult(ty, signed, ReadTyped(ty, s.mem, Add(Get(s, rs1), ToWord(imm))))), t')
  {
    hide AddInst, GetReg, LoadEnd, WellFormed, Types, Sem, Add, ToWord, ReadTyped, LoadResult, Set;
    var (l1, a) := GetReg(l, rs1);
    var t1 := ReadReg(g, l, rs1, s0, s, t);
    var (l2, b) := AddInst(l1, Const(I64, imm));
    var (l3, addr) := AddInst(l2, BinaryOp(Plus, I64, a, b));
    var (l4, v) := AddInst(l3, LoadFrom(ty, addr));
    var t3 := AddressCorrect(g, l1, a, Get(s, rs1), imm, s0, s, t1);
    var t4 := LoadTyped(g, l3, addr, Add(Get(s, rs1), ToWord(imm)), ty, s0, s, t3);
    t' := LoadTail(g, l4, rd, v, ty, signed, s0, s, t4);
  }

  lemma StoreCorrect(g: Region, l: LState, rs1: RegNum, rs2: RegNum, imm: int, ty: Type,
                     s0: GuestState, s: GuestState, t: IR.State)
    returns (t': IR.State)
    requires Inv(g, l, s0, s, t) && -0x800 <= imm < 0x800 && (ty.I32? || ty.I64?)
    requires InRegion(g, Add(Get(s, rs1), ToWord(imm)), Width(ty))
    ensures
      var a := Add(Get(s, rs1), ToWord(imm));
      Inv(g, LiftStore(l, rs1, rs2, imm, ty), s0, s.(mem := Store(s.mem, a, Width(ty), Get(s, rs2))), t')
  {
    hide AddInst, GetReg, SetReg, WellFormed, Types, Sem, Add, ToWord, Low32, Store;
    var (l1, a) := GetReg(l, rs1);
    var t1 := ReadReg(g, l, rs1, s0, s, t);
    var (l2, v) := GetReg(l1, rs2);
    var t2 := ReadReg(g, l1, rs2, s0, s, t1);
    var (l3, b) := AddInst(l2, Const(I64, imm));
    var (l4, addr) := AddInst(l3, BinaryOp(Plus, I64, a, b));
    var t4 := AddressCorrect(g, l2, a, Get(s, rs1), imm, s0, s, t2);
    if ty.I64? {
      t' := WriteMemory(g, l4, v, addr, s0, s, t4);
    } else {
      t' := StoreWord(g, l4, v, addr, s0, s, t4);
    }
  }

  // The truncation and the store that end a four-byte store
  lemma StoreWord(g: Region, l: LState, v: ValueId, addr: ValueId, s0: GuestState, s: GuestState, t: IR.State)
    returns (t': IR.State)
    requires Inv(g, l, s0, s, t) && HasType(l, v, I64) && HasType(l, addr, I64)
    requires v in t.env && addr in t.env && InRegion(g, t.env[addr].bits, 4)
    ensures
      var (l1, w) := AddInst(l, Trunc(I32, v));
      Inv(g, AddInst(l1, StoreTo(w, addr)).0, s0,
          s.(mem := Store(s.mem, t.env[addr].bits, 4, t.env[v].bits)), t')
  {
    hide GetReg, SetReg, WellFormed, Types, Sem, Low32, Store;
    var (l1, w) := AddInst(l, Trunc(I32, v));
    var t1 := Define(g, l, Trunc(I32, v), s0, s, t);
    t' := WriteMemory(g, l1, w, addr, s0, s, t1);
    StoreLow32(s.mem, t.env[addr].bits, t.env[v].bits);
  }

  lemma WriteMemory(g: Region, l: LState, v: ValueId, addr: ValueId, s0: GuestState, s: GuestState, t: IR.State)
    returns (t': IR.State)
    requires Inv(g, l, s0, s, t) && Typed(Types(l.code), StoreTo(v, addr)) && Accessible(g, StoreTo(v, addr), t)
    ensures
      Inv(g, AddInst(l, StoreTo(v, addr)).0, s0,
          s.(mem := Store(s.mem, t.env[addr].bits, Width(t.env[v].ty), t.env[v].bits)), t')
  {
    var i := Inst(l.next, StoreTo(v, addr));
    ExecSnoc(g, l.code, i, Enter(s0));
    t' := Execute(i, t);
    Snoc(l.code, i);
  }

  // A four-byte store sees only the low 32 bits
  lemma StoreLow32(m: Mem, a: int, v: Word)
    ensures Store(m, a, 4, Low32(v)) == Store(m, a, 4, v)
  {
    var v1 := v / 256;
    var v2 := v1 / 256;
    PeelByte32(v);
    PeelByte24(v1);
    PeelByte16(v2);
    assert Store(m, a, 4, v) == Store(m[a := v % 256][a + 1 := v1 % 256], a + 2, 2, v2);
    assert Store(m, a, 4, Low32(v)) == Store(m[a := v % 256][a + 1 := v1 % 256], a + 2, 2, v2 % 0x1_0000);
  }

  lemma PeelByte32(v: nat)
    ensures v % TWO32 % 256 == v % 256 && v % TWO32 / 256 == v / 256 % 0x100_0000
  {
  }

  lemma PeelByte24(v: nat)
    ensures v % 0x100_0000 % 256 == v % 256 && v % 0x100_0000 / 256 == v / 256 % 0x1_0000
  {
  }

  lemma PeelByte16(v: nat)
    ensures v % 0x1_0000 % 256 == v % 256 && v % 0x1_0000 / 256 % 256 == v / 256 % 256
  {
  }

  lemma SignedRoundTrip(x: Word)
    ensures ToWord(Signed(x)) == x && ConstInRange(I64, Signed(x))
  {
  }

  lemma LuiCorrect(g: Region, l: LState, rd: RegNum, imm: int, s0: GuestState, s: GuestState, t: IR.State)
    returns (t': IR.State)
    requires Inv(g, l, s0, s, t) && -0x8000_0000 <= imm < 0x8000_0000
    ensures Inv(g, LiftLui(l, rd, imm), s0, Set(s, rd, ToWord(imm * 0x1000)), t')
  {
    hide AddInst, SetReg, WellFormed, Types, Sem, ToWord;
    var (l1, v) := AddInst(l, Const(I64, imm * 0x1000));
    t' := DefineConst(g, l, imm * 0x1000, s0, s, t);
    WriteReg(g, l1, rd, v, s0, s, t');
  }

  lemma AuipcCorrect(g: Region, l: LState, rd: RegNum, imm: int, pc: Word, s0: GuestState, s: GuestState, t: IR.State)
    returns (t': IR.State)
    requires Inv(g, l, s0, s, t) && -0x8000_0000 <= imm < 0x8000_0000
    ensures Inv(g, LiftAuipc(l, rd, imm, pc), s0, Set(s, rd, Add(pc, ToWord(imm * 0x1000))), t')
  {
    SignedRoundTrip(pc);
    hide AddInst, SetReg, WellFormed, Types, Sem, Add, ToWord, Signed;
    var (l1, a) := AddInst(l, Const(I64, Signed(pc)));
    var t1 := DefineConst(g, l, Signed(pc), s0, s, t);
    var (l2, b) := AddInst(l1, Const(I64, imm * 0x1000));
    var t2 := DefineConst(g, l1, imm * 0x1000, s0, s, t1);
    var k := BinaryOp(Plus, I64, a, b);
    var (l3, c) := AddInst(l2, k);
    t' := Define(g, l2, k, s0, s, t2);
    WriteReg(g, l3, rd, c, s0, s, t');
  }

  /* ---- Whole instructions ---- */

  lemma ArithmeticTable(op: RV.Opcode, a: Word, b: Word)
    requires (RV.IsRType(op) || RV.IsIType(op)) && !IsWord(op)
    ensures RV.Arithmetic(op, a, b) == Result(BinaryOf(op), a, b)
  {
    hide Add, Sub, Bits64, Shl64, Shr64, Sar64, Signed, Flag, SignExtend32, Shl32;
  }

  lemma LoadTable(op: RV.Opcode, m: Mem, a: Word)
    requires RV.IsLoad(op)
    ensures
      RV.LoadedValue(op, m, a) == LoadResult(AccessType(op), !op.LWU? && !op.LD?, ReadTyped(AccessType(op), m, a))
  {
  }

  lemma AddwTable(op: RV.Opcode, a: Word, b: Word)
    requires op.ADDW? || op.ADDIW?
    ensures RV.Arithmetic(op, a, b) == WordResult(Plus, a, Low32(b))
  {
    LowSum(a, b);
    LowExtends(Add(a, b));
    hide Low32, SignExtend32, Add;
  }

  lemma LowSum(a: Word, b: Word)
    ensures (Low32(a) + Low32(b)) % TWO32 == Low32(Add(a, b))
  {
  }

  lemma LowExtends(x: Word)
    ensures SignExtend32(Low32(x)) == SignExtend32(x)
  {
  }

  lemma SameAmount(imm: int)
    requires -0x800 <= imm < 0x800
    ensures ConstBits(I32, imm) % 32 == ToWord(imm) % 32
  {
  }

  lemma LowTwice(a: Word)
    ensures Low32(Low32(a)) == Low32(a)
  {
  }

  lemma SlliwTable(a: Word, imm: int)
    requires -0x800 <= imm < 0x800
    ensures RV.Arithmetic(RV.SLLIW, a, ToWord(imm)) == WordResult(Shl, a, ConstBits(I32, imm))
  {
    hide SignExtend32;
    SameAmount(imm);
    LowTwice(a);
    hide ConstBits, ToWord, Low32;
  }

  lemma WordImmediate(imm: int)
    requires -0x800 <= imm < 0x800
    ensures ConstBits(I32, imm) == Low32(ToWord(imm))
  {
  }

  lemma SingleCorrect(g: Region, l: LState, i: RV.Instruction, s0: GuestState, s: GuestState, t: IR.State)
    returns (t': IR.State)
    requires Inv(g, l, s0, s, t) && RV.Supported(i) && !RV.IsTerminator(i.opcode) && RV.Step(g, i, s).Some?
    ensures Inv(g, LiftSingle(l, i), s0, RV.Step(g, i, s).value, t')
  {
    hide Inv, LiftSingle, RV.Step;
    if RV.IsRType(i.opcode) {
      t' := RTypeCorrect(g, l, i, s0, s, t);
    } else if RV.IsIType(i.opcode) {
      t' := ITypeCorrect(g, l, i, s0, s, t);
    } else if RV.IsLoad(i.opcode) {
      t' := LoadOpCorrect(g, l, i, s0, s, t);
    } else if RV.IsStore(i.opcode) {
      t' := StoreOpCorrect(g, l, i, s0, s, t);
    } else {
      t' := UpperOpCorrect(g, l, i, s0, s, t);
    }
  }

  lemma LoadOpCorrect(g: Region, l: LState, i: RV.Instruction, s0: GuestState, s: GuestState, t: IR.State)
    returns (t': IR.State)
    requires Inv(g, l, s0, s, t) && RV.Supported(i) && RV.IsLoad(i.opcode) && RV.Step(g, i, s).Some?
    ensures Inv(g, LiftSingle(l, i), s0, RV.Step(g, i, s).value, t')
  {
    hide Inv, LiftLoad, RV.LoadedValue, Add, ToWord, ReadTyped, LoadResult, Set, Get;
    var a := Add(Get(s, i.GetRegister(1)), ToWord(i.GetImmediate(2)));
    LoadTable(i.opcode, s.mem, a);
    t' := LoadCorrect(g, l, i.GetRegister(0), i.GetRegister(1), i.GetImmediate(2),
      AccessType(i.opcode), !i.opcode.LWU? && !i.opcode.LD?, s0, s, t);
  }

  lemma StoreOpCorrect(g: Region, l: LState, i: RV.Instruction, s0: GuestState, s: GuestState, t: IR.State)
    returns (t': IR.State)
    requires Inv(g, l, s0, s, t) && RV.Supported(i) && RV.IsStore(i.opcode) && RV.Step(g, i, s).Some?
    ensures Inv(g, LiftSingle(l, i), s0, RV.Step(g, i, s).value, t')
  {
    hide Inv, LiftStore, Add, ToWord, Set, Get, Store;
    t' := StoreCorrect(g, l, i.GetRegister(0), i.GetRegister(1), i.GetImmediate(2), AccessType(i.opcode), s0, s, t);
  }

  lemma UpperOpCorrect(g: Region, l: LState, i: RV.Instruction, s0: GuestState, s: GuestState, t: IR.State)
    returns (t': IR.State)
    requires Inv(g, l, s0, s, t) && RV.Supported(i) && RV.IsUpper(i.opcode) && RV.Step(g, i, s).Some?
    ensures Inv(g, LiftSingle(l, i), s0, RV.Step(g, i, s).value, t')
  {
    hide Inv, LiftLui, LiftAuipc, Add, ToWord, Set, Get;
    if i.opcode.LUI? {
      t' := LuiCorrect(g, l, i.GetRegister(0), i.GetImmediate(1), s0, s, t);
    } else {
      t' := AuipcCorrect(g, l, i.GetRegister(0), i.GetImmediate(1), i.address, s0, s, t);
    }
  }

  lemma RTypeCorrect(g: Region, l: LState, i: RV.Instruction, s0: GuestState, s: GuestState, t: IR.State)
    returns (t': IR.State)
    requires Inv(g, l, s0, s, t) && RV.Supported(i) && RV.IsRType(i.opcode)
    ensures Inv(g, LiftSingle(l, i), s0, RV.Step(g, i, s).value, t')
  {
    InvFacts(g, l, s0, s, t);
    hide Inv, LiftR, LiftW, WellFormed, RV.Arithmetic, BinaryOf, Result, WordResult, Low32, Set, Get;
    var a, b := Get(s, i.GetRegister(1)), Get(s, i.GetRegister(2));
    if i.opcode.ADDW? {
      AddwTable(i.opcode, a, b);
      t' := WCorrect(g, l, i.GetRegister(0), i.GetRegister(1), i.GetRegister(2), Plus, s0, s, t);
    } else {
      ArithmeticTable(i.opcode, a, b);
      t' := RCorrect(g, l, i.GetRegister(0), i.GetRegister(1), i.GetRegister(2), BinaryOf(i.opcode), s0, s, t);
    }
  }

  lemma ITypeCorrect(g: Region, l: LState, i: RV.Instruction, s0: GuestState, s: GuestState, t: IR.State)
    returns (t': IR.State)
    requires Inv(g, l, s0, s, t) && RV.Supported(i) && RV.IsIType(i.opcode)
    ensures Inv(g, LiftSingle(l, i), s0, RV.Step(g, i, s).value, t')
  {
    InvFacts(g, l, s0, s, t);
    hide Inv, LiftI, LiftWImm, WellFormed, RV.Arithmetic, Result, WordResult, Low32, Set, Get, ToWord, ConstBits;
    var a, imm := Get(s, i.GetRegister(1)), i.GetImmediate(2);
    if IsWord(i.opcode) {
      WordImmediate(imm);
      if i.opcode.SLLIW? { SlliwTable(a, imm); } else { AddwTable(i.opcode, a, ToWord(imm)); }
      t' := WImmCorrect(g, l, i.GetRegister(0), i.GetRegister(1), imm, BinaryOf(i.opcode), s0, s, t);
    } else {
      ArithmeticTable(i.opcode, a, ToWord(imm));
      t' := ICorrect(g, l, i.GetRegister(0), i.GetRegister(1), imm, BinaryOf(i.opcode), s0, s, t);
    }
  }

  /* ---- Whole blocks ---- */

  lemma StartCorrect(g: Region, next: ValueId, s0: GuestState)
    ensures Inv(g, Start(next), s0, s0, Enter(s0))
  {
  }

  lemma AllCorrect(g: Region, next: ValueId, insts: seq<RV.Instruction>, s0: GuestState)
    returns (t: IR.State)
    requires RV.AllSupported(insts) && RV.NoTerminator(insts) && RV.Body(g, insts, s0).Some?
    ensures Inv(g, LiftAll(Start(next), insts), s0, RV.Body(g, insts, s0).value, t)
  {
    StartWellFormed(next);
    hide Inv, LiftSingle, RV.Step, RV.Supported, WellFormed;
    if insts == [] {
      t := Enter(s0);
      StartCorrect(g, next, s0);
    } else {
      var n := |insts| - 1;
      var t1 := AllCorrect(g, next, insts[..n], s0);
      t := SingleCorrect(g, LiftAll(Start(next), insts[..n]), insts[n], s0, RV.Body(g, insts[..n], s0).value, t1);
    }
  }

  // Written registers take their cached values; the order does not matter
  lemma WriteBackCorrect(g: Region, l: LState, order: seq<nat>, s0: GuestState, s: GuestState, t: IR.State)
    returns (t': IR.State)
    requires Inv(g, l, s0, s, t) && forall r :: r in order ==> r in l.cache
    ensures Inv(g, WriteBack(l, order), s0, s, t')
    ensures forall r :: 0 <= r < 32 ==> t'.x[r] == if r in order then s.x[r] else t.x[r]
  {
    hide Inv, AddInst, WellFormed, Types, Keeps;
    InvFacts(g, l, s0, s, t);
    if order == [] {
      t' := t;
    } else {
      var n := |order| - 1;
      var r := order[n];
      assert order == order[..n] + [r];
      var t1 := WriteBackCorrect(g, l, order[..n], s0, s, t);
      var l1 := WriteBack(l, order[..n]);
      t' := WriteOne(g, l1, r, s0, s, t1);
    }
  }

  lemma WriteOne(g: Region, l: LState, r: nat, s0: GuestState, s: GuestState, t: IR.State)
    returns (t': IR.State)
    requires Inv(g, l, s0, s, t) && r in l.cache
    ensures Inv(g, AddInst(l, RegWrite(r, l.cache[r])).0, s0, s, t')
    ensures t'.x == t.x[r := s.x[r]]
  {
    var i := Inst(l.next, RegWrite(r, l.cache[r]));
    ExecSnoc(g, l.code, i, Enter(s0));
    t' := Execute(i, t);
    Snoc(l.code, i);
  }

  lemma BranchCorrect(g: Region, l: LState, op: BinaryOpcode, rs1: RegNum, rs2: RegNum, target: Word, fallThrough: Word,
                      s0: GuestState, s: GuestState, t: IR.State)
    returns (t': IR.State)
    requires Inv(g, l, s0, s, t) && IsComparison(op)
    ensures
      var (l', term) := LiftBranch(l, op, rs1, rs2, target, fallThrough);
      Inv(g, l', s0, s, t') && t'.x == t.x &&
      NextPc(term, t') == if Compare(op, Get(s, rs1), Get(s, rs2)) then target else fallThrough
  {
    hide AddInst, GetReg, WellFormed, Types, Sem, Compare;
    var (l1, a) := GetReg(l, rs1);
    var t1 := ReadReg(g, l, rs1, s0, s, t);
    var (l2, b) := GetReg(l1, rs2);
    var t2 := ReadReg(g, l1, rs2, s0, s, t1);
    t' := Define(g, l2, BinaryOp(op, I1, a, b), s0, s, t2);
  }

  lemma JalrCorrect(g: Region, l: LState, rs1: RegNum, imm: int, s0: GuestState, s: GuestState, t: IR.State)
    returns (t': IR.State)
    requires Inv(g, l, s0, s, t) && -0x800 <= imm < 0x800
    ensures
      var (l', id) := LiftJalr(l, rs1, imm);
      Inv(g, l', s0, s, t') && t'.x == t.x && Denotes(t', id, Even(Add(Get(s, rs1), ToWord(imm))))
  {
    hide AddInst, GetReg, WellFormed, Types, Sem, Add, ToWord, Even;
    var (l1, a) := GetReg(l, rs1);
    var t1 := ReadReg(g, l, rs1, s0, s, t);
    var (l2, b) := AddInst(l1, Const(I64, imm));
    var (l3, sum) := AddInst(l2, BinaryOp(Plus, I64, a, b));
    var t3 := AddressCorrect(g, l1, a, Get(s, rs1), imm, s0, s, t1);
    t' := MaskCorrect(g, l3, sum, s0, s, t3);
  }

  lemma MaskCorrect(g: Region, l: LState, sum: ValueId, s0: GuestState, s: GuestState, t: IR.State)
    returns (t': IR.State)
    requires Inv(g, l, s0, s, t) && HasType(l, sum, I64)
    ensures
      var (l1, mask) := AddInst(l, Const(I64, -2));
      var (l2, id) := AddInst(l1, BinaryOp(And, I64, sum, mask));
      Inv(g, l2, s0, s, t') && t'.x == t.x && Denotes(t', id, Even(t.env[sum].bits))
  {
    hide AddInst, WellFormed, Types, Sem, ToWord, Bits64, Even;
    MinusTwo(t.env[sum].bits);
    var (l1, mask) := AddInst(l, Const(I64, -2));
    var t1 := DefineConst(g, l, -2, s0, s, t);
    t' := Define(g, l1, BinaryOp(And, I64, sum, mask), s0, s, t1);
  }

  lemma MinusTwo(v: Word)
    ensures Bits64(BitAnd, v, ToWord(-2)) == Even(v)
  {
    ClearLowestBit(v);
  }

  lemma LinkCorrect(g: Region, l: LState, rd: RegNum, ra: Word, s0: GuestState, s: GuestState, t: IR.State)
    returns (t': IR.State)
    requires Inv(g, l, s0, s, t)
    ensures Inv(g, LinkTo(l, rd, ra), s0, Set(s, rd, ra), t') && Grows(t, t')
  {
    SignedRoundTrip(ra);
    hide AddInst, SetReg, WellFormed, Types, Sem, ToWord, Signed;
    var (l1, v) := AddInst(l, Const(I64, Signed(ra)));
    t' := DefineConst(g, l, Signed(ra), s0, s, t);
    WriteReg(g, l1, rd, v, s0, s, t');
  }

  // Where a lifted block goes: as the ISA says, except that RET stops
  function LiftedTarget(insts: seq<RV.Instruction>, s: GuestState): Word
    requires RV.AllSupported(insts)
  {
    if insts == [] || (RV.EndsInTerminator(insts) && RV.IsRet(insts[|insts| - 1])) then 0
    else RV.BlockTarget(insts, s)
  }

  lemma TerminatorCorrect(g: Region, l: LState, i: RV.Instruction, s0: GuestState, s: GuestState, t: IR.State)
    returns (t': IR.State)
    requires Inv(g, l, s0, s, t) && RV.Supported(i) && RV.IsTerminator(i.opcode)
    ensures
      var (l', term) := LiftTerminator(l, i, Add(i.address, 4));
      Sem(g, l', s0) == Some(t') && EnvTypes(t') == Types(l'.code) && t'.x == t.x && t'.mem == s.mem &&
      NextPc(term, t') == if RV.IsRet(i) then 0 else RV.Target(i, s)
  {
    hide AddInst, GetReg, SetReg, WellFormed, Types, LiftBranch, LinkTo, LiftJalr, Sem, Add, ToWord, Compare, Even;
    if RV.IsBranch(i.opcode) {
      CompareTable(i.opcode, Get(s, i.GetRegister(0)), Get(s, i.GetRegister(1)));
      hide CompareOf;
      t' := BranchCorrect(g, l, CompareOf(i.opcode), i.GetRegister(0), i.GetRegister(1),
        Add(i.address, ToWord(i.GetImmediate(2))), Add(i.address, 4), s0, s, t);
    } else if i.opcode.JAL? {
      t' := LinkCorrect(g, l, i.GetRegister(0), Add(i.address, 4), s0, s, t);
    } else if RV.IsRet(i) {
      t' := t;
    } else {
      t' := JalrCorrect(g, l, i.GetRegister(1), i.GetImmediate(2), s0, s, t);
      if i.GetRegister(0) != 0 {
        var (l1, id) := LiftJalr(l, i.GetRegister(1), i.GetImmediate(2));
        t' := LinkCorrect(g, l1, i.GetRegister(0), Add(i.address, 4), s0, s, t');
      }
    }
  }

  lemma CompareTable(op: RV.Opcode, a: Word, b: Word)
    requires RV.IsBranch(op)
    ensures Compare(CompareOf(op), a, b) == RV.Taken(op, a, b)
  {
  }

  lemma StraightFacts(insts: seq<RV.Instruction>)
    requires RV.IsBlock(insts)
    ensures RV.AllSupported(RV.Straight(insts)) && RV.NoTerminator(RV.Straight(insts))
  {
  }

  // The straight-line part and its write-back
  lemma LiftedCorrect(g: Region, next: ValueId, insts: seq<RV.Instruction>, order: seq<nat>, s: GuestState)
    returns (t: IR.State)
    requires RV.IsBlock(insts) && RV.EndState(g, insts, s).Some?
    requires IsOrder(order, LiftAll(Start(next), RV.Straight(insts)).modified)
    ensures Inv(g, Lifted(next, insts, order), s, RV.EndState(g, insts, s).value, t)
    ensures t.x == RV.EndState(g, insts, s).value.x
  {
    hide Inv, WriteBack, LiftAll, Types, WellFormed, Keeps, RV.Straight, RV.Body, RV.AllSupported, RV.TerminatorLast,
      RV.NoTerminator;
    StraightFacts(insts);
    StartWellFormed(next);
    var end := RV.EndState(g, insts, s).value;
    var l0 := LiftAll(Start(next), RV.Straight(insts));
    var t0 := AllCorrect(g, next, RV.Straight(insts), s);
    InvFacts(g, l0, s, end, t0);
    t := WriteBackCorrect(g, l0, order, s, end, t0);
    AllWritten(g, l0, order, s, end, t0, t);
  }

  /** The lifted block computes the registers and memory that the instructions leave before a
      link register is written, and the block's target. */
  lemma LiftPreservesMeaning(g: Region, next: ValueId, insts: seq<RV.Instruction>, order: seq<nat>, s: GuestState)
    requires RV.IsBlock(insts) && RV.EndState(g, insts, s).Some?
    requires IsOrder(order, LiftAll(Start(next), RV.Straight(insts)).modified)
    ensures
      var (l, term) := LiftBlock(next, insts, order);
      var end := RV.EndState(g, insts, s).value;
      RunBlock(g, Block(l.code, term), s) == Some((end, LiftedTarget(insts, end)))
  {
    var end := RV.EndState(g, insts, s).value;
    var l := Lifted(next, insts, order);
    var t := LiftedCorrect(g, next, insts, order, s);
    InvFacts(g, l, s, end, t);
    SemOf(g, l, s, end, t);
    hide Inv, Lifted, LiftAll, LiftTerminator, WellFormed, Types, RV.EndState, RV.Target, RV.IsRet, Exec;
    if RV.EndsInTerminator(insts) {
      var t2 := TerminatorCorrect(g, l, insts[|insts| - 1], s, end, t);
    }
  }

  lemma SemOf(g: Region, l: LState, s0: GuestState, s: GuestState, t: IR.State)
    requires Inv(g, l, s0, s, t)
    ensures Sem(g, l, s0) == Some(t)
  {
  }

  lemma AllWritten(g: Region, l: LState, order: seq<nat>, s0: GuestState, s: GuestState, t: IR.State, t': IR.State)
    requires Inv(g, l, s0, s, t) && IsOrder(order, l.modified)
    requires forall r :: 0 <= r < 32 ==> t'.x[r] == if r in order then s.x[r] else t.x[r]
    ensures t'.x == s.x
  {
  }

  // The link register, when there is one, holds the link value already
  predicate LinkHeld(insts: seq<RV.Instruction>, end: GuestState)
    requires RV.AllSupported(insts)
  {
    !RV.EndsInTerminator(insts) ||
    var last := insts[|insts| - 1];
    RV.IsBranch(last.opcode) || last.GetRegister(0) == 0 ||
    end.x[last.GetRegister(0)] == Add(last.address, 4)
  }

  lemma IsaAgreesIff(insts: seq<RV.Instruction>, end: GuestState)
    requires RV.AllSupported(insts) && insts != []
    ensures
      (end, LiftedTarget(insts, end)) == (RV.BlockLink(insts, end), RV.BlockTarget(insts, end)) <==>
      LinkHeld(insts, end) && (RV.EndsInTerminator(insts) && RV.IsRet(insts[|insts| - 1]) ==> end.x[1] < 2)
  {
    if RV.EndsInTerminator(insts) {
      var last := insts[|insts| - 1];
      if !RV.IsBranch(last.opcode) && last.GetRegister(0) != 0 {
        assert RV.Link(last, end).x[last.GetRegister(0)] == Add(last.address, 4);
        assert RV.Link(last, end) == end <==> end.x[last.GetRegister(0)] == Add(last.address, 4);
      }
      if RV.IsRet(last) {
        assert RV.Target(last, end) == end.x[1] - end.x[1] % 2;
      }
    }
  }

  /** Exactly when a lifted block is faithful to the ISA: no live link register (its value is
      cached after write-back and lost), and a RET returns to 0. */
  lemma LiftFaithfulIff(g: Region, next: ValueId, insts: seq<RV.Instruction>, order: seq<nat>, s: GuestState)
    requires RV.IsBlock(insts) && insts != [] && RV.EndState(g, insts, s).Some?
    requires IsOrder(order, LiftAll(Start(next), RV.Straight(insts)).modified)
    ensures
      var (l, term) := LiftBlock(next, insts, order);
      var end := RV.EndState(g, insts, s).value;
      RunBlock(g, Block(l.code, term), s) == RV.RunBlock(g, insts, s) <==>
      LinkHeld(insts, end) && (RV.EndsInTerminator(insts) && RV.IsRet(insts[|insts| - 1]) ==> end.x[1] < 2)
  {
    LiftPreservesMeaning(g, next, insts, order, s);
    IsaAgreesIff(insts, RV.EndState(g, insts, s).value);
    hide LiftBlock, LiftAll, RunBlock, RV.EndState, RV.AllSupported, RV.TerminatorLast, LinkHeld, LiftedTarget,
      RV.BlockLink, RV.BlockTarget, RV.IsRet;
  }
}
