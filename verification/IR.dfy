/** The block-local SSA intermediate representation and its meaning. The binary opcodes are
    those the lifter emits together with the remaining comparisons. */
module IR {
  import opened Options
  import opened Words
  import opened Memory
  import opened Guest

  datatype Type = I1 | I8 | I16 | I32 | I64

  type ValueId = nat

  datatype BinaryOpcode =
    | Plus | Minus
    | And | Or | Xor | Shl | Shr | Sar
    | Eq | Ne | Lt | Le | Gt | Ge | LtU | LeU | GtU | GeU

  datatype InstructionKind =
    | Const(ty: Type, value: int)
    | BinaryOp(op: BinaryOpcode, ty: Type, lhs: ValueId, rhs: ValueId)
    | Sext(toType: Type, operand: ValueId)
    | Zext(toType: Type, operand: ValueId)
    | Trunc(toType: Type, operand: ValueId)
    | LoadFrom(ty: Type, addr: ValueId)
    | StoreTo(val: ValueId, addr: ValueId)
    | RegRead(reg: nat)
    | RegWrite(reg: nat, val: ValueId)

  datatype Inst = Inst(id: ValueId, kind: InstructionKind)

  datatype Terminator =
    | Branch(target: Word)
    | CondBranch(cond: ValueId, trueTarget: Word, falseTarget: Word)
    | Return(result: Option<ValueId>)

  datatype Block = Block(insts: seq<Inst>, terminator: Terminator)

  predicate IsComparison(op: BinaryOpcode) {
    op.Eq? || op.Ne? || op.Lt? || op.Le? || op.Gt? || op.Ge? || op.LtU? || op.LeU? || op.GtU? || op.GeU?
  }

  predicate DefinesValue(k: InstructionKind) { !k.StoreTo? && !k.RegWrite? }

  function Width(ty: Type): nat {
    match ty
    case I1 | I8 => 1
    case I16 => 2
    case I32 => 4
    case I64 => 8
  }

  /* ---- Typing ---- */

  // The 32-bit operations the IR has a meaning for
  predicate Has32(op: BinaryOpcode) { op.Plus? || op.Minus? || op.Shl? }

  // Constants whose two's complement bits fit the type as the selector synthesises it
  predicate ConstInRange(ty: Type, v: int) {
    match ty
    case I64 => -0x8000_0000_0000_0000 <= v < 0x8000_0000_0000_0000
    case I32 => -0x1_0000 <= v < TWO32
    case _ => false
  }

  type TypeEnv = map<ValueId, Type>

  predicate Is(types: TypeEnv, id: ValueId, ty: Type) { id in types && types[id] == ty }

  function TypeOf(k: InstructionKind): Type
    requires DefinesValue(k)
  {
    match k
    case Const(ty, _) => ty
    case BinaryOp(_, ty, _, _) => ty
    case Sext(to, _) => to
    case Zext(to, _) => to
    case Trunc(to, _) => to
    case LoadFrom(ty, _) => ty
    case RegRead(_) => I64
  }

  // The instructions the IR gives a meaning to, over operands of these types
  predicate Typed(types: TypeEnv, k: InstructionKind) {
    match k
    case Const(ty, v) => ConstInRange(ty, v)
    case BinaryOp(op, ty, l, r) =>
      if IsComparison(op) then Is(types, l, I64) && Is(types, r, I64)
      else Is(types, l, ty) && Is(types, r, ty) && (ty.I64? || (ty.I32? && Has32(op)))
    case Sext(to, v) => to.I64? && (Is(types, v, I8) || Is(types, v, I16) || Is(types, v, I32))
    case Zext(to, v) => to.I64? && Is(types, v, I32)
    case Trunc(to, v) => to.I32? && Is(types, v, I64)
    case LoadFrom(ty, addr) => !ty.I1? && Is(types, addr, I64)
    case StoreTo(val, addr) => val in types && !types[val].I1? && Is(types, addr, I64)
    case RegRead(r) => 0 < r < 32
    case RegWrite(r, val) => 0 < r < 32 && Is(types, val, I64)
  }

  function Declare(types: TypeEnv, i: Inst): TypeEnv {
    if DefinesValue(i.kind) then types[i.id := TypeOf(i.kind)] else types
  }

  function Types(insts: seq<Inst>): TypeEnv {
    if insts == [] then map[]
    else Declare(Types(insts[..|insts| - 1]), insts[|insts| - 1])
  }

  predicate WellTyped(insts: seq<Inst>) {
    insts == [] ||
    (WellTyped(insts[..|insts| - 1]) && Typed(Types(insts[..|insts| - 1]), insts[|insts| - 1].kind))
  }

  predicate TypedTerminator(types: TypeEnv, t: Terminator) {
    match t
    case Branch(_) => true
    case CondBranch(c, _, _) => c in types
    case Return(None) => true
    case Return(Some(id)) => Is(types, id, I64)
  }

  // Single assignment, in the order the lifter numbers values
  predicate Ordered(insts: seq<Inst>) {
    forall j, k :: 0 <= j < k < |insts| ==> insts[j].id < insts[k].id
  }

  lemma Snoc(insts: seq<Inst>, i: Inst)
    ensures Types(insts + [i]) == Declare(Types(insts), i)
    ensures WellTyped(insts + [i]) <==> WellTyped(insts) && Typed(Types(insts), i.kind)
  {
    assert (insts + [i])[..|insts|] == insts;
  }

  /* ---- Meaning ---- */

  // A typed value, as an unsigned number of its type's width
  datatype Value = Value(ty: Type, bits: Word)

  datatype State = State(x: RegFile, mem: Mem, env: map<ValueId, Value>)

  ghost predicate AreTypes(types: TypeEnv, env: map<ValueId, Value>) {
    types.Keys == env.Keys && forall id :: id in types ==> types[id] == env[id].ty
  }

  lemma {:induction false} TypesExist(env: map<ValueId, Value>)
    ensures exists types: TypeEnv :: AreTypes(types, env)
    decreases |env|
  {
    if env == map[] {
      assert AreTypes(map[], env);
    } else {
      var id :| id in env;
      var rest := env - {id};
      assert env == rest[id := env[id]];
      TypesExist(rest);
      var types: TypeEnv :| AreTypes(types, rest);
      assert AreTypes(types[id := env[id].ty], env);
    }
  }

  ghost function TypesIn(env: map<ValueId, Value>): (types: TypeEnv)
    ensures AreTypes(types, env)
  {
    TypesExist(env);
    var types: TypeEnv :| AreTypes(types, env);
    types
  }

  // The types of the values defined so far
  ghost function EnvTypes(s: State): (types: TypeEnv)
    ensures AreTypes(types, s.env)
  {
    TypesIn(s.env)
  }

  function Compare(op: BinaryOpcode, a: Word, b: Word): bool
    requires IsComparison(op)
  {
    match op
    case Eq => a == b
    case Ne => a != b
    case Lt => Signed(a) < Signed(b)
    case Le => Signed(a) <= Signed(b)
    case Gt => Signed(a) > Signed(b)
    case Ge => Signed(a) >= Signed(b)
    case LtU => a < b
    case LeU => a <= b
    case GtU => a > b
    case GeU => a >= b
  }

  function Binary64(op: BinaryOpcode, a: Word, b: Word): Word
    requires !IsComparison(op)
  {
    match op
    case Plus => Add(a, b)
    case Minus => Sub(a, b)
    case And => Bits64(BitAnd, a, b)
    case Or => Bits64(BitOr, a, b)
    case Xor => Bits64(BitXor, a, b)
    case Shl => Shl64(a, b % 64)
    case Shr => Shr64(a, b % 64)
    case Sar => Sar64(a, b % 64)
  }

  function Binary32(op: BinaryOpcode, a: Word, b: Word): Word
    requires Has32(op)
  {
    match op
    case Plus => (a + b) % TWO32
    case Minus => (a - b) % TWO32
    case Shl => Shl32(a, b % 32)
  }

  function ConstBits(ty: Type, v: int): Word
    requires ConstInRange(ty, v)
  {
    if ty.I64? then v % TWO64 else v % TWO32
  }

  function ReadTyped(ty: Type, m: Mem, a: int): Word {
    assert Pow256(1) == 256 && Pow256(2) == 0x1_0000 && Pow256(4) == TWO32 && Pow256(8) == TWO64;
    Load(m, a, Width(ty))
  }

  function Extend(from: Type, v: Word): Word {
    match from
    case I8 => SignExtend8(v)
    case I16 => SignExtend16(v)
    case _ => SignExtend32(v)
  }

  // The bits of the value an instruction defines
  function Evaluate(k: InstructionKind, s: State): Word
    requires DefinesValue(k) && Typed(EnvTypes(s), k)
  {
    match k
    case Const(ty, v) => ConstBits(ty, v)
    case BinaryOp(op, ty, l, r) =>
      var a, b := s.env[l].bits, s.env[r].bits;
      if IsComparison(op) then Flag(Compare(op, a, b))
      else if ty.I64? then Binary64(op, a, b)
      else Binary32(op, a, b)
    case Sext(_, v) => Extend(s.env[v].ty, s.env[v].bits)
    case Zext(_, v) => s.env[v].bits
    case Trunc(_, v) => Low32(s.env[v].bits)
    case LoadFrom(ty, addr) => ReadTyped(ty, s.mem, s.env[addr].bits)
    case RegRead(r) => s.x[r]
  }

  // A memory access stays in the region
  predicate Accessible(g: Region, k: InstructionKind, s: State)
    requires Typed(EnvTypes(s), k)
  {
    match k
    case LoadFrom(ty, addr) => InRegion(g, s.env[addr].bits, Width(ty))
    case StoreTo(val, addr) => InRegion(g, s.env[addr].bits, Width(s.env[val].ty))
    case _ => true
  }

  function Execute(i: Inst, s: State): State
    requires Typed(EnvTypes(s), i.kind)
  {
    match i.kind
    case StoreTo(val, addr) =>
      s.(mem := Store(s.mem, s.env[addr].bits, Width(s.env[val].ty), s.env[val].bits))
    case RegWrite(r, val) => s.(x := s.x[r := s.env[val].bits])
    case _ => s.(env := s.env[i.id := Value(TypeOf(i.kind), Evaluate(i.kind, s))])
  }

  // None when the instruction is ill-typed or leaves the region
  ghost function Step(g: Region, i: Inst, s: State): Option<State> {
    if Typed(EnvTypes(s), i.kind) && Accessible(g, i.kind, s) then Some(Execute(i, s)) else None
  }

  ghost function Exec(g: Region, insts: seq<Inst>, s: State): Option<State> {
    if insts == [] then Some(s)
    else
      var n := |insts| - 1;
      var t :- Exec(g, insts[..n], s);
      Step(g, insts[n], t)
  }

  // The guest address of the next block, 0 to stop
  function NextPc(t: Terminator, s: State): Word
    requires TypedTerminator(EnvTypes(s), t)
  {
    match t
    case Branch(target) => target
    case CondBranch(c, yes, no) => if s.env[c].bits != 0 then yes else no
    case Return(None) => 0
    case Return(Some(id)) => s.env[id].bits
  }

  // A block starts with no value defined
  function Enter(s: GuestState): State { State(s.x, s.mem, map[]) }

  ghost function RunBlock(g: Region, b: Block, s: GuestState): Option<(GuestState, Word)> {
    var t :- Exec(g, b.insts, Enter(s));
    if TypedTerminator(EnvTypes(t), b.terminator)
    then Some((GuestState(t.x, t.mem), NextPc(b.terminator, t)))
    else None
  }

  lemma ExecSnoc(g: Region, insts: seq<Inst>, i: Inst, s: State)
    ensures Exec(g, insts + [i], s) ==
            if Exec(g, insts, s).None? then None else Step(g, i, Exec(g, insts, s).value)
  {
    assert (insts + [i])[..|insts|] == insts;
  }

  // Typing is sound: a run's values have the static types
  lemma {:induction false} RunTypes(g: Region, insts: seq<Inst>, s: GuestState)
    requires Exec(g, insts, Enter(s)).Some?
    ensures EnvTypes(Exec(g, insts, Enter(s)).value) == Types(insts)
  {
    if insts != [] {
      RunTypes(g, insts[..|insts| - 1], s);
    }
  }

  // A value is an unsigned number of its type's width
  predicate Fits(v: Value) {
    match v.ty
    case I1 => v.bits <= 1
    case I8 => v.bits < 0x100
    case I16 => v.bits < 0x1_0000
    case I32 => v.bits < TWO32
    case I64 => true
  }
}
