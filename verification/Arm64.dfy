/** ARM64 instructions over physical or virtual registers, and what they do. */
module Arm64 {
  import opened Options
  import opened Words
  import opened Memory

  // X0..X30 are 0..30, and 31 is XSP
  type Register = r: nat | r < 32

  type Imm16 = n: nat | n < 0x1_0000

  const GUEST_STATE: Register := 0
  const LINK: Register := 30

  datatype Opcode =
    | ADD | SUB | AND | ANDS | ORR | EOR | LSL | LSR | ASR
    | LDR | STR
    | CMP
    | CSEL | CSET
    | SXTB | SXTH | SXTW | UXTB | UXTH
    | MOV | MOVN | MOVZ | MOVK
    | RET

  datatype DataSize = B | H | W | X

  datatype Condition = EQ | NE | CS | CC | MI | PL | VS | VC | HI | LS | GE | LT | GT | LE | AL | NV

  datatype Operand = Phys(reg: Register) | VReg(v: nat) | Imm(value: Word)

  datatype Instruction =
    | ThreeOperand(op: Opcode, size: DataSize, dest: Operand, src1: Operand, src2: Operand)
    | TwoOperand(op: Opcode, size: DataSize, dest: Operand, src: Operand)
    | MemoryInst(op: Opcode, size: DataSize, reg: Operand, base: Operand, offset: int)
    | MoveWide(op: Opcode, size: DataSize, dest: Operand, imm16: Imm16, shift: nat)
    | Conditional(op: Opcode, size: DataSize, dest: Operand, cond: Condition)
    | ConditionalSelect(op: Opcode, size: DataSize, dest: Operand, src1: Operand, src2: Operand, cond: Condition)

  /* ---- State ---- */

  datatype Flags = Flags(n: bool, z: bool, c: bool, v: bool)

  // One store of values for all locations, physical and virtual
  datatype State = State(regs: map<Operand, Word>, flags: Flags, mem: Mem)

  function Read(s: State, o: Operand): Word {
    if o.Imm? then o.value else if o in s.regs then s.regs[o] else 0
  }

  function Write(s: State, o: Operand, v: Word): State { s.(regs := s.regs[o := v]) }

  /* ---- Arithmetic ---- */

  // A 32-bit operation zero-extends its result
  function Sized(size: DataSize, v: Word): Word { if size.X? then v else Low32(v) }

  function Signed32(x: Word): int { if Low32(x) < 0x8000_0000 then Low32(x) else Low32(x) - TWO32 }

  function Alu64(op: Opcode, a: Word, b: Word): Word {
    match op
    case ADD => Add(a, b)
    case SUB => Sub(a, b)
    case AND | ANDS => Bits64(BitAnd, a, b)
    case ORR => Bits64(BitOr, a, b)
    case EOR => Bits64(BitXor, a, b)
    case LSL => Shl64(a, b % 64)
    case LSR => Shr64(a, b % 64)
    case ASR => Sar64(a, b % 64)
    case _ => 0
  }

  function Alu32(op: Opcode, a: Word, b: Word): Word {
    match op
    case ADD => (Low32(a) + Low32(b)) % TWO32
    case SUB => (Low32(a) - Low32(b)) % TWO32
    case AND | ANDS => Low32(Bits64(BitAnd, a, b))
    case ORR => Low32(Bits64(BitOr, a, b))
    case EOR => Low32(Bits64(BitXor, a, b))
    case LSL => Shl32(a, b % 32)
    case LSR => Shr64(Low32(a), b % 32)
    case ASR => ShiftSigned(Signed32(a), b % 32) % TWO32
    case _ => 0
  }

  function Unary(op: Opcode, size: DataSize, a: Word): Word {
    match op
    case MOV => Sized(size, a)
    case MOVN => if size.X? then TWO64 - 1 - a else Low32(TWO64 - 1 - a)
    case SXTB => Sized(size, SignExtend8(a))
    case SXTH => Sized(size, SignExtend16(a))
    case SXTW => SignExtend32(a)
    case UXTB => a % 0x100
    case UXTH => a % 0x1_0000
    case _ => 0
  }

  // AddWithCarry(a, NOT(b), 1), section "shared/functions/integer/AddWithCarry" of the Arm ARM
  function SubFlags(a: Word, b: Word): Flags {
    var notB: Word := TWO64 - 1 - b;
    var unsignedSum := a + notB + 1;
    var signedSum := Signed(a) + Signed(notB) + 1;
    var result: Word := unsignedSum % TWO64;
    Flags(result >= 0x8000_0000_0000_0000, result == 0, result != unsignedSum, Signed(result) != signedSum)
  }

  function CompareFlags(size: DataSize, a: Word, b: Word): Flags {
    // 32-bit flags are those of the operands moved to the top half
    if size.X? then SubFlags(a, b) else SubFlags(Low32(a) * TWO32, Low32(b) * TWO32)
  }

  // The flags of a flag-setting logical instruction
  function LogicalFlags(size: DataSize, v: Word): Flags {
    Flags(v >= (if size.X? then 0x8000_0000_0000_0000 else 0x8000_0000), v == 0, false, false)
  }

  function Holds(cond: Condition, f: Flags): bool {
    match cond
    case EQ => f.z
    case NE => !f.z
    case CS => f.c
    case CC => !f.c
    case MI => f.n
    case PL => !f.n
    case VS => f.v
    case VC => !f.v
    case HI => f.c && !f.z
    case LS => !(f.c && !f.z)
    case GE => f.n == f.v
    case LT => f.n != f.v
    case GT => f.n == f.v && !f.z
    case LE => !(f.n == f.v && !f.z)
    case AL => true
    case NV => true
  }

  function Bytes(size: DataSize): nat {
    match size
    case B => 1
    case H => 2
    case W => 4
    case X => 8
  }

  function LoadSized(size: DataSize, m: Mem, a: int): Word {
    assert Pow256(1) == 256 && Pow256(2) == 0x1_0000 && Pow256(4) == TWO32 && Pow256(8) == TWO64;
    Load(m, a, Bytes(size))
  }

  // A 16-bit field at position 0, 16, 32 or 48
  function Field(imm16: Imm16, shift: nat): Word {
    if shift == 48 then imm16 * 0x1_0000_0000_0000
    else if shift == 32 then imm16 * TWO32
    else if shift == 16 then imm16 * 0x1_0000
    else imm16
  }

  // The 16 bits of v at position 0, 16, 32 or 48
  function Chunk(v: Word, shift: nat): Imm16 {
    if shift == 48 then v / 0x1_0000_0000_0000 % 0x1_0000
    else if shift == 32 then v / TWO32 % 0x1_0000
    else if shift == 16 then v / 0x1_0000 % 0x1_0000
    else v % 0x1_0000
  }

  function MoveWideValue(op: Opcode, size: DataSize, was: Word, imm16: Imm16, shift: nat): Word {
    if op.MOVZ? then Sized(size, Field(imm16, shift))
    else Sized(size, (was - Field(Chunk(was, shift), shift) + Field(imm16, shift)) % TWO64)
  }

  /* ---- Instructions ---- */

  // One instruction other than RET, which leaves the state alone
  function Step(i: Instruction, s: State): State
  {
    match i
    case ThreeOperand(op, size, d, a, b) =>
      var v := if size.X? then Alu64(op, Read(s, a), Read(s, b)) else Alu32(op, Read(s, a), Read(s, b));
      var t := Write(s, d, v);
      if op.ANDS? then t.(flags := LogicalFlags(size, v)) else t
    case TwoOperand(op, size, d, a) =>
      if op.RET? then s
      else if op.CMP? then s.(flags := CompareFlags(size, Read(s, d), Read(s, a)))
      else Write(s, d, Unary(op, size, Read(s, a)))
    case MemoryInst(op, size, r, b, off) =>
      var a := Offset(Read(s, b), off);
      if op.LDR? then Write(s, r, LoadSized(size, s.mem, a))
      else s.(mem := Store(s.mem, a, Bytes(size), Read(s, r)))
    case MoveWide(op, size, d, imm16, shift) =>
      Write(s, d, MoveWideValue(op, size, Read(s, d), imm16, shift))
    case Conditional(_, _, d, cond) => Write(s, d, Flag(Holds(cond, s.flags)))
    case ConditionalSelect(_, size, d, a, b, cond) =>
      Write(s, d, Sized(size, if Holds(cond, s.flags) then Read(s, a) else Read(s, b)))
  }

  predicate IsReturn(i: Instruction) { i.TwoOperand? && i.op.RET? }

  function Exec(code: seq<Instruction>, s: State): State
  {
    if code == [] then s else Step(code[|code| - 1], Exec(code[..|code| - 1], s))
  }

  // A call of the code: the state at its first RET, None if it runs past its end
  function Call(code: seq<Instruction>, s: State): Option<State>
    decreases |code|
  {
    if code == [] then None
    else if IsReturn(code[0]) then Some(s)
    else Call(code[1..], Step(code[0], s))
  }

  lemma ExecSnoc(code: seq<Instruction>, i: Instruction, s: State)
    ensures Exec(code + [i], s) == Step(i, Exec(code, s))
  {
    assert (code + [i])[..|code|] == code;
  }

  lemma {:induction false} ExecAppend(a: seq<Instruction>, b: seq<Instruction>, s: State)
    ensures Exec(a + b, s) == Exec(b, Exec(a, s))
    decreases |b|
  {
    if b == [] {
      assert a + b == a;
    } else {
      var n := |b| - 1;
      ExecAppend(a, b[..n], s);
      ExecSnoc(a + b[..n], b[n], s);
      assert a + b == (a + b[..n]) + [b[n]];
    }
  }

  // Code whose only RET is its last instruction runs to that RET
  lemma {:induction false} CallRunsBody(body: seq<Instruction>, ret: Instruction, s: State)
    requires IsReturn(ret)
    requires forall k :: 0 <= k < |body| ==> !IsReturn(body[k])
    ensures Call(body + [ret], s) == Some(Exec(body, s))
    decreases |body|
  {
    if body != [] {
      var rest := body[1..];
      assert (body + [ret])[1..] == rest + [ret];
      CallRunsBody(rest, ret, Step(body[0], s));
      ExecAppend([body[0]], rest, s);
      assert [body[0]] + rest == body;
      assert Exec([body[0]], s) == Step(body[0], Exec([], s));
    }
  }
}
