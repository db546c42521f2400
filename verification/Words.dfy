/** Machine words: unsigned integers below 2^64, with the wrap-around, the sign and the
    bitwise operations that RISC-V, the IR and ARM64 all share. */
module Words {
  const TWO64: int := 0x1_0000_0000_0000_0000
  const TWO32: int := 0x1_0000_0000

  type Byte = b: int | 0 <= b < 256
  type Word = x: int | 0 <= x < TWO64

  function Add(x: Word, y: Word): Word { (x + y) % TWO64 }

  function Sub(x: Word, y: Word): Word { (x - y) % TWO64 }

  // static_cast<uint64_t> of an int64_t (or of any wider integer)
  function ToWord(v: int): Word { v % TWO64 }

  // base + offset, as an address
  function Offset(base: Word, offset: int): Word { (base + offset) % TWO64 }

  lemma OffsetInRange(base: Word, offset: int)
    requires 0 <= base + offset < TWO64
    ensures Offset(base, offset) == base + offset
  {
  }

  function Low32(x: Word): Word { x % TWO32 }

  function Signed(x: Word): int { if x < 0x8000_0000_0000_0000 then x else x - TWO64 }

  function Flag(b: bool): Word { if b then 1 else 0 }

  // The low 8, 16 or 32 bits of x, read as a two's complement number and widened to 64 bits
  function SignExtend8(x: Word): Word {
    var b := x % 0x100;
    if b < 0x80 then b else b + (TWO64 - 0x100)
  }

  function SignExtend16(x: Word): Word {
    var h := x % 0x1_0000;
    if h < 0x8000 then h else h + (TWO64 - 0x1_0000)
  }

  function SignExtend32(x: Word): Word {
    var w := x % TWO32;
    if w < 0x8000_0000 then w else w + (TWO64 - TWO32)
  }

  function Pow2(n: nat): (r: int)
    ensures r > 0
  {
    if n == 0 then 1 else 2 * Pow2(n - 1)
  }

  // Shifts, one place at a time; the amount is already reduced modulo the operand width
  function ShiftLeft(x: nat, s: nat, modulus: nat): (r: nat)
    requires x < modulus
    ensures r < modulus
    decreases s
  {
    if s == 0 then x else ShiftLeft(2 * x % modulus, s - 1, modulus)
  }

  function Shl64(x: Word, s: nat): Word { ShiftLeft(x, s, TWO64) }

  function Shl32(x: Word, s: nat): Word { ShiftLeft(Low32(x), s, TWO32) }

  function Shr64(x: Word, s: nat): Word
    decreases s
  {
    if s == 0 then x else Shr64(x / 2, s - 1)
  }

  // An arithmetic shift rounds towards minus infinity
  function ShiftSigned(v: int, s: nat): int
    decreases s
  {
    if s == 0 then v else ShiftSigned(v / 2, s - 1)
  }

  function Sar64(x: Word, s: nat): Word { ShiftSigned(Signed(x), s) % TWO64 }

  datatype BitOp = BitAnd | BitOr | BitXor

  function BitOf(op: BitOp, p: int, q: int): (r: int)
    ensures 0 <= r <= 1
  {
    match op
    case BitAnd => if p == 1 && q == 1 then 1 else 0
    case BitOr => if p == 1 || q == 1 then 1 else 0
    case BitXor => if p != q then 1 else 0
  }

  // Bit by bit over the n low bits
  function Bitwise(op: BitOp, x: nat, y: nat, n: nat): (r: nat)
    ensures r < Pow2(n)
    decreases n
  {
    if n == 0 then 0
    else BitOf(op, x % 2, y % 2) + 2 * Bitwise(op, x / 2, y / 2, n - 1)
  }

  lemma Pow2Sum(a: nat, b: nat)
    ensures Pow2(a + b) == Pow2(a) * Pow2(b)
    decreases a
  {
    if a != 0 { Pow2Sum(a - 1, b); }
  }

  lemma Pow2At64()
    ensures Pow2(16) == 0x1_0000
    ensures Pow2(32) == TWO32
    ensures Pow2(48) == 0x1_0000_0000_0000
    ensures Pow2(64) == TWO64
  {
    assert Pow2(8) == 256;
    Pow2Sum(8, 8);
    Pow2Sum(16, 16);
    Pow2Sum(16, 32);
    Pow2Sum(32, 32);
  }

  function Bits64(op: BitOp, x: Word, y: Word): Word {
    Pow2At64();
    Bitwise(op, x, y, 64)
  }

  // x with its lowest bit cleared
  function Even(x: Word): Word { x - x % 2 }

  // ANDing with ~1 clears the lowest bit and nothing else
  lemma ClearLowestBit(x: Word)
    ensures Bits64(BitAnd, x, TWO64 - 2) == Even(x)
  {
    Pow2At64();
    AndWithEvens(x, 64);
    hide Bitwise, Pow2;
  }

  lemma AndWithEvens(x: nat, n: nat)
    requires 0 < n && x < Pow2(n)
    ensures Bitwise(BitAnd, x, Pow2(n) - 2, n) == x - x % 2
  {
    AndWithOnes(x / 2, n - 1);
    assert (Pow2(n) - 2) / 2 == Pow2(n - 1) - 1;
  }

  lemma {:induction false} AndWithOnes(x: nat, n: nat)
    requires x < Pow2(n)
    ensures Bitwise(BitAnd, x, Pow2(n) - 1, n) == x
    decreases n
  {
    if n != 0 {
      assert (Pow2(n) - 1) / 2 == Pow2(n - 1) - 1;
      AndWithOnes(x / 2, n - 1);
    }
  }

  lemma {:induction false} AndIsXorBelow(x: nat, y: nat, n: nat)
    requires x < Pow2(n) && y < Pow2(n)
    ensures Bitwise(BitAnd, x, y, n) == Bitwise(BitXor, x, y, n) <==> x == 0 && y == 0
    decreases n
  {
    if n != 0 { AndIsXorBelow(x / 2, y / 2, n - 1); }
  }

  // AND is XOR on two zeros only
  lemma AndIsXorIff(x: Word, y: Word)
    ensures Bits64(BitAnd, x, y) == Bits64(BitXor, x, y) <==> x == 0 && y == 0
  {
    Pow2At64();
    AndIsXorBelow(x, y, 64);
    hide Bitwise, Pow2;
  }
}
