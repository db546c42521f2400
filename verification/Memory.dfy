/** Byte-addressed little-endian memory. An address never written reads as 0, as in a
    fresh anonymous mapping. */
module Memory {
  import opened Words

  type Mem = map<int, Byte>

  function At(m: Mem, a: int): Byte { if a in m then m[a] else 0 }

  // Byte k of v, counting from the least significant
  function ByteOf(v: nat, k: nat): Byte
    decreases k
  {
    if k == 0 then v % 256 else ByteOf(v / 256, k - 1)
  }

  function Pow256(n: nat): nat { if n == 0 then 1 else 256 * Pow256(n - 1) }

  lemma WordBytes()
    ensures Pow256(1) == 256 && Pow256(2) == 0x1_0000 && Pow256(4) == TWO32 && Pow256(8) == TWO64
  {
  }

  // The n bytes from a, least significant first
  function Load(m: Mem, a: int, n: nat): (r: nat)
    ensures r < Pow256(n)
    decreases n
  {
    if n == 0 then 0 else At(m, a) + 256 * Load(m, a + 1, n - 1)
  }

  function Load64(m: Mem, a: int): Word {
    assert Pow256(8) == TWO64;
    Load(m, a, 8)
  }

  // Writes the n low bytes of v at a
  function Store(m: Mem, a: int, n: nat, v: nat): Mem
    decreases n
  {
    if n == 0 then m else Store(m[a := v % 256], a + 1, n - 1, v / 256)
  }

  lemma {:induction false} StoreAt(m: Mem, a: int, n: nat, v: nat, b: int)
    ensures At(Store(m, a, n, v), b) == if a <= b < a + n then ByteOf(v, b - a) else At(m, b)
    decreases n
  {
    if n != 0 {
      StoreAt(m[a := v % 256], a + 1, n - 1, v / 256, b);
    }
  }

  // A load depends on nothing but the bytes it covers
  lemma {:induction false} LoadAgrees(m: Mem, a: int, m': Mem, a': int, n: nat)
    requires forall b {:trigger At(m, b)} :: a <= b < a + n ==> At(m, b) == At(m', b + (a' - a))
    ensures Load(m, a, n) == Load(m', a', n)
    decreases n
  {
    if n != 0 {
      LoadAgrees(m, a + 1, m', a' + 1, n - 1);
    }
  }

  lemma {:induction false} LoadBytesOf(m: Mem, a: int, n: nat, v: nat)
    requires v < Pow256(n)
    requires forall b {:trigger At(m, b)} :: a <= b < a + n ==> At(m, b) == ByteOf(v, b - a)
    ensures Load(m, a, n) == v
    decreases n
  {
    if n != 0 {
      LoadBytesOf(m, a + 1, n - 1, v / 256);
    }
  }

  // What was stored is loaded back
  lemma LoadOfStore(m: Mem, a: int, n: nat, v: nat)
    requires v < Pow256(n)
    ensures Load(Store(m, a, n, v), a, n) == v
  {
    var m' := Store(m, a, n, v);
    forall b | a <= b < a + n ensures At(m', b) == ByteOf(v, b - a) {
      StoreAt(m, a, n, v, b);
    }
    LoadBytesOf(m', a, n, v);
  }

  // A store leaves every disjoint load alone
  lemma LoadBesideStore(m: Mem, a: int, n: nat, v: nat, b: int, w: nat)
    requires b + w <= a || a + n <= b
    ensures Load(Store(m, a, n, v), b, w) == Load(m, b, w)
  {
    var m' := Store(m, a, n, v);
    forall c | b <= c < b + w ensures At(m', c) == At(m, c) {
      StoreAt(m, a, n, v, c);
    }
    LoadAgrees(m', b, m, b, w);
  }
}
