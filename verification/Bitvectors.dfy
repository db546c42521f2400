/** Bit-vectors and the numbers they stand for. */
module Bitvectors {
  lemma DoubleEven(b: bv32)
    requires b < 0x8000_0000
    ensures (b << 1) as int == 2 * (b as int)
  {
  }

  lemma DoubleOdd(b: bv32)
    requires b < 0x8000_0000
    ensures ((b << 1) | 1) as int == 2 * (b as int) + 1
  {
  }

  lemma Halves(b: bv32)
    ensures b >> 1 < 0x8000_0000 && b == if b & 1 == 0 then (b >> 1) << 1 else ((b >> 1) << 1) | 1
  {
  }

  lemma Doubled(b: bv32, h: bv32, odd: bool)
    requires h < 0x8000_0000 && b == if odd then (h << 1) | 1 else h << 1
    ensures b as int == 2 * (h as int) + if odd then 1 else 0
  {
    if odd { DoubleOdd(h); } else { DoubleEven(h); }
  }

  lemma Number(b: bv32)
    ensures b as int == 2 * ((b >> 1) as int) + if b & 1 == 0 then 0 else 1
  {
    Halves(b);
    Doubled(b, b >> 1, b & 1 != 0);
  }

  lemma TwiceBelow(b: bv32, n: int)
    requires (b >> 1) as int < n
    ensures b as int < 2 * n
  {
    Number(b);
  }

  function Half(b: bv32): bv32 { b >> 1 }

  lemma EightHalves(b: bv32)
    requires b < 0x10_0000
    ensures Half(Half(Half(Half(Half(Half(Half(Half(b)))))))) < 0x1000
  {
  }

  lemma Below12(b: bv32)
    requires b < 0x1000
    ensures b as int < 0x1000
  {
  }

  lemma HalfBelow(b: bv32, n: int)
    requires Half(b) as int < n
    ensures b as int < 2 * n
  {
    TwiceBelow(b, n);
  }

  lemma Below20(b: bv32)
    requires b < 0x10_0000
    ensures b as int < 0x10_0000
  {
    EightHalves(b);
    hide Half;
    var (h1, h2) := (Half(b), Half(Half(b)));
    var (h3, h4) := (Half(h2), Half(Half(h2)));
    var (h5, h6) := (Half(h4), Half(Half(h4)));
    var (h7, h8) := (Half(h6), Half(Half(h6)));
    Below12(h8);
    HalfBelow(h7, 0x1000);
    HalfBelow(h6, 0x2000);
    HalfBelow(h5, 0x4000);
    HalfBelow(h4, 0x8000);
    HalfBelow(h3, 0x1_0000);
    HalfBelow(h2, 0x2_0000);
    HalfBelow(h1, 0x4_0000);
    HalfBelow(b, 0x8_0000);
  }

  lemma AtLeastMinus20(b: bv32)
    requires b >= 0xFFF0_0000
    ensures 0xFFF0_0000 <= b as int < 0x1_0000_0000
  {
  }
}
