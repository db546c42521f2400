/** What the guest program sees: 32 integer registers and memory. */
module Guest {
  import opened Words
  import opened Memory

  type RegNum = r: nat | r < 32

  type RegFile = x: seq<Word> | |x| == 32 witness seq(32, i => 0)

  datatype GuestState = GuestState(x: RegFile, mem: Mem)

  // The guest addresses backed by shadow memory
  datatype Region = Region(base: int, size: nat)

  predicate InRegion(g: Region, a: int, n: nat) { g.base <= a && a + n <= g.base + g.size }

  function Get(s: GuestState, r: RegNum): Word
  {
    if r == 0 then 0 else s.x[r]
  }

  function Set(s: GuestState, r: RegNum, v: Word): GuestState
  {
    if r == 0 then s else s.(x := s.x[r := v])
  }
}
