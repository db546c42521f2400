/** Where the guest lives in host memory: the registers in GuestState, guest memory in a
    shadow mapping at a constant distance. */
module HostLayout {
  import opened Words
  import opened Memory
  import opened Guest

  // Field offsets of GuestState: x[32], pc, shadowMemory, shadowMemorySize, guestMemoryBase
  const REGISTER_SIZE_BYTES: int := 8
  const PC_OFFSET: int := 256
  const SHADOW_OFFSET: int := 264
  const BASE_OFFSET: int := 280
  const STATE_SIZE: int := 288

  datatype Layout = Layout(state: int, shadow: int, region: Region)

  // GuestState and the shadow mapping are disjoint, and nothing wraps
  ghost predicate Valid(l: Layout) {
    && 0 <= l.state && l.state + STATE_SIZE <= TWO64
    && 0 <= l.shadow && l.shadow + l.region.size <= TWO64
    && 0 <= l.region.base && l.region.base + l.region.size <= TWO64
    && l.shadow < TWO64 && l.region.base < TWO64
    && (l.state + STATE_SIZE <= l.shadow || l.shadow + l.region.size <= l.state)
  }

  function Slot(l: Layout, r: int): int { l.state + REGISTER_SIZE_BYTES * r }

  function HostOf(l: Layout, a: int): int { a - l.region.base + l.shadow }

  ghost predicate HoldsRegisters(l: Layout, h: Mem, x: RegFile) {
    forall r: RegNum :: Load(h, Slot(l, r), 8) == x[r]
  }

  ghost predicate HoldsBases(l: Layout, h: Mem) {
    Load(h, l.state + SHADOW_OFFSET, 8) == l.shadow && Load(h, l.state + BASE_OFFSET, 8) == l.region.base
  }

  ghost predicate HoldsMemory(l: Layout, h: Mem, m: Mem) {
    forall a {:trigger At(m, a)} :: InRegion(l.region, a, 1) ==> At(m, a) == At(h, HostOf(l, a))
  }

  // Host memory h holds guest registers x and guest memory m
  ghost predicate Represents(l: Layout, h: Mem, x: RegFile, m: Mem) {
    HoldsRegisters(l, h, x) && HoldsBases(l, h) && HoldsMemory(l, h, m)
  }

  // Nothing outside the guest registers and the shadow mapping has changed
  ghost predicate Confined(l: Layout, h0: Mem, h: Mem) {
    forall a {:trigger At(h, a)} ::
      !(l.state <= a < l.state + PC_OFFSET) && !(l.shadow <= a < l.shadow + l.region.size) ==> At(h, a) == At(h0, a)
  }

  // A store inside the area a block may write
  ghost predicate Writable(l: Layout, a: int, n: nat) {
    (l.state <= a && a + n <= l.state + PC_OFFSET) || (l.shadow <= a && a + n <= l.shadow + l.region.size)
  }

  lemma StoreConfined(l: Layout, h0: Mem, h: Mem, a: int, n: nat, v: nat)
    requires Confined(l, h0, h) && Writable(l, a, n)
    ensures Confined(l, h0, Store(h, a, n, v))
  {
    var h' := Store(h, a, n, v);
    forall b | !(l.state <= b < l.state + PC_OFFSET) && !(l.shadow <= b < l.shadow + l.region.size)
      ensures At(h', b) == At(h0, b)
    {
      StoreAt(h, a, n, v, b);
      hide Store, At;
    }
  }

  lemma BasesBesideStore(l: Layout, h: Mem, a: int, n: nat, v: nat)
    requires Valid(l) && Writable(l, a, n) && HoldsBases(l, h)
    ensures HoldsBases(l, Store(h, a, n, v))
  {
    hide Store, Load, At;
    LoadBesideStore(h, a, n, v, l.state + SHADOW_OFFSET, 8);
    LoadBesideStore(h, a, n, v, l.state + BASE_OFFSET, 8);
  }

  lemma SlotAfterWrite(l: Layout, h: Mem, r: RegNum, v: Word, q: RegNum)
    ensures Load(Store(h, Slot(l, r), 8, v), Slot(l, q), 8) == if q == r then v else Load(h, Slot(l, q), 8)
  {
    WordBytes();
    hide Store, Load, At, Pow256;
    if q == r {
      LoadOfStore(h, Slot(l, r), 8, v);
    } else {
      LoadBesideStore(h, Slot(l, r), 8, v, Slot(l, q), 8);
    }
  }

  lemma WriteRegister(l: Layout, h: Mem, x: RegFile, m: Mem, r: RegNum, v: Word)
    requires Valid(l) && Represents(l, h, x, m)
    ensures Represents(l, Store(h, Slot(l, r), 8, v), x[r := v], m)
  {
    var h' := Store(h, Slot(l, r), 8, v);
    BasesBesideStore(l, h, Slot(l, r), 8, v);
    assert HoldsRegisters(l, h', x[r := v]) by {
      forall q: RegNum ensures Load(h', Slot(l, q), 8) == x[r := v][q] {
        SlotAfterWrite(l, h, r, v, q);
      }
    }
    assert HoldsMemory(l, h', m) by {
      forall a | InRegion(l.region, a, 1) ensures At(m, a) == At(h', HostOf(l, a)) {
        StoreAt(h, Slot(l, r), 8, v, HostOf(l, a));
      }
    }
    hide Store, Load, At, Slot, HostOf, Pow256, HoldsRegisters, HoldsMemory, HoldsBases;
  }

  lemma RegistersBesideStore(l: Layout, h: Mem, x: RegFile, a: int, n: nat, v: nat)
    requires HoldsRegisters(l, h, x) && (a + n <= l.state || l.state + PC_OFFSET <= a)
    ensures HoldsRegisters(l, Store(h, a, n, v), x)
  {
    hide Store, Load, At;
    forall r: RegNum ensures Load(Store(h, a, n, v), Slot(l, r), 8) == x[r] {
      LoadBesideStore(h, a, n, v, Slot(l, r), 8);
    }
  }

  lemma MemoryAfterStore(l: Layout, h: Mem, m: Mem, a: int, n: nat, v: nat)
    requires HoldsMemory(l, h, m)
    ensures HoldsMemory(l, Store(h, HostOf(l, a), n, v), Store(m, a, n, v))
  {
    hide Store, At, ByteOf;
    forall b | InRegion(l.region, b, 1)
      ensures At(Store(m, a, n, v), b) == At(Store(h, HostOf(l, a), n, v), HostOf(l, b))
    {
      StoreAt(m, a, n, v, b);
      StoreAt(h, HostOf(l, a), n, v, HostOf(l, b));
    }
  }

  lemma WriteShadow(l: Layout, h: Mem, x: RegFile, m: Mem, a: int, n: nat, v: nat)
    requires Valid(l) && Represents(l, h, x, m) && InRegion(l.region, a, n)
    ensures Represents(l, Store(h, HostOf(l, a), n, v), x, Store(m, a, n, v))
  {
    BasesBesideStore(l, h, HostOf(l, a), n, v);
    RegistersBesideStore(l, h, x, HostOf(l, a), n, v);
    MemoryAfterStore(l, h, m, a, n, v);
    hide HoldsRegisters, HoldsMemory, HoldsBases;
  }

  lemma ReadShadow(l: Layout, h: Mem, x: RegFile, m: Mem, a: int, n: nat)
    requires Represents(l, h, x, m) && InRegion(l.region, a, n)
    ensures Load(h, HostOf(l, a), n) == Load(m, a, n)
  {
    LoadAgrees(m, a, h, HostOf(l, a), n);
  }
}
