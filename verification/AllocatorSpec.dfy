/** Linear-scan allocation over X1..X28, as functions on intervals: what is assigned, when
    it fails, and which intervals can share a register. */
module AllocatorSpec {
  import opened Options
  import opened Arm64
  import opened LivenessSpec

  const FIRST: nat := 1
  const LAST: nat := 28

  datatype Active = Active(iv: LiveInterval, reg: Register)

  type Allocation = map<nat, Register>

  // Keeps the intervals that have not ended before the point
  function Expire(active: seq<Active>, point: nat): seq<Active> {
    if active == [] then []
    else
      var n := |active| - 1;
      var rest := Expire(active[..n], point);
      if active[n].iv.end < point then rest else rest + [active[n]]
  }

  predicate InUse(active: seq<Active>, r: Register) { exists k :: 0 <= k < |active| && active[k].reg == r }

  // The first available register from r up
  function FirstFree(active: seq<Active>, r: nat): Option<Register>
    decreases LAST + 1 - r
  {
    if r > LAST then None
    else if InUse(active, r) then FirstFree(active, r + 1)
    else Some(r)
  }

  // Assigns registers to the intervals in order; None when they run out
  function Scan(ivs: seq<LiveInterval>): Option<(Allocation, seq<Active>)> {
    if ivs == [] then Some((map[], []))
    else
      var iv := ivs[|ivs| - 1];
      var (alloc, active) :- Scan(ivs[..|ivs| - 1]);
      var kept := Expire(active, iv.start);
      var r :- FirstFree(kept, FIRST);
      Some((alloc[iv.vreg := r], kept + [Active(iv, r)]))
  }

  /* ---- Rewriting ---- */

  function RewriteOperand(alloc: Allocation, o: Operand): Operand {
    if o.VReg? && o.v in alloc then Phys(alloc[o.v]) else o
  }

  function Rewrite(alloc: Allocation, i: Instruction): Instruction {
    match i
    case ThreeOperand(op, size, d, a, b) =>
      ThreeOperand(op, size, RewriteOperand(alloc, d), RewriteOperand(alloc, a), RewriteOperand(alloc, b))
    case TwoOperand(op, size, d, a) => TwoOperand(op, size, RewriteOperand(alloc, d), RewriteOperand(alloc, a))
    case MemoryInst(op, size, r, b, off) =>
      MemoryInst(op, size, RewriteOperand(alloc, r), RewriteOperand(alloc, b), off)
    case MoveWide(op, size, d, imm16, shift) => MoveWide(op, size, RewriteOperand(alloc, d), imm16, shift)
    case Conditional(op, size, d, cond) => Conditional(op, size, RewriteOperand(alloc, d), cond)
    case ConditionalSelect(op, size, d, a, b, cond) =>
      ConditionalSelect(op, size, RewriteOperand(alloc, d), RewriteOperand(alloc, a), RewriteOperand(alloc, b), cond)
  }

  function RewriteAll(alloc: Allocation, code: seq<Instruction>): (r: seq<Instruction>)
    ensures |r| == |code| && forall k :: 0 <= k < |code| ==> r[k] == Rewrite(alloc, code[k])
  {
    if code == [] then []
    else RewriteAll(alloc, code[..|code| - 1]) + [Rewrite(alloc, code[|code| - 1])]
  }

  // The virtual registers among the operands that are rewritten
  function Mentioned(i: Instruction): set<nat> {
    match i
    case ThreeOperand(_, _, d, a, b) => VRegs(d) + VRegs(a) + VRegs(b)
    case TwoOperand(_, _, d, a) => VRegs(d) + VRegs(a)
    case MemoryInst(_, _, r, b, _) => VRegs(r) + VRegs(b)
    case MoveWide(_, _, d, _, _) => VRegs(d)
    case Conditional(_, _, d, _) => VRegs(d)
    case ConditionalSelect(_, _, d, a, b, _) => VRegs(d) + VRegs(a) + VRegs(b)
  }

  // Every virtual register of the instruction has a register; otherwise rewriting throws
  predicate Covered(alloc: Allocation, i: Instruction) { Mentioned(i) <= alloc.Keys }

  /* ---- The scan invariant ---- */

  // Starts in order, ends after starts, one interval per register
  ghost predicate Scannable(ivs: seq<LiveInterval>) {
    && (forall j, k :: 0 <= j < k < |ivs| ==> ivs[j].start <= ivs[k].start)
    && (forall j :: 0 <= j < |ivs| ==> ivs[j].start <= ivs[j].end)
    && (forall j, k :: 0 <= j < k < |ivs| ==> ivs[j].vreg != ivs[k].vreg)
  }

  ghost predicate Distinct(active: seq<Active>) {
    forall i, j :: 0 <= i < j < |active| ==> active[i].reg != active[j].reg
  }

  ghost predicate Assigned(ivs: seq<LiveInterval>, alloc: Allocation) {
    && (forall v :: v in alloc <==> exists k :: 0 <= k < |ivs| && ivs[k].vreg == v)
    && (forall v :: v in alloc ==> FIRST <= alloc[v] <= LAST)
  }

  ghost predicate OnlyReaching(ivs: seq<LiveInterval>, alloc: Allocation, active: seq<Active>, point: nat) {
    forall a :: a in active ==> a.iv in ivs && a.iv.end >= point && a.iv.vreg in alloc && alloc[a.iv.vreg] == a.reg
  }

  ghost predicate AllReaching(ivs: seq<LiveInterval>, alloc: Allocation, active: seq<Active>, point: nat) {
    forall k :: 0 <= k < |ivs| && ivs[k].end >= point ==>
      ivs[k].vreg in alloc && Active(ivs[k], alloc[ivs[k].vreg]) in active
  }

  // The active list is exactly the intervals not ended before the point
  ghost predicate ActiveAt(ivs: seq<LiveInterval>, alloc: Allocation, active: seq<Active>, point: nat) {
    OnlyReaching(ivs, alloc, active, point) && AllReaching(ivs, alloc, active, point) && Distinct(active)
  }

  // Intervals that overlap have different registers
  ghost predicate Separates(ivs: seq<LiveInterval>, alloc: Allocation) {
    forall j, k :: 0 <= j < k < |ivs| && Overlaps(ivs[j], ivs[k]) && ivs[j].vreg in alloc && ivs[k].vreg in alloc ==>
      alloc[ivs[j].vreg] != alloc[ivs[k].vreg]
  }

  lemma {:induction false} ExpireKeeps(active: seq<Active>, point: nat)
    ensures forall a :: a in Expire(active, point) <==> a in active && a.iv.end >= point
    ensures Distinct(active) ==> Distinct(Expire(active, point))
  {
    if active != [] {
      var n := |active| - 1;
      ExpireKeeps(active[..n], point);
      assert active == active[..n] + [active[n]];
      assert forall k :: 0 <= k < n ==> active[..n][k] in active[..n];
      if Distinct(active) {
        forall k | 0 <= k < |Expire(active[..n], point)| ensures Expire(active[..n], point)[k].reg != active[n].reg {
          var a := Expire(active[..n], point)[k];
          assert a in active[..n];
        }
      }
    }
  }

  lemma {:induction false} FirstFreeIsFirst(active: seq<Active>, r: nat)
    requires FIRST <= r <= LAST + 1
    ensures
      match FirstFree(active, r)
      case Some(q) => r <= q <= LAST && !InUse(active, q) && forall p: Register :: r <= p < q ==> InUse(active, p)
      case None => forall p: Register :: r <= p <= LAST ==> InUse(active, p)
    decreases LAST + 1 - r
  {
    if r <= LAST && InUse(active, r) {
      FirstFreeIsFirst(active, r + 1);
    }
  }

  ghost predicate ScanOk(ivs: seq<LiveInterval>, alloc: Allocation, active: seq<Active>) {
    && Assigned(ivs, alloc)
    && (ivs != [] ==> ActiveAt(ivs, alloc, active, ivs[|ivs| - 1].start))
    && (ivs == [] ==> active == [])
    && Separates(ivs, alloc)
  }

  // After expiring, exactly the processed intervals that reach the point remain
  lemma ExpireToPoint(ivs: seq<LiveInterval>, alloc: Allocation, active: seq<Active>, point: nat)
    requires Scannable(ivs) && ScanOk(ivs, alloc, active)
    requires ivs != [] ==> ivs[|ivs| - 1].start <= point
    ensures ActiveAt(ivs, alloc, Expire(active, point), point)
  {
    ExpireKeeps(active, point);
  }

  // Assigning a free register to the next interval
  lemma AssignNext(ivs: seq<LiveInterval>, alloc: Allocation, kept: seq<Active>, iv: LiveInterval, r: Register)
    requires Scannable(ivs + [iv]) && Assigned(ivs, alloc) && ActiveAt(ivs, alloc, kept, iv.start) &&
             Separates(ivs, alloc)
    requires FIRST <= r <= LAST && !InUse(kept, r)
    ensures ScanOk(ivs + [iv], alloc[iv.vreg := r], kept + [Active(iv, r)])
  {
    AssignedNext(ivs, alloc, iv, r);
    ActiveNext(ivs, alloc, kept, iv, r);
    SeparatesNext(ivs, alloc, kept, iv, r);
    hide Assigned, ActiveAt, Separates, Scannable;
    assert (ivs + [iv])[|ivs|] == iv;
  }

  lemma SeparatesNext(ivs: seq<LiveInterval>, alloc: Allocation, kept: seq<Active>, iv: LiveInterval, r: Register)
    requires Scannable(ivs + [iv]) && AllReaching(ivs, alloc, kept, iv.start) && Separates(ivs, alloc) &&
             !InUse(kept, r)
    ensures Separates(ivs + [iv], alloc[iv.vreg := r])
  {
    OtherRegisters(ivs, iv);
    hide Scannable;
    var all := ivs + [iv];
    assert all[|ivs|] == iv && forall k :: 0 <= k < |ivs| ==> all[k] == ivs[k];
    forall k | 0 <= k < |ivs| && Overlaps(ivs[k], iv) && ivs[k].vreg in alloc
      ensures alloc[ivs[k].vreg] != r
    {
      assert Active(ivs[k], alloc[ivs[k].vreg]) in kept;
    }
  }

  lemma AssignedNext(ivs: seq<LiveInterval>, alloc: Allocation, iv: LiveInterval, r: Register)
    requires Assigned(ivs, alloc) && FIRST <= r <= LAST
    ensures Assigned(ivs + [iv], alloc[iv.vreg := r])
  {
    var all := ivs + [iv];
    assert forall k :: 0 <= k < |ivs| ==> all[k] == ivs[k];
    assert all[|ivs|] == iv;
  }

  lemma ActiveNext(ivs: seq<LiveInterval>, alloc: Allocation, kept: seq<Active>, iv: LiveInterval, r: Register)
    requires Scannable(ivs + [iv]) && ActiveAt(ivs, alloc, kept, iv.start) && !InUse(kept, r)
    ensures ActiveAt(ivs + [iv], alloc[iv.vreg := r], kept + [Active(iv, r)], iv.start)
  {
    OnlyNext(ivs, alloc, kept, iv, r);
    AllNext(ivs, alloc, kept, iv, r);
    hide OnlyReaching, AllReaching, Scannable;
    forall i, j | 0 <= i < j < |kept + [Active(iv, r)]|
      ensures (kept + [Active(iv, r)])[i].reg != (kept + [Active(iv, r)])[j].reg
    {
      assert InUse(kept, r) || kept[i].reg != r;
    }
  }

  lemma OtherRegisters(ivs: seq<LiveInterval>, iv: LiveInterval)
    requires Scannable(ivs + [iv])
    ensures forall k :: 0 <= k < |ivs| ==> ivs[k].vreg != iv.vreg
    ensures iv.start <= iv.end
  {
    var all := ivs + [iv];
    assert all[|ivs|] == iv;
    assert forall k :: 0 <= k < |ivs| ==> all[k] == ivs[k];
  }

  lemma OnlyNext(ivs: seq<LiveInterval>, alloc: Allocation, kept: seq<Active>, iv: LiveInterval, r: Register)
    requires Scannable(ivs + [iv]) && OnlyReaching(ivs, alloc, kept, iv.start)
    ensures OnlyReaching(ivs + [iv], alloc[iv.vreg := r], kept + [Active(iv, r)], iv.start)
  {
    OtherRegisters(ivs, iv);
    hide Scannable;
    forall a | a in kept + [Active(iv, r)]
      ensures a.iv in ivs + [iv] && a.iv.end >= iv.start
      ensures a.iv.vreg in alloc[iv.vreg := r] && alloc[iv.vreg := r][a.iv.vreg] == a.reg
    {
      assert a in kept || a == Active(iv, r);
    }
  }

  lemma AllNext(ivs: seq<LiveInterval>, alloc: Allocation, kept: seq<Active>, iv: LiveInterval, r: Register)
    requires Scannable(ivs + [iv]) && AllReaching(ivs, alloc, kept, iv.start)
    ensures AllReaching(ivs + [iv], alloc[iv.vreg := r], kept + [Active(iv, r)], iv.start)
  {
    OtherRegisters(ivs, iv);
    hide Scannable;
    var all, alloc', active := ivs + [iv], alloc[iv.vreg := r], kept + [Active(iv, r)];
    forall k | 0 <= k < |all| && all[k].end >= iv.start
      ensures all[k].vreg in alloc' && Active(all[k], alloc'[all[k].vreg]) in active
    {
      if k < |ivs| {
        assert Active(ivs[k], alloc[ivs[k].vreg]) in kept;
      }
    }
  }

  /** The linear-scan invariant: the active list is exactly the processed intervals that reach
      the current start, in distinct registers; overlapping intervals never share; and only
      X1..X28 are assigned. */
  lemma {:induction false} ScanInvariant(ivs: seq<LiveInterval>)
    requires Scannable(ivs) && Scan(ivs).Some?
    ensures var (alloc, active) := Scan(ivs).value; ScanOk(ivs, alloc, active)
  {
    hide Scannable, Assigned, ActiveAt, Separates, Expire, FirstFree, InUse;
    if ivs == [] {
      NothingAssigned();
    } else {
      var n := |ivs| - 1;
      var before, iv := ivs[..n], ivs[n];
      assert ivs == before + [iv];
      PrefixScannable(ivs, n);
      ScanInvariant(before);
      var (alloc, active) := Scan(before).value;
      if n > 0 { LastStarts(ivs); }
      ExpireToPoint(before, alloc, active, iv.start);
      var kept := Expire(active, iv.start);
      FirstFreeIsFirst(kept, FIRST);
      AssignNext(before, alloc, kept, iv, FirstFree(kept, FIRST).value);
    }
  }

  lemma NothingAssigned()
    ensures Assigned([], map[]) && Separates([], map[])
  {
  }

  lemma LastStarts(ivs: seq<LiveInterval>)
    requires Scannable(ivs) && |ivs| > 1
    ensures ivs[|ivs| - 2].start <= ivs[|ivs| - 1].start
  {
  }

  /* ---- When allocation fails ---- */

  // The intervals that contain a program point
  function Covering(ivs: seq<LiveInterval>, p: nat): set<nat> {
    set k | 0 <= k < |ivs| && ivs[k].start <= p <= ivs[k].end
  }

  ghost predicate InRegister(ivs: seq<LiveInterval>, alloc: Allocation, k: nat, r: nat) {
    k < |ivs| && ivs[k].vreg in alloc && alloc[ivs[k].vreg] == r
  }

  // Intervals in different registers up to hi are at most hi
  lemma {:induction false} AtMost(ks: set<nat>, ivs: seq<LiveInterval>, alloc: Allocation, hi: nat)
    requires forall k :: k in ks ==> exists r :: 1 <= r <= hi && InRegister(ivs, alloc, k, r)
    requires forall j, k, r ::
               j in ks && k in ks && InRegister(ivs, alloc, j, r) && InRegister(ivs, alloc, k, r) ==> j == k
    ensures |ks| <= hi
    decreases hi
  {
    if hi == 0 {
      assert ks == {};
    } else if k :| k in ks && InRegister(ivs, alloc, k, hi) {
      AtMost(ks - {k}, ivs, alloc, hi - 1);
    } else {
      AtMost(ks, ivs, alloc, hi - 1);
    }
  }

  ghost predicate Filled(ks: set<nat>, ivs: seq<LiveInterval>, alloc: Allocation, r: nat) {
    exists k :: k in ks && InRegister(ivs, alloc, k, r)
  }

  // Intervals that fill every register up to hi are at least hi
  lemma {:induction false} AtLeast(ks: set<nat>, ivs: seq<LiveInterval>, alloc: Allocation, hi: nat)
    requires forall r :: 1 <= r <= hi ==> Filled(ks, ivs, alloc, r)
    ensures |ks| >= hi
    decreases hi
  {
    if hi != 0 {
      assert Filled(ks, ivs, alloc, hi);
      var k :| k in ks && InRegister(ivs, alloc, k, hi);
      forall r | 1 <= r <= hi - 1 ensures Filled(ks - {k}, ivs, alloc, r) {
        assert Filled(ks, ivs, alloc, r);
        var j :| j in ks && InRegister(ivs, alloc, j, r);
        assert j in ks - {k};
      }
      AtLeast(ks - {k}, ivs, alloc, hi - 1);
    }
  }

  // If all registers below r are in use when iv starts, r intervals contain that point
  lemma Crowded(ivs: seq<LiveInterval>, alloc: Allocation, kept: seq<Active>, iv: LiveInterval, r: nat)
    requires Scannable(ivs + [iv]) && OnlyReaching(ivs, alloc, kept, iv.start) && r >= 1
    requires forall p: Register :: FIRST <= p < r ==> InUse(kept, p)
    requires r <= LAST + 1
    ensures |Covering(ivs + [iv], iv.start)| >= r
  {
    hide Scannable, OnlyReaching, Covering, InRegister, InUse, Filled;
    var ks := Covering(ivs, iv.start);
    forall p | 1 <= p <= r - 1 ensures Filled(ks, ivs, alloc, p) {
      var p': Register := p;
      assert InUse(kept, p');
      FilledByActive(ivs, alloc, kept, iv, p');
    }
    AtLeast(ks, ivs, alloc, r - 1);
    OneMoreCovers(ivs, iv);
  }

  lemma FilledByActive(ivs: seq<LiveInterval>, alloc: Allocation, kept: seq<Active>, iv: LiveInterval, p: Register)
    requires Scannable(ivs + [iv]) && OnlyReaching(ivs, alloc, kept, iv.start) && InUse(kept, p)
    ensures Filled(Covering(ivs, iv.start), ivs, alloc, p)
  {
    hide Scannable;
    var a :| 0 <= a < |kept| && kept[a].reg == p;
    assert kept[a] in kept;
    var k :| 0 <= k < |ivs| && ivs[k] == kept[a].iv;
    StartsBefore(ivs, iv, k);
    assert k in Covering(ivs, iv.start) && InRegister(ivs, alloc, k, p);
  }

  lemma OneMoreCovers(ivs: seq<LiveInterval>, iv: LiveInterval)
    requires Scannable(ivs + [iv])
    ensures |Covering(ivs + [iv], iv.start)| == |Covering(ivs, iv.start)| + 1
  {
    OtherRegisters(ivs, iv);
    hide Scannable;
    var all := ivs + [iv];
    assert all[|ivs|] == iv && forall k :: 0 <= k < |ivs| ==> all[k] == ivs[k];
    assert Covering(all, iv.start) == Covering(ivs, iv.start) + {|ivs|};
  }

  lemma StartsBefore(ivs: seq<LiveInterval>, iv: LiveInterval, k: nat)
    requires Scannable(ivs + [iv]) && k < |ivs|
    ensures ivs[k].start <= iv.start
  {
    var all := ivs + [iv];
    assert all[k] == ivs[k] && all[|ivs|] == iv;
  }

  lemma CoveringGrows(ivs: seq<LiveInterval>, iv: LiveInterval, p: nat)
    ensures |Covering(ivs, p)| <= |Covering(ivs + [iv], p)|
  {
    var all := ivs + [iv];
    assert forall k :: 0 <= k < |ivs| ==> all[k] == ivs[k];
    assert Covering(all, p) == Covering(ivs, p) + (Covering(all, p) - Covering(ivs, p));
  }

  lemma {:induction false} FailureMeansCrowded(ivs: seq<LiveInterval>)
    requires Scannable(ivs) && Scan(ivs).None?
    ensures exists p :: |Covering(ivs, p)| > LAST
  {
    if ivs != [] {
      var n := |ivs| - 1;
      var before, iv := ivs[..n], ivs[n];
      assert ivs == before + [iv];
      if Scan(before).None? {
        FailureMeansCrowded(before);
        var p :| |Covering(before, p)| > LAST;
        CoveringGrows(before, iv, p);
      } else {
        ScanInvariant(before);
        var (alloc, active) := Scan(before).value;
        ExpireToPoint(before, alloc, active, iv.start);
        FirstFreeIsFirst(Expire(active, iv.start), FIRST);
        Crowded(before, alloc, Expire(active, iv.start), iv, LAST + 1);
      }
    }
  }

  lemma SuccessMeansRoom(ivs: seq<LiveInterval>, p: nat)
    requires Scannable(ivs) && Scan(ivs).Some?
    ensures |Covering(ivs, p)| <= LAST
  {
    ScanInvariant(ivs);
    var (alloc, active) := Scan(ivs).value;
    var ks := Covering(ivs, p);
    forall k | k in ks ensures exists r :: 1 <= r <= LAST && InRegister(ivs, alloc, k, r) {
      assert InRegister(ivs, alloc, k, alloc[ivs[k].vreg]);
    }
    forall j, k, r | j in ks && k in ks && InRegister(ivs, alloc, j, r) && InRegister(ivs, alloc, k, r) ensures j == k {
      assert Overlaps(ivs[j], ivs[k]) && Overlaps(ivs[k], ivs[j]);
    }
    AtMost(ks, ivs, alloc, LAST);
  }

  /** Allocation is complete: it fails exactly when some program point lies in more intervals
      than there are registers. */
  lemma FailsIffCrowded(ivs: seq<LiveInterval>)
    requires Scannable(ivs)
    ensures Scan(ivs).None? <==> exists p :: |Covering(ivs, p)| > LAST
  {
    if Scan(ivs).None? {
      FailureMeansCrowded(ivs);
    } else {
      forall p: nat ensures |Covering(ivs, p)| <= LAST { SuccessMeansRoom(ivs, p); }
    }
  }

  /** First-fit is optimal: register r is assigned only if r intervals meet at some point. */
  lemma {:induction false} FirstFitOptimal(ivs: seq<LiveInterval>, v: nat)
    requires Scannable(ivs) && Scan(ivs).Some? && v in Scan(ivs).value.0
    ensures exists p :: |Covering(ivs, p)| >= Scan(ivs).value.0[v]
  {
    if ivs != [] {
      var n := |ivs| - 1;
      var before, iv := ivs[..n], ivs[n];
      assert ivs == before + [iv];
      ScanInvariant(before);
      var (alloc, active) := Scan(before).value;
      if v == iv.vreg {
        ExpireToPoint(before, alloc, active, iv.start);
        FirstFreeIsFirst(Expire(active, iv.start), FIRST);
        Crowded(before, alloc, Expire(active, iv.start), iv, Scan(ivs).value.0[v]);
      } else {
        FirstFitOptimal(before, v);
        var p :| |Covering(before, p)| >= alloc[v];
        CoveringGrows(before, iv, p);
      }
    }
  }

  /* ---- Which register an interval gets ---- */

  lemma PrefixScannable(ivs: seq<LiveInterval>, n: nat)
    requires Scannable(ivs) && n <= |ivs|
    ensures Scannable(ivs[..n])
  {
    assert forall j :: 0 <= j < n ==> ivs[..n][j] == ivs[j];
  }

  // A register once assigned stays
  lemma {:induction false} PrefixKept(ivs: seq<LiveInterval>, n: nat, k: nat)
    requires Scannable(ivs) && Scan(ivs).Some? && k < n <= |ivs|
    ensures Scan(ivs[..n]).Some?
    ensures
      var alloc, alloc' := Scan(ivs).value.0, Scan(ivs[..n]).value.0;
      ivs[k].vreg in alloc' && ivs[k].vreg in alloc && alloc[ivs[k].vreg] == alloc'[ivs[k].vreg]
    decreases |ivs|
  {
    var m := |ivs| - 1;
    if n <= m {
      assert ivs[..m][..n] == ivs[..n];
      PrefixScannable(ivs, m);
      PrefixKept(ivs[..m], n, k);
    } else {
      assert ivs[..n] == ivs;
      ScanInvariant(ivs);
    }
  }

  // What was active when interval k was assigned
  lemma ActiveThen(ivs: seq<LiveInterval>, k: nat) returns (alloc: Allocation, kept: seq<Active>)
    requires Scannable(ivs) && Scan(ivs).Some? && k < |ivs|
    ensures ActiveAt(ivs[..k], alloc, kept, ivs[k].start)
    ensures forall i :: 0 <= i < |kept| ==> kept[i].iv in ivs[..k] && kept[i].iv.end >= ivs[k].start
    ensures FirstFree(kept, FIRST).Some? && ivs[k].vreg in Scan(ivs).value.0
    ensures Scan(ivs).value.0[ivs[k].vreg] == FirstFree(kept, FIRST).value
    ensures forall j :: 0 <= j < k && ivs[j].vreg in alloc ==>
              ivs[j].vreg in Scan(ivs).value.0 && alloc[ivs[j].vreg] == Scan(ivs).value.0[ivs[j].vreg]
  {
    var before, iv := ivs[..k], ivs[k];
    PrefixKept(ivs, k + 1, k);
    assert ivs[..k + 1][..k] == before && ivs[..k + 1] == before + [iv];
    var active;
    alloc, active := Scan(before).value.0, Scan(before).value.1;
    ScanInvariant(before);
    ExpireToPoint(before, alloc, active, iv.start);
    kept := Expire(active, iv.start);
    forall i | 0 <= i < |kept| ensures kept[i].iv in ivs[..k] && kept[i].iv.end >= ivs[k].start {
      assert kept[i] in kept;
    }
    hide Scannable, Scan, ScanOk, ActiveAt, FirstFree, Expire;
    forall j | 0 <= j < k && ivs[j].vreg in alloc
      ensures ivs[j].vreg in Scan(ivs).value.0 && alloc[ivs[j].vreg] == Scan(ivs).value.0[ivs[j].vreg]
    {
      PrefixKept(ivs, k, j);
    }
  }

  // Interval k gets register r: the first register that no earlier interval, one that reaches the
  // start of k, got
  ghost predicate Gets(ivs: seq<LiveInterval>, k: nat, r: Register)
    requires k < |ivs|
    decreases k, 1
  {
    FIRST <= r <= LAST && !Taken(ivs, k, r) && forall q: Register :: FIRST <= q < r ==> Taken(ivs, k, q)
  }

  ghost predicate Taken(ivs: seq<LiveInterval>, k: nat, r: Register)
    requires k < |ivs|
    decreases k, 0
  {
    exists j :: 0 <= j < k && ivs[j].end >= ivs[k].start && Gets(ivs, j, r)
  }

  /** The register that the scan gives to an interval, in terms of the intervals alone. */
  lemma {:induction false} GetsIff(ivs: seq<LiveInterval>, k: nat, r: Register)
    requires Scannable(ivs) && Scan(ivs).Some? && k < |ivs|
    ensures ivs[k].vreg in Scan(ivs).value.0
    ensures Scan(ivs).value.0[ivs[k].vreg] == r <==> Gets(ivs, k, r)
    decreases k
  {
    var alloc, kept := ActiveThen(ivs, k);
    hide Scannable, Scan, ActiveAt, FirstFree, InUse, Gets, Taken;
    forall q: Register ensures Taken(ivs, k, q) <==> InUse(kept, q) {
      forall j | 0 <= j < k
        ensures ivs[j].vreg in Scan(ivs).value.0 && (Scan(ivs).value.0[ivs[j].vreg] == q <==> Gets(ivs, j, q))
      {
        GetsIff(ivs, j, q);
      }
      TakenIff(ivs, k, alloc, kept, q);
    }
    FreeIsGot(ivs, k, kept, r);
  }

  lemma TakenIff(ivs: seq<LiveInterval>, k: nat, alloc: Allocation, kept: seq<Active>, q: Register)
    requires Scan(ivs).Some? && k < |ivs| && ActiveAt(ivs[..k], alloc, kept, ivs[k].start)
    requires forall j :: 0 <= j < k ==>
               ivs[j].vreg in Scan(ivs).value.0 && (Scan(ivs).value.0[ivs[j].vreg] == q <==> Gets(ivs, j, q))
    requires forall j :: 0 <= j < k && ivs[j].vreg in alloc ==> alloc[ivs[j].vreg] == Scan(ivs).value.0[ivs[j].vreg]
    ensures Taken(ivs, k, q) <==> InUse(kept, q)
  {
    hide Gets, Scan;
    if Taken(ivs, k, q) {
      var j :| 0 <= j < k && ivs[j].end >= ivs[k].start && Gets(ivs, j, q);
      assert ivs[..k][j] == ivs[j];
      assert Active(ivs[j], alloc[ivs[j].vreg]) in kept;
    }
    if InUse(kept, q) {
      var i :| 0 <= i < |kept| && kept[i].reg == q;
      assert kept[i] in kept;
      var j :| 0 <= j < k && ivs[..k][j] == kept[i].iv;
      assert Gets(ivs, j, q);
    }
  }

  lemma FreeIsGot(ivs: seq<LiveInterval>, k: nat, kept: seq<Active>, r: Register)
    requires k < |ivs| && FirstFree(kept, FIRST).Some?
    requires forall q: Register :: Taken(ivs, k, q) <==> InUse(kept, q)
    ensures FirstFree(kept, FIRST) == Some(r) <==> Gets(ivs, k, r)
  {
    hide FirstFree, InUse, Taken;
    FirstFreeIsFirst(kept, FIRST);
    var f := FirstFree(kept, FIRST).value;
    if r < f && FIRST <= r { assert InUse(kept, r); }
    if f < r && FIRST <= f { assert !InUse(kept, f); }
  }

  /** An interval that starts when all earlier ones have ended gets X1. */
  lemma {:induction false} AloneGetsFirst(ivs: seq<LiveInterval>, k: nat)
    requires Scannable(ivs) && Scan(ivs).Some? && k < |ivs| && forall j :: 0 <= j < k ==> ivs[j].end < ivs[k].start
    ensures ivs[k].vreg in Scan(ivs).value.0 && Scan(ivs).value.0[ivs[k].vreg] == FIRST
  {
    var alloc, kept := ActiveThen(ivs, k);
    hide Scannable, Scan;
  }

  /** The next one, when only that one is left, gets X2. */
  lemma {:induction false} SecondGetsSecond(ivs: seq<LiveInterval>, m: nat, k: nat)
    requires Scannable(ivs) && Scan(ivs).Some? && m < k < |ivs| && ivs[m].end >= ivs[k].start
    requires forall j :: 0 <= j < k && j != m ==> ivs[j].end < ivs[k].start
    requires ivs[m].vreg in Scan(ivs).value.0 && Scan(ivs).value.0[ivs[m].vreg] == FIRST
    ensures ivs[k].vreg in Scan(ivs).value.0 && Scan(ivs).value.0[ivs[k].vreg] == FIRST + 1
  {
    var alloc, kept := ActiveThen(ivs, k);
    hide Scannable, Scan;
    assert Active(ivs[m], FIRST) in kept by { assert ivs[..k][m] == ivs[m]; }
    forall a | a in kept ensures a.reg == FIRST {
      var j :| 0 <= j < k && ivs[..k][j] == a.iv;
    }
    assert InUse(kept, FIRST) && !InUse(kept, FIRST + 1);
  }
}
