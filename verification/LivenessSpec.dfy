/** Live intervals of virtual registers: from the last definition to the last use. */
module LivenessSpec {
  import opened Arm64

  datatype LiveInterval = LiveInterval(vreg: nat, start: nat, end: nat)

  predicate Overlaps(a: LiveInterval, b: LiveInterval) { !(a.end < b.start || a.start > b.end) }

  /* ---- Uses and definitions of one instruction, as the analysis counts them ---- */

  function VRegs(o: Operand): set<nat> { if o.VReg? then {o.v} else {} }

  // MOVK is not counted as a use of its destination
  function Uses(i: Instruction): set<nat> {
    match i
    case ThreeOperand(_, _, _, a, b) => VRegs(a) + VRegs(b)
    case TwoOperand(op, _, d, a) => VRegs(a) + (if op.CMP? then VRegs(d) else {})
    case MemoryInst(op, _, r, b, _) => VRegs(b) + (if op.STR? then VRegs(r) else {})
    case MoveWide(_, _, _, _, _) => {}
    case Conditional(_, _, _, _) => {}
    case ConditionalSelect(_, _, _, a, b, _) => VRegs(a) + VRegs(b)
  }

  function Defs(i: Instruction): set<nat> {
    match i
    case ThreeOperand(_, _, d, _, _) => VRegs(d)
    case TwoOperand(op, _, d, _) => if op.CMP? then {} else VRegs(d)
    case MemoryInst(op, _, r, _, _) => if op.LDR? then VRegs(r) else {}
    case MoveWide(_, _, d, _, _) => VRegs(d)
    case Conditional(_, _, d, _) => VRegs(d)
    case ConditionalSelect(_, _, d, _, _, _) => VRegs(d)
  }

  /* ---- Sites ---- */

  // The operand an instruction defines, or one that is no register
  function Defined(i: Instruction): Operand {
    match i
    case ThreeOperand(_, _, d, _, _) => d
    case TwoOperand(op, _, d, _) => if op.CMP? then Imm(0) else d
    case MemoryInst(op, _, r, _, _) => if op.LDR? then r else Imm(0)
    case MoveWide(_, _, d, _, _) => d
    case Conditional(_, _, d, _) => d
    case ConditionalSelect(_, _, d, _, _, _) => d
  }

  // The operands it uses, at most two
  function Used(i: Instruction): (Operand, Operand) {
    match i
    case ThreeOperand(_, _, _, a, b) => (a, b)
    case TwoOperand(op, _, d, a) => (a, if op.CMP? then d else Imm(0))
    case MemoryInst(op, _, r, b, _) => (b, if op.STR? then r else Imm(0))
    case MoveWide(_, _, _, _, _) => (Imm(0), Imm(0))
    case Conditional(_, _, _, _) => (Imm(0), Imm(0))
    case ConditionalSelect(_, _, _, a, b, _) => (a, b)
  }

  // The last definition of each virtual register
  function DefSites(code: seq<Instruction>): map<nat, nat> {
    if code == [] then map[]
    else
      var n := |code| - 1;
      var d := Defined(code[n]);
      if d.VReg? then DefSites(code[..n])[d.v := n] else DefSites(code[..n])
  }

  function Sites(sites: map<nat, seq<nat>>, v: nat): seq<nat> { if v in sites then sites[v] else [] }

  function AddUse(sites: map<nat, seq<nat>>, o: Operand, n: nat): map<nat, seq<nat>> {
    if o.VReg? then sites[o.v := Sites(sites, o.v) + [n]] else sites
  }

  // All uses of each virtual register, in order
  function UseSites(code: seq<Instruction>): map<nat, seq<nat>> {
    if code == [] then map[]
    else
      var n := |code| - 1;
      var (a, b) := Used(code[n]);
      var sites := AddUse(UseSites(code[..n]), a, n);
      if a == b then sites else AddUse(sites, b, n)
  }

  // The tables after instruction n has defined or used these registers
  ghost predicate DefsAdded(sites: map<nat, nat>, sites': map<nat, nat>, vregs: set<nat>, n: nat) {
    sites'.Keys == sites.Keys + vregs && forall v :: v in sites' ==> sites'[v] == if v in vregs then n else sites[v]
  }

  ghost predicate UsesAdded(sites: map<nat, seq<nat>>, sites': map<nat, seq<nat>>, vregs: set<nat>, n: nat) {
    sites'.Keys == sites.Keys + vregs &&
    forall v :: v in sites' ==> sites'[v] == if v in vregs then Sites(sites, v) + [n] else sites[v]
  }

  lemma DefinedIsDefs(i: Instruction)
    ensures Defs(i) == VRegs(Defined(i)) && Uses(i) == VRegs(Used(i).0) + VRegs(Used(i).1)
  {
  }

  lemma DefsStep(code: seq<Instruction>)
    requires code != []
    ensures DefsAdded(DefSites(code[..|code| - 1]), DefSites(code), Defs(code[|code| - 1]), |code| - 1)
  {
    hide Defs, Defined, Uses, Used;
    DefinedIsDefs(code[|code| - 1]);
  }

  lemma AddOne(sites: map<nat, seq<nat>>, sites': map<nat, seq<nat>>, vregs: set<nat>, o: Operand, n: nat)
    requires UsesAdded(sites, sites', vregs, n) && (o.VReg? ==> o.v !in vregs)
    ensures UsesAdded(sites, AddUse(sites', o, n), vregs + VRegs(o), n)
  {
    if o.VReg? { assert Sites(sites', o.v) == Sites(sites, o.v); }
    hide Sites;
  }

  lemma AddBoth(sites: map<nat, seq<nat>>, a: Operand, b: Operand, n: nat)
    ensures
      var once := AddUse(sites, a, n);
      UsesAdded(sites, if a == b then once else AddUse(once, b, n), VRegs(a) + VRegs(b), n)
  {
    assert UsesAdded(sites, sites, {}, n);
    hide UsesAdded, AddUse;
    AddOne(sites, sites, {}, a, n);
    assert {} + VRegs(a) == VRegs(a);
    if a == b { assert VRegs(a) + VRegs(b) == VRegs(a); } else { AddOne(sites, AddUse(sites, a, n), VRegs(a), b, n); }
  }

  lemma UsesStep(code: seq<Instruction>)
    requires code != []
    ensures UsesAdded(UseSites(code[..|code| - 1]), UseSites(code), Uses(code[|code| - 1]), |code| - 1)
  {
    hide Uses, Used, Defs, Defined, UsesAdded, AddUse;
    var n := |code| - 1;
    DefinedIsDefs(code[n]);
    AddBoth(UseSites(code[..n]), Used(code[n]).0, Used(code[n]).1, n);
  }

  function Maximum(s: seq<nat>): (m: nat)
    requires s != []
  {
    if |s| == 1 then s[0]
    else
      var m := Maximum(s[..|s| - 1]);
      if m < s[|s| - 1] then s[|s| - 1] else m
  }

  ghost predicate UsesListed(code: seq<Instruction>) {
    forall v :: v in UseSites(code) ==> UseSites(code)[v] != []
  }

  lemma {:induction false} SitesNonEmpty(code: seq<Instruction>)
    ensures UsesListed(code)
  {
    hide Uses, Defs;
    if code != [] {
      SitesNonEmpty(code[..|code| - 1]);
      UsesStep(code);
    }
  }

  function Interval(code: seq<Instruction>, v: nat): LiveInterval
    requires v in DefSites(code)
  {
    SitesNonEmpty(code);
    var def := DefSites(code)[v];
    LiveInterval(v, def, if v in UseSites(code) then Maximum(UseSites(code)[v]) else def)
  }

  lemma IntervalNames(code: seq<Instruction>, v: nat)
    requires v in DefSites(code)
    ensures Interval(code, v).vreg == v
  {
  }

  // The intervals of the code, in order of their starts
  ghost predicate AreIntervals(code: seq<Instruction>, ivs: seq<LiveInterval>) {
    && (forall j, k :: 0 <= j < k < |ivs| ==> ivs[j].start < ivs[k].start)
    && (forall j :: 0 <= j < |ivs| ==> ivs[j].vreg in DefSites(code) && ivs[j] == Interval(code, ivs[j].vreg))
    && (forall v :: v in DefSites(code) ==> Interval(code, v) in ivs)
  }

  /* ---- What the sites mean ---- */

  lemma OneDefinition(i: Instruction, u: nat, v: nat)
    requires u in Defs(i) && v in Defs(i)
    ensures u == v
  {
  }

  // defSites[v] is the last definition
  lemma {:induction false} DefSiteIsLast(code: seq<Instruction>, v: nat)
    ensures v in DefSites(code) <==> exists k :: 0 <= k < |code| && v in Defs(code[k])
    ensures v in DefSites(code) ==>
              var d := DefSites(code)[v];
              d < |code| && v in Defs(code[d]) && forall k :: d < k < |code| ==> v !in Defs(code[k])
  {
    if code != [] {
      var n := |code| - 1;
      DefSiteIsLast(code[..n], v);
      DefsStep(code);
      hide Defs, Defined;
      assert forall k :: 0 <= k < n ==> code[..n][k] == code[k];
    }
  }

  // m is the last use of v
  ghost predicate IsLastUse(code: seq<Instruction>, v: nat, m: nat) {
    m < |code| && v in Uses(code[m]) && forall k :: m < k < |code| ==> v !in Uses(code[k])
  }

  // useSites[v] lists the uses, so its maximum is the last one
  lemma {:induction false} UseSitesList(code: seq<Instruction>, v: nat)
    ensures v !in UseSites(code) ==> forall k :: 0 <= k < |code| ==> v !in Uses(code[k])
    ensures v in UseSites(code) ==> UseSites(code)[v] != [] && IsLastUse(code, v, Maximum(UseSites(code)[v]))
  {
    if code == [] {
      assert UseSites(code) == map[];
    } else {
      UseSitesList(code[..|code| - 1], v);
      UseSitesMore(code, v);
    }
    hide Uses, UseSites, Maximum;
  }

  lemma UseSitesMore(code: seq<Instruction>, v: nat)
    requires code != []
    requires
      var before := code[..|code| - 1];
      && (v !in UseSites(before) ==> forall k :: 0 <= k < |before| ==> v !in Uses(before[k]))
      && (v in UseSites(before) ==> UseSites(before)[v] != [] && IsLastUse(before, v, Maximum(UseSites(before)[v])))
    ensures v !in UseSites(code) ==> forall k :: 0 <= k < |code| ==> v !in Uses(code[k])
    ensures v in UseSites(code) ==> UseSites(code)[v] != [] && IsLastUse(code, v, Maximum(UseSites(code)[v]))
  {
    hide Uses, UseSites, Maximum;
    var n := |code| - 1;
    UsesStep(code);
    assert forall k :: 0 <= k < n ==> code[..n][k] == code[k];
    if v in Uses(code[n]) {
      var s := Sites(UseSites(code[..n]), v);
      assert UseSites(code)[v] == s + [n];
      MaximumSnoc(s, n);
    }
  }

  lemma MaximumSnoc(s: seq<nat>, n: nat)
    requires s == [] || Maximum(s) < n
    ensures Maximum(s + [n]) == n
  {
    assert (s + [n])[..|s|] == s;
  }

  // The end of an interval is the last use, or the definition of a value never used
  lemma IntervalEnd(code: seq<Instruction>, v: nat)
    requires v in DefSites(code)
    ensures
      var iv := Interval(code, v);
      && iv.start < |code| && v in Defs(code[iv.start])
      && (forall k :: iv.start < k < |code| ==> v !in Defs(code[k]))
      && iv.end < |code|
      && (forall k :: 0 <= k < |code| && v in Uses(code[k]) ==> k <= iv.end)
      && (iv.end != iv.start ==> v in Uses(code[iv.end]))
  {
    DefSiteIsLast(code, v);
    UseSitesList(code, v);
  }

  ghost predicate StrictlySorted(ivs: seq<LiveInterval>) {
    forall j, k :: 0 <= j < k < |ivs| ==> ivs[j].start < ivs[k].start
  }

  lemma {:induction false} SortedUnique(a: seq<LiveInterval>, b: seq<LiveInterval>)
    requires StrictlySorted(a) && StrictlySorted(b)
    requires forall x :: x in a <==> x in b
    ensures a == b
    decreases |a|
  {
    SomeMember(b);
    if a != [] {
      var m := a[|a| - 1];
      assert m in b;
      LastSame(a, b);
      WithoutLast(a);
      WithoutLast(b);
      var a', b' := a[..|a| - 1], b[..|b| - 1];
      hide StrictlySorted;
      forall x ensures x in a' <==> x in b' {
        assert x in a' <==> x in a && x != m;
      }
      SortedUnique(a', b');
      assert a == a[..|a| - 1] + [m] && b == b[..|b| - 1] + [m];
    }
  }

  lemma LastSame(a: seq<LiveInterval>, b: seq<LiveInterval>)
    requires StrictlySorted(a) && StrictlySorted(b) && a != [] && b != []
    requires forall x :: x in a <==> x in b
    ensures a[|a| - 1] == b[|b| - 1]
  {
    var m, n := a[|a| - 1], b[|b| - 1];
    assert m in b && n in a;
    var j :| 0 <= j < |a| && a[j] == n;
    var k :| 0 <= k < |b| && b[k] == m;
  }

  lemma SomeMember(b: seq<LiveInterval>)
    ensures b == [] || exists x :: x in b
  {
    if b != [] { assert b[0] in b; }
  }

  lemma WithoutLast(a: seq<LiveInterval>)
    requires a != [] && StrictlySorted(a)
    ensures StrictlySorted(a[..|a| - 1])
    ensures forall x :: x in a[..|a| - 1] <==> x in a && x != a[|a| - 1]
  {
    var m := a[|a| - 1];
    forall x | x in a && x != m ensures x in a[..|a| - 1] {
      var j :| 0 <= j < |a| && a[j] == x;
      assert a[..|a| - 1][j] == x;
    }
  }

  /** The intervals in order are unique: each starts at a definition, and an instruction
      defines at most one register. So the order in which the hash map is walked, and the
      instability of the sort, do not show. */
  lemma IntervalsUnique(code: seq<Instruction>, a: seq<LiveInterval>, b: seq<LiveInterval>)
    requires AreIntervals(code, a) && AreIntervals(code, b)
    ensures a == b
  {
    hide DefSites, UseSites, Interval;
    SortedUnique(a, b);
  }

  lemma StartsDistinct(code: seq<Instruction>, u: nat, v: nat)
    requires u in DefSites(code) && v in DefSites(code) && u != v
    ensures Interval(code, u).start != Interval(code, v).start
  {
    DefSiteIsLast(code, u);
    DefSiteIsLast(code, v);
    if DefSites(code)[u] == DefSites(code)[v] {
      OneDefinition(code[DefSites(code)[u]], u, v);
    }
  }

  /* ---- Backward dataflow ---- */

  // The registers live before instruction k, by backward dataflow over the analysis's own
  // uses and definitions
  function LiveBefore(code: seq<Instruction>, k: nat): set<nat>
    requires k <= |code|
    decreases |code| - k
  {
    if k == |code| then {} else Uses(code[k]) + (LiveBefore(code, k + 1) - Defs(code[k]))
  }

  // After the last definition, liveness is having a use to come
  lemma {:induction false} LiveMeansUsed(code: seq<Instruction>, k: nat, v: nat)
    requires k <= |code| && forall j :: k <= j < |code| ==> v !in Defs(code[j])
    ensures v in LiveBefore(code, k) <==> exists j :: k <= j < |code| && v in Uses(code[j])
    decreases |code| - k
  {
    if k < |code| {
      LiveMeansUsed(code, k + 1, v);
    }
  }

  /** After its last definition, a register is live at a point exactly when its interval
      covers the point. */
  lemma IntervalsAreLiveness(code: seq<Instruction>, v: nat, k: nat)
    requires v in DefSites(code) && Interval(code, v).start < k <= |code|
    ensures v in LiveBefore(code, k) <==> k <= Interval(code, v).end
  {
    IntervalEnd(code, v);
    LiveMeansUsed(code, k, v);
    hide Interval, LiveBefore, DefSites;
  }
}
