/** Liveness analysis, as it fills its tables. */
module LivenessAnalysis {
  import opened Arm64
  import opened LivenessSpec

  class LivenessAnalysis {
    const instructions: seq<Instruction>
    var defSites: map<nat, nat>
    var useSites: map<nat, seq<nat>>

    constructor (code: seq<Instruction>)
      ensures instructions == code && defSites == map[] && useSites == map[]
    {
      instructions := code;
      defSites := map[];
      useSites := map[];
    }

    method ComputeUseDef()
      modifies this
      ensures defSites == DefSites(instructions) && useSites == UseSites(instructions)
    {
      hide DefSites, UseSites, Defs, Uses, DefsAdded, UsesAdded;
      defSites := map[];
      useSites := map[];
      NoSites(instructions);
      var i := 0;
      while i < |instructions|
        invariant 0 <= i <= |instructions|
        invariant defSites == DefSites(instructions[..i]) && useSites == UseSites(instructions[..i])
      {
        var definedVRegs := DefinedVirtualRegisters(instructions[i]);
        RecordDefinitions(definedVRegs, i);
        var usedVRegs := UsedVirtualRegisters(instructions[i]);
        RecordUses(usedVRegs, i);
        SitesSnoc(instructions, i, defSites, useSites);
        i := i + 1;
      }
      assert instructions[..i] == instructions;
    }

    method RecordDefinitions(vregs: set<nat>, i: nat)
      modifies `defSites
      ensures DefsAdded(old(defSites), defSites, vregs, i)
    {
      hide DefsAdded;
      NoDefs(defSites, i);
      assert vregs - vregs == {};
      var rest := vregs;
      while rest != {}
        invariant rest <= vregs
        invariant DefsAdded(old(defSites), defSites, vregs - rest, i)
        decreases |rest|
      {
        var vreg :| vreg in rest;
        OneMoreDef(old(defSites), defSites, vregs - rest, vreg, i);
        assert vregs - (rest - {vreg}) == (vregs - rest) + {vreg};
        defSites := defSites[vreg := i];
        rest := rest - {vreg};
      }
      assert vregs - {} == vregs;
    }

    method RecordUses(vregs: set<nat>, i: nat)
      modifies `useSites
      ensures UsesAdded(old(useSites), useSites, vregs, i)
    {
      hide UsesAdded, Sites;
      NoUses(useSites, i);
      assert vregs - vregs == {};
      var rest := vregs;
      while rest != {}
        invariant rest <= vregs
        invariant UsesAdded(old(useSites), useSites, vregs - rest, i)
        decreases |rest|
      {
        var vreg :| vreg in rest;
        OneMoreUse(old(useSites), useSites, vregs - rest, vreg, i);
        assert vregs - (rest - {vreg}) == (vregs - rest) + {vreg};
        useSites := useSites[vreg := Sites(useSites, vreg) + [i]];
        rest := rest - {vreg};
      }
      assert vregs - {} == vregs;
    }

    method ComputeLiveIntervals() returns (intervals: seq<LiveInterval>)
      modifies this
      ensures AreIntervals(instructions, intervals)
    {
      hide DefSites, UseSites, Collected, Maximum, AreIntervals;
      ComputeUseDef();
      SitesNonEmpty(instructions);
      intervals := [];
      NothingCollected(instructions);
      assert defSites.Keys - defSites.Keys == {};
      var rest := defSites.Keys;
      while rest != {}
        invariant rest <= defSites.Keys
        invariant defSites == DefSites(instructions) && useSites == UseSites(instructions)
        invariant Collected(instructions, intervals, defSites.Keys - rest)
        decreases |rest|
      {
        var vreg :| vreg in rest;
        var def := defSites[vreg];
        var end := def;
        if vreg in useSites {
          UsesKnown(instructions, vreg);
          end := MaxElement(useSites[vreg]);
        }
        IntervalNames(instructions, vreg);
        CollectOne(instructions, intervals, defSites.Keys - rest, vreg);
        assert defSites.Keys - (rest - {vreg}) == (defSites.Keys - rest) + {vreg};
        intervals := intervals + [LiveInterval(vreg, def, end)];
        rest := rest - {vreg};
      }
      assert defSites.Keys - {} == defSites.Keys;
      ghost var collected := intervals;
      intervals := SortByStart(intervals);
      CollectedSorted(instructions, collected, intervals);
    }
  }

  /* ---- Operands ---- */

  method UsedVirtualRegisters(inst: Instruction) returns (used: set<nat>)
    ensures used == Uses(inst)
  {
    used := {};
    match inst
    case ThreeOperand(_, _, _, src1, src2) =>
      if src1.VReg? { used := used + {src1.v}; }
      if src2.VReg? { used := used + {src2.v}; }
    case TwoOperand(op, _, dest, src) =>
      if src.VReg? { used := used + {src.v}; }
      if op.CMP? {
        if dest.VReg? { used := used + {dest.v}; }
      }
    case MemoryInst(op, _, reg, base, _) =>
      if base.VReg? { used := used + {base.v}; }
      if op.STR? {
        if reg.VReg? { used := used + {reg.v}; }
      }
    case ConditionalSelect(_, _, _, src1, src2, _) =>
      if src1.VReg? { used := used + {src1.v}; }
      if src2.VReg? { used := used + {src2.v}; }
    case _ =>
  }

  method DefinedVirtualRegisters(inst: Instruction) returns (defined: set<nat>)
    ensures defined == Defs(inst)
  {
    defined := {};
    match inst
    case ThreeOperand(_, _, dest, _, _) =>
      if dest.VReg? { defined := defined + {dest.v}; }
    case TwoOperand(op, _, dest, _) =>
      if !op.CMP? {
        if dest.VReg? { defined := defined + {dest.v}; }
      }
    case MemoryInst(op, _, reg, _, _) =>
      if op.LDR? {
        if reg.VReg? { defined := defined + {reg.v}; }
      }
    case MoveWide(_, _, dest, _, _) =>
      if dest.VReg? { defined := defined + {dest.v}; }
    case Conditional(_, _, dest, _) =>
      if dest.VReg? { defined := defined + {dest.v}; }
    case ConditionalSelect(_, _, dest, _, _, _) =>
      if dest.VReg? { defined := defined + {dest.v}; }
  }

  lemma NoSites(code: seq<Instruction>)
    ensures DefSites(code[..0]) == map[] && UseSites(code[..0]) == map[]
  {
  }

  // The tables of the specification change in the same way
  lemma SitesSnoc(code: seq<Instruction>, i: nat, defs: map<nat, nat>, uses: map<nat, seq<nat>>)
    requires i < |code|
    requires DefsAdded(DefSites(code[..i]), defs, Defs(code[i]), i)
    requires UsesAdded(UseSites(code[..i]), uses, Uses(code[i]), i)
    ensures DefSites(code[..i + 1]) == defs && UseSites(code[..i + 1]) == uses
  {
    assert code[..i + 1][..i] == code[..i];
    DefsStep(code[..i + 1]);
    UsesStep(code[..i + 1]);
    hide Defs, Uses, DefSites, UseSites, Sites;
  }

  lemma NoDefs(sites: map<nat, nat>, i: nat)
    ensures DefsAdded(sites, sites, {}, i)
  {
  }

  lemma NoUses(sites: map<nat, seq<nat>>, i: nat)
    ensures UsesAdded(sites, sites, {}, i)
  {
  }

  lemma OneMoreDef(sites: map<nat, nat>, sites': map<nat, nat>, done: set<nat>, v: nat, i: nat)
    requires DefsAdded(sites, sites', done, i)
    ensures DefsAdded(sites, sites'[v := i], done + {v}, i)
  {
  }

  lemma OneMoreUse(sites: map<nat, seq<nat>>, sites': map<nat, seq<nat>>, done: set<nat>, v: nat, i: nat)
    requires UsesAdded(sites, sites', done, i) && v !in done
    ensures UsesAdded(sites, sites'[v := Sites(sites', v) + [i]], done + {v}, i)
  {
  }

  // std::max_element
  method MaxElement(s: seq<nat>) returns (m: nat)
    requires s != []
    ensures m in s && forall x :: x in s ==> x <= m
    ensures m == Maximum(s)
  {
    m := s[0];
    var i := 1;
    while i < |s|
      invariant 1 <= i <= |s|
      invariant m in s[..i] && (forall x :: x in s[..i] ==> x <= m) && m == Maximum(s[..i])
    {
      assert s[..i + 1][..i] == s[..i] && s[..i + 1] == s[..i] + [s[i]];
      if m < s[i] {
        m := s[i];
      }
      i := i + 1;
    }
    assert s[..i] == s;
  }

  /* ---- Sorting ---- */

  predicate SortedByStart(ivs: seq<LiveInterval>) { forall j, k :: 0 <= j < k < |ivs| ==> ivs[j].start <= ivs[k].start }

  // std::sort by start, which may permute equal starts
  method SortByStart(ivs: seq<LiveInterval>) returns (sorted: seq<LiveInterval>)
    ensures multiset(sorted) == multiset(ivs) && SortedByStart(sorted)
  {
    sorted := [];
    var i := 0;
    while i < |ivs|
      invariant 0 <= i <= |ivs|
      invariant multiset(sorted) == multiset(ivs[..i]) && SortedByStart(sorted)
    {
      sorted := Insert(sorted, ivs[i]);
      assert ivs[..i + 1] == ivs[..i] + [ivs[i]];
      i := i + 1;
    }
    assert ivs[..i] == ivs;
  }

  lemma InsertSorted(sorted: seq<LiveInterval>, iv: LiveInterval, i: nat)
    requires SortedByStart(sorted) && i <= |sorted|
    requires i > 0 ==> sorted[i - 1].start <= iv.start
    requires forall k :: i <= k < |sorted| ==> sorted[k].start > iv.start
    ensures SortedByStart(sorted[..i] + [iv] + sorted[i..])
  {
  }

  lemma InsertSame(sorted: seq<LiveInterval>, iv: LiveInterval, i: nat)
    requires i <= |sorted|
    ensures multiset(sorted[..i] + [iv] + sorted[i..]) == multiset(sorted) + multiset{iv}
  {
    assert sorted == sorted[..i] + sorted[i..];
  }

  method Insert(sorted: seq<LiveInterval>, iv: LiveInterval) returns (r: seq<LiveInterval>)
    requires SortedByStart(sorted)
    ensures multiset(r) == multiset(sorted) + multiset{iv} && SortedByStart(r)
  {
    hide SortedByStart;
    var i := |sorted|;
    while i > 0 && sorted[i - 1].start > iv.start
      invariant 0 <= i <= |sorted|
      invariant forall k :: i <= k < |sorted| ==> sorted[k].start > iv.start
    {
      i := i - 1;
    }
    InsertSorted(sorted, iv, i);
    InsertSame(sorted, iv, i);
    r := sorted[..i] + [iv] + sorted[i..];
  }

  /* ---- The intervals found ---- */

  // One interval for each of these registers
  ghost predicate Collected(code: seq<Instruction>, ivs: seq<LiveInterval>, vregs: set<nat>) {
    && vregs <= DefSites(code).Keys
    && (forall iv :: iv in ivs ==> iv.vreg in vregs && iv == Interval(code, iv.vreg))
    && (forall v :: v in vregs ==> Interval(code, v) in ivs)
    && (forall j, k :: 0 <= j < k < |ivs| ==> ivs[j].vreg != ivs[k].vreg)
  }

  lemma CollectOne(code: seq<Instruction>, ivs: seq<LiveInterval>, vregs: set<nat>, v: nat)
    requires Collected(code, ivs, vregs) && v in DefSites(code) && v !in vregs
    ensures Collected(code, ivs + [Interval(code, v)], vregs + {v})
  {
    IntervalNames(code, v);
    hide Interval, DefSites;
    var iv := Interval(code, v);
    forall j, k | 0 <= j < k < |ivs + [iv]| ensures (ivs + [iv])[j].vreg != (ivs + [iv])[k].vreg {
      assert ivs[j] in ivs;
    }
  }

  lemma NothingCollected(code: seq<Instruction>)
    ensures Collected(code, [], {})
  {
  }

  lemma UsesKnown(code: seq<Instruction>, v: nat)
    requires v in UseSites(code)
    ensures UseSites(code)[v] != []
  {
    SitesNonEmpty(code);
  }

  lemma {:induction false} OnceEach(ivs: seq<LiveInterval>, iv: LiveInterval)
    requires forall j, k :: 0 <= j < k < |ivs| ==> ivs[j].vreg != ivs[k].vreg
    ensures multiset(ivs)[iv] <= 1
  {
    if ivs != [] {
      var n := |ivs| - 1;
      OnceEach(ivs[..n], iv);
      assert ivs == ivs[..n] + [ivs[n]];
      assert iv in ivs[..n] <==> iv in multiset(ivs[..n]);
    }
  }

  lemma TwiceThere(ivs: seq<LiveInterval>, j: nat, k: nat)
    requires j < k < |ivs| && ivs[j] == ivs[k]
    ensures multiset(ivs)[ivs[j]] >= 2
  {
    assert ivs == ivs[..k] + ivs[k..];
    assert ivs[..k][j] == ivs[j] && ivs[k..][0] == ivs[k];
    assert ivs[j] in multiset(ivs[..k]) && ivs[k] in multiset(ivs[k..]);
  }

  // Distinct starts make the sort strict and its result unique
  lemma CollectedSorted(code: seq<Instruction>, ivs: seq<LiveInterval>, sorted: seq<LiveInterval>)
    requires Collected(code, ivs, DefSites(code).Keys) && multiset(sorted) == multiset(ivs) && SortedByStart(sorted)
    ensures AreIntervals(code, sorted)
  {
    hide Interval, DefSites;
    forall iv ensures iv in sorted <==> iv in ivs { assert iv in multiset(sorted) <==> iv in multiset(ivs); }
    forall j | 0 <= j < |sorted|
      ensures sorted[j].vreg in DefSites(code) && sorted[j] == Interval(code, sorted[j].vreg)
    {
      assert sorted[j] in ivs;
    }
    forall j, k | 0 <= j < k < |sorted| ensures sorted[j].start < sorted[k].start {
      if sorted[j].vreg == sorted[k].vreg {
        TwiceThere(sorted, j, k);
        OnceEach(ivs, sorted[j]);
        assert false;
      }
      StartsDistinct(code, sorted[j].vreg, sorted[k].vreg);
    }
  }
}
