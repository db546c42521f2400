/** Code in two window-shaped pieces, the second of which may define registers of the first again.
    Every block is selected into such code, whatever ids its branch temporaries get. */
module Pieces {
  import opened Arm64
  import opened LivenessSpec
  import opened AllocatorSpec
  import opened AllocationCorrect

  // The second piece uses every register that it defines
  ghost predicate TwoPieces(a: seq<Instruction>, b: seq<Instruction>) {
    WindowShape(a) && WindowShape(b) && forall v :: v in DefSites(b) ==> v in UseSites(b)
  }

  /* ---- Sites of the whole ---- */

  lemma {:induction false} DefSiteAppend(a: seq<Instruction>, b: seq<Instruction>, v: nat)
    ensures v in DefSites(a + b) <==> v in DefSites(a) || v in DefSites(b)
    ensures v in DefSites(b) ==> DefSites(a + b)[v] == DefSites(b)[v] + |a|
    ensures v in DefSites(a) && v !in DefSites(b) ==> DefSites(a + b)[v] == DefSites(a)[v]
    decreases |b|
  {
    hide Defs;
    if b == [] {
      assert a + b == a;
    } else {
      var n := |b| - 1;
      assert (a + b)[..|a + b| - 1] == a + b[..n];
      DefSiteAppend(a, b[..n], v);
    }
  }

  lemma LastUseUnique(code: seq<Instruction>, v: nat, m: nat)
    requires IsLastUse(code, v, m)
    ensures v in UseSites(code) && UseSites(code)[v] != [] && Maximum(UseSites(code)[v]) == m
  {
    UseSitesList(code, v);
    hide UseSites, Uses;
  }

  lemma Unused(code: seq<Instruction>, v: nat)
    requires forall k :: 0 <= k < |code| ==> v !in Uses(code[k])
    ensures v !in UseSites(code)
  {
    UseSitesList(code, v);
    hide UseSites, Uses;
  }

  lemma UsedIsListed(code: seq<Instruction>, v: nat, k: nat)
    requires k < |code| && v in Uses(code[k])
    ensures v in UseSites(code)
  {
    UseSitesList(code, v);
    hide UseSites, Uses;
  }

  // Window-shaped code uses what it defines
  lemma UsesAreDefined(code: seq<Instruction>, v: nat)
    requires WindowShape(code) && v !in DefSites(code)
    ensures forall k :: 0 <= k < |code| ==> v !in Uses(code[k])
  {
    DefSiteIsLast(code, v);
    hide DefSites, Uses, Defs;
    forall k | 0 <= k < |code| ensures v !in Uses(code[k]) {
      assert v in Uses(code[k]) ==> DefinedBefore(code, v, k);
    }
  }

  // Its uses stay where they are when the second piece has none
  lemma KeptLastUse(a: seq<Instruction>, b: seq<Instruction>, v: nat, m: nat)
    requires IsLastUse(a, v, m) && forall k :: 0 <= k < |b| ==> v !in Uses(b[k])
    ensures IsLastUse(a + b, v, m)
  {
    hide Uses;
    forall k | m < k < |a + b| ensures v !in Uses((a + b)[k]) {
      if k >= |a| { assert (a + b)[k] == b[k - |a|]; }
    }
  }

  lemma NoUse(a: seq<Instruction>, b: seq<Instruction>, v: nat)
    requires (forall k :: 0 <= k < |a| ==> v !in Uses(a[k])) && forall k :: 0 <= k < |b| ==> v !in Uses(b[k])
    ensures v !in UseSites(a + b)
  {
    hide Uses, UseSites;
    forall k | 0 <= k < |a + b| ensures v !in Uses((a + b)[k]) {
      if k >= |a| { assert (a + b)[k] == b[k - |a|]; }
    }
    Unused(a + b, v);
  }

  // A register of the first piece only keeps its interval
  lemma FirstInterval(a: seq<Instruction>, b: seq<Instruction>, v: nat)
    requires TwoPieces(a, b) && v in DefSites(a) && v !in DefSites(b)
    ensures v in DefSites(a + b) && Interval(a + b, v) == Interval(a, v)
  {
    hide DefSites, UseSites, Uses, Defs, WindowShape, Maximum;
    DefSiteAppend(a, b, v);
    UsesAreDefined(b, v);
    UseSitesList(a, v);
    if v in UseSites(a) {
      KeptLastUse(a, b, v, Maximum(UseSites(a)[v]));
      LastUseUnique(a + b, v, Maximum(UseSites(a)[v]));
    } else {
      NoUse(a, b, v);
    }
  }

  function Shifted(iv: LiveInterval, n: nat): LiveInterval { LiveInterval(iv.vreg, iv.start + n, iv.end + n) }

  // A register of the second piece has the interval it has there
  lemma SecondInterval(a: seq<Instruction>, b: seq<Instruction>, v: nat)
    requires TwoPieces(a, b) && v in DefSites(b)
    ensures v in DefSites(a + b) && Interval(a + b, v) == Shifted(Interval(b, v), |a|)
  {
    DefSiteAppend(a, b, v);
    UseSitesList(b, v);
    hide DefSites, Uses, Defs, WindowShape, Maximum;
    assert forall k :: |a| <= k < |a + b| ==> (a + b)[k] == b[k - |a|];
    LastUseUnique(a + b, v, Maximum(UseSites(b)[v]) + |a|);
    hide UseSites;
  }

  lemma IntervalOrdered(a: seq<Instruction>, b: seq<Instruction>, v: nat)
    requires TwoPieces(a, b) && v in DefSites(a + b)
    ensures Interval(a + b, v).start <= Interval(a + b, v).end
  {
    DefSiteAppend(a, b, v);
    hide Interval, DefSites, UseSites, WindowShape;
    if v in DefSites(b) {
      SecondInterval(a, b, v);
      EndsAfterDefinition(b, v);
    } else {
      FirstInterval(a, b, v);
      EndsAfterDefinition(a, v);
    }
  }

  /* ---- Allocation ---- */

  lemma PiecesScannable(a: seq<Instruction>, b: seq<Instruction>, ivs: seq<LiveInterval>)
    requires TwoPieces(a, b) && AreIntervals(a + b, ivs)
    ensures Scannable(ivs)
  {
    hide TwoPieces, Interval, DefSites;
    forall j | 0 <= j < |ivs| ensures ivs[j].start <= ivs[j].end { IntervalOrdered(a, b, ivs[j].vreg); }
  }

  lemma MentionedCounts(i: Instruction)
    requires PlainInst(i)
    ensures Mentioned(i) == Uses(i) + Defs(i)
  {
  }

  lemma MentionedDefined(code: seq<Instruction>, k: nat)
    requires WindowShape(code) && k < |code| && PlainInst(code[k])
    ensures Mentioned(code[k]) <= DefSites(code).Keys
  {
    MentionedCounts(code[k]);
    hide Mentioned, Uses, Defs, PlainInst;
    forall v | v in Mentioned(code[k]) ensures v in DefSites(code) {
      DefSiteIsLast(code, v);
      if v in Uses(code[k]) { assert DefinedBefore(code, v, k); }
    }
  }

  // Every register that is mentioned is defined somewhere
  lemma PiecesCovered(a: seq<Instruction>, b: seq<Instruction>, alloc: Allocation)
    requires TwoPieces(a, b) && Plain(a + b) && alloc.Keys == DefSites(a + b).Keys
    ensures AllCovered(alloc, a + b)
  {
    hide WindowShape, PlainInst, DefSites, UseSites, Mentioned;
    forall k | 0 <= k < |a + b| ensures Covered(alloc, (a + b)[k]) {
      assert PlainInst((a + b)[k]);
      if k < |a| { MentionedDefined(a, k); } else { MentionedDefined(b, k - |a|); }
      forall v | v in Mentioned((a + b)[k]) ensures v in alloc { DefSiteAppend(a, b, v); }
    }
  }

  lemma ShiftedOverlap(x: LiveInterval, y: LiveInterval, n: nat)
    ensures Overlaps(Shifted(x, n), Shifted(y, n)) == Overlaps(x, y)
  {
  }

  // The second piece is kept apart on its own, and the first one but for redefined registers
  lemma PiecesApart(a: seq<Instruction>, b: seq<Instruction>, alloc: Allocation)
    requires TwoPieces(a, b) && Apart(a + b, alloc)
    ensures Apart(b, alloc) && Apart(a, alloc - DefSites(b).Keys)
  {
    hide TwoPieces, Interval, DefSites, Overlaps;
    forall u, v | u in alloc && v in alloc && u in DefSites(b) && v in DefSites(b) && u != v &&
      Overlaps(Interval(b, u), Interval(b, v))
      ensures alloc[u] != alloc[v]
    {
      SecondInterval(a, b, u);
      SecondInterval(a, b, v);
      ShiftedOverlap(Interval(b, u), Interval(b, v), |a|);
    }
    var alloc' := alloc - DefSites(b).Keys;
    forall u, v | u in alloc' && v in alloc' && u in DefSites(a) && v in DefSites(a) && u != v &&
      Overlaps(Interval(a, u), Interval(a, v))
      ensures alloc'[u] != alloc'[v]
    {
      FirstInterval(a, b, u);
      FirstInterval(a, b, v);
    }
  }

  // Registers that the code does not touch do not matter
  lemma {:induction false} SafeWithMore(code: seq<Instruction>, out: set<nat>, alloc: Allocation, ks: set<nat>)
    requires Safe(code, out, alloc - ks) && out !! ks
    requires forall k :: 0 <= k < |code| ==> Reads(code[k]) !! ks && Defs(code[k]) !! ks
    ensures Safe(code, out, alloc)
  {
    if code != [] {
      var n := |code| - 1;
      hide Reads, Defs;
      SafeWithMore(code[..n], NeededBefore(code[n], out), alloc, ks);
    }
  }

  /** Two pieces are safe together when the first one is safe: the second never needs anything of
      it. */
  lemma PiecesSafe(a: seq<Instruction>, b: seq<Instruction>, alloc: Allocation)
    requires TwoPieces(a, b) && Apart(b, alloc) && Safe(a, {}, alloc)
    ensures Safe(a + b, {}, alloc) && Needed(a + b, {}) == {}
  {
    hide Apart, Safe, Needed, WindowShape, UseSites, DefSites;
    WindowIsSafe(b, alloc);
    NothingNeeded(a);
    SafeAppend(a, b, {}, alloc);
    NeededAppend(a, b, {});
  }
}
