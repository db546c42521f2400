/** Which registers linear scan gives to the targets of a conditional branch and to the values read
    just before it. */
module TargetRegisters {
  import opened Words
  import opened IR
  import opened LivenessSpec
  import opened AllocatorSpec
  import opened SelectorSpec
  import opened SelectorShape
  import opened Pieces
  import opened BranchCode
  import opened BranchReuse
  import A = Arm64

  /* ---- Scanning code ---- */

  // The scan of the intervals of the code gave this allocation
  ghost predicate Scanned(code: seq<A.Instruction>, alloc: Allocation) {
    exists ivs :: AreIntervals(code, ivs) && Scannable(ivs) && Scan(ivs).Some? && Scan(ivs).value.0 == alloc
  }

  // All registers defined before v have had their last use
  ghost predicate Alone(code: seq<A.Instruction>, v: nat) {
    v in DefSites(code) &&
    forall u :: u in DefSites(code) && Interval(code, u).start < Interval(code, v).start ==>
      Interval(code, u).end < Interval(code, v).start
  }

  // All but w have
  ghost predicate AloneWith(code: seq<A.Instruction>, v: nat, w: nat) {
    v in DefSites(code) && w in DefSites(code) &&
    Interval(code, w).start < Interval(code, v).start <= Interval(code, w).end &&
    forall u :: u in DefSites(code) && u != w && Interval(code, u).start < Interval(code, v).start ==>
      Interval(code, u).end < Interval(code, v).start
  }

  lemma AloneInFirst(code: seq<A.Instruction>, v: nat, alloc: Allocation)
    requires Scanned(code, alloc) && Alone(code, v)
    ensures v in alloc && alloc[v] == FIRST
  {
    hide DefSites, Interval, Scan, Scannable;
    var ivs :| AreIntervals(code, ivs) && Scannable(ivs) && Scan(ivs).Some? && Scan(ivs).value.0 == alloc;
    var k :| 0 <= k < |ivs| && ivs[k] == Interval(code, v);
    IntervalNames(code, v);
    AloneGetsFirst(ivs, k);
  }

  lemma NextInSecond(code: seq<A.Instruction>, v: nat, w: nat, alloc: Allocation)
    requires Scanned(code, alloc) && AloneWith(code, v, w) && w in alloc && alloc[w] == FIRST
    ensures v in alloc && alloc[v] == FIRST + 1
  {
    hide DefSites, Interval, Scan, Scannable;
    var ivs :| AreIntervals(code, ivs) && Scannable(ivs) && Scan(ivs).Some? && Scan(ivs).value.0 == alloc;
    var k :| 0 <= k < |ivs| && ivs[k] == Interval(code, v);
    var m :| 0 <= m < |ivs| && ivs[m] == Interval(code, w);
    IntervalNames(code, v);
    IntervalNames(code, w);
    NamesDiffer(code, ivs, m);
    SecondGetsSecond(ivs, m, k);
  }

  lemma NamesDiffer(code: seq<A.Instruction>, ivs: seq<LiveInterval>, m: nat)
    requires AreIntervals(code, ivs) && m < |ivs|
    ensures forall j :: 0 <= j < |ivs| && ivs[j].vreg == ivs[m].vreg ==> j == m
  {
    hide DefSites, Interval;
    forall j | 0 <= j < |ivs| && ivs[j].vreg == ivs[m].vreg ensures j == m {
      assert ivs[j] == ivs[m];
    }
  }

  /* ---- The targets ---- */

  lemma IntervalIs(code: seq<A.Instruction>, v: nat, d: nat, e: nat)
    requires d < |code| && v in Defs(code[d]) && (forall k :: d < k < |code| ==> v !in Defs(code[k])) &&
             IsLastUse(code, v, e)
    ensures v in DefSites(code) && Interval(code, v) == LiveInterval(v, d, e)
  {
    DefSiteIsLast(code, v);
    LastUseUnique(code, v, e);
    hide DefSites, UseSites, Defs, Uses;
  }

  // Constants for the two targets
  ghost predicate Loads(p: seq<A.Instruction>, v: nat) {
    p != [] && forall k :: 0 <= k < |p| ==> Defs(p[k]) == {v} && Uses(p[k]) == {}
  }

  function Exit(t: nat, y: nat, n: nat): seq<A.Instruction> {
    [A.ConditionalSelect(A.CSEL, A.X, A.VReg(t), A.VReg(y), A.VReg(n), A.NE),
     A.TwoOperand(A.MOV, A.X, A.Phys(A.GUEST_STATE), A.VReg(t)), RETURN_INST]
  }

  lemma ExitSites(t: nat, y: nat, n: nat)
    ensures
      var e := Exit(t, y, n);
      && |e| == 3 && Defs(e[0]) == {t} && Defs(e[1]) == {} && Defs(e[2]) == {}
      && Uses(e[0]) == {y, n} && Uses(e[1]) == {t} && Uses(e[2]) == {}
  {
  }

  lemma TargetIntervals(p: seq<A.Instruction>, q: seq<A.Instruction>, y: nat, n: nat, t: nat)
    requires Loads(p, y) && Loads(q, n) && y != n && y != t && n != t
    ensures
      var r, s := p + q + Exit(t, y, n), |p| + |q|;
      && p != [] && q != [] && y in DefSites(r) && n in DefSites(r) && t in DefSites(r)
      && Interval(r, y) == LiveInterval(y, |p| - 1, s)
      && Interval(r, n) == LiveInterval(n, s - 1, s) && Interval(r, t) == LiveInterval(t, s, s + 1)
  {
    var r, s, e := p + q + Exit(t, y, n), |p| + |q|, Exit(t, y, n);
    ExitSites(t, y, n);
    hide Defs, Uses, DefSites, Interval, Exit;
    assert forall k :: 0 <= k < |p| ==> r[k] == p[k];
    assert forall k :: |p| <= k < s ==> r[k] == q[k - |p|];
    assert r[s] == e[0] && r[s + 1] == e[1] && r[s + 2] == e[2];
    IntervalIs(r, y, |p| - 1, s);
    IntervalIs(r, n, s - 1, s);
    IntervalIs(r, t, s, s + 1);
  }

  // The registers of the second piece, and no others, are in use when it starts
  lemma OnlyTargets(a: seq<A.Instruction>, r: seq<A.Instruction>, u: nat)
    requires TwoPieces(a, r) && u in DefSites(a + r)
    ensures
      if u in DefSites(r) then Interval(a + r, u) == Shifted(Interval(r, u), |a|)
      else Interval(a + r, u).end < |a|
  {
    DefSiteAppend(a, r, u);
    if u in DefSites(r) {
      SecondInterval(a, r, u);
    } else {
      FirstInterval(a, r, u);
      IntervalEnd(a, u);
    }
  }

  lemma TargetsScanned(a: seq<A.Instruction>, p: seq<A.Instruction>, q: seq<A.Instruction>, y: nat, n: nat, t: nat,
                       alloc: Allocation)
    requires Loads(p, y) && Loads(q, n) && y != n && y != t && n != t
    requires var r := p + q + Exit(t, y, n); TwoPieces(a, r) && Scanned(a + r, alloc) && DefSites(r).Keys == {y, n, t}
    ensures y in alloc && n in alloc && alloc[y] == FIRST && alloc[n] == FIRST + 1
  {
    hide Scanned, TwoPieces, Interval, DefSites, Exit, Loads;
    var r := p + q + Exit(t, y, n);
    TargetIntervals(p, q, y, n, t);
    OnlyTargetsThere(a, r);
    DefSiteAppend(a, r, y);
    DefSiteAppend(a, r, n);
    assert Alone(a + r, y);
    AloneInFirst(a + r, y, alloc);
    assert AloneWith(a + r, n, y);
    NextInSecond(a + r, n, y, alloc);
  }

  lemma OnlyTargetsThere(a: seq<A.Instruction>, r: seq<A.Instruction>)
    requires TwoPieces(a, r)
    ensures forall u :: u in DefSites(a + r) ==>
              if u in DefSites(r) then Interval(a + r, u) == Shifted(Interval(r, u), |a|)
              else Interval(a + r, u).end < |a|
  {
    hide TwoPieces, Interval, DefSites;
    forall u | u in DefSites(a + r)
      ensures
        if u in DefSites(r) then Interval(a + r, u) == Shifted(Interval(r, u), |a|)
        else Interval(a + r, u).end < |a|
    {
      OnlyTargets(a, r, u);
    }
  }

  /** The taken target always gets X1 and the other one X2: by the time they are loaded everything
      else has had its last use. */
  lemma TargetsGetFirstTwo(a: seq<A.Instruction>, y: nat, n: nat, t: nat, yes: Word, no: Word, alloc: Allocation)
    requires y != n && y != t && n != t
    requires
      var r := Choose(y, n, t, yes, no) + [RETURN_INST];
      TwoPieces(a, r) && Scanned(a + r, alloc) && DefSites(r).Keys == {y, n, t}
    ensures y in alloc && n in alloc && alloc[y] == FIRST && alloc[n] == FIRST + 1
  {
    hide Scanned, TwoPieces, DefSites, ConstInto, Signed;
    var p, q := ConstInto(I64, Signed(yes), A.VReg(y)), ConstInto(I64, Signed(no), A.VReg(n));
    ConstLoads(Signed(yes), y);
    ConstLoads(Signed(no), n);
    assert Choose(y, n, t, yes, no) + [RETURN_INST] == p + q + Exit(t, y, n);
    TargetsScanned(a, p, q, y, n, t, alloc);
  }

  lemma ConstLoads(v: int, d: nat)
    ensures Loads(ConstInto(I64, v, A.VReg(d)), d)
  {
    ConstDefines(I64, v, A.VReg(d));
    hide ConstInto, Defs, Uses;
    var code := ConstInto(I64, v, A.VReg(d));
    assert forall k :: 0 <= k < |code| ==> code[k] in code;
  }

  /* ---- Two values read before the comparison ---- */

  // The end of the first piece: two reads and the comparison
  function TwoReadsCode(i: A.Instruction, j: A.Instruction, x: nat, y: nat, c: nat,
                        cond: A.Condition): seq<A.Instruction> {
    [i, j] + CompareCode(x, y, c, cond)
  }

  ghost predicate ReadsTwo(i: A.Instruction, j: A.Instruction, x: nat, y: nat, c: nat) {
    IsReadOf(i, x) && IsReadOf(j, y) && x != y && c != x && c != y
  }

  lemma TwoReadsSites(i: A.Instruction, j: A.Instruction, x: nat, y: nat, c: nat, cond: A.Condition)
    requires ReadsTwo(i, j, x, y, c)
    ensures
      var e := TwoReadsCode(i, j, x, y, c, cond);
      && |e| == 5 && Uses(e[0]) == {} && Uses(e[1]) == {} && Uses(e[2]) == {x, y} && Uses(e[3]) == {} &&
        Uses(e[4]) == {c}
      && Defs(e[0]) == {x} && Defs(e[1]) == {y} && Defs(e[2]) == {} && Defs(e[3]) == {c} && Defs(e[4]) == {}
  {
  }

  // Where the two values and the comparison's are defined
  lemma TwoReadsStarts(base: seq<A.Instruction>, e: seq<A.Instruction>, x: nat, y: nat, c: nat)
    requires |e| == 5 && x != y && c != x && c != y
    requires Defs(e[0]) == {x} && Defs(e[1]) == {y} && Defs(e[2]) == {} && Defs(e[3]) == {c} && Defs(e[4]) == {}
    ensures
      var a, n := base + e, |base|;
      && x in DefSites(a) && y in DefSites(a) && c in DefSites(a)
      && DefSites(a)[x] == n && DefSites(a)[y] == n + 1 && DefSites(a)[c] == n + 3
  {
    var a, n := base + e, |base|;
    hide Defs, DefSites;
    assert forall k :: n <= k < n + 5 ==> a[k] == e[k - n];
    assert a[n] == e[0] && a[n + 1] == e[1] && a[n + 2] == e[2] && a[n + 3] == e[3] && a[n + 4] == e[4];
    DefSiteIsLast(a, x);
    DefSiteIsLast(a, y);
    DefSiteIsLast(a, c);
  }

  lemma EndsBefore(a: seq<A.Instruction>, u: nat, n: nat)
    requires u in DefSites(a) && DefSites(a)[u] < n && forall k :: n <= k < |a| ==> u !in Uses(a[k])
    ensures Interval(a, u).end < n
  {
    IntervalEnd(a, u);
  }

  // Nothing that is defined before is used from the two reads on, but the values read
  lemma UsedAtEnd(base: seq<A.Instruction>, e: seq<A.Instruction>, x: nat, y: nat, c: nat, u: nat)
    requires |e| == 5 && Uses(e[0]) == {} && Uses(e[1]) == {} && Uses(e[2]) == {x, y} && Uses(e[3]) == {} &&
             Uses(e[4]) == {c}
    requires u in DefSites(base + e) && u != x && u != y && u != c
    ensures forall k :: |base| <= k < |base + e| ==> u !in Uses((base + e)[k])
  {
    hide Uses, DefSites;
    var a, n := base + e, |base|;
    assert a[n] == e[0] && a[n + 1] == e[1] && a[n + 2] == e[2] && a[n + 3] == e[3] && a[n + 4] == e[4];
  }

  lemma ReadsAlone(base: seq<A.Instruction>, i: A.Instruction, j: A.Instruction, x: nat, y: nat, c: nat,
                   cond: A.Condition,
                   r: seq<A.Instruction>)
    requires ReadsTwo(i, j, x, y, c)
    requires TwoPieces(base + TwoReadsCode(i, j, x, y, c, cond), r)
    ensures
      var code := base + TwoReadsCode(i, j, x, y, c, cond) + r;
      && (x !in DefSites(r) ==> Alone(code, x))
      && (x in DefSites(r) && y !in DefSites(r) ==> Alone(code, y))
  {
    var e, n := TwoReadsCode(i, j, x, y, c, cond), |base|;
    var a := base + e;
    TwoReadsSites(i, j, x, y, c, cond);
    assert x != y && c != x && c != y;
    hide Defs, Uses, DefSites, TwoReadsCode, TwoPieces, ReadsTwo, Interval;
    TwoReadsStarts(base, e, x, y, c);
    if x !in DefSites(r) {
      forall u | u in DefSites(a) && u !in DefSites(r) && DefSites(a)[u] < n ensures Interval(a, u).end < n {
        UsedAtEnd(base, e, x, y, c, u);
        EndsBefore(a, u, n);
      }
      AloneAt(a, r, x, n);
    } else if y !in DefSites(r) {
      forall u | u in DefSites(a) && u !in DefSites(r) && DefSites(a)[u] < n + 1 ensures Interval(a, u).end < n + 1 {
        UsedAtEnd(base, e, x, y, c, u);
        EndsBefore(a, u, n + 1);
      }
      AloneAt(a, r, y, n + 1);
    }
  }

  // A register of the first piece is alone when those defined before it there have ended
  lemma AloneAt(a: seq<A.Instruction>, r: seq<A.Instruction>, v: nat, n: nat)
    requires TwoPieces(a, r) && v in DefSites(a) && v !in DefSites(r) && DefSites(a)[v] == n
    requires forall u :: u in DefSites(a) && u !in DefSites(r) && DefSites(a)[u] < n ==> Interval(a, u).end < n
    ensures Alone(a + r, v)
  {
    DefSiteIsLast(a, v);
    hide TwoPieces, DefSites, Uses, Defs;
    FirstInterval(a, r, v);
    forall u | u in DefSites(a + r) && Interval(a + r, u).start < Interval(a + r, v).start
      ensures Interval(a + r, u).end < Interval(a + r, v).start
    {
      DefSiteAppend(a, r, u);
      if u in DefSites(r) { SecondInterval(a, r, u); } else { FirstInterval(a, r, u); }
    }
  }
}
