/** The code the selector emits has the window shape that allocation needs: each register is
    defined once, or in one MOVZ/MOVK run, or in one SUB;ADD pair, before it is used. */
module SelectorShape {
  import opened Words
  import opened IR
  import opened SelectorSpec
  import opened AllocationCorrect
  import opened LivenessSpec
  import A = Arm64
  import Sel = SelectorCorrect

  /* ---- One more instruction ---- */

  // The registers the code defines
  function AllDefs(code: seq<A.Instruction>): set<nat> {
    if code == [] then {} else AllDefs(code[..|code| - 1]) + Defs(code[|code| - 1])
  }

  lemma {:induction false} AllDefsMember(code: seq<A.Instruction>, v: nat)
    ensures v in AllDefs(code) <==> exists k :: 0 <= k < |code| && v in Defs(code[k])
  {
    if code != [] {
      var n := |code| - 1;
      AllDefsMember(code[..n], v);
      assert forall k :: 0 <= k < n ==> code[..n][k] == code[k];
    }
  }

  lemma AllDefsSnoc(code: seq<A.Instruction>, x: A.Instruction)
    ensures AllDefs(code + [x]) == AllDefs(code) + Defs(x)
  {
    assert (code + [x])[..|code|] == code;
  }

  // x uses defined registers only and defines, if anything, a new one
  ghost predicate Opens(code: seq<A.Instruction>, x: A.Instruction) {
    Uses(x) <= AllDefs(code) && Defs(x) !! AllDefs(code) && (ReadsDest(x) ==> Defs(x) == {})
  }

  // x redefines v, which the last instruction defines and nothing uses yet
  ghost predicate Continues(code: seq<A.Instruction>, x: A.Instruction, v: nat) {
    var n := |code|;
    && n > 0 && Defs(x) == {v} && v in Defs(code[n - 1]) && Uses(x) <= AllDefs(code)
    && (forall k :: 0 <= k < n ==> v !in Uses(code[k]))
    && (Uses(code[n - 1]) == {} || n < 2 || v !in Defs(code[n - 2]))
  }

  /* Appending x keeps each part of the shape */

  ghost predicate AtWindowEnd(code: seq<A.Instruction>, v: nat) {
    (exists i :: 0 <= i < |code| && v in Defs(code[i])) ==> v in Defs(code[|code| - 1])
  }

  lemma WindowSnoc(code: seq<A.Instruction>, x: A.Instruction)
    requires OneWindow(code) && forall v :: v in Defs(x) ==> AtWindowEnd(code, v)
    ensures OneWindow(code + [x])
  {
    hide Defs;
    var all := code + [x];
    forall i, k, j, v | 0 <= i <= k <= j < |all| && v in Defs(all[i]) && v in Defs(all[j]) ensures v in Defs(all[k]) {
      if j == |code| && k < j {
        assert v in Defs(code[i]) && AtWindowEnd(code, v);
        assert v in Defs(code[|code| - 1]);
      }
    }
  }

  lemma QuietSnoc(code: seq<A.Instruction>, x: A.Instruction)
    requires OneWindow(code) && QuietWindow(code) && forall v :: v in Defs(x) ==> AtWindowEnd(code, v)
    requires forall v :: v in Defs(x) && |code| >= 2 && v in Defs(code[|code| - 2]) ==> Uses(code[|code| - 1]) == {}
    ensures QuietWindow(code + [x])
  {
    hide Defs, Uses;
    var all := code + [x];
    forall i, k, j, v | 0 <= i < k < j < |all| && v in Defs(all[i]) && v in Defs(all[j]) ensures Uses(all[k]) == {} {
      if j == |code| {
        assert v in Defs(code[i]) && AtWindowEnd(code, v);
        assert v in Defs(code[|code| - 1]);
        if k == |code| - 1 { assert v in Defs(code[|code| - 2]); }
      }
    }
  }

  lemma UsesSnoc(code: seq<A.Instruction>, x: A.Instruction)
    requires DefsThenUses(code)
    requires forall v, k :: v in Defs(x) && 0 <= k < |code| ==> v !in Uses(code[k])
    requires forall v :: v in Uses(x) ==> DefinedBefore(code, v, |code|)
    ensures DefsThenUses(code + [x])
  {
    hide Defs, Uses;
    var all := code + [x];
    forall j, v | 0 <= j < |all| && v in Uses(all[j])
      ensures DefinedBefore(all, v, j) && forall k :: j < k < |all| ==> v !in Defs(all[k])
    {
      assert DefinedBefore(code, v, j);
      var d :| 0 <= d < j && d < |code| && v in Defs(code[d]);
      assert v in Defs(all[d]);
    }
  }

  lemma KeepsSnoc(code: seq<A.Instruction>, x: A.Instruction)
    requires KeepsInWindow(code)
    requires forall v :: v in Defs(x) && ReadsDest(x) ==> |code| > 0 && v in Defs(code[|code| - 1])
    ensures KeepsInWindow(code + [x])
  {
    hide Defs, ReadsDest;
  }

  lemma UsedAreDefined(code: seq<A.Instruction>, v: nat)
    requires DefsThenUses(code) && v !in AllDefs(code)
    ensures forall k :: 0 <= k < |code| ==> v !in Uses(code[k])
  {
    AllDefsMember(code, v);
  }

  lemma OpenShape(code: seq<A.Instruction>, x: A.Instruction)
    requires WindowShape(code) && Opens(code, x)
    ensures WindowShape(code + [x]) && AllDefs(code + [x]) == AllDefs(code) + Defs(x)
  {
    AllDefsSnoc(code, x);
    hide Uses, Defs, AllDefs, OneWindow, QuietWindow, KeepsInWindow, ReadsDest;
    forall v | v in Defs(x) ensures !exists i :: 0 <= i < |code| && v in Defs(code[i]) { AllDefsMember(code, v); }
    forall v, k | v in Defs(x) && 0 <= k < |code| ensures v !in Uses(code[k]) { UsedAreDefined(code, v); }
    forall v | v in Uses(x) ensures DefinedBefore(code, v, |code|) { AllDefsMember(code, v); }
    WindowSnoc(code, x);
    QuietSnoc(code, x);
    UsesSnoc(code, x);
    KeepsSnoc(code, x);
  }

  lemma ContinueShape(code: seq<A.Instruction>, x: A.Instruction, v: nat)
    requires WindowShape(code) && Continues(code, x, v)
    ensures WindowShape(code + [x]) && AllDefs(code + [x]) == AllDefs(code)
  {
    AllDefsSnoc(code, x);
    AllDefsMember(code, v);
    hide Uses, Defs, AllDefs, OneWindow, QuietWindow, KeepsInWindow, ReadsDest, DefsThenUses;
    forall u | u in Uses(x) ensures DefinedBefore(code, u, |code|) { AllDefsMember(code, u); }
    WindowSnoc(code, x);
    QuietSnoc(code, x);
    UsesSnoc(code, x);
    KeepsSnoc(code, x);
  }

  /* ---- Chunks of code ---- */

  // more, appended to code of the window shape, defines exactly the new registers ds
  ghost predicate Grown(code: seq<A.Instruction>, more: seq<A.Instruction>, ds: set<nat>) {
    WindowShape(code + more) && AllDefs(code + more) == AllDefs(code) + ds
  }

  lemma GrowOne(code: seq<A.Instruction>, x: A.Instruction)
    requires WindowShape(code) && Opens(code, x)
    ensures Grown(code, [x], Defs(x))
  {
    OpenShape(code, x);
  }

  lemma GrowMore(code: seq<A.Instruction>, a: seq<A.Instruction>, ds: set<nat>, b: seq<A.Instruction>, es: set<nat>)
    requires Grown(code, a, ds) && Grown(code + a, b, es)
    ensures Grown(code, a + b, ds + es)
  {
    hide WindowShape, AllDefs;
    assert code + (a + b) == (code + a) + b;
  }

  // The last instruction defines v, which nothing uses, and uses nothing itself
  ghost predicate Running(code: seq<A.Instruction>, v: nat) {
    var n := |code|;
    n > 0 && v in Defs(code[n - 1]) && Uses(code[n - 1]) == {} && forall k :: 0 <= k < n ==> v !in Uses(code[k])
  }

  lemma {:induction false} ChunksShape(code: seq<A.Instruction>, value: Word, size: A.DataSize, v: nat, shift: nat,
                                       first: bool)
    requires WindowShape(code) && if first then v !in AllDefs(code) else Running(code, v)
    ensures Grown(code, MoveChunks(value, size, A.VReg(v), shift, first), {v})
    decreases 64 - shift
  {
    hide WindowShape, AllDefs, Running, A.Chunk;
    if shift >= 64 && !first {
      RunningIsGrown(code, v);
    } else if shift >= 64 {
      ChunkStarts(code, A.MoveWide(A.MOVZ, size, A.VReg(v), 0, 0), v, true);
    } else if A.Chunk(value, shift) == 0 {
      ChunksShape(code, value, size, v, shift + 16, first);
    } else {
      var x := A.MoveWide(if first then A.MOVZ else A.MOVK, size, A.VReg(v), A.Chunk(value, shift), shift);
      ChunkStarts(code, x, v, first);
      ChunksShape(code + [x], value, size, v, shift + 16, false);
      GrowMore(code, [x], {v}, MoveChunks(value, size, A.VReg(v), shift + 16, false), {v});
    }
  }

  lemma RunningIsGrown(code: seq<A.Instruction>, v: nat)
    requires WindowShape(code) && Running(code, v)
    ensures Grown(code, [], {v})
  {
    AllDefsMember(code, v);
    hide WindowShape, AllDefs;
    assert code + [] == code;
  }

  lemma ChunkStarts(code: seq<A.Instruction>, x: A.Instruction, v: nat, first: bool)
    requires WindowShape(code) && if first then v !in AllDefs(code) else Running(code, v)
    requires x.MoveWide? && x.dest == A.VReg(v) && x.op == if first then A.MOVZ else A.MOVK
    ensures Grown(code, [x], {v}) && Running(code + [x], v)
  {
    if first { FirstChunk(code, x, v); } else { NextChunk(code, x, v); }
    hide WindowShape, AllDefs, Running, Grown;
  }

  lemma FirstChunk(code: seq<A.Instruction>, x: A.Instruction, v: nat)
    requires WindowShape(code) && v !in AllDefs(code) && x.MoveWide? && x.dest == A.VReg(v) && x.op.MOVZ?
    ensures Grown(code, [x], {v}) && Running(code + [x], v)
  {
    UsedAreDefined(code, v);
    GrowOne(code, x);
    hide WindowShape, AllDefs;
  }

  lemma NextChunk(code: seq<A.Instruction>, x: A.Instruction, v: nat)
    requires WindowShape(code) && Running(code, v) && x.MoveWide? && x.dest == A.VReg(v) && x.op.MOVK?
    ensures Grown(code, [x], {v}) && Running(code + [x], v)
  {
    hide WindowShape, AllDefs;
    AllDefsMember(code, v);
    ChunkContinues(code, x, v);
    ContinueShape(code, x, v);
  }

  lemma ChunkContinues(code: seq<A.Instruction>, x: A.Instruction, v: nat)
    requires Running(code, v) && x.MoveWide? && x.dest == A.VReg(v) && x.op.MOVK?
    ensures Continues(code, x, v)
  {
    hide AllDefs;
  }

  lemma ConstShape(code: seq<A.Instruction>, ty: Type, value: int, v: nat)
    requires WindowShape(code) && v !in AllDefs(code)
    ensures Grown(code, ConstInto(ty, value, A.VReg(v)), {v})
  {
    hide WindowShape, Grown, MoveChunks, ToWord;
    if -0x1_0000 <= value < 0 {
      GrowOne(code, A.TwoOperand(A.MOVN, SizeOf(ty), A.VReg(v), A.Imm(-value - 1)));
    } else if 0 <= value <= 0xFFFF {
      GrowOne(code, A.TwoOperand(A.MOV, SizeOf(ty), A.VReg(v), A.Imm(value)));
    } else {
      ChunksShape(code, ToWord(value), SizeOf(ty), v, 0, true);
    }
  }

  // The registers of an address translation
  function AddressRegs(n: nat): set<nat> { {n, n + 1, n + 2} }

  lemma TranslateShape(code: seq<A.Instruction>, n: nat, guest: nat)
    requires WindowShape(code) && guest in AllDefs(code)
    requires n !in AllDefs(code) && n + 1 !in AllDefs(code) && n + 2 !in AllDefs(code)
    ensures Grown(code, LoadBasesCode(n) + ConvertCode(n, guest), AddressRegs(n))
  {
    hide WindowShape, AllDefs, ConvertCode;
    var i1, i2 := LoadBasesCode(n)[0], LoadBasesCode(n)[1];
    GrowOne(code, i1);
    GrowOne(code + [i1], i2);
    GrowMore(code, [i1], {n + 1}, [i2], {n + 2});
    assert LoadBasesCode(n) == [i1] + [i2];
    PairShape(code + LoadBasesCode(n), n, guest);
    GrowMore(code, LoadBasesCode(n), {n + 1, n + 2}, ConvertCode(n, guest), {n});
  }

  // SUB opens the window of n and ADD continues it
  lemma PairShape(code: seq<A.Instruction>, n: nat, guest: nat)
    requires WindowShape(code) && n !in AllDefs(code) && {guest, n + 1, n + 2} <= AllDefs(code)
    requires code != [] && Defs(code[|code| - 1]) == {n + 2}
    ensures Grown(code, ConvertCode(n, guest), {n})
  {
    var sub, add := ConvertCode(n, guest)[0], ConvertCode(n, guest)[1];
    SubOpens(code, n, guest);
    AddContinues(code, sub, add, n, guest);
    assert ConvertCode(n, guest) == [sub, add];
    hide WindowShape, AllDefs, Continues, Uses, Defs, ConvertCode;
    ContinueShape(code + [sub], add, n);
    AppendPair(code, sub, add);
  }

  lemma AppendPair(code: seq<A.Instruction>, x: A.Instruction, y: A.Instruction)
    ensures code + [x, y] == (code + [x]) + [y]
  {
  }

  lemma SubOpens(code: seq<A.Instruction>, n: nat, guest: nat)
    requires WindowShape(code) && n !in AllDefs(code) && {guest, n + 1} <= AllDefs(code)
    ensures
      var sub := ConvertCode(n, guest)[0];
      WindowShape(code + [sub]) && AllDefs(code + [sub]) == AllDefs(code) + {n}
  {
    hide WindowShape, AllDefs;
    OpenShape(code, ConvertCode(n, guest)[0]);
  }

  lemma AddContinues(code: seq<A.Instruction>, sub: A.Instruction, add: A.Instruction, n: nat, guest: nat)
    requires WindowShape(code) && n !in AllDefs(code) && {guest, n + 1, n + 2} <= AllDefs(code)
    requires code != [] && Defs(code[|code| - 1]) == {n + 2}
    requires sub == ConvertCode(n, guest)[0] && add == ConvertCode(n, guest)[1]
    ensures Continues(code + [sub], add, n)
  {
    UsedAreDefined(code, n);
    AllDefsSnoc(code, sub);
    hide WindowShape, AllDefs;
    var all := code + [sub];
    assert all[|all| - 1] == sub && all[|all| - 2] == code[|code| - 1];
    assert Uses(sub) == {guest, n + 1} && Defs(sub) == {n} && Uses(add) == {n, n + 2} && Defs(add) == {n};
    forall k | 0 <= k < |all| ensures n !in Uses(all[k]) {
      assert k < |code| ==> all[k] == code[k];
    }
  }

  /* ---- Selected instructions ---- */

  // The code so far has the shape, and every value's register is defined in it
  ghost predicate Static(st: SState, code: seq<A.Instruction>) {
    && WindowShape(code)
    && Sel.WellNumbered(st)
    && (forall id :: id in st.vregs ==> st.vregs[id] in AllDefs(code))
    && (forall v :: v in AllDefs(code) ==> v < st.next)
  }

  lemma StaticDefine(st: SState, st': SState, code: seq<A.Instruction>, more: seq<A.Instruction>, id: ValueId,
                     ds: set<nat>)
    requires Static(st, code) && Grown(code, more, ds) && id !in st.vregs
    requires st'.vregs == st.vregs[id := st.next] && st'.next > st.next
    requires st.next in ds && forall v :: v in ds ==> v < st'.next
    ensures Static(st', code + more)
  {
    hide WindowShape, AllDefs;
  }

  lemma StaticEffect(st: SState, st': SState, code: seq<A.Instruction>, more: seq<A.Instruction>, ds: set<nat>)
    requires Static(st, code) && Grown(code, more, ds) && st'.vregs == st.vregs && st'.next >= st.next
    requires forall v :: v in ds ==> v < st'.next
    ensures Static(st', code + more)
  {
    hide WindowShape, AllDefs;
  }

  lemma StaticFacts(st: SState, code: seq<A.Instruction>)
    requires Static(st, code)
    ensures WindowShape(code)
    ensures forall id :: id in st.vregs ==> st.vregs[id] in AllDefs(code) && st.vregs[id] < st.next
    ensures forall v :: v >= st.next ==> v !in AllDefs(code)
  {
    hide WindowShape, AllDefs;
  }

  // One instruction that defines the next register from defined ones
  lemma SimpleShape(st: SState, st': SState, code: seq<A.Instruction>, id: ValueId, x: A.Instruction)
    requires Static(st, code) && id !in st.vregs
    requires st'.vregs == st.vregs[id := st.next] && st'.next == st.next + 1
    requires Defs(x) == {st.next} && Uses(x) <= AllDefs(code) && !ReadsDest(x)
    ensures Static(st', code + [x])
  {
    StaticFacts(st, code);
    hide Static, WindowShape, AllDefs, Uses, Defs, Grown;
    GrowOne(code, x);
    StaticDefine(st, st', code, [x], id, {st.next});
  }

  lemma GrownFacts(code: seq<A.Instruction>, more: seq<A.Instruction>, ds: set<nat>)
    requires Grown(code, more, ds)
    ensures WindowShape(code + more) && AllDefs(code + more) == AllDefs(code) + ds
  {
  }

  // CMP and CSET
  lemma ComparisonShape(st: SState, st': SState, code: seq<A.Instruction>, id: ValueId, cmp: A.Instruction,
                        cset: A.Instruction)
    requires Static(st, code) && id !in st.vregs
    requires st'.vregs == st.vregs[id := st.next] && st'.next == st.next + 1
    requires Defs(cmp) == {} && Uses(cmp) <= AllDefs(code) && Defs(cset) == {st.next} && Uses(cset) == {}
    requires !ReadsDest(cmp) && !ReadsDest(cset)
    ensures Static(st', code + [cmp, cset])
  {
    hide Static, WindowShape, AllDefs, Uses, Defs, Grown, Opens;
    StaticFacts(st, code);
    OpensNothing(code, cmp);
    GrowOne(code, cmp);
    GrownFacts(code, [cmp], {});
    OpensOne(code + [cmp], cset, st.next);
    GrowOne(code + [cmp], cset);
    GrowMore(code, [cmp], {}, [cset], {st.next});
    assert [cmp, cset] == [cmp] + [cset];
    StaticDefine(st, st', code, [cmp, cset], id, {} + {st.next});
  }

  lemma OpensNothing(code: seq<A.Instruction>, x: A.Instruction)
    requires Defs(x) == {} && Uses(x) <= AllDefs(code)
    ensures Opens(code, x)
  {
    hide Uses, Defs, AllDefs;
  }

  lemma OpensOne(code: seq<A.Instruction>, x: A.Instruction, v: nat)
    requires Defs(x) == {v} && Uses(x) == {} && v !in AllDefs(code) && !ReadsDest(x)
    ensures Opens(code, x)
  {
    hide Uses, Defs, AllDefs;
  }

  lemma BinaryShape(st: SState, code: seq<A.Instruction>, id: ValueId, op: BinaryOpcode, ty: Type, x: ValueId,
                    y: ValueId)
    requires Static(st, code) && id !in st.vregs && SelectBinary(st, id, op, ty, x, y).Some?
    requires x in st.vregs && y in st.vregs
    ensures var (st', more) := SelectBinary(st, id, op, ty, x, y).value; Static(st', code + more)
  {
    StaticFacts(st, code);
    hide Static, WindowShape, AllDefs, OpcodeOf, SizeOf, ConditionOf, IsComparison;
    var (st', more) := SelectBinary(st, id, op, ty, x, y).value;
    if IsComparison(op) {
      ComparisonShape(st, st', code, id, more[0], more[1]);
    } else {
      SimpleShape(st, st', code, id, more[0]);
    }
  }

  // The translation sequence and the load or store that uses its result
  lemma AccessShape(code: seq<A.Instruction>, n: nat, guest: nat, op: A.Opcode, size: A.DataSize, v: nat)
    requires WindowShape(code) && guest in AllDefs(code)
    requires n !in AllDefs(code) && n + 1 !in AllDefs(code) && n + 2 !in AllDefs(code)
    requires if op.LDR? then v !in AllDefs(code) && v < n else op.STR? && v in AllDefs(code)
    ensures
      var access := A.MemoryInst(op, size, A.VReg(v), A.VReg(n), 0);
      Grown(code, LoadBasesCode(n) + ConvertCode(n, guest) + [access], AddressRegs(n) + (if op.LDR? then {v} else {}))
  {
    var access := A.MemoryInst(op, size, A.VReg(v), A.VReg(n), 0);
    var translate := LoadBasesCode(n) + ConvertCode(n, guest);
    hide WindowShape, AllDefs, Grown, LoadBasesCode, ConvertCode;
    TranslateShape(code, n, guest);
    GrownFacts(code, translate, AddressRegs(n));
    GrowOne(code + translate, access);
    GrowMore(code, translate, AddressRegs(n), [access], Defs(access));
  }

  lemma LoadForm(st: SState, id: ValueId, ty: Type, addr: ValueId)
    requires id !in st.vregs && addr in st.vregs && SelectLoad(st, id, ty, addr).Some?
    ensures
      var (st', more) := SelectLoad(st, id, ty, addr).value;
      var ldr := A.MemoryInst(A.LDR, SizeOf(ty), A.VReg(st.next), A.VReg(st.next + 1), 0);
      && more == LoadBasesCode(st.next + 1) + ConvertCode(st.next + 1, st.vregs[addr]) + [ldr]
      && st'.vregs == st.vregs[id := st.next] && st'.next == st.next + 4
  {
    hide LoadBasesCode, ConvertCode, SizeOf;
  }

  lemma LoadGrown(st: SState, code: seq<A.Instruction>, id: ValueId, ty: Type, addr: ValueId)
    requires Static(st, code) && id !in st.vregs && addr in st.vregs && SelectLoad(st, id, ty, addr).Some?
    ensures Grown(code, SelectLoad(st, id, ty, addr).value.1, AddressRegs(st.next + 1) + {st.next})
  {
    StaticFacts(st, code);
    LoadForm(st, id, ty, addr);
    hide Static, WindowShape, AllDefs, Grown, SizeOf, LoadBasesCode, ConvertCode, SelectLoad, Defs, Uses;
    var more := SelectLoad(st, id, ty, addr).value.1;
    var n: nat := st.next + 1;
    var ldr := A.MemoryInst(A.LDR, SizeOf(ty), A.VReg(st.next), A.VReg(n), 0);
    assert more == LoadBasesCode(n) + ConvertCode(n, st.vregs[addr]) + [ldr];
    AccessShape(code, n, st.vregs[addr], A.LDR, SizeOf(ty), st.next);
    assert Grown(code, LoadBasesCode(n) + ConvertCode(n, st.vregs[addr]) + [ldr], AddressRegs(n) + {st.next});
  }

  lemma LoadShape(st: SState, code: seq<A.Instruction>, id: ValueId, ty: Type, addr: ValueId)
    requires Static(st, code) && id !in st.vregs && addr in st.vregs && SelectLoad(st, id, ty, addr).Some?
    ensures var (st', more) := SelectLoad(st, id, ty, addr).value; Static(st', code + more)
  {
    LoadForm(st, id, ty, addr);
    LoadGrown(st, code, id, ty, addr);
    hide Static, WindowShape, AllDefs, Grown, SelectLoad;
    var (st', more) := SelectLoad(st, id, ty, addr).value;
    StaticDefine(st, st', code, more, id, AddressRegs(st.next + 1) + {st.next});
  }

  lemma StoreForm(st: SState, x: ValueId, addr: ValueId)
    requires SelectStore(st, x, addr).Some?
    ensures
      var (st', more) := SelectStore(st, x, addr).value;
      && x in st.vregs && addr in st.vregs
      && more == LoadBasesCode(st.next) + ConvertCode(st.next, st.vregs[addr])
                 + [A.MemoryInst(A.STR, SizeOf(ValueType(st, x)), A.VReg(st.vregs[x]), A.VReg(st.next), 0)]
      && st'.vregs == st.vregs && st'.next == st.next + 3
  {
    hide LoadBasesCode, ConvertCode, SizeOf, ValueType;
  }

  lemma StoreGrown(st: SState, code: seq<A.Instruction>, x: ValueId, addr: ValueId)
    requires Static(st, code) && SelectStore(st, x, addr).Some?
    ensures Grown(code, SelectStore(st, x, addr).value.1, AddressRegs(st.next) + {})
  {
    StaticFacts(st, code);
    StoreForm(st, x, addr);
    hide Static, WindowShape, AllDefs, Grown, SizeOf, LoadBasesCode, ConvertCode, ValueType, SelectStore, Defs, Uses;
    var more := SelectStore(st, x, addr).value.1;
    var n, size := st.next, SizeOf(ValueType(st, x));
    var str := A.MemoryInst(A.STR, size, A.VReg(st.vregs[x]), A.VReg(n), 0);
    assert more == LoadBasesCode(n) + ConvertCode(n, st.vregs[addr]) + [str];
    AccessShape(code, n, st.vregs[addr], A.STR, size, st.vregs[x]);
    assert Grown(code, LoadBasesCode(n) + ConvertCode(n, st.vregs[addr]) + [str], AddressRegs(n) + {});
  }

  lemma StoreShape(st: SState, code: seq<A.Instruction>, x: ValueId, addr: ValueId)
    requires Static(st, code) && SelectStore(st, x, addr).Some?
    ensures var (st', more) := SelectStore(st, x, addr).value; Static(st', code + more)
  {
    StoreForm(st, x, addr);
    StoreGrown(st, code, x, addr);
    hide Static, WindowShape, AllDefs, Grown, SelectStore;
    var (st', more) := SelectStore(st, x, addr).value;
    StaticEffect(st, st', code, more, AddressRegs(st.next) + {});
  }

  lemma ConversionShape(st: SState, code: seq<A.Instruction>, id: ValueId, to: Type, x: ValueId, op: A.Opcode)
    requires Static(st, code) && id !in st.vregs && x in st.vregs && !op.CMP?
    ensures
      var st' := Assign(Record(st, id, to), id).0;
      Static(st', code + [A.TwoOperand(op, SizeOf(to), A.VReg(st.next), A.VReg(st.vregs[x]))])
  {
    StaticFacts(st, code);
    hide Static, WindowShape, AllDefs, SizeOf;
    SimpleShape(st, Assign(Record(st, id, to), id).0, code, id,
      A.TwoOperand(op, SizeOf(to), A.VReg(st.next), A.VReg(st.vregs[x])));
  }

  lemma ConstantShape(st: SState, code: seq<A.Instruction>, id: ValueId, ty: Type, v: int)
    requires Static(st, code) && id !in st.vregs
    ensures var (st', more) := SelectConst(st, id, ty, v); Static(st', code + more)
  {
    StaticFacts(st, code);
    hide Static, WindowShape, AllDefs, SizeOf, ConstInto;
    ConstShape(code, ty, v, st.next);
    StaticDefine(st, SelectConst(st, id, ty, v).0, code, SelectConst(st, id, ty, v).1, id, {st.next});
  }

  lemma RegReadShape(st: SState, code: seq<A.Instruction>, id: ValueId, r: nat)
    requires Static(st, code) && id !in st.vregs
    ensures var (st', more) := SelectRegRead(st, id, r); Static(st', code + more)
  {
    hide Static, WindowShape, AllDefs;
    SimpleShape(st, SelectRegRead(st, id, r).0, code, id, SelectRegRead(st, id, r).1[0]);
  }

  lemma RegWriteShape(st: SState, code: seq<A.Instruction>, r: nat, x: ValueId)
    requires Static(st, code) && SelectRegWrite(st, r, x).Some?
    ensures var (st', more) := SelectRegWrite(st, r, x).value; Static(st', code + more)
  {
    StaticFacts(st, code);
    hide Static, WindowShape, AllDefs;
    var w := SelectRegWrite(st, r, x).value.1;
    GrowOne(code, w[0]);
    StaticEffect(st, st, code, w, {});
  }

  lemma InstructionShape(st: SState, code: seq<A.Instruction>, i: Inst)
    requires Static(st, code) && i.id !in st.vregs && SelectInstruction(st, i).Some?
    requires forall id :: id in Operands(i.kind) ==> id != i.id
    ensures var (st', more) := SelectInstruction(st, i).value; Static(st', code + more)
  {
    hide Static, SelectBinary, SelectLoad, SelectStore, SelectConst, SelectRegRead, SelectRegWrite, SelectSext,
      SelectZext, SelectTrunc, SizeOf, SextOpcode, ZextOpcode;
    OperandsKnown(st, i);
    match i.kind
    case Const(ty, v) => ConstantShape(st, code, i.id, ty, v);
    case BinaryOp(op, ty, x, y) => BinaryShape(st, code, i.id, op, ty, x, y);
    case Sext(to, x) => ExtensionShape(st, code, i.id, to, x);
    case Zext(to, x) => ExtensionShape(st, code, i.id, to, x);
    case Trunc(to, x) => ExtensionShape(st, code, i.id, to, x);
    case LoadFrom(ty, addr) => LoadShape(st, code, i.id, ty, addr);
    case StoreTo(x, addr) => StoreShape(st, code, x, addr);
    case RegRead(r) => RegReadShape(st, code, i.id, r);
    case RegWrite(r, x) => RegWriteShape(st, code, r, x);
  }

  lemma ExtensionShape(st: SState, code: seq<A.Instruction>, id: ValueId, to: Type, x: ValueId)
    requires Static(st, code) && id !in st.vregs && x in st.vregs && id != x
    ensures
      var r := SelectSext(st, id, to, x);
      r.Some? && Static(r.value.0, code + r.value.1)
    ensures
      var r := SelectZext(st, id, to, x);
      r.Some? && Static(r.value.0, code + r.value.1)
    ensures
      var r := SelectTrunc(st, id, to, x);
      r.Some? && Static(r.value.0, code + r.value.1)
  {
    hide Static, SizeOf, SextOpcode, ZextOpcode;
    ExtensionsNotCompare(ValueType(st, x));
    ConversionShape(st, code, id, to, x, SextOpcode(ValueType(st, x)));
    ConversionShape(st, code, id, to, x, ZextOpcode(ValueType(st, x)));
    ConversionShape(st, code, id, to, x, A.MOV);
  }

  lemma ExtensionsNotCompare(ty: Type)
    ensures !SextOpcode(ty).CMP? && !ZextOpcode(ty).CMP?
  {
  }

  function Operands(k: InstructionKind): set<ValueId> {
    match k
    case Const(_, _) => {}
    case BinaryOp(_, _, x, y) => {x, y}
    case Sext(_, x) => {x}
    case Zext(_, x) => {x}
    case Trunc(_, x) => {x}
    case LoadFrom(_, a) => {a}
    case StoreTo(x, a) => {x, a}
    case RegRead(_) => {}
    case RegWrite(_, x) => {x}
  }

  // Selection succeeded, so the operands have registers
  lemma OperandsKnown(st: SState, i: Inst)
    requires SelectInstruction(st, i).Some? && forall id :: id in Operands(i.kind) ==> id != i.id
    ensures forall id :: id in Operands(i.kind) ==> id in st.vregs
  {
    hide SizeOf, SextOpcode, ZextOpcode, ConstInto, LoadBasesCode, ConvertCode, ConditionOf, OpcodeOf;
  }

  /* ---- Whole blocks ---- */

  // Operands are defined by earlier instructions
  ghost predicate OperandsEarlier(insts: seq<Inst>) {
    forall k, id :: 0 <= k < |insts| && id in Operands(insts[k].kind) ==> id < insts[k].id
  }

  lemma {:induction false} AllShape(insts: seq<Inst>)
    requires Ordered(insts) && OperandsEarlier(insts) && SelectAll(INITIAL, insts).Some?
    ensures var (st, code) := SelectAll(INITIAL, insts).value; Static(st, code)
  {
    if insts != [] {
      var n := |insts| - 1;
      AllShape(insts[..n]);
      var (st, code) := SelectAll(INITIAL, insts[..n]).value;
      Sel.RegistersOfCode(INITIAL, insts[..n]);
      hide Static, SelectInstruction, Operands;
      assert insts[n].id !in st.vregs;
      InstructionShape(st, code, insts[n]);
    }
  }

  /* ---- The exit ---- */

  // Instructions without virtual registers
  predicate Silent(more: seq<A.Instruction>) {
    forall k :: 0 <= k < |more| ==> Uses(more[k]) == {} && Defs(more[k]) == {}
  }

  lemma {:induction false} SilentShape(code: seq<A.Instruction>, more: seq<A.Instruction>)
    requires WindowShape(code) && Silent(more)
    ensures Grown(code, more, {})
    decreases |more|
  {
    hide WindowShape, AllDefs, Uses, Defs;
    if more == [] {
      assert code + [] == code;
    } else {
      var n := |more| - 1;
      SilentShape(code, more[..n]);
      GrownFacts(code, more[..n], {});
      SilentOne(code + more[..n], more[n]);
      GrowMore(code, more[..n], {}, [more[n]], {});
      assert more == more[..n] + [more[n]];
    }
  }

  lemma SilentOne(code: seq<A.Instruction>, x: A.Instruction)
    requires WindowShape(code) && Uses(x) == {} && Defs(x) == {}
    ensures Grown(code, [x], {})
  {
    hide WindowShape, AllDefs, Uses, Defs;
    GrowOne(code, x);
  }

  // Every instruction of a constant defines its target and uses nothing
  lemma {:induction false} ChunksDefine(value: Word, size: A.DataSize, target: A.Operand, shift: nat, first: bool)
    ensures first ==> MoveChunks(value, size, target, shift, first) != []
    ensures forall x :: x in MoveChunks(value, size, target, shift, first) ==> Defs(x) == VRegs(target) && Uses(x) == {}
    decreases 64 - shift
  {
    if shift < 64 {
      ChunksDefine(value, size, target, shift + 16, first);
      ChunksDefine(value, size, target, shift + 16, false);
    }
  }

  lemma ConstDefines(ty: Type, value: int, target: A.Operand)
    ensures ConstInto(ty, value, target) != []
    ensures forall x :: x in ConstInto(ty, value, target) ==> Defs(x) == VRegs(target) && Uses(x) == {}
  {
    ChunksDefine(ToWord(value), SizeOf(ty), target, 0, true);
    hide ToWord, SizeOf, MoveChunks;
  }

  // The two value ids a conditional branch takes from the register counter are new
  predicate FreshTargets(st: SState, t: Terminator) {
    t.CondBranch? ==> st.next !in st.vregs && st.next + 2 !in st.vregs
  }

  lemma TargetForm(st: SState, target: Word)
    requires st.next !in st.vregs
    ensures
      SelectTarget(st, target) ==
      (SState(st.next + 2, st.vregs[st.next := st.next + 1], st.types),
       ConstInto(I64, Signed(target), A.VReg(st.next + 1)), st.next + 1)
  {
    hide ConstInto;
  }

  // A branch-target constant under a new id
  lemma TargetShape(st: SState, code: seq<A.Instruction>, target: Word)
    requires Static(st, code) && st.next !in st.vregs
    ensures var (st1, more, d) := SelectTarget(st, target); Static(st1, code + more) && d in AllDefs(code + more)
  {
    StaticFacts(st, code);
    TargetForm(st, target);
    hide Static, WindowShape, AllDefs, ConstInto, SelectTarget, Signed;
    var more := ConstInto(I64, Signed(target), A.VReg(st.next + 1));
    ConstShape(code, I64, Signed(target), st.next + 1);
    GrownFacts(code, more, {st.next + 1});
    TargetStatic(st, code, more);
  }

  lemma TargetStatic(st: SState, code: seq<A.Instruction>, more: seq<A.Instruction>)
    requires Static(st, code) && Grown(code, more, {st.next + 1}) && st.next !in st.vregs
    ensures Static(SState(st.next + 2, st.vregs[st.next := st.next + 1], st.types), code + more)
  {
    hide WindowShape, AllDefs;
  }

  // CMP and the two target constants
  lemma TargetsShape(st: SState, code: seq<A.Instruction>, c: nat, yes: Word, no: Word)
    requires Static(st, code) && c in AllDefs(code) && st.next !in st.vregs && st.next + 2 !in st.vregs
    ensures
      var cmp := A.TwoOperand(A.CMP, A.X, A.VReg(c), A.Imm(0));
      var (st1, yesCode, y) := SelectTarget(st, yes);
      var (st2, noCode, n) := SelectTarget(st1, no);
      var all := code + [cmp] + yesCode + noCode;
      Static(st2, all) && y in AllDefs(all) && n in AllDefs(all)
  {
    var cmp := A.TwoOperand(A.CMP, A.X, A.VReg(c), A.Imm(0));
    StaticFacts(st, code);
    hide Static, WindowShape, AllDefs, SelectTarget;
    var (st1, yesCode, y) := SelectTarget(st, yes);
    var (st2, noCode, n) := SelectTarget(st1, no);
    GrowOne(code, cmp);
    StaticEffect(st, st, code, [cmp], {});
    TargetShape(st, code + [cmp], yes);
    NextTargetFresh(st, yes);
    TargetShape(st1, code + [cmp] + yesCode, no);
    KeptDefs(code + [cmp] + yesCode, noCode, y);
  }

  // MOV X0, v
  lemma MoveOutShape(code: seq<A.Instruction>, v: nat)
    requires WindowShape(code) && v in AllDefs(code)
    ensures WindowShape(code + [A.TwoOperand(A.MOV, A.X, A.Phys(A.GUEST_STATE), A.VReg(v))])
  {
    hide WindowShape, AllDefs;
    OpenShape(code, A.TwoOperand(A.MOV, A.X, A.Phys(A.GUEST_STATE), A.VReg(v)));
  }

  lemma CselShape(code: seq<A.Instruction>, t: nat, y: nat, n: nat)
    requires WindowShape(code) && t !in AllDefs(code) && y in AllDefs(code) && n in AllDefs(code)
    ensures
      var csel := A.ConditionalSelect(A.CSEL, A.X, A.VReg(t), A.VReg(y), A.VReg(n), A.NE);
      WindowShape(code + [csel]) && t in AllDefs(code + [csel])
  {
    hide WindowShape, AllDefs;
    OpenShape(code, A.ConditionalSelect(A.CSEL, A.X, A.VReg(t), A.VReg(y), A.VReg(n), A.NE));
  }

  lemma SelectShape(st: SState, code: seq<A.Instruction>, y: nat, n: nat)
    requires Static(st, code) && y in AllDefs(code) && n in AllDefs(code)
    ensures
      var csel := A.ConditionalSelect(A.CSEL, A.X, A.VReg(st.next), A.VReg(y), A.VReg(n), A.NE);
      var mov := A.TwoOperand(A.MOV, A.X, A.Phys(A.GUEST_STATE), A.VReg(st.next));
      WindowShape(code + [csel] + [mov])
  {
    StaticFacts(st, code);
    hide Static, WindowShape, AllDefs;
    CselShape(code, st.next, y, n);
    MoveOutShape(code + [A.ConditionalSelect(A.CSEL, A.X, A.VReg(st.next), A.VReg(y), A.VReg(n), A.NE)], st.next);
  }

  lemma CondBranchShape(st: SState, code: seq<A.Instruction>, cond: ValueId, yes: Word, no: Word)
    requires Static(st, code) && cond in st.vregs && st.next !in st.vregs && st.next + 2 !in st.vregs
    ensures WindowShape(code + SelectCondBranch(st, cond, yes, no).value.1)
  {
    var c := st.vregs[cond];
    var (st1, yesCode, y) := SelectTarget(st, yes);
    var (st2, noCode, n) := SelectTarget(st1, no);
    var cmp := A.TwoOperand(A.CMP, A.X, A.VReg(c), A.Imm(0));
    var csel := A.ConditionalSelect(A.CSEL, A.X, A.VReg(st2.next), A.VReg(y), A.VReg(n), A.NE);
    var mov := A.TwoOperand(A.MOV, A.X, A.Phys(A.GUEST_STATE), A.VReg(st2.next));
    StaticFacts(st, code);
    hide Static, WindowShape, AllDefs, SelectTarget;
    TargetsShape(st, code, c, yes, no);
    SelectShape(st2, code + [cmp] + yesCode + noCode, y, n);
    AppendFive(code, [cmp], yesCode, noCode, [csel], [mov]);
  }

  lemma AppendFive(code: seq<A.Instruction>, a: seq<A.Instruction>, b: seq<A.Instruction>, c: seq<A.Instruction>,
                   d: seq<A.Instruction>, e: seq<A.Instruction>)
    ensures code + (a + b + c + d + e) == code + a + b + c + d + e
  {
  }

  lemma NextTargetFresh(st: SState, yes: Word)
    requires st.next !in st.vregs && st.next + 2 !in st.vregs
    ensures SelectTarget(st, yes).0.next !in SelectTarget(st, yes).0.vregs
  {
    hide ConstInto;
  }

  lemma KeptDefs(code: seq<A.Instruction>, more: seq<A.Instruction>, v: nat)
    requires v in AllDefs(code)
    ensures v in AllDefs(code + more)
  {
    AllDefsMember(code, v);
    AllDefsMember(code + more, v);
    hide AllDefs;
    var k :| 0 <= k < |code| && v in Defs(code[k]);
    assert (code + more)[k] == code[k];
  }

  lemma ConstExitShape(code: seq<A.Instruction>, v: int)
    requires WindowShape(code)
    ensures WindowShape(code + ConstInto(I64, v, A.Phys(A.GUEST_STATE)))
  {
    var more := ConstInto(I64, v, A.Phys(A.GUEST_STATE));
    ConstDefines(I64, v, A.Phys(A.GUEST_STATE));
    assert Silent(more) by {
      forall k | 0 <= k < |more| ensures Uses(more[k]) == {} && Defs(more[k]) == {} { assert more[k] in more; }
    }
    hide WindowShape, ConstInto, Uses, Defs, Silent;
    SilentShape(code, more);
  }

  lemma ExitShape(st: SState, code: seq<A.Instruction>, t: Terminator)
    requires Static(st, code) && FreshTargets(st, t) && SelectExit(st, t).Some?
    ensures WindowShape(code + SelectExit(st, t).value.1)
  {
    StaticFacts(st, code);
    hide Static, WindowShape, AllDefs, ConstInto, Signed, SelectCondBranch;
    match t
    case Branch(target) => ConstExitShape(code, Signed(target));
    case CondBranch(c, yes, no) =>
      CondBranchKnown(st, c, yes, no);
      CondBranchShape(st, code, c, yes, no);
    case Return(None) => ConstExitShape(code, 0);
    case Return(Some(id)) => MoveOutShape(code, st.vregs[id]);
  }

  lemma CondBranchKnown(st: SState, c: ValueId, yes: Word, no: Word)
    requires SelectCondBranch(st, c, yes, no).Some?
    ensures c in st.vregs
  {
    hide SelectTarget;
  }

  lemma ReturnShape(code: seq<A.Instruction>)
    requires WindowShape(code)
    ensures WindowShape(code + [RETURN_INST])
  {
    hide WindowShape, AllDefs;
    SilentOne(code, RETURN_INST);
    GrownFacts(code, [RETURN_INST], {});
  }

  /* ---- When the ids are not new ---- */

  // Redefining v after an instruction that does not define it breaks the window
  lemma BrokenWindow(code: seq<A.Instruction>, cmp: A.Instruction, mid: seq<A.Instruction>, x: A.Instruction,
                     rest: seq<A.Instruction>, v: nat)
    requires v in AllDefs(code) && v !in Defs(cmp) && v in Defs(x)
    ensures !OneWindow(code + ([cmp] + mid + [x] + rest))
  {
    AllDefsMember(code, v);
    hide AllDefs, Defs;
    var all := code + ([cmp] + mid + [x] + rest);
    var i :| 0 <= i < |code| && v in Defs(code[i]);
    var n, j := |code|, |code| + 1 + |mid|;
    assert all[i] == code[i] && all[n] == cmp && all[j] == x;
    assert i <= n <= j && v in Defs(all[i]) && v in Defs(all[j]) && v !in Defs(all[n]);
  }

  lemma FirstOfConst(v: int, target: A.Operand)
    ensures var c := ConstInto(I64, v, target); c != [] && Defs(c[0]) == VRegs(target)
  {
    ConstDefines(I64, v, target);
    hide ConstInto, Defs, Uses;
    assert ConstInto(I64, v, target)[0] in ConstInto(I64, v, target);
  }

  lemma ReusedTarget(st: SState, code: seq<A.Instruction>, cond: ValueId, yes: Word, no: Word)
    requires Static(st, code) && cond in st.vregs
    requires st.next in st.vregs || st.next + 2 in st.vregs
    ensures !OneWindow(code + (SelectCondBranch(st, cond, yes, no).value.1 + [RETURN_INST]))
  {
    StaticFacts(st, code);
    var (st1, yesCode, y) := SelectTarget(st, yes);
    var (st2, noCode, n) := SelectTarget(st1, no);
    var cmp := A.TwoOperand(A.CMP, A.X, A.VReg(st.vregs[cond]), A.Imm(0));
    var csel := A.ConditionalSelect(A.CSEL, A.X, A.VReg(st2.next), A.VReg(y), A.VReg(n), A.NE);
    var mov := A.TwoOperand(A.MOV, A.X, A.Phys(A.GUEST_STATE), A.VReg(st2.next));
    var tail := [csel] + [mov] + [RETURN_INST];
    FirstOfConst(Signed(yes), A.VReg(y));
    FirstOfConst(Signed(no), A.VReg(n));
    assert y in AllDefs(code) || n in AllDefs(code) by { ReusedRegister(st, yes, no); }
    hide Static, OneWindow, AllDefs, SelectTarget, ConstInto;
    var exit := SelectCondBranch(st, cond, yes, no).value.1 + [RETURN_INST];
    if y in AllDefs(code) {
      SplitYes(cmp, yesCode, noCode, csel, mov, RETURN_INST);
      BrokenWindow(code, cmp, [], yesCode[0], yesCode[1..] + noCode + tail, y);
    } else {
      SplitNo(cmp, yesCode, noCode, csel, mov, RETURN_INST);
      BrokenWindow(code, cmp, yesCode, noCode[0], noCode[1..] + tail, n);
    }
  }

  lemma ReusedRegister(st: SState, yes: Word, no: Word)
    requires st.next in st.vregs || st.next + 2 in st.vregs
    ensures
      var (st1, _, y) := SelectTarget(st, yes);
      var n := SelectTarget(st1, no).2;
      (st.next in st.vregs && y == st.vregs[st.next]) || (st.next + 2 in st.vregs && n == st.vregs[st.next + 2])
  {
    hide ConstInto;
  }

  lemma SplitYes(a: A.Instruction, b: seq<A.Instruction>, c: seq<A.Instruction>, d: A.Instruction, e: A.Instruction,
                 f: A.Instruction)
    requires b != []
    ensures ([a] + b + c + [d] + [e]) + [f] == [a] + [] + [b[0]] + (b[1..] + c + ([d] + [e] + [f]))
  {
  }

  lemma SplitNo(a: A.Instruction, b: seq<A.Instruction>, c: seq<A.Instruction>, d: A.Instruction, e: A.Instruction,
                f: A.Instruction)
    requires c != []
    ensures ([a] + b + c + [d] + [e]) + [f] == [a] + b + [c[0]] + (c[1..] + ([d] + [e] + [f]))
  {
  }

  /** Selected code has the window shape exactly when the branch temporaries, if there are
      any, get new ids. */
  lemma ShapeIffFresh(b: Block)
    requires Ordered(b.insts) && OperandsEarlier(b.insts) && SelectBlock(INITIAL, b).Some?
    ensures WindowShape(SelectBlock(INITIAL, b).value.1) <==>
            FreshTargets(SelectAll(INITIAL, b.insts).value.0, b.terminator)
  {
    AllShape(b.insts);
    hide Static, WindowShape, SelectAll, SelectExit;
    var (st, code) := SelectAll(INITIAL, b.insts).value;
    var exit := SelectExit(st, b.terminator).value.1;
    assert code + (exit + [RETURN_INST]) == code + exit + [RETURN_INST];
    if FreshTargets(st, b.terminator) {
      ExitShape(st, code, b.terminator);
      ReturnShape(code + exit);
    } else {
      NotFresh(st, code, b.terminator);
    }
  }

  lemma NotFresh(st: SState, code: seq<A.Instruction>, t: Terminator)
    requires Static(st, code) && !FreshTargets(st, t) && SelectExit(st, t).Some?
    ensures !WindowShape(code + (SelectExit(st, t).value.1 + [RETURN_INST]))
  {
    hide Static, SelectCondBranch, OneWindow, QuietWindow, DefsThenUses, KeepsInWindow;
    CondBranchKnown(st, t.cond, t.trueTarget, t.falseTarget);
    ReusedTarget(st, code, t.cond, t.trueTarget, t.falseTarget);
  }
}
