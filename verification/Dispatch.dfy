/** Block formation and dispatch, as functions on the guest machine, and the one-instruction-at-a-
    time run that they refine. */
module Dispatch {
  import opened Options
  import opened Words
  import opened Guest
  import opened Memory
  import P = Pipeline
  import RV = RiscV
  import D = Decoder
  import ID = IsaDecoder
  import E = Encoder

  // The text section
  datatype Program = Program(text: seq<bv8>, base: Word)

  // Its size is a size_t
  ghost predicate InAddressSpace(p: Program) { |p.text| < TWO64 }

  // The end of the section wraps: a section that reaches the end of the address space has no valid
  // address
  predicate IsValidPc(p: Program, pc: Word) { p.base <= pc < (p.base + |p.text|) % TWO64 }

  /** Every address of the section is valid exactly when the section ends before the address space
      does; otherwise none is. */
  lemma AllValidIff(p: Program)
    requires InAddressSpace(p)
    ensures (forall pc: Word :: p.base <= pc < p.base + |p.text| ==> IsValidPc(p, pc)) <==> p.base + |p.text| < TWO64
    ensures p.base + |p.text| >= TWO64 ==> forall pc: Word :: !IsValidPc(p, pc)
  {
    if p.base + |p.text| >= TWO64 {
      assert (p.base + |p.text|) % TWO64 == p.base + |p.text| - TWO64;
      assert !IsValidPc(p, p.base);
    }
  }

  lemma ValidOffset(p: Program, pc: Word)
    requires InAddressSpace(p) && IsValidPc(p, pc)
    ensures 0 <= pc - p.base < |p.text| && p.base + |p.text| < TWO64
  {
  }

  // Words are read by the translator's decoder, or by the ISA
  datatype Reader = Translator | Isa

  // None: an unrecognised word, or bytes past the end of the section
  function FetchInstruction(p: Program, offset: nat, pc: Word): Option<RV.Instruction> {
    if offset + 4 > |p.text| then None else D.Decode(E.WordOfBytes(p.text[offset..offset + 4]), pc)
  }

  // By the ISA, None is also an instruction outside the model
  ghost function Fetch(how: Reader, p: Program, offset: nat, pc: Word): Option<RV.Instruction> {
    if how.Translator? then FetchInstruction(p, offset, pc)
    else if offset + 4 > |p.text| then None
    else
      match ID.IsaDecode(E.WordOfBytes(p.text[offset..offset + 4]), pc)
      case Known(i) => Some(i)
      case _ => None
  }

  // The instructions from an offset up to a control transfer or the end of the section
  ghost function FormBlock(how: Reader, p: Program, offset: nat, pc: Word): Option<seq<RV.Instruction>>
    decreases |p.text| - offset
  {
    if offset >= |p.text| then Some([])
    else
      var inst :- Fetch(how, p, offset, pc);
      if RV.IsTerminator(inst.opcode) then Some([inst])
      else
        var rest :- FormBlock(how, p, offset + 4, Add(pc, 4));
        Some([inst] + rest)
  }

  ghost function NextBlock(how: Reader, p: Program, pc: Word): Option<seq<RV.Instruction>> {
    if IsValidPc(p, pc) then FormBlock(how, p, pc - p.base, pc) else None
  }

  lemma {:induction false} FormedBlock(how: Reader, p: Program, offset: nat, pc: Word)
    requires FormBlock(how, p, offset, pc).Some?
    ensures RV.TerminatorLast(FormBlock(how, p, offset, pc).value)
    ensures offset < |p.text| ==> FormBlock(how, p, offset, pc).value != []
    decreases |p.text| - offset
  {
    hide Fetch;
    if offset < |p.text| {
      var inst := Fetch(how, p, offset, pc).value;
      if !RV.IsTerminator(inst.opcode) {
        FormedBlock(how, p, offset + 4, Add(pc, 4));
        TerminatorStillLast(inst, FormBlock(how, p, offset + 4, Add(pc, 4)).value);
      }
    }
  }

  predicate RightAt(p: Program, offset: nat) {
    offset + 4 <= |p.text| && ID.ReadRight(E.WordOfBytes(p.text[offset..offset + 4]))
  }

  // The words of the block at an offset, up to its control transfer or the word that is not decoded,
  // are read as the ISA reads them
  ghost predicate WordsRight(p: Program, offset: nat, pc: Word)
    decreases |p.text| - offset
  {
    offset + 4 <= |p.text| ==>
      && RightAt(p, offset)
      && (var inst := FetchInstruction(p, offset, pc);
          inst.Some? && !RV.IsTerminator(inst.value.opcode) ==> WordsRight(p, offset + 4, Add(pc, 4)))
  }

  /** Where the words of a block are read right, the translator forms the ISA's block, and throws
      where the ISA has none. */
  lemma {:induction false} SameBlocks(p: Program, offset: nat, pc: Word)
    requires WordsRight(p, offset, pc)
    ensures FormBlock(Translator, p, offset, pc) == FormBlock(Isa, p, offset, pc)
    decreases |p.text| - offset
  {
    if offset < |p.text| {
      SameFetch(p, offset, pc);
      hide FetchInstruction, RightAt, Fetch;
      var inst := Fetch(Translator, p, offset, pc);
      FetchedAddress(Translator, p, offset, pc);
      if inst.Some? && !RV.IsTerminator(inst.value.opcode) { SameBlocks(p, offset + 4, Add(pc, 4)); }
    }
  }

  lemma SameFetch(p: Program, offset: nat, pc: Word)
    requires offset + 4 <= |p.text| ==> RightAt(p, offset)
    ensures Fetch(Translator, p, offset, pc) == Fetch(Isa, p, offset, pc) == FetchInstruction(p, offset, pc)
  {
    hide D.Decode, ID.IsaDecode, ID.ReadRight, E.WordOfBytes;
    if offset + 4 <= |p.text| { ID.DecodesRightIff(E.WordOfBytes(p.text[offset..offset + 4]), pc); }
  }

  /** The words of a block that is formed are right exactly when each of them is; what follows its
      control transfer does not matter. */
  lemma {:induction false} WordsRightIff(p: Program, offset: nat, pc: Word)
    requires FormBlock(Translator, p, offset, pc).Some?
    ensures
      WordsRight(p, offset, pc) <==>
      forall k: nat :: k < |FormBlock(Translator, p, offset, pc).value| ==> RightAt(p, offset + 4 * k)
    decreases |p.text| - offset
  {
    hide FetchInstruction, RightAt;
    var insts := FormBlock(Translator, p, offset, pc).value;
    if offset < |p.text| {
      FetchedAddress(Translator, p, offset, pc);
      var inst := FetchInstruction(p, offset, pc).value;
      if RV.IsTerminator(inst.opcode) {
        OneRight(p, offset);
      } else {
        WordsRightIff(p, offset + 4, Add(pc, 4));
        FirstRight(p, offset, |insts|);
      }
    }
  }

  lemma OneRight(p: Program, offset: nat)
    ensures RightAt(p, offset) <==> forall k: nat :: k < 1 ==> RightAt(p, offset + 4 * k)
  {
    hide RightAt;
    assert (forall k: nat :: k < 1 ==> RightAt(p, offset + 4 * k)) ==> RightAt(p, offset + 4 * 0);
  }

  lemma FirstRight(p: Program, offset: nat, n: nat)
    requires n > 0
    ensures
      (forall k: nat :: k < n ==> RightAt(p, offset + 4 * k)) <==>
      RightAt(p, offset) && forall k: nat :: k < n - 1 ==> RightAt(p, offset + 4 + 4 * k)
  {
    hide RightAt;
    if forall k: nat :: k < n ==> RightAt(p, offset + 4 * k) {
      assert RightAt(p, offset + 4 * 0);
      forall k: nat | k < n - 1 ensures RightAt(p, offset + 4 + 4 * k) { assert RightAt(p, offset + 4 * (k + 1)); }
    }
    if RightAt(p, offset) && forall k: nat :: k < n - 1 ==> RightAt(p, offset + 4 + 4 * k) {
      forall k: nat | k < n ensures RightAt(p, offset + 4 * k) {
        if k > 0 { assert RightAt(p, offset + 4 + 4 * (k - 1)); }
      }
    }
  }

  lemma TerminatorStillLast(inst: RV.Instruction, rest: seq<RV.Instruction>)
    requires RV.TerminatorLast(rest) && !RV.IsTerminator(inst.opcode)
    ensures RV.TerminatorLast([inst] + rest)
  {
  }

  /* ---- The guest, one instruction at a time ---- */

  datatype Machine = Machine(state: GuestState, pc: Word)

  // What one instruction does; RET means stop, at address 0
  function Executed(g: Region, i: RV.Instruction, m: Machine): Option<Machine>
    requires RV.Supported(i)
  {
    if RV.IsTerminator(i.opcode) then
      Some(Machine(RV.Link(i, m.state), if RV.IsRet(i) then 0 else RV.Target(i, m.state)))
    else
      var s :- RV.Step(g, i, m.state);
      Some(Machine(s, Add(m.pc, 4)))
  }

  // One instruction of the guest, by the ISA; None for those outside the model
  ghost function IsaStep(p: Program, g: Region, m: Machine): Option<Machine> {
    if !IsValidPc(p, m.pc) then None
    else
      var inst :- Fetch(Isa, p, m.pc - p.base, m.pc);
      if RV.Supported(inst) then Executed(g, inst, m) else None
  }

  ghost function IsaRun(p: Program, g: Region, m: Machine, n: nat): Option<Machine>
    decreases n
  {
    if n == 0 then Some(m)
    else
      var t :- IsaStep(p, g, m);
      IsaRun(p, g, t, n - 1)
  }

  lemma RunFront(p: Program, g: Region, m: Machine, n: nat)
    requires n > 0
    ensures IsaRun(p, g, m, n) == match IsaStep(p, g, m) case None => None case Some(t) => IsaRun(p, g, t, n - 1)
  {
    hide IsaStep;
  }

  lemma RunNothing(p: Program, g: Region, m: Machine)
    ensures IsaRun(p, g, m, 0) == Some(m)
  {
  }

  lemma {:induction false} RunAppend(p: Program, g: Region, m: Machine, a: nat, b: nat)
    requires IsaRun(p, g, m, a).Some?
    ensures IsaRun(p, g, m, a + b) == IsaRun(p, g, IsaRun(p, g, m, a).value, b)
    decreases a
  {
    hide IsaStep, IsaRun;
    RunNothing(p, g, m);
    if a != 0 {
      RunFront(p, g, m, a);
      RunFront(p, g, m, a + b);
      RunAppend(p, g, IsaStep(p, g, m).value, a - 1, b);
    }
  }

  // A block, by the instructions' own meaning
  ghost function BlockStep(p: Program, g: Region, m: Machine): Option<Machine> {
    var insts :- NextBlock(Isa, p, m.pc);
    if RV.IsBlock(insts) && insts != [] then
      var (s, pc) :- P.GuestBlock(g, insts, m.state);
      Some(Machine(s, pc))
    else None
  }

  lemma {:induction false} BodyFront(g: Region, i: RV.Instruction, rest: seq<RV.Instruction>, s: GuestState)
    requires RV.AllSupported([i] + rest) && RV.NoTerminator([i] + rest)
    ensures RV.AllSupported(rest) && RV.NoTerminator(rest) && RV.Supported(i) && !RV.IsTerminator(i.opcode)
    ensures
      RV.Body(g, [i] + rest, s) ==
      match RV.Step(g, i, s)
      case None => None
      case Some(t) => RV.Body(g, rest, t)
    decreases |rest|
  {
    hide RV.Step, RV.Supported, RV.IsTerminator;
    var all := [i] + rest;
    assert all[0] == i && forall k :: 0 <= k < |rest| ==> rest[k] == all[k + 1];
    if rest == [] {
      assert all[..0] == [];
    } else {
      var n := |rest| - 1;
      assert all[..|rest|] == [i] + rest[..n];
      BodyFront(g, i, rest[..n], s);
    }
  }

  // A block of several instructions is the first one and the block of the others
  lemma GuestBlockFront(g: Region, i: RV.Instruction, rest: seq<RV.Instruction>, s: GuestState)
    requires RV.IsBlock([i] + rest) && rest != [] && P.GuestBlock(g, [i] + rest, s).Some?
    ensures RV.Supported(i) && !RV.IsTerminator(i.opcode) && RV.IsBlock(rest)
    ensures RV.Step(g, i, s).Some? && P.GuestBlock(g, rest, RV.Step(g, i, s).value) == P.GuestBlock(g, [i] + rest, s)
  {
    hide RV.Step, RV.Supported, RV.IsTerminator, RV.Body, RV.Link, RV.Target, RV.IsRet;
    var all := [i] + rest;
    assert all[0] == i && forall k :: 0 <= k < |rest| ==> rest[k] == all[k + 1];
    StraightFront(i, rest);
    BodyFront(g, i, RV.Straight(rest), s);
  }

  lemma StraightFront(i: RV.Instruction, rest: seq<RV.Instruction>)
    requires rest != []
    ensures RV.Straight([i] + rest) == [i] + RV.Straight(rest)
  {
    var all := [i] + rest;
    assert all[|all| - 1] == rest[|rest| - 1];
    assert all[..|all| - 1] == [i] + rest[..|rest| - 1];
  }

  // A block of one instruction
  lemma GuestBlockOne(g: Region, i: RV.Instruction, m: Machine)
    requires RV.Supported(i) && i.address == m.pc && RV.IsBlock([i]) && P.GuestBlock(g, [i], m.state).Some?
    ensures
      var (s, pc) := P.GuestBlock(g, [i], m.state).value;
      Executed(g, i, m) == Some(Machine(s, pc))
  {
    assert [i][..0] == [];
    if !RV.IsTerminator(i.opcode) {
      assert RV.Straight([i]) == [i];
      assert RV.Body(g, [], m.state) == Some(m.state);
    } else {
      assert RV.Straight([i]) == [];
    }
    hide RV.Step, RV.Link, RV.Target, RV.Supported, RV.IsRet, RV.IsTerminator;
  }

  lemma FetchedAddress(how: Reader, p: Program, offset: nat, pc: Word)
    ensures Fetch(how, p, offset, pc).Some? ==> Fetch(how, p, offset, pc).value.address == pc && offset + 4 <= |p.text|
  {
  }

  /** Block formation refines the guest's own run: a dispatched block does what as many single
      instructions do. */
  lemma {:induction false} BlockRefines(p: Program, g: Region, offset: nat, m: Machine)
    requires p.base + |p.text| < TWO64 && m.pc == p.base + offset && offset < |p.text|
    requires FormBlock(Isa, p, offset, m.pc).Some?
    requires
      var insts := FormBlock(Isa, p, offset, m.pc).value;
      RV.IsBlock(insts) && insts != [] && P.GuestBlock(g, insts, m.state).Some?
    ensures
      var insts := FormBlock(Isa, p, offset, m.pc).value;
      var (s, pc) := P.GuestBlock(g, insts, m.state).value;
      IsaRun(p, g, m, |insts|) == Some(Machine(s, pc))
    decreases |p.text| - offset
  {
    hide Fetch, P.GuestBlock, Executed, RV.Supported, RV.IsBlock, RV.Step;
    var inst := Fetch(Isa, p, offset, m.pc).value;
    FetchedAddress(Isa, p, offset, m.pc);
    var insts := FormBlock(Isa, p, offset, m.pc).value;
    FirstSupported(insts);
    assert insts[0] == inst && IsValidPc(p, m.pc);
    if |insts| == 1 {
      assert insts == [inst];
      GuestBlockOne(g, inst, m);
      var t := Executed(g, inst, m).value;
      assert IsaStep(p, g, m) == Some(t);
      assert IsaRun(p, g, t, 0) == Some(t);
    } else {
      var rest := FormBlock(Isa, p, offset + 4, Add(m.pc, 4)).value;
      assert insts == [inst] + rest;
      GuestBlockFront(g, inst, rest, m.state);
      var t := Machine(RV.Step(g, inst, m.state).value, Add(m.pc, 4));
      ExecutedStraight(g, inst, m);
      RestStarts(p, offset + 4, t.pc);
      assert forall k :: 0 <= k < |rest| ==> rest[k] == insts[k + 1];
      BlockRefines(p, g, offset + 4, t);
      assert IsaStep(p, g, m) == Some(t);
    }
  }

  lemma FirstSupported(insts: seq<RV.Instruction>)
    requires RV.IsBlock(insts) && insts != []
    ensures RV.Supported(insts[0])
  {
    hide RV.Supported;
  }

  lemma ExecutedStraight(g: Region, i: RV.Instruction, m: Machine)
    requires RV.Supported(i) && !RV.IsTerminator(i.opcode)
    ensures
      Executed(g, i, m) ==
      match RV.Step(g, i, m.state)
      case None => None
      case Some(s) => Some(Machine(s, Add(m.pc, 4)))
  {
    hide RV.Step;
  }

  lemma RestStarts(p: Program, offset: nat, pc: Word)
    requires FormBlock(Isa, p, offset, pc).Some? && FormBlock(Isa, p, offset, pc).value != []
    ensures offset < |p.text|
  {
  }

  /* ---- Whole runs ---- */

  // The machine after k dispatched blocks
  ghost function BlockRun(p: Program, g: Region, m: Machine, k: nat): Option<Machine> {
    if k == 0 then Some(m)
    else
      var t :- BlockRun(p, g, m, k - 1);
      BlockStep(p, g, t)
  }

  /** Whole-run refinement: the machine after k blocks is one the guest's own run reaches, in at
      least k instructions. */
  lemma {:induction false} BlocksRefineRun(p: Program, g: Region, m: Machine, k: nat) returns (n: nat)
    requires InAddressSpace(p) && BlockRun(p, g, m, k).Some?
    ensures n >= k && IsaRun(p, g, m, n) == BlockRun(p, g, m, k)
  {
    hide BlockStep, IsaStep;
    if k == 0 {
      n := 0;
    } else {
      n := BlocksRefineRun(p, g, m, k - 1);
      var t := BlockRun(p, g, m, k - 1).value;
      var more := BlockStepRefines(p, g, t);
      RunAppend(p, g, m, n, more);
      n := n + more;
    }
  }

  lemma BlockStepRefines(p: Program, g: Region, m: Machine) returns (n: nat)
    requires InAddressSpace(p) && BlockStep(p, g, m).Some?
    ensures n >= 1 && IsaRun(p, g, m, n) == BlockStep(p, g, m)
  {
    hide FormBlock, P.GuestBlock, IsaRun, RV.IsBlock;
    ValidOffset(p, m.pc);
    BlockRefines(p, g, m.pc - p.base, m);
    n := |NextBlock(Isa, p, m.pc).value|;
  }

  lemma StepKeepsZero(p: Program, g: Region, m: Machine)
    requires IsaStep(p, g, m).Some?
    ensures IsaStep(p, g, m).value.state.x[0] == m.state.x[0]
  {
    hide Fetch, RV.Arithmetic, RV.LoadedValue, Store, RV.Target;
  }

  /** x0 never changes in any run. */
  lemma {:induction false} RunKeepsZero(p: Program, g: Region, m: Machine, n: nat)
    requires IsaRun(p, g, m, n).Some?
    ensures IsaRun(p, g, m, n).value.state.x[0] == m.state.x[0]
    decreases n
  {
    if n != 0 {
      StepKeepsZero(p, g, m);
      hide IsaStep;
      RunKeepsZero(p, g, IsaStep(p, g, m).value, n - 1);
    }
  }
}
