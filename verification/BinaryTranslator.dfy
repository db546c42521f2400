/** The translator: it forms, translates and runs one block after the other on host memory. */
module BinaryTranslator {
  import opened Options
  import opened Words
  import opened Memory
  import opened Guest
  import opened HostLayout
  import opened LivenessSpec
  import opened AllocatorSpec
  import opened AllocationCorrect
  import opened SelectorSpec
  import opened BranchCode
  import opened MachineCode
  import opened BlockTally
  import opened LiftedBranch
  import opened SharedRegisters
  import opened Pipeline
  import opened HostAccess
  import opened BranchOutcome
  import opened Translation
  import opened Dispatch
  import A = Arm64
  import I = IR
  import RV = RiscV
  import L = LifterSpec
  import LC = LifterCorrect
  import Lift = Lifter
  import Select = InstructionSelector
  import Live = LivenessAnalysis
  import Alloc = RegisterAllocator
  import ST = SelectorTotal
  import E = Encoder
  import D = Decoder

  const MAX_EXECUTION_BLOCKS: nat := 10000

  // What a call comes to: a value, a thrown error, or the end of the process, by a word that is not an
  // instruction or an access outside GuestState and the shadow mapping
  datatype Outcome<T> = Done(value: T) | Thrown | Crashed

  // The lifter wrote the registers back in this order, and these are the intervals of the code
  ghost predicate IsTranslation(insts: seq<RV.Instruction>, order: seq<nat>, ivs: seq<LiveInterval>) {
    RV.IsBlock(insts) && L.IsOrder(order, Modified(insts)) &&
      AreIntervals(SelectedCode(L.LiftedBlock(1, insts, order)), ivs)
  }

  // More intervals contain a point than there are registers
  ghost predicate Overfull(ivs: seq<LiveInterval>) { exists p :: |Covering(ivs, p)| > LAST }

  // What the bytes of this translation do to the guest
  ghost function BytesDo(g: Region, insts: seq<RV.Instruction>, order: seq<nat>, ivs: seq<LiveInterval>, s: GuestState)
    : Option<(GuestState, Word)>
    requires IsTranslation(insts, order, ivs) && Scan(ivs).Some?
  {
    TranslatedBlock(g, insts, SharedOperands(L.LiftedBlock(1, insts, order), Scan(ivs).value.0), s)
  }

  // An address whose block is not translated: nothing is decoded there, or an instruction is not lifted
  ghost predicate Unlifted(p: Program, pc: Word) {
    NextBlock(Translator, p, pc).None? || !RV.AllSupported(NextBlock(Translator, p, pc).value)
  }

  class BinaryTranslator {
    const program: Program
    const layout: Layout
    var host: A.State

    constructor (p: Program, l: Layout, h: A.State)
      ensures program == p && layout == l && host == h
    {
      program := p;
      layout := l;
      host := h;
    }

    // None: a thrown error. A failed allocation is only reported, and the code goes on as it is.
    method TranslateToArm64(block: I.Block) returns (code: Option<seq<A.Instruction>>, ghost ivs: seq<LiveInterval>)
      ensures SelectBlock(INITIAL, block).None? ==> code.None?
      ensures SelectBlock(INITIAL, block).Some? ==>
                && AreIntervals(SelectedCode(block), ivs)
                && (code.Some? ==> code.value == Allocated(SelectedCode(block), ivs))
                && (code.None? ==> Scan(ivs).Some? && !AllCovered(Scan(ivs).value.0, SelectedCode(block)))
    {
      hide SelectBlock, AreIntervals, Scan, Covered, RewriteAll;
      ivs := [];
      var selector := new Select.InstructionSelector();
      var selected := selector.SelectInstructions(block);
      if selected.None? {
        return None, [];
      }
      var vector := selected.value;
      var instructions := new A.Instruction[|vector|](i requires 0 <= i < |vector| => vector[i]);
      assert instructions[..] == vector;
      var liveness := new Live.LivenessAnalysis(vector);
      var intervals := liveness.ComputeLiveIntervals();
      ivs := intervals;
      var allocator := new Alloc.RegisterAllocator();
      var ok := allocator.AllocateRegisters(instructions, intervals);
      if ok.None? {
        SomeUncovered(allocator.allocation, vector);
        return None, ivs;
      }
      code := Some(instructions[..]);
    }

    method EncodeInstructions(code: seq<A.Instruction>) returns (machineCode: Option<seq<bv8>>)
      ensures machineCode == EncodeAll(code)
    {
      hide E.EncodeInstruction;
      var bytes := [];
      var i := 0;
      while i < |code|
        invariant 0 <= i <= |code|
        invariant EncodeAll(code[..i]) == Some(bytes)
      {
        assert code[..i + 1][..i] == code[..i];
        var encoded := E.EncodeInstruction(code[i]);
        if encoded.None? {
          EncodeFails(code, i + 1);
          return None;
        }
        bytes := bytes + encoded.value;
        i := i + 1;
      }
      assert code[..i] == code;
      machineCode := Some(bytes);
    }

    // The decode loop: instructions up to a control transfer or the end of the section
    method DecodeBlock(pc: Word) returns (insts: Option<seq<RV.Instruction>>)
      requires IsValidPc(program, pc)
      ensures insts == FormBlock(Translator, program, pc - program.base, pc)
    {
      hide FetchInstruction;
      var block := [];
      var offset := pc - program.base;
      var currentPc := pc;
      ghost var whole := FormBlock(Translator, program, offset, pc);
      PrependNothing(whole);
      while offset < |program.text|
        invariant offset >= 0
        invariant whole == Prepended(block, FormBlock(Translator, program, offset, currentPc))
        decreases |program.text| - offset
      {
        var inst := FetchInstruction(program, offset, currentPc);
        if inst.None? {
          return None;
        }
        if RV.IsTerminator(inst.value.opcode) {
          return Some(block + [inst.value]);
        }
        PrependMore(block, inst.value, FormBlock(Translator, program, offset + 4, Add(currentPc, 4)));
        block := block + [inst.value];
        offset := offset + 4;
        currentPc := Add(currentPc, 4);
      }
      assert block + [] == block;
      insts := Some(block);
    }

    // Calls the machine code with X0 at GuestState; nothing but GuestState and the shadow mapping may be
    // accessed
    method CallMachineCode(machineCode: seq<bv8>) returns (outcome: Outcome<Word>)
      modifies this
      ensures
        var s := A.Write(old(host), A.Phys(A.GUEST_STATE), ToWord(layout.state));
        match RunMapped(layout, machineCode, s)
        case None => outcome.Crashed?
        case Some(t) => outcome == Done(A.Read(t, A.Phys(A.GUEST_STATE))) && host == t
    {
      hide RunMapped;
      var s := A.Write(host, A.Phys(A.GUEST_STATE), ToWord(layout.state));
      var t := RunMapped(layout, machineCode, s);
      if t.None? {
        return Crashed;
      }
      host := t.value;
      outcome := Done(A.Read(host, A.Phys(A.GUEST_STATE)));
    }

    // Throws, with the host as it was, exactly when the block cannot be lifted or its registers do not
    // suffice; otherwise the bytes run, and come to a word that is no instruction when the block has a
    // logical right shift. Without one they return when the guest stays in its memory.
    method ExecuteBlock(pc: Word, ghost g: GuestState)
      returns (outcome: Outcome<Word>, ghost order: seq<nat>, ghost ivs: seq<LiveInterval>)
      modifies this
      ensures Unlifted(program, pc) ==> outcome.Thrown?
      ensures !Unlifted(program, pc) ==>
                var insts := NextBlock(Translator, program, pc).value;
                && IsTranslation(insts, order, ivs)
                && (outcome.Thrown? <==> Overfull(ivs)) && (!Overfull(ivs) ==> Scan(ivs).Some?)
                && (!Overfull(ivs) && GuestTally(insts).shifts > 0 ==> outcome.Crashed?)
                && (!Overfull(ivs) && GuestTally(insts).shifts == 0 && HoldsGuest(layout, old(host), g) &&
                    BytesDo(layout.region, insts, order, ivs, g).Some? ==>
                      var (g', pc') := BytesDo(layout.region, insts, order, ivs, g).value;
                      outcome == Done(pc') && HoldsGuest(layout, host, g') && Confined(layout, old(host).mem, host.mem))
      ensures outcome.Thrown? ==> host == old(host)
    {
      hide HoldsGuest, FormBlock, Confined, Covering, L.LiftBlock, L.IsOrder, L.LiftAll, RV.Straight, SelectBlock,
        AreIntervals, Scan, AllCovered, EncodeAll, RunMapped, RV.AllSupported, RV.TerminatorLast, Allocated,
        SelectedCode, BytesDo, Overfull, GuestTally, A.Write, A.Read;
      order, ivs := [], [];
      if !IsValidPc(program, pc) {
        return Thrown, order, ivs;
      }
      var decoded := DecodeBlock(pc);
      if decoded.None? {
        return Thrown, order, ivs;
      }
      var blockInstructions := decoded.value;
      FormedBlock(Translator, program, pc - program.base, pc);
      OffsetInText(program, pc);
      FormedOperands(program, pc - program.base, pc);
      var lifter := new Lift.Lifter();
      var block;
      block, order := lifter.LiftBasicBlock(blockInstructions);
      if block.None? {
        return Thrown, order, ivs;
      }
      var code;
      code, ivs := TranslateToArm64(block.value);
      ghost var s := A.Write(host, A.Phys(A.GUEST_STATE), ToWord(layout.state));
      Translated(layout, blockInstructions, order, ivs, s);
      if HoldsGuest(layout, host, g) { BytesRight(layout, blockInstructions, order, ivs, g, host); }
      if code.None? {
        return Thrown, order, ivs;
      }
      var machineCode := EncodeInstructions(code.value);
      if machineCode.None? {
        return Thrown, order, ivs;
      }
      outcome := CallMachineCode(machineCode.value);
    }

    method SetPc(pc: Word)
      modifies this
      ensures host == old(host).(mem := Store(old(host).mem, layout.state + PC_OFFSET, 8, pc))
    {
      host := host.(mem := Store(host.mem, layout.state + PC_OFFSET, 8, pc));
    }

    // static_cast<int>(guestState.x[10])
    function GetReturnValue(): int
      reads this
    {
      A.Signed32(Load64(host.mem, Slot(layout, 10)))
    }

    // Runs blocks from the entry, with a return address of 0, until one goes to 0 or too many
    // have run. k counts the blocks, n the guest instructions; order and ivs are those of the last block.
    method ExecuteFunction(entry: Word, ghost g: GuestState)
      returns (result: Outcome<int>, ghost k: nat, ghost n: nat, ghost order: seq<nat>, ghost ivs: seq<LiveInterval>)
      modifies this
      ensures k <= MAX_EXECUTION_BLOCKS
      ensures
        var m0 := Machine(Set(g, 1, 0), entry);
        HoldsGuest(layout, old(host), g) && InAddressSpace(program) && AlwaysFaithful(program, layout.region, m0) ==>
          var m := IsaRun(program, layout.region, m0, n);
          && n >= k && m.Some? && m == BlockRun(program, layout.region, m0, k)
          && HoldsGuest(layout, host, m.value.state)
          && m.value.state.x[0] == g.x[0]
          && !result.Crashed?
          && (result.Done? ==>
                (m.value.pc == 0 || k == MAX_EXECUTION_BLOCKS) && result.value == A.Signed32(m.value.state.x[10]))
          && (result.Thrown? ==>
                && m.value.pc != 0 && k < MAX_EXECUTION_BLOCKS
                && (Unlifted(program, m.value.pc) ||
                    (IsTranslation(NextBlock(Translator, program, m.value.pc).value, order, ivs) && Overfull(ivs))))
    {
      hide HoldsGuest, AlwaysFaithful, BlockStep, IsaRun, Confined, GuestBlock, Store, Faithful, NextBlock, Overfull,
        IsTranslation, BytesDo, RV.AllSupported, Scan, GuestTally;
      ghost var m0 := Machine(Set(g, 1, 0), entry);
      ghost var hyp := HoldsGuest(layout, host, g) && InAddressSpace(program) &&
        AlwaysFaithful(program, layout.region, m0);
      ghost var t := m0;
      if hyp {
        PcHolds(layout, host, g, entry);
        LinkCleared(layout, host.(mem := Store(host.mem, layout.state + PC_OFFSET, 8, entry)), g);
      }
      SetPc(entry);
      host := host.(mem := Store(host.mem, Slot(layout, 1), 8, 0));
      k, n, order, ivs := 0, 0, [], [];
      var currentPc := entry;
      var blockCount := 0;
      while blockCount < MAX_EXECUTION_BLOCKS && currentPc != 0
        invariant k == blockCount <= MAX_EXECUTION_BLOCKS
        invariant hyp ==> InAddressSpace(program) && AlwaysFaithful(program, layout.region, m0)
        invariant hyp ==> BlockRun(program, layout.region, m0, k) == Some(t)
        invariant hyp ==> t.pc == currentPc && HoldsGuest(layout, host, t.state)
        decreases MAX_EXECUTION_BLOCKS - blockCount
      {
        if hyp {
          PcHolds(layout, host, t.state, currentPc);
          FaithfulAt(program, layout.region, m0, k);
        }
        SetPc(currentPc);
        var nextPc;
        nextPc, order, ivs := ExecuteBlock(currentPc, t.state);
        if !nextPc.Done? {
          if hyp {
            n := RunEnds(program, layout.region, m0, k);
            FaithfulStep(program, layout.region, t, order, ivs);
          }
          return if nextPc.Thrown? then Thrown else Crashed, k, n, order, ivs;
        }
        if hyp {
          FaithfulStep(program, layout.region, t, order, ivs);
          t := NextMachine(program, layout.region, m0, k, t, layout, host, order, ivs);
        }
        k := k + 1;
        if nextPc.value == 0 {
          currentPc := 0;
          break;
        }
        currentPc := nextPc.value;
        blockCount := blockCount + 1;
      }
      if hyp {
        n := RunEnds(program, layout.region, m0, k);
        ReturnRead(layout, host, t.state);
      }
      result := Done(GetReturnValue());
    }
  }

  /* ---- Blocks ---- */

  lemma OffsetInText(p: Program, pc: Word)
    requires IsValidPc(p, pc)
    ensures 0 <= pc - p.base < |p.text|
  {
  }

  // What becomes of a lifted block
  lemma Translated(l: Layout, insts: seq<RV.Instruction>, order: seq<nat>, ivs: seq<LiveInterval>, s: A.State)
    requires RV.IsBlock(insts) && L.IsOrder(order, Modified(insts))
    ensures SelectBlock(INITIAL, L.LiftedBlock(1, insts, order)).Some?
    ensures IsTranslation(insts, order, ivs) ==>
              var code := SelectedCode(L.LiftedBlock(1, insts, order));
              var bytes := EncodeAll(Allocated(code, ivs));
              && (Scan(ivs).Some? ==> AllCovered(Scan(ivs).value.0, code))
              && (bytes.Some? <==> !Overfull(ivs)) && (bytes.Some? ==> Scan(ivs).Some?)
              && (bytes.Some? && GuestTally(insts).shifts > 0 ==> RunMapped(l, bytes.value, s).None?)
  {
    hide L.LiftedBlock, L.LiftAll, L.IsOrder, RV.Straight, RV.IsBlock, SelectBlock, SelectedCode, AreIntervals, Scan,
      AllCovered, EncodeAll, Allocated, Covering, GuestTally, Run, RunMapped, Selectable;
    var b := L.LiftedBlock(1, insts, order);
    LiftedSelectable(1, insts, order);
    SelectableSelects(b);
    if IsTranslation(insts, order, ivs) {
      SelectedAllocates(b, ivs);
      TranslationSucceedsIff(1, insts, order, ivs);
      if Scan(ivs).None? {
        AllocationFailureStops(SelectedCode(b), ivs);
      } else if GuestTally(insts).shifts > 0 {
        ShiftBlockStops(insts, order, ivs, s);
        StopsMapped(l, EncodeAll(Allocated(SelectedCode(b), ivs)).value, s);
      }
    }
  }

  // What the bytes do, called from host memory that holds the guest
  lemma BytesRight(l: Layout, insts: seq<RV.Instruction>, order: seq<nat>, ivs: seq<LiveInterval>, g: GuestState,
                   s: A.State)
    requires HoldsGuest(l, s, g) && RV.IsBlock(insts) && L.IsOrder(order, Modified(insts))
    ensures IsTranslation(insts, order, ivs) && Scan(ivs).Some? && GuestTally(insts).shifts == 0 &&
            BytesDo(l.region, insts, order, ivs, g).Some? ==>
              var (g', pc) := BytesDo(l.region, insts, order, ivs, g).value;
              var bytes := EncodeAll(Allocated(SelectedCode(L.LiftedBlock(1, insts, order)), ivs));
              bytes.Some? &&
              var out := RunMapped(l, bytes.value, A.Write(s, A.Phys(A.GUEST_STATE), ToWord(l.state)));
              && out.Some? && HoldsGuest(l, out.value, g') && Confined(l, s.mem, out.value.mem)
              && A.Read(out.value, A.Phys(A.GUEST_STATE)) == pc
  {
    hide L.LiftedBlock, L.LiftAll, L.IsOrder, RV.IsBlock, SelectedCode, AreIntervals, Scan, EncodeAll, Allocated,
      GuestTally, RunMapped, HoldsGuest, Returned, Ready, TranslatedBlock, SharedOperands, A.Write, A.Read, Confined;
    if IsTranslation(insts, order, ivs) && Scan(ivs).Some? && GuestTally(insts).shifts == 0 &&
       BytesDo(l.region, insts, order, ivs, g).Some? {
      var s' := A.Write(s, A.Phys(A.GUEST_STATE), ToWord(l.state));
      WithPointer(l, s, g);
      MachineCodeExact(l, insts, order, ivs, g, s');
      var (g', pc) := BytesDo(l.region, insts, order, ivs, g).value;
      var code := Allocated(SelectedCode(L.LiftedBlock(1, insts, order)), ivs);
      ReturnHolds(l, s, g, RunMapped(l, EncodeAll(code).value, s'), g', pc);
    }
  }

  /* ---- Runs ---- */

  // The block translated at this point does what the ISA's block there does: no access outside guest
  // memory, no logical right shift, and the same registers, memory and next address
  ghost predicate Faithful(p: Program, g: Region, m: Machine) {
    !Unlifted(p, m.pc) ==>
      var insts := NextBlock(Translator, p, m.pc).value;
      && GuestTally(insts).shifts == 0 && BlockStep(p, g, m).Some?
      && forall order, ivs :: IsTranslation(insts, order, ivs) && Scan(ivs).Some? ==>
        SameStep(p, g, m, insts, order, ivs)
  }

  ghost predicate SameStep(p: Program, g: Region, m: Machine, insts: seq<RV.Instruction>, order: seq<nat>,
                           ivs: seq<LiveInterval>)
    requires IsTranslation(insts, order, ivs) && Scan(ivs).Some? && BlockStep(p, g, m).Some?
  {
    var m', r := BlockStep(p, g, m).value, BytesDo(g, insts, order, ivs, m.state);
    r.Some? && SameView(g, m'.state, r.value.0) && m'.pc == r.value.1
  }

  // Every block that the run comes to is faithful
  ghost predicate AlwaysFaithful(p: Program, g: Region, m0: Machine) {
    forall k: nat :: BlockRun(p, g, m0, k).Some? && BlockRun(p, g, m0, k).value.pc != 0 ==>
      Faithful(p, g, BlockRun(p, g, m0, k).value)
  }

  lemma FaithfulAt(p: Program, g: Region, m0: Machine, k: nat)
    requires AlwaysFaithful(p, g, m0) && BlockRun(p, g, m0, k).Some? && BlockRun(p, g, m0, k).value.pc != 0
    ensures Faithful(p, g, BlockRun(p, g, m0, k).value)
  {
    hide BlockRun, Faithful;
  }

  // Conditions on the guest block that make it faithful
  ghost predicate Sound(g: Region, insts: seq<RV.Instruction>, s: GuestState)
    requires RV.IsBlock(insts)
  {
    && insts != [] && GuestTally(insts).xors == 0 && GuestTally(insts).shifts == 0 && RV.EndState(g, insts, s).Some?
    && LC.LinkHeld(insts, RV.EndState(g, insts, s).value)
    && (EndsInBranch(insts) ==> KeepsApart(insts) || GoesRight(insts, true, RV.EndState(g, insts, s).value))
  }

  lemma SoundStep(g: Region, insts: seq<RV.Instruction>, order: seq<nat>, ivs: seq<LiveInterval>, s: GuestState)
    requires RV.IsBlock(insts) && Sound(g, insts, s) && IsTranslation(insts, order, ivs) && Scan(ivs).Some?
    ensures BytesDo(g, insts, order, ivs, s).Some? && BytesDo(g, insts, order, ivs, s) == GuestBlock(g, insts, s)
  {
    GuestBlockEnd(g, insts, s);
    hide L.LiftAll, L.LiftedBlock, L.IsOrder, RV.IsBlock, SelectedCode, AreIntervals, Scan, GuestTally,
      SharedOperands, RV.EndState, GuestBlock, AllocatedTarget, LC.LiftedTarget, RV.BlockLink, LC.LinkHeld,
      EndsInBranch, KeepsApart, LastBranch;
    NoXorKept(insts);
    var end, shared := RV.EndState(g, insts, s).value,
      SharedOperands(L.LiftedBlock(1, insts, order), Scan(ivs).value.0);
    SupportedBlock(insts);
    LinkHeldIff(insts, end);
    RightIff(insts, shared, end);
    if EndsInBranch(insts) && KeepsApart(insts) { NeverShared(insts, order, ivs); }
  }

  lemma AtIsaBlock(p: Program, g: Region, m: Machine)
    requires IsValidPc(p, m.pc) && WordsRight(p, m.pc - p.base, m.pc) && !Unlifted(p, m.pc)
    ensures RV.IsBlock(NextBlock(Translator, p, m.pc).value)
    ensures
      var insts := NextBlock(Translator, p, m.pc).value;
      insts != [] && GuestBlock(g, insts, m.state).Some? ==>
        var (s, pc) := GuestBlock(g, insts, m.state).value;
        BlockStep(p, g, m) == Some(Machine(s, pc))
  {
    hide FormBlock, GuestBlock, WordsRight, RV.AllSupported, RV.TerminatorLast;
    FormedBlock(Translator, p, m.pc - p.base, m.pc);
    SameBlocks(p, m.pc - p.base, m.pc);
  }

  /** A block whose words are read as the ISA reads them is faithful when it has no XOR and no logical
      right shift, stays in guest memory, loses no link value, and either keeps the compared values of
      its branch apart or goes where comparing a register with itself does. */
  lemma SoundIsFaithful(p: Program, g: Region, m: Machine)
    requires IsValidPc(p, m.pc) && WordsRight(p, m.pc - p.base, m.pc) && !Unlifted(p, m.pc)
    requires RV.IsBlock(NextBlock(Translator, p, m.pc).value) && Sound(g, NextBlock(Translator, p, m.pc).value, m.state)
    ensures Faithful(p, g, m)
  {
    var insts := NextBlock(Translator, p, m.pc).value;
    AtIsaBlock(p, g, m);
    GuestBlockEnd(g, insts, m.state);
    hide NextBlock, GuestBlock, WordsRight, RV.IsBlock, IsTranslation, Scan, BytesDo, BlockStep, Unlifted;
    forall order, ivs | IsTranslation(insts, order, ivs) && Scan(ivs).Some?
      ensures SameStep(p, g, m, insts, order, ivs)
    {
      SoundStep(g, insts, order, ivs, m.state);
    }
  }

  lemma FaithfulStep(p: Program, g: Region, m: Machine, order: seq<nat>, ivs: seq<LiveInterval>)
    requires Faithful(p, g, m)
    ensures
      !Unlifted(p, m.pc) && IsTranslation(NextBlock(Translator, p, m.pc).value, order, ivs) && Scan(ivs).Some? ==>
        var insts := NextBlock(Translator, p, m.pc).value;
        && GuestTally(insts).shifts == 0 && BlockStep(p, g, m).Some? && BytesDo(g, insts, order, ivs, m.state).Some?
        && var m', r := BlockStep(p, g, m).value, BytesDo(g, insts, order, ivs, m.state).value;
           SameView(g, m'.state, r.0) && m'.pc == r.1
  {
    hide NextBlock, GuestTally, BlockStep, IsTranslation, Scan, BytesDo, SameView, Unlifted;
  }

  // The guest after a faithful block, in host memory that holds what the bytes did
  lemma NextMachine(p: Program, g: Region, m0: Machine, k: nat, t: Machine, l: Layout, s: A.State, order: seq<nat>,
                    ivs: seq<LiveInterval>)
    returns (t': Machine)
    requires BlockRun(p, g, m0, k) == Some(t) && l.region == g && NextBlock(Translator, p, t.pc).Some?
    requires IsTranslation(NextBlock(Translator, p, t.pc).value, order, ivs) && Scan(ivs).Some?
    requires BlockStep(p, g, t).Some? && BytesDo(g, NextBlock(Translator, p, t.pc).value, order, ivs, t.state).Some?
    requires
      var m', r := BlockStep(p, g, t).value,
        BytesDo(g, NextBlock(Translator, p, t.pc).value, order, ivs, t.state).value;
      SameView(g, m'.state, r.0) && m'.pc == r.1 && HoldsGuest(l, s, r.0)
    ensures BlockStep(p, g, t) == Some(t') && BlockRun(p, g, m0, k + 1) == Some(t') && HoldsGuest(l, s, t'.state)
    ensures t'.pc == BytesDo(g, NextBlock(Translator, p, t.pc).value, order, ivs, t.state).value.1
  {
    hide BlockStep, NextBlock, IsTranslation, Scan, BytesDo, SameView, HoldsGuest;
    t' := BlockStep(p, g, t).value;
    SameViewHolds(l, s, BytesDo(g, NextBlock(Translator, p, t.pc).value, order, ivs, t.state).value.0, t'.state);
  }

  lemma SameViewHolds(l: Layout, s: A.State, g: GuestState, g': GuestState)
    requires HoldsGuest(l, s, g) && SameView(l.region, g', g)
    ensures HoldsGuest(l, s, g')
  {
    hide Load;
    forall a | InRegion(l.region, a, 1) ensures At(g'.mem, a) == At(s.mem, HostOf(l, a)) {
      assert At(g.mem, a) == At(s.mem, HostOf(l, a));
    }
  }

  lemma RunEnds(p: Program, g: Region, m0: Machine, k: nat) returns (n: nat)
    requires InAddressSpace(p) && BlockRun(p, g, m0, k).Some?
    ensures n >= k && IsaRun(p, g, m0, n) == BlockRun(p, g, m0, k)
    ensures IsaRun(p, g, m0, n).value.state.x[0] == m0.state.x[0]
  {
    hide BlockRun, IsaRun;
    n := BlocksRefineRun(p, g, m0, k);
    RunKeepsZero(p, g, m0, n);
  }

  lemma PcHolds(l: Layout, s: A.State, g: GuestState, pc: Word)
    requires HoldsGuest(l, s, g)
    ensures HoldsGuest(l, s.(mem := Store(s.mem, l.state + PC_OFFSET, 8, pc)), g)
  {
    hide Store, Load, At;
    var a := l.state + PC_OFFSET;
    RegistersBesideStore(l, s.mem, g.x, a, 8, pc);
    LoadBesideStore(s.mem, a, 8, pc, l.state + SHADOW_OFFSET, 8);
    LoadBesideStore(s.mem, a, 8, pc, l.state + BASE_OFFSET, 8);
    forall b | InRegion(l.region, b, 1) ensures At(g.mem, b) == At(Store(s.mem, a, 8, pc), HostOf(l, b)) {
      StoreAt(s.mem, a, 8, pc, HostOf(l, b));
    }
  }

  lemma LinkCleared(l: Layout, s: A.State, g: GuestState)
    requires HoldsGuest(l, s, g)
    ensures HoldsGuest(l, s.(mem := Store(s.mem, Slot(l, 1), 8, 0)), Set(g, 1, 0))
  {
    hide Represents, Store;
    WriteRegister(l, s.mem, g.x, g.mem, 1, 0);
  }

  lemma ReturnRead(l: Layout, s: A.State, g: GuestState)
    requires HoldsGuest(l, s, g)
    ensures Load64(s.mem, Slot(l, 10)) == g.x[10]
  {
    var r: RegNum := 10;
    assert Load(s.mem, Slot(l, r), 8) == g.x[r];
  }

  lemma WithPointer(l: Layout, s: A.State, g: GuestState)
    requires HoldsGuest(l, s, g)
    ensures Ready(l, A.Write(s, A.Phys(A.GUEST_STATE), ToWord(l.state)), g)
    ensures A.Write(s, A.Phys(A.GUEST_STATE), ToWord(l.state)).mem == s.mem
  {
    hide Represents;
  }

  lemma ReturnHolds(l: Layout, s: A.State, g: GuestState, out: Option<A.State>, g': GuestState, pc: Word)
    requires HoldsGuest(l, s, g) && Returned(l, A.Write(s, A.Phys(A.GUEST_STATE), ToWord(l.state)), out, g', pc)
    ensures out.Some? && HoldsGuest(l, out.value, g') && Confined(l, s.mem, out.value.mem)
    ensures A.Read(out.value, A.Phys(A.GUEST_STATE)) == pc
  {
    hide Represents, Confined;
  }


  lemma SelectableSelects(b: I.Block)
    requires Selectable(b)
    ensures SelectBlock(INITIAL, b).Some?
  {
    ST.BlockTotal(b);
    hide SelectBlock, ST.AllClean, I.Types, I.WellTyped;
  }

  // Host memory holds the guest
  ghost predicate HoldsGuest(l: Layout, s: A.State, g: GuestState) { Valid(l) && Represents(l, s.mem, g.x, g.mem) }

  lemma PrependNothing(r: Option<seq<RV.Instruction>>)
    ensures Prepended([], r) == r
  {
    if r.Some? { assert [] + r.value == r.value; }
  }

  // What was decoded has the operands its opcode asks for
  lemma {:induction false} FormedOperands(p: Program, offset: nat, pc: Word)
    requires FormBlock(Translator, p, offset, pc).Some?
    ensures Lift.Formed(FormBlock(Translator, p, offset, pc).value)
    decreases |p.text| - offset
  {
    hide Fetch, Lift.Lifts, RV.Supported;
    if offset < |p.text| {
      var inst := Fetch(Translator, p, offset, pc).value;
      if Lift.Lifts(inst.opcode) { FetchedOperands(p, offset, pc); }
      if !RV.IsTerminator(inst.opcode) {
        FormedOperands(p, offset + 4, Add(pc, 4));
      }
    }
  }

  lemma FetchedOperands(p: Program, offset: nat, pc: Word)
    requires Fetch(Translator, p, offset, pc).Some? && Lift.Lifts(Fetch(Translator, p, offset, pc).value.opcode)
    ensures RV.Supported(Fetch(Translator, p, offset, pc).value)
  {
    hide D.Decode, RV.Supported;
    D.DecodedIsSupported(E.WordOfBytes(p.text[offset..offset + 4]), pc);
  }

  function Prepended(a: seq<RV.Instruction>, r: Option<seq<RV.Instruction>>): Option<seq<RV.Instruction>> {
    match r case None => None case Some(b) => Some(a + b)
  }

  lemma PrependMore(a: seq<RV.Instruction>, x: RV.Instruction, r: Option<seq<RV.Instruction>>)
    ensures Prepended(a, Prepended([x], r)) == Prepended(a + [x], r)
  {
    if r.Some? { assert a + ([x] + r.value) == (a + [x]) + r.value; }
  }

  lemma SomeUncovered(alloc: Allocation, code: seq<A.Instruction>)
    requires !forall i :: i in code ==> Covered(alloc, i)
    ensures !AllCovered(alloc, code)
  {
    hide Covered;
  }

  // A thrown error is not caught
  lemma {:induction false} EncodeFails(code: seq<A.Instruction>, i: nat)
    requires i <= |code| && EncodeAll(code[..i]).None?
    ensures EncodeAll(code).None?
    decreases |code| - i
  {
    if i < |code| {
      hide E.EncodeInstruction;
      assert code[..i + 1][..i] == code[..i];
      EncodeFails(code, i + 1);
    } else {
      assert code[..i] == code;
    }
  }
}
