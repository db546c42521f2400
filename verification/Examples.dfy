/** Two concrete blocks that differ in one instruction: addi x5, x5, 1 is translated right, and the
    same followed by bne x6, x7, +8 never branches. */
module Examples {
  import opened Options
  import opened Words
  import opened Guest
  import opened HostLayout
  import opened LivenessSpec
  import opened AllocatorSpec
  import opened BranchCode
  import opened MachineCode
  import opened BlockTally
  import opened LiftedBranch
  import opened SharedRegisters
  import opened GuestRegisters
  import opened Pipeline
  import opened HostAccess
  import opened BranchOutcome
  import opened Translation
  import opened SmallBlocks
  import A = Arm64
  import RV = RiscV
  import L = LifterSpec
  import LC = LifterCorrect

  const ADD_ONE: RV.Instruction :=
    RV.Instruction.Instruction(RV.ADDI, [RV.Register(5), RV.Register(5), RV.Immediate(1)], 0x1000)

  const UNLESS_EQUAL: RV.Instruction :=
    RV.Instruction.Instruction(RV.BNE, [RV.Register(6), RV.Register(7), RV.Immediate(8)], 0x1004)

  // The bytes that a block is translated to
  ghost function BytesOf(insts: seq<RV.Instruction>, order: seq<nat>, ivs: seq<LiveInterval>): Option<seq<bv8>>
    requires RV.IsBlock(insts) && L.IsOrder(order, Modified(insts))
  {
    EncodeAll(Allocated(SelectedCode(L.LiftedBlock(1, insts, order)), ivs))
  }

  /* ---- A block that is translated right ---- */

  lemma OneBlock()
    ensures RV.IsBlock([ADD_ONE]) && RV.Straight([ADD_ONE]) == [ADD_ONE] && !EndsInBranch([ADD_ONE])
    ensures GuestTally([ADD_ONE]) == Tally(0, 0, 0, 0, 0)
  {
    assert [ADD_ONE][..0] == [];
  }

  lemma AddOneRuns(g: Region, s: GuestState)
    ensures RV.IsBlock([ADD_ONE]) && RV.EndState(g, [ADD_ONE], s) == Some(Set(s, 5, Add(Get(s, 5), 1)))
    ensures GuestBlock(g, [ADD_ONE], s) == Some((Set(s, 5, Add(Get(s, 5), 1)), 0x1004))
    ensures LC.LinkHeld([ADD_ONE], Set(s, 5, Add(Get(s, 5), 1)))
  {
    OneBlock();
    OneInstruction(g, ADD_ONE, s);
  }

  /** The block is translated, and its bytes add 1 to x5, change nothing else that is represented, and
      go to the next instruction, whatever the guest and wherever it lives. */
  lemma Increments(l: Layout, order: seq<nat>, ivs: seq<LiveInterval>, g: GuestState, s: A.State)
    requires RV.IsBlock([ADD_ONE]) && L.IsOrder(order, Modified([ADD_ONE])) && Ready(l, s, g)
    requires AreIntervals(SelectedCode(L.LiftedBlock(1, [ADD_ONE], order)), ivs)
    ensures
      var bytes := BytesOf([ADD_ONE], order, ivs);
      bytes.Some? && Returned(l, s, RunMapped(l, bytes.value, s), Set(g, 5, Add(Get(g, 5), 1)), 0x1004)
  {
    OneBlock();
    hide L.LiftAll, L.LiftedBlock, L.IsOrder, RV.IsBlock, AreIntervals, Scan, Returned, Ready, GuestBlock, GuestTally,
      LC.LinkHeld, SelectedCode, Allocated, EncodeAll, RunMapped, RV.EndState, SharedOperands;
    SmallBlockAllocates([ADD_ONE], order, ivs);
    AddOneRuns(l.region, g);
    PlainCodeCorrectIff(l, [ADD_ONE], order, ivs, g, s);
  }

  /* ---- A block that is not ---- */

  const BAD_BLOCK: seq<RV.Instruction> := [ADD_ONE, UNLESS_EQUAL]

  lemma BlockShape()
    ensures RV.IsBlock(BAD_BLOCK) && EndsInBranch(BAD_BLOCK) && RV.Straight(BAD_BLOCK) == [ADD_ONE]
    ensures LastBranch(BAD_BLOCK) == Jump(RV.BNE, 6, 7, 0x100C, 0x1008)
    ensures GuestTally(BAD_BLOCK) == Tally(0, 0, 0, 0, 0)
  {
    assert BAD_BLOCK[..1] == [ADD_ONE];
    StraightTally(BAD_BLOCK);
    OneBlock();
  }

  lemma NamesFive()
    ensures RV.AllSupported([ADD_ONE]) && RV.NoTerminator([ADD_ONE])
    ensures NamedBy([ADD_ONE]) == {5} && WrittenBy([ADD_ONE]) == {5}
  {
    OneBlock();
    NamedTwo(ADD_ONE);
    assert [ADD_ONE][..0] == [];
  }

  lemma InFailingClass()
    ensures RV.IsBlock(BAD_BLOCK) && EndsInBranch(BAD_BLOCK) && BothNew(BAD_BLOCK) && Surplus(BAD_BLOCK) == 1
  {
    BlockShape();
    NamesFive();
    hide NamedBy, WrittenBy, GuestTally, RV.IsBlock, EndsInBranch, RV.Straight, LastBranch;
  }

  lemma BlockRuns(g: Region, s: GuestState)
    ensures RV.IsBlock(BAD_BLOCK) && RV.EndState(g, BAD_BLOCK, s) == Some(Set(s, 5, Add(Get(s, 5), 1)))
    ensures GuestBlock(g, BAD_BLOCK, s) ==
      Some((Set(s, 5, Add(Get(s, 5), 1)), if Get(s, 6) != Get(s, 7) then 0x100C else 0x1008))
  {
    BlockShape();
    OneInstruction(g, ADD_ONE, s);
    assert BAD_BLOCK[|BAD_BLOCK| - 1] == UNLESS_EQUAL;
    hide RV.Body, RV.Straight;
  }

  /** The block is translated without an error and falls through whatever x6 and x7 hold, where the
      guest branches whenever they differ. */
  lemma Miscompiles(l: Layout, order: seq<nat>, ivs: seq<LiveInterval>, g: GuestState, s: A.State)
    requires RV.IsBlock(BAD_BLOCK) && L.IsOrder(order, Modified(BAD_BLOCK)) && Ready(l, s, g)
    requires AreIntervals(SelectedCode(L.LiftedBlock(1, BAD_BLOCK, order)), ivs)
    ensures
      var bytes := BytesOf(BAD_BLOCK, order, ivs);
      bytes.Some? && Returned(l, s, RunMapped(l, bytes.value, s), Set(g, 5, Add(Get(g, 5), 1)), 0x1008)
    ensures
      var r := GuestBlock(l.region, BAD_BLOCK, g);
      r.Some? && r.value.1 == if Get(g, 6) != Get(g, 7) then 0x100C else 0x1008
  {
    BlockShape();
    InFailingClass();
    BlockRuns(l.region, g);
    hide L.LiftAll, L.LiftedBlock, L.IsOrder, RV.IsBlock, AreIntervals, Scan, Returned, Ready, GuestBlock, GuestTally,
      SelectedCode, Allocated, EncodeAll, RunMapped, RV.EndState, SharedOperands, BothNew, Surplus, LastBranch,
      EndsInBranch, RV.Straight;
    SmallBlockAllocates(BAD_BLOCK, order, ivs);
    NewOperandsShareIff(BAD_BLOCK, order, ivs);
    NoXorKept(BAD_BLOCK);
    MachineCodeExact(l, BAD_BLOCK, order, ivs, g, s);
  }
}
