/** The register allocator, as it updates its fields and rewrites the instructions in place. */
module RegisterAllocator {
  import opened Options
  import opened Arm64
  import opened LivenessSpec
  import opened AllocatorSpec

  class RegisterAllocator {
    var allocation: map<nat, Register>
    var activeIntervals: seq<Active>

    constructor ()
      ensures allocation == map[] && activeIntervals == []
    {
      allocation := map[];
      activeIntervals := [];
    }

    // erase-remove of the intervals that have ended
    method ExpireOldIntervals(currentPoint: nat)
      modifies `activeIntervals
      ensures activeIntervals == Expire(old(activeIntervals), currentPoint)
    {
      var kept := [];
      var i := 0;
      while i < |activeIntervals|
        invariant 0 <= i <= |activeIntervals| && activeIntervals == old(activeIntervals)
        invariant kept == Expire(activeIntervals[..i], currentPoint)
      {
        assert activeIntervals[..i + 1][..i] == activeIntervals[..i];
        if activeIntervals[i].iv.end >= currentPoint {
          kept := kept + [activeIntervals[i]];
        }
        i := i + 1;
      }
      assert activeIntervals[..i] == activeIntervals;
      activeIntervals := kept;
    }

    method IsInUse(reg: Register) returns (used: bool)
      ensures used == InUse(activeIntervals, reg)
    {
      var i := 0;
      while i < |activeIntervals|
        invariant 0 <= i <= |activeIntervals|
        invariant forall k :: 0 <= k < i ==> activeIntervals[k].reg != reg
      {
        if activeIntervals[i].reg == reg {
          return true;
        }
        i := i + 1;
      }
      used := false;
    }

    // The first of X1..X28 that no active interval has
    method GetNextAvailableRegister() returns (reg: Option<Register>)
      ensures reg == FirstFree(activeIntervals, FIRST)
    {
      var r := FIRST;
      while r <= LAST
        invariant FIRST <= r <= LAST + 1
        invariant FirstFree(activeIntervals, r) == FirstFree(activeIntervals, FIRST)
      {
        var used := IsInUse(r);
        if !used {
          return Some(r);
        }
        r := r + 1;
      }
      reg := None;
    }

    // Some(true): allocated and rewritten. Some(false): out of registers, instructions untouched.
    // None: a virtual register without an interval throws.
    method AllocateRegisters(instructions: array<Instruction>, liveIntervals: seq<LiveInterval>)
      returns (ok: Option<bool>)
      modifies this, instructions
      ensures Scan(liveIntervals).None? ==> ok == Some(false) && instructions[..] == old(instructions[..])
      ensures Scan(liveIntervals).Some? ==>
                var alloc := Scan(liveIntervals).value.0;
                && allocation == alloc
                && (ok == Some(true) || ok == None)
                && (ok == Some(true) <==> forall i :: i in old(instructions[..]) ==> Covered(alloc, i))
                && (ok == Some(true) ==> instructions[..] == RewriteAll(alloc, old(instructions[..])))
    {
      hide Expire, FirstFree, Covered;
      allocation := map[];
      activeIntervals := [];
      var k := 0;
      while k < |liveIntervals|
        invariant 0 <= k <= |liveIntervals|
        invariant Scan(liveIntervals[..k]) == Some((allocation, activeIntervals))
        invariant instructions[..] == old(instructions[..])
      {
        var interval := liveIntervals[k];
        ScanSnoc(liveIntervals, k);
        ExpireOldIntervals(interval.start);
        var physReg := GetNextAvailableRegister();
        if physReg.None? {
          ScanFails(liveIntervals, k + 1);
          return Some(false);
        }
        allocation := allocation[interval.vreg := physReg.value];
        activeIntervals := activeIntervals + [Active(interval, physReg.value)];
        k := k + 1;
      }
      assert liveIntervals[..k] == liveIntervals;
      var rewritten := ReplaceAll(instructions);
      ok := if rewritten then Some(true) else None;
    }

    // Rewrites the instructions one after the other, up to one that throws
    method ReplaceAll(instructions: array<Instruction>) returns (ok: bool)
      modifies instructions
      ensures ok <==> forall i :: i in old(instructions[..]) ==> Covered(allocation, i)
      ensures ok ==> instructions[..] == RewriteAll(allocation, old(instructions[..]))
    {
      hide Covered, Rewrite;
      var n := 0;
      while n < instructions.Length
        invariant 0 <= n <= instructions.Length
        invariant forall j :: 0 <= j < n ==> Covered(allocation, old(instructions[j]))
        invariant forall j :: 0 <= j < n ==> instructions[j] == Rewrite(allocation, old(instructions[j]))
        invariant forall j :: n <= j < instructions.Length ==> instructions[j] == old(instructions[j])
      {
        var replaced := ReplaceVirtualRegisters(instructions[n]);
        if replaced.None? {
          assert old(instructions[n]) in old(instructions[..]);
          return false;
        }
        instructions[n] := replaced.value;
        n := n + 1;
      }
      ok := true;
    }

    function GetPhysicalRegister(vreg: nat): (reg: Option<Register>)
      reads this
      ensures reg.Some? <==> vreg in allocation
      ensures reg.Some? ==> reg.value == allocation[vreg]
    {
      if vreg in allocation then Some(allocation[vreg]) else None
    }

    // None: no register assigned
    function ReplaceOperandRegister(o: Operand): (r: Option<Operand>)
      reads this
      ensures r == if VRegs(o) <= allocation.Keys then Some(RewriteOperand(allocation, o)) else None
    {
      match o
      case Phys(_) => Some(o)
      case Imm(_) => Some(o)
      case VReg(v) =>
        var reg :- GetPhysicalRegister(v);
        Some(Phys(reg))
    }

    function ReplaceVirtualRegisters(inst: Instruction): (r: Option<Instruction>)
      reads this
      ensures r == if Covered(allocation, inst) then Some(Rewrite(allocation, inst)) else None
    {
      hide RewriteOperand, VRegs;
      match inst
      case ThreeOperand(op, size, dest, src1, src2) =>
        var d :- ReplaceOperandRegister(dest);
        var a :- ReplaceOperandRegister(src1);
        var b :- ReplaceOperandRegister(src2);
        Some(ThreeOperand(op, size, d, a, b))
      case TwoOperand(op, size, dest, src) =>
        var d :- ReplaceOperandRegister(dest);
        var a :- ReplaceOperandRegister(src);
        Some(TwoOperand(op, size, d, a))
      case MemoryInst(op, size, reg, base, offset) =>
        var r :- ReplaceOperandRegister(reg);
        var b :- ReplaceOperandRegister(base);
        Some(MemoryInst(op, size, r, b, offset))
      case MoveWide(op, size, dest, imm16, shift) =>
        var d :- ReplaceOperandRegister(dest);
        Some(MoveWide(op, size, d, imm16, shift))
      case Conditional(op, size, dest, cond) =>
        var d :- ReplaceOperandRegister(dest);
        Some(Conditional(op, size, d, cond))
      case ConditionalSelect(op, size, dest, src1, src2, cond) =>
        var d :- ReplaceOperandRegister(dest);
        var a :- ReplaceOperandRegister(src1);
        var b :- ReplaceOperandRegister(src2);
        Some(ConditionalSelect(op, size, d, a, b, cond))
    }
  }

  lemma ScanSnoc(ivs: seq<LiveInterval>, k: nat)
    requires k < |ivs| && Scan(ivs[..k]).Some?
    ensures
      var (alloc, active) := Scan(ivs[..k]).value;
      var kept := Expire(active, ivs[k].start);
      Scan(ivs[..k + 1]) ==
      match FirstFree(kept, FIRST)
      case None => None
      case Some(r) => Some((alloc[ivs[k].vreg := r], kept + [Active(ivs[k], r)]))
  {
    hide Expire, FirstFree;
    assert ivs[..k + 1][..k] == ivs[..k];
  }

  // Without spilling, a failure is final
  lemma {:induction false} ScanFails(ivs: seq<LiveInterval>, k: nat)
    requires k <= |ivs| && Scan(ivs[..k]).None?
    ensures Scan(ivs).None?
    decreases |ivs| - k
  {
    if k < |ivs| {
      hide Expire, FirstFree;
      assert ivs[..k + 1][..k] == ivs[..k];
      ScanFails(ivs, k + 1);
    } else {
      assert ivs[..k] == ivs;
    }
  }
}
