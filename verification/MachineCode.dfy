/** Blocks as machine code: the bytes a block is encoded to, and what running them does. */
module MachineCode {
  import opened Options
  import opened Words
  import opened Arm64
  import opened Encoder
  import opened EncoderCorrect
  import M = Memory

  // The bytes of all instructions in order; None when one of them does not encode
  function EncodeAll(code: seq<Instruction>): Option<seq<bv8>> {
    if code == [] then Some([])
    else
      var before :- EncodeAll(code[..|code| - 1]);
      var bytes :- EncodeInstruction(code[|code| - 1]);
      Some(before + bytes)
  }

  // Fetch, decode and execute from the first byte up to a RET
  function Run(bytes: seq<bv8>, s: State): Option<State>
    decreases |bytes|
  {
    if |bytes| < 4 then None
    else
      var i :- Decode(WordOfBytes(bytes[..4]));
      if IsReturn(i) then Some(s) else Run(bytes[4..], Step(i, s))
  }

  predicate Encodable(i: Instruction) { Emitted(i) && Physical(i) }

  predicate AllEncodable(code: seq<Instruction>) { forall k :: 0 <= k < |code| ==> Encodable(code[k]) }

  /** Encoding is total: four bytes for each instruction. */
  lemma {:induction false} EncodingTotal(code: seq<Instruction>)
    requires AllEncodable(code)
    ensures EncodeAll(code).Some? && |EncodeAll(code).value| == 4 * |code|
    ensures forall k :: 0 <= k < |code| ==>
              EncodeInstruction(code[k]) == Some(EncodeAll(code).value[4 * k..4 * k + 4])
  {
    hide EncodeInstruction, Emitted, Physical, Decode, WordOfBytes, Canonical, Misencoded;
    if code != [] {
      var n := |code| - 1;
      EncodingTotal(code[..n]);
      EncodingRoundTrip(code[n]);
      forall k | 0 <= k < |code| ensures EncodeInstruction(code[k]) == Some(EncodeAll(code).value[4 * k..4 * k + 4]) {
        var before := EncodeAll(code[..n]).value;
        if k < n {
          assert code[..n][k] == code[k];
          assert EncodeAll(code).value[4 * k..4 * k + 4] == before[4 * k..4 * k + 4];
        } else {
          assert EncodeAll(code).value[4 * k..4 * k + 4] == EncodeInstruction(code[n]).value;
        }
      }
    }
  }

  /* ---- What the bytes do ---- */

  predicate IsEor(i: Instruction) { i.ThreeOperand? && i.op.EOR? }

  predicate IsLsr(i: Instruction) { i.ThreeOperand? && i.op.LSR? }

  // AND for EOR
  function WithAnd(i: Instruction): Instruction {
    if IsEor(i) then ThreeOperand(AND, i.size, i.dest, i.src1, i.src2) else i
  }

  function AllWithAnd(code: seq<Instruction>): seq<Instruction> {
    seq(|code|, k requires 0 <= k < |code| => WithAnd(code[k]))
  }

  predicate SetsFlags(i: Instruction) { i.TwoOperand? && i.op.CMP? }

  predicate UsesFlags(i: Instruction) { i.Conditional? || i.ConditionalSelect? }

  // The flags before the code matter up to its RET
  predicate FlagsNeeded(code: seq<Instruction>) {
    code != [] && !IsReturn(code[0]) && !SetsFlags(code[0]) && (UsesFlags(code[0]) || FlagsNeeded(code[1..]))
  }

  // No EOR stands where the flags matter
  predicate Quiet(code: seq<Instruction>) {
    forall k :: 0 <= k < |code| && IsEor(code[k]) ==> !FlagsNeeded(code[k + 1..])
  }

  // Equal but for flags that do not matter
  ghost predicate Alike(s: State, s': State, needed: bool) {
    s'.regs == s.regs && s'.mem == s.mem && (needed ==> s'.flags == s.flags)
  }

  lemma EorAlike(i: Instruction, s: State, s': State)
    requires IsEor(i) && Alike(s, s', false)
    ensures AsExecuted(i).Some? && Alike(Step(WithAnd(i), s), Step(AsExecuted(i).value, s'), false)
  {
    hide Bits64, LogicalFlags;
  }

  // Instructions that neither set nor use the flags
  lemma NeutralAlike(i: Instruction, s: State, s': State, needed: bool)
    requires !SetsFlags(i) && !UsesFlags(i) && (i.ThreeOperand? ==> !i.op.ANDS?) && Alike(s, s', needed)
    ensures Alike(Step(i, s), Step(i, s'), needed)
  {
    hide Unary, LoadSized, MoveWideValue, M.Store, Offset, Bytes, Alu64, Alu32;
  }

  lemma FlagsAlike(i: Instruction, s: State, s': State, needed: bool)
    requires SetsFlags(i) || UsesFlags(i)
    requires Alike(s, s', !SetsFlags(i))
    ensures Alike(Step(i, s), Step(i, s'), needed)
  {
    hide CompareFlags, Holds, Sized;
  }

  lemma StepAlike(i: Instruction, s: State, s': State, needed: bool)
    requires Emitted(i) && !IsLsr(i) && !IsReturn(i) && (IsEor(i) ==> !needed)
    requires Alike(s, s', !SetsFlags(i) && (UsesFlags(i) || needed))
    ensures AsExecuted(i).Some? && Alike(Step(WithAnd(i), s), Step(AsExecuted(i).value, s'), needed)
  {
    if IsEor(i) {
      EorAlike(i, s, s');
    } else {
      CanonicalMeansTheSame(i, s');
      EmittedNotAnds(i);
      hide Step, Alike, Canonical, Emitted;
      if SetsFlags(i) || UsesFlags(i) { FlagsAlike(i, s, s', needed); } else { NeutralAlike(i, s, s', needed); }
    }
  }

  lemma EmittedNotAnds(i: Instruction)
    requires Emitted(i)
    ensures i.ThreeOperand? ==> !i.op.ANDS?
  {
  }

  // Both calls return with equal registers and memory, or neither returns
  ghost predicate SameOutcome(out: Option<State>, out': Option<State>) {
    out.Some? == out'.Some? && (out.Some? ==> out'.value.regs == out.value.regs && out'.value.mem == out.value.mem)
  }

  lemma ReturnsAsEncoded(i: Instruction)
    requires !IsLsr(i)
    ensures AsExecuted(i).Some? && IsReturn(AsExecuted(i).value) == IsReturn(i) == IsReturn(WithAnd(i))
  {
  }

  // Running the bytes from an instruction boundary is running the rest of the code
  lemma {:induction false} RunFrom(code: seq<Instruction>, bytes: seq<bv8>, k: nat, s: State, s': State)
    requires AllEncodable(code) && Quiet(code) && (forall j :: 0 <= j < |code| ==> !IsLsr(code[j]))
    requires k <= |code| && |bytes| == 4 * |code| && Alike(s, s', FlagsNeeded(code[k..]))
    requires forall j :: 0 <= j < |code| ==> EncodeInstruction(code[j]) == Some(bytes[4 * j..4 * j + 4])
    ensures SameOutcome(Call(AllWithAnd(code)[k..], s), Run(bytes[4 * k..], s'))
    decreases |code| - k
  {
    hide EncodeInstruction, Emitted, Physical, Decode, WordOfBytes, Canonical, Misencoded, Step, AsExecuted, WithAnd,
      IsEor, IsLsr;
    if k < |code| {
      var i := code[k];
      var rest := bytes[4 * k..];
      assert rest[..4] == bytes[4 * k..4 * k + 4];
      EncodingRoundTrip(i);
      ReturnsAsEncoded(i);
      assert code[k..][1..] == code[k + 1..];
      assert AllWithAnd(code)[k..][1..] == AllWithAnd(code)[k + 1..];
      if !IsReturn(i) {
        StepAlike(i, s, s', FlagsNeeded(code[k + 1..]));
        assert rest[4..] == bytes[4 * (k + 1)..];
        RunFrom(code, bytes, k + 1, Step(WithAnd(i), s), Step(AsExecuted(i).value, s'));
      }
    }
  }

  /** The bytes do what the instructions do with AND in the place of EOR, when no flags are live
      across an EOR and there is no register LSR. */
  lemma BytesMeanCode(code: seq<Instruction>, s: State)
    requires AllEncodable(code) && Quiet(code) && forall k :: 0 <= k < |code| ==> !IsLsr(code[k])
    ensures EncodeAll(code).Some? && SameOutcome(Call(AllWithAnd(code), s), Run(EncodeAll(code).value, s))
  {
    EncodingTotal(code);
    hide EncodeAll, EncodeInstruction, Encodable, Run, Call, Quiet, IsLsr, AllWithAnd, FlagsNeeded;
    var bytes := EncodeAll(code).value;
    RunFrom(code, bytes, 0, s, s);
    assert bytes[0..] == bytes && AllWithAnd(code)[0..] == AllWithAnd(code);
  }

  lemma {:induction false} StopsFrom(code: seq<Instruction>, bytes: seq<bv8>, n: nat, k: nat, s: State)
    requires AllEncodable(code) && k <= n < |code| && |bytes| == 4 * |code| && IsLsr(code[n])
    requires forall j :: 0 <= j < n ==> !IsReturn(code[j])
    requires forall j :: 0 <= j < |code| ==> EncodeInstruction(code[j]) == Some(bytes[4 * j..4 * j + 4])
    ensures Run(bytes[4 * k..], s).None?
    decreases n - k
  {
    hide EncodeInstruction, Emitted, Physical, Decode, WordOfBytes, Canonical, Misencoded, Step;
    var i := code[k];
    var rest := bytes[4 * k..];
    assert rest[..4] == bytes[4 * k..4 * k + 4];
    EncodingRoundTrip(i);
    if !IsLsr(i) {
      ReturnsAsEncoded(i);
      assert rest[4..] == bytes[4 * (k + 1)..];
      StopsFrom(code, bytes, n, k + 1, Step(AsExecuted(i).value, s));
    }
  }

  /** The word of a register LSR is not an instruction: execution comes to it and no further. */
  lemma ShiftStops(code: seq<Instruction>, n: nat, s: State)
    requires AllEncodable(code) && n < |code| && IsLsr(code[n]) && forall j :: 0 <= j < n ==> !IsReturn(code[j])
    ensures EncodeAll(code).Some? && Run(EncodeAll(code).value, s).None?
  {
    EncodingTotal(code);
    hide EncodeAll, EncodeInstruction, Encodable, Run;
    var bytes := EncodeAll(code).value;
    StopsFrom(code, bytes, n, 0, s);
    assert bytes[0..] == bytes;
  }

  /** A virtual register left in the code stops the translation. */
  lemma {:induction false} VirtualStops(code: seq<Instruction>, k: nat)
    requires k < |code| && MentionsVirtual(code[k])
    ensures EncodeAll(code).None?
    decreases |code|
  {
    var n := |code| - 1;
    if k == n {
      VirtualFails(code[n]);
    } else {
      VirtualStops(code[..n], k);
    }
    hide EncodeInstruction, MentionsVirtual;
  }
}
