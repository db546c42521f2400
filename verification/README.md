# DinoRISC, verified model

DinoRISC is a dynamic binary translator: it decodes a basic block of RV64I code, lifts it to a
block-local SSA intermediate representation, selects ARM64 instructions over unbounded virtual
registers, allocates X1..X28 by linear scan, encodes the result and calls it, block after block.
This project models the translator and proves that the machine code of a block does what the guest
instructions do, and exactly where it does not.

## How it is built

Each stage has three layers.

- *Meanings.* `RiscV` (the guest, instruction by instruction), `IR`, `Arm64` (one state for virtual
  and physical registers, with NZCV), `HostLayout` (GuestState and shadow memory in host memory),
  `Words` and `Memory` (64-bit words as integers below 2^64, byte-addressed little-endian memory).
- *What the code computes*, as functions on its state: `LifterSpec`, `SelectorSpec`,
  `LivenessSpec`, `AllocatorSpec`, `Encoder`, `Decoder`, `MachineCode`, `Dispatch`. An exception is
  a `None`.
- *The code itself*, in its imperative form: the classes `Lifter`, `InstructionSelector`,
  `LivenessAnalysis`, `RegisterAllocator` and `BinaryTranslator` update the same fields in the same
  order, with loops, and each method is proved to compute the function of the layer below. The
  iteration order of hash sets and maps is left arbitrary. Encoder and decoder are pure in the
  original and are functions here.

The theorems are proved about the functions, and compose:

1. `LifterCorrect`: a simulation between the IR emitted so far, the register cache and the guest.
2. `SelectorCorrect`: every IR value sits zero-extended in its 64-bit virtual register. From this
   follow the 64-bit MOV for a zero-extension, wide constants, comparisons through NZCV, address
   translation and the conditional exit.
3. `AllocationCorrect`, `AllocatorSpec`: rewriting is right when no definition overwrites the register
   of a value that true dataflow still needs (`SafeSimulates`). The analysis keeps the last definition
   only and does not see that MOVK reads its destination; its intervals are enough for code of the
   *window shape* (the definitions of a register are consecutive, nothing is used strictly inside the
   window, every use follows the window, and a MOVK continues one). `SelectorShape`: selected code has
   that shape exactly when the branch temporaries get new ids.
4. `Pieces`, `BranchCode`, `BranchReuse`, `TargetRegisters`, `SharedRegisters`: in general selected code
   is two window-shaped pieces, and the second, which loads the branch targets, may take registers of
   the first. Whatever it takes, the code is right unless the two compared values end up in one
   register, and then it is the code of the block that compares a value with itself.
5. `EncoderCorrect`, `MachineCode`, `AndForXor`, `LiftedAnd`: running the bytes is running the
   instructions with AND in the place of EOR, and that is translating the block with AND in the place
   of XOR.
6. `Pipeline`, `BranchOutcome`, `Translation`: all of it composed for one block, down to the bytes, with
   exact conditions. `HostAccess`: the bytes access GuestState and the shadow mapping and nothing else, so
   that they run on a host where any other access is a fault. `ConstantBranch`, `SmallBlocks` and
   `Examples`: a second class of blocks that go wrong, short blocks, which are always translated, and two
   of them.
7. `IsaDecoder`, `Dispatch`, `BinaryTranslator`: whole runs refine the guest's own run, one instruction
   at a time and decoded by the ISA.

Guest accesses outside the shadow region have no meaning in the model (`None`), so the theorems speak of
runs that stay inside it; what the process does otherwise depends on what else is mapped there. "RET
means stop" is part of the guest's meaning in `Pipeline` and `Dispatch`, as the dispatcher decides it.

## Where the code is not faithful

Each of these is kept in the model as the code has it, and each theorem that depends on it carries
the condition.

- *Link register.* JAL and JALR put the return address in the register cache after write-back, so it
  is lost. A lifted block is faithful if and only if the link register is x0 or already holds the
  return address (`LifterCorrect.LiftFaithfulIff`).
- *RET* stops the run; it agrees with the ISA exactly when x1 is 0 or 1 (same lemma).
- *Branch temporaries* take value ids from the virtual register counter, and when an id is a value's,
  the target takes over its register, whose interval then begins at the target. `LiftedBranch.FreshIff`
  says when that happens, in terms of the guest block; most blocks are translated right all the same.
  The code goes wrong exactly when the two compared values are given the same register: then the branch
  compares that register with itself (`Pipeline.BlockExact`, `BranchOutcome.BlockCorrectIff`).
  `BranchOutcome.SharedIff` says exactly when they are. With both registers of the branch new to the
  block, it is when the registers that the block writes are one more than three for each load and two
  for each store (`BranchOutcome.NewOperandsShareIff`); then BNE, BLT and BLTU never branch and BEQ, BGE
  and BGEU always do (`BranchOutcome.FailingClass`). `Examples.Miscompiles` is one of these blocks:
  `addi x5, x5, 1; bne x6, x7, +8`. With one new register it depends on where the other one's value is:
  a constant loaded last by LUI, the only register written, is in X1, and the branch on it fails in the
  same way (`ConstantBranch.ConstantFailingClass`). Branches on registers that the block names before, and
  all that `BranchOutcome.NeverShared` lists, are right.
- *XOR and XORI.* The register form of EOR is encoded with both opc bits set, which the Arm ARM decodes
  as ANDS (`EncoderCorrect.EorIsAnds`). The processor runs it: the bytes of a block do what the block
  does with AND in the place of XOR, no flags being live there (`Translation.MachineCodeExact`), so a
  block of one XOR is right exactly when both operands are zero (`Translation.OneXorRightIff`). Comments
  in lib/ARM64/Encoder.cpp describe the pattern as intended; the model follows the code.
- *Logical right shift.* The register form of LSR is an unallocated encoding. A block with SRL or SRLI is
  translated, and its bytes stop at that word (`Translation.ShiftBlockStops`). Every other emitted form
  decodes to what was encoded (`EncoderCorrect.EncodingRoundTrip`).
- *Decoding.* The decoder knows funct7 0x20 and takes any other value for 0, so that it reads words of other
  extensions (MUL as ADD), reads SRAI by 32 or more as SRLI, and shifts the operand of LUI and AUIPC,
  which the lifter shifts again. It throws on FENCE. `IsaDecoder.DecodesRightIff` gives exactly the words that
  are read as the ISA reads them, `DecoderCorrect.ShiftDecodesRightIff` and
  `UpperImmediates.UpperShiftedTwice` what the others come to, `IsaDecoder.MissesFenceOnly` that no other
  instruction is missed.
- *The end of the address space.* The sum of the text section's address and size wraps, so that a section
  that ends there has no valid address (`Dispatch.AllValidIff`).

## Model

| member | source | states |
|---|---|---|
| BinaryTranslator.BinaryTranslator.ExecuteFunction | lib/BinaryTranslator.cpp:161-194 | Whole-run refinement with progress: when every block that comes up is faithful, the host holds the registers and memory that the guest's own run reaches after at least as many instructions as blocks; the run ends at address 0 or after 10000 blocks and returns the low 32 bits of x10 as a signed number, or throws, and then only at an address where nothing can be lifted or at a block with a point in more than 28 of its own intervals; it does not crash and never changes x0 |
| BinaryTranslator.BinaryTranslator.ExecuteBlock | lib/BinaryTranslator.cpp:98-159 | Throws, leaving the host untouched, exactly when the address is invalid, decoding fails, an instruction is not lifted, or a point lies in more than 28 intervals of the code selected for this block; otherwise ends the process when the block has a logical right shift; otherwise, when the guest stays in its memory, the bytes run to their return without an access outside GuestState and the shadow mapping, and the host holds what they do to the guest, at the next address, and nothing else in memory has changed |
| BinaryTranslator.BinaryTranslator.DecodeBlock | lib/BinaryTranslator.cpp:105-127 | The decode loop yields the instructions up to the first control transfer or the end of the section, or throws |
| BinaryTranslator.BinaryTranslator.TranslateToArm64 | lib/BinaryTranslator.cpp:63-96 | Selection, analysis and allocation composed; a failed allocation leaves the selected code as it is |
| BinaryTranslator.BinaryTranslator.EncodeInstructions | lib/BinaryTranslator.cpp:141-151 | The bytes of all instructions in order, or the first encoding error |
| Dispatch.BlocksRefineRun | lib/BinaryTranslator.cpp:177-191 | The machine after k blocks, formed of the instructions that the ISA reads, upper immediates included, is one that the guest reaches in at least k single instructions |
| Dispatch.BlockRefines | lib/BinaryTranslator.cpp:105-127 | A formed block does what as many single instructions, fetched one by one, do |
| Dispatch.FormedBlock | lib/BinaryTranslator.cpp:110-132 | A formed block has a control transfer only at its end, and is not empty inside the section |
| Dispatch.SameBlocks | lib/RISCV/Decoder.cpp:64-216 | Where the words of a block, up to its control transfer or the word it throws at, are read as the ISA reads them, the translator forms the ISA's block, and throws where the ISA has none; what follows the block does not matter |
| Dispatch.WordsRightIff | lib/BinaryTranslator.cpp:105-127 | The words of a formed block are read right exactly when the word of each of its instructions is |
| Dispatch.AllValidIff | lib/BinaryTranslator.cpp:202-204 | Every address of the text section is valid exactly when the section ends below 2^64; otherwise none is |
| BinaryTranslator.SoundIsFaithful | lib/BinaryTranslator.cpp:98-159 | A block at a valid address whose own words are read right is faithful, for every write-back order, when it has no XOR and no logical right shift, stays in guest memory, loses no link value and, if it branches, compares two registers that it names before, or two new ones with a surplus of written registers other than one, or one new one with a surplus other than one and three, or goes where comparing a register with itself does |
| Dispatch.RunKeepsZero | lib/Lifter.cpp:186-191 | x0 keeps its value in every run |
| Translation.MachineCodeExact | lib/BinaryTranslator.cpp:98-159 | Down to the bytes, for every block without a logical right shift that stays in guest memory: called with X0 at GuestState, on a host where only GuestState and the shadow mapping may be accessed, they return to the caller with the registers and memory that the instructions leave with AND in the place of XOR, go to the allocated target, and change nothing else |
| Translation.MachineCodeCorrectIff | lib/BinaryTranslator.cpp:98-159 | The bytes of a block do what its RISC-V instructions do one by one exactly when it has no logical right shift and the block with AND for XOR, without its link and with the allocated target, leaves the same registers, guest memory and address |
| Translation.PlainCodeCorrectIff | lib/BinaryTranslator.cpp:98-159 | Without XOR: exactly when there is no logical right shift, the link register holds the link value already, and the branch goes right |
| Translation.OneXorRightIff | lib/ARM64/Encoder.cpp:121-134 | The bytes of a block of one XOR or XORI to a register other than x0 are right exactly when both operands are zero |
| Translation.PlainBlockReturns | lib/ExecutionEngine.cpp:9-33 | The bytes of a block without a logical right shift return when the guest stays in its memory, and run the same on a host where any access outside GuestState and the shadow mapping is a fault |
| HostAccess.AllocatedInside | lib/Lowering/InstructionSelector.cpp:282-372 | Every access of the allocated code of such a block is to GuestState or the shadow mapping |
| HostAccess.SafeStaysInside | lib/Lowering/RegisterAllocator.cpp:56-59 | An allocation that overwrites nothing needed keeps every access where it was |
| HostAccess.BytesStayInside | lib/ExecutionEngine.cpp:9-33 | The bytes of code that accesses nothing else run the same where nothing else is mapped |
| Translation.ShiftBlockStops | lib/ARM64/Encoder.cpp:210-218 | A block with a logical right shift is translated, and its bytes come to a word that is not an instruction before they return |
| BranchOutcome.BlockCorrectIff | lib/BinaryTranslator.cpp:63-96 | The allocated ARM64 instructions of a block do what its RISC-V instructions do one by one exactly when no link value is lost and a branch whose compared values share a register goes where comparing a register with itself does |
| Pipeline.BlockExact | lib/BinaryTranslator.cpp:63-96 | What the allocated instructions of every block do, lone branches, reused branch temporaries, XOR and shifts included: the end state, and the block's target unless the compared values share a register |
| Pipeline.SafeBlockCorrect | lib/BinaryTranslator.cpp:63-96 | With value ids that start anywhere, the allocated code is right when no definition overwrites the register of a value still needed |
| Pipeline.FreshIsSafe | lib/Lowering/InstructionSelector.cpp:211-227 | That is so when the ids of the branch targets are new |
| BranchOutcome.SharedIff | lib/Lowering/InstructionSelector.cpp:211-227 | Exactly when the compared values share a register: never when both are older than the comparison, when the ids lead the register counter by one if both are read for it, and if one is read, when a target takes its register and the older value gets that of the target, X1 or X2, by the live intervals of the code |
| BranchOutcome.NewOperandsShareIff | lib/Lowering/InstructionSelector.cpp:211-227 | For a branch on two registers that its block names nowhere else: exactly when the block writes one register more than three for each load and two for each store |
| BranchOutcome.NeverShared | lib/Lowering/InstructionSelector.cpp:211-227 | Never for two registers that the block names before, for two new ones unless that surplus is one, and for one new one unless it is one or three |
| BranchOutcome.FailingClass | lib/Lowering/InstructionSelector.cpp:211-227 | A failing class: with a surplus of one and two new registers, BNE, BLT and BLTU never branch and BEQ, BGE and BGEU always do, whatever the registers hold |
| ConstantBranch.ConstantShared | lib/Lowering/InstructionSelector.cpp:211-227 | They share when the last instruction before the branch is LUI, its register is the only one written, nothing is loaded or stored, and the branch compares that register with a new one |
| ConstantBranch.ConstantFailingClass | lib/Lowering/InstructionSelector.cpp:211-227 | A second failing class: there too BNE, BLT and BLTU never branch and BEQ, BGE and BGEU always do, whatever the registers hold |
| BranchReuse.UnsharedIsSafe | lib/Lowering/InstructionSelector.cpp:198-250 | A branch whose compared values have registers of their own overwrites nothing that is needed, whatever its targets take over |
| BranchReuse.KeptOperandsApart | lib/Lowering/InstructionSelector.cpp:198-250 | The compared values have registers of their own when the targets take neither of theirs, as when each id is new or is the comparison's own |
| BranchReuse.SharedIsSelf | lib/Lowering/RegisterAllocator.cpp:105-132 | When they share, the allocated code is that of the block that compares the value read last with itself, and there it is safe |
| SharedRegisters.TwoReadsShareIff | lib/Lowering/RegisterAllocator.cpp:38-54 | Two values both read for the comparison are in one register exactly when the ids lead by one |
| SharedRegisters.OneReadShareIff | lib/Lowering/RegisterAllocator.cpp:38-54 | A value read for the comparison shares with an older one exactly when a target takes its register and the older one is in the register of that target |
| TargetRegisters.TargetsGetFirstTwo | lib/Lowering/RegisterAllocator.cpp:38-54 | The taken target always gets X1 and the other one X2 |
| BranchCode.SelectedPieces | lib/Lowering/InstructionSelector.cpp:42-55 | Every block is selected into two window-shaped pieces, the second of which uses every register that it defines |
| Pieces.PiecesSafe | lib/Lowering/LivenessAnalysis.cpp:29-60 | Two pieces overwrite nothing that is needed when the first does not |
| Translation.BlockEncodes | lib/BinaryTranslator.cpp:141-151 | Every instruction of every block whose registers were allocated encodes to four bytes, whatever the branch ids; the code has an EOR exactly when the guest block has a XOR or XORI, and a register LSR exactly when it has SRL or SRLI |
| Translation.TranslationSucceedsIff | lib/Lowering/RegisterAllocator.cpp:38-54 | Every block is translated to bytes exactly when no program point lies in more than 28 of its intervals |
| Translation.AllocationFailureStops | lib/BinaryTranslator.cpp:79-87 | After a failed allocation the virtual registers are still there and encoding throws |
| Pipeline.ScanAllocates | lib/Lowering/RegisterAllocator.cpp:26-62 | A scan that succeeds gives every defined virtual register one of X1..X28, and overlapping intervals different ones |
| Pipeline.SelectedAllocates | lib/Lowering/RegisterAllocator.cpp:26-62 | The intervals of every selected block can be scanned, and a scan that succeeds covers every register of the code |
| SmallBlocks.SmallBlockAllocates | lib/Lowering/RegisterAllocator.cpp:38-54 | Allocation succeeds when six for each straight-line instruction, three more for each load and two more for each store come to at most 17 |
| Examples.Increments | lib/BinaryTranslator.cpp:98-159 | `addi x5, x5, 1` alone is translated, and its bytes add 1 to x5 and go on, whatever the guest and wherever it lives |
| Examples.Miscompiles | lib/Lowering/InstructionSelector.cpp:211-227 | The same followed by `bne x6, x7, +8` is translated without an error to bytes that fall through from every state, where the guest branches when x6 and x7 differ |
| LiftedBranch.FreshIff | lib/Lowering/InstructionSelector.cpp:211-227 | Branch ids are new exactly when, with e values read or compared at the end of the block, the surplus of written registers over three for each load and two for each store is less than 0, or more than e + 1, or exactly 1 when e = 1 |
| GuestRegisters.AllTouches | lib/Lifter.cpp:171-191 | Any straight-line code adds the registers it names to the cache and those it writes to the modified set, x0 apart, whatever was there before |
| BlockTally.BlockCounted | lib/Lifter.cpp:222-226 | A lifted block numbers its values consecutively and has one IR load, store, register write, XOR or shift for each in the guest block |
| BlockTally.Counter | lib/Lowering/InstructionSelector.cpp:76-86 | The register counter after well-typed code: one register for each value and three more for each memory access |
| LifterCorrect.LiftPreservesMeaning | lib/Lifter.cpp:13-47 | The lifted block leaves the registers and memory, and goes to the address, that the instructions give one by one before a link register is written, RET going to 0 |
| LifterCorrect.LiftFaithfulIff | lib/Lifter.cpp:21-43 | The lifted block agrees with the ISA exactly when no live link register is lost and a RET returns to 0 |
| LifterCorrect.AllCorrect | lib/Lifter.cpp:21-35 | The loop invariant for lists of any length: cached values are current i64 values, uncached registers are unchanged, modified registers are cached, memory agrees |
| LifterCorrect.SingleCorrect | lib/Lifter.cpp:49-169 | Each lifted instruction keeps the invariant and computes what the ISA says |
| LifterCorrect.TerminatorCorrect | lib/Lifter.cpp:314-388 | The terminator leaves registers and memory alone and goes where the ISA says, RET to 0 |
| LifterCorrect.WriteBackCorrect | lib/Lifter.cpp:390-396 | Write-back brings the registers of any order to their current values and no others |
| WriteBackOrder.WriteBackOrderIrrelevant | lib/Lifter.cpp:390-396 | Two orders of write-back give blocks with the same result |
| WriteBackOrder.TerminatorReadsUnmodified | lib/Lifter.cpp:171-184 | Register reads emitted after write-back name unmodified registers only |
| LifterSpec.LiftBlock | lib/Lifter.cpp:13-47 | Lifted code is well typed, in single-assignment order, and its terminator is typed |
| Lifter.Lifter.LiftBasicBlock | lib/Lifter.cpp:13-47 | Throws exactly on an unsupported instruction, and otherwise returns the specified block for some order of the modified registers |
| Lifter.Lifter.LiftSingleInstruction | lib/Lifter.cpp:49-169 | The specified new state for each supported opcode; unsupported ones throw and change nothing |
| Lifter.Lifter.FinalizeRegisterWrites | lib/Lifter.cpp:390-396 | Appends one write for each modified register, in the order in which the set is walked |
| Lifter.Lifter.LiftTerminatorInst | lib/Lifter.cpp:314-378 | The specified new state and terminator for each control transfer |
| Lifter.Lifter.GetRegisterValue | lib/Lifter.cpp:171-184 | A constant for x0, the cached value, or a new read that is cached |
| Lifter.Lifter.SetRegisterValue | lib/Lifter.cpp:186-191 | Caches and marks a register other than x0 |
| Lifter.Lifter.LiftRTypeBinaryOp | lib/Lifter.cpp:228-234 | The register pattern |
| Lifter.Lifter.LiftITypeBinaryOp | lib/Lifter.cpp:236-242 | The immediate pattern |
| Lifter.Lifter.LiftWTypeBinaryOp | lib/Lifter.cpp:244-254 | The 32-bit pattern: truncate, compute, sign-extend |
| Lifter.Lifter.LiftWTypeImmOp | lib/Lifter.cpp:256-264 | The 32-bit immediate pattern |
| Lifter.Lifter.LiftLoadInstruction | lib/Lifter.cpp:266-280 | The load pattern with its extension |
| Lifter.Lifter.LiftStoreInstruction | lib/Lifter.cpp:282-296 | The store pattern with its truncation |
| SelectorCorrect.SelectPreservesMeaning | lib/Lowering/InstructionSelector.cpp:42-55 | The virtual-register code of any IR block that runs returns with its registers and memory in host memory, its next address in X0, and nothing else changed, reused branch temporaries included |
| SelectorCorrect.InstructionCorrect | lib/Lowering/InstructionSelector.cpp:100-142 | The code of one IR instruction keeps the simulation, in which every value is zero-extended in its register |
| SelectorCorrect.ConstantSynthesis | lib/Lowering/InstructionSelector.cpp:378-425 | The MOVN, MOV or MOVZ/MOVK sequence leaves exactly the constant, mod 2^64 or 2^32, whatever was there before |
| SelectorCorrect.CompareLowering | lib/Lowering/InstructionSelector.cpp:11-36 | NZCV of CMP under the mapped condition is the comparison, for all operands and all ten opcodes |
| SelectorCorrect.CondBranchCorrect | lib/Lowering/InstructionSelector.cpp:198-250 | The conditional exit puts the right target in X0, even when its temporary ids reuse a register |
| SelectorCorrect.TranslateCorrect | lib/Lowering/InstructionSelector.cpp:324-369 | The address sequence computes the host address of every accessible guest address and changes only new registers |
| SelectorCorrect.LoadCorrect | lib/Lowering/InstructionSelector.cpp:281-300 | A load of any width reads the shadow of the guest bytes, zero-extended |
| SelectorCorrect.StoreCorrect | lib/Lowering/InstructionSelector.cpp:302-322 | A store of any width writes the shadow of the guest bytes and leaves GuestState alone |
| SelectorCorrect.ZextCorrect | lib/Lowering/InstructionSelector.cpp:459-490 | A 64-bit MOV is the zero-extension of an i32 value |
| HostLayout.WriteShadow | lib/GuestState.h:16-19 | A store through the shadow mapping keeps the representation of registers, bases and all of guest memory |
| HostLayout.WriteRegister | lib/GuestState.h:10-11 | A store to a register slot changes that register and nothing else that is represented |
| SelectorTotal.BlockTotal | lib/Lowering/InstructionSelector.cpp:42-55 | Well-typed blocks are selected without an error, into encodable instructions over X0, X30 and virtual registers |
| SelectorTotal.RewrittenEncodes | lib/Lowering/RegisterAllocator.cpp:105-132 | Rewriting a selected instruction with allocated registers leaves an encodable one |
| SelectorShape.ShapeIffFresh | lib/Lowering/InstructionSelector.cpp:198-250 | Selected code has the window shape exactly when the branch temporaries, if any, get new ids |
| SelectorShape.AllShape | lib/Lowering/InstructionSelector.cpp:324-425 | Each virtual register is defined once, in one MOVZ/MOVK run or in one SUB;ADD pair, before its uses |
| InstructionSelector.InstructionSelector.SelectInstructions | lib/Lowering/InstructionSelector.cpp:42-55 | The loop computes the specified code and state, or throws |
| InstructionSelector.InstructionSelector.SelectOne | lib/Lowering/InstructionSelector.cpp:100-142 | The specified code and state for each kind of IR instruction |
| InstructionSelector.InstructionSelector.SelectConstIntoRegister | lib/Lowering/InstructionSelector.cpp:378-425 | The chunk loop emits the specified constant sequence, which ConstantSynthesis shows correct |
| InstructionSelector.InstructionSelector.GenerateAddressTranslation | lib/Lowering/InstructionSelector.cpp:324-369 | Three new registers and the four-instruction sequence |
| InstructionSelector.InstructionSelector.SelectBinaryOp | lib/Lowering/InstructionSelector.cpp:252-279 | CMP and CSET, or one operation |
| InstructionSelector.InstructionSelector.SelectLoadFrom | lib/Lowering/InstructionSelector.cpp:281-300 | The specified load code, or a missing operand |
| InstructionSelector.InstructionSelector.SelectStoreTo | lib/Lowering/InstructionSelector.cpp:302-322 | The specified store code at the recorded type's size, or a missing operand |
| InstructionSelector.InstructionSelector.SelectConditional | lib/Lowering/InstructionSelector.cpp:198-250 | The specified conditional exit, with ids from the register counter |
| InstructionSelector.InstructionSelector.SelectTerminatorCode | lib/Lowering/InstructionSelector.cpp:144-196 | The specified exit followed by RET |
| InstructionSelector.InstructionSelector.AssignVirtualRegister | lib/Lowering/InstructionSelector.cpp:76-86 | An existing register is reused, a new value gets the next one |
| LivenessSpec.DefSiteIsLast | lib/Lowering/LivenessAnalysis.cpp:17-20 | The recorded site is the last definition |
| LivenessSpec.IntervalEnd | lib/Lowering/LivenessAnalysis.cpp:34-52 | An interval runs from the last definition to the last use |
| LivenessSpec.IntervalsAreLiveness | lib/Lowering/LivenessAnalysis.cpp:29-60 | After its last definition, backward dataflow finds a register live at a point exactly when its interval covers the point |
| LivenessSpec.IntervalsUnique | lib/Lowering/LivenessAnalysis.cpp:54-59 | Starts are distinct, so neither hash-map order nor an unstable sort shows |
| LivenessAnalysis.LivenessAnalysis.ComputeUseDef | lib/Lowering/LivenessAnalysis.cpp:10-27 | The tables are the last definitions and the lists of uses |
| LivenessAnalysis.LivenessAnalysis.ComputeLiveIntervals | lib/Lowering/LivenessAnalysis.cpp:29-60 | The result is the intervals of all defined registers in strict order of their starts, whatever order the table is walked in |
| LivenessAnalysis.UsedVirtualRegisters | lib/Lowering/LivenessAnalysis.cpp:62-113 | The used virtual registers of one instruction |
| LivenessAnalysis.DefinedVirtualRegisters | lib/Lowering/LivenessAnalysis.cpp:115-160 | The defined virtual registers of one instruction |
| LivenessAnalysis.MaxElement | lib/Lowering/LivenessAnalysis.cpp:45-48 | The last use is the largest site |
| LivenessAnalysis.SortByStart | lib/Lowering/LivenessAnalysis.cpp:54-57 | A permutation ordered by start |
| AllocatorSpec.ScanInvariant | lib/Lowering/RegisterAllocator.cpp:38-54 | The active list is exactly the processed intervals that reach the current start, in distinct registers; overlapping intervals never share one; only X1..X28 are given out |
| AllocatorSpec.FailsIffCrowded | lib/Lowering/RegisterAllocator.cpp:42-47 | Allocation fails exactly when some program point lies in more intervals than there are registers |
| AllocatorSpec.FirstFitOptimal | lib/Lowering/RegisterAllocator.cpp:83-93 | Register r is given out only if at least r intervals meet at some point |
| AllocatorSpec.GetsIff | lib/Lowering/RegisterAllocator.cpp:38-54 | An interval gets exactly the first register that no earlier interval reaching its start got, a condition on the intervals alone |
| AllocatorSpec.AloneGetsFirst | lib/Lowering/RegisterAllocator.cpp:38-54 | An interval that starts when all earlier ones have ended gets X1 |
| AllocatorSpec.SecondGetsSecond | lib/Lowering/RegisterAllocator.cpp:38-54 | One that starts when only an interval in X1 is left gets X2 |
| AllocationCorrect.AllocationSimulates | lib/Lowering/RegisterAllocator.cpp:56-59 | On window-shaped code with a scan's allocation, the rewritten program simulates the original: alloc[v] holds v's value from its last definition to its last use |
| AllocationCorrect.SafeSimulates | lib/Lowering/RegisterAllocator.cpp:56-59 | Whenever no definition overwrites the register of a value that is still needed, the rewritten code simulates the original: all that is needed after it is where it was put, and memory, flags and reserved registers agree |
| AllocationCorrect.SafePreservesMeaning | lib/Lowering/RegisterAllocator.cpp:26-62 | Calls of both programs then return with the same memory, flags and reserved registers |
| AllocationCorrect.WindowIsSafe | lib/Lowering/LivenessAnalysis.cpp:29-60 | On window-shaped code, keeping overlapping intervals apart is enough for that |
| AllocationCorrect.NoClobber | lib/Lowering/LivenessAnalysis.cpp:17-20 | An instruction inside a definition window clobbers no register that is still needed, although the interval starts only at the window's end |
| RegisterAllocator.RegisterAllocator.AllocateRegisters | lib/Lowering/RegisterAllocator.cpp:26-62 | Returns false and leaves the instructions alone exactly when the scan fails, throws exactly on a register without an interval, and otherwise rewrites the array in place as specified |
| RegisterAllocator.RegisterAllocator.ReplaceAll | lib/Lowering/RegisterAllocator.cpp:56-59 | Rewrites every instruction in place, or stops at the first that throws |
| RegisterAllocator.RegisterAllocator.ExpireOldIntervals | lib/Lowering/RegisterAllocator.cpp:95-103 | Keeps the intervals that have not ended, in order |
| RegisterAllocator.RegisterAllocator.GetNextAvailableRegister | lib/Lowering/RegisterAllocator.cpp:83-93 | The first of X1..X28 that no active interval has |
| RegisterAllocator.RegisterAllocator.ReplaceVirtualRegisters | lib/Lowering/RegisterAllocator.cpp:105-132 | The rewritten instruction, or a throw when an operand has no register |
| RegisterAllocator.RegisterAllocator.ReplaceOperandRegister | lib/Lowering/RegisterAllocator.cpp:134-149 | A virtual register becomes its physical one, anything else stays |
| EncoderCorrect.EncodingRoundTrip | lib/ARM64/Encoder.cpp:10-38 | Emitted instructions over physical registers encode to four bytes that decode, by chapter C4 of the Arm ARM, to the same operation, size and operands exactly when they are not a register LSR or EOR; EOR comes back as ANDS and LSR as nothing |
| EncoderCorrect.AluRoundTrip | lib/ARM64/Encoder.cpp:40-247 | The register forms round trip, but for EOR, which decodes to ANDS, and LSR, which does not decode |
| EncoderCorrect.EorIsAnds | lib/ARM64/Encoder.cpp:121-134 | Executing the word of a register EOR leaves the AND of the operands, and the flags of it |
| EncoderCorrect.TwoOperandRoundTrip | lib/ARM64/Encoder.cpp:249-365 | Moves, comparisons, sign extensions and RET round trip |
| EncoderCorrect.MemoryInstRoundTrip | lib/ARM64/Encoder.cpp:367-440 | Loads and stores with scaled offsets round trip |
| EncoderCorrect.MoveWideInstRoundTrip | lib/ARM64/Encoder.cpp:481-511 | MOVZ and MOVK round trip at every position |
| EncoderCorrect.CsetRoundTrip | lib/ARM64/Encoder.cpp:555-577 | CSET is CSINC of zero registers under the inverted condition |
| EncoderCorrect.CselRoundTrip | lib/ARM64/Encoder.cpp:579-608 | CSEL round trips |
| EncoderCorrect.VirtualFails | lib/ARM64/Encoder.cpp:513-526 | An instruction that mentions a virtual register does not encode |
| MachineCode.BytesMeanCode | lib/ExecutionEngine.cpp:9-33 | Fetching, decoding and executing the bytes is calling the code with AND in the place of EOR, up to flags, when no flags are live at an EOR and there is no register LSR |
| MachineCode.ShiftStops | lib/ExecutionEngine.cpp:9-33 | Bytes with a register LSR before the first RET never return |
| AndForXor.SelectedWithAnd | lib/Lowering/InstructionSelector.cpp:42-55 | Selecting the block with AND for XOR gives the code with AND for EOR |
| AndForXor.SelectedQuiet | lib/Lowering/InstructionSelector.cpp:252-279 | No flags are live at an EOR of selected code |
| LiftedAnd.LiftedWithAnd | lib/Lifter.cpp:13-47 | Lifting the guest block with AND for XOR gives the lifted block with AND for XOR |
| MachineCode.EncodingTotal | lib/BinaryTranslator.cpp:141-151 | Encodable code becomes four bytes for each instruction, in order |
| MachineCode.VirtualStops | lib/BinaryTranslator.cpp:141-151 | One virtual register anywhere makes encoding throw |
| Decoder.DecodedIsSupported | lib/RISCV/Decoder.cpp:218-315 | What is decoded from any word has the operands that the lifter expects of its opcode |
| Decoder.OffsetsInRange | lib/RISCV/Decoder.cpp:328-348 | Branch and jump offsets are even and in signed 13- and 21-bit range, for every word |
| DecoderCorrect.IRoundTrip | lib/RISCV/Decoder.cpp:317-320 | An I-immediate in range survives its format, whatever the other fields |
| DecoderCorrect.SRoundTrip | lib/RISCV/Decoder.cpp:322-326 | The same for S |
| DecoderCorrect.BRoundTrip | lib/RISCV/Decoder.cpp:328-335 | The same for B |
| DecoderCorrect.URoundTrip | lib/RISCV/Decoder.cpp:337-339 | The same for U |
| DecoderCorrect.JRoundTrip | lib/RISCV/Decoder.cpp:341-348 | The same for J |
| DecoderCorrect.RDecodes | lib/RISCV/Decoder.cpp:64-239 | A word assembled from an R-format instruction decodes to it |
| DecoderCorrect.IDecodes | lib/RISCV/Decoder.cpp:64-266 | The same for I-format instructions other than right shifts |
| DecoderCorrect.SDecodes | lib/RISCV/Decoder.cpp:64-276 | The same for stores |
| DecoderCorrect.BDecodes | lib/RISCV/Decoder.cpp:64-288 | The same for branches |
| DecoderCorrect.UDecodes | lib/RISCV/Decoder.cpp:64-295 | LUI and AUIPC decode to their operand already shifted |
| DecoderCorrect.JDecodes | lib/RISCV/Decoder.cpp:64-301 | The same for JAL |
| DecoderCorrect.ShiftDecodes | lib/RISCV/Decoder.cpp:115-117 | SRAI decodes as SRAI exactly when its amount is below 32, and as SRLI otherwise |
| DecoderCorrect.ShiftDecodesRightIff | lib/RISCV/Decoder.cpp:115-117 | A decoded right shift shifts every value as the ISA says exactly when it is not an SRAI by 32 or more |
| IsaDecoder.DecodesRightIff | lib/RISCV/Decoder.cpp:64-216 | The decoder gives the instruction that a word encodes by the ISA's formats and codes, or throws where it encodes none, for exactly these words: no function code beyond RV64I, no FENCE, no SRAI by 32 or more, and no LUI or AUIPC of anything but zero |
| IsaDecoder.MissesFenceOnly | lib/RISCV/Decoder.cpp:64-216 | Of the instructions of RV64I the decoder throws exactly on FENCE |
| IsaDecoder.RConverse | lib/RISCV/Decoder.cpp:64-239 | A word that is decoded to a register instruction is the assembled word of that instruction exactly when its function code is one of RV64I's |
| IsaDecoder.IConverse | lib/RISCV/Decoder.cpp:64-266 | A word that is decoded to an I-format instruction other than a constant shift is the assembled word of that instruction |
| IsaDecoder.ShiftConverse | lib/RISCV/Decoder.cpp:107-133 | A word that is decoded to a constant shift is the assembled word of the shift that the ISA has for its function code exactly when it has one |
| IsaDecoder.SConverse | lib/RISCV/Decoder.cpp:64-276 | The same as IConverse for stores |
| IsaDecoder.BConverse | lib/RISCV/Decoder.cpp:64-288 | The same for branches |
| IsaDecoder.UConverse | lib/RISCV/Decoder.cpp:64-295 | A word that is decoded to LUI or AUIPC is the assembled word of the instruction whose operand was shifted |
| IsaDecoder.JConverse | lib/RISCV/Decoder.cpp:64-301 | The same as IConverse for JAL |
| IsaDecoder.DecodedIsInstructionIff | lib/RISCV/Decoder.cpp:64-216 | A word that is decoded to anything is an instruction of RV64I exactly when its function code is one of RV64I's |
| IsaDecoder.ReadingOf | lib/RISCV/Decoder.cpp:64-216 | A word encodes at most one instruction of the ISA |
| UpperImmediates.UpperShiftedTwice | lib/Lifter.cpp:151-163 | The constant in the code that the lifter emits for a decoded LUI or AUIPC is the ISA's exactly when it is zero |

## Left out

- ELF loading, symbol lookup, command line and console output: I/O.
- mmap, mprotect, the instruction cache and callee-saved host registers: the call of the machine code is its execution by the ARM64 meaning, on one host memory.
- initializeTranslator and setArgumentRegisters: the initial host memory and registers are arbitrary; the lemmas about register slots cover the writes.
- Guest accesses outside the shadow region: the guest has no meaning there, so every theorem about a run is for runs inside it.
- A fetch past the end of the text section, which the original reads from whatever follows: an error here.
- LBU, LHU, SB, SH, SUBW, SLLW, SRLW, SRAW, SRLIW, SRAIW, ECALL, EBREAK: decoded, and rejected by the lifter as in the original, but without a meaning.
- IR operations that the lifter never emits: multiplication, division and remainder are not in the model; 8- and 16-bit truncation and unsigned extension of i8 and i16 values are selected but have no meaning in the IR.
- Encoder forms that the selector never emits (B, B.cond, MUL, immediate shifts, negative offsets): the last two are in Encoder without a round trip, the others are not modelled.
- BinaryTranslator.BinaryTranslator.ExecuteFunction: promises nothing about runs that come to a block that is not faithful; Translation.MachineCodeExact says what such a block does, and Translation.MachineCodeCorrectIff when it is faithful.
- BinaryTranslator.BinaryTranslator.ExecuteBlock: says nothing of the host after a crash, which ends the process with part of the block done, nor whether a block crashes when the guest leaves its memory: the access may fault, or fall on memory of the process that is not modelled.
- BranchOutcome.BlockCorrectIff: is for value ids that start at 1, as in the translator, which makes a new lifter for each block; Pipeline.SafeBlockCorrect is for all.
- Instructions of the ISA outside the supported set (FENCE, the system instructions): the guest's own run stops at them.
- LivenessAnalysis.SortByStart: sorts by insertion; the library's algorithm is not modelled, only what it promises.
- The raw instruction word and the printing of instructions.
