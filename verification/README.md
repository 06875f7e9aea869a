# Chromite: a verified model

Chromite is a six-stage in-order RISC-V core written as guarded atomic rules (Bluespec), shipped with
bare-metal C kernels. This project models both in Dafny and proves what they promise.

**The core.** `Isa.dfy` is the one-at-a-time machine: everything the pipeline only carries around (the ALU,
the decoder tables, the CSR file, the memory system) is a parameter, so every theorem holds for all of them.
`Pipeline.dfy` has stages 2 to 5 rule by rule, `Frontend.dfy` stages 0 and 1, and `Chip.dfy` joins them.
`PipelineInvariant.dfy`, `PipelineProof.dfy`, `FrontendProof.dfy` and the second module of `Chip.dfy` hold the
proofs that nothing goes wrong, `PipelineProgress.dfy` and `ChipProgress.dfy` the proofs that the core goes on.
`Core.dfy`, `Fetcher.dfy` and `Hart.dfy` are the same stages as objects whose methods update registers and FIFOs
in place; each method is proved to leave exactly the state its specification function describes, and a run of
the object is proved to commit a legal trace. A program counter in the pipeline is a number; in the front end it
counts halfwords, so that a fetched word is a pair of halfwords of which the first is even.

The rules of one clock cycle run in the order their reads and writes impose: execute, write-back, decode (which
sees the CSRs, registers and epochs of the cycle's start), the register-file write (which also patches the
captured operands), stage 4 (which sees only what pipe3 held when the cycle began), stage 1 handing over, and
the redirects. Fields called history (`gen`, `npc`, `next`, `emitted`, `hist`, `log`, `id`) are never read by a
rule; `gen` counts the redirects of execute and of write-back.

What the surroundings promise, and nothing else:

- the data memory answers in order, one response to each request, and a current access is answered as if every
  older instruction had retired (`PipelineProof.MemoryOk`);
- a predictor hit describes a control instruction that the fetched path really meets at that halfword, with its
  true size and, for a conditional branch, its true target; a miss predicts at most 1
  (`FrontendProof.PredictorOk`, `ChipProof.Runs`); directions and the targets of jumps are free guesses;
- the C extension is on, and fetch responses do not trap.

Timing is free: which stages can move in a cycle, when the memory and the multi-cycle unit answer, when an
interrupt is pending and when stage 0 makes a request are inputs of every step. Only the two modules on progress
ask for cycles in which all of these say yes.

**Around the core.** `MemoryPort.dfy` has the memory handshake of stages 3 to 5 as separate rules that fire in
any order; `WriteBurst.dfy` the serialiser of cache lines; `Alu.dfy` the circuit of the integer ALU on bit
strings of every width `2^n`.

**The kernels.** `Barrier.dfy` (a sense-reversing barrier for any number of threads), `MatMul.dfy`,
`Packing.dfy`, `CacheBlocked.dfy` and `Matrix.dfy` (matrix multiplication over exact reals), `QuickSort.dfy`,
`RadixSort.dfy`, `Hanoi.dfy`, `Pmp.dfy`, `Decimal.dfy`, `Util.dfy`. `Numbers.dfy` has the arithmetic they share.

## Where the code falls short of what it says

- The radix sort's final copy goes from the array that does not hold the result to the one that does. It never
  runs for four passes; `RadixSort.SortsIffEvenPasses` shows that the routine is right exactly for an even number
  of passes.
- The comment above the read rule of the line serialiser says that no read is issued for a line until the write to
  it has been answered. The code looks at the burst that is being sent and at no other write. For all sizes of
  words and lines, `WriteBurst.ReadMayPassTheAnswer` gives a run in which the read goes out behind the last beat,
  and `WriteBurst.OlderWriteIsForgotten` one in which it goes out in the middle of another line's burst.
  `WriteBurst.ReadsWaitIff` says exactly which runs keep the promise, and `WriteBurst.ReadsWaitIffIdle` which do
  if a write begins only after the answer to the one before.
- `insn_len` tests the two low bits for being non-zero instead of both set; `Util.InsnLenIsRightIff` says when it
  is right.
- `pmp_ok` reads a region that ends at the very top of the address space as ending at zero, so that it accepts
  everything (`Pmp.TopOfMemoryWraps`). Either encoding is read back exactly if, and only if, the region ends below
  the top (`Pmp.NapotRoundTrip`, `Pmp.TorRoundTrip`), and an aligned access gets a wrong answer exactly if the
  region ends at the top and the access straddles its base (`Pmp.NapotRightIff`, `Pmp.TorRightIff`).

## Model

| member | source | states |
|---|---|---|
| ChipProof.WholeCoreRefinement | src/riscv.bsv:311-407 | every run of all stages, under the contracts above, commits a trace of the one-at-a-time machine, and registers, CSRs and memory are that machine's |
| ChipProof.EpochBitsSufficeEverywhere | src/riscv.bsv:341-351 | in every reachable state a tag matches a stage's copy exactly when its bearer was fetched after the last redirect, for queued words as for instructions in every buffer |
| ChipProof.TagsAtMostOneRedirectOld | src/stage3.bsv:473-490 | with counters for both redirects, every tag in the core is at most one redirect old, also when both stages flush in one cycle |
| ChipProgress.Progress | src/riscv.bsv:311-407 | no deadlock and no endless rerun: any part of any run that has 2176 cycles, in a row or not, in which every stage may move and words and predictions are at hand retires at least one event |
| ChipProgress.CycleFalls | src/riscv.bsv:311-407 | every cycle retires an event or does not raise a measure of all stages, and a cooperative one lowers it |
| ChipProgress.FrontDrives | src/stage1.bsv:231-412 | unless redirected, stages 0 and 1 hand over an instruction or come nearer to one |
| PipelineProgress.Progress | src/riscv.bsv:353-407 | the same for stages 2 to 5 and 136 cycles in which stage 1 has an instruction at hand as well |
| PipelineProgress.StallInvKept | src/stage2.bsv:347-384 | decode stalls only behind a trap that will redirect, and behind a rerun the rerun flag is already clear, so that the same instruction is not rerun twice |
| PipelineProgress.ExecuteDrives | src/stage3.bsv:278-330 | with nothing older in flight execute drops or issues what pipe2 holds, unless a control instruction waits for its follower |
| PipelineProgress.CommitMoves | src/stage5.bsv:244-451 | write-back answers every current instruction with an event or with the redirect of a rerun |
| ChipProof.RedirectorIsCurrent | src/stage5.bsv:431-433 | a redirect always comes from an instruction fetched after the last one |
| ChipProof.HandedIsDelivery | src/stage1.bsv:385-404 | what the realigner hands over is what stage 2 needs: the true bits, followed by the true or predicted successor |
| PipelineProof.SequentialRefinement | src/riscv.bsv:311-407 | the same refinement for stages 2 to 5 alone, fed by any instruction stream that keeps stage 1's promise |
| PipelineProof.TwoEpochBitsSuffice | src/stage3.bsv:297-297 | in stages 2 to 5 two bits tell the current path from every wrong one, in every run |
| PipelineProof.ExecuteReadsTheRegisterFile | src/stage3.bsv:311-322 | an operand that execute sees as available is the register's value in the sequential machine at that instruction, unless an older instruction still redirects |
| PipelineProof.BypassIsTheRegisterFile | src/riscv.bsv:353-407 | the same for any register looked up through the two bypass sources |
| PipelineProof.ReadSeesYoungest | src/fwding.bsv:31-42 | because pipe3 and pipe4 are that shallow, the bypass finds the youngest older writer, and reports a waiting load as not available |
| PipelineProof.SuccessorFollowed | src/alu.bsv:167-183 | a control instruction either redirects to its true successor or the fetched path already continues there |
| PipelineProof.ExecuteKeeps | src/stage3.bsv:278-610 | execute, with its epoch check, stalls, redirect and multi-cycle unit, keeps the agreement with the sequential machine |
| PipelineProof.CommitKeeps | src/stage5.bsv:244-451 | write-back retires what the sequential machine does next, takes its trap, or drops or reruns without a trace |
| PipelineProof.DecodeKeeps | src/stage2.bsv:240-393 | decode, with the rerun of the follower of a CSR operation and the stall behind a trap, keeps it |
| PipelineProof.CommitRdKeeps | src/stage2.bsv:417-448 | writing a register and patching the captured operands keeps it |
| PipelineProof.MemStageKeeps | src/stage4.bsv:152-247 | stage 4 keeps it, turning an access into its result, a store or a trap |
| PipelineProof.FetchKeeps | src/stage1.bsv:385-404 | so does one more instruction from stage 1 |
| PipelineProof.FlushKeeps | src/riscv.bsv:311-351 | so do the redirects, after which nothing fetched before is current |
| PipelineProof.RulesKeep | src/riscv.bsv:311-407 | all rules of a cycle together retire at most one instruction, the one the sequential machine retires |
| FrontendProof.RealignerFollowsPath | src/stage1.bsv:231-412 | for every run of stages 0 and 1, behind a predicted-taken instruction comes its predicted target, behind any other its neighbour, behind a redirect its target, each with its true bits and length |
| FrontendProof.RealignerRefinesParser | src/stage1.bsv:231-412 | without taken predictions or redirects the emitted stream is the recursive halfword parse, from either half (section 1.5 of the RISC-V Unprivileged ISA 20191213) |
| FrontendProof.HeadWord | src/stage1.bsv:262-404 | one firing emits the instruction the path meets next or saves its first half, and moves on as code and predictions say |
| FrontendProof.StaleWord | src/stage1.bsv:253-260 | a word of an earlier path is dropped without a trace |
| FrontendProof.NextPcFollowsPath | src/stage0.bsv:171-235 | stage 0 requests the word the path continues in, also one word further before a redirect across a straddling branch |
| FrontendProof.RedirectDropsAll | src/stage0.bsv:249-264 | after a redirect no queued word and no saved half is current, and fetch goes on at the target |
| Core.Backend.CaptureLatestOps | src/stage3.bsv:278-610 | updates pipe2, pipe3, the multi-cycle unit and the redirect wire in place, exactly as specified |
| Core.Backend.ReadOperand | src/fwding.bsv:31-42 | computes the specified bypass from the two buffers |
| Core.Backend.InstructionCommit | src/stage5.bsv:244-451 | updates pipe4, CSRs, memory and the wires in place, exactly as specified |
| Core.Backend.DecodeAndOpFetch | src/stage2.bsv:240-393 | updates pipe1, pipe2, the operand registers, stall and rerun in place, exactly as specified |
| Core.Backend.CommitRegister | src/stage2.bsv:417-448 | writes the register file and patches the operand registers, exactly as specified |
| Core.Backend.CheckInstruction | src/stage4.bsv:152-247 | moves the head of pipe3 to pipe4 with its answer, exactly as specified |
| Core.Backend.FlushStages | src/riscv.bsv:311-351 | flips every copy of the epochs, clears the stall and restarts fetch, exactly as specified |
| Core.Simulate | src/riscv.bsv:311-407 | what any run of these objects from reset commits is the trace of the specified run, and legal |
| Fetcher.Fetch.GenNextPc | src/stage0.bsv:171-235 | updates the program counter, the delayed redirect and the request queue in place, exactly as specified |
| Fetcher.Fetch.ProcessInstruction | src/stage1.bsv:231-412 | one firing of the realigner in place, exactly as specified |
| Fetcher.Fetch.MaFlush | src/stage0.bsv:249-264 | redirects stage 0 and flips the epochs, exactly as specified |
| Fetcher.Simulate | src/stage1.bsv:231-412 | what any run of these registers emits is the stream of the specified run: the path, and the parse of straight-line code |
| Hart.Riscv.Clock | src/riscv.bsv:132-407 | one cycle of the two halves joined, exactly as specified |
| Hart.Simulate | src/riscv.bsv:311-407 | any run of the joined objects ends with the trace and the registers of the specified run, a legal trace and the sequential machine's registers |
| MemoryPort.SentWithEntry | src/stage3.bsv:403-423 | stage 3 sends a request in exactly those firings in which it enqueues a memory entry, also for load-reserved and store-conditional |
| MemoryPort.EachEntryItsOwnResponse | src/stage4.bsv:152-247 | over any run and any order of rules, each memory entry leaves stage 4 with the response to its own request, and nothing is asked or answered twice |
| MemoryPort.ResponseBelongsToHead | src/stage4.bsv:198-231 | a response at hand always has the id and the epoch of the waiting entry |
| MemoryPort.NoResponseIsLost | src/stage4.bsv:227-230 | the branch that throws a response away is never taken |
| MemoryPort.OneInitiationPerStore | src/stage5.bsv:301-376 | each store that has left stage 5, committed, trapped or dropped, was initiated exactly once, in order |
| MemoryPort.CommitKeeps | src/stage5.bsv:301-449 | cached, uncached and dropped stores keep that account |
| MemoryPort.Stages.CaptureLatestOps | src/stage3.bsv:403-581 | the reservation, the request and the entry updated in place, exactly as specified |
| MemoryPort.Stages.CheckInstruction | src/stage4.bsv:152-247 | pairs the head entry with the next response in place, exactly as specified |
| MemoryPort.Stages.InstructionCommit | src/stage5.bsv:244-449 | the store handshake in place, exactly as specified |
| WriteBurst.BurstsAreWhole | src/ccore.bsv:217-276 | the write channels carry the offered requests in order and whole: for a line its words in order with only the last marked last |
| WriteBurst.BeatsRebuildLine | src/ccore.bsv:256-275 | the words sent, put together again, are the line |
| WriteBurst.NoReadInsideBurst | src/ccore.bsv:167-205 | in every run no read of a line goes out between the first and the last beat of its burst |
| WriteBurst.CoarseCoversLine | src/ccore.bsv:184-190 | shifting both addresses by the sum of word size and block size never misses two addresses of one line |
| WriteBurst.ReadMayPassTheAnswer | src/ccore.bsv:170-205 | for words and lines of all sizes, a run in which a read goes out although the write to its line has not been answered |
| WriteBurst.OlderWriteIsForgotten | src/ccore.bsv:184-190 | a run in which this happens while another line is being sent |
| WriteBurst.ReadsWaitIff | src/ccore.bsv:170-205 | a run issues no read of a line with an unanswered write exactly if no read rule finds its guard open for such a line |
| WriteBurst.ReadsWaitIffIdle | src/ccore.bsv:170-205 | with one write at a time: exactly if no read of such a line is asked for or retried while no burst is being sent |
| WriteBurst.Serialiser.DmemBurstWriteData | src/ccore.bsv:256-275 | one beat in place, exactly as specified |
| WriteBurst.Serialiser.HandleDmemWriteRequest | src/ccore.bsv:217-253 | the first beat in place, exactly as specified |
| WriteBurst.Serialiser.HandleDmemLineReadRequest | src/ccore.bsv:177-196 | a read issued or held back, exactly as specified |
| WriteBurst.Simulate | src/ccore.bsv:167-276 | any run of these registers leaves the log of the specified run: whole bursts, and no line read inside its burst |
| Alu.AdderAddsAndSubtracts | src/alu.bsv:106-112 | the one adder gives the sum or the difference modulo the width |
| Alu.TakenIsTheCondition | src/alu.bsv:115-126 | the one comparator decides equality and both orders, signed and unsigned |
| Alu.LeftByReverse | src/alu.bsv:129-143 | reversing, shifting right and reversing again multiplies by a power of two modulo the width |
| Alu.ArithmeticRight | src/alu.bsv:129-143 | the sign-filled shift divides the signed value, rounding down |
| Alu.AluComputes | src/alu.bsv:106-155 | at every width of 2^n bits each arithmetic, comparing and shifting code computes what section 2.4 of the RISC-V Unprivileged ISA 20191213 asks for |
| Alu.AluBits | src/alu.bsv:110-155 | the bitwise codes, bit by bit |
| Alu.WordFormIsHalfWidth | src/alu.bsv:131-160 | a word form equals the half-width operation on the low halves, sign-extended |
| Barrier.NobodyLeavesEarly | micro-arch-tests/performance_tests/benchmarks/common/util.h:44-62 | for any number of threads, any interleaving and repeated use, no thread leaves an episode before all have entered it |
| Barrier.OneBitSuffices | micro-arch-tests/performance_tests/benchmarks/common/util.h:46-59 | a spinning thread sees its own sense exactly when its episode is over |
| Barrier.SomeThreadProgresses | micro-arch-tests/performance_tests/benchmarks/common/util.h:53-59 | once all have entered an episode, as long as one has not left it a thread that has not can do more than spin |
| Barrier.UsefulStepsLeadOut | micro-arch-tests/performance_tests/benchmarks/common/util.h:53-59 | every such step brings a thread nearer to the exit, and no other step takes one back |
| Barrier.HelpingIsBounded | micro-arch-tests/performance_tests/benchmarks/common/util.h:44-62 | in every run there are at most three such steps for each thread |
| Barrier.EpisodeEnds | micro-arch-tests/performance_tests/benchmarks/common/util.h:44-62 | so every schedule that takes such a step as long as there is one has led all threads out after three steps for each |
| MatMul.MmNaive | micro-arch-tests/performance_tests/benchmarks/mm/mm.c:11-31 | adds the product in the window and changes nothing else, with its four partial sums |
| MatMul.Kloop | micro-arch-tests/performance_tests/benchmarks/mm/rb.h:3-210 | the same for a four by five block held in twenty accumulators, six terms at a time |
| MatMul.MmRb | micro-arch-tests/performance_tests/benchmarks/mm/mm.c:33-44 | the same for any size, with all edge remainders |
| MatMul.Inner | micro-arch-tests/performance_tests/benchmarks/mm/mm.c:18-28 | one element: the old value plus the whole sum |
| Packing.Repack | micro-arch-tests/performance_tests/benchmarks/mm/mm.c:46-72 | copies a window and changes nothing else, eight elements at a time |
| Packing.PackBlocks | micro-arch-tests/performance_tests/benchmarks/mm/mm.c:85-95 | afterwards every packed block holds its window |
| CacheBlocked.MainBlock | micro-arch-tests/performance_tests/benchmarks/mm/mm.c:97-116 | brings one packed block from no terms to all, and leaves the other blocks alone |
| CacheBlocked.MmCb | micro-arch-tests/performance_tests/benchmarks/mm/mm.c:74-143 | the cache-blocked path adds the product in the window and changes nothing else |
| CacheBlocked.Mm | micro-arch-tests/performance_tests/benchmarks/mm/mm.c:145-152 | so does the routine as a whole, for all sizes and legal strides |
| CacheBlocked.AddsIsTheProduct | micro-arch-tests/performance_tests/benchmarks/mm/mm.c:145-152 | element by element, the window holds C + A * B |
| Matrix.TileStep | micro-arch-tests/performance_tests/benchmarks/mm/mm.c:99-130 | a product added to one tile takes just that tile so many terms further |
| CacheBlocked.PartsMakeWhole | micro-arch-tests/performance_tests/benchmarks/mm/mm.c:97-142 | blocked part, right edge and bottom edge together are the window |
| QuickSort.SortWith | micro-arch-tests/performance_tests/benchmarks/qsort/qsort_main.c:67-132 | any array becomes a sorted permutation of itself, given a stack with room for as many pairs as halvings take it down to eleven elements |
| QuickSort.Sort | micro-arch-tests/performance_tests/benchmarks/qsort/qsort_main.c:21-132 | with the fifty-slot stack, every array of fewer than 11 * 2^24 elements |
| QuickSort.Partition | micro-arch-tests/performance_tests/benchmarks/qsort/qsort_main.c:89-112 | a permutation of the segment around its pivot, with all scans in bounds |
| QuickSort.Upward | micro-arch-tests/performance_tests/benchmarks/qsort/qsort_main.c:104-104 | the upward scan stops in bounds at the first element that is not below the pivot |
| QuickSort.Downward | micro-arch-tests/performance_tests/benchmarks/qsort/qsort_main.c:105-105 | the downward scan stops in bounds at the first element that is not above it |
| QuickSort.InsertionSort | micro-arch-tests/performance_tests/benchmarks/qsort/qsort_main.c:42-58 | sorts a short segment and touches nothing else |
| QuickSort.SegmentSplit | micro-arch-tests/performance_tests/benchmarks/qsort/qsort_main.c:113-129 | the stacked segments and the current one still cover all that is unsorted after a partition |
| QuickSort.SegmentSorted | micro-arch-tests/performance_tests/benchmarks/qsort/qsort_main.c:77-85 | and after a segment is done |
| QuickSort.LargerSidePushed | micro-arch-tests/performance_tests/benchmarks/qsort/qsort_main.c:118-129 | pushing the larger side keeps every segment at most n over 2 to the number of segments below it |
| QuickSort.DepthBound | micro-arch-tests/performance_tests/benchmarks/qsort/qsort_main.c:21-26 | a segment long enough to be partitioned has few pairs below it, so the push stays on the stack |
| RadixSort.Sort | micro-arch-tests/performance_tests/benchmarks/rsort/rsort.c:32-99 | the input array becomes a sorted permutation of itself, for all arrays of 32-bit numbers |
| RadixSort.SortWith | micro-arch-tests/performance_tests/benchmarks/rsort/rsort.c:40-99 | for any width, what the input array holds after the passes and the final copy |
| RadixSort.SortDigit | micro-arch-tests/performance_tests/benchmarks/rsort/rsort.c:42-90 | one pass writes the elements ordered by one digit to the other array |
| RadixSort.PassIsStable | micro-arch-tests/performance_tests/benchmarks/rsort/rsort.c:68-90 | elements with the same digit keep their order |
| RadixSort.PassPermutes | micro-arch-tests/performance_tests/benchmarks/rsort/rsort.c:68-90 | a pass is a permutation |
| RadixSort.Room | micro-arch-tests/performance_tests/benchmarks/rsort/rsort.c:68-90 | each scatter position is inside its own bucket, so in bounds and not yet written |
| RadixSort.Histogram | micro-arch-tests/performance_tests/benchmarks/rsort/rsort.c:42-58 | counts each digit, four elements at a time |
| RadixSort.PrefixSums | micro-arch-tests/performance_tests/benchmarks/rsort/rsort.c:60-67 | turns the counts into the ends of the buckets |
| RadixSort.Scatter | micro-arch-tests/performance_tests/benchmarks/rsort/rsort.c:69-90 | the backward scatter, four elements at a time, is the stable pass |
| RadixSort.SortsIffEvenPasses | micro-arch-tests/performance_tests/benchmarks/rsort/rsort.c:92-98 | the routine sorts every input of its width exactly if it takes an even number of passes |
| Hanoi.Towers.Push | micro-arch-tests/performance_tests/benchmarks/towers/towers_main.c:53-71 | takes a node off the free list and puts it, with the value, in front of a peg; lists stay acyclic and share out the pool |
| Hanoi.Towers.Pop | micro-arch-tests/performance_tests/benchmarks/towers/towers_main.c:73-93 | the reverse |
| Hanoi.PartitionKept | micro-arch-tests/performance_tests/benchmarks/towers/towers_main.c:53-93 | moving a node from list to list keeps the pool shared out between free list and pegs |
| Hanoi.MovesCarryTower | micro-arch-tests/performance_tests/benchmarks/towers/towers_main.c:140-158 | the recursive moves carry the top discs from peg to peg, never put a larger disc on a smaller one, and change nothing else |
| Hanoi.MoveCount | micro-arch-tests/performance_tests/benchmarks/towers/towers_main.c:140-158 | there are 2^n - 1 of them |
| Hanoi.Towers.SolveH | micro-arch-tests/performance_tests/benchmarks/towers/towers_main.c:140-158 | makes exactly these moves on the linked lists |
| Hanoi.Towers.Init | micro-arch-tests/performance_tests/benchmarks/towers/towers_main.c:113-127 | stacks the discs on peg A, largest first |
| Hanoi.Towers.Verify | micro-arch-tests/performance_tests/benchmarks/towers/towers_main.c:165-194 | returns zero exactly if all discs stand in order on peg C and the move count is 2^n - 1 |
| Hanoi.Benchmark | micro-arch-tests/performance_tests/benchmarks/towers/towers_main.c:199-234 | the whole program, with or without its warm-up, returns zero for 1 to 30 discs |
| Pmp.PmpOk | micro-arch-tests/performance_tests/benchmarks/pmp/pmp.c:66-99 | the decoding loops and the granule loop compute the specified region and count |
| Pmp.NapotRoundTrip | micro-arch-tests/performance_tests/benchmarks/pmp/pmp.c:153-160 | decoding the encoding of a power-of-two range gives back exactly that range if and only if it ends below the top of the address space (section 3.6.1 of the RISC-V Privileged Architecture 20190608) |
| Pmp.TorRoundTrip | micro-arch-tests/performance_tests/benchmarks/pmp/pmp.c:144-151 | the same for a range given by its two ends |
| Pmp.AlignedAccess | micro-arch-tests/performance_tests/benchmarks/pmp/pmp.c:92-98 | a naturally aligned access is accepted exactly if it lies wholly inside or wholly outside |
| Pmp.NapotAcceptsExactly | micro-arch-tests/performance_tests/benchmarks/pmp/pmp.c:66-160 | both together: encode, decode, check |
| Pmp.TopOfMemoryWraps | micro-arch-tests/performance_tests/benchmarks/pmp/pmp.c:84-98 | a range that ends at the top of the address space is read as ending at zero and accepts everything |
| Pmp.NapotRightIff | micro-arch-tests/performance_tests/benchmarks/pmp/pmp.c:66-160 | an aligned access gets the right answer exactly if the region ends below the top or the access does not straddle its base |
| Pmp.TorRightIff | micro-arch-tests/performance_tests/benchmarks/pmp/pmp.c:66-151 | the same for a range given by its two ends |
| Pmp.NapotStraddler | micro-arch-tests/performance_tests/benchmarks/pmp/pmp.c:66-160 | an access that gets the wrong answer, at every width |
| Pmp.TorStraddler | micro-arch-tests/performance_tests/benchmarks/pmp/pmp.c:66-151 | the same for a range given by its two ends |
| Decimal.Printnum | micro-arch-tests/performance_tests/benchmarks/common/syscalls_shakti.c:211-230 | prints padding and digits, max(width, digits) characters, for every 64-bit number and base |
| Decimal.FillDigits | micro-arch-tests/performance_tests/benchmarks/common/syscalls_shakti.c:214-224 | never leaves its 64-digit buffer |
| Decimal.DigitCount | micro-arch-tests/performance_tests/benchmarks/common/syscalls_shakti.c:214-224 | a number below 2^k has at most k digits in any base |
| Decimal.ValueOfDigits | micro-arch-tests/performance_tests/benchmarks/common/syscalls_shakti.c:217-223 | the digits stand for the number |
| Decimal.SprintfD | micro-arch-tests/performance_tests/benchmarks/common/syscalls_shakti.c:352-387 | prints the sign and the magnitude, by way of an unsigned 64-bit variable |
| Decimal.Atol | micro-arch-tests/performance_tests/benchmarks/common/syscalls_shakti.c:505-524 | skips spaces, takes a sign, and adds up the characters; reports whether the accumulator has stayed inside 64 bits |
| Decimal.DecimalRoundTrip | micro-arch-tests/performance_tests/benchmarks/common/syscalls_shakti.c:414-524 | reading what was printed gives the number back |
| Decimal.PrintedStaysLong | micro-arch-tests/performance_tests/benchmarks/common/syscalls_shakti.c:519-522 | for printed text it stays inside |
| Decimal.PrintAndRead | micro-arch-tests/performance_tests/benchmarks/common/syscalls_shakti.c:352-524 | printing a number and reading the text gives the number back, without overflow |
| Util.Verify | micro-arch-tests/performance_tests/benchmarks/common/util.h:12-26 | zero if the arrays agree, else one more than the first index where they do not |
| Util.InsnLenIsRightIff | micro-arch-tests/performance_tests/benchmarks/common/util.h:70-73 | the length read off a halfword is right exactly for 32-bit instructions and quadrant 0 |

## Left out

- Debug, triggers, WFI, performance counters, rtldump, logging, floating point and the arithmetic traps of the core.
- ChipProgress.Progress: the bound is not tight, and a cycle helps only if every stage may move in that same cycle.
- FENCE, FENCE.I and SFENCE: their side effects on caches and TLBs are not part of this model.
- Load-reserved and store-conditional in the pipeline model: they are in MemoryPort, where the reservation is.
- Trapping fetch responses and the C-extension-off cases of stage 1, and with C on the misaligned-target trap, which cannot occur.
- Caches, TLBs, page walker, branch predictor, CSR file, multiplier and divider: their sources are not part of this model; they are parameters or contracts.
- Self-modifying code: the program in memory is fixed while it runs.
- Address wrap-around: program counters and the addresses of the front end are unbounded.
- The store handshake in `Pipeline`: a store commits in one step there; its two-step form for uncached stores is in MemoryPort.
- Decoder and decompressor tables: the decoder is any function of the fetched bits and the CSRs.
- PipelineProof.ExecuteKeeps: fences, and load-reserved and store-conditional, whose reservation is in MemoryPort.
- PipelineProof.CommitKeeps: the two steps of an uncached store, which are in MemoryPort.
- PipelineProof.DecodeKeeps: WFI and the reruns behind fences.
- Core.Backend.CaptureLatestOps: the memory request and the reservation, which are in MemoryPort, and fences.
- Core.Backend.DecodeAndOpFetch: WFI and the reruns behind fences.
- WriteBurst.Serialiser.HandleDmemWriteRequest: data replication and strobes of single device writes.
- Core.Backend.InstructionCommit: a bus error of a store is decided by the memory function when the store is performed, not by a separate answer.
- Decimal.Atol: the accumulator is unbounded; what a text beyond the range of a long gives in C is undefined, and the model only says that it has happened.
- MatMul.Kloop: floating-point rounding is not modelled, elements are exact reals.
- Barrier.EpisodeEnds: fairness of the scheduler is not modelled, only that useful steps exist and are bounded.
- QuickSort.Sort: that some array of 11 * 2^24 elements really overruns the stack is not shown.
- WriteBurst.BurstsAreWhole: data replication and strobes of single device writes are not modelled.
- Pmp.PmpOk: the virtual-to-physical offset and the CSR writes around the encoders.
- Dhrystone, vvadd, median, spmv, multiply, the page-table setup, start-up code, UART and SoC wiring: easy members or plumbing.
