# Two LLVM loop passes, modelled in Dafny

This project models the core of two LLVM function passes that share one view
of a function's loop forest.

* **The loop statistics pass** (`mb64566-loop-analysis-pass.cpp`) walks every
  loop of a function in pre-order. For each loop it writes one record:
  - a running index taken from the global `loop_count`;
  - the function name;
  - the depth (the LLVM loop depth minus one);
  - whether the loop has sub-loops;
  - four counts: top-level blocks, total instructions, atomic
    read-modify-write and compare-exchange instructions, and top-level blocks
    ending in a branch.
* **The loop-invariant code motion pass** (`mb64566-loop-opt-pass.cpp`)
  handles each top-level loop that has a preheader:
  - It first collects the instructions of every member block except the
    header that pass two tests:
    - *invariant*: a binary operator, select, cast or getelementptr, whose
      every operand is a constant or an instruction outside the loop;
    - *safe*: speculatable, and its block dominates every exit block.
  - It then moves each collected instruction, in collection order, to just
    before the preheader's terminator.

## How the model is built

- **`ir.dfy` (module `IR`)** holds the shared IR abstraction and generic facts
  about it.
  - A function is a sequence of blocks. A block id is an index into that
    sequence.
  - A block is a sequence of instruction records (id, opcode kind, operands)
    whose last element is its terminator.
  - A loop carries:
    - its header;
    - its member block ids, sub-loop blocks included, in `L->blocks()` order;
    - its immediate sub-loops, in stored order;
    - an optional preheader;
    - its exit blocks.
  - Speculatability and dominance are oracle functions (`Oracles`).
  - An instruction's identity is its record. Valid blocks (`ValidBlocks`)
    are well formed and hold no record twice (`UniqueInsts`).
  - Operands name instructions by id. A function that the code motion pass
    changes in place (`LoopOpt.Function`) must also have no two instructions
    sharing an id (`UniqueIds`, part of `Function.Valid`). So an id picks out
    the one instruction it refers to, as an LLVM `Value *` does.
- **`loop_analysis.dfy` (module `LoopAnalysis`)** models the statistics pass.
  - The four counts are specified by recursive functions over the member
    block list.
  - `GetLoopInfo` is the imperative nested loop of `get_loop_info`, proved
    equal to those functions.
  - The pass's global state (`loop_count` and the records written so far) is
    the class `StatsPass`.
  - `StatsPass.ProcessLoop` is the recursive `process_loop`. It is proved to
    append exactly `Records(...)`, the pre-order record list of the loop's
    tree, and to raise `loop_count` by the number of loops in the tree.
  - `StatsPass.ProcessLoops` is the `for` loop that calls `process_loop` on
    each loop of a list. It serves both the sub-loop loop of `process_loop`
    and the top-level loop of `run`.
  - The shape of `Records` is proved separately by lemmas:
    - one record per loop;
    - consecutive indices;
    - the root first;
    - each sub-loop's subtree after those of the sub-loops stored before it,
      one level deeper.
- **`loop_opt.dfy` (module `LoopOpt`)** models the code motion pass.
  - `IsLoopInvariant` and `IsSafeToHoist` are the two tests.
  - `Candidates` is the `ToHoist` list.
  - `MovedBefore` is one `moveBefore`; `MoveAll` is the move loop.
  - `HoistSpec` is the whole effect of `hoistLoopInvariants`.
  - The class `Function` holds the block list that the methods
    `HoistLoopInvariants` and `Run` update in place.
  - `RunIteration` is one iteration of the loop of `run`. `RunPrefix` is the
    state `run` leaves after its first i top-level loops.
  - Lemmas state what moves where and that nothing else changes.

## What the code does and does not do

Several behaviours of the code are easy to assume wrongly. The model states
what the code does:

- **Block order.** The collection walks `L->blocks()` in stored order
  (`mb64566-loop-opt-pass.cpp:47`). It does not walk the dominator tree.
- **Sub-loop blocks.** Only the header is skipped
  (`mb64566-loop-opt-pass.cpp:48`). Instructions of nested loops can
  therefore be hoisted to the outer preheader (`CandidatesMember`,
  `HeaderNeverChanges`).
- **No recursion.** Neither `hoistLoopInvariants` nor `run` visits sub-loops
  (`HoistIgnoresSubLoops`, `Run`).
- **Safety test.** A speculatable instruction still needs its block to
  dominate every exit block (`mb64566-loop-opt-pass.cpp:14-20`,
  `IsSafeToHoist`).
- **No idempotence.** An instruction whose in-loop operand has just been
  hoisted sees that operand outside the loop on a second run, so a second
  run can hoist more. No idempotence is asserted.
- **Function parameters.** For an operand that is neither a constant nor an
  instruction, the code hands `dyn_cast<Instruction>` of it, a null pointer,
  to `L->contains` (`mb64566-loop-opt-pass.cpp:33`). That call is undefined,
  so the model does not give it a result:
  - `OperandScan` reports `None` exactly when the operand loop reaches such
    an operand before returning.
  - `IsLoopInvariant` requires `ScanOk`, i.e. that this never happens.
  - The collection requires it of every instruction it classifies
    (`ScanDefined`).
  - The hoisting members require it only for loops with a preheader,
    because without one the code returns before classifying anything
    (`mb64566-loop-opt-pass.cpp:42-43`).

## Model

| member | source | states |
|---|---|---|
| LoopAnalysis.NoSubLoopContains | mb64566-loop-analysis-pass.cpp:14-18 | the early-return scan over sub-loops is true iff no listed sub-loop contains the block |
| LoopAnalysis.IsTopLevel | mb64566-loop-analysis-pass.cpp:13-21 | a block is top-level iff no immediate sub-loop contains it; deeper loops are not consulted |
| LoopAnalysis.GetLoopInfo | mb64566-loop-analysis-pass.cpp:23-55 | the counters start from zero; top-level block count, branch-terminated top-level block count, instruction total over all member blocks and atomic count equal their specification functions; branches <= top-level blocks <= member blocks and atomics <= instructions |
| LoopAnalysis.AtomsInBound | mb64566-loop-analysis-pass.cpp:37-41 | a block has no more atomic instructions than instructions |
| LoopAnalysis.CountBounds | mb64566-loop-analysis-pass.cpp:28-41 | branch count <= top-level count <= number of member blocks; atomic count <= instruction count; every member block adds at least one instruction |
| LoopAnalysis.InstCountAppend | mb64566-loop-analysis-pass.cpp:36 | the instruction total over two block lists is the sum of the two totals |
| LoopAnalysis.InstCountOrderFree | mb64566-loop-analysis-pass.cpp:28-36 | the instruction total is the same for any ordering of the member blocks |
| LoopAnalysis.InstCountRemoveAt | mb64566-loop-analysis-pass.cpp:36 | dropping one block from the list lowers the total by that block's size |
| LoopAnalysis.TopLevelCountIsCardinality | mb64566-loop-analysis-pass.cpp:28-30 | over distinct member blocks the top-level count is the size of the set of top-level blocks |
| LoopAnalysis.LoopRecord | mb64566-loop-analysis-pass.cpp:62-70 | a record carries the current loop_count, the function name, depth = LLVM loop depth - 1, the sub-loops flag iff the sub-loop list is non-empty, and counts within the bounds above |
| LoopAnalysis.VisitsShape | mb64566-loop-analysis-pass.cpp:62-74 | process_loop makes one call per loop of the tree, the root first, with loop_count values consecutive from its entry value |
| LoopAnalysis.VisitsOfListShape | mb64566-loop-analysis-pass.cpp:72-74 | the calls for a list of trees number one per loop, consecutively numbered |
| LoopAnalysis.VisitsPreOrder | mb64566-loop-analysis-pass.cpp:72-74 | each sub-loop's calls form one contiguous block right after those of the sub-loops stored before it, one level deeper |
| LoopAnalysis.RecordsShape | mb64566-loop-analysis-pass.cpp:62-74 | the records of a tree: one per loop, indices consecutive from the entry loop_count, the root's record first, no record shallower than the root |
| LoopAnalysis.RecordsPreOrder | mb64566-loop-analysis-pass.cpp:72-74 | within a tree's records, sub-loop i's subtree records follow those of sub-loops 0..i-1 and are exactly that subtree's records one level deeper |
| LoopAnalysis.ChildRecordOneDeeper | mb64566-loop-analysis-pass.cpp:63-66 | a sub-loop's own record has depth one more than its parent's and an index offset by the records before it |
| LoopAnalysis.RecordsOfListShape | mb64566-loop-analysis-pass.cpp:86-88 | the records of a list of trees: one per loop, consecutive indices, none shallower than the list's depth |
| LoopAnalysis.RecordsOfListSnoc | mb64566-loop-analysis-pass.cpp:86-88 | processing one more tree of a list appends exactly that tree's records, numbered on from the earlier trees |
| LoopAnalysis.RecordsUnfold | mb64566-loop-analysis-pass.cpp:62-74 | a tree's records are its root's record followed by the records of its sub-loop list one level deeper |
| LoopAnalysis.StatsPass.constructor | mb64566-loop-analysis-pass.cpp:11 | loop_count starts at 0 with nothing written |
| LoopAnalysis.StatsPass.ProcessLoop | mb64566-loop-analysis-pass.cpp:57-75 | process_loop appends exactly the pre-order records of L's tree and raises loop_count by the number of loops in it |
| LoopAnalysis.StatsPass.ProcessLoops | mb64566-loop-analysis-pass.cpp:72-74 | a for loop over a list of loops calling process_loop on each appends the records of every loop's tree in list order and raises loop_count by the number of loops in them |
| LoopAnalysis.StatsPass.Run | mb64566-loop-analysis-pass.cpp:82-88 | run appends the records of every top-level loop's tree in LoopInfo order, top-level loops at depth 0, and raises loop_count by the number of loops |
| LoopOpt.OperandScan | mb64566-loop-opt-pass.cpp:32-37 | the operand loop yields true iff every operand is a constant or an instruction outside L, and reaches the undefined null query iff some argument operand comes before any in-loop operand |
| LoopOpt.IsLoopInvariant | mb64566-loop-opt-pass.cpp:26-38 | invariant iff the opcode is binary op, select, cast or GEP and every operand is a constant or an instruction outside L |
| LoopOpt.DominatesAll | mb64566-loop-opt-pass.cpp:16-22 | the exit-block loop is true iff the block dominates every exit block, vacuously with none |
| LoopOpt.IsSafeToHoist | mb64566-loop-opt-pass.cpp:13-23 | safe iff speculatable and the instruction's block dominates every exit block |
| LoopOpt.BlockCandidatesMember | mb64566-loop-opt-pass.cpp:50-55 | an instruction is collected from a block iff it is in the block and passes both tests; no instruction is collected more often than it occurs |
| LoopOpt.CandidateSource | mb64566-loop-opt-pass.cpp:47-56 | every collected instruction lies in a non-header member block where it passes both tests |
| LoopOpt.CandidateFromSource | mb64566-loop-opt-pass.cpp:47-56 | every instruction of a non-header member block that passes both tests is collected |
| LoopOpt.CandidatesMember | mb64566-loop-opt-pass.cpp:47-56 | an instruction is in ToHoist iff it lies in a non-header member block and passes both tests there |
| LoopOpt.CandidatesOverDistinct | mb64566-loop-opt-pass.cpp:47-56 | with distinct member blocks and unique instructions, ToHoist holds no instruction twice |
| LoopOpt.CandidatesFacts | mb64566-loop-opt-pass.cpp:47-56 | ToHoist is duplicate-free and holds only instructions of the function with an allowed opcode, never terminators |
| LoopOpt.CandidateIsInvariantAndSafe | mb64566-loop-opt-pass.cpp:51 | a collected instruction has an allowed opcode, is not a terminator, is speculatable, has every operand constant or outside L, and comes from a non-header member block dominating every exit |
| LoopOpt.NoCandidateUsesCandidate | mb64566-loop-opt-pass.cpp:33-35 | no collected instruction has another collected instruction as an operand |
| LoopOpt.ScanBlock | mb64566-loop-opt-pass.cpp:50-55 | the inner collection loop returns exactly the block's instructions that pass both tests, in block order |
| LoopOpt.CollectCandidates | mb64566-loop-opt-pass.cpp:45-56 | the collection phase returns exactly ToHoist, in L->blocks() order then block order, skipping the header, with nothing moved |
| LoopOpt.MovedBefore | mb64566-loop-opt-pass.cpp:59 | moveBefore keeps the number of blocks and leaves the preheader ending in its terminator |
| LoopOpt.MovedBeforeWellFormed | mb64566-loop-opt-pass.cpp:59 | moving a non-terminator keeps every block ending in exactly one terminator |
| LoopOpt.MovedBeforeMultiset | mb64566-loop-opt-pass.cpp:59 | moving an instruction that occurs once keeps the function's instructions (as a multiset) |
| LoopOpt.MoveAll | mb64566-loop-opt-pass.cpp:58-61 | the move loop keeps the number of blocks and the preheader ending in its terminator |
| LoopOpt.MoveAllValid | mb64566-loop-opt-pass.cpp:58-61 | moving instructions of a valid function keeps it valid and keeps its instructions |
| LoopOpt.MoveAllOthers | mb64566-loop-opt-pass.cpp:58-61 | after the moves every block other than the preheader is its old self minus the moved instructions, in the old order |
| LoopOpt.MoveAllPreheader | mb64566-loop-opt-pass.cpp:58-61 | after the moves the preheader is its old body minus the moved instructions, then the moved instructions in order, then its old terminator |
| LoopOpt.MoveCandidates | mb64566-loop-opt-pass.cpp:58-61 | the move phase leaves the blocks equal to the moves applied one after another |
| LoopOpt.HoistSpec | mb64566-loop-opt-pass.cpp:41-62 | hoisting keeps the function valid, the number of blocks, and the multiset and number of its instructions |
| LoopOpt.HoistLoopInvariants | mb64566-loop-opt-pass.cpp:41-62 | the method keeps the function valid and leaves exactly the hoisting effect: nothing without a preheader, the collected instructions moved otherwise |
| LoopOpt.HoistShape | mb64566-loop-opt-pass.cpp:42-61 | without a preheader nothing changes; otherwise each other block loses exactly the candidates, keeping its order, and the preheader becomes old body minus candidates, candidates in collection order, old terminator |
| LoopOpt.HoistedLandInPreheader | mb64566-loop-opt-pass.cpp:58-61 | every candidate ends up in the preheader and in no other block |
| LoopOpt.OthersStay | mb64566-loop-opt-pass.cpp:58-61 | an instruction that is not a candidate stays in its block |
| LoopOpt.HeaderNeverChanges | mb64566-loop-opt-pass.cpp:47-48 | the header block is left exactly as it was |
| LoopOpt.HoistIgnoresSubLoops | mb64566-loop-opt-pass.cpp:41-62 | the hoisting effect does not depend on the loop's sub-loop list |
| LoopOpt.RunSpec | mb64566-loop-opt-pass.cpp:76-82 | run over the top-level loops keeps the function valid, the number of blocks and its instructions |
| LoopOpt.RunStep | mb64566-loop-opt-pass.cpp:76-82 | each top-level loop is skipped without a preheader and hoisted in the state left by the earlier ones otherwise |
| LoopOpt.RunIteration | mb64566-loop-opt-pass.cpp:76-81 | one iteration takes the function from the state after the first i top-level loops to the state after the first i + 1, keeping it valid, and changes nothing when loop i has no preheader |
| LoopOpt.Run | mb64566-loop-opt-pass.cpp:69-85 | the method visits the top-level loops in order, hoisting only those with a preheader, and leaves exactly the run effect |
| LoopOpt.RunWithoutPreheadersChangesNothing | mb64566-loop-opt-pass.cpp:76-80 | when no top-level loop has a preheader, run changes nothing |

## Left out

- The `errs()` diagnostics are not modelled. This covers the record lines, the "BranchInst", "Hoistable", "Hoisted" and "Skipping" messages, and the per-instruction dump. A statistics record is the eight-field `LoopStats` value rather than its text.
- Plugin registration (`llvmGetPassPluginInfo`, `getHelloWorldPluginInfo`), the `LoopSimplifyPass` inserted before the pass, `isRequired`, and the `PreservedAnalyses` value `run` returns are host integration, so they are not part of this model.
- The LLVM analyses are inputs, not models:
  - LoopInfo supplies the loops with their blocks, sub-loops, header, preheader and exit blocks, and the order of the top-level loops.
  - The dominator tree and `isSafeToSpeculativelyExecute` are the `Oracles` functions.
  - `BasicBlock::size` is the length of a block.
- `source.cpp` is not part of this model. It is a sample input program and contains none of the passes' logic.
- LoopAnalysis.GetLoopInfo: the counters and `loop_count` are unbounded integers. The source's 32-bit `int` overflow is not modelled; it would need more than 2^31 instructions or loops.
- LoopAnalysis.GetLoopInfo: the source resets its four reference out-parameters on entry. Dafny out-parameters carry no prior value, so independence from earlier values holds by construction and is not a separate property.
- LoopOpt.IsLoopInvariant: it requires `ScanOk`, i.e. that the operand loop never reaches a non-constant, non-instruction operand, because the code would pass a null pointer to `L->contains` there, which is undefined. The same precondition, lifted to every non-header member block, is carried by the collection members (`ScanDefined`), and by the hoisting members and `RunDefined` only for loops with a preheader.
- LoopOpt.HoistSpec and LoopOpt.RunSpec: preservation of the program's execution semantics is not stated. It needs an IR interpreter and a memory model.
- LoopOpt.HoistSpec and LoopOpt.RunSpec: dominance of every use by a hoisted definition is not stated either. The abstraction has no dominance relation tied to the control-flow graph (`Oracles.dominates` is an unconstrained function of block ids) and no SSA invariant that each definition dominates its uses. The structural half is proved: every operand of a collected instruction is a constant or an instruction outside the loop, and never another collected instruction (`CandidateIsInvariantAndSafe`, `NoCandidateUsesCandidate`). The moved instructions keep their collection order in the preheader, ahead of its terminator (`MoveAllPreheader`).
- LoopOpt.HoistLoopInvariants: what LLVM guarantees about a function and its loops is a precondition, not derived. `LoopInFunction` asks for distinct member blocks and for header and preheader to be blocks of the function; `Function.Valid` asks for well-formed blocks, no repeated instruction and no shared id.
- LoopOpt.HeaderNeverChanges: it assumes the preheader is not the header, which LoopInfo guarantees.
- Idempotence of the code motion pass is not stated because the code does not have it (see above).
