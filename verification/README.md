# Verification of the SysY compiler's transformations

A Dafny model of the transformations in an optimizing SysY-to-AArch64 compiler, with proofs that they preserve
meaning. `dafny verify dfyconfig.toml` checks the whole project.

## How it is built

Every pass on the intermediate representation is stated against one semantics, in `IR.dfy`: integer and boolean
registers, variable slots, a heap of cells, an event trace, basic blocks that end in one terminator, phis read in
parallel on an edge, and runs as sequences of edges. An operation that the language leaves undefined gives no value,
and a run that has to branch on, return, store or pass on such a value is stuck. A pass preserves a run if the edges,
heap, trace of calls and stores, and result of the new run are the same for as long as the original is not stuck.
32-bit wrap-around, truncating division and shifts are written out in the operations of that semantics. Calls ask an
arbitrary oracle, which answers by the callee, its arguments and the heap, so every statement holds for all behaviours
of the functions that are called.

Code that works in place is modelled in place: classes with the original's fields (`RenameHelper`, `Marker`, `SCCP`,
`AST2IRVisitor`, `TensorData`, `Iterator`, `Planner`, `MBasicBlock`, `Func`, `DynamicBitset`, `Inline`,
`InstructionList`, ...) and loops with the original's variables. Each method is proved against a specification function
or invariant, and the meaning theorems are proved about that. Where the original iterates over a map or set ordered by
pointers, the model takes any element, so the results hold for every order.

| component | files |
|---|---|
| shared semantics, bit-level arithmetic, phis and predecessors, leaving elements of a sequence out | `IR`, `Bits`, `PhiForm`, `Sequences` |
| phi destruction | `PhiCopies` |
| constant propagation: analysis, rewriting, what it leaves, soundness | `Sccp`, `SccpRewrite`, `SccpForm`, `SccpSoundness` |
| dead instructions | `DeadCode` |
| promotion of variables: dominance, phi placement, one block, the walk, what the walk achieves, simulation, the form of the result, runs | `Dominance`, `Mem2Reg`, `Mem2RegRename`, `Mem2RegWalk`, `Mem2RegStatic`, `Mem2RegSim`, `Mem2RegSsa`, `Mem2RegRuns` |
| syntax tree to control flow graph: meaning of the tree, the builder, the lowering as a function, its runs, what they compute in numbers, the visitor that computes it in place | `Ast`, `Builder`, `Lowering`, `LoweringRuns`, `LoweringNumbers`, `LoweringStmts`, `LoweringControl`, `LoweringFunction`, `LoweringVisitor` |
| lowered functions in static single assignment form, lowering and promotion in one | `LoweringSsa`, `LoweringPromotion` |
| the first passes one after the other | `Pipeline` |
| initializer tensors and local array initialization | `Tensor`, `TensorBuild`, `TensorIterator`, `TensorPlain`, `ArrayInit`, `ArrayInitRun` |
| address arithmetic | `Gep` |
| spilling | `MachineCode`, `Spill`, `SpillRuns`, `SpillNames`, `SpillFunction` |
| strength reduction | `Arithmetic`, `Strength` |
| inserting a block | `BlockSplit`, `PhiSplit`, `SplitFunction` |
| bitset, block merging, instruction list | `Bitset`, `InlineMerge`, `InstructionList` |

The main theorems are `PhiCopies.SequentialIsParallel`, `SccpSoundness.PropagateConstants`,
`DeadCode.ClearInstructions`, `Mem2RegRuns.Promote`, `LoweringFunction.LoweringPreservesMeaning` and
`LoweringIsExact`, `LoweringPromotion.Compile`, `Pipeline.CompileAndOptimize`, `TensorIterator.Iterator.Next`, `TensorPlain.ToPlain` with `CanonicalUnique`,
`ArrayInitRun.InitializeArray`, `Gep.AcceptGetElementPtr` with `AddressIsExact`, `SpillRuns.SpilledFunctionRuns`,
`Strength.OptimizeMul`, `OptimizeRem` and `OptimizeDiv`, `BlockSplit.SplitPreservesRuns` with
`SplitFunction.Func.AddBlockBefore`, `InlineMerge.Inline.Merge`, and the contracts of `InstructionList`.

## Where the code does not do what was meant

The named members state what the code then does, or exactly when it is right; `NegatedDivisorFails`, `LegalButRefused`,
`SpillMissesUse`, `PutBetweenAllocas`, `LoadWithoutAlloca`, `ForkRedirected` and `RemovesTheFirst` show inputs for which
it is not.

- Division by a negative power of two (src/ir/pass/Arithmetic.cpp:1374-1398) leaves operand 1 of the subtraction as it
  was: the result is the quotient of x by c if and only if c is not -2^31 and 2c < x <= c
  (`Strength.NegatedDivisorRight`, `NegatedDivisorFails`).
- `makeSubTensor` refuses some legal nested initializers (include/util/Tensor.hpp:806): `TensorBuild.MadeWhen`,
  `LegalButRefused`.
- `MMAddSUB::replace` (src/machineir/machineir/MachineInstruction.cpp:738-758) compares the target with the factors
  and can forget that an operand is read: `SpillNames.MultiplyAddReplaced` and `MultiplyAddKept` say when, for one
  replacement and for any sequence of them; `SpillMissesUse`.
- `emplace_common_inst_after` (src/ir/ir/InstructionList.cpp:471-485) looks for phis only and accepts a place between
  two allocas, after which the boundary between the two parts is wrong:
  `InstructionList.InstructionList.EmplaceCommonInstAfter`, `InstructionList.PutBetweenAllocas`.
- The renaming erases the allocas of promoted variables but leaves a load of a variable that has no name yet
  (src/ir/pass/Mem2Reg.cpp:297-352), so that its operand dangles. In the model such a load gives an undefined value, as
  it did before. A load is left if and only if no path stores to the variable before it: `Mem2RegRuns.LoadsLeft`,
  `LoadWithoutAlloca`.
- `redirect_suc_basic_block` (src/ir/ir/BasicBlock.cpp:26-35) lists a block twice when it jumped to the new target
  already: `SplitFunction.Relinked`, `ForkRedirected`.
- `remove_last` (src/ir/ir/InstructionList.cpp:389-431) tries the first common instruction before it searches from the
  end: `InstructionList.InstructionList.RemoveLast`, `InstructionList.RemovesTheFirst`.
- The code that adds the offset of an address works on 32 bits and keeps the low 32 bits of constants
  (src/machineir/machineir/MachineOperand.cpp:32-41): `Gep.AddressIsExact` says for which offsets that is exact.

## What the callers guarantee

The preconditions of the main theorems are what the rest of the compiler provides.

- Constant propagation: single assignment, and branches to existing blocks. A run starts with all registers undefined.
- Promotion: single assignment with definitions before uses, the entry block without predecessors and phis, exact
  dominance frontiers (the analysis that computes them is not part of this model), and `Promotable`: a load of a
  promoted variable is not itself an address that is loaded from and not an operand of an earlier phi, because the
  renaming does not look at those operands. `LoweringPromotion.LoweredHandedOver` proves all of this but the frontiers
  of what lowering builds.
- Lowering: what the parser guarantees (`&&` and `||` have operands, array parameters have dimensions, break and
  continue stand in loops), and
  `loopRotateAndAddGuardInAST` off, as it is configured.
- Inserting a block: the phis have one pair for each predecessor, predecessors occur once, and at least one moves when
  there are phis (asserted in the code).
- Strength reduction: the signs that the analysis found for a value are right.
- Spilling: an instruction that reads the spilled register has it on its use list, and the slot is new. For spilling
  again and again, all lists are complete and no multiply-add has a factor as its target, as it is built
  (src/machineir/IR2MIR.cpp:183).
- Bitset: `rangeSet` needs the word of its end to exist, the binary operations a set that is at least as long, as in
  the original. Merging: `pre` is the only predecessor of `next`.

## Model

| member | source | states |
|---|---|---|
| `PhiCopies.BuildTable` | src/machineir/IR2MIR.cpp:609-619 | After the two set-up loops the table holds one entry for every copy that is not onto itself, with the source that was asked for, and every usage count is the number of pending copies that read the destination |
| `PhiCopies.EmitFree` | src/machineir/IR2MIR.cpp:624-634 | One pass over the table emits free entries in any order and keeps the progress invariant: after the moves so far, every pending destination still finds its value where its entry says, every finished one holds what was asked for, and the counts stay exact. If the pass emits nothing, no entry is free and nothing changed |
| `PhiCopies.AllBusyIsPermutation` | src/machineir/IR2MIR.cpp:635-643 | When no entry is free, every usage count is exactly 1 and every source is itself a pending destination: the pending copies are a permutation, so the assertion in the code never fires (a counting argument over the whole table) |
| `PhiCopies.EmitKeepsProgress` | src/machineir/IR2MIR.cpp:627-632 | Emitting a copy whose destination no unemitted copy reads destroys no value that is still needed |
| `PhiCopies.BreakKeepsProgress` | src/machineir/IR2MIR.cpp:637-648 | Saving a pending source in a fresh register and reading it from there keeps every pending value available |
| `PhiCopies.BreakStep` | src/machineir/IR2MIR.cpp:637-648 | Opening a cycle restores the whole invariant with one more fresh register and strictly fewer blocked entries |
| `PhiCopies.MBasicBlock.Round` | src/machineir/IR2MIR.cpp:622-651 | Each turn of the loop keeps the invariant and either empties the table a little or, at equal size, unblocks an entry, so the loop ends |
| `PhiCopies.MBasicBlock.Sequentialize` | src/machineir/IR2MIR.cpp:609-651 | For every list of copies with pairwise distinct destinations (chains, fan-out, any number of disjoint cycles, self copies), the emitted list leaves in every destination the value its source held before, and no other known operand changes; it has one move for each copy that is not onto itself and one for each register it created, and names no other register |
| `PhiCopies.SequentialIsParallel` | src/machineir/IR2MIR.cpp:607-651 | Executing such a list one move at a time, from any machine state, is the simultaneous assignment; only destinations and fresh registers change |
| `PhiCopies.MBasicBlock.MergePhiCopies` | src/machineir/IR2MIR.cpp:607-670 | The moves go to the end of the block, in front of its branch if it has one: running the block, whatever its other instructions do, leaves it by the same branch, with every destination holding what its source held when the block was left before, and all other known operands as then |
| `PhiCopies.MovesBetween` | src/machineir/IR2MIR.cpp:653-670 | Running the body, the moves and the branch in that order is leaving the block as before with the simultaneous assignment made last |
| `Sccp.FoldStable` | src/ir/pass/SCCP.cpp:280-306 | Once a folded instruction has a decided status, deciding further registers cannot change it |
| `Sccp.TransferStable` | src/ir/pass/SCCP.cpp:253-326 | The same for every defining instruction: a value that is CONST or NAC never changes again |
| `Sccp.TransferIgnores` | src/ir/pass/SCCP.cpp:269-277 | A status depends on operands only, so pushing the users of a changed register is enough |
| `Sccp.FlowEdgesShrink` | src/ir/pass/SCCP.cpp:328-348 | Deciding more registers only removes executable edges; the edges already found stay valid |
| `Sccp.SCCP.VisitFold` | src/ir/pass/SCCP.cpp:280-306 | The early-exit meet loop computes the transfer function of the lattice |
| `Sccp.SCCP.FlowStep` | src/ir/pass/SCCP.cpp:66-80 | Taking one edge off the flow worklist keeps the worklist invariant (whatever is not settled is queued) and shrinks the termination measure |
| `Sccp.SCCP.ValueStep` | src/ir/pass/SCCP.cpp:79-91 | The same for one instruction of the value worklist |
| `Sccp.DecidingShrinks` | src/ir/pass/SCCP.cpp:253-278 | A visit that changes a value uses up one undecided register, so both worklists together are bounded by values, uses and edges |
| `Sccp.SCCP.Analyze` | src/ir/pass/SCCP.cpp:36-92 | The two coupled worklists terminate; unless folding raises with what is known, the result is a fixed point: every value agrees with its transfer, visited edges contain the entry and are closed under executable branches, no edge is visited that a constant operand rules out, and no reachable instruction outside the entry block is stale; nor is one in the entry block when it reads only what it has computed before, and then control leaves it only where its branch goes |
| `Sccp.PhiConstant` | src/ir/pass/SCCP.cpp:308-326 | A phi is found constant if and only if all its operands are that constant, apart from some that never have a value |
| `Sccp.FoldsNumbers` | src/ir/pass/SCCP.cpp:97-172 | An operation on two constant numbers is found to be the number it computes; the remainder, which the code does not fold, is the exception |
| `Sccp.EntrySame` | src/ir/pass/SCCP.cpp:56-92 | Later visits change nothing of what was found in the entry block |
| `SccpRewrite.ReplaceWithConstant` | src/ir/pass/SCCP.cpp:189-251 | The three loops, one element at a time and in any order: no register found constant is defined or read any more; a branch on what was found constant is a jump to where it went, and the others go where they went; phis that had one operand for each predecessor still do |
| `SccpRewrite.RewrittenGone` | src/ir/pass/SCCP.cpp:189-219 | Whatever the analysis found constant is neither defined nor read in the rewritten function |
| `SccpRewrite.RewrittenDecided` | src/ir/pass/SCCP.cpp:221-251 | Terminators after the rewriting: jumps for decided branches, all others as they were with constants put in |
| `SccpRewrite.RewrittenComplete` | src/ir/pass/SCCP.cpp:235-251 | A phi with operands for exactly its predecessors keeps that when branches are converted |
| `SccpForm.RewrittenStays` | src/ir/pass/SCCP.cpp:189-251 | All other instructions and phis are still there, in order, with the constants put in and nothing else changed |
| `SccpRewrite.ConvertAll` | src/ir/pass/SCCP.cpp:216-251 | Converting branches one by one, removing phi operands of the block not taken, gives the same function in every order |
| `SccpSoundness.FoldAgrees` | src/ir/pass/SCCP.cpp:97-187 | If the map agrees with the registers, the folded status agrees with the value the instruction computes |
| `SccpSoundness.PhiAgrees` | src/ir/pass/SCCP.cpp:308-326 | If the map agrees with the registers, the meet of all phi operands agrees with the value chosen on any in-edge |
| `SccpSoundness.StepVisited` | src/ir/pass/SCCP.cpp:61-92 | A run that has only taken visited edges takes a visited edge next, and the map still agrees with the registers |
| `SccpSoundness.RunsStayVisited` | src/ir/pass/SCCP.cpp:36-95 | On every run of any length every edge taken is in `visited` and every register marked CONST holds that constant |
| `SccpSoundness.RewritePreservesRuns` | src/ir/pass/SCCP.cpp:189-251 | For every fixed point and every run, the rewritten function takes the same edges with the same memory and trace and returns the same result, and never takes a cut edge |
| `SccpSoundness.PropagateConstants` | src/ir/pass/SCCP.cpp:36-95 | The pass end to end: analysis, then rewriting, preserves all runs; constants are gone from the function, decided branches are jumps, the rest stays, and phis still fit their predecessors; if folding raises, the function is unchanged |
| `SccpSoundness.SumFolds` | src/ir/pass/SCCP.cpp:36-251 | Of a function that returns the sum of 1 and 2, the pass leaves the return of 3 |
| `DeadCode.Marker.MarkOperands` | src/ir/pass/DeadCode.cpp:379-392 | Marks and queues exactly what is missing among the operands' definitions, nothing that is not needed |
| `DeadCode.Marker.Mark` | src/ir/pass/DeadCode.cpp:350-377 | The worklist ends with the least set that holds the critical instructions and is closed under operands |
| `DeadCode.Sweep` | src/ir/pass/DeadCode.cpp:394-420 | Removing one unmarked instruction after the other gives the function restricted to the marked ones |
| `DeadCode.StepSim` | src/ir/pass/DeadCode.cpp:394-440 | One block of the original and of the swept function agree on the marked registers, the memory, the trace and the next edge |
| `DeadCode.SweepPreservesRuns` | src/ir/pass/DeadCode.cpp:350-440 | Every run keeps its edges, its memory, its sequence of calls and stores with their operand values, and its result |
| `DeadCode.ClearInstructions` | src/ir/pass/DeadCode.cpp:338-420 | Marking and sweeping together: the least sufficient set is kept, all runs are preserved, exactly the marked instructions are left, in order, and each of them ends a block, stores, calls with effects, or is read by another one that is left |
| `DeadCode.NeededWanted` | src/ir/pass/DeadCode.cpp:350-440 | Nothing is marked without a reason: what is neither a terminator, a store nor a call with effects is read by something else that is marked |
| `DeadCode.SweptKeeps` | src/ir/pass/DeadCode.cpp:394-420 | Sweeping leaves exactly the marked instructions and phis, in order |
| `Dominance.LastDefDominates` | src/ir/pass/Mem2Reg.cpp:94-169 | If a set of phi blocks contains the dominance frontiers of all definitions, then along a path without phis the last definition strictly dominates everything after it |
| `Dominance.ReachingUnique` | src/ir/pass/Mem2Reg.cpp:94-169 | Hence all paths into a block without a phi agree on the last definition before it |
| `Mem2Reg.PlacementCloses` | src/ir/pass/Mem2Reg.cpp:94-169 | The phis of the worklist are closed under dominance frontiers, which is what the theorem above needs |
| `Mem2Reg.PlaceFor` | src/ir/pass/Mem2Reg.cpp:127-165 | The worklist of one variable ends, reaches the iterated frontier of all its stores, and places a fresh phi only in a block that some path comes to after a store to the variable |
| `Mem2Reg.FrontierNeeds` | src/ir/pass/Mem2Reg.cpp:127-165 | A block in the frontier of one that may hold a stored value is reached after a store to the same variable, so the worklist never leaves the blocks where a phi is needed |
| `Mem2Reg.GeneratePhi` | src/ir/pass/Mem2Reg.cpp:85-169 | The same for all variables: the phis are closed under frontiers, and every one of them is needed |
| `Mem2RegRename.RenameBody` | src/ir/pass/Mem2Reg.cpp:288-387 | Going through a block, loads of promoted variables are replaced by the name on top of the stack, stores push names, operands are replaced, and the counts say exactly what was pushed |
| `Mem2RegRename.PushPhis` | src/ir/pass/Mem2Reg.cpp:359-372 | The phis at the head of a block become the current names of their variables |
| `Mem2RegRename.PopAll` | src/ir/pass/Mem2Reg.cpp:234-242 | Popping by the recorded counts restores every name stack to what it was before the block |
| `Mem2RegRename.FillSuccessors` | src/ir/pass/Mem2Reg.cpp:389-406 | Every new phi of a successor, and no other, gets one pair: the current name, if there is one, and this block |
| `Mem2RegWalk.RenameHelper.RunInner` | src/ir/pass/Mem2Reg.cpp:283-408 | Renaming one block, reached along a path of the walk, keeps the record of the walk and leaves the names of its end on the stacks, with one more frame of counts |
| `Mem2RegWalk.RenameHelper.EnterBlock` | src/ir/pass/Mem2Reg.cpp:248-257 | A successor seen for the first time is renamed with the names at the end of its parent and becomes the end of the current path |
| `Mem2RegWalk.RenameHelper.LeaveBlock` | src/ir/pass/Mem2Reg.cpp:229-247 | Leaving a block restores the name stacks to what they were after its parent was renamed |
| `Mem2RegWalk.RenameHelper.Run` | src/ir/pass/Mem2Reg.cpp:216-257 | The walk over CFG successors with its two explicit stacks ends, renames every reachable block once, and each with the names at the end of its parent in the walk |
| `Mem2RegStatic.SameNameOnEveryEdge` | src/ir/pass/Mem2Reg.cpp:216-408 | Although the walk enters a block along one edge only, a block without a phi for a variable would be entered with the same name along each of its in-edges |
| `Mem2RegStatic.BlockAvail` | src/ir/pass/Mem2Reg.cpp:283-408 | Every name on a stack is defined on every path to the place where it is current |
| `Mem2RegSim.InstrSim` | src/ir/pass/Mem2Reg.cpp:288-387 | One instruction and what it is renamed to keep the relation: the current name of a variable holds what its slot holds |
| `Mem2RegSim.BodySim` | src/ir/pass/Mem2Reg.cpp:288-387 | The same for any prefix of a block body |
| `Mem2RegSim.EnterSim` | src/ir/pass/Mem2Reg.cpp:389-406 | Entering a block with the new phis, all read in parallel, keeps the relation along every edge |
| `Mem2RegRuns.PromotionFollows` | src/ir/pass/Mem2Reg.cpp:216-408 | Every run of the promoted function follows the run of the original edge by edge |
| `Mem2RegRuns.PromotionPreservesRuns` | src/ir/pass/Mem2Reg.cpp:216-408 | So the two runs have the same edges, heap, trace and result at every point |
| `Mem2RegRuns.Promote` | src/ir/pass/Mem2Reg.cpp:39-408 | The pass on one function, for every well-formed input with exact dominance frontiers: all runs are preserved; what is returned is the promotion by the placed phis and the recorded walk, again in static single assignment form with existing targets; no block a run can come to declares a scalar or stores to a slot, all other declarations are still there, and a load of a slot is left in such a block if and only if no path stores to the slot before it |
| `Mem2RegRuns.PromotionRemoves` | src/ir/pass/Mem2Reg.cpp:293-357 | An instruction of a reachable renamed block declares no scalar and stores to no slot; if it is a load of a slot, then no path from the entry stores to that slot before it |
| `Mem2RegRuns.LoadsLeft` | src/ir/pass/Mem2Reg.cpp:339-357 | A load of a slot in a reachable block is left in the code if and only if no path from the entry stores to that slot before it |
| `Mem2RegRuns.LoadWithoutAlloca` | src/ir/pass/Mem2Reg.cpp:297-357 | Such an input: of the declaration of a variable and a load of it, the pass leaves the load alone |
| `Mem2RegRuns.DeclarationsLeft` | src/ir/pass/Mem2Reg.cpp:297-309 | Declarations of arrays and pointers stay |
| `Mem2RegSsa.OneDefinition` | src/ir/pass/Mem2Reg.cpp:216-408 | No two instructions of the promoted function define the same register, new phis included |
| `Mem2RegSsa.PromotedSSA` | src/ir/pass/Mem2Reg.cpp:216-408 | The promoted function is in static single assignment form, with definitions before uses on all paths, and its branches lead to blocks of it |
| `Lowering.ExpGrows` | src/ir/AST2IR.cpp:402-575 | Lowering an expression only adds to the function built so far: finished blocks stay, the insertion block is open, and the operand is one that exists |
| `Lowering.CondGrows` | src/ir/AST2IR.cpp:576-662 | Lowering a condition closes the insertion block and branches only to existing blocks and the two targets |
| `Lowering.LogicGrows` | src/ir/AST2IR.cpp:576-612 | The same for chains of logical and/or, which make one block per operand but the last |
| `Lowering.StmtGrows` | src/ir/AST2IR.cpp:740-912 | Lowering a statement keeps the builder consistent for every nesting of loops: each finished block has one terminator, predecessor lists match the branches |
| `LoweringRuns.StridesAreRowMajor` | src/ir/AST2IR.cpp:354-400 | The strides given to an array access compute four times the row-major index |
| `LoweringRuns.AccessValue` | src/ir/AST2IR.cpp:354-400 | An access to an array or array parameter computes the address the source language promises, for any number of indices |
| `LoweringRuns.PositionIsSum` | src/ir/AST2IR.cpp:354-400 | The position of an element, row after row, is the sum of the indices times the sizes of what they step over |
| `LoweringNumbers.PositionOnce` | src/ir/AST2IR.cpp:354-400 | Two elements have the same position only if all their indices are the same |
| `LoweringNumbers.PositionLast` | src/ir/AST2IR.cpp:354-400 | The last index steps to the next element, the one before it over a whole row |
| `LoweringNumbers.MathRuns` | src/ir/AST2IR.cpp:551-575 | Running an addition, subtraction, multiplication, division or remainder of a and b leaves, in numbers: the 32-bit number congruent to the sum, difference or product, the quotient rounded toward zero, or the remainder with the sign of a |
| `LoweringNumbers.NegationRuns` | src/ir/AST2IR.cpp:721-726 | Running a negation of a leaves the 32-bit number congruent to -a |
| `LoweringNumbers.RelationRuns` | src/ir/AST2IR.cpp:636-662 | From the code of a comparison of a and b the run reaches the true target if and only if a < b, a > b, a <= b or a >= b, as written, and the false target if not |
| `LoweringNumbers.EqualityRuns` | src/ir/AST2IR.cpp:614-634 | The same for a == b and a != b |
| `LoweringNumbers.NonZeroRuns` | src/ir/AST2IR.cpp:471-487 | A number used as a condition goes to the true target unless it is 0 |
| `LoweringRuns.CallRuns` | src/ir/AST2IR.cpp:664-719 | A call evaluates its arguments from left to right and has the value of the callee and its effect on the heap, global variables included |
| `LoweringStmts.GlobalRead` | src/ir/AST2IR.cpp:411-413 | Running a call and then a read of a global variable ends with what the callee left in that cell of memory |
| `LoweringStmts.GlobalWritten` | src/ir/AST2IR.cpp:746-752 | Running an assignment to a global variable and then a read of it ends with the assigned value in the register; memory has changed in that cell only, and the trace has this one store more |
| `LoweringRuns.ExpRuns` | src/ir/AST2IR.cpp:402-575 | Running the code of an expression gives its value and exactly its effects, in source order, and keeps all earlier registers |
| `LoweringRuns.CondRuns` | src/ir/AST2IR.cpp:576-662 | Running the code of a condition arrives at the current true target exactly when it is true and at the false target otherwise, having evaluated the operands a short-circuit evaluation does, in that order |
| `LoweringRuns.LogicRuns` | src/ir/AST2IR.cpp:576-612 | The same for nested chains of logical and/or of any length |
| `LoweringRuns.CastChoice` | src/ir/AST2IR.cpp:471-517 | The phi of a condition used as a number takes 0 from each block that branched to the false target and 1 from the other |
| `LoweringRuns.CastRuns` | src/ir/AST2IR.cpp:471-517 | A condition used as a number gives 1 if it is true and 0 if not, with the effects of evaluating it |
| `LoweringStmts.AssignRuns` | src/ir/AST2IR.cpp:746-752 | An assignment evaluates the address, then the value, and changes that cell only |
| `LoweringStmts.ReturnRuns` | src/ir/AST2IR.cpp:870-876 | A return ends the run with the value of its expression |
| `LoweringControl.IfThenRuns` | src/ir/AST2IR.cpp:754-770 | If without else: whatever the outcome of the statement (next, break, continue, return), the run from the insertion block reaches the matching place with the same memory |
| `LoweringControl.IfElseRuns` | src/ir/AST2IR.cpp:771-793 | The same with an else part, including the case that the joining block has no predecessor and is removed |
| `LoweringControl.LoopRuns` | src/ir/AST2IR.cpp:835-853 | A loop, by induction over its rounds: it ends in the next block or returns with the memory the source promises, or it goes on for at least as many steps |
| `LoweringControl.WhileRuns` | src/ir/AST2IR.cpp:812-856 | A while statement from its insertion block, with break and continue inside |
| `LoweringControl.EmptyWhileRuns` | src/ir/AST2IR.cpp:799-811 | A while statement without a body loops on its condition |
| `LoweringControl.JumpRuns` | src/ir/AST2IR.cpp:858-868 | Break reaches the exit of the innermost loop and continue its condition |
| `LoweringControl.StmtRuns` | src/ir/AST2IR.cpp:740-912 | Every statement: evaluation to an outcome and a memory is matched by a run to the matching block |
| `LoweringControl.StmtsRun` | src/ir/AST2IR.cpp:878-912 | Every list of statements, cut off after one that terminates the insertion block |
| `LoweringFunction.StoredRuns` | src/ir/AST2IR.cpp:317-329 | Entering a function stores the arguments, in order, to the slots of the parameters, and changes nothing else |
| `LoweringFunction.AllTerminated` | src/ir/AST2IR.cpp:303-349 | Every block of a lowered function has exactly one terminator |
| `LoweringFunction.LoweredWellFormed` | src/ir/AST2IR.cpp:303-349 | The entry block exists, has no phis, and every branch leads to a block of the function |
| `LoweringFunction.LoweringPreservesMeaning` | src/ir/AST2IR.cpp:303-349 | Main theorem: for every function body and every memory, if evaluation returns, the lowered function returns the same value with the same memory and trace; if it does not end within some fuel, neither does the run |
| `LoweringFunction.LoweringReflectsMeaning` | src/ir/AST2IR.cpp:303-349 | Conversely, if the lowered function returns, evaluation returns the same, or had an operation the language leaves undefined |
| `LoweringFunction.OutcomeStays` | src/ir/AST2IR.cpp:797-856 | The outcome does not depend on the fuel: once there is enough for one, more gives the same |
| `LoweringFunction.LoweringIsExact` | src/ir/AST2IR.cpp:303-349 | Without fuel, in both directions: a call that has a meaning returns a value with a memory, for some fuel and any larger one, if and only if the lowered function does |
| `LoweringFunction.LoweringDiverges` | src/ir/AST2IR.cpp:303-349 | and no fuel is enough for it if and only if the lowered function runs on for ever, never stuck |
| `LoweringVisitor.AST2IRVisitor.VisitExp` | src/ir/AST2IR.cpp:402-575 | The visitor, changing its blocks, insertion point and target stacks in place, builds what the specification above builds and restores all four stacks |
| `LoweringVisitor.AST2IRVisitor.VisitCast` | src/ir/AST2IR.cpp:471-517 | The same, with the phi made from the predecessors of the false target at that time |
| `LoweringVisitor.AST2IRVisitor.VisitCond` | src/ir/AST2IR.cpp:614-738 | The same, branching to the tops of the target stacks |
| `LoweringVisitor.AST2IRVisitor.VisitLogic` | src/ir/AST2IR.cpp:576-612 | The same, pushing one target for every operand but the last |
| `LoweringVisitor.AST2IRVisitor.VisitAssign` | src/ir/AST2IR.cpp:746-752 | The same for assignments |
| `LoweringVisitor.AST2IRVisitor.VisitIfThen` | src/ir/AST2IR.cpp:754-770 | The same for if without else |
| `LoweringVisitor.AST2IRVisitor.VisitIfElse` | src/ir/AST2IR.cpp:771-793 | The same for if with else |
| `LoweringVisitor.AST2IRVisitor.VisitWhile` | src/ir/AST2IR.cpp:835-853 | The same for while |
| `LoweringVisitor.AST2IRVisitor.VisitEmptyWhile` | src/ir/AST2IR.cpp:799-811 | The same for while without a body |
| `LoweringVisitor.AST2IRVisitor.VisitBody` | src/ir/AST2IR.cpp:844-851 | The loop stacks are pushed for the body only |
| `LoweringVisitor.AST2IRVisitor.VisitStmt` | src/ir/AST2IR.cpp:740-912 | The same for each kind of statement |
| `LoweringVisitor.AST2IRVisitor.VisitStmts` | src/ir/AST2IR.cpp:878-912 | The same for lists of statements |
| `LoweringVisitor.AST2IRVisitor.VisitParams` | src/ir/AST2IR.cpp:320-329 | Each parameter gets its argument, in the entry block |
| `LoweringVisitor.AST2IRVisitor.VisitFunction` | src/ir/AST2IR.cpp:303-349 | The visitor end to end: all stacks are back, every block is terminated, and for all memories the function does what the body means |
| `LoweringSsa.ExpNests` | src/ir/AST2IR.cpp:402-575 | Expressions: every register that is used is defined earlier in its block or in one that an insertion point tree has above it, every branch keeps to that tree, new registers are defined once, and the result can be used where the expression ends |
| `LoweringSsa.CondNests` | src/ir/AST2IR.cpp:576-662 | The same for conditions, whose targets must be reachable within the tree |
| `LoweringSsa.LogicNests` | src/ir/AST2IR.cpp:576-612 | The same for chains of logical and/or |
| `LoweringSsa.CastNests` | src/ir/AST2IR.cpp:471-517 | The same for a condition used as a number; its phi chooses between constants |
| `LoweringSsa.WhileNests` | src/ir/AST2IR.cpp:812-856 | The same for a loop, with its back edge, break and continue |
| `LoweringSsa.StmtNests` | src/ir/AST2IR.cpp:740-912 | The same for every statement in every nest of loops |
| `LoweringPromotion.AboveDominates` | src/ir/AST2IR.cpp:303-349 | What the tree has above a block dominates it: it is on every path from the entry |
| `LoweringPromotion.FinishedSSA` | src/ir/AST2IR.cpp:303-349 | So a finished function is in static single assignment form, with every definition before its uses on all paths |
| `LoweringPromotion.FinishedPromotable` | src/ir/AST2IR.cpp:402-458 | and no value loaded from a slot is an operand of a phi or the address of another load |
| `LoweringPromotion.LoweredHandedOver` | src/ir/pass/Mem2Reg.cpp:39-76 | Every lowered function meets what the promotion of variables needs, and no instruction of it writes the register of an argument |
| `LoweringPromotion.Compile` | src/ir/pass/Mem2Reg.cpp:39-408 | Lowering and promotion in one: for every proper function body, the function without slots returns what evaluation returns, with the same memory and trace, or lasts as long; it is in the form the next passes ask for |
| `Pipeline.SweptForm` | src/ir/pass/DeadCode.cpp:394-420 | Removing dead instructions keeps static single assignment form, the blocks and the registers of the arguments |
| `Pipeline.CompileAndOptimize` | src/compiler.cpp:106-113 | Lowering, promotion, dead code, constant propagation and dead code again, in this order: for every proper function body, called from outside, the optimized function returns what evaluation of the syntax tree returns, with the same memory and trace, or lasts as long; and each pass has done its work on what the one before left |
| `Pipeline.EntryInOrder` | src/ir/pass/SCCP.cpp:36-92 | In the form promotion leaves, the entry block reads only what it has computed before, so constant propagation settles it, too |
| `Tensor.DimLengths` | include/util/Tensor.hpp:350-370 | The lengths filled in from the last dimension are the products of the later dimensions |
| `Tensor.GetElementIsFlat` | include/util/Tensor.hpp:873-888 | `getElement` is the lookup in the flattened list, and fails exactly outside the capacity |
| `Tensor.Index` | include/util/Tensor.hpp:411-423 | Dividing the remainder by one capacity after the other gives the indices of a position |
| `Tensor.IndicesBound` | include/util/Tensor.hpp:411-423 | Each index lies within its dimension, and the row-major position of the indices is the position again |
| `Tensor.IndicesOfPosition` | include/util/Tensor.hpp:411-423 | The other direction: the indices of the position of some indices are those indices |
| `TensorBuild.AppendFlat` | include/util/Tensor.hpp:766-789 | Appending a value sets the first free element and no other, and keeps the tensor in order |
| `TensorBuild.TensorData.Append` | include/util/Tensor.hpp:766-789 | `append` in place: refused exactly when the node is full |
| `TensorBuild.AppendTo` | include/util/Tensor.hpp:766-789 | `append` on a node in a tree of objects: in every tensor around the node the flattened elements change only where the node lies, at its first free element |
| `TensorBuild.ChooseDimension` | include/util/Tensor.hpp:795-807 | The search for the dimension of a nested initializer, quotient by quotient |
| `TensorBuild.MadeFits` | include/util/Tensor.hpp:795-807 | What is found fits into the rest of the node, lies at a multiple of its own capacity, and is the largest aligned one |
| `TensorBuild.MadeWhen` | include/util/Tensor.hpp:795-807 | Exactly when a nested initializer is accepted: if it is legal and the first aligned dimension is not yet used up as a whole |
| `TensorBuild.LegalButRefused` | include/util/Tensor.hpp:805-807 | A legal initializer of `int[4][3][2]` that the bound in line 806 refuses |
| `TensorBuild.SubTensorFlat` | include/util/Tensor.hpp:808-811 | A new empty sub-tensor takes room and changes no element |
| `TensorBuild.LiesWithin` | include/util/Tensor.hpp:873-888 | A node ends within every tensor it lies in |
| `TensorBuild.RootChanged` | include/util/Tensor.hpp:766-812 | A change of one element of a node is a change of the surrounding tensor at the offset of the node plus that element, and of nothing else |
| `TensorBuild.TensorData.MakeSubTensor` | include/util/Tensor.hpp:791-812 | `makeSubTensor` in place: what is linked in, how much room is taken, and when it is refused |
| `TensorBuild.SubTensorOf` | include/util/Tensor.hpp:791-812 | `makeSubTensor` on a node in a tree of objects: the flattened elements of every tensor around it stay |
| `TensorBuild.SnapshotGood` | include/util/Tensor.hpp:766-812 | Every tree of objects built by these two operations has sizes equal to the sum of the capacities of its children, never above its own capacity, and every child at a multiple of its own capacity |
| `TensorIterator.Iterator.constructor` | include/util/Tensor.hpp:574-578 | A new iterator has the whole flattened tensor before it |
| `TensorIterator.Iterator.CurrentIterateType` | include/util/Tensor.hpp:425-440 | The kind that is reported is the kind of what the iterator stands on: a value, default values, the begin of a sub-tensor or its end |
| `TensorIterator.Iterator.GetValue` | include/util/Tensor.hpp:442-457 | Succeeds exactly at a value, and gives it |
| `TensorIterator.Iterator.GetDefaultValues` | include/util/Tensor.hpp:459-482 | Succeeds exactly at default values, and gives the value and how many |
| `TensorIterator.Iterator.Next` | include/util/Tensor.hpp:506-566 | Each step of the two-stack iterator takes from the front of the remaining elements exactly what it stood on, and the number of steps left goes down: all values and default runs together are `getElement(0)` to `getElement(cap - 1)` |
| `TensorPlain.ToPlain` | include/util/Tensor.hpp:580-659 | The run-length flattening has the contents of the tensor and is canonical: default and value segments alternate, default segments are longer than `gate`, no value segment has a longer run of default values in it |
| `TensorPlain.CanonicalUnique` | include/util/Tensor.hpp:580-659 | There is only one canonical list of segments for given contents, so `toPlain` is determined by `getElement` and `gate` |
| `ArrayInit.Planner.FinishGroup` | src/ir/AST2IR.cpp:134-149 | A completed group of four joins the run of groups of its kind or starts a new one, and brings its prefill along if it is mixed |
| `ArrayInit.KindsExact` | src/ir/AST2IR.cpp:112-160 | A group of four is cleared if and only if all its elements are default values, left to stores if and only if all are expressions, and copied otherwise |
| `ArrayInit.Planner.TakeValue` | src/ir/AST2IR.cpp:115-151 | Taking one value keeps the grouping of everything taken so far |
| `ArrayInit.Planner.TakeDefaults` | src/ir/AST2IR.cpp:152-195 | Taking a run of default values of any length, which may finish a group, fill whole groups and start another, keeps the grouping |
| `ArrayInitRun.Collect` | src/ir/AST2IR.cpp:104-199 | After the loop the planner's segments describe the flattened initializer |
| `ArrayInitRun.EmitBlocks` | src/ir/AST2IR.cpp:216-246 | Running the clears and copies from any memory gives each cell of a default group 0, each cell of a mixed group its prefill, and leaves the rest |
| `ArrayInitRun.EmitSegment` | src/ir/AST2IR.cpp:250-280 | Within one segment every expression is evaluated and stored in increasing index order, every other element is left |
| `ArrayInitRun.EmitExpressions` | src/ir/AST2IR.cpp:247-281 | The same for all segments |
| `ArrayInitRun.EmitTail` | src/ir/AST2IR.cpp:282-298 | The same for the elements after the last full group, where constants are stored as well |
| `ArrayInitRun.IndexList` | src/ir/AST2IR.cpp:955-968 | The index list of a cell addresses that cell |
| `ArrayInitRun.InitializeArray` | src/ir/AST2IR.cpp:104-299 | Main theorem: from arbitrary prior memory, the emitted memclear, memcpy and store plan leaves in cell k the flattened element k, for each k below the capacity, with each initializer expression evaluated exactly once, in increasing order |
| `ArrayInitRun.EvaluatedAt` | src/ir/AST2IR.cpp:104-299 | What that final memory is, element by element: a constant, or the value of the expression in the state after the earlier ones |
| `Gep.CreateOptimizedNNegMul` | src/machineir/machineir/MachineInstruction.cpp:332-383 | Each selection (constant, move, shift, multiply) writes the 32-bit product to its target and changes nothing else; nothing is multiplied by 0, 1 or a power of two, nor two constants by each other |
| `Gep.HornerIsOffset` | src/machineir/IR2MIR.cpp:386-479 | Taking the indices one by one in Horner form gives the row-major offset |
| `Gep.OffsetIsGep` | src/machineir/IR2MIR.cpp:386-479 | That offset is the one the shared semantics gives a getelementptr instruction |
| `Gep.AddRegister` | src/machineir/IR2MIR.cpp:431-466 | A register index joins the accumulator in each of its states, with a pending factor multiplied out first |
| `Gep.LengthOf` | src/machineir/IR2MIR.cpp:388-405 | The factor of a step is the length of its dimension, for the last index times four and the remaining lengths |
| `Gep.TakeIndex` | src/machineir/IR2MIR.cpp:386-479 | One turn of the loop, for constant and register indices and every state (constant, x + B, A*x + B, a length of zero), keeps the value accumulated so far modulo 2^32 |
| `Gep.Materialize` | src/machineir/IR2MIR.cpp:494-509 | The pending A*x + B is computed into one register |
| `Gep.AcceptGetElementPtr` | src/machineir/IR2MIR.cpp:360-521 | The emitted instructions add to the base the offset modulo 2^32 or, when a register is sign-extended, its signed 32-bit value; they write new registers only, so all others keep their contents, and for constant indices there are none |
| `Gep.AddressIsExact` | src/machineir/IR2MIR.cpp:360-521 | That is the right address if and only if the offset is from -2^31 up to 2^31 for a register that was sign-extended, from 0 up to 2^32 for all else |
| `Bits.PowerOfTwo` | src/machineir/machineir/MachineInstruction.cpp:373-379 | `c & (c - 1)` is 0 for a positive c exactly when c is a power of two |
| `Bits.OneBitShifts` | src/machineir/machineir/MachineInstruction.cpp:373-379 | and then shifting by the number of trailing zeros multiplies by c, for the low 32 bits |
| `Bits.PowerHasOneBit` | src/machineir/machineir/MachineInstruction.cpp:373-379 | Every power of two passes the test, seen as a 32-bit number |
| `Spill.ReplaceReady` | src/machineir/machineir/MachineInstruction.cpp:40-49 | Replacing a register keeps the def and use lists of an instruction complete, for every kind of instruction; a multiply-add must have a target that is not one of its factors |
| `Spill.SpilledMade` | src/machineir/machineir/MachineFunction.cpp:350-384 | The spilled function is one with the new numbers of registers and slots |
| `Spill.SpilledReady` | src/machineir/machineir/MachineFunction.cpp:350-384 | Where all lists were complete, and stay so under new names, they are in the spilled function |
| `SpillRuns.StepRenamed` | src/machineir/machineir/MachineFunction.cpp:367-367 | An instruction and its copy under the replacement name do the same in states that agree but for that name |
| `SpillRuns.GroupRuns` | src/machineir/machineir/MachineFunction.cpp:367-382 | The load, the replaced instruction and the store together do one original step, through the slot |
| `SpillRuns.ListMatches` | src/machineir/machineir/MachineFunction.cpp:353-383 | Running the rewritten list of a block ends as the original does, in agreeing states, whenever each instruction that reads the spilled register has it on its use list |
| `SpillRuns.BoundaryKept` | src/machineir/machineir/MachineFunction.cpp:353-383 | At every original instruction boundary the slot holds what the register held, and everything else agrees |
| `SpillRuns.SpillPreservesRuns` | src/machineir/machineir/MachineFunction.cpp:350-384 | All runs over all blocks are unchanged |
| `SpillRuns.SpilledFunctionRuns` | src/machineir/machineir/MachineFunction.cpp:344-384 | The same from the states a function starts in |
| `SpillRuns.SpilledAgain` | src/machineir/machineir/MachineFunction.cpp:344-384 | A function with complete lists, as they stay so under new names, meets what these theorems ask for, for every register, and still does after each spill |
| `SpillNames.OneOwner` | src/machineir/machineir/MachineFunction.cpp:357-382 | No replacement register occurs in the code of two original instructions |
| `SpillNames.SpillFlat` | src/machineir/machineir/MachineFunction.cpp:350-384 | The choice of names goes through the blocks as through one list |
| `SpillNames.BuiltReady` | src/machineir/machineir/MachineInstruction.cpp:40-49 | Arithmetic and compare instructions have complete def and use lists as they are built |
| `SpillNames.MultiplyAddReplaced` | src/machineir/machineir/MachineInstruction.cpp:738-758 | Replacing a register in a multiply-add keeps its use list complete if and only if the comparison of target and factors in the code does not make it drop an operand that is still read |
| `SpillNames.MultiplyAddKept` | src/machineir/machineir/MachineInstruction.cpp:738-758 | Any sequence of replacements keeps the use list of a multiply-add complete if and only if its target is no factor, or none of its reads is dropped for it (a condition on which of its four operands are equal) |
| `SpillNames.SpillMissesUse` | src/machineir/machineir/MachineInstruction.cpp:738-758 | A concrete multiply-add whose use list is then incomplete, so that a later spill misses a use and the run changes |
| `SpillFunction.MFunction.RewriteAt` | src/machineir/machineir/MachineFunction.cpp:357-382 | One turn of the loop, inserting into the instruction vector around position i: the new vector, index, register count and name to give away |
| `SpillFunction.MFunction.SpillBlock` | src/machineir/machineir/MachineFunction.cpp:353-383 | The loop with its moving index and size rewrites each original instruction of the block once |
| `SpillFunction.MFunction.Spill` | src/machineir/machineir/MachineFunction.cpp:344-384 | A new slot and the rewritten blocks, to which the theorems above apply |
| `Arithmetic.MulShift` | src/ir/pass/Arithmetic.cpp:324-332 | x * c for a positive power of two is the emitted shift, for every 32-bit x with wrap-around |
| `Arithmetic.MulNegativeShift` | src/ir/pass/Arithmetic.cpp:333-356 | x * -2^k is the negation shifted, -2^31 included |
| `Arithmetic.NeverNextTo` | src/ir/pass/Arithmetic.cpp:357-366 | The test for the multiply-long form never succeeds for a negative power of two |
| `Arithmetic.RemainderZero` | src/ir/pass/Arithmetic.cpp:579-612 | The truncated remainder by +-2^k is 0 exactly when the low k bits are, for negative dividends, too |
| `Arithmetic.NotNegative` | src/ir/pass/Arithmetic.cpp:579-612 | For a dividend that is not negative, remainder and quotient are mask and shift |
| `Arithmetic.NegativeDivisor` | src/ir/pass/Arithmetic.cpp:1374-1398 | When the code of the negative-divisor branch, whose second operand stays the divisor, is the quotient |
| `Strength.MulNegativePower` | src/ir/pass/Arithmetic.cpp:333-356 | The two emitted instructions serve for the multiplication |
| `Strength.DivPower` | src/ir/pass/Arithmetic.cpp:1363-1372 | The emitted shift serves for the division of a number that is not negative |
| `Strength.RemMask` | src/ir/pass/Arithmetic.cpp:579-612 | The emitted mask serves for the remainder of a number that is not negative |
| `Strength.RemTested` | src/ir/pass/Arithmetic.cpp:579-612 | Where the only user tests for zero, the mask does for the remainder of any number |
| `Strength.OptimizeMul` | src/ir/pass/Arithmetic.cpp:277-442 | Every branch of the rewriting: what the users read afterwards has the value the multiplication had; no multiplication is left when a factor is 0, a power of two or the negative of one, or both are constants, and only the long form when a factor is next to a power of two |
| `Strength.OptimizeRem` | src/ir/pass/Arithmetic.cpp:526-614 | Every branch: the users read the remainder, or the only user's test for zero has the same outcome; no remainder is left when the divisor is a power of two or the negative of one and the dividend is not negative or only tested for zero |
| `Strength.OptimizeDiv` | src/ir/pass/Arithmetic.cpp:1301-1401 | Every branch but the one for negative powers of two: the users read the quotient; for that branch, which code is left; no division is left by 1, -1 or a power of two the sign of the dividend allows |
| `Strength.NegatedDivisorRight` | src/ir/pass/Arithmetic.cpp:1374-1398 | That branch gives the quotient of x by c if and only if c is not -2^31 and 2c < x <= c |
| `Strength.NegatedDivisorFails` | src/ir/pass/Arithmetic.cpp:1374-1398 | so it never serves for all dividends its guard admits |
| `BlockSplit.StepSplit` | src/ir/ir/BasicBlock.cpp:178-218 | One edge of the original run is one edge of the new one or two through the new block, with the same values of all phis under parallel reads |
| `BlockSplit.RunSplit` | src/ir/ir/BasicBlock.cpp:178-218 | The same for runs of every length |
| `BlockSplit.SplitPreservesRuns` | src/ir/ir/BasicBlock.cpp:178-218 | The new function returns a result, with a memory and a trace, if and only if the original does |
| `PhiSplit.CollectPairs` | src/ir/ir/BasicBlock.cpp:220-232 | The pairs of a phi are divided by whether their block still goes to the old block; the first pair of a block counts |
| `PhiSplit.PairsOf` | src/ir/ir/BasicBlock.cpp:256-260 | A phi rebuilt from such a map chooses what the map says, whatever order the map is read in |
| `PhiSplit.DivideSplits` | src/ir/ir/BasicBlock.cpp:234-254 | In each of the three cases (one moved predecessor, all moved, some moved) the phis of the two blocks together choose, on every original predecessor's path, the old value |
| `PhiSplit.TakenSplits` | src/ir/ir/BasicBlock.cpp:168-176 | Moving all phis as they are does as well, when all predecessors move |
| `SplitFunction.Relinked` | src/ir/ir/BasicBlock.cpp:26-35 | Redirecting one branch keeps predecessor and successor lists mutual inverses without repetitions if and only if the block did not jump to the new target already |
| `SplitFunction.ForkRedirected` | src/ir/ir/BasicBlock.cpp:26-35 | Such an input: a branch to two blocks, redirected from one to the other, leaves that one twice in the list |
| `SplitFunction.Func.RedirectSucBasicBlock` | src/ir/ir/BasicBlock.cpp:26-35 | `redirect_suc_basic_block` in place, for any blocks: one terminator changes, the lists are edited as stated, and exactly when they stay inverses |
| `SplitFunction.Func.DividePhi` | src/ir/ir/BasicBlock.cpp:222-255 | One turn of the loop over the phis, which may remove the phi it stands on and rename all its uses; what is left has operands for the blocks that stay and the new block only, and the new phi for the moved ones only |
| `SplitFunction.Func.DividePhis` | src/ir/ir/BasicBlock.cpp:222-255 | The whole loop |
| `SplitFunction.Func.RedirectPreds` | src/ir/ir/BasicBlock.cpp:256-258 | The predecessors that do not stay, and no others, jump to the new block |
| `SplitFunction.Func.AddBlockBefore` | src/ir/ir/BasicBlock.cpp:220-260 | `add_block_before` with the set of blocks that stay: the result is related to the original as the run theorem requires, the lists are mutual inverses, the phis of both blocks have an operand for each of their predecessors and no other, and every block that met the precondition before still does, so the operation can follow itself |
| `SplitFunction.Func.AddBlockBeforeAll` | src/ir/ir/BasicBlock.cpp:168-176 | The overload without a set: all predecessors move and the phis with them, which fit the new block if and only if they fitted the old one |
| `SplitFunction.SplitPreds` | src/ir/ir/BasicBlock.cpp:256-260 | The new block has the moved predecessors, the old one the others and the new block |
| `SplitFunction.SplitWhole` | src/ir/ir/BasicBlock.cpp:220-260 | After a division registers are below the new count, jumps go to blocks, and no other instruction defines the result of a phi |
| `Bitset.ClearLowest` | src/util/DynamicBitset.cpp:282-292 | w & (w - 1) removes the lowest bit and nothing else |
| `Bitset.RangeMembers` | src/util/DynamicBitset.cpp:132-148 | Filling first, middle and last word adds exactly the interval |
| `Bitset.DynamicBitset.constructor` | src/util/DynamicBitset.cpp:66-72 | A new bitset is empty and has room for its length |
| `Bitset.DynamicBitset.Test` | src/util/DynamicBitset.cpp:79-85 | Membership |
| `Bitset.DynamicBitset.Set` | src/util/DynamicBitset.cpp:102-108 | Adds one number and changes no other |
| `Bitset.DynamicBitset.SetAndGet` | src/util/DynamicBitset.cpp:110-119 | Adds, and tells whether it was new |
| `Bitset.DynamicBitset.Reset` | src/util/DynamicBitset.cpp:150-156 | Removes one number and changes no other |
| `Bitset.DynamicBitset.ResetAndGet` | src/util/DynamicBitset.cpp:121-130 | Removes, and tells whether it was there |
| `Bitset.DynamicBitset.RangeSet` | src/util/DynamicBitset.cpp:132-148 | Adds the numbers of a half-open interval, within one word and across words |
| `Bitset.DynamicBitset.UniteWith` | src/util/DynamicBitset.cpp:171-174 | Union, over the words of this set |
| `Bitset.DynamicBitset.Subtract` | src/util/DynamicBitset.cpp:176-179 | Difference |
| `Bitset.DynamicBitset.Reserve` | src/util/DynamicBitset.cpp:181-193 | Growing keeps the members and adds none |
| `Bitset.DynamicBitset.AllZeros` | src/util/DynamicBitset.cpp:223-228 | Whether the set is empty |
| `Bitset.DynamicBitset.Include` | src/util/DynamicBitset.cpp:230-235 | Whether the other set is a subset, as far as the words of this one go |
| `InlineMerge.Iterator.SkipZeros` | src/util/DynamicBitset.cpp:253-274 | Goes to the next word that is not zero and skips no other |
| `InlineMerge.Iterator.EmptyRest` | src/util/DynamicBitset.cpp:253-274 | The iterator is at its end exactly when no member is left |
| `InlineMerge.Iterator.Least` | src/util/DynamicBitset.cpp:276-280 | It stands at the least member left |
| `InlineMerge.Iterator.Advance` | src/util/DynamicBitset.cpp:282-292 | Each step takes off exactly that member, so members come in ascending order, each once |
| `InlineMerge.LeftStable` | src/util/DynamicBitset.cpp:253-292 | Removing the member the iterator stands at, or an earlier one, from the set does not change what is left to come |
| `InlineMerge.Inline.RemoveEdge` | src/ir/pass/Inline.cpp:645-653 | One edge less in both directions, with degree counts equal to the sizes of the sets and the lists of the two blocks enumerating them |
| `InlineMerge.Inline.AddEdge` | src/ir/pass/Inline.cpp:655-663 | One edge more in both directions, in the sets, the counts and the lists of the blocks |
| `InlineMerge.Inline.MoveSuccessor` | src/ir/pass/Inline.cpp:508-513 | One turn of the loop, which takes a member out of the set that is being iterated |
| `InlineMerge.Inline.Merge` | src/ir/pass/Inline.cpp:507-513 | After the loop `pre` has the successors of `next`, `next` has none, the two directions are transposes of each other and the counts are exact |
| `InlineMerge.MergedTransposes` | src/ir/pass/Inline.cpp:507-513 | Moving all successors keeps a graph and its transpose in step |
| `InstructionList.LinkIn` | src/ir/ir/InstructionList.cpp:530-532 | Linking a node in between two neighbours keeps all links mutual and puts it at that place of the ring |
| `InstructionList.LinkOut` | src/ir/ir/InstructionList.cpp:560-561 | Linking a node out keeps all links mutual |
| `InstructionList.InstructionList.constructor` | src/ir/ir/InstructionList.cpp:203-208 | A new list has two empty parts |
| `InstructionList.InstructionList.PopBack` | src/ir/ir/InstructionList.cpp:262-283 | Removes and gives the last instruction of the common part or, if that is empty, of the head part |
| `InstructionList.InstructionList.AddAll` | src/ir/ir/InstructionList.cpp:285-323 | Both parts of another list are appended to the two parts; the other list is unchanged |
| `InstructionList.InstructionList.AddAllPhiAndAllocas` | src/ir/ir/InstructionList.cpp:325-343 | The heads of another list are appended to the heads |
| `InstructionList.InstructionList.RemoveFirst` | src/ir/ir/InstructionList.cpp:345-387 | Removes the first occurrence from the part it belongs to, or says that there is none |
| `InstructionList.InstructionList.RemoveLast` | src/ir/ir/InstructionList.cpp:389-431 | Removes the last occurrence, but the first common instruction before any other: what goes is the last occurrence if and only if the instruction is a phi or alloca, or is not the first common instruction, or occurs once |
| `InstructionList.RemovesTheFirst` | src/ir/ir/InstructionList.cpp:389-431 | Such an input: of three instructions, the last like the first, the first one goes |
| `InstructionList.InstructionList.GetCommonInstructionFromEnd` | src/ir/ir/InstructionList.cpp:443-452 | The common instruction at a distance from the end, if there is one |
| `InstructionList.InstructionList.EmplaceCommonInstFromEnd` | src/ir/ir/InstructionList.cpp:454-469 | Puts a common instruction in with that many behind it; refused exactly for phis and allocas and for distances that are too long |
| `InstructionList.InstructionList.EmplaceCommonInstAfter` | src/ir/ir/InstructionList.cpp:471-485 | Puts a common instruction in behind a node. When the node is an alloca that is not the last head, the code does not refuse, and exactly then the two parts are no longer apart |
| `InstructionList.PutBetweenAllocas` | src/ir/ir/InstructionList.cpp:471-485 | Such an input: two allocas, and a common instruction put in behind the first |
| `InstructionList.InstructionList.EmplaceBack` | src/ir/ir/InstructionList.cpp:498-502 | Appends to the part the instruction belongs to |
| `InstructionList.InstructionList.EmplaceFront` | src/ir/ir/InstructionList.cpp:504-508 | Puts in front of the part the instruction belongs to |
| `InstructionList.InstructionList.EmplaceBackCommonInst` | src/ir/ir/InstructionList.cpp:515-524 | Appends to the common part, moving the boundary if it was empty |
| `InstructionList.InstructionList.EmplaceBackPhiAllocaInst` | src/ir/ir/InstructionList.cpp:526-534 | Appends to the head part, right before the boundary |
| `InstructionList.InstructionList.EmplaceFrontPhiAllocaInst` | src/ir/ir/InstructionList.cpp:536-544 | Puts in front of the head part |
| `InstructionList.InstructionList.EmplaceFrontCommonInst` | src/ir/ir/InstructionList.cpp:546-555 | Puts in front of the common part; the boundary moves to it |
| `InstructionList.InstructionList.Erase` | src/ir/ir/InstructionList.cpp:557-570 | Removes one node from its part and gives its instruction; the boundary moves if it stood there, and the end node is left alone |

## Left out

- Strength.OptimizeDiv: for negative powers of two it says which code is left, because that code is not a quotient in general; `NegatedDivisorRight` says when it is.
- Floating point: registers, operations, constants and conversions.
- Division by zero, -2^31 / -1 and shifts by too much have no value; where folding such constants would raise or be undefined in the compiler, the model's folding fails and nothing is claimed.
- Evaluating an expression that the language leaves undefined: `LoweringPreservesMeaning` claims nothing for it.
- Lowering: allocas are not instructions (a variable has a slot from the start), the addresses of arrays and global variables are given, the copy of a partly initialized global array (`create_global_fix`) and the extra access for arrays passed to library functions are not modelled. Array declarations are modelled apart, in `ArrayInitRun`.
- Lowering: a block removed because nothing leads to it is removed from the function only, its name is not used again.
- ArrayInitRun.InitializeArray: evaluating an initializer expression neither reads nor writes the array; the language gives no meaning to an initializer that depends on it, because it leaves the order of evaluation open. The default value is the constant 0.
- Dead code: `memcpy` and `memclear` stand as calls with effects. `is_critical` takes calls to be critical or not by a flag on the call; the effect analysis behind it, the removal of blocks, functions, parameters, allocas and globals, and return value clearing are not modelled.
- Promotion: the analysis of dominators; variables whose alloca is not in the entry block.
- Constant propagation: logging, the merging of equal constants, and the refresh of cached analyses. An instruction of the entry block is not visited again from the value worklist, as in the code.
- Address arithmetic: the 64-bit mode (`use64BitsMathOperationInPointerOp`, off as configured), and the merging of multiply and add in src/machineir/IR2MIR.cpp:522-594, which never applies.
- Spilling: the variants that reuse a preferred slot or a constant (src/machineir/machineir/MachineFunction.cpp:300-343), register banks and sizes, and the use lists of the function.
- Strength reduction: the worklists and the propagation of signs, instructions other than mul, div and rem.
- SplitFunction.Func.AddBlockBeforeAll: moves the phis; the allocas, which the source moves along with them (src/ir/ir/BasicBlock.cpp:168-170), stay in the old block. They have no effect when they are executed.
- Inserting a block: the three overloads with a single block, an ordered and an unordered set are one method over the set of blocks that stay.
- Block merging: instructions, phis and the removal of the block from its function; the graph, its bitsets and the lists of the blocks are modelled. Copying, moving, comparing, printing and `reverse` of bitsets.
- Instruction list: the views and iterators, `clear` and `remove_phi_and_allocas` (which leave a stale back link). Freed nodes are dropped, not deleted.
- Tensors: the two `toPlain` overloads are one method; strings; indexing by an index vector in `getElement` is `Position` in `Tensor`. The iterator walks a value, the tree that `TensorBuild.Snapshot` makes of the objects, so it does not model changes to the tensor while it is being walked.
- Parsing, printing, linking, the runtime library, the driver: no hard properties.
- Register allocation, code generation, loop passes (LICM, simplification, rotation, LCSSA), global code motion, array reversal: they rest on analyses that are not part of this model.
