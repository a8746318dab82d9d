# gilmap, verified

gilmap applies a Python function to every element of a buffer, in parallel. This project models the parts of
it where a mistake would be hardest to see, and proves what they are for:

- **The compiler.** A Python function is marshalled to a typed IR (`gilmap/_jit.py`, `src/ast_ir.rs`), lowered to
  basic blocks with jumps and wrapped in an element loop, or in a two-lane vector loop with a scalar tail
  (`src/jit.rs`). Lowering preserves meaning, in both directions and including traps and divergence; the vector
  code refines the scalar code exactly where its lanes compute the kernel's meaning; the whole kernel is a `map`; no
  run reads or writes outside its buffers; a function of integers and floats computes what its source says of words and
  floats, and one of integers what Python computes.
- **The parallel drivers.** Chunk arithmetic, chunk-parallel runs, and the pool of worker threads behind `execute`
  (`src/lib.rs`, `src/rayon_pool.rs`, `src/cfunc_dispatch.rs`, `src/per_element.rs`) as step machines. Every schedule
  gives the sequential output, or fails exactly when the sequential run does; no schedule deadlocks, and every schedule
  ends. The worker pool reports the sequential error always, the Rayon driver exactly when all failing chunks fail
  alike. Kernels run on chunks of one shared buffer do, in any interleaving, what one call on the buffer does.
- **Caches and array kernels.** The worker's function and path caches, the router's decision cache under garbage
  collection and reuse of ids, and its lowering of one-expression functions to array operations
  (`gilmap/_router.py`).

## How the model is organised

| files | what they hold |
|---|---|
| `Ir`, `Machine`, `Semantics` | the IR, i64 with wrap-around, f64 as a bit pattern with a parametric arithmetic unit, a fuel-indexed big-step semantics that knows nothing of blocks, and the typing discipline |
| `Cfg` | basic blocks, mutable variables and SSA values, and a small-step machine that runs them, one instruction a step |
| `Lowering`, `Lowerer`, `CompileScalar`, `SimdCompiler` | the code generator: first as functions that say what is emitted, then as the objects that emit it into a mutable builder; the methods are proved equal to the functions |
| `Shape`, `ExprCorrect`, `LoweringCorrect`, `ScalarKernel`, `MapKernel` | emitted control flow is well formed; simulation of expressions, statements and the element loop; kernels are maps |
| `Simd`, `SimdKernel` | bitwise selection, lanes, and the vector kernel |
| `PyAst`, `Walker`, `WalkerObject`, `Terminated`, `DeadDefault`, `WalkerTypes` | Python syntax and its integer meaning, the walker as functions and as an object, its `terminated` flag and the code it makes unreachable, its types |
| `Numbers`, `PythonAgreement`, `StatementAgreement`, `NumberMap` | what a function of integers and floats computes, said on its source without IR or walker; the walked IR and the compiled code compute it |
| `SourceTypes` | which functions are compiled, said on their source |
| `WordArithmetic`, `PythonIntegers`, `PythonMap`, `CountedLoop` | Python's unbounded integers and machine words; Python's results and the compiled code's results |
| `ImplicitCasts` | conversions the code generator makes unasked, written out as casts |
| `LeakyLocal` | a function that is compiled but is no map |
| `Chunks`, `Elements`, `ChunkWork`, `CFuncDispatch`, `Rayon`, `KernelChunks`, `SharedBuffer`, `Pool`, `PoolRuns` | the parallel drivers |
| `WorkerCache`, `DecisionCache`, `Arrow` | caches and array kernels |

A source object whose methods update it is a class here (`FunctionBuilder`, `Lowerer`, `SimdLowerer`, `Walker`,
`Worker`, `Router`); each of its methods is proved to do what a function of its inputs and old state says, and the
theorems are about those functions. Protocols are step machines over schedules.

Side conditions appear where a property is false without them; inputs show it for the main ones: booleans returned as
values (`SimdKernel.BooleanValueDiffers`), integers under test in vector code (`SimdKernel.IntegerTestDiffers`),
locals assigned on some paths only (`LeakyLocal.CompiledLeaks`), sums that leave the range of an i64
(`PythonMap.SumWraps`), a division that traps in the arm Python does not take (`PythonMap.UntakenArmTraps`), an
assigned parameter (`PythonMap.ReassignedParameterIsIgnored`), a loop variable read after its loop
(`PythonMap.LoopVariableReadLate`), `/` on integers (`PythonMap.TrueDivisionTruncates`), floats under test
(`ImplicitCasts.SumTruncatesParts`), chunks that fail differently (`Rayon.SchedulesDisagree`), a reused context
address (`WorkerCache.ReusedAddress`). Eight conditions are exact: `WordArithmetic.TruncIsFloor`,
`Simd.BitselectIsSelect`, `ImplicitCasts.FloatTest`, `SimdKernel.AlikeIffLanesMean`, `WalkerTypes.TypedIffSafe`,
`SourceTypes.CompiledIffWellTyped`, `Rayon.ReportsSequential`, `WorkerCache.ShortcutIsRight`.

Where the code and its own text differ, the model follows the code:

- `src/ast_ir.rs:103-104` says `continue` jumps to the header of its loop; in a counted loop it jumps to a block that
  increments the counter first (`src/jit.rs:654-672`).
- `src/lib.rs:68-69` and `src/jit.rs:993-994` give the number of chunks as a formula; rounding the chunk size up can
  make fewer of them, though always more than half (`Chunks.ChunkCount`).
- `gilmap/_jit.py:111-112` turns `//` and `%` on floats away, but not `//=` and `%=` (`gilmap/_jit.py:196-218`); the code
  generator does (`WalkerTypes.AugFloatFloor`).

An array kernel evaluates constant parts once, also for an empty array, where element by element nothing would be
evaluated and nothing could raise; `Arrow.EmptyArray` says exactly when that shows.

## Model

| member | source | states |
|---|---|---|
| ExprCorrect.GuessIsOperandType | src/jit.rs:920-942 | the dtype guessed for a comparison is that of its operands, for every comparison of like-typed operands |
| ExprCorrect.EvalTyped | src/jit.rs:761-851 | a typed expression that does not trap has a value of its dtype |
| ExprCorrect.TestHasTruth | src/jit.rs:690-692 | whatever is fit for test position has a truth value when branched on |
| ExprCorrect.ExprSim | src/jit.rs:761-917 | the code of a typed expression is accepted and leaves its meaning in its result value, or traps exactly when evaluation traps, and changes no variable, no output and no earlier value |
| LoweringCorrect.CodeAccepted | src/jit.rs:761-851 | every typed expression is accepted |
| LoweringCorrect.BodyAccepted | src/jit.rs:591-599 | every typed statement list is accepted; the locals afterwards have the types the discipline computed and the loop stack is as before |
| LoweringCorrect.StmtAccepted | src/jit.rs:601-754 | the same for one statement; `terminated` is set by return, break and continue only |
| LoweringCorrect.BodySim | src/jit.rs:591-599 | for any nesting, the emitted blocks run from the body's first instruction to where the structured semantics says: past the end, the innermost loop's exit or header, the element's exit with the result in place, a fault, or on and on for at least as many steps as there was fuel |
| LoweringCorrect.StmtSim | src/jit.rs:601-754 | the same for every kind of statement |
| LoweringCorrect.IfSim | src/jit.rs:709-734 | branch, both arms and the join do what the conditional means |
| LoweringCorrect.WhileSim | src/jit.rs:682-708 | header, body and exit do what the loop means, break and continue included |
| LoweringCorrect.ForSim | src/jit.rs:626-681 | bounds are evaluated once, the counter is the local itself, and continue goes through the increment |
| LoweringCorrect.ElementAgrees | src/jit.rs:590-754 | running the emitted blocks reaches the element's exit with `v` as result if and only if the structured semantics returns `v` |
| Shape.BodyGrows | src/jit.rs:591-599 | lowering a list only adds code: finished blocks and other open blocks are untouched, every new block has exactly one terminator, all targets exist, the loop stack is restored, the current block is unterminated exactly when `terminated` is false |
| Shape.StmtGrows | src/jit.rs:601-754 | the same for one statement |
| ScalarKernel.KernelWellFormed | src/jit.rs:137-224 | every block of a compiled kernel ends in a terminator whose targets exist |
| ScalarKernel.ElementSim | src/jit.rs:168-217 | one turn of the element loop stores what the element means, or faults, or runs on |
| ScalarKernel.LoopSim | src/jit.rs:154-220 | the element loop from element `i` on does what the kernel means, for every length |
| ScalarKernel.CompiledAgrees | src/jit.rs:118-239 | the compiled kernel returns with a given output, or faults, if and only if the kernel means that |
| MapKernel.BodyAgrees | src/jit.rs:177-192 | two runs from stores that agree on what is definitely assigned have the same outcome, through loops and early exits |
| MapKernel.RunsAreMaps | src/jit.rs:148-220 | with definite assignment, running all elements on shared registers ends with `o` if and only if each element alone computes its entry of `o` |
| MapKernel.CompiledIsMap | src/jit.rs:118-239 | the compiled kernel, whatever its registers held, returns `o` if and only if `o` is the kernel mapped over the input |
| LeakyLocal.CompiledLeaks | gilmap/_jit.py:86-91 | textual order is not enough: a function the walker and the code generator accept, whose compiled code gives, for the input 0, the input before it, and on its own what a register held |
| LeakyLocal.LeakyRaises | gilmap/_jit.py:86-91 | on that input Python raises |
| ImplicitCasts.CoercedRuns | src/jit.rs:856-862 | coerced code yields the truncation or conversion of the value, and traps exactly when the conversion does |
| ImplicitCasts.CoercedLanes | src/jit.rs:532-538 | the same in both lanes |
| ImplicitCasts.SameCode | src/jit.rs:761-862 | the code of an expression is that of the expression with casts where its leaves are converted, for every expression and wanted dtype |
| ImplicitCasts.SameCompiled | src/jit.rs:111-404 | a kernel and the kernel with its conversions written out have the same scalar and the same vector code |
| ImplicitCasts.ImplicitAgrees | src/jit.rs:118-239 | so a kernel with implicit conversions, such as tests of floats, returns or faults exactly when the one with casts means that |
| ImplicitCasts.ImplicitLanes | src/jit.rs:251-404 | the same for vector code, lane by lane |
| ImplicitCasts.FloatTest | src/jit.rs:709-711 | the test of an f64 expression is an i64 test of its leaves truncated, if and only if it consists of leaves and arithmetic |
| ImplicitCasts.FloatIsTruncated | src/jit.rs:709-711 | `if x: return 1.0`, then `return 0.0`, on floats: the compiled code tests the truncated input, and traps if it has none |
| ImplicitCasts.SumTruncatesParts | src/jit.rs:796-803 | a sum under test is truncated part by part: it counts as false where both parts truncate to 0 |
| LowererObject.Lowerer.Coerce | src/jit.rs:856-862 | emits nothing, or the one conversion that is needed |
| LowererObject.Lowerer.LowerExpr | src/jit.rs:761-851 | appends exactly the specified code to the current block and nothing else, or fails as specified |
| LowererObject.Lowerer.LowerBinary | src/jit.rs:796-803 | both operands in the wanted dtype, left first, then the operation |
| LowererObject.Lowerer.LowerCompare | src/jit.rs:804-814 | both operands in the guessed dtype, then the comparison of that dtype |
| LowererObject.Lowerer.LowerIfExpr | src/jit.rs:815-820 | test, both arms, then a select: eager |
| LowererObject.Lowerer.BinOp | src/jit.rs:864-888 | the instruction for operator and dtype, or the error |
| LowererObject.Lowerer.LowerBody | src/jit.rs:591-599 | the loop over statements leaves the builder and the lowerer in the specified state; nothing is emitted into a terminated block |
| LowererObject.Lowerer.LowerStmt | src/jit.rs:601-754 | the same for one statement |
| LowererObject.Lowerer.LowerAssign | src/jit.rs:603-619 | declares the local on first use, refuses another dtype |
| LowererObject.Lowerer.LowerIf | src/jit.rs:709-734 | three blocks in the order of the source, fall-through only from arms that were not left |
| LowererObject.Lowerer.LowerWhile | src/jit.rs:682-708 | header, body, exit, with the loop frame pushed and popped |
| LowererObject.Lowerer.LowerFor | src/jit.rs:626-681 | header, body, exit and increment, with the loop frame pushed and popped |
| ScalarCompiler.BuildPrologue | src/jit.rs:137-175 | entry, header and element load, as the element loop's theorems expect them |
| ScalarCompiler.BuildDefault | src/jit.rs:194-205 | the zero for a body that falls through |
| ScalarCompiler.BuildEpilogue | src/jit.rs:207-220 | store of the result, step to the next element, return |
| ScalarCompiler.CompileScalar | src/jit.rs:118-239 | builds exactly the blocks the theorems about compiled kernels are about, or fails where lowering the body fails |
| Simd.MaskSelects | src/jit.rs:501-517 | bit by bit, an all-ones mask selects the first arm and an all-zeros mask the second |
| Simd.BitselectIsSelect | src/jit.rs:501-517 | `bitselect` is `select` on all arms if and only if the condition is 0 or -1 |
| Simd.GuessesAgree | src/jit.rs:541-561 | the vector guess and the scalar guess of a dtype are the same on everything that is vectorised |
| Simd.BinaryLanes | src/jit.rs:442-470 | a vector operation is the scalar operation in each lane |
| Simd.CompareLanes | src/jit.rs:471-500 | a vector comparison is the mask of the scalar comparison in each lane |
| Simd.SelectLanes | src/jit.rs:501-517 | selecting by two conditions selects in each lane by its own |
| Simd.MaskChooses | src/jit.rs:501-517 | where the condition of a lane is a mask, its selection is a choice between the arms |
| Simd.CompareSim | src/jit.rs:471-500 | the code of a comparison yields all-ones or all-zeros in each lane, as the comparison is true or false there |
| Simd.ValueSim | src/jit.rs:415-530 | the vector code of every expression that is vectorised and typed yields `LaneEval` in each lane, or traps exactly when one of the two lanes traps |
| Simd.MasksAgree | src/jit.rs:415-530 | a lane computes what the expression means on every input on which no boolean but False is a value and integers under test are 0 or -1 |
| SimdCompiler.SimdLowerer.Coerce | src/jit.rs:532-538 | emits nothing, or the one vector conversion that is needed |
| SimdCompiler.SimdLowerer.Lower | src/jit.rs:416-530 | appends exactly the specified vector code, or fails as specified |
| SimdCompiler.SimdLowerer.LowerIf | src/jit.rs:501-517 | condition, both arms, a reinterpretation of the mask for f64, then `bitselect` |
| SimdCompiler.CompileSimd | src/jit.rs:251-404 | builds exactly the blocks of the vector loop and the scalar tail, or fails as specified |
| SimdCompiler.Compile | src/jit.rs:111-116 | vector code for kernels of vectorisable shape, scalar code otherwise |
| SimdKernel.VecSim | src/jit.rs:292-334 | the vector loop stores, for every whole pair of elements, what the lanes compute |
| SimdKernel.TailSim | src/jit.rs:336-391 | the scalar loop does the rest |
| SimdKernel.VectorEnds | src/jit.rs:251-404 | every vectorised kernel, whatever its conditions, ends with what lanes compute for whole pairs and the scalar tail for the rest, or faults if one of them traps |
| SimdKernel.VectorRefinesScalar | src/jit.rs:251-404 | where lanes mean what the kernel means, vector loop plus tail and the scalar kernel end alike, with the same output or a fault, for every length |
| SimdKernel.AlikeIffLanesMean | src/jit.rs:251-404 | the two end alike on all inputs if and only if a lane computes the kernel's meaning for every single element |
| SimdKernel.MasksMean | src/jit.rs:501-517 | it does wherever conditions are masks, so for every kernel that tests nothing but comparisons and booleans |
| SimdKernel.CompiledKernelIsMap | src/jit.rs:111-116 | whichever code is chosen, the kernel is a map |
| SimdKernel.NeverStrays | src/jit.rs:111-239 | no run of a compiled kernel, returning, trapping or running on, accesses memory outside the buffers it was called with |
| SimdKernel.BooleanValueDiffers | src/jit.rs:429-433 | `True` for three elements: the compiled vector code returns -1, -1, 1, the scalar code 1, 1, 1 |
| SimdKernel.IntegerTestDiffers | src/jit.rs:501-517 | `1 if x else 0` on two elements 2: the compiled vector code returns 0, 0, the scalar code 1, 1 |
| Terminated.WalkedListEnds | gilmap/_jit.py:175-186 | a list is reported terminated if and only if no path through its IR falls off its end, and nothing is kept behind a statement that ends it |
| Terminated.WalkedStmtEnds | gilmap/_jit.py:188-285 | the same for one statement |
| Terminated.EndsNeverNormal | gilmap/_jit.py:175-186 | a terminated list never ends normally, so whatever is written after it changes nothing |
| Terminated.LoweredJumpsInside | src/jit.rs:735-751 | what the code generator accepts has every break and continue inside a loop |
| Terminated.AcceptedOnlyReturns | src/jit.rs:194-205 | an accepted function only returns, traps or runs on; the default zero is never its answer |
| DeadDefault.BodyWithin | src/jit.rs:591-754 | emitted code jumps to new blocks, to the frames of the loops around it, or to the element's exit, and nowhere else |
| DeadDefault.BodyDead | src/jit.rs:709-734 | after a body that ends, the current block is left or is one of a set of new blocks that no block outside the set jumps to |
| DeadDefault.DefaultNeverRuns | src/jit.rs:194-205 | no run of the compiled code of an accepted function ever enters the block with the default zero |
| WalkerTypes.WalkedInspect | src/jit.rs:924-942 | the dtype the code generator guesses from a walked operand is the one the walker gave it |
| WalkerTypes.WalkedTyped | gilmap/_jit.py:84-165 | a walked expression is typed, with the walker's dtype, if and only if its source keeps the conditions and code for it is accepted |
| WalkerTypes.WalkedTest | gilmap/_jit.py:133-138 | the same in test position |
| WalkerTypes.WalkedListTyped | gilmap/_jit.py:175-186 | the same for lists; the types of the locals are the walker's table, so each local keeps one dtype |
| WalkerTypes.WalkedStmtTyped | gilmap/_jit.py:188-285 | the same for one statement |
| WalkerTypes.AugFloatFloor | gilmap/_jit.py:196-218 | `//=` and `%=` on floats pass the walker and are turned away by the code generator |
| WalkerTypes.TypedIffSafe | gilmap/_jit.py:288-323 | a walked function's kernel is typed if and only if the source keeps the conditions and the code generator accepts the kernel |
| WalkerTypes.NoImplicitConversion | src/jit.rs:856-862 | code for a typed expression has exactly as many conversions as the expression has casts: every implicit coercion is the identity |
| WalkerObject.Walker.RecordReturn | gilmap/_jit.py:167-173 | the first return fixes the output dtype, later ones must agree |
| WalkerObject.Walker.Stmts | gilmap/_jit.py:175-186 | the loop collects the specified IR and stops at the statement that ends the list |
| WalkerObject.Walker.Stmt | gilmap/_jit.py:188-285 | the specified IR, flag, table of locals and output dtype, or the specified error |
| WalkerObject.Walker.AugAssign | gilmap/_jit.py:196-218 | an augmented assignment is the assignment of its operation, if that keeps the local's dtype |
| WalkerObject.TryCompile | gilmap/_jit.py:288-317 | the kernel of an accepted lambda or function; none otherwise |
| WordArithmetic.TruncIs | src/jit.rs:869-872 | hardware quotient and remainder are the one pair whose remainder is smaller than the divisor and has the dividend's sign |
| WordArithmetic.TruncIsFloor | src/jit.rs:869-872 | they are Python's if and only if the division is exact or the signs agree |
| WordArithmetic.TracksWord | src/jit.rs:864-888 | evaluation in words gives the low 64 bits of Python's value, as long as what is divided, compared or tested is in range, rounding agrees, and untaken arms do not trap; sums, differences and products may overflow on the way |
| WordArithmetic.FitsWord | src/jit.rs:864-888 | so it gives Python's value whenever that is an i64 |
| PythonAgreement.MeaningAgrees | gilmap/_jit.py:84-165 | for every input, in range or not, the IR of a typed expression of integers and floats has the number `Numbers.Meaning` gives its source, in the walker's dtype, and under test its truth; it traps exactly where that does, and nothing is left unsaid but of unbound names |
| PythonAgreement.MathNames | gilmap/_jit.py:39-50 | every name of the walker's table is mapped to the function of that name, and no other name is |
| PythonIntegers.WordIsMeaning | gilmap/_jit.py:84-165 | on integers that is evaluation in words |
| PythonIntegers.FitsMeans | gilmap/_jit.py:84-165 | of an expression that fits it is Python's value; the arm a conditional does not take need only not trap |
| PythonIntegers.RunIsWords | gilmap/_jit.py:175-285 | a run of Python's in which every expression fits is step for step the run in words: same outcome, same variables, same fuel |
| StatementAgreement.ListTable | gilmap/_jit.py:175-285 | the walker's table of locals is the one the IR's typing computes, and only grows |
| StatementAgreement.ListAgrees | gilmap/_jit.py:175-186 | a walked list, integers and floats, does what its source means for every amount of fuel: same outcome, same variables, loop variables outside their loops excepted; no walked form is without meaning |
| StatementAgreement.StmtAgrees | gilmap/_jit.py:188-285 | the same for one statement |
| StatementAgreement.WhileAgrees | gilmap/_jit.py:275-280 | the same, round by round, for a while loop |
| StatementAgreement.ForAgrees | src/jit.rs:626-681 | the counter, which is the local itself, keeps step with the range |
| SourceTypes.KindIsWalked | gilmap/_jit.py:84-165 | the walker gives an expression a dtype its code is typed with if and only if its parts have kinds that go together, and then that one; it may be tested if and only if it is a comparison of numbers or an integer |
| SourceTypes.ListIsWalked | gilmap/_jit.py:175-285 | a statement list is walked to typed code if and only if its expressions have kinds, each local keeps one, returns agree and jumps are inside loops; then the walker's table and its `terminated` flag are those read off the source |
| SourceTypes.CompiledIffWellTyped | gilmap/_jit.py:288-323 | walker and code generator accept a function, and it uses comparisons and tests as `WalkerTypes.TypedIffSafe` asks, if and only if its source is well typed and no path falls off its end |
| SourceTypes.WellTypedRuns | gilmap/_jit.py:288-323 | a well-typed function that leaves its parameter and loop variables alone never gets stuck: it returns, traps, runs on, or meets a name without a value |
| NumberMap.ElementMeans | src/jit.rs:177-192 | for one element, i64 or f64, the kernel of an accepted function returns, traps or runs on as its source does, whatever earlier elements left behind |
| NumberMap.CompiledMeans | src/jit.rs:111-239 | from source to machine code: over any buffer the compiled function, scalar or vector, stores what the source returns, or faults if the source traps on an element before which it returns |
| PythonMap.ElementIsPython | src/jit.rs:177-192 | for one element the kernel returns Python's result, or runs on as Python does, whatever earlier elements left behind |
| PythonMap.CompiledIsPython | src/jit.rs:111-239 | from Python source to machine code: over any buffer the compiled function, scalar or vector, stores Python's results |
| PythonMap.GuardedFits | src/jit.rs:815-820 | `x // 2 if x >= 0 else 0` fits for every i64, though the quotient in the untaken arm rounds differently |
| PythonMap.UntakenArmTraps | src/jit.rs:815-820 | `1 // x if x != 0 else 0` on 0: Python returns 0, the compiled code traps |
| PythonMap.SumWraps | src/jit.rs:866 | `x + 1` on the largest i64: Python returns 2^63, the compiled code -2^63 |
| PythonMap.ReassignedParameterIsIgnored | gilmap/_jit.py:86-88 | a parameter that is assigned still reads as the input |
| PythonMap.LoopVariableReadLate | src/jit.rs:629-665 | a loop variable read after its loop is the bound, not the last value |
| PythonMap.TrueDivisionTruncates | src/jit.rs:869-871 | `/` on integers is compiled to the truncating quotient |
| CountedLoop.RoundsAreRange | src/jit.rs:626-681 | rounds start at consecutive integers below the bound, whether a round ends normally or by continue; a loop not left early has max(0, end - start) of them; the counter never overflows |
| Chunks.ChunkCount | src/lib.rs:75-85 | chunks hold 1 to 4096 elements; wanted are four chunks per thread, or as many as 4096 elements to a chunk need, but no more than elements; the size is the least with which that many hold the buffer, and more than half as many are made |
| Chunks.EnoughChunks | src/lib.rs:71-85 | at most four elements per thread go out one by one; otherwise there are more than two chunks per thread |
| Chunks.ChunkAt | src/jit.rs:1038-1050 | cutting from the front gives exactly the chunks at multiples of the chunk size |
| Chunks.ExactlyOne | src/jit.rs:1038-1050 | every index of the buffer is in exactly one chunk |
| Chunks.SlicesJoin | src/cfunc_dispatch.rs:70-76 | the chunks in order are the buffer |
| Chunks.SpawnChunks | src/jit.rs:1038-1051 | the offset loop spawns the same chunks that slicing yields |
| Chunks.PlanCovers | src/jit.rs:1018-1053 | whatever the length and the number of threads, the planned calls cover the buffer, every index once, in order without gaps |
| Chunks.InvokeKernelParallel | src/jit.rs:1007-1053 | an error for an unknown kernel and a non-empty buffer; otherwise a plan that covers the buffer, in one call for fewer elements than threads |
| Elements.MapAllOk | src/per_element.rs:11-43 | the sequential loop gives all results if and only if every element succeeds |
| Elements.MapAllErr | src/per_element.rs:11-43 | otherwise its error is that of the first element that fails |
| Elements.CallPerElement | src/per_element.rs:11-81 | writes the results before the first failure, nothing after it, and takes a result equal to the conversion's sentinel for a result |
| CFuncDispatch.ApplyChunk | src/cfunc_dispatch.rs:28-50 | the loop over a C function writes its value at every index of its chunk and nowhere else |
| CFuncDispatch.ApplyInParallel | src/cfunc_dispatch.rs:54-77 | in whatever order the chunks are taken, every index ends up with its own value |
| CFuncDispatch.EveryScheduleApplies | src/cfunc_dispatch.rs:67-77 | the same with the chunks written element by element in any interleaving; every schedule is finite and ends without an error |
| ChunkWork.WrittenApart | src/lib.rs:351-374 | work on one chunk leaves what other chunks have written alone |
| ChunkWork.CallFails | src/lib.rs:99-120 | the first error in chunk order is the error of the first failing element |
| ChunkWork.AllWritten | src/lib.rs:351-374 | when every chunk has succeeded the output is the sequential map |
| Rayon.StepInv | src/rayon_pool.rs:112-146 | every step of any interleaving keeps what each chunk has written and where the kept error comes from |
| Rayon.EveryScheduleIsSequential | src/rayon_pool.rs:108-151 | whatever the schedule, there is an error if and only if some element fails, without one the output is the sequential map, and the error kept is the first of some chunk |
| Rayon.ReportedErrors | src/rayon_pool.rs:138-144 | the errors a scope may be left with are those of its failing chunks, each of them for some schedule |
| Rayon.ReportsSequential | src/rayon_pool.rs:138-144 | every schedule reports what the sequential run reports if and only if every failing chunk fails with the error of the first one that fails |
| Rayon.SchedulesDisagree | src/rayon_pool.rs:138-144 | two elements, one to a chunk, failing as "a" and "b": one schedule reports "a", another "b" |
| Rayon.StepsEnd | src/rayon_pool.rs:126-146 | until the scope is left there is a step to take, and every step uses up work |
| Rayon.SchedulesAreShort | src/rayon_pool.rs:126-146 | so every schedule is finite |
| KernelChunks.ChunksAreWhole | src/jit.rs:1037-1052 | the machine-code runs on the chunks finish with `o` in memory if and only if one run on the whole buffer does |
| SharedBuffer.RunsAlone | src/jit.rs:1037-1052 | on one shared buffer, after any interleaving, each task is where it would be on a buffer of its own, its chunk holds what it would hold, it has not strayed, and its next step changes nothing outside its chunk |
| SharedBuffer.AnyInterleaving | src/jit.rs:1007-1053 | whatever the interleaving, once all tasks have returned the shared buffer holds what one call on the whole buffer would have put there |
| SharedBuffer.PlannedRuns | src/jit.rs:1007-1053 | the calls planned for a registered kernel are such tasks, for every length and number of threads, so whatever their interleaving the buffer ends up as after one call |
| SharedBuffer.FairSchedulesFinish | src/jit.rs:1037-1052 | one call on the whole buffer finishes with `o` if and only if, for some number of turns, every schedule that gives each task that many ends with all returned and `o` in the buffer |
| Pool.StepInv | src/lib.rs:122-275 | every step of the pool keeps the invariant: tasks in one place, buffers as far as worked, slots, first errors, shutdown messages |
| Pool.RunInv | src/lib.rs:223-271 | a worker's step, writing one result or filling its done-slot, keeps it |
| Pool.FinishCall | src/lib.rs:361-374 | a call that has awaited all its slots returns the sequential result |
| Pool.WaitForTasks | src/lib.rs:99-120 | awaits all slots and returns the first failure in order |
| Pool.WaitIsFirstError | src/lib.rs:99-120 | that failure is the error of the first failing element |
| PoolRuns.EveryCallIsSequential | src/lib.rs:302-415 | in every reachable state a call that has returned has the map in input order, or exactly the error of the lowest-index failing element |
| PoolRuns.EachTaskInOnePlace | src/lib.rs:167-275 | every task sent is in exactly one of queued, running and done, and only once |
| PoolRuns.SlicesApart | src/lib.rs:337-356 | two tasks of a call never share an element |
| PoolRuns.NothingLeftBehind | src/lib.rs:359-374 | once a call has awaited its last task, also after an error, nothing queued or running refers to its buffers |
| PoolRuns.NeverStuck | src/lib.rs:122-275 | the pool never deadlocks, though the queue is bounded |
| PoolRuns.ShutdownComplete | src/lib.rs:556-573 | after shutdown every worker has stopped, each on one message of its own, and every task sent before is done |
| PoolRuns.StepUses | src/lib.rs:122-275 | every step decreases the work left |
| PoolRuns.SchedulesSettle | src/lib.rs:556-573 | every schedule is finite, and one that cannot go on has all calls returned and, if shutdown began, all joins returned |
| WorkerCache.PatchedPaths | src/lib.rs:194-210 | after path work that did not fail, recognised by its id or done now, every listed path is on `sys.path` |
| WorkerCache.MissAnswered | src/lib.rs:193-221 | a name that is not cached is answered by its import, unless the caller's paths are not the last ones and `sys`, or a path it has to look at, fails |
| WorkerCache.PathsAddedOnce | src/lib.rs:197-208 | what is added, failing or not, is listed by the caller, was not on `sys.path`, and is added once |
| WorkerCache.CachedIsResolved | src/lib.rs:184-221 | a name is cached if and only if an earlier task resolved it, with that task's function |
| WorkerCache.FirstResolvedIsCalled | src/lib.rs:176-222 | over any task sequence, tasks failing midway included, the function called is the one first resolved for that name, and it was imported with every path of its caller on `sys.path` |
| WorkerCache.ShortcutIsRight | src/lib.rs:180-184 | over a sequence of calls, every task gets the function first resolved for its name, however the imports turn out, if and only if no context address is used again for another name without the earlier name being called in between |
| WorkerCache.ReusedAddress | src/lib.rs:180-184 | otherwise there are imports for which a task whose own import fails is served the function of the call that had its address before |
| WorkerCache.Worker.Scan | src/lib.rs:197-208 | the path scan adds and remembers exactly the specified paths, up to the first failure |
| WorkerCache.Worker.ResolveTask | src/lib.rs:176-222 | updates the caches and answers as specified |
| DecisionCache.StepInv | gilmap/_router.py:56-73 | creation, decision, collection and reset keep the dictionaries' keys equal and each entry that of a live, weakly referenceable object with its own decision |
| DecisionCache.EvictsOwn | gilmap/_router.py:60-69 | a dying object's callback evicts exactly its own entry |
| DecisionCache.RouteDecides | gilmap/_router.py:394-407 | uncached routing gives `d` if and only if some detector gives `d` while none before it knows the function, or none knows it and `d` is the sub-interpreter |
| DecisionCache.AnswersAsUncached | gilmap/_router.py:394-414 | after any history the router answers with the first detector that knows the function, or the sub-interpreter, as if it had no cache |
| DecisionCache.Router.CacheDecision | gilmap/_router.py:56-64 | stores decision and weak reference, or takes the decision out again if there can be none |
| DecisionCache.Router.DecideFor | gilmap/_router.py:394-407 | the decision of the first detector that knows the function, or the fallback, from the cache or not |
| DecisionCache.Router.CollectAt | gilmap/_router.py:60-69 | when an object dies its own entry and weak reference go, and nothing else |
| DecisionCache.Router.ResetCache | gilmap/_router.py:410-413 | both dictionaries are emptied, and with the weak references go their callbacks |
| Arrow.LowerAccepts | gilmap/_router.py:241-311 | a closure is made for exactly the expressions of the parameter, constants and supported operations |
| Arrow.LowerPointwise | gilmap/_router.py:241-311 | the closure of an accepted expression gives an array of the input's length with each node's operation applied to its operands in order, or a scalar that is right for every input, and raises only if some element does |
| Arrow.FastIsPointwise | gilmap/_router.py:313-325 | on a non-empty array the fast path returns `ys` if and only if `ys` is the expression evaluated at each element |
| Arrow.EmptyArray | gilmap/_router.py:313-325 | on the empty array it raises if and only if a constant part of the expression does |
| Arrow.FastOnEmpty | gilmap/_router.py:313-325 | the fast path then returns the empty array, or raises |

## Left out

- Cranelift itself: SSA construction, register allocation, instruction selection and the mapping of libm symbols are
  trusted; an instruction does what `Cfg.Computed` says.
- IEEE arithmetic: floating-point operations are parameters, so every theorem holds for any of them and none says
  what a float is.
- Byte addresses: buffers are sequences addressed by element; the multiplication of an index by an element size and the
  pointer arithmetic are not modelled, and element counts stay below 2^63.
- JSON transport between walker and code generator, which copies the IR tag for tag; an integer constant that is no
  i64, which the reader of that JSON rejects, is rejected where the walker meets it.
- PyO3, Arrow conversion, interpreter creation, reference counts: a user call is a function from a value to a value or
  an error, the same each time it is called.
- The kernel registry, ISA flags, numba detection, source lookup, the order in which input dtypes are tried.
- Python beyond integers: agreement with Python itself is proved for functions of integers. For floats it is agreement with
  `Numbers`, where Python's float operations are those of the arithmetic unit; Python raises on some arguments (division by
  zero, `math.sqrt(-1)`) for which the unit has a result, returns integers from `math.floor` and `math.ceil`, and refuses a
  float in `range`.
- MapKernel.CompiledIsMap: definite assignment is sufficient and not necessary; whether a read of an unassigned local
  can be reached at all is undecidable, so no condition checked beforehand is exact.
- PythonIntegers.RunIsWords: runs in which a value Python assigns, returns or tests is no i64, or a division rounds
  differently, are not compared with Python; what the compiled code does then is in `NumberMap.ElementMeans`.
- NumberMap.ElementMeans: of a run that evaluates a name without a value, where Python raises, nothing is said.
- ImplicitCasts.ImplicitAgrees: not stated for kernels that use a comparison's result as a number
  (`SimdKernel.BooleanValueDiffers`), nor for those whose conversions leave an operation with operands of two dtypes, which
  are for Cranelift's verifier to turn away.
- LowererObject.Lowerer.LowerStmt: after an error the builder's contents are not described, since nothing looks at them.
- Pool.StepInv: workers are taken as started, a send never fails because all workers have died, no call starts sending
  after shutdown has begun, and a Rust panic in a worker is outside the model.
- PoolRuns.EveryCallIsSequential: a task fails by its elements only; failures to import the function are part of
  `WorkerCache` and there belong to one worker.
- WorkerCache.FirstResolvedIsCalled: user code is taken not to remove entries from `sys.path`.
- DecisionCache.AnswersAsUncached: detectors are functions of the object, and threads do not interleave inside one
  dictionary operation.
- Chunks.InvokeKernelParallel: yields the plan of calls; what the calls do to memory is in `SharedBuffer`.
- SharedBuffer.AnyInterleaving: a step is one instruction, and a vector store is one step; a hardware memory model is
  not part of this model.
- Arrow.LowerPointwise: the array library's kernels are parameters; nulls and its own type promotions are theirs.
- `execute_rayon`'s process-wide path id, a shorter form of the worker's, and `explain`, debug output, benchmarks and
  reports.
