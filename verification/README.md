# Quaint: code generation, resumable functions, front end, types and scopes

Quaint is a small compiler with a virtual machine for resumable functions. A typed syntax tree is lowered to
memory-to-memory instructions without registers; a machine interprets them with an explicit stack, a base pointer
and a linked list of temporary frames; and machines are linked by `parent` pointers, so that a function can be
started, waited for, pre-empted, inspected and reaped. This project models four cores and proves what they promise.

* **Code generator and machine.** `Bytes`, `Words`, `Ast`, `Layout`, `Insn` and `Machine` are the data: bytes and
  machine words, the typed tree with its checks, frame layout, instructions, and one machine as a step function over
  byte memory. `Source` gives the language a big-step meaning that tracks the stack it uses. `Codegen` says which
  instructions stand for a tree; `CodeGenerator` and `Compiler` are the generator as it runs, an instruction array
  that grows and is patched in place, proved to produce such code; `Linking` resolves function addresses. The proof
  that code means what its tree means is `SimBase` to `Simulation`; `Preservation`, `Eager` and `Contexts` hold the
  results. `Soundness` is type soundness of the language, `Legality` and `LegalityStmts` what typing means for the
  instructions. `Interpreter` is the machine as a class over a real stack array, proved equal to the step function.
* **Resumable functions.** `Quaint` is the transition system over all live machines, with the clock as an arbitrary
  input. `ActiveChain` and `Protocol` prove the chain invariant, `Guarantees` and `Schedules` what follows over whole
  runs, `Starts` what `@start` tells, `Flags`, `Noints` and `NointBlocks` how long `noint` holds and what it keeps out.
  `Runtime` is the same over objects: machines that are allocated, linked by parent pointers, updated in place by the
  interpreter, and freed.
* **Front end.** `Tokens` and `Lexer`: automata in lockstep, longest match. `Grammar`, `ShiftReduce`, `Parser` and
  `Precedence`: the table-driven shift-reduce loop, its soundness and termination, and the trees it builds for chains
  of operators. `Text` puts the two together, from characters to trees.
* **Types and scopes.** `Types` and `TypeRecords`: layout, equality and copies of types. `Scopes`: duplicate marking,
  sorted lookup, label ids.

## What the results are

*Preservation.* For a checked program whose behaviour is defined, the machine finishes with a value exactly when the
language returns that value, is stopped as illegal exactly when the language outgrows the stack, and runs forever
exactly when the language never finishes; `Compiler.ProgramMeansMain` says so of the array the compiler leaves and the
machine `exec` starts on it. The language's meaning is place-valued, as the generator is: `x + (x = 2)` reads `x` after
the assignment. `Eager.OrderMatters` shows that example and `Eager.OrderDoesNotMatter` proves that left-to-right
reading gives the same for every program that does not write a place waiting to be read.

*Legality.* Every instruction of every function of a checked program has operands of the sizes and signs its handler
checks for, inside the temporaries and the frame INCSP makes, and jumps inside its function. This follows from typing
alone, for every program and every state. Behaviour that is not defined comes only from an uninitialised variable, an
operation without a result, or a function that returns a value and ends without one.

*Casts.* `CAST` zero-fills, so widening a negative value is not C's conversion. `Words.CastIsCConversion` gives the
exact condition and `Words.SignedWideningLosesTheSign` an input. The language of `Source` casts as the machine does.

*Protocol.* For every clock and every sequence of inputs the parents of the running machine form a chain without a
cycle, every machine above stands at the instruction that entered the one below, and from this follow what a `wait`
and a `*q` guarantee, and that a compiled function reaped with `*q` delivers the value a synchronous call returns.
From the instruction NOINT to the instruction INT no ancestor executes anything (`Noints.NoIntSafety`), and a compiled
`noint` block with no other one in it or in what it calls is atomic (`NointBlocks.QuietBlockIsAtomic`). The flag is one
bit, though: a nested block clears it for the rest of the outer one, and a `return` inside a block leaves it set.
Where the repository's documentation says that `q@start` ends with the first wait (README.md, the section on the `@`
operator), the code keeps it until the first instruction of `q` is executed: `Starts.StartMeansUntouched` proves this,
and `Starts.WaitedYetUntouched` says exactly which waits leave it so.

*Front end.* The tokens are the only way to cut the input into longest matches, and the lexer accepts exactly the
inputs that can be cut so with no automaton still hoping behind a token; it never backs up to a shorter match. The
parser's loop ends, an accepted tree is a derivation whose leaves are the tokens, whitespace and comments make no
difference, and for a chain of operands and binary operators the loop builds the one tree that respects precedence:
written out as characters, lexed and parsed, such a tree comes back.

*Scopes.* Looking a name up in the sorted tables answers as a linear search through the declarations, whichever entry
the binary search hits, and label ids agree exactly when function and label name do.

*Unions.* The size of a union is not rounded up to its alignment. `Types.AlignedExactly` proves that every scalar in
a value is aligned if and only if no array of two or more such unions occurs in its type, and `Types.RaggedArray`
gives an array with a misaligned element.

Assumptions made throughout: allocation succeeds; conditions and ternary branches are not void, and arrays in types
are not empty (only where `Populated` is required); each quaint is waited for or reaped by one machine, never by itself or a machine on its own chain, and an address from the
allocator is not in use (`ActiveChain.UseOk`, `ActiveChain.EnvOk`).

## Model

| member | source | states |
|---|---|---|
| Bytes.DecInjective | src/exec.c:418-438 | byte strings of one width are equal exactly when the words they encode are, so the `memcmp` of EQU and NEQ is equality of values |
| Words.PatInjective | src/exec.c:418-438 | within a type, bit patterns are equal exactly when the values are |
| Words.AluIsSrcArith | src/exec.c:346-416 | whenever the language defines the result of an arithmetic, shift or bit operator, the handler computes its bit pattern from the bit patterns of the operands |
| Words.AluIsSrcCmp | src/exec.c:418-510 | the comparison handlers yield 1 or 0 on bit patterns as the comparison of the values, signed or unsigned, does |
| Words.CastIsCConversion | src/exec.c:331-344 | a cast is C's conversion if and only if it does not widen a negative value |
| Words.SignedWideningLosesTheSign | src/exec.c:341-342 | the input where it is not: -1 widened from one byte to two is 255 |
| Layout.AlignUpUnique | src/common.h:3-6 | ALIGN_UP gives the only multiple of the alignment less than one alignment above |
| Layout.FrameLayGood | src/codegen.c:346-452 | exactly the parameters and the variables of all nested blocks have slots; these are pairwise disjoint, aligned and inside the frame, whose size is a multiple of 8 |
| Layout.LayVarsConcat | src/codegen.c:385-452 | laying out a nested block and then the rest is laying out one list of variables |
| Layout.ParamsAreWhereArgumentsArePushed | src/codegen.c:359-377 | the i-th scalar parameter has offset 8*i from the base pointer, where the i-th PUSH or the copy of QNT puts the argument |
| CodeGenerator.FuncTag.constructor | src/codegen.c:454-526 | an empty layout |
| CodeGenerator.FuncTag.LayOut | src/codegen.c:346-452 | the loops over parameters and nested blocks leave the frame layout about which `Layout.FrameLayGood` speaks |
| CodeGenerator.FuncTag.LayStmts | src/codegen.c:385-452 | the loop over a statement list adds the slots of its variables, in order, to what was laid out before |
| CodeGenerator.FuncTag.LayStmt | src/codegen.c:390-446 | the same for one statement, with the blocks inside it |
| CodeGenerator.FuncTag.LayBranches | src/codegen.c:420-440 | the same for all branches of a conditional |
| CodeGenerator.Generator.constructor | src/codegen.c:1946-1957 | no instructions, no temporaries |
| CodeGenerator.Generator.Emit | src/codegen.c:528-546 | one instruction appended, nothing else changed |
| CodeGenerator.Generator.Patch | src/codegen.c:1692-1698 | one emitted instruction replaced, nothing else changed |
| CodeGenerator.Generator.Temporary | src/codegen.c:45-62 | the next aligned temporary of the type, with the allocator moved past it and the peak kept |
| CodeGenerator.Generator.GenExpr | src/codegen.c:1363-1461 | appends code that is the expression's code at that place and allocator offset, returns its operand, and accounts for every temporary in the peak |
| CodeGenerator.Generator.GenAssign | src/codegen.c:576-613 | the same for assignments, plain and with an operator |
| CodeGenerator.Generator.GenUnary | src/codegen.c:900-997 | the same for casts, minus, `!` and `~` |
| CodeGenerator.Generator.GenPair | src/codegen.c:742-884 | the same for arithmetic and comparison: left operand, right operand, operator |
| CodeGenerator.Generator.GenLogic | src/codegen.c:779-825 | the same for `&&` and `\|\|`, with the forward jump over the right side patched once its target is known |
| CodeGenerator.Generator.GenComma | src/codegen.c:886-898 | the same for the comma, which takes the temporaries of its left side back |
| CodeGenerator.Generator.GenBump | src/codegen.c:1049-1207 | the same for `++` and `--`, before and after a variable |
| CodeGenerator.Generator.GenTern | src/codegen.c:1259-1284 | the same for `?:`, with both jumps patched |
| CodeGenerator.Generator.GenCall | src/codegen.c:1113-1158 | the same for calls, with the return address patched into PUSHR |
| CodeGenerator.Generator.GenArgs | src/codegen.c:1126-1142 | each argument's code followed by its PUSH, in order |
| CodeGenerator.Generator.GenStmt | src/codegen.c:1635-1676 | the same for a statement, after which no temporary is in use |
| CodeGenerator.Generator.GenDecl | src/codegen.c:1463-1485 | the same for declarations: the initialiser once, then a MOV for every name |
| CodeGenerator.Generator.GenWhile | src/codegen.c:1508-1543 | the same for `while` and `do`, with the exit and the backward jump in place |
| CodeGenerator.Generator.GenIf | src/codegen.c:1545-1583 | the same for conditionals: every branch's jump to the end is patched |
| CodeGenerator.Generator.GenAll | src/codegen.c:1487-1506 | the same for a list of statements |
| CodeGenerator.Generator.GenFunc | src/codegen.c:1678-1703 | a whole function: INCSP with the frame and, patched in afterwards, the peak of its temporaries; the body; the final RET |
| Window.PlacedLocal | src/codegen.c:1363-1461 | whether an expression's code stands at a place depends on that stretch of the array alone, so later patches elsewhere cannot harm it |
| Window.PlacedUnique | src/codegen.c:1363-1461 | two arrays that hold an expression's code at a place agree on the whole stretch: the code of an expression is determined |
| Window.PlacedFLocal | src/codegen.c:1678-1703 | the same locality for a function |
| Linking.LinkPlaced | src/codegen.c:1772-1801 | resolving function addresses turns an expression's code into its code with addresses |
| Linking.LinkFunction | src/codegen.c:1772-1801 | the same for a function |
| Compiler.Compile | src/codegen.c:1946-2005 | the stubs, every function and the pass over all operands leave an array in which each function stands linked at its recorded place, the first one right after the stubs |
| Compiler.LinkedIsCompiled | src/codegen.c:1946-2005 | such an array is what the results about compiled programs assume |
| Compiler.ExecStarts | src/exec.c:1687-1721 | the machine exec sets up for such an array is one about to run the first function with an empty stack frame, as those results assume |
| Compiler.ProgramMeansMain | src/exec.c:1687-1721 | a compiled program, from the state exec starts it in, finishes with a value if and only if its first function returns that value |
| Soundness.ExprSound | src/type.c:1659-1692 | type soundness: a checked expression never reads, stores or combines values of the wrong type, and its value has the type the checker derived |
| Soundness.StmtSound | src/type.c:1694-1868 | the same for statements: variables keep values of their types, and what is returned has the type of the function |
| Soundness.BodySound | src/type.c:1977-1995 | so a call of a function of a checked program is undefined only because a variable is read before it is set, an operation has no result, or a function that returns a value ends without one |
| Legality.OperandTyped | src/type.c:738-1172 | the operand the generator hands back for an expression has the size and the sign of the type the checker derived, and lies in the frame or below the allocator's offset |
| Legality.ExprLegal | src/codegen.c:1363-1461 | every instruction of a checked expression's code has operands of the sizes and signs its handler checks for, inside the temporaries and the frame, and jumps inside the function; nothing is assumed of the values |
| LegalityStmts.StmtLegal | src/codegen.c:1635-1676 | the same for statements |
| LegalityStmts.FunctionLegal | src/codegen.c:1678-1703 | the same for every instruction of every function of a compiled checked program, with every temporary below the size patched into INCSP |
| Legality.LegalSteps | src/exec.c:315-1048 | in any state with room for the temporaries and the frame such an instruction is rejected only by a check on the height of the stack, and goes wrong only where C's arithmetic or a return address does |
| Simulation.SimExpr | src/codegen.c:1363-1461 | from any state that represents the language's state, running an expression's code reaches a state that represents the result, or fails as the language does; see `EvaluationIsContained` |
| Simulation.SimAssign | src/codegen.c:576-613 | the same for assignments |
| Simulation.SimBump | src/codegen.c:1049-1207 | the same for `++` and `--` |
| Simulation.SimUnary | src/codegen.c:900-997 | the same for casts, minus, `!` and `~` |
| Simulation.SimPair | src/codegen.c:742-777 | the same for the two operands of a binary operator: the left operand's temporary survives the right side |
| Simulation.SimLogic | src/codegen.c:779-825 | the same for `&&` and `\|\|`, whether the jump is taken or not |
| Simulation.SimComma | src/codegen.c:886-898 | the same for the comma |
| Simulation.SimTern | src/codegen.c:1259-1284 | the same for `?:`, either way |
| Simulation.SimArgs | src/codegen.c:1126-1142 | pushed arguments are where the callee's parameters are read |
| Simulation.SimCall | src/codegen.c:1113-1158 | the same for calls to any depth, recursion included: after the callee returns control stands behind the call with the caller's frame intact |
| Simulation.SimBody | src/codegen.c:1678-1703 | from a function's entry to its return, or to the overflow, or for as long as wanted when it does not end |
| Simulation.SimStmt | src/codegen.c:1635-1676 | the same for every statement |
| Simulation.SimDecl | src/codegen.c:1463-1485 | the same for declarations |
| Simulation.SimNoInt | src/codegen.c:1487-1506 | the same for `noint` blocks, flag included |
| Simulation.SimReturn | src/codegen.c:1585-1600 | the same for `return` |
| Simulation.SimWhile | src/codegen.c:1508-1527 | the same for `while`, for every number of rounds |
| Simulation.SimDoWhile | src/codegen.c:1529-1543 | the same for `do` |
| Simulation.SimElse | src/codegen.c:1545-1583 | the same for if, elif and else |
| Preservation.ReturnsExactly | src/codegen.c:1678-1703 | semantic preservation: the machine started on a function finishes with a value if and only if the language returns that value |
| Preservation.OverflowsExactly | src/exec.c:880-1018 | the machine stops at an instruction it rejects if and only if the language outgrows the stack |
| Preservation.DivergesExactly | src/exec.c:1687-1721 | the machine never stops if and only if the language never finishes |
| Preservation.EveryRunIsExplained | src/exec.c:1517-1685 | after any number of instructions the machine is still running, has delivered the language's value, or both overflow, unless the program has by then met one of the three causes that `Soundness.BodySound` leaves |
| Preservation.WellTypedCalls | src/type.c:1977-1995 | a call of a checked program, from any state the machine starts it in, is never undefined for a typing reason and returns a value of its type |
| Preservation.NothingGoesWrong | src/exec.c:315-665 | no hypothesis on the program but that it is checked: a run is rejected or goes wrong only when the stack overflows or the language has met an uninitialised variable, an operation without a result or a missing return |
| Preservation.EvaluationIsContained | src/codegen.c:45-62 | temporary non-interference: an expression leaves every temporary below its allocator offset as it was, and its result in the announced operand inside the function's block of temporaries |
| Preservation.CallsRestoreTheStack | src/codegen.c:1113-1158 | stack discipline: after a call expression the stack pointer, the base pointer, the depth of temporaries and all bytes outside the caller's frame are as before |
| Preservation.DeliveredUnique | src/exec.c:289-313 | what the machine delivers determines the value returned |
| Preservation.StopsOnce | src/exec.c:1687-1721 | two stopped observations of one run are the same |
| Eager.WritesOnly | src/codegen.c:1286-1333 | an expression changes no variable but those it writes, and a calm one denotes the place its syntax names |
| Eager.OrderDoesNotMatter | src/codegen.c:1304-1309 | for programs that never write a place waiting to be read, the place-valued reading of operands gives what left-to-right reading gives |
| Eager.OrderMatters | src/codegen.c:1304-1309 | the program for which it does not: `x + (x = 2)` with `x == 1` is 4, not 3 |
| Contexts.SameBody | src/codegen.c:1113-1158 | a function applied to values returns the same wherever it is called: the place on the stack, the flag and the last label have no influence unless the stack overflows |
| Interpreter.Vm.constructor | src/exec.c:99-124 | a machine at an address, with the given registers and a stack array of its own, without a parent and waiting for nothing |
| Interpreter.Vm.ReadWord | src/exec.c:130-168 | the little-endian word at an offset, byte by byte |
| Interpreter.Vm.WriteWord | src/exec.c:130-168 | a word written byte by byte in place; every other byte unchanged |
| Interpreter.Vm.Fetch | src/exec.c:130-168 | the value of an operand, or nothing when it points outside its memory |
| Interpreter.Vm.Assign | src/exec.c:130-168 | the operand holds the value, all else as before |
| Interpreter.Vm.Finish | src/exec.c:315-329 | a result stored in the destination if the instruction is legal |
| Interpreter.Vm.Mov | src/exec.c:315-329 | the handler makes the step the machine's step function defines for it |
| Interpreter.Vm.Cast | src/exec.c:331-344 | likewise |
| Interpreter.Vm.Arith | src/exec.c:346-416 | likewise |
| Interpreter.Vm.Compare | src/exec.c:418-510 | likewise |
| Interpreter.Vm.Unary | src/exec.c:512-705 | likewise, for NOT, NEG, BNEG and OZ |
| Interpreter.Vm.IncDec | src/exec.c:707-762 | likewise |
| Interpreter.Vm.IncDecPost | src/exec.c:764-827 | likewise |
| Interpreter.Vm.CondJump | src/exec.c:829-871 | likewise, for JZ and JNZ |
| Interpreter.Vm.PushR | src/exec.c:880-917 | likewise |
| Interpreter.Vm.Push | src/exec.c:919-941 | likewise |
| Interpreter.Vm.Call | src/exec.c:943-972 | likewise |
| Interpreter.Vm.IncSp | src/exec.c:974-1018 | likewise, with arbitrary contents in the new temporaries |
| Interpreter.Vm.Return | src/exec.c:1020-1048 | likewise |
| Interpreter.Vm.Leave | src/exec.c:230-313 | likewise, for the branches of the return that stay in this machine |
| Interpreter.Vm.Flag | src/exec.c:1254-1278 | likewise, for WLAB, GETSP, NOINT and INT |
| Interpreter.Vm.Execute | src/exec.c:1517-1685 | every instruction makes exactly the step the step function defines, and stops exactly when it does |
| Interpreter.Vm.RunFor | src/exec.c:1687-1721 | the loop makes exactly the run of the step function |
| ActiveChain.PrivateStep | src/exec.c:1517-1685 | an instruction that stays in the running machine keeps the chain |
| ActiveChain.DescendStep | src/exec.c:1184-1252 | entering a child puts it in front of the chain |
| ActiveChain.AscendStep | src/exec.c:230-313 | a return takes the machine off the chain and resumes its parent |
| Protocol.ActKeepsInv | src/exec.c:1517-1685 | every instruction keeps the active-chain invariant; the chain stays, grows by one machine or loses its first |
| Protocol.WalkFinds | src/exec.c:186-223 | the walk over parents finds the nearest ancestor that is due with `noint` clear on every machine below it, and none exactly when there is none |
| Protocol.CheckKeepsInv | src/exec.c:186-223 | the check either leaves all machines alone because no reachable ancestor is due, or resumes the nearest one; the invariant is kept |
| Protocol.StepKeepsInv | src/exec.c:1517-1685 | instruction and check together keep the invariant |
| Protocol.RunKeepsInv | src/exec.c:1687-1721 | the invariant holds in every state of every run, for every clock |
| Protocol.InitialInv | src/exec.c:1687-1721 | it holds when the loop begins |
| Protocol.ChainReading | src/exec.c:186-282 | what it says: from the running machine parents lead without a cycle to the root, no machine on the way has ended, and each above the running one stands at a WAIT, RTE or RTEV on the one below |
| Guarantees.ActFrame | src/exec.c:1517-1685 | an instruction changes no machine but the running one, its parent and the one its handle names |
| Guarantees.PastWait | src/exec.c:1184-1252 | a machine gets past `wait q` only when q has ended; past `wait q until L` only when q has ended or L is its last label; past a timed wait only when q has ended or the time since the wait began is up |
| Guarantees.PastReap | src/exec.c:1090-1144 | a machine gets past `*q` only when q has returned; then q is freed, its handle is null and the destination holds what q returned |
| Guarantees.NoIntStep | src/exec.c:186-223 | while a machine has `noint` set, one instruction leaves the chain above it and the machines above it as they are |
| Schedules.OwnStep | src/exec.c:186-282 | an instruction of the system is one or no instruction of a plain function on its own |
| Schedules.ScheduleIndependence | src/exec.c:186-282 | a resumable function that waits for nothing goes through the states it goes through alone, for every clock and all waits around it |
| Schedules.CompiledIsPlain | src/exec.c:1517-1685 | a compiled function of the scalar language is such a function |
| Schedules.AsynchronousEqualsSynchronous | src/exec.c:1090-1144 | the value `*q` delivers is the value a synchronous call of the function returns, for every schedule |
| Schedules.QntStarts | src/exec.c:1280-1328 | QNT leaves the new machine as a call would leave the callee: at its entry, the arguments in the parameters' slots |
| Starts.StartMeansUntouched | src/exec.c:1146-1182 | until it has returned, a function's quaint is `@start` if and only if no instruction of it has been executed |
| Starts.WaitEnters | src/exec.c:1184-1252 | control passes to an untried quaint if and only if, at the check that follows the WAIT, neither the waiter's time is up nor another waiting ancestor is due, all of which the state and the clock readings before the WAIT decide; either way nothing of the quaint has been executed so far |
| Starts.WaitedYetUntouched | src/exec.c:186-223 | exactly these waits leave a quaint `@start`: after any other one its first instruction ends it |
| Noints.StepFlag | src/exec.c:1366-1371 | only NOINT and INT change the flag of the machine that executes them |
| Noints.SystemFlag | src/exec.c:1517-1685 | in a step of the whole system a machine's flag changes only when it is the running one and executes NOINT or INT, and a machine lives until it returns |
| Noints.NoIntSafety | src/exec.c:186-223 | from the NOINT a machine executes until it executes INT or returns, no ancestor executes an instruction and no ancestor's state changes, whatever the clock says and whatever the block calls or waits for |
| Flags.FlagBody | src/exec.c:1366-1371 | a function without `noint` blocks that calls only such functions returns with the flag as it was |
| Flags.NoIntHolds | src/codegen.c:1487-1506 | a `noint` block without another one inside it or in anything it calls ends with the flag as its beginning set it, never cleared in between; after the block the flag is clear if and only if the block did not return |
| NointBlocks.HeldExactly | src/exec.c:1366-1371 | from NOINT on the flag is set after each of k instructions if and only if INT has not been executed among them |
| NointBlocks.NoIntBlock | src/codegen.c:1487-1506 | a compiled block runs up to its own INT, or the return inside it, uninterruptible after every instruction if and only if the language's flag at its end is as the block set it; then its instructions are successive steps of the whole system that change nothing but the machine that runs it |
| NointBlocks.QuietBlockIsAtomic | src/codegen.c:1487-1506 | so a block with no other one in it or in what it calls is atomic from NOINT to INT, for every clock |
| NointBlocks.NestedNoIntEndsEarly | src/codegen.c:1487-1506 | the flag is one bit: after any nested block that is run to its end the rest of the outer one runs with the flag clear, and it stays clear as long as no further block is met |
| NointBlocks.QuietCodeIsInterruptible | src/codegen.c:1487-1506 | in the machine such a rest can be interrupted after every one of its instructions |
| Runtime.Runtime.constructor | src/exec.c:1687-1700 | one allocated machine, the root, with the invariant established |
| Runtime.Runtime.FindDue | src/exec.c:186-223 | the loop over parent pointers ends, because they point along a chain of live machines, and finds the machine `Protocol.WalkFinds` describes |
| Runtime.Runtime.CheckAndEventuallySplit | src/exec.c:186-223 | the flags and the instruction pointer of that machine are changed in place and it becomes the running one; no other object changes |
| Runtime.Runtime.Wait | src/exec.c:1184-1252 | the waiter's flags, the child's parent pointer and the running machine are updated in place; the values of all machines are then what the transition system says of WAIT |
| Runtime.Runtime.Reap | src/exec.c:1090-1144 | likewise for RTE and RTEV: the word is copied from the ended machine's stack array, the machine freed, the handle nulled |
| Runtime.Runtime.Return | src/exec.c:230-313 | likewise for the return of an outermost frame: the value goes to the parent's operand and the machine is freed, or it stays in the ended machine's own stack |
| Runtime.Runtime.At | src/exec.c:1146-1182 | likewise for QAT |
| Runtime.Runtime.Spawn | src/exec.c:1280-1328 | likewise for QNT: a new machine with a stack of its own, the arguments copied byte by byte from the creator's |
| Runtime.Runtime.SpawnValue | src/exec.c:1330-1364 | likewise for QNTV |
| Runtime.Runtime.Own | src/exec.c:1517-1685 | an instruction of the machine's own, executed by the interpreter over its stack array, leaves every other machine alone |
| Runtime.Runtime.Instruction | src/exec.c:1517-1685 | every instruction, on the objects, is the transition of their values, and keeps each machine at its address and the pointers pointing to live machines |
| Runtime.Runtime.Round | src/exec.c:1517-1685 | instruction and check together make one step of the transition system and keep the pointers along the active chain right |
| Runtime.Runtime.Execute | src/exec.c:1687-1721 | the loop over machines updated in place goes through the states of a run, with the active chain intact after every instruction |
| Lexer.RejectedIsReset | src/lex.c:425-480 | an automaton that has rejected is back in its start state |
| Lexer.RejectedForGood | src/lex.c:425-480 | an automaton that has rejected a text accepts no extension of it |
| Lexer.TokensAreLongestMatches | src/lex.c:425-520 | the tokens partition the input, and each is the longest prefix any automaton accepts there, ties going to the highest token index |
| Lexer.TokenizationIsUnique | src/lex.c:425-520 | an input is cut into longest matches in at most one way |
| Lexer.AcceptedExactly | src/lex.c:425-520 | the lexer accepts an input if and only if it can be cut into longest matches with no automaton still hoping behind any token |
| Lexer.NoBacktracking | src/lex.c:205-233 | it never returns to a shorter match: an unfinished block comment is rejected though its slash alone is a token |
| Lexer.StepAll | src/lex.c:441-470 | one pass over all automata still in the race |
| Lexer.Decide | src/lex.c:425-520 | the accepting automaton of the highest index, with all statuses reset |
| Lexer.StillReset | src/lex.c:425-520 | at every boundary all automata are in their start states |
| Lexer.Lex | src/lex.c:425-520 | the loop ends and yields the tokens between the two markers, or failure |
| Grammar.RuleShapes | src/parse.c:67-186 | every rule has two unstarred terms, renames one symbol to a nearer one, or is the bare conditional |
| Grammar.RenamingRanksDown | src/parse.c:67-186 | reducing a single node brings it strictly nearer the goal symbol: the unit rules are acyclic |
| Grammar.OnlyUnitEnds | src/parse.c:67-70 | only the rule for the whole file mentions its end |
| ShiftReduce.MatchSound | src/parse.c:288-324 | what is matched on top of the stack spells the rule's right-hand side, starred terms read as zero or more |
| ShiftReduce.FirstRuleMatches | src/parse.c:608-636 | the rule chosen matches where it says |
| ShiftReduce.NothingAfterTheEnd | src/parse.c:349-447 | once the end marker is shifted only the rule for the whole file can match, so the look-ahead never reads past it |
| ShiftReduce.ReductionShrinks | src/parse.c:449-480 | a reduction makes the stack smaller or its top lower in rank: with the tokens left, the measure by which the loop ends |
| ShiftReduce.LoopSound | src/parse.c:608-636 | every step keeps the stack a sequence of derivations whose leaves are the tokens consumed |
| ShiftReduce.ParserSound | src/parse.c:586-650 | an accepted tree is a derivation of a whole file, and its leaves are exactly the tokens that are not whitespace or comments, in order |
| ShiftReduce.LoopKept | src/parse.c:349-447 | whitespace and comments make no difference to what the loop leaves |
| ShiftReduce.OutcomeKept | src/parse.c:586-650 | two files that differ only in whitespace and comments parse alike |
| Parser.Parser.constructor | src/parse.c:586-600 | an empty stack |
| Parser.Parser.MatchRule | src/parse.c:288-324 | the loop from the right finds the match `ShiftReduce.MatchSound` speaks of, or size 0 |
| Parser.Parser.Shift | src/parse.c:326-347 | the token on top, nothing else changed |
| Parser.Parser.Reduce | src/parse.c:449-480 | the matched nodes become the children of one node in their place |
| Parser.Parser.Skip | src/parse.c:357-359 | the cursor moves to the next token that is not whitespace or a comment, inside the array |
| Parser.Parser.TryReduce | src/parse.c:608-636 | one pass over the grammar: what the loop will leave is unchanged, the cursor stays in the array, and the measure falls when a rule was acted on |
| Parser.Parser.Act | src/parse.c:616-635 | shift first, reduce, or reduce and shift, as the look-ahead says |
| Parser.Parser.Parse | src/parse.c:586-650 | the loops end with the root of the tree or with nothing |
| Precedence.FittingTreeIsUnique | src/parse.c:201-241 | two trees over the same chain that respect precedence and associativity are the same tree |
| Precedence.FirstBinary | src/parse.c:608-616 | with two operands and a binary operator on top its own rule is the first to match |
| Precedence.BinaryStep | src/parse.c:362-376 | the loop shifts the operator ahead exactly when the one on the stack yields to it, and reduces otherwise |
| Precedence.ChainLoop | src/parse.c:608-636 | from any operands and operators pending, the loop leaves one fitting tree over all of them and the rest of the chain |
| Precedence.ChainBecomesTree | src/parse.c:362-376 | wherever a chain of operands and binary operators starts, the loop replaces it by one node made of a tree in which every left child binds tighter than its parent, or equally under a left-associative one, and every right child the other way |
| Precedence.OneFittingTree | src/parse.c:201-241 | every chain has one such tree and only one |
| Precedence.ParserReadsTheTree | src/parse.c:586-650 | round trip: any such tree written as a file, with any whitespace and comments, is parsed back to that tree |
| Text.FramedIsMarked | src/main.c:56-60 | what the lexer yields is what the parser requires: the end marker comes last and only last |
| Text.Read | src/main.c:56-60 | lexing a text and parsing the tokens yields the tree of the text, or nothing |
| Text.TreesAreOfTheText | src/main.c:56-60 | the tree of an accepted text derives a whole file, and its leaves are the longest matches into which the text is cut, in order, without whitespace and comments |
| Text.LexesBack | src/lex.c:425-520 | words that are longest matches and do not run into one another are what the lexer cuts their concatenation into |
| Text.TextReadsBack | src/main.c:56-60 | round trip over characters: an expression of names, numbers, strings and binary operators that needs no parentheses, written out with spaces and a semicolon, is read back as that very tree, every leaf covering the characters it came from |
| Types.StructLayout | src/type.c:501-529 | struct members are in order, disjoint, aligned and inside; no member could start earlier; and the size is the least multiple of the power-of-two alignment that holds them |
| Types.SizeMultiple | src/type.c:531-558 | a size is a multiple of its alignment, for a union if and only if its largest extent is |
| Types.InBounds | src/type.c:481-565 | every scalar reached through arrays, structs and unions lies inside the value, and its width is at most the value's alignment |
| Types.ScalarsApart | src/type.c:481-565 | two different scalars share no byte unless the ways to them part at a union |
| Types.AlignedExactly | src/type.c:531-558 | all scalars in a value are aligned if and only if no array of two or more unions with a ragged size occurs in its type |
| Types.RaggedArray | src/type.c:557-558 | such an array, and the scalar in it that is misaligned |
| Types.EqualsExactly | src/type.c:410-479 | type_equals holds if and only if the types are the same but for names of members and parameters |
| Types.EqualIsEquivalence | src/type.c:410-479 | so it is an equivalence |
| Types.EqualLayout | src/type.c:481-565 | equal types have the same size, alignment and offsets |
| Types.EqualPlaces | src/type.c:481-565 | and every scalar inside at the same place with the same width |
| TypeRecords.TypeRecord.constructor | src/type.c:310-315 | a record as calloc leaves it |
| TypeRecords.TypeRecord.CopyFrom | src/type.c:310-408 | a fresh record of the same type that shares nothing with the source and is not quantified |
| TypeRecords.TypeRecord.CopyOf | src/type.c:316-322 | the same into a newly allocated record |
| TypeRecords.TypeRecord.CopySubtype | src/type.c:315-322 | the same for pointers and quaints |
| TypeRecords.TypeRecord.CopyFunction | src/type.c:350-386 | the same for function pointers, with or without a return type |
| TypeRecords.TypeRecord.CopyMembers | src/type.c:324-347 | all members or parameters copied, in order, into records of their own |
| TypeRecords.TypeRecord.CopyValues | src/type.c:388-404 | all enumerators copied |
| TypeRecords.TypeRecord.Quantify | src/type.c:481-565 | every record of the type gets the size, alignment and offsets that `Types` speaks of; records and type stay what they were |
| TypeRecords.TypeRecord.QuantifyStruct | src/type.c:501-529 | the same for structs, offsets filled in by the loop |
| TypeRecords.TypeRecord.QuantifyUnion | src/type.c:531-558 | the same for unions, all offsets 0 |
| TypeRecords.TypeRecord.QuantifyMember | src/type.c:508-520 | one member quantified, the others untouched |
| TypeRecords.TypeRecord.Equals | src/type.c:410-479 | decides the equality of the two types |
| TypeRecords.TypeRecord.MembersEqual | src/type.c:424-447 | the same for members or parameters |
| TypeRecords.TypeRecord.EnumEqual | src/type.c:460-475 | the same for enumerators |
| TypeRecords.EqualRecordsAgree | src/type.c:310-565 | two quantified records of equal types have the same size, alignment and offsets; so has a quantified copy |
| Scopes.BeforeIsTotal | src/scope.c:275-293 | strcmp puts exactly one of two different names first |
| Scopes.BeforeIsTransitive | src/scope.c:275-293 | and is transitive |
| Scopes.FindDuplicates | src/scope.c:387-421 | in place, exactly the objects whose name another object has are marked, the first ones too; duplicates are reported if and only if there are any |
| Scopes.MarkEqual | src/scope.c:399-416 | one round of the outer loop |
| Scopes.Search | src/scope.c:642-645 | a binary search that may look anywhere hits an entry of the name, and misses only when there is none |
| Scopes.HitMeans | src/scope.c:637-657 | whichever entry is hit: marked if and only if the scope declares the name more than once, and otherwise its one declaration |
| Scopes.MissMeans | src/scope.c:637-657 | a miss means the scope does not declare the name |
| Scopes.FindObject | src/scope.c:637-657 | the search in sorted tables answers as a linear search through the declarations, innermost scope first, that skips names declared twice and fails on a variable used before its declaration |
| Scopes.NumberIdentifies | src/scope.c:313-327 | two labels of a function have the same id if and only if they have the same name |
| Scopes.NumberUnordered | src/scope.c:503-504 | the ids do not depend on how the sort orders equal names |
| Scopes.IdentifyWlabs | src/scope.c:313-327 | in place, every label gets the id of its name and keeps its name |
| Scopes.FindWlab | src/scope.c:659-670 | the label's id whichever entry is hit, or nothing when the function has no such label |
| Scopes.LabelIdentity | src/type.c:1856-1868 | what WLAB records equals what WAIT and QAT compare if and only if function and label name agree; it is never the mark of a quaint's start or end, nor taken for no label |

## Left out

- Pointers, `&`, `*` on pointers, arrays, structs and function pointers inside expressions: the preservation results are about the scalar language; such variables take frame space only.
- Built-in functions: foreign calls. Their stubs take up the first addresses of the code and executing one is outside the step function.
- Global variables and their initialisers, `use`, `exposed`, `static`, `noblock`, parameters of the first function: unimplemented or undefined in the original.
- `sizeof`, `alignof`, enumeration constants and string literals: constants of the code generator that add only easy cases.
- Memory: allocation never fails, buffers never move, and sizes and offsets in layouts are unbounded numbers.
- `get_monotonic_time`: the clock readings are an arbitrary input of every step.
- Printing, error messages, `diagnose_error`, `lex_locate_linecol`, the rest of `src/main.c`: input and output only.
- `src/ast.c`: the typed tree is the starting point; its shape validation is not modelled.
- `src/htab.c`: a map.
- `qsort` and `bsearch`: library calls. The sorted table is any sorted rearrangement, and `Scopes.Search` may probe anywhere.
- The doubling of the buffers behind `insn_at`, `shift` and `push_token`: arrays that grow are sequences.
- The field waiting_noblock of a machine is never read and not modelled.
- Machine handles left dangling: after `*q` other copies of the handle are outside the model; a step on a freed machine is stuck.
- Schedules.ScheduleIndependence: for functions that wait for nothing themselves, because a function that waits does depend on the clock.
- Preservation.ReturnsExactly: for programs whose behaviour is defined, because division by zero, oversized shifts, signed overflow (also of the promoted int in which 16-bit words are multiplied), reading an uninitialised variable and a missing return are undefined in the original; that nothing else is undefined is `Soundness.BodySound`.
- NEG, `++` and `--` of a signed word without a representable result wrap in the step function; C leaves them undefined, and no program with defined behaviour meets them.
- Precedence.ParserReadsTheTree: for chains of operands and binary operators; ternary, unary, call and index expressions are covered by soundness and termination only.
- Types.AlignedExactly: for types without empty arrays and without void members, which the original rejects or divides by zero on.
