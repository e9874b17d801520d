# Verified models of a Neo N3 node

This project models the parts of a Go node for the Neo N3 blockchain whose correctness is hardest to see from the code,
and proves what those parts are for. Everything is Dafny 4.11; `dafny verify dfyconfig.toml` checks the whole project.

**Compiler back end** (`pkg/compiler`). The emitter writes long jumps against labels; `writeJumps` replaces labels by
offsets and `shortenJumps` then removes three bytes for every jump that fits in one byte and for every empty `INITSLOT`,
in place. `JumpShortening` and `WriteJumps` model the byte-level surgery on arrays, each step proved against an
instruction-level specification (`Shortened`, `Resolve`); `ShortenedProgram` proves where every instruction and every
target goes; `ShorteningRun` and `FinalScript` prove that each run of the shortened script is the run of the long one,
step for step and with the same trace. `ExprLowering`, `Statements`, `StmtLowering`, `StmtContext` and `StmtRuns` give
expressions and statements a meaning of their own and prove that the emitted stack code computes it; `DefaultClauses`
proves when a switch does what the language says; `Codegen` is the visitor object that emits that code by appending to its
program and its label table. `Defers` and `DefersRun` do the same for `defer`, on the handler semantics of the virtual
machine. `LabelPlacement`, `Bytecode`, `FunctionScript` and `DeferScript` turn what the emitters write into instructions
and prove that label resolution, shortening and the final script theorem apply to it; `FinalLayout` says what each of those
instructions has become in the final script, and `FunctionMachine` and `DeferMachine` run that script, byte for byte, on
data: it returns what the function means, makes every deferred call once, and is accepted by the static checker
(`FinalAcceptance`). `Analysis` covers function usage and package order.

**Virtual machine** (`pkg/vm`). `Context` is the instruction decoder, `Machine` the control part of the machine: jumps,
calls, handlers and gas. What the data on the evaluation stack would decide is supplied by an arbitrary choice at every
step, so a statement about all choices covers all data; `ControlLaws` says of script bytes and frames what each control
instruction does with them. `DataMachine` is the machine with its data, for the instructions that the compiler emits: it
reads opcode bytes, works on stack, slots and exceptions, and makes the choices of `Machine`; `DataLaws` and `DataSteps`
say what the instructions do with the items they find. `ScriptCheck` is the static checker as a loop over bit fields,
`ScriptAcceptance` what it accepts, `ScriptSafety` its whole-run guarantee, `GasTermination` the termination of every
metered run, `RefCounter` the counter of references over shared and cyclic containers together with the evaluation stack
that drives it.

**Signatures** (`pkg/vm`, `pkg/consensus`, `pkg/smartcontract`). `Multisig` models the parallel matcher with an arbitrary
scheduler, `Quorum` the witnesses that consensus builds and the overlap of any two that are accepted.

**Ledger and network** (`pkg/core`, `pkg/network`). `StateJump` is the staged replacement of contract storage with a
process that may stop before any write, `BlockLimits` the block limits of proposer and verifiers, `WitnessGas` the gas
shared by the witnesses of a transaction, `BlockQueue` the ring of blocks with many producers, one consumer and a
one-token wake-up channel.

**Contract and codec** (`examples/nft-nd-nns`, `pkg/smartcontract`, `pkg/io`). `NameService` is the name token with its
three indexes under re-entrant calls; `BinaryIO` and `ParameterCodec` are variable-length integers and nested parameters,
`ParameterForms` the exact set of byte strings that decode.

Code that works by changing things is modelled by classes, arrays and loops whose contracts tie the new state to a
specification function; the theorems are about those functions. Integers are unbounded except where a width matters and is
written out (byte offsets, unsigned 32-bit subtraction, variable-length integers, 64-bit parameters).

## Where the code does not do what one would expect

The first seven are each shown by a concrete input or value and come with a theorem that says exactly when the code is right; the
last two are conditions of the theorems named there.

- `ScriptSafety.NestedCrashes`: an accepted script can make `ENDFINALLY` jump to -1, when a finally block entered by an
  exception catches another one inside; `RunIsSafe` shows that leaving such an open handler is the only way to crash.
- `ScriptCheck.JumpToTheEndPanics`: the checker itself panics on a script of 64 bytes that starts with a jump to its end;
  `CheckerPanics` shows that it does so exactly when it meets a target at the very end of a script whose length is a
  multiple of 64, the word size of its bit fields.
- `RefCounter.SelfContaining`: a container that holds itself keeps a positive count after its last outside reference is
  gone. `LeaksOnCycle` shows the same for every cycle of every graph, `LeakedCycle` that what is counted and unreachable
  always hangs on a cycle, and `CountsDecideReachability` that counts decide reachability on graphs without one.
- `DefaultClauses.DefaultFirstGoesWrong` and `DefaultFirstSkipsCalls`: a `default` clause before a matching case is run
  instead of it, and the calls of case expressions behind a default are not made even where none matches. `ChoicesAgree`
  is the exact condition for one switch; `ModesAgree` and `FunctionMeansSource` carry it to whole functions, and
  `DefaultsLastNeverDiffer` says that a default in the last place never makes a difference.
- `BlockQueue.WakeUpLostOtherwise` and `FarBlockDropped`: with blocks arriving from elsewhere a wake-up can be lost, and
  a block a whole ring ahead can be taken, refused and dropped. `StepLosesWakeUp` names the two kinds of steps that lose a
  wake-up, `WakeUpsLost` shows that runs without them lose none and all others do, and `TakenBlock` says when a far block
  is taken. `SweepClearsNothing`: the sweep over passed heights never empties a slot.
- `BlockLimits.UnlimitedProposalRefused` and `EmptyProposalRefused`: a transaction limit of zero means no limit to the
  proposer and none allowed to the verifiers, and an empty block is never measured by the proposer; `ProposalPasses` gives
  the condition on the proposer's input under which its proposal is accepted.
- `BinaryIO.EstimateIsExact`: the size estimate counts three bytes for 65535 and five from 4294967295 on, where five and
  nine are written; everywhere else it is exact.
- `WitnessGas.NegativeLimitIsNoLimit`: a negative remainder would lift the gas limit of a witness; the check before it is
  what makes the bound of `VerifyAndPoolTx` hold.
- A function with a deferred call returns normally after an exception even when nothing recovers it (`DefersRunOnce`).

## Model

| member | source | states |
|---|---|---|
| Context.Cursor.Next | pkg/vm/context.go:103-177 | moves to the next instruction exactly as the decoding function says, and fails exactly where it fails |
| Context.FetchIsLocal | pkg/vm/context.go:103-177 | decoding at an address depends only on the bytes of that instruction |
| Context.OperandWidths | pkg/vm/context.go:145-166 | the operand of a fetched instruction has the width that belongs to its opcode number: 2 to the number for the integer pushes, 1 or 4 for the two forms of every jump and call, 2 or 8 for TRY, and so on; no other opcode has one |
| Context.PushDataWidths | pkg/vm/context.go:115-144 | the operand of PUSHDATA is as long as the little-endian number before it says, at most a megabyte after a number of four bytes |
| Opcodes.Gaps | pkg/vm/context.go:110-113 | which numbers are no opcodes |
| Opcodes.Prices | pkg/core/fee/opcode.go:16-206 | for every price, exactly which opcodes have it |
| Instructions.FetchInstruction | pkg/vm/context.go:103-177 | decoding at the address of an instruction of an encoded program gives that instruction |
| Instructions.DisassembleEncode | pkg/vm/context.go:103-177 | linear decoding of an encoded program gives the program back |
| Instructions.EncodeDisassemble | pkg/vm/context.go:103-177 | encoding what linear decoding gives restores the bytes |
| JumpShortening.CalcOffsetCorrection | pkg/compiler/codegen.go:2266-2282 | the corrected distance is the difference of the new positions of both ends, pos'(x) = x - 3 * (removed offsets below x), forwards and backwards |
| JumpShortening.AlterOffsets | pkg/compiler/codegen.go:2200-2238 | the first pass rewrites every relative offset in place to the one of the shortened layout and changes nothing else |
| JumpShortening.RemoveMarked | pkg/compiler/codegen.go:2240-2264 | the second pass leaves in the front of the buffer exactly the program with marked instructions shrunk or dropped |
| JumpShortening.ShortenJumps | pkg/compiler/codegen.go:2195-2264 | the in-place result is the encoding of the shortened instruction list |
| JumpShortening.UnmarkedUnchanged | pkg/compiler/codegen.go:2195-2198 | with nothing marked the program is unchanged |
| ShortenedProgram.NewAddress | pkg/compiler/codegen.go:2195-2282 | instruction i of the old program starts, after shortening, at its old address minus three bytes for each mark before it |
| ShortenedProgram.NewDistance | pkg/compiler/codegen.go:2266-2282 | distances keep their sign and never grow, so an offset that fitted one byte still fits |
| ShortenedProgram.ReferencePreserved | pkg/compiler/codegen.go:2195-2264 | a jump, call, PUSHA or ENDTRY to boundary j leads to the image of j, in short form exactly when marked |
| ShortenedProgram.TryPreserved | pkg/compiler/codegen.go:2228-2236 | both handler offsets of a TRYL lead to the images of their targets |
| ShortenedProgram.PlainPreserved | pkg/compiler/codegen.go:2195-2264 | every other instruction is kept as it is, except a marked INITSLOT |
| ShortenedProgram.ShortenedBytesDecode | pkg/compiler/codegen.go:2195-2264 | the shortened bytes decode to exactly that instruction list |
| WriteJumps.ReplaceLabelWithOffset | pkg/compiler/codegen.go:2167-2193 | the four bytes become the distance to the label, with the error for a label that is missing or unset |
| WriteJumps.ResolveAndShorten | pkg/compiler/codegen.go:2090-2147 | labels are resolved and the program shortened in place, or the first error or panic is reported, exactly as the instruction-level specification says |
| WriteJumps.ResolvedIsShortenable | pkg/compiler/codegen.go:2090-2131 | what label resolution marks is what shortening may be given, and every marked distance fits a signed byte |
| WriteJumps.MarkedExactly | pkg/compiler/codegen.go:2108-2131 | marked for shortening are exactly the long jumps, calls and ENDTRYLs whose offset fits a signed byte and the prologues of functions without variables and arguments |
| WriteJumps.LabelReachesItsTarget | pkg/compiler/codegen.go:2090-2147 | after resolution and shortening a jump against a label leads to the image of the place of the label |
| WriteJumps.TryLabelsReachTheirTargets | pkg/compiler/codegen.go:2097-2106 | so do both labels of a TRYL |
| WriteJumps.CorrectRange | pkg/compiler/codegen.go:2150-2165 | a function range becomes the range of the new positions of its first and last byte |
| ShorteningRun.ApplyMoved | pkg/vm/vm.go:1307-1361 | every operation of the machine commutes with relocation of code addresses; what each operation does is said by the rows of ControlLaws |
| ShorteningRun.OperationPreserved | pkg/compiler/codegen.go:2195-2264 | the shortened script has at the image of an address the relocated operation of the original |
| ShorteningRun.StepMoved | pkg/vm/vm.go:413-420 | one step of the shortened script is the relocated step of the original |
| ShorteningRun.ShortenedRunsAlike | pkg/compiler/codegen.go:2195-2264 | for every sequence of data choices the shortened script reaches the relocated state of the original run, with the same trace |
| FinalScript.ResolvedIsDirected | pkg/compiler/codegen.go:2090-2147 | every reference of a resolved program leads to an instruction boundary and handlers lie after their TRYL |
| FinalScript.CompiledRunsAlike | pkg/compiler/codegen.go:2090-2147 | from every entry, the final script runs like the resolved long-form program |
| ScriptCheck.IsScriptCorrect | pkg/vm/contract_checks.go:143-197 | the loop over bit fields gives exactly the verdict of the specification on instruction starts and targets: correct, incorrect, or a panic; what is correct is said by AcceptedExactly |
| ScriptAcceptance.AcceptedExactly | pkg/vm/contract_checks.go:143-197 | the encoding of a program is accepted if and only if every target of every jump, call, PUSHA, ENDTRY and TRY is the start of an instruction, every type parameter is one of the ten item types, Any only for NEWARRAYT, and every method offset is the start of an instruction in a field no longer than the script |
| ScriptAcceptance.AcceptedBytes | pkg/vm/contract_checks.go:143-197 | any bytes are accepted if and only if they are such an encoding |
| FinalAcceptance.FinalAccepted | pkg/compiler/codegen.go:2090-2264 | a final script whose labels are at instructions is accepted if and only if the method offsets are starts of its instructions |
| ScriptCheck.CheckerPanics | pkg/vm/contract_checks.go:163-179 | the checker panics if and only if its scan reaches an instruction with a target at the script end while the length is a multiple of 64 |
| ScriptCheck.JumpToTheEndPanics | pkg/vm/contract_checks.go:163-179 | every script of 64 bytes that starts with a short jump to its end makes the checker panic |
| ScriptSafety.OperationFacts | pkg/vm/contract_checks.go:143-197 | in an accepted script every linearly decoded instruction leads only to other such instructions or the end |
| ScriptSafety.StepStaysGood | pkg/vm/vm.go:413-420 | a step from a good state never fails to decode, never has a wrong target, and is good again exactly unless it leaves an open handler |
| ScriptSafety.RunStaysGood | pkg/vm/vm.go:365-408 | so does every run in which no open handler is left |
| ScriptSafety.RunIsSafe | pkg/vm/vm.go:365-420 | no run of an accepted script meets a malformed instruction or a bad target, and it crashes if and only if it leaves an open handler |
| ScriptSafety.EntriesAreGood | pkg/vm/contract_checks.go:190-196 | entry zero and all checked method entries are good states |
| ScriptSafety.NestedCrashes | pkg/vm/vm.go:1497-1503 | a concrete accepted script whose ENDFINALLY jumps to -1 |
| Machine.FramesRemain | pkg/vm/vm.go:1353-1361 | a machine that still runs has a current frame |
| ControlLaws.DataLaw | pkg/vm/vm.go:413-420 | an instruction that only works on data goes on to the next one, with the frames and handlers it found |
| ControlLaws.SyscallLaw | pkg/vm/vm.go:1346-1351 | so does a system call, at the price of its fee |
| ControlLaws.JumpLaw | pkg/vm/vm.go:1312-1325 | JMP and JMPL always go on at their own address plus their offset |
| ControlLaws.ConditionalJumpLaw | pkg/vm/vm.go:1312-1325 | every other jump does so exactly when its condition holds, and goes on behind itself otherwise |
| ControlLaws.TargetLaw | pkg/vm/vm.go:1307-1311 | nothing with an offset leads out of the script |
| ControlLaws.CallLaw | pkg/vm/vm.go:1327-1330 | CALL and CALLL put one frame without handlers at the target on top, above the caller at the byte after the call; with 1024 frames they fault |
| ControlLaws.CallPointerLaw | pkg/vm/vm.go:1332-1338 | CALLA does the same for the position of a pointer |
| ControlLaws.PushPointerLaw | pkg/vm/vm.go:562-565 | PUSHA makes a pointer to its target and goes on |
| ControlLaws.ReturnLaw | pkg/vm/vm.go:1353-1375 | RET, and the end of the script, uncover the frame below or halt the machine |
| ControlLaws.CallReturns | pkg/vm/vm.go:1327-1375 | whatever a called function does until it returns, exceptions of its own included, its caller goes on at the byte after the call, with the handlers and the frames below that it had |
| ControlLaws.ExceptionLaw | pkg/vm/vm.go:1620-1649 | an exception of any origin goes to the nearest handler that is not finished, over all frames and handlers above it, to the catch part if that handler is in its try part and has one and to the finally part otherwise, and leaves everything below alone |
| ControlLaws.ThrowLaw | pkg/vm/vm.go:1454-1456 | a throw resumes at the catch offset of the nearest handler still in its try part |
| ControlLaws.UncaughtLaw | pkg/vm/vm.go:1620-1649 | without a handler that can take it an exception faults the machine |
| ControlLaws.TryLaw | pkg/vm/vm.go:1465-1480 | TRY opens a handler with both offsets, zero meaning absent, and faults without any or inside sixteen others |
| ControlLaws.EndTryLaw | pkg/vm/vm.go:1482-1496 | ENDTRY enters the finally part and remembers where to go on, or closes the handler and goes there |
| ControlLaws.EndFinallyLaw | pkg/vm/vm.go:1497-1503 | ENDFINALLY without a pending exception closes the handler and goes where its ENDTRY said |
| ControlLaws.FailureLaw | pkg/vm/vm.go:525-548 | ABORT and every instruction that does not find the data it needs fault the machine, whatever handlers are open |
| ControlLaws.UnbalancedLaw | pkg/vm/vm.go:1482-1503 | ENDTRY outside a try or catch part and ENDFINALLY without a handler fault the machine |
| ControlLaws.RefusalLaw | pkg/vm/vm.go:538-543 | an instruction that does not decode or cannot be paid for is not executed |
| DataMachine.DataRunIsRun | pkg/vm/vm.go:525-1503 | every run on data is the run of the control machine with the choices that the data makes |
| DataLaws.ArithmeticLaw | pkg/vm/vm.go:881-901 | ADD, SUB and MUL replace two numbers by their result, and fail if it needs more than 256 bits |
| DataLaws.StepLaw | pkg/vm/vm.go:871-880 | INC and DEC are ADD and SUB of one |
| DataLaws.ComparisonLaw | pkg/vm/vm.go:966-997 | what each of the six comparisons says of two numbers |
| DataLaws.NullComparisonLaw | pkg/vm/vm.go:966-997 | with null the order comparisons push false and the other two fail |
| DataLaws.ComparingJumpLaw | pkg/vm/vm.go:1534-1552 | a comparing jump takes two numbers and jumps exactly if the comparison of the same name would push true |
| DataLaws.NoNumberLaw | pkg/vm/vm.go:881-901 | null and arrays are no operands for arithmetic and comparing jumps |
| DataLaws.ConditionLaw | pkg/vm/vm.go:1315-1317 | JMPIF jumps on everything but zero, false and null, JMPIFNOT on those |
| DataLaws.TruthLaw | pkg/vm/vm.go:570-586 | NOT, ISNULL and the conversion to a boolean, which leaves null alone |
| DataLaws.EqualityLaw | pkg/vm/vm.go:849-857 | EQUAL and NOTEQUAL on items that are not both arrays |
| DataLaws.UnderflowLaw | pkg/vm/vm.go:745-790 | an instruction that finds fewer items than it needs fails |
| DataLaws.LoadLaw | pkg/vm/vm.go:611-634 | a load pushes what the named slot holds and fails if it is not there |
| DataLaws.StoreLaw | pkg/vm/vm.go:619-642 | a store puts the top item in the named slot and leaves all other slots alone |
| DataLaws.FreshSlotsLaw | pkg/vm/vm.go:587-610 | INITSSLOT and INITSLOT make as many slots as they say, all null, and fail where there are some already |
| DataLaws.OwnSlots | pkg/vm/vm.go:1567-1594 | whatever the instruction, frames below keep their local slots, a call begins without any, and there are as many sets of slots as frames |
| DataLaws.ThrownItem | pkg/vm/vm.go:1454-1456 | the item thrown is on top of the rest of the stack when its handler catches it, and kept while it is on its way |
| DataLaws.RethrownItem | pkg/vm/vm.go:1497-1503 | at the end of a finally block it goes on to the next handler |
| GasTermination.StepLowersRank | pkg/vm/vm.go:538-543 | each step lowers gas left, then depth, then bytes left, in that order |
| GasTermination.EveryRunStops | pkg/vm/vm.go:365-420 | a run with a non-negative limit and a base fee of at least one has stopped after as many steps as its initial rank |
| GasTermination.HaltedWithinLimit | pkg/vm/vm.go:125-128 | a machine that halts has consumed no more than its limit |
| GasTermination.LimitDecides | pkg/vm/vm.go:538-543 | under a limit a run halts if and only if the run without a limit halts at a cost within it, and then at that cost |
| Multisig.SequentialCheckMatches | pkg/vm/vm.go:1672-1762 | the greedy sequential check accepts exactly when a strictly increasing assignment of keys to signatures exists |
| Multisig.ForwardResult | pkg/vm/vm.go:1717-1760 | what a result of the forward end settles about the remaining keys and signatures |
| Multisig.BackwardResult | pkg/vm/vm.go:1717-1760 | what a result of the backward end settles |
| Multisig.ReceiveKeeps | pkg/vm/vm.go:1717-1760 | every reaction of the main loop keeps exactly the tasks of the working ends in flight, or stops with the right answer |
| Multisig.CheckMultisigPar | pkg/vm/vm.go:1672-1762 | for every arrival order of worker results the matcher terminates without deadlock and accepts exactly when an increasing assignment exists |
| Multisig.CheckMultisig1 | pkg/vm/vm.go:1764-1773 | one signature is accepted exactly when some key verifies it |
| Quorum.EvaluationStack.PopSigElements | pkg/vm/stack.go:313-345 | a count with that many byte strings, or one array of them, comes off the stack topmost first; anything else is an error |
| Quorum.CheckMultisig | pkg/core/interop/crypto/ecdsa.go:18-39 | takes keys, then signatures off the stack, faults on malformed ones and on more signatures than keys, and otherwise leaves on the rest of the stack whether an increasing assignment of keys to signatures exists |
| Quorum.GetDefaultHonestNodeCount | pkg/smartcontract/contract.go:56-58 | two such quorums of n together exceed n by at least (n - 1) / 3 + 1 |
| Quorum.AcceptedHasSigners | pkg/core/interop/crypto/ecdsa.go:18-39 | a witness accepted by an m-out-of-n script over distinct keys has m distinct signers |
| Quorum.WitnessesOverlap | pkg/smartcontract/contract.go:40-58 | any two accepted witnesses of the default script share at least (n - 1) / 3 + 1 signers |
| Quorum.CollectSignatures | pkg/consensus/consensus.go:538-549 | the signature map holds exactly the commits of the current view |
| Quorum.GetBlockWitness | pkg/consensus/consensus.go:538-570 | the invocation holds the first m signatures in the order of the sorted keys |
| Quorum.BuiltWitnessAccepted | pkg/consensus/consensus.go:538-570 | for distinct validators with valid commits, the witness that is built passes the multisignature check if and only if at least m of them committed in the current view, and one is built if and only if m is at most 1024 |
| RefCounter.Counter.Add | pkg/vm/ref_counter.go:24-45 | adding a reference terminates on any graph, keeps all counts explained and counts the children of every newly positive container |
| RefCounter.Counter.Remove | pkg/vm/ref_counter.go:47-67 | removing a reference terminates on any graph, keeps all counts explained and drains every container that reaches zero |
| RefCounter.CountsAreExact | pkg/vm/ref_counter.go:24-67 | each count is the references from the stack plus those from positive containers, and the total is stack entries plus their children |
| RefCounter.ReachableIsCounted | pkg/vm/ref_counter.go:24-67 | every container reachable from the stack has a positive count |
| RefCounter.LeakedCycle | pkg/vm/ref_counter.go:24-67 | every container that is counted and unreachable leads, from holder to holder, to a cycle of containers that are all counted and unreachable |
| RefCounter.CountsDecideReachability | pkg/vm/ref_counter.go:24-67 | on graphs without a cycle a count is positive if and only if the container is reachable |
| RefCounter.LeaksOnCycle | pkg/vm/ref_counter.go:24-67 | on every graph with a cycle, adding and removing one reference leaves a container of the cycle counted and unreachable |
| RefCounter.SelfContaining | pkg/vm/ref_counter.go:47-67 | a cyclic container that nothing outside refers to keeps its count |
| RefCounter.Stack.Push | pkg/vm/stack.go:168-171 | the item is on top and counted once more |
| RefCounter.Stack.Pop | pkg/vm/stack.go:186-193 | the top item is returned and counted once less |
| RefCounter.Stack.InsertAt | pkg/vm/stack.go:159-165 | the item is in place n and counted once more |
| RefCounter.Stack.RemoveAt | pkg/vm/stack.go:222-231 | the item is removed from place n and counted once less |
| RefCounter.Stack.Clear | pkg/vm/stack.go:142-149 | the stack is empty and none of its references is counted |
| RefCounter.Stack.Roll | pkg/vm/stack.go:294-310 | the element n below the top comes up and no count changes |
| ExprLowering.NegateRelation | pkg/compiler/codegen.go:2284-2305 | the negated jump holds exactly when the original does not |
| ExprLowering.WalkRuns | pkg/compiler/codegen.go:1420-1488 | value code pushes exactly the value of an expression and makes exactly its calls, whatever surrounds it |
| ExprLowering.BoolJumps | pkg/compiler/codegen.go:1407-1416 | jump code reaches the label exactly when the expression equals cond and leaves the stack as it was |
| ExprLowering.ShortValueRuns | pkg/compiler/codegen.go:1447-1467 | && and || as values: the second operand runs only when the first does not settle the result |
| ExprLowering.ShortJumps | pkg/compiler/codegen.go:1447-1467 | && and || as jumps, with the label of the surrounding condition reused where it may be |
| ExprLowering.BinaryJumps | pkg/compiler/codegen.go:1420-1488 | comparisons that are themselves jumps, and nil tests |
| StmtContext.TargetIsNamed | pkg/compiler/codegen.go:1095-1109 | looking a break or continue up by name finds the construct that the language means |
| StmtContext.EndsOutside | pkg/compiler/codegen.go:1105-1120 | an exit that leaves a construct has dropped exactly its temporaries as well |
| StmtRuns.DropItemsRuns | pkg/compiler/codegen.go:1503-1513 | dropping n items, one by one or packed, removes exactly n |
| StmtRuns.BranchRuns | pkg/compiler/codegen.go:1095-1120 | break and continue arrive at the exit label of their target with exactly its temporaries on the stack |
| StmtRuns.ReturnRuns | pkg/compiler/codegen.go:667-705 | return drops the temporaries of all open constructs before its result |
| StmtRuns.IfRuns | pkg/compiler/codegen.go:707-733 | if statements run the branch that the condition selects |
| StmtRuns.ForLoops | pkg/compiler/codegen.go:1139-1182 | for loops run condition, body and post statement as the interpreter does, through break and continue |
| StmtRuns.RangeLoops | pkg/compiler/codegen.go:1184-1261 | range loops bind key and value of every element of the array fixed at the start and drop their three temporaries at the end |
| StmtRuns.CasesRun | pkg/compiler/codegen.go:758-769 | the comparisons of a clause run in order and lead to its body at the first match, past it without one |
| StmtRuns.ClausesRun | pkg/compiler/codegen.go:753-793 | the code of any list of clauses, with a default in any place, runs the first clause that is the default or has a matching case, and those it falls through to |
| StmtRuns.StmtRunsTo | pkg/compiler/codegen.go:667-793 | the code of every legal statement does, in every context, what the statement means when switches choose as the emitted code does |
| StmtRuns.FunctionRuns | pkg/compiler/codegen.go:496-505 | a compiled function returns exactly that result, after the same calls, with nothing else on the stack |
| StmtRuns.FunctionReturnsOnly | pkg/compiler/codegen.go:496-505 | whatever a run of the compiled function ends in is that result |
| DefaultClauses.ChoicesAgree | pkg/compiler/codegen.go:753-786 | the clause that the emitted code runs, with the calls made to find it, is the one that the language runs if and only if, when a default is entered, the cases after it can be evaluated, match nothing and make no calls |
| DefaultClauses.ModesAgree | pkg/compiler/codegen.go:735-793 | a statement has the same outcome in the language and in the emitted code if the choices agree at every switch that is reached, and they do if all defaults are last |
| DefaultClauses.FunctionMeansSource | pkg/compiler/codegen.go:496-505 | then a compiled function ends with exactly the result and the calls of its source, and with nothing else |
| DefaultClauses.DefaultsLastNeverDiffer | pkg/compiler/codegen.go:753-786 | with every default last, the language and the emitted code give every body the same outcome |
| DefaultClauses.DefaultFirstGoesWrong | pkg/compiler/codegen.go:758-786 | a default clause that is not last is run although a later case matches |
| DefaultClauses.DefaultFirstSkipsCalls | pkg/compiler/codegen.go:758-786 | the call in a case behind the default is made by the source and not by the code |
| LabelPlacement.StmtPlaced | pkg/compiler/codegen.go:667-793 | emitting any legal statement places every label it creates and names only existing labels in its jumps |
| LabelPlacement.BodyPlaced | pkg/compiler/codegen.go:496-505 | in the code of a function every label is placed and every jump leads to one |
| LabelPlacement.LabelsInside | pkg/compiler/codegen.go:496-505 | and no label is behind the last instruction, which returns |
| Bytecode.LabelledIsEmitted | pkg/compiler/codegen.go:152-178 | a program whose labels are placed at instructions has all of them on instruction boundaries, handlers behind their TRYL |
| Bytecode.LabelledResolves | pkg/compiler/codegen.go:2090-2131 | label resolution succeeds on every such program shorter than two gigabytes |
| FunctionScript.WrittenFits | pkg/vm/emit/emit.go:20-75 | every modelled operation is written as one well-formed instruction, with a label only in jumps; what it does is said by FunctionMachine.WrittenMatches |
| FunctionScript.FunctionCompiles | pkg/compiler/codegen.go:496-505 | the prologue and the code written for any legal function with at most 65536 labels and 255 variables have all labels on instruction boundaries, and resolving them succeeds |
| FunctionScript.FunctionRunsAlike | pkg/compiler/codegen.go:2090-2147 | so the final script of every such function runs like its resolved code for every sequence of data choices, with the same trace |
| DeferScript.DeferPlaced | pkg/compiler/codegen.go:1319-1355 | a handler block places the two labels of its deferred call and its own two |
| DeferScript.DefersCompile | pkg/compiler/codegen.go:1319-1355 | the same for any body with deferred calls, handlers behind the TRYL that names them |
| DataSteps.PushedNumber | pkg/vm/emit/emit.go:54-75 | the instruction written for a number of 64 bits pushes that number |
| DataSteps.ShortestForm | pkg/vm/emit/emit.go:54-75 | and is the shortest one: without an operand from -1 to 15, else with the first width that holds the number |
| CodeOperands.BodyFits | pkg/compiler/codegen.go:496-505 | all operands in the code of a function are within their widths if its variables, literals and calls are |
| FinalLayout.FinalJump | pkg/compiler/codegen.go:2090-2264 | a jump against a label becomes, in the final script, a jump of the same kind whose offset leads to where the instruction at the label has gone |
| FinalLayout.FinalTry | pkg/compiler/codegen.go:2097-2106 | and a TRYL one whose two offsets lead to where its handlers have gone |
| FinalLayout.FinalPlain | pkg/compiler/codegen.go:2195-2264 | everything else is there as it was written |
| FinalLayout.FinalPrologue | pkg/compiler/codegen.go:2118-2131 | with the prologue counting the variables |
| FinalLayout.CameFrom | pkg/compiler/codegen.go:2195-2264 | and nothing else is in the final script |
| FunctionMachine.WrittenMatches | pkg/vm/vm.go:551-1305 | the bytes of every operation without a jump have, on the same stack, slots and calls, exactly the effect that the operation has |
| FunctionMachine.BranchMatches | pkg/vm/vm.go:1312-1325 | a jump takes the same operands and goes to its target in the same case, in its long and in its short form |
| FunctionMachine.StepSimulated | pkg/vm/vm.go:413-420 | one step of the virtual machine on the final bytes does what one step of the stack code does |
| FunctionMachine.CompiledBytesReturn | pkg/compiler/codegen.go:2090-2147 | the final bytes of every legal function, loaded and run from offset zero, halt with exactly the result and the calls of the function on the stack and in the trace, and end in no other way |
| FunctionMachine.CompiledBytesMeanSource | pkg/compiler/codegen.go:2090-2147 | and these are the result and the calls of the source wherever its switches choose as the language does |
| FunctionMachine.CompiledBytesAccepted | pkg/vm/contract_checks.go:143-197 | the static checker accepts these bytes if and only if the method offsets are starts of their instructions |
| DeferMachine.RelocatedStep | pkg/vm/vm.go:413-420 | an instruction that is the relocated form of another takes relocated states to relocated states |
| DeferMachine.StepSimulated | pkg/vm/vm.go:413-420 | one step of the virtual machine on the final bytes does what one step of the handler code does |
| DeferMachine.DeferredBytesRun | pkg/compiler/codegen.go:1319-1355 | the final bytes of a body with deferred calls, loaded and run from offset zero, make the calls of the body and then every registered call exactly once, last first, and halt with an empty stack, whether the body returns or throws; only an exception before the first defer and a seventeenth defer fault |
| DeferMachine.DeferredBytesAccepted | pkg/vm/contract_checks.go:143-197 | the static checker accepts these bytes if and only if the method offsets are starts of their instructions |
| Codegen.Generator.WalkExpr | pkg/compiler/codegen.go:1420-1488 | the visitor appends exactly the specified value code |
| Codegen.Generator.WriteBoolExpr | pkg/compiler/codegen.go:1407-1416 | the visitor appends exactly the specified boolean code |
| Codegen.Generator.WriteShortCircuit | pkg/compiler/codegen.go:1447-1467 | creates, uses and places the end and push labels as specified |
| Codegen.Generator.WriteDrops | pkg/compiler/codegen.go:1503-1513 | the loop emits as many drops as asked for, packed from four on |
| Codegen.Generator.GenerateLabel | pkg/compiler/codegen.go:1532-1540 | takes the pending label name or makes one from the number of labels, and records the label under it |
| Codegen.Generator.CountAbove | pkg/compiler/codegen.go:1105-1109 | the loop adds up the temporaries of the constructs above the named one |
| Codegen.Generator.VisitBranch | pkg/compiler/codegen.go:1095-1120 | emits the drops and the jump to the label recorded for the target |
| Codegen.Generator.VisitReturn | pkg/compiler/codegen.go:667-705 | emits the drops of all open constructs, the result and RET |
| Codegen.Generator.VisitIf | pkg/compiler/codegen.go:707-733 | appends exactly the code of the if statement |
| Codegen.Generator.VisitFor | pkg/compiler/codegen.go:1139-1182 | appends exactly the code of the loop and restores the current names and the list of open constructs |
| Codegen.Generator.VisitRange | pkg/compiler/codegen.go:1184-1261 | appends exactly the code of the loop and restores the current names and the list of open constructs |
| Codegen.Generator.VisitSwitch | pkg/compiler/codegen.go:735-793 | appends exactly the code of the switch and restores the current names and the list of open constructs |
| Codegen.Generator.Visit | pkg/compiler/codegen.go:531-793 | visiting a legal statement appends exactly its code, and labels of open constructs survive nested ones |
| Codegen.Generator.ConvertFunc | pkg/compiler/codegen.go:496-505 | a body without a final return gets one |
| Defers.EmitDefer | pkg/compiler/codegen.go:1319-1355 | the twelve instructions of a handler block and the places of its four labels |
| Defers.Emitter.VisitDefer | pkg/compiler/codegen.go:1003-1015 | opens a handler with two new labels and remembers the call |
| Defers.Emitter.WriteDefers | pkg/compiler/codegen.go:1319-1355 | the loop emits one block for each remembered call, last first |
| DefersRun.NormalBlock | pkg/vm/vm.go:1482-1503 | a block entered in order makes its call once, in its finally part |
| DefersRun.CatchBlock | pkg/vm/vm.go:1620-1649 | a block entered by an exception makes its call once, in its catch part |
| DefersRun.DefersRunOnce | pkg/compiler/codegen.go:1319-1355 | every registered deferred call runs exactly once, last first, whether the body returns or throws; only an exception before the first defer escapes, and exactly a seventeenth defer faults |
| StateJump.Node.RemoveOldItems | pkg/core/blockchain.go:489-501 | one atomic write removes all old items and records the stage |
| StateJump.Node.CollectBatch | pkg/core/blockchain.go:506-519 | a batch moves each chosen item to its key with the other prefix, unchanged |
| StateJump.BatchMoves | pkg/core/blockchain.go:506-524 | a batch keeps every collected item in exactly one area and makes the temporary area smaller |
| StateJump.Node.MoveItems | pkg/core/blockchain.go:503-532 | the batch loop terminates with the temporary area empty, or stops with no item lost or duplicated |
| StateJump.Node.RemoveGenesis | pkg/core/blockchain.go:534-553 | contract items and the record of the stage are untouched by the removal of genesis data |
| StateJump.Node.JumpToStateInternal | pkg/core/blockchain.go:473-606 | from any recorded stage the jump completes or leaves a store that is sound for the stage it records; errors change nothing |
| StateJump.Node.Restarts | pkg/core/blockchain.go:387-403 | stopped after any writes and restarted any number of times, contract storage ends equal to the collected items and the temporary area empty, once a start may write enough |
| BlockQueue.Ring.PutBlock | pkg/network/blockqueue.go:95-107 | a block is queued exactly if its index is above the height that was read by at most 2000, and its slot then holds it unless the slot held the same or a higher index; everything else is untouched |
| BlockQueue.StoreQueues | pkg/network/blockqueue.go:94-107 | in every interleaving, after a producer stores a block read at a height below it and within 2000, the slot of that index holds a block of at least that index, the block itself if the slot was empty or lower, and its signal is due; otherwise nothing is changed |
| BlockQueue.Ring.Take | pkg/network/blockqueue.go:52-64 | reads the next slot and sweeps the passed ones |
| BlockQueue.Ring.Release | pkg/network/blockqueue.go:82-88 | empties the slot unless it has been refilled |
| BlockQueue.SweepClearsNothing | pkg/network/blockqueue.go:57-63 | the sweep never empties a slot |
| BlockQueue.PutDisplacesOnlyOld | pkg/network/blockqueue.go:103-107 | a displaced block has an index that the chain has reached |
| BlockQueue.AlwaysGood | pkg/network/blockqueue.go:44-120 | in every interleaving queued blocks sit at their index modulo the ring size, within a ring of the chain |
| BlockQueue.StoreKeepsFuture | pkg/network/blockqueue.go:94-107 | in every interleaving putBlock leaves every block above the chain height where it is |
| BlockQueue.TakenBlock | pkg/network/blockqueue.go:52-70 | the consumer takes nothing above the next block unless the chain grew since it read the height, and then only a block a whole ring ahead |
| BlockQueue.NoWakeUpIsLost | pkg/network/blockqueue.go:44-120 | when only the queue grows the chain, a queued next block always has a look due, and nothing above it is taken |
| BlockQueue.KeptStays | pkg/network/blockqueue.go:44-120 | when only the queue grows the chain, every step leaves a queued block in its slot until the chain has reached it |
| BlockQueue.QueueAdvancesChain | pkg/network/blockqueue.go:44-120 | in every such run that comes to rest, with the consumer waiting and no signal, the chain has grown by n blocks if and only if each of the next n blocks has been put into the queue |
| BlockQueue.ComesToRest | pkg/network/blockqueue.go:44-120 | from every good state, so from every reachable one, enabled steps without new blocks lead to rest, with every pending call over |
| BlockQueue.StepLosesWakeUp | pkg/network/blockqueue.go:44-120 | a step ends the attention to a queued next block if and only if, without any signal, the chain grows below a queued block while the consumer sleeps, or the consumer goes to sleep on the empty slot of an old height while the next block is queued |
| BlockQueue.WakeUpsLost | pkg/network/blockqueue.go:44-120 | in any interleaving a queued next block has a look due in every state if and only if no step is one of these |
| BlockQueue.WakeUpLostOtherwise | pkg/network/blockqueue.go:44-70 | a run with a block from elsewhere after which the next block is queued and nobody will look |
| BlockQueue.FarBlockDropped | pkg/network/blockqueue.go:52-89 | a run with a block from elsewhere in which a block a whole ring ahead is taken and dropped |
| NameService.BalancesAfterMove | examples/nft-nd-nns/nns.go:373-393 | moving a name between owners, or to the same one, keeps balances equal to names owned |
| NameService.IndexAfterMove | examples/nft-nd-nns/nns.go:386-392 | and the account index equal to the pairs of owner and token |
| NameService.NameServiceContract.UpdateBalance | examples/nft-nd-nns/nns.go:373-393 | one balance changes by the difference, without a zero entry, and the index entry is deleted or written |
| NameService.NameServiceContract.RegisterName | examples/nft-nd-nns/nns.go:240-281 | a name that is free or expired gets its owner and expiration with all indexes in step; every panic comes before the first write |
| NameService.NameServiceContract.TransferToken | examples/nft-nd-nns/nns.go:154-181 | a witnessed transfer of a live name changes its owner and clears its admin with all indexes in step; otherwise nothing changes |
| NameService.NameServiceContract.RenewName | examples/nft-nd-nns/nns.go:284-294 | only the expiration moves |
| NameService.NameServiceContract.SetNameAdmin | examples/nft-nd-nns/nns.go:297-311 | only the admin changes; the call panics exactly for a name that is too long, expired or unknown, or without the witness of the owner or of an admin that is set |
| NameService.NameServiceContract.PostTransfer | examples/nft-nd-nns/nns.go:397-402 | whatever calls the receiver makes before the outer call is over, the indexes agree, and the names are those that these calls leave |
| NameService.NameServiceContract.RunCalls | examples/nft-nd-nns/nns.go:154-311 | over every sequence of calls with callbacks, the names are those that the calls leave one after the other, supply is their number, balances are names owned, the index holds exactly the owner and token pairs |
| NameService.NameServiceContract.Invoke | examples/nft-nd-nns/nns.go:154-311 | outcome and names after one call with its callbacks are those of the four operations as functions of the names |
| NameService.NamesAreKept | examples/nft-nd-nns/nns.go:154-311 | no sequence of calls, with any callbacks, takes a name from its owner or changes its admin without the witness of the owner before the name expires |
| BinaryIO.VarUintRoundTrip | pkg/io/binaryReader.go:153-171 | every variable-length integer comes back in every width, with what follows unread |
| BinaryIO.VarUintWidth | pkg/io/binaryWriter.go:108-128 | one byte up to 252, three up to 65534, five up to 4294967294, nine above |
| BinaryIO.EstimateIsExact | pkg/io/size.go:24-35 | the size estimate is the written size if and only if the number is not 65535 and below 4294967295, and never too high |
| BinaryIO.LowBytesFirst | pkg/io/binaryWriter.go:108-128 | bytes that a number does not need are zero and come last |
| BinaryIO.VarBytesRoundTrip | pkg/io/binaryReader.go:175-188 | a byte string comes back if and only if it is within the limit |
| BinaryIO.BinWriter.PutVarUint | pkg/io/binaryWriter.go:108-128 | the scratch space holds exactly the encoding |
| BinaryIO.BinReader.ReadVarUint | pkg/io/binaryReader.go:153-171 | reads what the decoding function says; an earlier error stays and nothing is consumed |
| BinaryIO.BinReader.ReadVarBytes | pkg/io/binaryReader.go:175-188 | the same for byte strings |
| ParameterCodec.EncodeBinary | pkg/smartcontract/parameter.go:194-221 | appends exactly the encoding of the nested parameter |
| ParameterCodec.DecodeBinary | pkg/smartcontract/parameter.go:224-260 | reads exactly what the decoding function says, with the first error staying |
| ParameterCodec.ByteStringRoundTrip | pkg/smartcontract/parameter.go:229-235 | nil and every byte string are told apart by the length marker |
| ParameterCodec.RoundTrip | pkg/smartcontract/parameter.go:194-272 | decoding the encoding of any well-typed tree gives the tree and leaves what follows unread if every string, array and map is within the limits, and fails otherwise |
| ParameterCodec.TypeBytes | pkg/smartcontract/param_type.go:22-35 | the first byte of an encoding is the number of its type |
| ParameterForms.DecodesExactly | pkg/smartcontract/parameter.go:224-272 | decoding gives a parameter and a rest if and only if the bytes before the rest stand for the parameter, numbers in any of their widths included; everything else is refused |
| ParameterCodec.WriteThenRead | pkg/smartcontract/parameter.go:194-272 | the same for the stateful writer and reader |
| Analysis.AnalyzeFuncUsage | pkg/compiler/analysis.go:248-328 | terminates and returns exactly the declared functions reachable by calls from the roots |
| Analysis.Orderer.VisitPkg | pkg/compiler/analysis.go:221-231 | lists a package after all its imports, once |
| Analysis.AnalyzePkgOrder | pkg/compiler/analysis.go:215-231 | all packages that the initial one needs, each once, after its imports |
| BlockLimits.ApplyPolicyToTxSet | pkg/core/blockchain.go:1814-1845 | keeps the longest prefix of at most the limit of transactions all of whose prefixes fit size and system fee, with the header counted for as many transactions as the limit admits |
| BlockLimits.VerifyLimits | pkg/consensus/consensus.go:439-480 | accepts exactly the blocks within count, size and system fee |
| BlockLimits.VerifierCountsLess | pkg/core/block/block.go:207-224 | the expected signatures outweigh state root and larger count |
| BlockLimits.ProposalPasses | pkg/core/blockchain.go:1814-1845 | what the proposer keeps is acceptable to the verifiers if and only if the transaction limit is set, where a first transaction fits, or an empty block fits, where none does |
| BlockLimits.ProposeAndVerify | pkg/consensus/consensus.go:439-480 | proposing and then verifying succeeds exactly under that condition on the inputs |
| BlockLimits.UnlimitedProposalRefused | pkg/consensus/consensus.go:439-480 | a proposal made without a transaction limit is refused |
| BlockLimits.EmptyProposalRefused | pkg/consensus/consensus.go:439-480 | an empty proposal whose header is too large is refused |
| WitnessGas.WitnessWithinLimit | pkg/core/blockchain.go:2222-2256 | a witness consumes no more than it was given and no more than the policy allows for one verification |
| WitnessGas.WitnessPasses | pkg/core/blockchain.go:2222-2256 | a witness passes if and only if it is correct and halts, without a limit, at a cost within both; its consumption is that cost |
| WitnessGas.VerifyTxWitnesses | pkg/core/blockchain.go:2264-2284 | all witnesses pass, each with what the earlier ones left, if and only if each is correct, signed but for a dummy first one, and within the limit of the policy, and their costs together fit |
| WitnessGas.VerifyAndPoolTx | pkg/core/blockchain.go:1912-1938 | a transaction is admitted if and only if every witness passes by itself and the network fee covers the charges for size and notary and the costs of all witnesses |
| WitnessGas.NegativeLimitIsNoLimit | pkg/core/blockchain.go:2222-2231 | with a negative remainder a witness would run without a limit |

## Left out

- Command line, wallet files, RPC, peer-to-peer transport and handshake, metrics, logging, configuration and JSON forms: input and output that would add only easy members.
- `ParseMultiSigContract` and the other recognisers of standard scripts, `GetMajorityHonestNodeCount` and the fee of an opcode list: easy members.
- Cryptography and hashing: signature verification is an arbitrary predicate on key and signature, token keys an injective function.
- Data in the virtual machine beyond `DataMachine`: opcodes that the modelled part of the compiler does not emit, byte strings, buffers, maps and structures, identity of arrays, function arguments, pointers as items, and the limit on the number of items; a run that meets one of these ends as `Outside`. Exceptions out of system calls are modelled for calls that are charged for.
- Short TRY in jump shortening: the emitter produces only TRYL, so inputs with TRY are excluded by a precondition.
- JumpShortening.ShortenJumps: takes the list of marked offsets as the one that label resolution produces; arbitrary offset lists are not considered.
- WriteJumps.CorrectRange: stated for functions with emitted code, whose range is not empty; the 16-bit width of ranges is not modelled.
- WriteJumps.ResolveAndShorten: the texts of errors and the correction of the end offsets of init and deploy functions, which call CorrectRange, are not modelled.
- ShorteningRun.ShortenedRunsAlike: the run of the long form passes over the `INITSLOT` instructions that shortening drops.
- Multisig.CheckMultisigPar: keys that fail to decode, which fault the machine, are not modelled.
- Quorum.EvaluationStack.PopSigElements: a count given as a byte string or a boolean is refused, and so are integers and booleans among elements taken one by one; the source converts them.
- Quorum.CheckMultisig: the charge of gas for each key before the signatures are taken is not modelled.
- ScriptCheck.IsScriptCorrect: all errors are one verdict, and method offsets are a set with a field length.
- Quorum.BuiltWitnessAccepted: duplicate validators are excluded, as the distinct keys of a committee are; commits that do not verify are excluded, as they are refused on arrival.
- RefCounter.Counter.Remove: containers are not mutated after their last reference is gone; slots are not modelled.
- ExprLowering.WalkRuns: constants folded by the type checker appear as literals; strings, structures, slices and conversions are not in the expression language.
- StmtRuns.StmtRunsTo: arrays are values, so element assignment during a range loop is not modelled; range over maps, select, goto, several results, inlined calls and function literals are not in the statement language; runs of the source that do not end are not considered.
- DefaultClauses.FunctionMeansSource: one way only; where choices differ, two bodies may still happen to give the same result.
- FunctionScript.FunctionCompiles: one function at a time; calls are written as system calls, so the labels of other functions are not modelled, and literals wider than 64 bits and call numbers wider than 32 are not either.
- FunctionMachine.CompiledBytesReturn: functions without arguments, run without a gas limit; runs of the source that fail or do not end are not considered.
- DeferMachine.DeferredBytesRun: run without a gas limit and without callers below.
- Codegen.Generator.Visit: variables are already resolved to slots; sequence points for debugging are not modelled, and the limit of 65536 labels appears in `FunctionScript` only.
- DefersRun.DefersRunOnce: one exit, straight-line bodies, functions without results and deferred calls that do not throw; result values after a panic are not modelled.
- StateJump.Node.JumpToStateInternal: the in-memory caches, the current block and the state root that follow the last stage are not modelled.
- StateJump.Node.RemoveGenesis: genesis data is a set of keys outside contract items.
- StateJump.Node.Restarts: the checks of configuration and format at restart are not modelled.
- BlockQueue.NoWakeUpIsLost: the queue length metric, relaying and discarding the queue are not modelled.
- NameService.NameServiceContract.RegisterName: the format of names, roots and the price are one condition of the call; records, resolution and committee methods would add only easy members.
- ParameterCodec.DecodeBinary: an absurd length, for which the source fails to allocate memory, is an error like any other.
- BlockLimits.ProposeAndVerify: 32-bit and 64-bit overflow are not modelled.
- WitnessGas.VerifyTxWitnesses: the checks of the result stack are flags of the witness, and one script stands for invocation and verification.
- WitnessGas.VerifyAndPoolTx: the other admission checks do not touch gas and are left out.
