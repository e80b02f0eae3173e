# Verification of the Pick system core

This project models the hardest parts of a Pick-style operating environment in Dafny and proves what they
are for. `dafny verify dfyconfig.toml` checks everything.

**Compiler and machine.** `BasicAst` holds expressions and normalized statements with the rules the emitter
enforces. `StmtCompile` gives two independent meanings to a statement: direct execution (`ExecStmt`) and
generated code (`StmtCode`). `Machine` is the bytecode machine over an arbitrary host (arithmetic, coercions,
builtins, files, locks, input), whose answers may depend on everything the program did so far.
`ExprCompile`, `StmtCorrect` and `ProgramCorrect` build up to the equivalence of both meanings for whole
programs, in both directions of termination. `StackSafety` computes an operand depth for every address and
derives safety of every run. `Deviations` states where code and statement part. `Emitter` is the
back-patching emitter, `Runtime` the stepping object, and `Pipeline` puts analysis, emission and execution
together.

**Text forms.** `BytecodeText`, `OpCodeNames` and `BytecodeLoad` print programs and read them back; `Reload`
says which compiled programs survive that. `ExprParser` reads expressions from tokens.

**Daemon.** `Scheduler` is the cooperative session token, `Framing` and `Channel` the wire protocol and the
output side of a session under short writes, `SharedSocket` both streams on one wire, `Binding` the
connections and bound ports, `Ports` the port allocator.

**Data.** `Records` are attribute and value texts, `Locks` the lock table, `FileStore` record access by many
sessions, `ProcLoops` the loop machinery of PROC, `Calendar` and `Decimals` the closed formulas behind
conversions.

Where an operation changes state step by step it is a class or a method with loops, proved against a
function on values; the laws are then lemmas about those functions. Host behaviour (sockets, host files,
the clock, conditions of PROC statements) enters as parameters, so every theorem holds for every behaviour
of the outside.

Where the code does less than its surface suggests, the exact condition is proved and an input given:
ON ERROR GOTO a line at address 0 (`Deviations.OnErrorInstalls`, `Deviations.LostHandler`), WRITEV with a
DICT field inside an arm (`Deviations.WriteValContexts`, `Deviations.DictWriteDiffers`), bars in MAT names
(`Deviations.MatCopyExact`), compiled programs that do not reload (`Reload.CompiledReloads`,
`Reload.TrailingRemarkLost`), output bytes inside a half-sent diagnostic frame (`Channel.FlushSplits`,
`Channel.OutputSplitsDiagnostic`), and attribute writes past the end of a record or with marks in the text
(`Records.WriteThenRead`, `Records.WriteSubvalueThenRead`).

## Model

| member | source | states |
|---|---|---|
| `Pipeline.CompileAndRun` | src/userland/basic/BasicBytecodeEmitter.cpp:283-1395 | a program is accepted exactly when all its targets exist and every line can be emitted; when the run of an accepted program without a bar in a MAT name is over, direct execution of its lines is over in the same way (same end, variables, arrays, outside activity); no accepted program underflows the stack |
| `ExprCompile.ExprCorrect` | src/userland/basic/BasicBytecodeEmitter.cpp:86-202 | the code of every accepted expression, from every machine state, pushes exactly the left-to-right value of the expression on the old stack and changes nothing else, or fails exactly when evaluation fails |
| `ExprCompile.ArgsCorrect` | src/userland/basic/BasicBytecodeEmitter.cpp:235-274 | the arguments of a builtin call are pushed in order, each in its own numeric or text context |
| `StmtCorrect.StmtLands` | src/userland/basic/BasicBytecodeEmitter.cpp:291-733 | the code of any statement, also nested IF arms and file statements with ELSE, ends where direct execution of the statement says: after it, at a target line, at a return, a halt, an error, a lock conflict, a loop start or step |
| `StmtCorrect.TryFileLands` | src/userland/basic/BasicBytecodeEmitter.cpp:410-703 | a file statement with ELSE stores the value on success, and on a miss drops the placeholder and runs the arm on an empty stack |
| `StmtCompile.StmtSize` | src/userland/basic/BasicBytecodeEmitter.cpp:291-733 | the size of the code of a statement depends neither on its address nor on line addresses, so one pass can place all lines |
| `ProgramCorrect.LineInPlace` | src/userland/basic/BasicBytecodeEmitter.cpp:735-740 | the code of each line stands at the address recorded for the line |
| `ProgramCorrect.TableFinds` | src/userland/basic/BasicBytecodeEmitter.cpp:736-737 | a line number leads to the last line that carries it, and to nothing when there is none |
| `ProgramCorrect.LineAgrees` | src/core/vm/Runtime.cpp:411-1455 | running the code of a line from its first instruction matches direct execution of that line, including where control, loops, subroutines and the error handler go next |
| `ProgramCorrect.RunAgrees` | src/core/vm/Runtime.cpp:411-1455 | any number of lines of direct execution is matched by some number of instructions that grows with it |
| `ProgramCorrect.CompiledRunEnds` | src/core/vm/Runtime.cpp:411-1455 | however direct execution of a program ends, its bytecode ends in the same state with the same outside activity in the same order |
| `ProgramCorrect.SourceRunEnds` | src/core/vm/Runtime.cpp:411-1455 | conversely, if the bytecode ends, direct execution ends in the same way |
| `ProgramCorrect.EndAgrees` | src/userland/basic/BasicBytecodeEmitter.cpp:1388-1391 | past the last line the machine halts, whether or not a HALT was added |
| `ProgramCorrect.StartAtZero` | src/userland/basic/BasicBytecodeEmitter.cpp:735-737 | a line is at address 0 exactly when only remarks come before it |
| `Deviations.OnErrorInstalls` | src/core/vm/Runtime.cpp:1170-1178 | ON ERROR GOTO installs its handler exactly when some line before the target has code; otherwise it removes the handler there was |
| `Deviations.LostHandler` | src/core/vm/Runtime.cpp:1170-1178 | a program that installs a handler at a later line and then names its first line: on the machine, the handler is there after the first instruction and is gone at every later point of the endless run |
| `Deviations.WriteValContexts` | src/userland/basic/BasicBytecodeEmitter.cpp:660-703 | WRITEV means the same inside an arm as at the top of a line exactly when its attribute is not a DICT field or an operand before it fails; otherwise what the outside sees always differs |
| `Deviations.DictWriteDiffers` | src/userland/basic/BasicBytecodeEmitter.cpp:660-703 | one WRITEV with a DICT field whose two meanings differ for every host and in every state |
| `Deviations.WriteValOnMachine` | src/userland/basic/BasicBytecodeEmitter.cpp:660-703 | the two pieces of code for one WRITEV, started in the same machine state, leave different traces outside under the same condition |
| `Deviations.StmtLogs` | src/core/vm/Runtime.cpp:411-1455 | no statement takes back anything the outside has seen |
| `Deviations.MatCopyExact` | src/core/vm/Runtime.cpp:775-803 | a MAT copy means the same to the machine in every state exactly when the target name has no bar |
| `Machine.DataEffect` | src/core/vm/Runtime.cpp:423-1455 | every data opcode that completes pushes as many results as its opcode is declared to push |
| `Machine.ExecAdd` | src/core/vm/Runtime.cpp:411-418 | running a and then b instructions is running a + b instructions |
| `StackSafety.StepKeepsSafe` | src/core/vm/Runtime.cpp:411-1455 | one step of code that respects its static depths keeps the stack at the depth of the current address and every remembered address at a line boundary, and never underflows |
| `StackSafety.ExprFlows` | src/userland/basic/BasicBytecodeEmitter.cpp:86-202 | the code of every expression raises the operand depth by exactly one, from any depth |
| `StackSafety.StmtTyped` | src/userland/basic/BasicBytecodeEmitter.cpp:291-733 | the code of every statement respects statically computed depths, through both arms of IF and both outcomes of a trying file operation |
| `StackSafety.LinesAreBases` | src/userland/basic/BasicBytecodeEmitter.cpp:735-740 | the static depth at the first instruction of every line is zero |
| `StackSafety.CompiledTyped` | src/userland/basic/BasicBytecodeEmitter.cpp:283-1395 | every compiled program respects its static depths at every address |
| `StackSafety.RunSafety` | src/core/vm/Runtime.cpp:402-1455 | after any number of steps: no underflow, an empty stack at the first instruction of every line and at the end, and instruction pointer, return addresses, FOR bodies and handler within the program or at its end |
| `StackSafety.HandlerPositive` | src/core/vm/Runtime.cpp:1170-1178 | address 0 is never an error handler in any run |
| `StackSafety.OnlyProgramErrors` | src/core/vm/Runtime.cpp:402-409 | no run of a compiled program underflows the operand stack, meets an operand of the wrong kind or an opcode outside the model |
| `Emitter.BytecodeEmitter.EmitNode` | src/userland/basic/BasicBytecodeEmitter.cpp:86-202 | succeeds exactly on the expressions the rules accept and then has appended exactly their code |
| `Emitter.BytecodeEmitter.EmitOperation` | src/userland/basic/BasicBytecodeEmitter.cpp:118-200 | negation, binary operators and subscripts: accepted exactly by the rules, operands before the operator |
| `Emitter.BytecodeEmitter.EmitBuiltinCall` | src/userland/basic/BasicBytecodeEmitter.cpp:235-274 | checks arity and function id, supplies the third argument of INDEX, and appends exactly the call |
| `Emitter.BytecodeEmitter.EmitElse` | src/userland/basic/BasicBytecodeEmitter.cpp:425-437 | after back-patching, the flag test leads to the drop and the arm, and success jumps over them |
| `Emitter.BytecodeEmitter.EmitFile` | src/userland/basic/BasicBytecodeEmitter.cpp:410-703 | appends operands, operation, sink and the ELSE path, or reports one error |
| `Emitter.BytecodeEmitter.EmitIf` | src/userland/basic/BasicBytecodeEmitter.cpp:355-389 | after back-patching, the branch leads to the ELSE arm or the end, and a THEN arm that falls through jumps over the ELSE arm |
| `Emitter.BytecodeEmitter.EmitArm` | src/userland/basic/BasicBytecodeEmitter.cpp:720-733 | a line arm is a jump waiting for its line; an arm with neither line nor statement is an error |
| `Emitter.BytecodeEmitter.EmitStatement` | src/userland/basic/BasicBytecodeEmitter.cpp:291-718 | what was appended is, once the pending jumps are resolved, exactly the code of the statement at this address; a refused statement adds one error |
| `Emitter.BytecodeEmitter.EmitLine` | src/userland/basic/BasicBytecodeEmitter.cpp:735-1371 | keeps the correspondence of program, fixups, line table and source-line table for one more line |
| `Emitter.BytecodeEmitter.ApplyFixups` | src/userland/basic/BasicBytecodeEmitter.cpp:1373-1379 | resolves every pending jump whose line exists, in order |
| `Emitter.BytecodeEmitter.Emit` | src/userland/basic/BasicBytecodeEmitter.cpp:283-1395 | succeeds exactly when every line can be emitted, reports the other lines in order, and yields the compiled program with the source line of every instruction |
| `Emitter.ExtendsPatch` | src/userland/basic/BasicBytecodeEmitter.cpp:376-384 | patching an earlier branch commutes with all pending fixups |
| `Emitter.LineOfInstruction` | src/userland/basic/BasicBytecodeEmitter.cpp:1361-1370 | instruction i is attributed to the line whose code spans address i |
| `Runtime.BytecodeRuntime.StepOnce` | src/core/vm/Runtime.cpp:411-1455 | one instruction on the object gives exactly the outcome and the new state of the machine step |
| `Runtime.BytecodeRuntime.DataInstruction` | src/core/vm/Runtime.cpp:423-642 | pops operands from the top, deepest first in the result, and pushes the results |
| `Runtime.BytecodeRuntime.PopOperands` | src/core/vm/Runtime.cpp:398-409 | fails exactly on too few operands, else splits the stack at the right depth |
| `Runtime.BytecodeRuntime.NextInstruction` | src/core/vm/Runtime.cpp:686-711 | advances the innermost loop and either repeats its body or leaves it |
| `Runtime.BytecodeRuntime.ForInstruction` | src/core/vm/Runtime.cpp:675-684 | takes step and limit, refuses step zero, and opens a loop whose body starts at the next instruction, without a test |
| `Runtime.BytecodeRuntime.HandleRecordLockConflict` | src/core/vm/Runtime.cpp:340-347 | sets STATUS and goes to the ON ERROR line if there is one |
| `Runtime.BytecodeRuntime.Run` | src/core/vm/Runtime.cpp:411-418 | n calls of step are n machine steps |
| `Pipeline.NoProblems` | src/userland/basic/BasicSemanticAnalyzer.cpp:69-131 | a statement has no target problem exactly when every line it can transfer to exists |
| `Pipeline.SemanticAnalyzer.ValidateStatement` | src/userland/basic/BasicSemanticAnalyzer.cpp:69-131 | reports the unknown targets of a statement and its arms in order |
| `Pipeline.SemanticAnalyzer.Analyze` | src/userland/basic/BasicSemanticAnalyzer.cpp:279-313 | accepts exactly the programs all of whose targets exist, and reports all problems in line order |
| `BasicAst.FunctionId` | src/core/languages/basic/BasicBuiltinLookup.h:10-99 | the id found is a place of the name and argument count in the published table, and none is found exactly when the table has no such entry |
| `Bytecode.UppercaseTwice` | src/core/vm/Runtime.cpp:73-79 | canonical names are fixed points of the runtime's canonicalization |
| `BytecodeLoad.RoundTrip` | src/core/vm/Parser.cpp:224-647 | for every program whose operands have the kinds their opcodes print, with any line list or none: loading the printed text gives the same instructions back exactly when every number is in range, every float reads back, every bare name is visible, unquoted and without free colon or line break, every jump is below the program size, and the line list fits; otherwise the text is refused or gives another program |
| `BytecodeLoad.BadNameLost` | src/core/vm/Parser.cpp:160-206 | a program with a name that cannot be printed bare is never read back, whatever its other lines hold and however line breaks inside names fall |
| `Reload.CompiledReloads` | src/core/vm/Parser.cpp:224-647 | a compiled program saved as text and loaded comes back exactly when its integer and float literals are printed faithfully, no NEXT is bare, the line list fits, and, if the program ends in a HALT of its own, no jump leads to trailing remarks or past the last arm; all stated on the source lines |
| `Reload.CompiledJudged` | src/userland/basic/BasicBytecodeEmitter.cpp:1388-1391 | every instruction of the compiled program reads back with its target in range exactly under that condition |
| `Reload.HaltDecides` | src/userland/basic/BasicBytecodeEmitter.cpp:1388-1391 | a HALT is added exactly when no line is END or the last line with code does not end in HALT, through nested arms |
| `Reload.TrailingRemarkLost` | src/core/vm/Parser.cpp:208-222 | GOTO a remark behind the final END: an accepted program whose saved text does not give it back |
| `Reload.SaveAndLoad` | src/userland/basic/BasicShell.cpp:380-396 | emitting, saving and loading: what is loaded is what was compiled, with its source lines, exactly under the condition on the lines |
| `BytecodeLoad.InstructionReads` | src/core/vm/Parser.cpp:160-206 | an instruction without stray colons or line breaks is read from its own line as its opcode and operand, and gives the instruction back exactly when it is printable; the line is no label, comment or metadata line |
| `BytecodeLoad.LineReads` | src/core/vm/Parser.cpp:160-206 | an opcode word and a visible operand are split at the first blank; with a free colon the operand read is shorter |
| `BytecodeLoad.LabelsPoint` | src/core/vm/Parser.cpp:229-255 | a label stands for the index of the next instruction after its last occurrence; other names are unknown |
| `BytecodeLoad.CallReads` | src/core/vm/Parser.cpp:53-88 | the three numbers of a CALL_FUNC operand come back, and are refused exactly when one is too large |
| `BytecodeLoad.MetaReads` | src/core/vm/Parser.cpp:119-144 | the printed line list is recognized, and read back exactly when every number is in range |
| `BytecodeLoad.TextParser.Parse` | src/core/vm/Parser.cpp:224-647 | the two passes with labels, metadata and target validation compute the specified result, or fail where the reader throws |
| `BytecodeLoad.SerializeText` | src/core/vm/BytecodeText.cpp:27-103 | prints the metadata line and one line per instruction, and fails exactly when an operand is of another kind than its opcode prints |
| `BytecodeText.UnquoteQuote` | src/core/vm/Parser.cpp:90-117 | every string survives escaping and unescaping |
| `BytecodeText.NoColonInQuote` | src/core/vm/Parser.cpp:167-190 | whatever characters a string holds, the label scanner finds no colon inside its quoted form |
| `BytecodeText.ScanLabel` | src/core/vm/Parser.cpp:167-190 | finds the first colon outside quotes, honouring escapes |
| `BytecodeText.ParseQuotedString` | src/core/vm/Parser.cpp:90-117 | unescapes a quoted token, refuses unknown or cut escapes, and returns other tokens unchanged |
| `BytecodeText.EscapeQuoted` | src/core/vm/BytecodeText.cpp:10-24 | escapes character by character |
| `BytecodeText.IntTextReads` | src/core/vm/Parser.cpp:25-51 | printed integers read back within the range of the reader and are refused outside it |
| `OpCodeNames.NameFound` | src/core/vm/InstructionPrint.cpp:13-88 | a text is read as an opcode exactly when it is that opcode's printed name |
| `OpCodeNames.NamesDiffer` | src/core/vm/InstructionPrint.cpp:13-88 | no two opcodes share a name |
| `OpCodeNames.NameIsWord` | src/core/vm/InstructionPrint.cpp:13-88 | names consist of capitals and underscores |
| `ExprParser.ParseFlatten` | src/userland/basic/BasicExpressionParser.cpp:268-617 | every well-shaped tree (one comparison per level, arithmetic nested to the left, arities respected) is what the parser reads from its tokens |
| `ExprParser.ParseGives` | src/userland/basic/BasicExpressionParser.cpp:268-617 | every successful parse gives a well-shaped tree whose tokens are all the tokens before End, up to the case of builtin names |
| `ExprParser.Unambiguous` | src/userland/basic/BasicExpressionParser.cpp:268-617 | no two well-shaped trees have the same tokens |
| `ExprParser.ReadsSum` | src/userland/basic/BasicExpressionParser.cpp:371-397 | reading the tokens of a left-nested sum reaches the whole tree before looking for another term |
| `ExprParser.AttributeGives` | src/userland/basic/BasicExpressionParser.cpp:538-583 | attribute access is read only from a `<` glued to an identifier, with non-empty indexes and a closing `>` |
| `ExprParser.CallGives` | src/userland/basic/BasicExpressionParser.cpp:468-520 | a builtin call respects its arity, refuses a trailing comma and is stored in upper case |
| `ExprParser.TokenParser.ReadComparison` | src/userland/basic/BasicExpressionParser.cpp:342-369 | the cursor-moving parser gives the functional parser's answer and never passes End |
| `ExprParser.TokenParser.ReadAddSub` | src/userland/basic/BasicExpressionParser.cpp:371-397 | the loop folds terms to the left |
| `ExprParser.TokenParser.ReadMulDiv` | src/userland/basic/BasicExpressionParser.cpp:399-425 | the loop folds factors to the left |
| `ExprParser.TokenParser.ReadUnary` | src/userland/basic/BasicExpressionParser.cpp:427-444 | nested minus signs |
| `ExprParser.TokenParser.ReadPrimary` | src/userland/basic/BasicExpressionParser.cpp:446-616 | literals, identifiers, calls, subscripts, attribute access and groups |
| `ExprParser.TokenParser.ReadArgs` | src/userland/basic/BasicExpressionParser.cpp:483-505 | the argument loop collects the arguments in order |
| `ExprParser.TokenParser.ReadAll` | src/userland/basic/BasicExpressionParser.cpp:274-294 | the whole token list must be one expression |
| `Scheduler.RunKeepsInv` | src/core/daemon/CooperativeSessionRunner.cpp:43-151 | in every run a session is active exactly when the depth is positive, the active session is recorded and not waiting, and no other session is Running |
| `Scheduler.HandoverThroughFree` | src/core/daemon/CooperativeSessionRunner.cpp:62-116 | between two different holders the token was free |
| `Scheduler.OneCanAcquire` | src/core/daemon/CooperativeSessionRunner.cpp:17-53 | when the token is free at most one recorded session passes the acquire test, and one does exactly when some recorded session is runnable |
| `Scheduler.BoundedBypass` | src/core/daemon/CooperativeSessionRunner.cpp:75-116 | while a recorded runnable session waits and no input-wake grant happens, every other session gets at most one turn, the holder at the start gets none, and the session stays eligible, whatever sessions appear |
| `Scheduler.TurnDecreasesDistance` | src/core/daemon/CooperativeSessionRunner.cpp:87-116 | each completed turn of another session strictly decreases the cyclic distance of the waiting one |
| `Scheduler.TurnsInOrder` | src/core/daemon/CooperativeSessionRunner.cpp:17-41 | turns granted meanwhile follow each other in cyclic order, all before the waiting session |
| `Scheduler.WaitsUntilWoken` | src/core/daemon/CooperativeSessionRunner.cpp:105-151 | after a yield for input, as long as the session does not yield again, it is waiting exactly when no step since has woken it: a resume, a retirement, or the end of its exclusive section while the token is free |
| `Scheduler.NoTokenBeforeWake` | src/core/daemon/CooperativeSessionRunner.cpp:105-122 | a session that yielded for input neither holds nor can take the token, in either way, in any run before such a step |
| `Scheduler.ResumeCounts` | src/core/daemon/CooperativeSessionRunner.cpp:118-122 | a resume that comes while the session waits lets it take the token whenever the token is free afterwards |
| `Scheduler.EarlyResumeIsLost` | src/core/daemon/CooperativeSessionRunner.cpp:105-122 | in every state, a resume before the yield leaves exactly the state the yield alone leaves |
| `Scheduler.SessionRunner.Collect` | src/core/daemon/CooperativeSessionRunner.cpp:17-30 | collects the recorded runnable sessions, and the requester if it is runnable |
| `Scheduler.SessionRunner.NextRunnable` | src/core/daemon/CooperativeSessionRunner.cpp:17-41 | collect, sort and scan yields the candidate at the least cyclic distance after the session served last |
| `Scheduler.SessionRunner.TestAcquire` | src/core/daemon/CooperativeSessionRunner.cpp:43-53 | the acquire test |
| `Scheduler.SessionRunner.GrantAcquire` | src/core/daemon/CooperativeSessionRunner.cpp:62-73 | takes a free token or nests one level deeper |
| `Scheduler.SessionRunner.TryAcquire` | src/core/daemon/CooperativeSessionRunner.cpp:75-79 | takes the token exactly when the test holds |
| `Scheduler.SessionRunner.TryAcquireAfterInputWake` | src/core/daemon/CooperativeSessionRunner.cpp:55-85 | takes the token after input without regard to the cyclic order |
| `Scheduler.SessionRunner.ReleaseToken` | src/core/daemon/CooperativeSessionRunner.cpp:87-103 | refused for a non-holder; the outermost release frees the token |
| `Scheduler.SessionRunner.Yield` | src/core/daemon/CooperativeSessionRunner.cpp:105-116 | frees the token at any depth and marks the session waiting |
| `Scheduler.SessionRunner.ResumeSession` | src/core/daemon/CooperativeSessionRunner.cpp:118-122 | marks the session runnable |
| `Scheduler.SessionRunner.RetireSession` | src/core/daemon/CooperativeSessionRunner.cpp:124-133 | forgets the session and frees its token |
| `Scheduler.SessionRunner.LeaveExclusive` | src/core/daemon/CooperativeSessionRunner.cpp:135-151 | ends an exclusive section, also one that yielded |
| `Framing.DecodeEncode` | src/core/daemon/DaemonIpcProtocol.cpp:95-124 | a frame survives encoding exactly when its payload is within 65536 bytes |
| `Framing.EncodeDecode` | src/core/daemon/DaemonIpcProtocol.cpp:106-124 | whatever decodes is the encoding of its frame, possibly followed by more bytes |
| `Framing.DataRoundTrip` | src/core/daemon/DaemonIpcProtocol.cpp:312-330 | session data payloads are exactly the encodings of at most 65532 bytes |
| `Framing.MoreBytes` | src/core/daemon/DaemonIpcProtocol.cpp:42-58 | more bytes never change the answer about the first frame |
| `Framing.CompleteDecodes` | src/core/daemon/DaemonIpcProtocol.cpp:160-202 | a complete frame always decodes |
| `Framing.ChunkingDoesNotMatter` | src/core/daemon/DaemonIpcProtocol.cpp:160-202 | in whatever pieces a wire arrives, try-reads return its frames in order without error and the rest stays buffered |
| `Framing.ExactlyTheFrames` | src/core/daemon/DaemonIpcProtocol.cpp:160-202 | any split of the wire followed by enough polls returns exactly the frames sent and leaves nothing |
| `Framing.FrameReader.TryRead` | src/core/daemon/DaemonIpcProtocol.cpp:160-202 | drains the socket, then takes one frame; at end of file buffered bytes are not decoded |
| `Channel.ExactlyOnce` | src/core/daemon/IpcSessionChannel.cpp:131-234 | after any sequence of session writes and flushes, with any short or refused socket writes and any writes during a flush: per stream, bytes sent plus pending wire are complete frames of 1 to 65532 data bytes whose data followed by the unsent queue is what was written; no diagnostic byte was sent while an output frame was half sent |
| `Channel.FlushKeepsInv` | src/core/daemon/IpcSessionChannel.cpp:131-184 | one flush keeps that |
| `Channel.LaneDelivers` | src/core/daemon/IpcSessionChannel.cpp:200-234 | flushing one queue keeps exact delivery, whatever the socket takes |
| `Channel.WriteDelivers` | src/core/daemon/IpcSessionChannel.cpp:293-303 | writing keeps exact delivery, also while a chunk in front is in flight |
| `Channel.ClientReceives` | src/core/daemon/DaemonIpcProtocol.cpp:160-202 | a client reading one stream in any pieces gets, without error, frames of that stream whose data is a prefix of what the session wrote |
| `Channel.FlushSplits` | src/core/daemon/IpcSessionChannel.cpp:143-158 | a flush puts output bytes inside a diagnostic frame exactly when, before it, a diagnostic frame is half sent, output is waiting (with what sessions write before the flush takes the lock), and the socket takes a positive count before it refuses or ends |
| `Channel.LaneSends` | src/core/daemon/IpcSessionChannel.cpp:186-234 | flushing a queue sends something exactly when something waits and the socket takes some |
| `SharedSocket.OneWire` | src/core/daemon/IpcSessionChannel.cpp:131-184 | over every run without such a split, all bytes the socket took on both streams together, completed by the frame in flight, are whole frames |
| `SharedSocket.BothStreamsArrive` | src/core/daemon/DaemonIpcProtocol.cpp:160-202 | then one client on the shared socket, reading in any pieces, gets no error and on each stream a prefix of what the session wrote there |
| `Channel.OutputSplitsDiagnostic` | src/core/daemon/IpcSessionChannel.cpp:143-158 | two writes and two flushes in which that happens |
| `Channel.WholeOrHalf` | src/core/daemon/IpcSessionChannel.cpp:200-234 | complete frames have been sent exactly when no frame is half sent |
| `Channel.FramesDelimit` | src/core/daemon/DaemonIpcProtocol.cpp:42-58 | complete frames at the front of a wire are its first frames |
| `Channel.FlushWireBuffer` | src/core/daemon/IpcSessionChannel.cpp:186-198 | writes until the wire is empty or the socket refuses |
| `Channel.FlushQueue` | src/core/daemon/IpcSessionChannel.cpp:200-234 | finishes the frame in flight, then frames the rest in chunks |
| `Channel.SessionChannel.WriteOutputBytes` | src/core/daemon/IpcSessionChannel.cpp:293-303 | appends to the queue of the stream |
| `Channel.SessionChannel.FlushOutputLane` | src/core/daemon/IpcSessionChannel.cpp:132-158 | the output lane is taken out, sent, and put back in front of what was written meanwhile |
| `Channel.SessionChannel.FlushDiagnosticLane` | src/core/daemon/IpcSessionChannel.cpp:160-182 | the same for diagnostics |
| `Channel.SessionChannel.FlushPendingOutput` | src/core/daemon/IpcSessionChannel.cpp:131-184 | alternates both lanes until nothing is left or the socket refuses, and keeps exact delivery |
| `Binding.RunKeeps` | src/core/daemon/DaemonIpcServer.cpp:125-356 | on every run an attached connection is handshaken and owns a channel, the bound ports are exactly the ports attached by live connections, each by one connection through its own channel, and belong to sessions |
| `Binding.StepKeeps` | src/core/daemon/DaemonIpcServer.cpp:125-356 | every event keeps this, including failed acknowledgements and dropped sockets |
| `Binding.AttachExactly` | src/userland/tcl/GeminiDaemonRunner.cpp:257-294 | attaching to an existing session succeeds exactly when no live connection has its port |
| `Binding.IpcServer.DispatchFrame` | src/core/daemon/DaemonIpcServer.cpp:186-356 | version check, handshake first, then the message; says whether to close |
| `Binding.IpcServer.AttachAt` | src/core/daemon/DaemonIpcServer.cpp:273-311 | binds on acceptance and unbinds again when the acknowledgement cannot be written |
| `Binding.IpcServer.DetachAt` | src/core/daemon/DaemonIpcServer.cpp:125-138 | unbinds the port and drops the channel |
| `Binding.IpcServer.RemoveAt` | src/core/daemon/DaemonIpcServer.cpp:148-155 | unbinds before the connection disappears |
| `Binding.IpcServer.Serve` | src/core/daemon/DaemonIpcServer.cpp:186-356 | one frame, with removal when asked for, keeps the invariant |
| `Binding.IpcServer.Drop` | src/core/daemon/DaemonIpcServer.cpp:148-155 | a dropped socket keeps the invariant |
| `Binding.DaemonRunner.AttachTo` | src/userland/tcl/GeminiDaemonRunner.cpp:257-294 | creates or finds the session, refuses a bound port, binds port and channel |
| `Binding.DaemonRunner.Detach` | src/userland/tcl/GeminiDaemonRunner.cpp:296-316 | unbinds port and channel and keeps the session |
| `Ports.PortManager.Allocate` | src/core/daemon/PortManager.cpp:8-21 | fails only when full; otherwise the lowest free positive port, at most the maximum; port 0 exactly when it is free and the hint is 0 |
| `Ports.PortManager.Release` | src/core/daemon/PortManager.cpp:23-29 | frees the port and lowers the hint |
| `Ports.Session` | src/core/daemon/PortManager.cpp:8-29 | over every sequence of requests that gives back positive ports the answers are those of a search for the lowest free port, and ports in use stay between 1 and the maximum |
| `Ports.LowestFreeExists` | src/core/daemon/PortManager.cpp:8-21 | with fewer than the maximum in use the lowest free port is at most the maximum |
| `Ports.ServesUnique` | src/core/daemon/PortManager.cpp:8-29 | the reference leaves no choice: each request has one answer and one new state |
| `Records.JoinSplit` | src/core/filesystem/RecordAttribute.cpp:8-32 | joining after splitting is the identity on every text |
| `Records.SplitJoin` | src/core/filesystem/RecordAttribute.cpp:8-32 | splitting after joining mark-free values is the identity |
| `Records.ToRawFromRaw` | src/core/filesystem/StructuredRecord.cpp:33-59 | writing out a loaded record gives every text back |
| `Records.WriteEffect` | src/core/filesystem/StructuredRecord.cpp:26-45 | what every attribute holds after a write of any text: each newline starts another attribute |
| `Records.WriteThenRead` | src/core/filesystem/StructuredRecord.cpp:26-45 | a written attribute reads back exactly when the text has no newline and the attribute is at most one past the last, or the text is empty; other attributes are then unchanged; further out it lands next to the last |
| `Records.WriteSubvalueThenRead` | src/core/filesystem/FileSystem.cpp:367-389 | a written value reads back exactly when the text has no mark and no newline and the attribute is at most one past the last, or the text is empty; every other value and attribute is then unchanged |
| `Records.ReplaceValueEffect` | src/core/filesystem/FileSystem.cpp:379-387 | what every value holds after replacing one by any text; the value reads back exactly when the text has no mark, and then all others are unchanged |
| `Records.MatRoundTrip` | src/core/vm/Runtime.cpp:805-848 | MAT WRITE then MAT READ restores an array of strings exactly when no element has a newline and it is not a single empty element |
| `Records.SplitValues` | src/core/filesystem/RecordAttribute.cpp:19-32 | one pass with an accumulator computes the split |
| `Records.JoinValues` | src/core/filesystem/RecordAttribute.cpp:8-17 | the loop computes the join |
| `Records.Load` | src/core/filesystem/StructuredRecord.cpp:47-59 | line-by-line loading with the extra empty attribute after a final newline |
| `Records.StructuredRecord.ToText` | src/core/filesystem/StructuredRecord.cpp:33-45 | attributes in ascending order separated by newlines |
| `Records.StructuredRecord.Set` | src/core/filesystem/StructuredRecord.cpp:26-31 | sets a positive attribute and ignores others |
| `FileStore.Isolated` | src/core/filesystem/FileSystem.cpp:41-67 | in every interleaving in which the owner keeps its lock, the content of a locked record is what the owner's accesses alone make of it |
| `FileStore.OthersRefused` | src/core/filesystem/FileSystem.cpp:205-277 | while a record is locked no access of another session to it succeeds or changes anything |
| `FileStore.LockStays` | src/core/locking/LockTable.cpp:38-129 | an access takes a lock away exactly when its owner releases it, logs off or deletes a record that is there, or the file is deleted, existing or not |
| `FileStore.UntouchedStays` | src/core/filesystem/FileSystem.cpp:262-270 | from a successful READU or WRITEU on, an untouched record keeps its content |
| `FileStore.WriteReadsBack` | src/core/filesystem/FileSystem.cpp:205-231 | after a successful write the session reads the text back and every other record is as before |
| `FileStore.DeleteRemoves` | src/core/filesystem/FileSystem.cpp:233-252 | a deleted record is missing, its owner's lock is gone and every other record is as before |
| `FileStore.LockWithoutRecord` | src/core/filesystem/FileSystem.cpp:262-265 | a READU that gets its lock, also on a missing record or file, excludes every other session at every point of every run that keeps the lock, and the record then changes only by its owner |
| `FileStore.FailedDeleteUnlocks` | src/core/filesystem/FileSystem.cpp:91-121 | deleting a file that does not exist fails, and yet any session can then lock its records and excludes whoever held the lock, at every point of every run that keeps it |
| `FileStore.FileSystem.ReadText` | src/core/filesystem/FileSystem.cpp:169-203 | order of checks: names, file, lock, record |
| `FileStore.FileSystem.WriteText` | src/core/filesystem/FileSystem.cpp:205-231 | stores the canonical form, which is the text itself |
| `FileStore.FileSystem.ReadTextU` | src/core/filesystem/FileSystem.cpp:262-265 | lock first, then read |
| `FileStore.FileSystem.WriteTextU` | src/core/filesystem/FileSystem.cpp:267-270 | lock first, then write |
| `FileStore.FileSystem.DeleteText` | src/core/filesystem/FileSystem.cpp:233-252 | deletes and releases the owner's lock |
| `FileStore.FileSystem.ReleaseText` | src/core/filesystem/FileSystem.cpp:272-277 | only with locking on and by the owner |
| `FileStore.FileSystem.DeleteWholeFile` | src/core/filesystem/FileSystem.cpp:91-121 | releases the locks of the file before anything else |
| `FileStore.FileSystem.WriteAttributeValue` | src/core/filesystem/FileSystem.cpp:355-365 | reads, replaces one attribute, writes back; a missing record counts as empty |
| `FileStore.FileSystem.WriteSubvalue` | src/core/filesystem/FileSystem.cpp:367-389 | reads, pads and replaces one value, writes back; refuses index zero and below |
| `Locks.LockTable.TryAcquire` | src/core/locking/LockTable.cpp:38-65 | takes or renews a lock, reports another owner, refuses empty names |
| `Locks.LockTable.Release` | src/core/locking/LockTable.cpp:67-89 | only the owner releases; empty files disappear |
| `Locks.LockTable.ReleaseAllForSession` | src/core/locking/LockTable.cpp:91-114 | removes exactly the locks of the session and counts them |
| `Locks.LockTable.ReleaseAllForFile` | src/core/locking/LockTable.cpp:116-129 | removes exactly the locks of the file and counts them |
| `Locks.LockTable.Lookup` | src/core/locking/LockTable.cpp:131-147 | finds the entry of a file and record |
| `ProcLoops.BuildLoopPairs` | src/userland/proc/ProcInterpreter.cpp:402-434 | succeeds exactly when LOOP and REPEAT balance; then both tables hold exactly the matching pairs, as inverses of each other |
| `ProcLoops.MatchUnique` | src/userland/proc/ProcInterpreter.cpp:402-434 | a LOOP has one REPEAT and a REPEAT one LOOP |
| `ProcLoops.ProperlyNested` | src/userland/proc/ProcInterpreter.cpp:402-434 | a loop that begins inside another ends inside it |
| `ProcLoops.FramesAreOpenLoops` | src/userland/proc/ProcInterpreter.cpp:494-641 | in every run, under any jumps, after each synchronization the frames are a strictly nested chain of matched loops holding the current line: exactly the loops entered through their LOOP with no line outside visited since; all visited lines are in the script |
| `ProcLoops.ExitLeavesInnermost` | src/userland/proc/ProcInterpreter.cpp:610-620 | EXIT leaves the innermost open loop and fails exactly when none is open |
| `ProcLoops.LoopsStayInside` | src/userland/proc/ProcInterpreter.cpp:587-608 | LOOP and REPEAT lead to the first non-blank line of the body, REPEAT also when the loop was entered by a jump |
| `ProcLoops.TurnKeeps` | src/userland/proc/ProcInterpreter.cpp:815-830 | running one line keeps this |
| `ProcLoops.ExecFrames` | src/userland/proc/ProcInterpreter.cpp:503-641 | a statement keeps the frames, enters one loop or leaves the innermost one, and stays within the script |
| `ProcLoops.ProcRunner.SyncLoopFrames` | src/userland/proc/ProcInterpreter.cpp:494-501 | drops the frames that do not hold the line |
| `ProcLoops.ProcRunner.ExitLoop` | src/userland/proc/ProcInterpreter.cpp:610-620 | synchronizes, pops and goes behind the REPEAT |
| `ProcLoops.ProcRunner.ExecStatement` | src/userland/proc/ProcInterpreter.cpp:503-641 | the control commands, with nested IF branches |
| `ProcLoops.ProcRunner.GoOn` | src/userland/proc/ProcInterpreter.cpp:815-821 | skips blank and label lines, then synchronizes |
| `ProcLoops.ProcRunner.RunScript` | src/userland/proc/ProcInterpreter.cpp:815-831 | the main loop follows the specified run |
| `Calendar.FormulaCounts` | src/core/conversion/PickIconv.cpp:34-42 | for every date of every year the closed formula counts the days since 1 January 1970 in the proleptic Gregorian calendar |
| `Calendar.ConsecutiveDays` | src/core/conversion/PickIconv.cpp:34-42 | consecutive dates have consecutive numbers across months, leap years, centuries and eras |
| `Calendar.NumbersOrdered` | src/core/conversion/PickIconv.cpp:34-42 | one date is earlier than another exactly when its number is smaller |
| `Calendar.DayPastMonthEnd` | src/core/conversion/PickIconv.cpp:57-82 | a day past the end of its month, which the reader accepts, counts on into the next month |
| `Calendar.PickEpoch` | src/core/conversion/PickIconv.cpp:11-11 | internal day 0 is 31 December 1967 |
| `Decimals.ParseMdScaled` | src/core/conversion/PickIconv.cpp:118-173 | accepts exactly the decimal texts, and the value is the nearest integer to the number times a power of ten, ties away from zero |
| `Decimals.FirstDroppedDigit` | src/core/conversion/PickIconv.cpp:141-167 | looking at the first dropped digit alone is enough to round |
| `Decimals.FormatReadsBack` | src/core/conversion/PickOconv.cpp:88-110 | the only value a printed number can be read as is the number printed |
| `Decimals.RoundTrip` | src/core/conversion/PickOconv.cpp:88-110 | printing and reading gives every integer back at every number of decimals |
| `Decimals.FormatMdScaled` | src/core/conversion/PickOconv.cpp:88-110 | sign, whole part, point, and exactly as many digits as decimals |

## Left out

- Doubles: arithmetic, comparison, coercion and builtins are one arbitrary host function shared by both meanings, and signed 32-bit overflow is inside it. How a double is printed and read is arbitrary too, except that it prints as one visible word without a free colon.
- The sum of loop variable and step in FOR/NEXT, which the source computes in 32 bits, is unbounded here, on the machine and in direct execution alike.
- Opcodes the BASIC emitter never produces (DUP, CONCAT, MOD, PRINT_INT and similar) stop the modelled machine; the user interrupt flag and INVOKE_BUILTIN are not modelled.
- When one instruction has two faults (a read-only name and an empty stack), which one is reported first; compiled programs never have an empty stack there.
- Error message texts, and null pointers in syntax trees: an expression that is missing cannot be written down in the model.
- Pipeline.CompileAndRun: agreement of the run is promised for programs without a bar in a MAT name, which the statement parser never lets through; Deviations.MatCopyExact shows that a name with a bar does break it.
- Emitter.BytecodeEmitter.EmitFile: the ten file statements share one path over their operand list instead of ten copies.
- The expression tokenizer: tokens carry whether a `<` is glued to the identifier before it; BASIC statement splitting, RENUM, shells, login and boot are string plumbing.
- Scheduler: the re-entrant depth is unbounded here and a 32-bit counter in the source; liveness of input wake-up is not claimed, because a resume before the yield is lost.
- Channel: the input side, the has-pending flag, and acknowledgements the server writes to the same socket directly.
- Reload.CompiledReloads: asks for the variable names the statement parser lets through, and for a program within 32-bit addresses.
- Binding: KILLSESSION, shutdown and worker threads; a created session has a port no session has, as the port allocator gives it.
- Ports: port numbers do not wrap; they stay at most the maximum, so this needs a maximum below the 32-bit range.
- FileStore: record file extensions and cursors; a host failure is a flag that leaves the record as it was, as the write to a temporary file does.
- ProcLoops: variables, output and commands that only go on to the next line are one kind of statement whose success is arbitrary; label collection is given as a map of lines.
- Decimals: accumulators and powers of ten are unbounded here and 64-bit in the source; the print buffer of 64 characters is not modelled.
- Calendar: years are unbounded here; the reader accepts years 1 to 9999. The printing of dates and times is left out.
- ENGLISH sorting, correlatives, language modules and the function registry.
