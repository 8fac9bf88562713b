# Models of the Zen C analyses

Zen C compiles to C. Before it generates code it analyses the program: it checks that no
variable is used after its value was moved away, that every path through a function with a
result returns, that the order of evaluation (which C leaves open) cannot be observed, and
it runs compile-time code in an interpreter. This project models those analyses in Dafny
and proves what they are for, against execution models of the language.

| files | content |
|---|---|
| `Ast`, `Runs`, `RunLaws` | the syntax trees; what a program does at run time under every choice of branches and iteration counts |
| `MoveSpec`, `MoveLaws`, `MoveLoops` | the move checker as functions on sets of MOVED paths; monotonicity for each path, two passes suffice, the second pass hides nothing |
| `MoveReports`, `MoveOrigins`, `MoveSoundness`, `MoveLimits` | which uses are reported, and where MOVED paths come from; soundness over all runs, and programs on which it fails |
| `PlainBodies`, `MoveExactness`, `FalseAlarms` | a run for every report, loops included, and programs with reports that no run bears out |
| `MoveList`, `LoopStates`, `MoveChecker` | the linked lists of move entries, the states a loop collects, and the checker on its mutable fields, proved to do what `MoveSpec` says |
| `ReturnCheck`, `ReturnExact` | the always-returns analysis: what makes it unsound, soundness without that for all bodies, exactness for reachable code |
| `Collision`, `CollisionLaws`, `Sequencing` | the MISRA Rule 13.2 check, exactly when it reports, and why its silence makes the order of operands and arguments irrelevant |
| `ComptimeSpec`, `ComptimeLaws`, `ComptimeFrame`, `ComptimeControl` | the compile-time interpreter as total functions on value trees, its laws, what a statement leaves alone, and which statements run |
| `ComptimeValues`, `Yield`, `Comptime` | the same interpreter on linked scopes, owned blocks of cells and characters, and a growing buffer |
| `Arithmetic`, `ArithmeticLaws`, `ConstFold` | the integer operators and the laws that determine them; the constant folder and its agreement with the interpreter |
| `Escapes`, `Decimal` | the string and number printers and the readers that undo them |
| `Json`, `JsonForms` | the JSON back end and a JSON reader; the compact and the pretty form |

Imperative code is modelled as methods on classes and arrays, each proved against a
function; what the analyses promise is then proved about the functions. The abstract tree
keeps one constructor for each node kind the analyses look at. `own` is the set of the
variables whose type is not Copy.

Found on the way:

* The move checker misses uses of moved variables. A `break` can hide a move
  (`MoveLimits.BreakHidesMove`), and so can a labelled continue
  (`MoveLimits.LabelledContinueHidden`), the step of a `for` behind a continue
  (`MoveLimits.StepAfterContinueHidden`), an assignment inside a loop to a variable moved
  before it (`MoveLimits.ReinitialisedInLoop`) and an assignment in the right operand of `&&`
  or `||` (`MoveLimits.SkippedAssignmentHidden`). A moved variable inside an indexed
  assignment target, or as the target of a compound assignment, is not reported either
  (`MoveLimits.IndexedTargetHidden`, `MoveLimits.CompoundTargetHidden`). With breaks, two
  passes are not enough (`MoveLimits.BreaksDefeatTwoPasses`).
* The move checker also reports uses that no run bears out. Behind a loop that never comes
  back to its head a move in its body still counts (`FalseAlarms.NeverBackAlarm`); in
  unreachable code a loop, a continue and a match without a default arm are taken for
  reachable (`FalseAlarms.DeadLoopAlarm`, `FalseAlarms.DeadContinueAlarm`,
  `FalseAlarms.DeadMatchAlarm`), and so is the code behind `for (;;)`
  (`FalseAlarms.EndlessForAlarm`); a variable assigned in both branches of an `if` counts as
  moved behind it (`FalseAlarms.RevivedInBothAlarm`); and the second pass over a loop
  misjudges what is behind the breaks of a nested one (`FalseAlarms.BreakAlarm`). Without
  these every report is a fault of some run (`MoveExactness.NoFalseAlarm`).
* A body may be accepted as always returning although it falls off its end, because a branch
  that ends in a call counts as a result (`ReturnCheck.ValuedBranchFallsThrough`). This rule
  is the only reason: without it no accepted body falls off its end
  (`ReturnCheck.StrictBodyReturns`), and a loop-free accepted body falls off its end exactly
  when it was needed (`ReturnCheck.AcceptedBodyFallsOff`).
* The search for exit breaks takes a label of a nested loop for the outer loop of the same
  label (`ReturnExact.ShadowedLabel`), and `for (;;)` is never accepted
  (`ReturnExact.EndlessForRejected`). Otherwise the analysis is exact on reachable code, with
  loops and labelled breaks (`ReturnExact.ExactWithLoops`).
* The collision check does not look inside casts (`Sequencing.CastHidesCollision`) and
  forgets every read after the 32nd (`Sequencing.FullSetHidesCollision`). It counts the left
  side of a comparison whose operator contains `=` as modified (`CollisionLaws.CollectedExactly`),
  and it reports `x = ++x`, which no order changes (`CollisionLaws.StepIntoItself`).
* JSON output is not JSON exactly when a character literal is a quote, a backslash or a
  control character, a string holds a control character that is not escaped, or a float
  is infinite or not a number (`Json.DocumentReads`).
* A program without `loop` that is accepted has kept to the step limit
  (`ComptimeLaws.StepLimitReported`). A `loop` is left without an error only by running past
  the limit (`ComptimeLaws.LoopLeftPastLimit`), so that nothing that is accepted comes behind
  one (`ComptimeLaws.NothingAfterLoop`); the program `loop {}` is accepted
  (`ComptimeLaws.EndlessLoopAccepted`).
* The arguments of a compile-time function are evaluated in the scope of the callee. A
  variable as an argument is an error, or is silently read from the parameters bound before
  it, but never from the caller (`ComptimeLaws.VariableArgument`); an argument that mentions
  no variable is not affected (`ComptimeLaws.ClosedArgument`).
* An array declared without an initialiser holds null elements, although the comment at
  `src/analysis/comptime_interpreter.c:904` calls it zero-initialised: arithmetic on an
  element fails until the element was assigned (`ComptimeFrame.DeclaredElementIsNull`).
* A range loop leaves the names in scope as they were if its body declares nothing
  (`ComptimeLaws.StillRangeRestoresScope`); if the body is a declaration, the loop
  variables of all rounds stay behind (`ComptimeLaws.RangeVariablesStay`).

## Model

| member | source | states |
|---|---|---|
| MoveLaws.CheckMonotone | src/analysis/typecheck.c:214-422 | for each path on its own: starting any statement with the path MOVED in more states can only leave it MOVED in more states and visits, with the same visits in the same order |
| MoveLaws.LoopMonotone | src/analysis/typecheck_stmt.c:544-831 | the same for the whole two-pass analysis of a loop, although the two starts may differ in whether the second pass takes place |
| MoveLoops.TwoPassesSuffice | src/analysis/typecheck_stmt.c:699-762 | without recorded breaks, the next-iteration map applied to its own result gives that result again: a third pass would start where the second did, visit the same states and report nothing new |
| MoveLoops.UsesExplained | src/analysis/move_check.c:298-335 | a MOVED use that stays unreported is one that the surrounding second pass was told to pass over, or the same use is reported elsewhere in the log |
| MoveLoops.SecondPassHidesNothing | src/analysis/move_check.c:314-330 | every use the second pass is silent about, because its path was MOVED at loop start, is reported at the same program point in the first pass |
| MoveLoops.NothingHidden | src/analysis/typecheck_stmt.c:544-831 | in a whole break-free statement every use of a MOVED path has a report of that path at that line |
| MoveSoundness.CheckKeeps | src/analysis/typecheck_stmt.c:544-831 | a path MOVED before a statement that does not re-initialise it is MOVED in its final state and in every state it collects from continues |
| MoveSoundness.IterationsSound | src/analysis/typecheck_stmt.c:699-762 | from any run state that the loop-head state of the second pass covers, all remaining iterations, however many, are free of faults and end covered |
| MoveSoundness.StmtSound | src/analysis/typecheck.c:168-307 | the main invariant: from a covered state a quiet statement runs without a fault, every passing run leaves a reachable, covered state, and every continuing run a covered continue state |
| MoveSoundness.MoveSoundness | src/analysis/typecheck_stmt.c:367-430 | a function body on which the checker reports nothing never reads or moves a moved variable in any run |
| MoveExactness.RunThrough | src/analysis/typecheck.c:244-306 | a statement the checker believes can be passed, loops included, has a run that passes it and agrees with the checker on a chosen path |
| MoveExactness.UseWitness | src/analysis/typecheck_stmt.c:544-831 | each use found MOVED in reachable code, in the first pass over a loop, in the second or behind it, is a fault of some run |
| MoveExactness.NoFalseAlarm | src/analysis/typecheck_stmt.c:367-430 | every report made in reachable code of a body without breaks is a real fault, if its loops come back, its unreachable code is simple and no `if` assigns a moved variable in all branches |
| MoveExactness.OneRound | src/analysis/typecheck_stmt.c:699-713 | a path that is MOVED when the second pass starts, and was not before the loop, is moved by some single iteration |
| MoveExactness.RunToContinue | src/analysis/typecheck.c:943-949 | a path MOVED in the states collected from continues is moved in some run that ends in a continue |
| PlainBodies.EndlessIsDead | src/analysis/typecheck_stmt.c:805-811 | behind a `loop` without breaks nothing is reachable, from every state |
| PlainBodies.EndOfLoop | src/analysis/typecheck_stmt.c:764-822 | what a loop without breaks leaves: the state of the next iteration, and the surrounding loop's collected states as they were |
| PlainBodies.PassableLives | src/analysis/typecheck.c:244-306 | code that some path leads through, as its text tells, stays reachable in the checker |
| FalseAlarms.NeverBackAlarm | src/analysis/typecheck_stmt.c:764-826 | `while c { f(x); return; } x;` draws a report, and no run has a fault |
| FalseAlarms.DeadLoopAlarm | src/analysis/typecheck_stmt.c:574 | `f(x); return; while c { x; }` draws a report, and no run has a fault |
| FalseAlarms.DeadContinueAlarm | src/analysis/typecheck.c:943-949 | `while c { f(x); return; continue; }` draws a report, and no run has a fault |
| FalseAlarms.DeadMatchAlarm | src/analysis/typecheck.c:390-422 | `f(x); return; match c { } x;` draws a report, and no run has a fault |
| FalseAlarms.RevivedInBothAlarm | src/analysis/typecheck.c:244-306 | `f(x); if c { x = g; } else { x = g; } x;` draws a report, and no run has a fault |
| FalseAlarms.EndlessForAlarm | src/analysis/typecheck_stmt.c:768-776 | `f(x); for (;;) { } x;` draws a report, and no run has a fault |
| FalseAlarms.BreakAlarm | src/analysis/typecheck.c:913-931 | `while a { while c { if d { break; } f(x); return; } x; }` draws a report, and no run has a fault |
| MoveReports.ReportsOfLoop | src/analysis/move_check.c:298-340 | the first pass over a loop-free body reports every use of a MOVED path; the second is silent about paths MOVED when the iterations began and about unknown lines, and about nothing else |
| MoveOrigins.OnlyMovesCount | src/analysis/typecheck_stmt.c:544-831 | a path that no expression of a statement moves is MOVED behind it, or at one of its breaks or continues, only if it was before |
| MoveLimits.BreakHidesMove | src/analysis/typecheck_stmt.c:723 | a program with a break, silent in the checker, with a run that uses a moved variable |
| MoveLimits.ReinitialisedInLoop | src/analysis/typecheck_stmt.c:764-779 | a program that assigns in a loop to a variable moved before it, silent in the checker, with a faulty run of no iterations |
| MoveLimits.IndexedTargetHidden | src/analysis/typecheck_expr.c:317-321 | behind a move of `x` the assignment `x[0] = g` is silent in the checker, with a run that uses the moved variable |
| MoveLimits.CompoundTargetHidden | src/analysis/typecheck_expr.c:317-321 | the same for `x += g`, which reads its target |
| MoveLimits.SkippedAssignmentHidden | src/analysis/typecheck_expr.c:499-520 | an assignment in the right operand of `&&` is taken for executed: the use of a moved variable behind it is silent in the checker, with a faulty run |
| MoveLimits.StepAfterContinueHidden | src/analysis/typecheck.c:943-949 | `for (; c; f(x)) { continue; }` is silent in the checker, with a run that uses a moved variable in the second step |
| MoveLimits.LabelledContinueHidden | src/analysis/typecheck.c:943-949 | a continue that names an outer loop is recorded for the inner one: the checker is silent about a use in the next round, with a faulty run |
| MoveLimits.BreaksDefeatTwoPasses | src/analysis/typecheck.c:913-941 | a loop body with recorded breaks whose next-iteration state of the second pass is not the one of the first |
| MoveList.MoveState.GetStatus | src/analysis/move_check.c:119-140 | MOVED exactly for the paths in the abstract set, VALID for every other path |
| MoveList.MoveState.MarkMoved | src/analysis/move_check.c:92-117 | adds one path to the MOVED set and changes nothing else; the list stays free of duplicates |
| MoveList.MoveState.MarkValid | src/analysis/move_check.c:405-430 | removes one path from the MOVED set and changes nothing else |
| MoveList.MoveState.Clone | src/analysis/move_check.c:21-43 | the same MOVED paths in entries that are all new |
| MoveList.Merge | src/analysis/move_check.c:142-178 | the target's MOVED set becomes the union of its own, a's and b's, also when b is the target itself, and the walks end |
| MoveList.MergeInto | src/analysis/move_check.c:180-204 | a state created on first use, or the union of both; statuses therefore do not depend on the order of the arms |
| LoopStates.LoopStates.CollectBreak | src/analysis/typecheck.c:913-930 | the break state absorbs the current one; the states of a loop stay disjoint lists and the other two are unchanged |
| LoopStates.LoopStates.CollectContinue | src/analysis/typecheck.c:943-949 | the same for the continue state |
| LoopStates.LoopStates.RecordStart | src/analysis/typecheck_stmt.c:622-629 | the start of the loop becomes a clone, apart from the states collected so far |
| MoveChecker.TypeChecker.CheckPathValidity | src/analysis/move_check.c:298-340 | a use is logged with the status the list gives it, reported according to the rule for second passes |
| MoveChecker.TypeChecker.CheckMoveForRvalue | src/analysis/typecheck_expr.c:5-44 | exactly an owning variable used as an rvalue becomes MOVED |
| MoveChecker.TypeChecker.CheckBinary | src/analysis/typecheck_expr.c:300-523 | operands are used first, then the right one is moved, then a variable on the left is valid again |
| MoveChecker.TypeChecker.CheckArgs | src/analysis/typecheck_call.c:222-295 | each argument is used and then moved, left to right |
| MoveChecker.TypeChecker.CheckVarDecl | src/analysis/typecheck_stmt.c:57-165 | the initialiser is used and moved, then the new variable is valid |
| MoveChecker.TypeChecker.CheckBlock | src/analysis/typecheck_stmt.c:4-55 | the statements of a block in order, from state to state |
| MoveChecker.TypeChecker.CheckIf | src/analysis/typecheck.c:214-306 | both branches start from clones; the state before them absorbs exactly those that can be passed |
| MoveChecker.TypeChecker.CheckMatch | src/analysis/typecheck.c:307-423 | every arm starts from a clone; the merged state of the arms that can be passed, and of no arm when there is no default, becomes current |
| MoveChecker.TypeChecker.CheckLoopPasses | src/analysis/typecheck_stmt.c:544-831 | both passes on the heap have the states, collected states, reachability and log of the pure analysis, and the states of the surrounding loop are put back untouched |
| MoveChecker.TypeChecker.CheckStmt | src/analysis/typecheck.c:168-307 | the whole statement walk on shared, mutable states equals the pure one, and the state current before it is still whole |
| MoveChecker.Join | src/analysis/typecheck.c:287-304 | what an `if` merges, in terms of which branches can be passed |
| MoveChecker.CheckFunctionBody | src/analysis/typecheck_stmt.c:367-430 | the checker as it runs, silent on a body, guarantees that no run of the body has a fault |
| ReturnCheck.ExitBreakFound | src/analysis/typecheck_stmt.c:187-252 | if any run of a statement ends in an unlabelled break of the loop or one that names its label, the search for exit breaks finds one |
| ReturnCheck.LoopNeverCompletes | src/analysis/typecheck_stmt.c:248-312 | a `loop` without an exit break never completes normally |
| ReturnCheck.ReturnsSound | src/analysis/typecheck_stmt.c:254-365 | an accepted statement is passed normally only by a run that ended some block with a value statement |
| ReturnCheck.BodyReturns | src/analysis/typecheck_stmt.c:254-365 | every finished run of an accepted body returned or ended a block with a value statement |
| ReturnCheck.StrictBodyReturns | src/analysis/typecheck_stmt.c:254-365 | for all bodies, loops and labelled breaks included: accepted without the rule that a value statement may end a block, a body never falls off its end; a finished run has returned |
| ReturnCheck.ExactWithoutLoops | src/analysis/typecheck_stmt.c:254-365 | without loops a body is accepted without that rule if and only if no run falls off its end |
| ReturnCheck.AcceptedBodyFallsOff | src/analysis/typecheck_stmt.c:254-365 | a loop-free accepted body has a run that falls off its end exactly when the rule was needed to accept it; a rejected one always has such a run |
| ReturnCheck.StrictNeverPasses | src/analysis/typecheck_stmt.c:296-365 | the same soundness statement by statement, from any state of a run |
| ReturnExact.ExitBreakExact | src/analysis/typecheck_stmt.c:187-252 | in reachable code with distinct labels the search finds an exit break if and only if some run leaves by one: an unlabelled break of a nested loop does not count |
| ReturnExact.EndlessLoopExact | src/analysis/typecheck_stmt.c:302-310 | a `loop` is accepted if and only if no run completes it |
| ReturnExact.ExactWithLoops | src/analysis/typecheck_stmt.c:254-365 | a reachable body, loops and labelled breaks included, is accepted without the rule for value statements if and only if no run falls off its end |
| ReturnExact.ShadowedLabel | src/analysis/typecheck_stmt.c:195-201 | a loop that is rejected although no run completes it, because a nested loop has its label |
| ReturnExact.EndlessForRejected | src/analysis/typecheck_stmt.c:302-314 | `for (;;) { }` is rejected although no run completes it |
| ReturnExact.ValueEndsBody | src/analysis/typecheck_stmt.c:340-365 | a body that ends with an expression or a match is accepted, whatever stands before it |
| ReturnCheck.ValuedBranchFallsThrough | src/analysis/typecheck_stmt.c:254-365 | an accepted body with a run that falls off its end |
| Collision.SymbolSet.Add | src/analysis/typecheck_utils.c:127-133 | appends while there is room for 32 |
| Collision.SymbolSet.Meets | src/analysis/typecheck_utils.c:196-220 | true exactly when the two sets share an entry |
| Collision.CollectSymbols | src/analysis/typecheck_utils.c:115-182 | the filled sets are the first 32 of what they held followed by the reads and writes of the expression in order |
| Collision.CheckSideEffectCollision | src/analysis/typecheck_utils.c:183-247 | reports exactly when a write of one operand meets a write or read of the other |
| Collision.CheckAssignment | src/analysis/typecheck_expr.c:328-397 | reports exactly when the right side modifies the target or what the target modifies |
| Collision.CheckAllArgsSideEffects | src/analysis/typecheck_utils.c:249-316 | reports exactly when some argument collides with what the receiver and the arguments before it touch |
| Collision.CheckExpression | src/analysis/typecheck_expr.c:300-397 | true exactly when some operator or call in the expression is reported, inside arguments, indexes and casts as well |
| CollisionLaws.CollectedExactly | src/analysis/typecheck_utils.c:115-182 | the collected writes are exactly the variables that are stepped or stand to the left of an operator with an equals sign, the collected reads exactly those that occur, both outside casts and indexes |
| CollisionLaws.OperandsReported | src/analysis/typecheck_utils.c:183-247 | while no set is full, operands are reported if and only if one of them modifies a variable that the other mentions |
| CollisionLaws.AssignmentReported | src/analysis/typecheck_expr.c:328-382 | an assignment to a variable is reported if and only if its right side modifies that variable; reading it does not count |
| CollisionLaws.QuietRightSide | src/analysis/typecheck_expr.c:354-382 | an assignment whose right side modifies nothing is never reported |
| CollisionLaws.CallReported | src/analysis/typecheck_utils.c:249-316 | while no set is full, a call is reported if and only if two of its receiver and arguments conflict |
| CollisionLaws.SetHoldsThirtyTwo | src/analysis/typecheck_utils.c:163-168 | a conflict with the 32nd read is still reported |
| CollisionLaws.ExpressionReported | src/analysis/typecheck_expr.c:300-397 | while no set is full, an expression draws a report if and only if somewhere in it two operands, two arguments or an assignment and its right side conflict; `&&` and `||` draw none |
| CollisionLaws.AlwaysModifies | src/analysis/typecheck_utils.c:115-182 | where evaluation takes no branch, every variable said to be modified is changed, under every order and in every store |
| CollisionLaws.ReportedAssignmentShows | src/analysis/typecheck_expr.c:354-382 | whether the order in which the two changes of a reported assignment land can be seen: if and only if they leave different values |
| CollisionLaws.StepIntoItself | src/analysis/typecheck_expr.c:354-382 | `x = x++` depends on the order in every store, `x = ++x` in none, and both are reported |
| CollisionLaws.ReportedSumShows | src/analysis/typecheck_utils.c:183-247 | a variable added to a step of itself is reported, and its value depends on the order in every store |
| Sequencing.WritesAreCollected | src/analysis/typecheck_utils.c:115-182 | under any order an evaluation changes only variables that are collected as writes |
| Sequencing.OnlyReadsMatter | src/analysis/typecheck_utils.c:115-182 | an evaluation gives the same effect in any two stores that agree on the variables collected as reads |
| Sequencing.OperandOrderIrrelevant | src/analysis/typecheck_expr.c:328-397 | without a report, and with at most 32 reads and writes in each operand that is compared, value and final store are the same whichever operand each operator evaluates first and whenever the side effects land |
| Sequencing.SilentCallIndependent | src/analysis/typecheck_utils.c:249-316 | silence of the cumulative check makes the arguments independent of each other, pair by pair |
| Sequencing.EachActsAlone | src/analysis/typecheck_utils.c:249-316 | evaluated in any turn, each argument has the value and the writes it has on its own |
| Sequencing.ArgumentOrderIrrelevant | src/analysis/typecheck_utils.c:249-316 | any two permutations of receiver and arguments, under any inner orders, give the same values and the same store |
| Sequencing.CastHidesCollision | src/analysis/typecheck_utils.c:178-181 | an expression that passes the check and whose value depends on the order, because of a cast |
| Sequencing.FullSetHidesCollision | src/analysis/typecheck_utils.c:163-168 | for every n of at least 31, an expression of n + 3 operands that passes the check and whose value depends on the order |
| Yield.YieldBuffer.Append | src/analysis/comptime_interpreter.c:268-294 | the text grows by exactly the argument and stays NUL-terminated in a buffer of 4096 times a power of two; it fails, changing nothing, exactly when the total would exceed 2^20 - 1 |
| Yield.YieldBuffer.NewCapacity | src/analysis/comptime_interpreter.c:276-287 | the smallest capacity with room, past the limit only if the need is |
| Escapes.UnescapeCString | src/analysis/comptime_interpreter.c:151-195 | the output array of one cell more than the text never overflows and holds the unescaped text and a terminator |
| Escapes.ReadHex | src/analysis/comptime_interpreter.c:170-178 | at most two hexadecimal digits, read as a number of one byte |
| Escapes.ReadOctal | src/analysis/comptime_interpreter.c:179-187 | at most three octal digits, reduced to a byte |
| Escapes.Emitter.CodegenLiteral | src/codegen/codegen_expr_core.c:76-116 | the text between quotes, escaped exactly for raw literals |
| Escapes.Emitter.JsonEscape | src/codegen/codegen_backend_json.c:129-163 | null, or the escaped text between quotes |
| Escapes.EscapeRoundTrip | src/analysis/comptime_interpreter.c:151-195 | unescaping the escaped text gives every string back |
| Escapes.LiteralEndsAtItsQuote | src/codegen/codegen_expr_core.c:80-116 | whatever follows, the first unescaped quote after the opening one is the closing one |
| Escapes.PrintedLiteralIsReadBack | src/codegen/codegen_expr_core.c:80-116 | a printed string followed by any text is read back as it was |
| Escapes.NoBareControl | src/codegen/codegen_backend_json.c:136-161 | newline, return and tab never appear bare in printed text, and any other control character was in the original |
| Escapes.EscapeCodes | src/analysis/comptime_interpreter.c:118-141 | each one-letter escape stands for its ASCII control character (section 5.2.2 of C11) or for the escape character; any other letter for itself |
| Escapes.HexReadsBack | src/analysis/comptime_interpreter.c:170-178 | every byte written with two hexadecimal digits, in either case, is read back |
| Escapes.OctalReadsBack | src/analysis/comptime_interpreter.c:179-187 | every byte written with three octal digits is read back |
| Decimal.DigitsReadBack | src/analysis/comptime_interpreter.c:709-713 | a printed number reads back as itself and has no leading zero |
| Decimal.TextReadsBack | src/analysis/comptime_interpreter.c:709-713 | every integer reads back from its text, sign included |
| Json.EmitNode | src/codegen/codegen_backend_json.c:280-555 | a separator unless the node is the first, indentation in the pretty form, then the node with its attributes and children; later nodes are no longer first |
| Json.EmitNamedChildren | src/codegen/codegen_backend_json.c:198-227 | nothing for an empty list, otherwise the key and the bracketed, comma-separated children |
| Json.EmitProgram | src/codegen/codegen_backend_json.c:557-563 | the whole document, in either form |
| Json.EscapedReads | src/codegen/codegen_backend_json.c:129-163 | a JSON reader gets an escaped string back if it has no control characters but newline, return and tab, and otherwise rejects it |
| Json.AttributeReads | src/codegen/codegen_backend_json.c:384-428 | a printed attribute is read as that member if its value can be printed as JSON; otherwise the object is rejected, whatever the back end prints behind it |
| Json.NodeReads | src/codegen/codegen_backend_json.c:280-555 | a printed node is read as the object the tree stands for if and only if the whole tree below it is clean |
| Json.DocumentReads | src/codegen/codegen_backend_json.c:280-563 | for every tree, in both forms: the output is a JSON text if and only if no literal below is a quote, a backslash, an unescaped control character or a float that is not finite; it then says what the tree says |
| Json.NumberReads | src/codegen/codegen_backend_json.c:390-396 | a printed number, with sign, fraction and exponent, is read back as itself |
| JsonForms.NodeSqueezed | src/codegen/codegen_backend_json.c:280-555 | taking the white space outside strings out of a pretty node gives the compact node |
| JsonForms.FormsDifferInSpace | src/codegen/codegen_backend_json.c:557-563 | the pretty and the compact form of a whole document differ only by white space outside strings |
| JsonForms.IndentIsBlank | src/codegen/codegen_backend_json.c:165-196 | each level of the pretty form is indented by two more blanks |
| ComptimeSpec.Eval | src/analysis/comptime_interpreter.c:842-883 | an expression leaves every binding of the scope and the call depth (at most 64) as they were, only adds output, and cannot hang in a program whose `for` loops advance; the recursion ends by the step budget alone |
| ComptimeSpec.Exec | src/analysis/comptime_interpreter.c:1041-1209 | a statement leaves the scope it started with as a suffix, with the same names in order, restores the depth, uses at least one step and cannot hang if its `for` loops advance |
| ComptimeSpec.CallFn | src/analysis/comptime_interpreter.c:742-807 | on every exit of a call the caller's bindings and depth are back |
| ComptimeSpec.RangeRound | src/analysis/comptime_interpreter.c:1138-1164 | one round of a range loop keeps the scope around it as a suffix, whichever entry its pop removes |
| ComptimeLaws.AlwaysStops | src/analysis/comptime_interpreter.c:1041-1199 | a program whose `for` loops all have a condition, a body or a step never hangs |
| ComptimeLaws.EmptyForHangs | src/analysis/comptime_interpreter.c:1095-1129 | a `for` with none of the three does |
| ComptimeControl.IfTakesBranch | src/analysis/comptime_interpreter.c:993-1029 | an `if` whose condition folds to something else than 0 has the effect of its then-statements, with 0 that of its else-statements |
| ComptimeControl.OtherConditionIsFalse | src/analysis/comptime_interpreter.c:1003 | a string, an array or null as a condition counts as false |
| ComptimeControl.AssertDecides | src/analysis/comptime_interpreter.c:1055-1069 | an assertion is an error exactly when its condition folds to 0 |
| ComptimeControl.WhileStops | src/analysis/comptime_interpreter.c:1168-1185 | a `while` whose condition folds to 0 changes nothing but the step count |
| ComptimeControl.WhileGoesOn | src/analysis/comptime_interpreter.c:1168-1185 | with any other condition it has the effect of its body and then of the same loop |
| ComptimeControl.ForRounds | src/analysis/comptime_interpreter.c:1095-1129 | a `for` runs its body and then its step as long as its condition does not fold to 0 |
| ComptimeControl.RangeYields | src/analysis/comptime_interpreter.c:1130-1166 | `for x in lo..hi { yield(x); }` generates the numbers from lo up to hi in order, each once, with hi exactly when the range is inclusive |
| ComptimeControl.InSequence | src/analysis/comptime_interpreter.c:1031-1039 | a list of statements is its first part and then its second, however it is cut |
| ComptimeControl.PassedOver | src/analysis/comptime_interpreter.c:1201-1207 | a match, a jump, an element and a cast as statements do nothing but cost a step |
| ComptimeControl.OperandsChecked | src/analysis/comptime_interpreter.c:418-586 | which operators have a value for which operands: the logical ones for all, `+` for two strings, the shared others for two integers unless they divide by zero |
| ComptimeControl.FirstReturnEndsBody | src/analysis/comptime_interpreter.c:776-799 | a function body runs up to its first `return` and has the value of the expression there, and null without one |
| ComptimeControl.CallReturns | src/analysis/comptime_interpreter.c:742-807 | a call has the value of the first `return` in a scope that binds each parameter to its argument, and nothing else |
| ComptimeControl.FirstFunctionFound | src/analysis/comptime_interpreter.c:649-658 | a call means the first compile-time function of that name |
| ComptimeControl.EndlessRecursionFails | src/analysis/comptime_interpreter.c:744-749 | `fn f() { return f(); }` is an error by the limit on the depth of calls |
| ComptimeControl.DepthLimit | src/analysis/comptime_interpreter.c:744-749 | a call succeeds exactly when fewer than 64 calls surround it |
| ComptimeControl.NumberYielded | src/analysis/comptime_interpreter.c:705-720 | both names of yield put the decimal text of an integer behind the generated text, or fail if it does not fit |
| ComptimeControl.JoinedTextYielded | src/analysis/comptime_interpreter.c:418-447 | a sum of two literals generates the characters of both |
| ComptimeControl.ErrorAndWarning | src/analysis/comptime_interpreter.c:722-739 | `compile_error` is an error, `compile_warn` is not, and neither generates text |
| ComptimeControl.StringFormChecked | src/analysis/comptime_interpreter.c:669-695 | a builtin refuses a string argument that is an element, a cast or the result of an operator other than `+` |
| ComptimeControl.LiteralRead | src/analysis/comptime_interpreter.c:198-208 | an ordinary literal has the text that was escaped in it, up to its first NUL; a raw one its own characters |
| ComptimeControl.LetBinds | src/analysis/comptime_interpreter.c:885-908 | a declaration binds the folded value of its initialiser, innermost |
| ComptimeControl.IndexChecked | src/analysis/comptime_interpreter.c:809-840 | an element is read exactly when the index lies inside the array, and an error otherwise |
| ComptimeLaws.AssignmentIsLocal | src/analysis/comptime_interpreter.c:910-944 | an assignment gives the innermost variable of that name the value of the right side and leaves every other binding alone; that the linked scopes do this too is `Comptime.CInterp.Assign` |
| ComptimeLaws.ElementAssignmentIsLocal | src/analysis/comptime_interpreter.c:948-991 | an element assignment changes that element of that variable and nothing else; in place, and without touching a copy, by `Comptime.CInterp.AssignElement` |
| ComptimeLaws.CallIgnoresCaller | src/analysis/comptime_interpreter.c:742-807 | value, output and steps of a call are the same whatever the caller has declared; that the saved scope chain comes back whole is `Comptime.CInterp.CallFn` |
| ComptimeLaws.VariableArgument | src/analysis/comptime_interpreter.c:751-769 | at every position: a variable as an argument is an error if no parameter before it has its name, and otherwise has the value of the last such parameter |
| ComptimeLaws.ClosedArgument | src/analysis/comptime_interpreter.c:751-769 | an argument that mentions no variable has the value and the effects it has in the scope of the caller |
| ComptimeLaws.StepLimitReported | src/analysis/comptime_interpreter.c:842-883 | in a program without `loop`, passing the step limit is an error |
| ComptimeLaws.LoopLeftPastLimit | src/analysis/comptime_interpreter.c:1186-1200 | a `loop` is left without an error only by passing the step limit |
| ComptimeLaws.NothingAfterLoop | src/analysis/comptime_interpreter.c:1186-1200 | a statement list that starts with a `loop` and is left without an error has no other statement |
| ComptimeLaws.EndlessLoopAccepted | src/analysis/comptime_interpreter.c:1186-1200 | `loop {}` runs into the step limit without an error and the program is accepted with an empty result |
| ComptimeLaws.StillRangeRestoresScope | src/analysis/comptime_interpreter.c:1130-1166 | if the body declares nothing outside calls, a range loop leaves the names in scope as they were, for every range |
| ComptimeLaws.RangeVariablesStay | src/analysis/comptime_interpreter.c:1130-1166 | for every range, a body that is a declaration leaves the loop variables of all rounds in the scope, the last one innermost |
| ComptimeFrame.StatementKeeps | src/analysis/comptime_interpreter.c:1041-1209 | a variable, or one element of an array, that is not assigned in a statement or declared anew holds the same value afterwards, whatever the statement calls, declares or repeats and however it ends |
| ComptimeFrame.DeclaredElementIsNull | src/analysis/comptime_interpreter.c:885-908 | after `let a: int[n]` and any statements that do not assign it, element k is read as null for every k < n, and adding to it is an error |
| ComptimeFrame.AssignedElementReads | src/analysis/comptime_interpreter.c:948-991 | after an element assignment and any statements that do not assign that element again, it is read as the value assigned |
| ComptimeValues.DeepCopy | src/analysis/comptime_interpreter.c:236-258 | a copy has the same value, owns all its blocks, of cells and of characters, and shares none with anything that existed |
| ComptimeValues.Overwrite | src/analysis/comptime_interpreter.c:983-990 | writing a cell replaces that element and keeps the array disjointly owned |
| Comptime.CInterp.ScopeFind | src/analysis/comptime_interpreter.c:98-108 | the innermost entry of that name, or none |
| Comptime.CInterp.EvalVar | src/analysis/comptime_interpreter.c:332-382 | the value read, string or array, has storage of its own |
| Comptime.CInterp.EvalExpr | src/analysis/comptime_interpreter.c:842-883 | the value and the state of the functional interpreter; the scope and everything stored in it are untouched and the result's storage is new |
| Comptime.CInterp.EvalIndex | src/analysis/comptime_interpreter.c:809-840 | the element, its bounds checks and errors as in the functional interpreter, in storage of its own |
| Comptime.CInterp.Combine | src/analysis/comptime_interpreter.c:418-586 | an operator on two values: joined strings are in a block of their own, everything else has a value without storage |
| Comptime.CInterp.CallFn | src/analysis/comptime_interpreter.c:742-807 | the callee's value and effects, with the caller's scope chain and its storage back in place |
| Comptime.CInterp.CallBuiltin | src/analysis/comptime_interpreter.c:665-740 | the builtin's output or error as in the functional interpreter |
| Comptime.CInterp.Assign | src/analysis/comptime_interpreter.c:910-944 | the chain afterwards stores what the functional interpreter says, each variable in storage of its own |
| Comptime.CInterp.AssignElement | src/analysis/comptime_interpreter.c:973-990 | the same for an assignment to an element, made in place |
| Comptime.CInterp.ExecStmt | src/analysis/comptime_interpreter.c:1041-1209 | every statement has the effect of its functional counterpart and keeps all stored strings and arrays disjointly owned |
| Comptime.CInterp.RangeLoop | src/analysis/comptime_interpreter.c:1138-1165 | the rounds of a range loop, each counted against the step budget, as in the functional interpreter |
| Comptime.InterpretComptime | src/analysis/comptime_interpreter.c:1211-1246 | the generated text of a block, or nothing after an error, as the functional interpreter defines it |
| ConstFold.FolderAgrees | src/analysis/const_fold.c:9-191 | on every well-typed expression over the shared operators, with matching constants and enough steps, folder and interpreter give the same value or both refuse |
| ConstFold.OperatorsAgree | src/analysis/comptime_interpreter.c:480-586 | the two implementations of each shared operator agree on all operands, zero divisors included |
| ArithmeticLaws.FoldedDivision | src/analysis/const_fold.c:80-95 | `/` and `%` of the folder satisfy section 6.5.5 of C11: q * b + m is a, m is smaller than b in magnitude and has the sign of a, q that of the product |
| ArithmeticLaws.InterpretedDivision | src/analysis/comptime_interpreter.c:514-540 | the same for the interpreter |
| ArithmeticLaws.TruncatedUnique | src/analysis/const_fold.c:80-95 | only one quotient and remainder satisfy this |
| ArithmeticLaws.RingLaws | src/analysis/const_fold.c:68-79 | the equations that determine sum, difference and product |
| ArithmeticLaws.ComparisonLaws | src/analysis/const_fold.c:116-139 | comparisons go by the sign of the difference, and exactly one of less, equal and greater holds |
| ArithmeticLaws.LogicalLaws | src/analysis/const_fold.c:140-147 | the logical operators in terms of products of 0 and 1 |
| ArithmeticLaws.UnaryLaws | src/analysis/const_fold.c:164-179 | negation is the additive inverse, `!` tells zero from the rest and `~` flips every bit |
| ArithmeticLaws.ShiftLaws | src/analysis/const_fold.c:96-103 | a shift by one more place doubles, or halves rounding down |
| ArithmeticLaws.BitLaws | src/analysis/const_fold.c:104-115 | the operators on bits, bit by bit |
| ConstFold.RefusedForCause | src/analysis/const_fold.c:9-191 | on well-typed expressions the folder refuses if and only if there is an unknown name or a divisor that folds to zero |
| ConstFold.BooleanArithmeticDiffers | src/analysis/const_fold.c:63-66 | `true + 1` is 2 for the folder and an error for the interpreter |
| ConstFold.CharactersDiffer | src/analysis/const_fold.c:18-24 | a character literal has a value for the interpreter only |

## Left out

- MoveSoundness.MoveSoundness: excluded are bodies with breaks, labelled continues, `for` steps that move, an assignment in a loop to an owning variable declared outside it or in the right operand of `&&` or `||`, and an owning variable inside an indexed or as a compound assignment target; for each of these `MoveLimits` has a program on which the statement is false. Breaks in loops that move nothing from outside are excluded with the others. Excluded too are shadowed names, because runs know variables by name, and tokens without a line, on which second passes are silent.
- MoveExactness.NoFalseAlarm: excluded are labelled continues, shadowed names, an assignment in a loop to an owning variable declared outside it, and what `FalseAlarms` shows to be necessary: breaks, loops that never come back, loops, continues and default-less matches in unreachable code, `for` without a condition, and an `if` all of whose branches assign an owning variable.
- MoveReports.ReportsOfLoop: loops nested in the body report in passes of their own.
- MoveLoops.TwoPassesSuffice: loops with recorded breaks are excluded; `MoveLimits.BreaksDefeatTwoPasses` shows why.
- MoveChecker.TypeChecker.CheckLoopPasses: the three states of a loop are saved and put back as one object.
- MoveChecker.TypeChecker.CheckMoveForRvalue: members as sources of a move and the errors for moving out of a dereference or an index are not modelled.
- MoveList.Merge: the third status (maybe moved) and the parent chain of a move state are not modelled; no code produces the one or follows the other in these operations.
- ReturnExact.ExactWithLoops: code behind a statement that cannot be passed, repeated labels and `for` without a condition are excluded.
- CollisionLaws.AlwaysModifies: excluded are comparisons that contain an equals sign, division, and `&&` and `||`, whose operands may not be evaluated.
- ComptimeControl.IfTakesBranch: conditions are those the folder and the interpreter share, with steps enough to evaluate them; the laws of loops and calls are about the same conditions and about literal arguments and ends.
- ReturnCheck.ReturnsSound: nothing is said of a run in which some block ended with a value statement; `StrictNeverPasses` speaks of all runs.
- ReturnCheck.BodyReturns: as for ReturnsSound; `StrictBodyReturns` speaks of all runs. Goto, defer and calls that do not return are not modelled.
- Json.EmitNode: the attributes and children that a kind of node prints are part of the tree.
- Sequencing.OperandOrderIrrelevant: calls, pointers, indexing and casts are excluded, and operands of more than 32 reads or writes where they are compared; `CastHidesCollision` and `FullSetHidesCollision` show the latter two to be necessary.
- Sequencing.ArgumentOrderIrrelevant: the same exclusions; the 32 entries are counted over all arguments together. Each argument is evaluated as a whole; arguments that interleave are not modelled.
- Collision.CollectSymbols: symbols are names, and every variable has one; an unresolved variable has no symbol in the compiler.
- ConstFold.FolderAgrees: integers are unbounded, so that results outside 64 bits, where C leaves the result open, are not modelled; the same holds for all arithmetic of the interpreter.
- Comptime.InterpretComptime: a program that hangs yields no result in the model, and never returns in the compiler.
- Comptime.CInterp.ExecStmt: releasing memory does nothing in the compiler and is not modelled. The length of a block of characters stands for the terminator of a string.
- ComptimeFrame.StatementKeeps: an index that is no literal counts as an assignment to every element.
- ComptimeSpec.Eval: float literals and the `__COMPTIME_` variables are not modelled, nor is the wording of errors and warnings.
- ComptimeSpec.RangeRound: a range always has two ends and a variable, and an end at the largest 64-bit integer is not modelled.
- Escapes.UnescapeCString: text is a sequence of characters without a terminator inside; characters stand for bytes.
- Shift amounts outside 0 to 63 are taken modulo 64 by the folder's model; C leaves them open.
- Fields, dereferences, ternaries, lambdas, defer, goto, match guards and `.forget()` in the move checker, including moves of parts of a variable.
- Types are known only as owning or not (`own`), as a string-typed first argument and as an array length; type compatibility, alias resolution and lifetimes are not modelled.
- Recursion depth limits of the tree walks.
- Json.DocumentReads: which attributes and children each node kind prints is not modelled, only how they are printed; keys and kinds begin with a letter and need no escape, as all of the compiler's do. How `%g` rounds is not modelled: a float is the number it prints. The reader knows no `\u`, which is never printed.
- All other code generation, parsing, plugins and user interface.
