# scanlib in Dafny

scanlib reads a *scanspec*: a small language that describes the layout of a
program's input (`var n int`, `scan n`, `eol`, `for i 0 n ... end`, `check`,
`if`/`elif`/`else`, `eof`). This project models the core of the repository
and proves properties about the model:

- **The interpreter** (`eval`):
  - kinds and values (`Types`), coercions (`Coerce`), zero values and
    `MakeArray` (`Zero`);
  - the line cursor (`Input`), the error taxonomy and its messages
    (`Errors`), and the builtin functions (`Builtin`);
  - the expression evaluator (`Eval`) and the statement executor (`Exec`,
    with lemmas in `ExecFacts`);
  - the evaluator object that runs them imperatively over its name→slot
    map (`Evaluator`).

  Both revisions of the evaluator are modelled: `eval/evaluator.go`
  (`Current`) and `eval/eval.go` (`Earlier`). A revision flag selects where
  they differ.
- **The AST and the generic walk** (`Ast`, `Walk`). `Walk` turns each node
  into a tree of its children, or into a panic. It is a generic visitor
  traversal, with `Inspect` on top.
- **The Python 3 generator**:
  - the indenting writer (`Writer`);
  - expression printing (`Py3Expr`) and the type tables (`Py3Types`);
  - the four recognisers `analyze` runs on every block (`MultiVar`,
    `OnlyToken`, `ArrayLine`, `SameLine`), with the expression tests they
    use (`ExprMatch`);
  - the older recognisers (`ScanArray`, `ScanSame`, `ScanOne`);
  - the analyzer with its eol finder (`Analyze`);
  - the generator itself (`Py3`), a class whose methods print through the
    writer and update the recorded types and the `linevar` flag.

  `Py3.Generate` is gen/py3/py3.go as written. `Py3.GenerateCorrected` is
  the same generator with the three corrections listed under "Findings". A
  `corrected` flag on the specification functions and on the class selects
  where they differ.

Go panics become `Fail(error)` when the panic value is an error, and
`Crash(message)` for Go's own run-time string panics. The analyzer's maps
are keyed by pointers. In the model each statement and block carries an
explicit `id` instead, which stays the same on every walk (see "Left out"
for where Go's pointers do not). Strings are Go byte strings, with one
`char` per byte. Go's 64-bit `int`/`int64` arithmetic wraps
explicitly (`Types.Wrap64`).

Each imperative Go operation is a method proved against a specification
function. The method's `ensures` ties its new state to that function of
the old state. The lemmas about those functions state what the source
promises.

## Model

| member | source | states |
|---|---|---|
| Types.Ordinal | eval/types.go:8-19 | the kind tags are numbered 0..7 and only `Invalid` is 0 |
| Types.OrdinalBijective | eval/types.go:8-19 | the numbering has no gaps or repetitions: it has an inverse on 0..7 |
| Types.ASTTypeTable | eval/types.go:21-28 | `ASTType` holds exactly the six scalar names, each mapped to the tag of the same name, never to `Invalid` or `Array` |
| Types.ASTTypeOnto | eval/types.go:21-28 | every scalar tag is reachable from the table by its own name |
| Types.Wrap64 | eval/evaluator.go:589-609 | Go's 64-bit `int` and `int64` sums wrap: the result is in range, congruent to the exact sum, and equal to it when it fits |
| Types.TypeOf | eval/types.go:3-6 | a value's tag is `Invalid` exactly for the zero `Value{}` and `Array` exactly for slices |
| Coerce.ToBool | eval/coerce.go:3-9 | succeeds exactly on bools and returns them unchanged; `false, false` otherwise |
| Coerce.ToInt | eval/coerce.go:11-19 | succeeds exactly on `int` and `int64`, keeping the integer; `0, false` otherwise |
| Coerce.ToInt64 | eval/coerce.go:21-29 | succeeds exactly on `int` and `int64`, keeping the integer; `0, false` otherwise |
| Coerce.ToFloat32 | eval/coerce.go:31-43 | reports ok only for an `int`; `int64` and float inputs are converted but reported not ok; anything else gives the zero float |
| Coerce.ToFloat64 | eval/coerce.go:45-57 | the same as `toFloat32`, at 64 bits |
| Coerce.ToString | eval/evaluator.go:550-566 | accepts exactly the string values, keeping the text |
| Coerce.IntCoercionsAgree | eval/coerce.go:11-29 | `toInt` and `toInt64` accept the same values and agree on the result |
| Coerce.FloatCoercionsAgree | eval/coerce.go:31-57 | the float coercions accept the same values, and only values `toInt` accepts; an `int64` passes `toInt` but not them |
| Zero.Zero | eval/zero.go:3-15 | Bool, Int, Int64 and String get `false`, `0`, `0`, `""` with their own tag; every other tag gets the empty `Value{}` |
| Zero.MakeArray | eval/zero.go:17-26 | builds, by its append loop, a nest of `len(sizes)` levels whose level k has `max(sizes[k], 0)` elements and whose leaves are `Zero(t)` |
| Zero.ShapedUnique | eval/zero.go:17-26 | there is only one value of each shape, so `MakeArray` is deterministic |
| Zero.ShapedLeaves | eval/zero.go:17-26 | every in-range path of `len(sizes)` indices reaches `Zero(t)` |
| Zero.NegativeSizeIsEmpty | eval/zero.go:21-23 | a negative leading size gives an empty array, not an error |
| Zero.ShapedDepth | eval/zero.go:17-26 | with positive sizes, the nesting depth equals `len(sizes)` |
| Input.Input.Init | eval/input.go:10-17 | a scanner over the lines, before the first `Next`, at cursor (0, 0) |
| Input.NewInput | eval/input.go:19-30 | an error on the first line gives no input; an empty input is at EOF at (0, 0); otherwise the first line is current at (1, 0) |
| Input.Input.Next | eval/input.go:32-46 | with lines left, the next line becomes current, `Ln` goes up by exactly 1 and `Col` resets; exhausted and clean, only `EOF` is set; a scanner error is returned and nothing is set |
| Input.Input.Scanf | eval/input.go:48-50 | consumes a prefix of the current line's unread bytes and changes nothing else |
| Input.Input.EOL | eval/input.go:52-61 | with unread bytes, false and no change; otherwise it calls `Next` and reports true, including at end of input, where only `EOF` is set |
| Errors.Render | eval/error.go:5-82 | every kind whose `Error()` is shown renders, and a positioned error's message starts with its "Ln:Col: " prefix |
| Errors.RenderedPositionReadsBack | eval/error.go:29-82 | the position at the head of every positioned message reads back exactly |
| Errors.CheckErrorClauseReadsBack | eval/error.go:41-48 | a check error renders as "L:C: check error (clause K)", and K reads back in decimal |
| Errors.DecimalRoundTrip | eval/error.go:46-48 | the `%d` formatting used in messages is inverted by reading the digits back |
| Builtin.Call | eval/builtin.go:5-29 | only `len` and `re` can succeed; any other name is a nil function whose call panics |
| Builtin.Len | eval/builtin.go:6-12 | `len` of a string is its byte length; a non-string first argument is `ErrInvalidArgument`; no argument is an index panic |
| Builtin.Re | eval/builtin.go:14-28 | `re` checks the subject, then the pattern, then compiles before matching; it succeeds exactly when both are strings and the pattern compiles, and returns the match |
| Builtin.LenAdditive | eval/builtin.go:6-12 | `len` is additive over concatenation |
| Builtin.ExtraArgumentsIgnored | eval/builtin.go:5-29 | arguments after the first (two for `re`) never change the result |
| Ast.Capture | ast/ast.go:206-211 | the operator text is the concatenation of the captured pieces |
| Ast.CaptureConcat | ast/ast.go:206-211 | capturing in two parts and joining is capturing at once |
| Ast.CaptureTwo | ast/ast.go:206-211 | pieces captured apart give the joined operator (`<` and `=` give `<=`) |
| Eval.FoldOr | eval/evaluator.go:378-392 | a non-empty `\|\|` chain yields a bool |
| Eval.OpLogicalOr | eval/evaluator.go:393-408 | `\|\|` succeeds only on a bool left operand, giving a bool |
| Eval.Logical | eval/evaluator.go:393-439 | `\|\|`/`&&` succeed exactly on two bools and compute the connective; a non-bool left operand is an unpositioned invalid operation, a non-bool right one a positioned one |
| Eval.FoldAnd | eval/evaluator.go:409-423 | a non-empty `&&` chain yields a bool |
| Eval.OpLogicalAnd | eval/evaluator.go:424-439 | `&&` succeeds only on a bool left operand, giving a bool |
| Eval.FoldRelative | eval/evaluator.go:440-454 | a non-empty comparison chain yields a bool |
| Eval.OpRelative | eval/evaluator.go:455-567 | a comparison yields a bool |
| Eval.Compare | eval/evaluator.go:455-567 | the comparison table: bools and strings only `==`/`!=`, integers all six operators, floats only against an `int`; everything else is an invalid operation; the result agrees with integer comparison and with equality |
| Eval.FoldAddition | eval/evaluator.go:568-582 | a non-empty `+`/`-` chain keeps the left operand's kind |
| Eval.OpAddition | eval/evaluator.go:583-639 | `+`/`-` keep the left operand's kind |
| Eval.Arith | eval/evaluator.go:583-639 | `+`/`-` succeed exactly on integer pairs, or a float left operand with an `int` right one; integer results wrap at 64 bits; anything else is an invalid operation |
| Eval.Negate | eval/evaluator.go:648-673 | unary minus is defined exactly on int, int64 and float kinds, keeps the kind and wraps; anything else is an invalid operation |
| Eval.EvalExpr | eval/evaluator.go:363-377 | a chain with at least one `\|\|` yields a bool |
| Eval.EvalUnary | eval/evaluator.go:648-672 | a negated operand succeeds only on an int, int64 or float kind, and keeps the operand's kind |
| Eval.EvalPrimary | eval/evaluator.go:674-716 | a variable read succeeds only on a bound name, in either revision, and yields the element its indices lead to inside the slot, one path step per index; the current revision reports an unbound name as `ErrUndefined` at the primary's position |
| Eval.ReadVariable | eval/evaluator.go:687-705 | a successful read starts from a real value (not the zero `reflect.Value`) and yields `At` of it along a valid path with one step per remaining index |
| Eval.EvalArgs | eval/evaluator.go:674-717 | call arguments are evaluated left to right, one result per argument, after those already evaluated |
| Eval.BasicLit | eval/evaluator.go:718-731 | integer literals are `int64`, float literals `float64`, string literals `string` |
| Eval.OrEvaluatesRightOperand | eval/evaluator.go:393-408 | `\|\|` does not short-circuit: a failing right operand fails even after `true` |
| Eval.AndEvaluatesRightOperand | eval/evaluator.go:424-439 | `&&` does not short-circuit: a failing right operand fails even after `false` |
| Eval.FoldMultiplicationKeeps | eval/evaluator.go:644-646 | a `*`/`/` tail returns its left value unchanged, whatever the factors |
| Eval.MultiplicationInert | eval/evaluator.go:640-646 | a multiplicative chain evaluates to its first operand: factors and exponent are never evaluated |
| Eval.IntLiteralIsInt64 | eval/evaluator.go:718-731 | a bare integer literal evaluates to an `int64`, not an `int` |
| Eval.RevisionsOnUnboundVariable | eval/eval.go:620-659 | on an unbound name the current revision reports `ErrUndefined`, while the earlier one reads the zero `reflect.Value` and fails in reflection |
| Exec.GoZero | eval/evaluator.go:109-131 | a fresh slot of a scalar kind holds a value of that kind |
| Exec.ReadAt | eval/evaluator.go:154-194 | a read returns a value of the kind asked for and succeeds only before the end of input |
| Exec.Store | eval/evaluator.go:154-194 | storing at a valid path puts the value there and keeps every slice length on the way |
| Exec.Resolve | eval/evaluator.go:139-153 | a resolved scan target is a valid path, one index per written index, reaching the value returned |
| ExecFacts.ScanOfStringByte | eval/evaluator.go:139-184 | indexing a string element picks a byte: an index outside the string is `ErrInvalidIndex` with the string's length, and an index inside it reaches a `uint8`, which has no reader (`ErrCantScanType`); nothing is read |
| ExecFacts.ScanReadErrorKept | eval/evaluator.go:185-190 | a reader's error is returned unchanged, since `enrichError` (lines 733-739) sets the position on a copy; the value read is stored and the read counted first |
| Exec.ScanRefs | eval/evaluator.go:133-194 | a scan reads once per reference, so a successful scan of k references makes k reads, and never adds or removes a name |
| Exec.Declare | eval/evaluator.go:109-131 | a declaration reads no input and, on success, binds exactly the listed names in addition to those already bound |
| Exec.Eol | eval/evaluator.go:341-350 | an eol statement is one input operation and changes no binding |
| Exec.Eof | eval/evaluator.go:352-361 | an eof statement is one input operation and changes no binding |
| Exec.ExecBlock | eval/evaluator.go:50-107 | a block's statements never move the input backwards |
| Exec.ExecStmt | eval/evaluator.go:50-107 | a statement never moves the input backwards |
| Exec.ExecIf | eval/evaluator.go:253-275 | an if statement never moves the input backwards |
| Exec.ExecFor | eval/evaluator.go:277-287 | a for statement never moves the input backwards |
| Exec.RangeLoop | eval/evaluator.go:289-311 | a range loop never moves the input backwards; the index is bound to the loop's own counter at each iteration (see "Left out" for writes to it in the body) |
| Exec.ScanLoop | eval/evaluator.go:313-339 | a scan loop never moves the input backwards, and ends because every round reads |
| ExecFacts.CheckPassesIffAllTrue | eval/evaluator.go:239-251 | a check passes exactly when every clause, evaluated in order, is the boolean `true` |
| ExecFacts.CheckFailsAtFirstFalseClause | eval/evaluator.go:239-251 | the first clause that is not `true` (a non-bool counts as false) fails the check with its 1-based number |
| ExecFacts.CheckIgnoresLaterClauses | eval/evaluator.go:239-251 | clauses after the failing one never matter |
| ExecFacts.IfRunsFirstTakenBranch | eval/evaluator.go:253-275 | an if statement runs exactly the first branch without a condition or with a true one |
| ExecFacts.IfWithNoTakenBranch | eval/evaluator.go:253-275 | when no branch is taken, nothing happens |
| ExecFacts.ScalarDeclBindsZeros | eval/evaluator.go:109-131 | a scalar declaration binds each listed name to the zero of its kind and keeps every other binding |
| ExecFacts.ArrayDeclBindsSlice | eval/evaluator.go:109-131 | an array declaration whose length evaluates to the `int` l >= 0 binds every name to a slice of l zeros of the element kind, keeps the other bindings and reads no input |
| ExecFacts.ArrayBoundChecked | eval/evaluator.go:114-125 | at every name, a length that is not an `int` is "invalid array bound", a negative one panics in `reflect.MakeSlice`, and an error in evaluating it is returned |
| ExecFacts.LiteralArrayBoundRejected | eval/evaluator.go:109-131 | an array whose length is an integer literal is rejected with "invalid array bound", because the literal is an `int64` |
| ExecFacts.StoreKeepsShape | eval/evaluator.go:154-194 | storing a scalar of the slot's own kind keeps the shape of the whole value |
| ExecFacts.ScanKeepsShapes | eval/evaluator.go:133-237 | a scan, succeeding or stopping at an error, never changes a variable's kind or an array's length |
| ExecFacts.ScanOfUnboundName | eval/evaluator.go:133-138 | an unbound scan target is `ErrUndefined`, positioned in the current revision only, and nothing is read |
| ExecFacts.ScanlnRejectsNonString | eval/evaluator.go:196-237 | `scanln` into a slot that is not a string is `ErrCantScanType`, and nothing is read |
| ExecFacts.RangeLoopEmpty | eval/evaluator.go:289-311 | a range loop whose low bound is not below its high bound runs zero times |
| ExecFacts.ScanLoopEndsAtEOF | eval/evaluator.go:313-339 | a scan loop whose header scan meets the end of input ends without error |
| ExecFacts.EarlierRejectsScanHeaders | eval/eval.go:263-285 | the earlier revision knows only the range header: a scan header dereferences a nil range clause |
| Evaluator.Evaluator.constructor | eval/evaluator.go:19-30 | a fresh evaluator has no bindings and has read nothing |
| Evaluator.Evaluator.Block | eval/evaluator.go:50-107 | walking a block runs its statements in order and stops at the first failure, as `ExecBlock` says |
| Evaluator.Evaluator.Visit | eval/evaluator.go:50-107 | a statement runs its one alternative, as `ExecStmt` says |
| Evaluator.Evaluator.VarDecl | eval/evaluator.go:109-131 | the declaration loop leaves the state `Declare` gives |
| Evaluator.Evaluator.Reference | eval/evaluator.go:139-153 | the index loop of a scan target computes `Resolve`, the string element case included |
| Evaluator.Evaluator.ScanStmt | eval/evaluator.go:133-237 | the reference loop of `scanStmt`/`scanlnStmt` leaves the state `ScanRefs` gives, earlier stores kept after an error |
| Evaluator.Evaluator.CheckStmt | eval/evaluator.go:239-251 | the clause loop computes `CheckClauses` and changes nothing |
| Evaluator.Evaluator.IfStmt | eval/evaluator.go:253-275 | the branch loop leaves the state `ExecIf` gives |
| Evaluator.Evaluator.ForStmt | eval/evaluator.go:277-287 | dispatches on the header as `ExecFor` says |
| Evaluator.Evaluator.ForStmtRange | eval/evaluator.go:289-311 | evaluates both bounds once, then runs the body for each index in order, as `RangeLoop` says |
| Evaluator.Evaluator.ForStmtScan | eval/evaluator.go:313-339 | alternates scan and body until the scan meets the end of input, as `ScanLoop` says |
| Evaluator.Evaluator.EolStmt | eval/evaluator.go:341-350 | fails with `ErrExpectedEOL` unless the reader is at the end of a line, as `Eol` says |
| Evaluator.Evaluator.EofStmt | eval/evaluator.go:352-361 | fails with `ErrExpectedEOF` and the trailing token unless the reader is at the end of input, as `Eof` says |
| Evaluator.Evaluate | eval/evaluator.go:19-48 | returns the bound values, or only the first error |
| Evaluator.EvaluateEarlier | eval/eval.go:16-34 | returns the evaluator together with the first error, if any |
| Walk.BlockTree | ast/walk.go:19-22 | a block's children are its statements, in order |
| Walk.StatementTree | ast/walk.go:24-42 | a statement's only child is its one alternative |
| Walk.WalkTrace | ast/walk.go:9-155 | a visitor that always descends receives each node before its children, the children in order, then `Visit(nil)` |
| Walk.WalkPruned | ast/walk.go:9-13 | a visitor that declines a node receives no other call for it: no children and no `Visit(nil)` |
| Walk.WalkKeeps | ast/walk.go:9-155 | any property of the visitor state that every visit keeps, the whole walk keeps |
| Walk.AltDeclined | ast/walk.go:157-168 | an alternative the inspection function declines is not descended into |
| Walk.InspectBlock | ast/walk.go:157-168 | inspecting an accepted block is the fold over its statements' alternatives |
| Walk.AltFoldUnchanged | ast/walk.go:157-168 | statements the function declines without changing its state leave it as it was |
| Walk.AltFoldSingle | ast/walk.go:157-168 | the fold over one statement is the inspection of its alternative |
| Walk.InspectFor | ast/walk.go:71-73 | a range loop, entered and its body accepted, is inspected as the fold over the body |
| Writer.Repeat | gen/code/writer.go:35-40 | the indent string repeated d times has d times its length |
| Writer.Pending | gen/code/writer.go:35-40 | indentation is due only at column 0 and depth above 0 |
| Writer.Printed | gen/code/writer.go:42-52 | `Print`/`Printf` append the due indentation and the text, and advance the column by the bytes written |
| Writer.Ended | gen/code/writer.go:54-59 | `Println` appends the text and a newline, counts a row and resets the column |
| Writer.SecondPieceNotIndented | gen/code/writer.go:35-40 | after a print nothing is pending: a second piece on a line is not indented again |
| Writer.PrintConcat | gen/code/writer.go:42-46 | printing two pieces is printing their concatenation |
| Writer.PrintThenEnd | gen/code/writer.go:42-59 | ending a line after printing on it is ending the line with both pieces |
| Writer.AppendOnly | gen/code/writer.go:27-59 | the buffer only grows: an earlier `Bytes()` is a prefix of a later one |
| Writer.EndedAtColumnZero | gen/code/writer.go:35-59 | from column 0, a line is the indent string d times, the text and a newline |
| Writer.Writer.constructor | gen/code/writer.go:20-25 | a new writer is empty, at depth 0 |
| Writer.Writer.Bytes | gen/code/writer.go:27-29 | returns everything written |
| Writer.Writer.Len | gen/py3/py3.go:150-152 | the length of everything written |
| Writer.Writer.Indent | gen/code/writer.go:31-33 | only adds to the depth and writes nothing |
| Writer.Writer.PrintIndent | gen/code/writer.go:35-40 | writes the due indentation, repeated by a loop |
| Writer.Writer.Print | gen/code/writer.go:42-46 | leaves the state `Printed` gives |
| Writer.Writer.Println | gen/code/writer.go:54-59 | leaves the state `Ended` gives |
| ExprMatch.ExprVar | gen/py3/arrayline.go:161-174 | a name is found only without `\|\|`, `&&`, comparisons, exponent or negation |
| ExprMatch.ExprInt64 | gen/py3/arrayline.go:176-190 | a value is found only for a likewise bare integer literal |
| ExprMatch.VarReadsBack | gen/py3/arrayline.go:145-174 | the expression `x` is recognised as the variable `x`, and not as a literal |
| ExprMatch.IntReadsBack | gen/py3/arrayline.go:153-190 | the expression `n` is recognised as the literal `n`, and not as a variable |
| ExprMatch.VarOrLiteral | gen/py3/arrayline.go:161-190 | no expression is both a bare variable and a bare literal |
| ExprMatch.ExprEqByName | gen/py3/arrayline.go:133-151 | `exprEq` holds exactly between bare variables of the same name, and is symmetric |
| ExprMatch.ExprEqTransitive | gen/py3/arrayline.go:133-143 | `exprEq` is transitive |
| ExprMatch.SumPassesForVariable | gen/py3/arrayline.go:161-174 | the `+`/`-` and `*`/`/` lists are not looked at: `x + 1` passes for `x` |
| ExprMatch.NotBareVariables | gen/py3/arrayline.go:161-174 | a negated, indexed, exponentiated or compared variable is not recognised |
| Py3Types.Lookup | gen/py3/types.go:3-19 | a table lookup gives the entry, or "" for a missing key |
| Py3Types.SameKeys | gen/py3/types.go:3-19 | both tables have the same six keys as the interpreter's `ASTType` |
| Py3Types.PythonTypes | gen/py3/types.go:3-10 | int and int64 become `int`, float32 and float64 `float`; bool and string keep their names |
| Py3Types.ZeroLiterals | gen/py3/types.go:12-19 | the zero literals are `false`, `0`, `0`, `0.0`, `0.0` and `""` |
| Py3Expr.Cat | gen/py3/py3.go:193-206 | printing two parts succeeds exactly when both do; the first panic stops it |
| Py3Expr.Status | gen/py3/py3.go:41-75 | a generator step's result is success or its panic |
| Py3Expr.BareText | gen/py3/py3.go:193-290 | an expression of one operand prints that operand |
| Py3Expr.VariablePrintsName | gen/py3/py3.go:304-319 | a variable prints only its name: indices are dropped |
| Py3Expr.CallPanics | gen/py3/py3.go:304-319 | a call expression panics |
| Py3Expr.IntLiteralText | gen/py3/py3.go:321-337 | an integer literal prints in decimal, which reads back as the literal |
| Py3Expr.ExponentNotPrinted | gen/py3/py3.go:283-286 | the exponent of a multiplication is not printed |
| Py3Expr.NegationText | gen/py3/py3.go:292-302 | negation prints a minus sign before the operand |
| Py3Expr.OrInfix | gen/py3/py3.go:207-225 | `\|\|` prints infix, left to right |
| Py3Expr.ComparisonInfix | gen/py3/py3.go:245-263 | a comparison prints infix, with its captured operator text |
| Py3Expr.RecognisedVariableText | gen/py3/py3.go:193-290 | what the recognisers take for the variable x prints starting with x, and exactly x without `+`/`-` or `*`/`/` tail |
| Py3Expr.TypeKey | gen/py3/onlytoken.go:26-27 | the type key is the name followed by one `[]` per index |
| Py3Expr.IndicesAppend | gen/py3/onlytoken.go:17-25 | bracketing two lists of indices is bracketing their concatenation |
| Py3Expr.IndicesStep | gen/py3/onlytoken.go:17-25 | each index prints in brackets after the earlier ones, and a panicking index ends the target |
| Py3Expr.PrintTarget | gen/py3/onlytoken.go:17-25 | the loop prints the name and each index in brackets, and the writer ends up as if the whole target had been printed at once |
| Py3Expr.Idents | gen/py3/multivar.go:14-19 | the names of the targets, one per target, in order |
| Py3Expr.IndexOf | gen/py3/multivar.go:14-19 | the first occurrence of a character, or none |
| Py3Expr.SplitJoin | gen/py3/multivar.go:14-19 | the names joined by ", " split back into the names |
| Py3Expr.PrintNames | gen/py3/multivar.go:14-19 | the loop prints the names joined by ", " |
| Py3Expr.JoinSnoc | gen/py3/multivar.go:14-19 | a name appended to the list is printed after ", " |
| MultiVar.Generate | gen/py3/multivar.go:13-31 | prints `Line` and a newline, or dereferences a nil type name |
| MultiVar.LineReadsNamesInOrder | gen/py3/multivar.go:13-31 | the line assigns the names in scan order: `x = input()` for one string, `x = T(input())` for one other value, `a, b = map(T, input().split())` for several |
| MultiVar.RunKeepsWf | gen/py3/multivar.go:34-119 | every multiVar replacement is keyed by its scan, for a scalar var whose names the scan accepts |
| MultiVar.RunWrites | gen/py3/multivar.go:34-119 | the recogniser writes only multiVar replacements and `Noop`s; every other entry stays |
| MultiVar.Fires | gen/py3/multivar.go:49-116 | scalar var, checks, accepted scan, checks, eol: the scan is replaced and the var and the eol become `Noop` |
| MultiVar.Resets | gen/py3/multivar.go:74-114 | other statements reset the match without registering; a rejected scan leaves the var matched |
| OnlyToken.Generate | gen/py3/onlytoken.go:16-34 | prints `Line` and a newline, or the index expression's panic |
| OnlyToken.PlainTargetLine | gen/py3/onlytoken.go:16-34 | an unindexed string target gets `x = input()`, another type `x = T(input())` |
| OnlyToken.LineIsTargetThenReader | gen/py3/onlytoken.go:16-34 | the line is the printed target followed by the reader; a failing index is the line's failure |
| OnlyToken.RunKeepsWf | gen/py3/onlytoken.go:36-90 | every onlyToken replacement is keyed by its scan, which has exactly one target |
| OnlyToken.RunWrites | gen/py3/onlytoken.go:36-90 | the recogniser writes only onlyToken replacements and `Noop`s; every other entry stays |
| OnlyToken.FoldFires | gen/py3/onlytoken.go:50-86 | a one-target scan, checks and an eol register the scan and drop the eol |
| OnlyToken.Fires | gen/py3/onlytoken.go:36-90 | the same on a whole block |
| OnlyToken.Resets | gen/py3/onlytoken.go:56-86 | a multi-target scan does not start the pattern; after a match, anything but a check or an eol drops it |
| ArrayLine.Generate | gen/py3/arrayline.go:16-27 | prints `name = map(T, input().split())` with the element type, or dereferences a nil type |
| ArrayLine.RunKeepsWf | gen/py3/arrayline.go:29-131 | every arrayLine replacement is keyed by its loop, for a one-name array read element by element |
| ArrayLine.RegisteredGenerates | gen/py3/arrayline.go:16-27 | what the recogniser registers always generates the array's name read from one split line |
| ArrayLine.RunWrites | gen/py3/arrayline.go:29-131 | the recogniser writes only arrayLine replacements and `Noop`s; every other entry stays |
| ArrayLine.FiresAfterLoop | gen/py3/arrayline.go:45-126 | array var, checks, covering loop scanning `a[i]`, checks, eol: the loop is replaced and the var and the eol become `Noop` |
| ArrayLine.FiresWithEolInBody | gen/py3/arrayline.go:45-126 | the scan state persists into the loop body, so an eol closing the body fires the same registration |
| ArrayLine.ScanHeaderPanics | gen/py3/arrayline.go:72-79 | after a matched var, a loop with a scan header dereferences its nil range clause |
| ArrayLine.Resets | gen/py3/arrayline.go:72-129 | a non-covering loop keeps the var matched; anything but a check or a loop drops it; after the scan, anything but a check or an eol drops it |
| SameLine.EmitAppend | gen/py3/sameline.go:15-29 | emitting two lists of targets is emitting one after the other |
| SameLine.EmitLines | gen/py3/sameline.go:15-29 | succeeds exactly when every target prints; writes one line per target, ends at column 0, only appends |
| SameLine.Generate | gen/py3/sameline.go:15-30 | the loop over the targets leaves the writer `Emit` gives, with no refill line |
| SameLine.FoldMarks | gen/py3/sameline.go:37-50 | the inspection registers each scan directly in the block, in order |
| SameLine.RunMarks | gen/py3/sameline.go:32-51 | the recogniser never fails; a marked block is skipped, otherwise every direct scan is replaced |
| SameLine.MarkedEntries | gen/py3/sameline.go:37-50 | each scan's id maps to its sameLine replacement, and every other key stays |
| SameLine.MarkedBlockUntouched | gen/py3/sameline.go:33-35 | a block marked as holding an eol is left alone |
| ScanArray.Generate | gen/py3/scanarray.go:16-27 | prints `name = map(T, input().split())`; a registration without a scan dereferences nil |
| ScanArray.Sfor | gen/py3/scanarray.go:93-124 | the loop over the body computes `SforFrom` |
| ScanArray.SforAccepts | gen/py3/scanarray.go:93-124 | an accepted body holds only scans and checks, and the scan found reads `name[index]` and is in the body |
| ScanArray.OtherScanDropped | gen/py3/scanarray.go:102-122 | a scan of another variable before the element scan is passed over, not rejected |
| ScanArray.ChecksOnlyAccepted | gen/py3/scanarray.go:123 | a body of checks alone is accepted with no scan |
| ScanArray.AnalyzeBlock | gen/py3/scanarray.go:29-91 | the statement loop computes `Fold`: the registry and the loop bodies handed on, or the panic |
| ScanArray.FailurePersists | gen/py3/scanarray.go:29-91 | after the panic no later statement is reached |
| ScanArray.NestedAreLoopBodies | gen/py3/scanarray.go:69-73 | every block handed on is the body of one of the block's loops |
| ScanArray.FoldKeepsWf | gen/py3/scanarray.go:29-91 | every scanArray replacement is keyed by its loop, for a one-name array whose element the scan reads |
| ScanArray.Fires | gen/py3/scanarray.go:40-90 | array var, checks, covering loop with an accepted body, checks, eol: the loop is replaced and the var and the eol become `Noop` |
| ScanArray.NilScanRegistered | gen/py3/scanarray.go:76-81 | a covering loop of checks alone is registered with a nil scan |
| ScanArray.ScanHeaderPanics | gen/py3/scanarray.go:57-62 | after a matched var, a loop with a scan header dereferences its nil range clause |
| ScanSame.Generate | gen/py3/scansame.go:13-32 | prints what `multiVar.Generate` prints |
| ScanSame.AnalyzeBlock | gen/py3/scansame.go:34-96 | the statement loop computes `Fold` |
| ScanSame.NestedAreLoopBodies | gen/py3/scansame.go:75-78 | exactly the loop bodies are handed on, each once and in order |
| ScanSame.FoldKeepsWf | gen/py3/scansame.go:34-96 | every scanSame replacement is keyed by its scan, for a scalar var whose names the scan covers |
| ScanSame.Fires | gen/py3/scansame.go:45-95 | scalar var, checks, covered scan, checks, eol: the scan is replaced and the var and the eol become `Noop` |
| ScanSame.Restarts | gen/py3/scansame.go:47-71 | a scalar var restarts the match whatever came before; an array var changes nothing; an uncovered scan keeps the var matched |
| ScanOne.Generate | gen/py3/scanone.go:16-34 | prints what `onlyToken.Generate` prints |
| ScanOne.AnalyzeBlock | gen/py3/scanone.go:36-80 | the statement loop computes `Fold` |
| ScanOne.NestedAreLoopBodies | gen/py3/scanone.go:60-63 | exactly the loop bodies are handed on, each once and in order |
| ScanOne.FoldKeepsWf | gen/py3/scanone.go:36-80 | every scanOne replacement is keyed by its scan, which has exactly one target |
| ScanOne.Fires | gen/py3/scanone.go:45-74 | a one-target scan, checks and an eol: the scan is replaced and the eol becomes `Noop` |
| ScanOne.SecondLineMissed | gen/py3/scanone.go:49-56 | after a match, the next scan resets the machine: of two one-target lines in a row only the first is replaced |
| Analyze.FindBlockEOLsSound | gen/py3/analyze.go:48-69 | every id either finder marks is the id of a block of the source holding an eol: as written, a block reached through loop bodies with the eol in itself or a loop body; corrected, through branches too |
| Analyze.AsWrittenMarksFewer | gen/py3/analyze.go:48-69 | every block the finder as written marks, the corrected finder marks too |
| Analyze.FindBlockEOLsMarks | gen/py3/analyze.go:48-69 | the finder never pops an empty stack; corrected, it marks every block that holds an eol in itself, a loop body or a branch |
| Analyze.KeepsBlock | gen/py3/analyze.go:50-66 | the push/pop stack is balanced over a block, and every enclosing block of an eol is marked |
| Analyze.AsWrittenSkipsIf | gen/py3/analyze.go:55 | as written, the finder steps over an if statement without looking into its branches |
| Analyze.IfBranchEolMissed | gen/py3/analyze.go:55 | as written, an eol in an else branch marks no block; the corrected finder marks it |
| Analyze.AnalyzeWithWf | gen/py3/analyze.go:17-46 | every replacement the analysis registers is well formed for its generator |
| Analyze.AnalyzeBlockKeepsWf | gen/py3/analyze.go:37-42 | the four recognisers, in order, keep that invariant |
| Analyze.SameLineKeepsWf | gen/py3/sameline.go:32-51 | sameLine never fails and keeps the other recognisers' entries it does not replace |
| Analyze.BranchScanReplaced | gen/py3/analyze.go:37-42 | in an unmarked branch block, sameLine overwrites onlyToken's replacement of a scan followed by an eol |
| Py3.FloatArrayZeroLost | gen/py3/py3.go:85-96 | as written, a float array is filled from `[]`; corrected, from `0.0` |
| Py3.ArrayZeroDefined | gen/py3/types.go:12-19 | the corrected lookup gives every scalar element type its non-empty zero literal |
| Py3.EndLine | gen/py3/py3.go:184-191 | ending a line succeeds exactly when its text printed |
| Py3.DeclareRecords | gen/py3/py3.go:79-83 | a scalar declaration records each name with its type and keeps every other entry |
| Py3.SilentStatements | gen/py3/py3.go:50-51 | check and eof statements print nothing; a scalar var only records types |
| Py3.GenericScanLines | gen/py3/py3.go:108-130 | a generic scan succeeds exactly when every target prints, sets `linevar`, prints the refill line and one line per target |
| Py3.OzKeeps | gen/py3/py3.go:85-103 | a registered replacement prints whole lines at the current depth and only appends |
| Py3.ArrayNamesKeep | gen/py3/py3.go:85-103 | so does an array declaration |
| Py3.StatementKeeps | gen/py3/py3.go:41-75 | so does every statement, and `linevar`, once set, stays set, and is set only with a refill line |
| Py3.BlockKeeps | gen/py3/py3.go:41-75 | so does every block |
| Py3.SuiteKeeps | gen/py3/py3.go:148-156 | an indented suite returns to its depth and only appends; one that adds `pass`, as every `ifStmt` suite does, is never empty |
| Py3.BranchKeeps | gen/py3/py3.go:132-158 | an if branch returns to its depth and only appends |
| Py3.ForKeeps | gen/py3/py3.go:160-182 | a loop returns to its depth and only appends, as written and corrected |
| Py3.ProgramWholeLines | gen/py3/py3.go:19-39 | the generated program, as written or corrected, is empty or ends with a newline |
| Py3.LinevarOnlyForGenericScan | gen/py3/py3.go:32-35 | the program, as written or corrected, gets its leading `_ = None` only when a generic scan printed the refill line |
| Py3.EmptyLoopBody | gen/py3/py3.go:160-182 | as written, a loop whose body prints nothing is only its header, an empty suite; corrected, it gets `pass` |
| Py3.Generator.constructor | gen/py3/py3.go:20-28 | a fresh generator, as written or corrected, has no recorded types, an empty writer at depth 0 and `linevar` unset |
| Py3.Generator.EmitOz | gen/py3/context.go:19-27 | `oz.Generate` leaves the state `OzGen` gives |
| Py3.Generator.EmitVarDecl | gen/py3/py3.go:77-106 | leaves the state `OnVarDecl` gives; as written, array elements are filled with `ASTZero` looked up by the Python type |
| Py3.Generator.DeclareScalars | gen/py3/py3.go:79-83 | the name loop records the type of each name |
| Py3.Generator.EmitArrays | gen/py3/py3.go:85-103 | the name loop leaves the state `OnArrayNames` gives |
| Py3.Generator.EmitScan | gen/py3/py3.go:108-130 | leaves the state `OnScan` gives |
| Py3.Generator.EmitEol | gen/py3/py3.go:184-191 | leaves the state `OnEol` gives |
| Py3.Generator.WalkSuite | gen/py3/py3.go:148-156 | indents, walks the block, adds `pass` when asked to and nothing was printed, and dedents, as `Suite` says |
| Py3.Generator.EmitBranch | gen/py3/py3.go:133-156 | prints the `if`/`elif`/`else` header and the suite with its `pass`, as `OnBranch` says |
| Py3.Generator.EmitIf | gen/py3/py3.go:132-158 | the branch loop leaves the state `OnBranches` gives |
| Py3.Generator.EmitFor | gen/py3/py3.go:160-182 | prints the header and walks the body one level deeper, with `pass` only when corrected, as `OnFor` says |
| Py3.Generator.Visit | gen/py3/py3.go:41-75 | dispatches a statement as `OnStatement` says |
| Py3.Generator.WalkBlock | gen/py3/py3.go:41-75 | walks a block's statements in order, as `OnBlock` says |
| Py3.Generate | gen/py3/py3.go:19-39 | returns `Program` as written: the analysis of gen/py3/analyze.go as written, then the walked code, after `_ = None` exactly when `linevar` was set |
| Py3.GenerateCorrected | gen/py3/py3.go:19-39 | returns the corrected `Program`: branch blocks marked by the corrected eol finder, array zeros looked up by element type name, `pass` in empty loop bodies |

## Left out

- The scanspec parser (`ast/parse.go`) is not modelled: the AST is the input.
- The token readers (`readInt`, `Input.Int` and the like), `isAtEOL` and `isAtEOF` are not shown in the source. They are an oracle in `Exec.Input`, asked once per input operation, with a finite `length` after which reads find the end of input.
- Exec.Eol: the earlier revision's `eolStmt` also asks the oracle. eval/eval.go:288 calls `Input.EOL` (eval/input.go:52-61, modelled on its own as `Input.Input.EOL`), but the line it looks at is the one the token readers consume, and those are the oracle.
- Exec.Eof: the earlier revision's `eofStmt` also asks the oracle. eval/eval.go:299 calls `Input.EOF()`, but `EOF` is a `bool` field (eval/input.go:14), so that line does not compile. The model reads it as asking whether the input is over.
- Floating-point arithmetic, float comparison and float parsing are not modelled. Float values are symbolic terms, and float comparison is a parameter.
- Regular-expression compiling and matching are not modelled: `re` consults the `Regexp` predicates given as a parameter.
- `fmt` verbs other than `%d` (`%f` and `%q` of literals, `%v` of byte lists) are not modelled. They are parameters (`Py3Expr.Verbs`) or abstract texts.
- `Input.Scanf`'s parsing (`fmt.Fscanf`) is not modelled. Its caller passes in how many bytes it consumes.
- `ErrInvalidIndex` and `ErrBadParse` are not declared in eval/error.go, and the reader errors are not part of this model, so `Errors.Render` gives `None` for them.
- Errors.Error: the eval package does not compile as written. The evaluators write fields that eval/error.go does not declare: `Pos` of `ErrUndefined` (eval/evaluator.go:137), `Cursor` of `ErrCheckError` (eval/evaluator.go:247, eval/eval.go:233), `Got` and `Cursor` of `ErrExpectedEOL` (eval/evaluator.go:347), and `Got` of `ErrExpectedEOF`, whose declared field is `Token` (eval/evaluator.go:358). The evaluators' positions are `lexer.Position` values where error.go has `Cursor`. Each kind in the model carries the union of the declared fields and the written ones, and all positions are `Cursor`s.
- Eval.ReadVariable: an index into a string element is not modelled. In Go, `v.Index` on a string gives a byte (a `uint8`, eval/evaluator.go:701), and an index outside the string panics with a string. The model has no byte value, so for `var a [1]string` a read of `a[i][j]` with `int` indices fails with the `reflect.ValueError` for `Index` on a string instead. Scan targets do model this case (`Exec.Resolve`).
- Exec.Resolve: reflection panics follow Go before 1.19. There, `Len` on a scalar slot (a pointer) panics with a `*reflect.ValueError`, which `Evaluate` recovers as an error. From Go 1.19 on, `Len` on a pointer to a non-array panics with a plain string, which the model would give as a crash.
- Coerce.ToString: `toString` is not in the source shown. Its body is assumed: a string value passes with its text, and any other value fails.
- `Evaluate`'s `recover` is not modelled. The model returns the first error instead, as `Result` propagation.
- What the loop variable holds after a range loop is not specified. It depends on how the Go version binds `&i`.
- Exec.RangeLoop: the body's writes to the loop index are not fed back into the counter. Go binds the index name to `&i`, so a `scan i` in the body changes the counter, until a `var i` or an inner `for i` rebinds the name to another variable. Modelling that needs pointer identity in the name-to-slot map, and a termination measure that allows the counter to move backwards. The model binds the index to its own counter at every iteration instead.
- Evaluator.Evaluator.ForStmtRange: the same as `Exec.RangeLoop`, whose result it is proved equal to.
- Walk.RangeTree: ast/walk.go:72 calls `Walk(v, &n.Range)`, whose argument is a `**RangeClause`, which is not an `ast.Node`, so the file does not compile as written. The model visits the `*RangeClause` itself (nil for a scan header), which `Walk` has no case for.
- ScanSame.Step: gen/py3/scansame.go does not compile as written. Lines 10 and 83 store an `*ast.EOLStmt` in a `*string` field, and lines 18 and 61 read `Identifier`, which `ast.Reference` does not have (its field is `Ident`). The model stores the eol statement's id and reads `Ident`.
- Branch-block identity: ast/walk.go:62-64 walks `&n` where n is a copy of each `IfBranch`, so in Go a branch's block has a fresh address on every walk. The model's ids are stable across walks. Only the corrected eol finder depends on this: in Go its marks on branch blocks would be missed by the analyzer's walk unless walk.go also walked each branch in place.
- Strings are sequences of `char`, with one `char` per byte of Go's byte strings. UTF-8 decoding is not modelled, so `Builtin.Len`'s "byte length" and the writer's columns hold as byte counts only when each `char` stands for one byte.
- The debug `fmt.Println` at gen/py3/analyze.go:23 is not modelled, because it is output only.
- The older recognisers call an `analyzeBlock` that is not part of this model. `AnalyzeBlock` returns the loop bodies it would be handed instead.
- `Writer.Len` is not shown in the source. It is modelled as the buffer's length.
- `Py3.Generator` is not modelled as an `ast.Visitor` object. It dispatches each statement itself, and the walk is the recursion over blocks, branches and loop bodies.
- Within a statement, `genExpr` is modelled as one printed piece. `PrintConcat` shows that printing it piece by piece gives the same text.
- The cpp14 and go1 back ends, `walk/walk.go`, `ast/types.go` and `eval/type.go` are not part of this model.
- `ASTZero["bool"]` is `false`, which is not a Python literal. The model keeps the table as written.

## Findings

| source | as written | input that shows it | evidently intended | confidence | as-written member | corrected member |
|---|---|---|---|---|---|---|
| gen/py3/py3.go:85-96 | the array's zero literal is looked up with the Python element type (`ASTZero[t]`, t already `float`), which is not a key for floats | `var a [n]float64` prints `a = [] * n`, an empty list | look the literal up by the scanspec type name, giving `a = [0.0] * n`, as `Py3.GenerateCorrected` does | high; not executed | Py3.FloatArrayZeroLost | Py3.ArrayZeroDefined |
| gen/py3/analyze.go:55 | `findBlockEOLs` neither pushes nor descends into `*ast.IfBranch`, so an eol inside a branch marks no block | `if c; scan x; eol; end`: the branch block is not marked, so sameLine replaces the scan and the line's remaining tokens are never discarded | treat branches as it treats loops, marking the branch block and its ancestors, as `Py3.GenerateCorrected`'s analysis does; in Go this also needs ast/walk.go:62-64 to walk each branch in place, so that the marked block is the one the analyzer visits | medium; not executed | Analyze.IfBranchEolMissed | Analyze.FindBlockEOLsMarks |
| gen/py3/py3.go:160-182 | `forStmt` walks the body without the `pass` that `ifStmt` adds to an empty suite | `for i 0 n; check i < n; end` prints a loop header with no body, which is not valid Python | print `pass` when the body printed nothing, as `ifStmt` does and `Py3.GenerateCorrected` does | high; not executed | Py3.EmptyLoopBody | Py3.SuiteKeeps |
