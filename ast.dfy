/**
 * The scanspec syntax tree (ast/ast.go).  Pointer fields that the parser always
 * fills are plain fields here; those that can be nil are `Option`s; the Go
 * structs holding exactly one non-nil alternative (`Statement`, `Type`, the for
 * header, `Unary`, `Primary`, `BasicLit`) are sum types.  `Block` and
 * `Statement` carry an `id` that stands for their address, which the Python
 * generator uses as a map key.
 */
module Ast {
  import opened Wrappers
  import opened Types

  /** A lexer position. */
  datatype Pos = Pos(line: int, column: int)

  datatype Source = Source(block: Block)

  datatype Block = Block(id: nat, statements: seq<Statement>)

  datatype Statement = Statement(id: nat, pos: Pos, node: StmtNode)

  /** The eight statement forms. */
  datatype StmtNode =
    | VarDecl(spec: VarSpec)
    | ScanStmt(scan: ScanStmt)
    | ScanlnStmt(scanln: ScanStmt)
    | CheckStmt(check: CheckStmt)
    | IfStmt(branches: seq<IfBranch>)
    | ForStmt(header: ForHeader, body: Block)
    | EOLStmt(eolPos: Pos)
    | EOFStmt(eofPos: Pos)

  /** The grammar gives `scan` and `scanln` at least one reference. */
  type RefList = s: seq<Reference> | |s| > 0 witness [Reference(Pos(0, 0), "", [])]

  /** The body of a `scan` or `scanln` statement. */
  datatype ScanStmt = Scan(pos: Pos, refList: RefList)

  datatype CheckStmt = Check(pos: Pos, exprList: seq<Expr>)

  /** A branch without a condition is an `else` branch. */
  datatype IfBranch = IfBranch(condition: Option<Expr>, block: Block)

  /** The header of a `for` statement: a range clause, a scan or a scanln. */
  datatype ForHeader =
    | Range(clause: RangeClause)
    | ForScan(scan: ScanStmt)
    | ForScanln(scanln: ScanStmt)

  datatype RangeClause = RangeClause(index: string, low: Expr, high: Expr)

  datatype VarSpec = VarSpec(identList: seq<string>, typ: TypeSpec)

  /** A type is a name or an array type literal `[length] element`. */
  datatype TypeSpec =
    | TypeName(name: string)
    | TypeLit(arrayLength: Expr, elementType: TypeSpec)

  /** A scan target: a name with any number of indices. */
  datatype Reference = Reference(pos: Pos, ident: string, indices: seq<Expr>)

  /*
   * Expressions.  Each level is a left operand followed by a list of
   * operator/operand pairs; the levels are nested as the Go types are:
   * `Expr` lists `||` operands, `LogicalOr` lists `&&` operands, `LogicalAnd`
   * lists comparisons, `Relative` lists `+`/`-` and `Addition` lists `*`/`/`.
   */
  datatype Expr = Expr(pos: Pos, left: LogicalOr, right: seq<OpLogicalOr>)
  datatype LogicalOr = LogicalOr(pos: Pos, left: LogicalAnd, right: seq<OpLogicalAnd>)
  datatype OpLogicalOr = OpLogicalOr(pos: Pos, logicalOr: LogicalOr)
  datatype LogicalAnd = LogicalAnd(pos: Pos, left: Relative, right: seq<OpRelative>)
  datatype OpLogicalAnd = OpLogicalAnd(pos: Pos, logicalAnd: LogicalAnd)
  datatype Relative = Relative(left: Addition, right: seq<OpAddition>)
  datatype OpRelative = OpRelative(pos: Pos, operator: string, relative: Relative)
  datatype Addition = Addition(left: Multiplication, right: seq<OpMultiplication>)
  datatype OpAddition = OpAddition(pos: Pos, operator: string, addition: Addition)
  /** A unary operand with an optional `^` exponent. */
  datatype Multiplication = Multiplication(unary: Unary, exponent: Option<Primary>)
  datatype OpMultiplication = OpMultiplication(pos: Pos, operator: string, factor: Multiplication)
  /** `+x` / `x`, or `-x`. */
  datatype Unary = Plain(value: Primary) | Negated(negated: Primary)
  datatype Primary = Primary(pos: Pos, alt: PrimaryAlt)
  datatype PrimaryAlt =
    | Lit(basicLit: BasicLit)
    | Call(callExpr: CallExpr)
    | Var(variable: Variable)
    | SubExpr(subExpr: Expr)
  /** Literals: a `float64`, an `int64` or a string. */
  datatype BasicLit = FloatLit(f: Float) | IntLit(i: int) | StringLit(s: string)
  /** An expression variable: a name with at most one index in the grammar. */
  datatype Variable = Variable(ident: string, indices: seq<Expr>)
  datatype CallExpr = CallExpr(ident: string, args: seq<Expr>)

  /** The expression consisting of a single unary operand and no operators. */
  function Bare(p: Pos, u: Unary): Expr
  {
    Expr(p, LogicalOr(p, LogicalAnd(p, Relative(Addition(Multiplication(u, None), []), []), []), []), [])
  }

  /** `Operator.Capture`: the operator text is the concatenation of the captured pieces. */
  function Capture(pieces: seq<string>): (o: string)
    ensures |pieces| == 1 ==> o == pieces[0]
    ensures |pieces| == 0 ==> o == ""
  {
    if |pieces| == 0 then "" else Capture(pieces[..|pieces| - 1]) + pieces[|pieces| - 1]
  }

  /** Capturing in two parts and joining the results is capturing at once. */
  lemma {:induction false} CaptureConcat(a: seq<string>, b: seq<string>)
    ensures Capture(a + b) == Capture(a) + Capture(b)
    decreases |b|
  {
    if |b| == 0 {
      assert a + b == a;
    } else {
      assert (a + b)[..|a + b| - 1] == a + b[..|b| - 1];
      CaptureConcat(a, b[..|b| - 1]);
    }
  }

  /** The captured text is as long as the pieces together, so `<` and `=` captured apart give `<=`. */
  lemma CaptureTwo(x: string, y: string)
    ensures Capture([x, y]) == x + y
  {
    assert [x, y][..1] == [x];
  }
}
