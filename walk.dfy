/**
 * The generic traversal of ast/walk.go.  The type switch of `Walk` is the
 * family of `...Tree` functions below: each gives a node together with the
 * children `Walk` descends into, in order, or the panic that descending
 * raises (a nil-pointer dereference for the nil `*Expr` of an `else` branch
 * and the nil `*TypeLit` of a named type, the "unreachable" error for node
 * types the switch lacks).  `Walk` itself is the visiting discipline: visit
 * the node, stop if the visitor returns nil, otherwise walk the children with
 * the returned visitor and send it a final `Visit(nil)`.
 */
module Walk {
  import opened Wrappers
  import opened Errors
  import opened Ast

  /**
   * The nodes a walk hands to its visitor.  `NAlt` is a statement's one
   * alternative (`*VarDecl`, `*ScanStmt`, ...), identified by its statement's
   * id; a `None` payload is a typed nil pointer.
   */
  datatype Node =
    | NSource(source: Source)
    | NBlock(block: Block)
    | NStatement(statement: Statement)
    | NAlt(owner: nat, alt: StmtNode)
    | NVarSpec(spec: VarSpec)
    | NType(typ: TypeSpec)
    | NTypeLit(lit: Option<TypeSpec>)
    | NArrayType(array: TypeSpec)
    | NReference(ref: Reference)
    | NIfBranch(branch: IfBranch)
    | NRangeClause(range: Option<RangeClause>)
    | NExpr(expr: Option<Expr>)
    | NLogicalOr(logicalOr: LogicalOr)
    | NOpLogicalOr(opLogicalOr: OpLogicalOr)
    | NLogicalAnd(logicalAnd: LogicalAnd)
    | NOpLogicalAnd(opLogicalAnd: OpLogicalAnd)
    | NRelative(relative: Relative)
    | NOpRelative(opRelative: OpRelative)
    | NAddition(addition: Addition)
    | NOpAddition(opAddition: OpAddition)
    | NMultiplication(multiplication: Multiplication)
    | NOpMultiplication(opMultiplication: OpMultiplication)
    | NUnary(unary: Unary)
    | NPrimary(primary: Option<Primary>)

  /**
   * A node and what descending into it does: walk `children`, or, when
   * `panic` is present, panic with that error.
   */
  datatype Tree = Tree(node: Node, children: seq<Tree>, panic: Option<Error>)

  function Inner(n: Node, children: seq<Tree>): Tree
  {
    Tree(n, children, None)
  }

  function Panicking(n: Node, e: Error): Tree
  {
    Tree(n, [], Some(e))
  }

  function Unreachable(typeName: string): Error
  {
    Message("unreachable, with " + typeName)
  }

  // ---------------------------------------------------------------------------
  // The children of each node type

  function SourceTree(n: Source): (t: Tree)
    ensures t.node == NSource(n)
  {
    Inner(NSource(n), [BlockTree(n.block)])
  }

  /** A block's children are its statements, in order. */
  function BlockTree(b: Block): (t: Tree)
    ensures t.node == NBlock(b)
    ensures t.panic.None? && |t.children| == |b.statements|
    ensures forall i :: 0 <= i < |b.statements| ==> t.children[i] == StatementTree(b.statements[i])
    decreases b, 1
  {
    Inner(NBlock(b), seq(|b.statements|, i requires 0 <= i < |b.statements| => StatementTree(b.statements[i])))
  }

  /** A statement's only child is its one alternative. */
  function StatementTree(s: Statement): (t: Tree)
    ensures t.node == NStatement(s) && t.panic.None? && t.children == [AltTree(s.id, s.node)]
    decreases s, 1
  {
    Inner(NStatement(s), [AltTree(s.id, s.node)])
  }

  function AltTree(owner: nat, n: StmtNode): (t: Tree)
    ensures t.node == NAlt(owner, n) && t.panic.None?
    decreases n, 1
  {
    Inner(NAlt(owner, n), match n
      case VarDecl(spec) => [VarSpecTree(spec)]
      case ScanStmt(s) => RefTrees(s.refList)
      case ScanlnStmt(s) => RefTrees(s.refList)
      case CheckStmt(c) => seq(|c.exprList|, i requires 0 <= i < |c.exprList| => ExprTree(c.exprList[i]))
      case IfStmt(branches) => seq(|branches|, i requires 0 <= i < |branches| => BranchTree(branches[i]))
      case ForStmt(header, body) => [RangeTree(header), BlockTree(body)]
      case EOLStmt(_) => []
      case EOFStmt(_) => [])
  }

  /** The children of an if statement are its branches, in order. */
  lemma IfTreeChildren(owner: nat, branches: seq<IfBranch>)
    ensures |AltTree(owner, IfStmt(branches)).children| == |branches|
    ensures forall i :: 0 <= i < |branches| ==> AltTree(owner, IfStmt(branches)).children[i] == BranchTree(branches[i])
  {
  }

  /** `Walk` has no case for `*Reference`: descending into a scan target panics. */
  function RefTrees(refs: seq<Reference>): seq<Tree>
  {
    seq(|refs|, i requires 0 <= i < |refs| => Panicking(NReference(refs[i]), Unreachable("*ast.Reference")))
  }

  /** The range clause of a for statement (nil for a scan header); `Walk` has no case for it. */
  function RangeTree(h: ForHeader): Tree
  {
    Panicking(NRangeClause(if h.Range? then Some(h.clause) else None), Unreachable("*ast.RangeClause"))
  }

  /** A branch's children are its condition (possibly a nil `*Expr`) and then its block. */
  function BranchTree(br: IfBranch): (t: Tree)
    ensures t.node == NIfBranch(br)
    decreases br, 1
  {
    Inner(NIfBranch(br), [
      if br.condition.Some? then ExprTree(br.condition.value) else Panicking(NExpr(None), Runtime(NilDeref)),
      BlockTree(br.block)])
  }

  function VarSpecTree(spec: VarSpec): Tree
    decreases spec, 1
  {
    Inner(NVarSpec(spec), [TypeTree(spec.typ)])
  }

  /** A `Type`'s only child is its `*TypeLit`, nil for a named type. */
  function TypeTree(t: TypeSpec): Tree
    decreases t, 3
  {
    Inner(NType(t), [TypeLitTree(t)])
  }

  function TypeLitTree(t: TypeSpec): Tree
    decreases t, 2
  {
    if t.TypeName? then Panicking(NTypeLit(None), Runtime(NilDeref))
    else Inner(NTypeLit(Some(t)), [ArrayTypeTree(t)])
  }

  /** An array type's only child is its length; the element type is not walked. */
  function ArrayTypeTree(t: TypeSpec): Tree
    requires t.TypeLit?
    decreases t, 1
  {
    Inner(NArrayType(t), [ExprTree(t.arrayLength)])
  }

  function ExprTree(e: Expr): (t: Tree)
    ensures t.node == NExpr(Some(e))
    decreases e, 1
  {
    Inner(NExpr(Some(e)), [LogicalOrTree(e.left)] +
      seq(|e.right|, i requires 0 <= i < |e.right| => OpLogicalOrTree(e.right[i])))
  }

  function LogicalOrTree(n: LogicalOr): Tree
    decreases n, 1
  {
    Inner(NLogicalOr(n), [LogicalAndTree(n.left)] +
      seq(|n.right|, i requires 0 <= i < |n.right| => OpLogicalAndTree(n.right[i])))
  }

  function OpLogicalOrTree(n: OpLogicalOr): Tree
    decreases n, 1
  {
    Inner(NOpLogicalOr(n), [LogicalOrTree(n.logicalOr)])
  }

  function LogicalAndTree(n: LogicalAnd): Tree
    decreases n, 1
  {
    Inner(NLogicalAnd(n), [RelativeTree(n.left)] +
      seq(|n.right|, i requires 0 <= i < |n.right| => OpRelativeTree(n.right[i])))
  }

  function OpLogicalAndTree(n: OpLogicalAnd): Tree
    decreases n, 1
  {
    Inner(NOpLogicalAnd(n), [LogicalAndTree(n.logicalAnd)])
  }

  function RelativeTree(n: Relative): Tree
    decreases n, 1
  {
    Inner(NRelative(n), [AdditionTree(n.left)] +
      seq(|n.right|, i requires 0 <= i < |n.right| => OpAdditionTree(n.right[i])))
  }

  function OpRelativeTree(n: OpRelative): Tree
    decreases n, 1
  {
    Inner(NOpRelative(n), [RelativeTree(n.relative)])
  }

  function AdditionTree(n: Addition): Tree
    decreases n, 1
  {
    Inner(NAddition(n), [MultiplicationTree(n.left)] +
      seq(|n.right|, i requires 0 <= i < |n.right| => OpMultiplicationTree(n.right[i])))
  }

  function OpAdditionTree(n: OpAddition): Tree
    decreases n, 1
  {
    Inner(NOpAddition(n), [AdditionTree(n.addition)])
  }

  /** A multiplication's children are its unary operand and its exponent, which may be a nil `*Primary`. */
  function MultiplicationTree(n: Multiplication): Tree
    decreases n, 1
  {
    Inner(NMultiplication(n), [UnaryTree(n.unary), PrimaryTree(n.exponent)])
  }

  function OpMultiplicationTree(n: OpMultiplication): Tree
    decreases n, 1
  {
    Inner(NOpMultiplication(n), [MultiplicationTree(n.factor)])
  }

  function UnaryTree(n: Unary): Tree
  {
    Inner(NUnary(n), [PrimaryTree(Some(if n.Plain? then n.value else n.negated))])
  }

  /** A primary is a leaf, nil or not. */
  function PrimaryTree(p: Option<Primary>): Tree
  {
    Inner(NPrimary(p), [])
  }

  // ---------------------------------------------------------------------------
  // Walk and Inspect

  /**
   * `Walk(v, n)`.  The visitor is its state `s` and its value `v`; `visit`
   * gets the node (`None` for the trailing `Visit(nil)`) and gives the new
   * state and the visitor for the children (`None` for nil), or panics.
   */
  function Walk<S, V>(visit: (S, V, Option<Node>) -> Outcome<(S, Option<V>)>, v: V, s: S, t: Tree): Outcome<S>
    decreases t, 1
  {
    match visit(s, v, Some(t.node))
    case Fail(e) => Fail(e)
    case Crash(x) => Crash(x)
    case Ok(r) =>
      if r.1.None? then Ok(r.0)
      else if t.panic.Some? then Fail(t.panic.value)
      else match WalkChildren(visit, r.1.value, r.0, t, 0)
        case Ok(s2) =>
          (match visit(s2, r.1.value, None)
           case Ok(fin) => Ok(fin.0)
           case Fail(e) => Fail(e)
           case Crash(x) => Crash(x))
        case Fail(e) => Fail(e)
        case Crash(x) => Crash(x)
  }

  /** The children of `t` from the k-th on, each walked with the same visitor. */
  function WalkChildren<S, V>(visit: (S, V, Option<Node>) -> Outcome<(S, Option<V>)>, v: V, s: S, t: Tree, k: nat): Outcome<S>
    requires k <= |t.children|
    decreases t, 0, |t.children| - k
  {
    if k == |t.children| then Ok(s)
    else match Walk(visit, v, s, t.children[k])
      case Ok(s1) => WalkChildren(visit, v, s1, t, k + 1)
      case Fail(e) => Fail(e)
      case Crash(x) => Crash(x)
  }

  /** A child that walks to s1 hands s1 on to the next one. */
  lemma WalkChildrenStep<S, V>(visit: (S, V, Option<Node>) -> Outcome<(S, Option<V>)>, v: V, s: S, t: Tree, k: nat, s1: S)
    requires k < |t.children| && Walk(visit, v, s, t.children[k]) == Ok(s1)
    ensures WalkChildren(visit, v, s, t, k) == WalkChildren(visit, v, s1, t, k + 1)
  {
  }

  /** A node whose first child is declined and whose second is a block walks its children as it walks the block. */
  lemma WalkSkipThenBlock<S, V>(visit: (S, V, Option<Node>) -> Outcome<(S, Option<V>)>, v: V, s: S, t: Tree, b: Block)
    requires |t.children| == 2 && t.children[1] == BlockTree(b)
    requires visit(s, v, Some(t.children[0].node)) == Ok((s, None))
    ensures WalkChildren(visit, v, s, t, 0) == Walk(visit, v, s, BlockTree(b))
  {
    assert Walk(visit, v, s, t.children[0]) == Ok(s);
    var r := Walk(visit, v, s, BlockTree(b));
    if r.Ok? {
      assert WalkChildren(visit, v, r.value, t, 2) == r;
    }
  }

  /** `inspector.Visit`: call f, and keep the same visitor exactly when it returns true. */
  function Inspector<S>(f: (S, Option<Node>) -> Outcome<(S, bool)>): (S, (), Option<Node>) -> Outcome<(S, Option<()>)>
  {
    (s: S, v: (), n: Option<Node>) =>
      match f(s, n)
      case Ok(r) => Ok((r.0, if r.1 then Some(()) else None))
      case Fail(e) => Fail(e)
      case Crash(x) => Crash(x)
  }

  /** `Inspect(node, f)`. */
  function Inspect<S>(f: (S, Option<Node>) -> Outcome<(S, bool)>, s: S, t: Tree): Outcome<S>
  {
    Walk(Inspector(f), (), s, t)
  }

  // ---------------------------------------------------------------------------
  // The visit trace

  /** No descent into `t` or any node below it panics. */
  predicate Descendable(t: Tree)
    decreases t
  {
    t.panic.None? && forall i :: 0 <= i < |t.children| ==> Descendable(t.children[i])
  }

  /**
   * The calls a visitor that always descends receives: the node, then the
   * calls for each child in order, then `Visit(nil)`.
   */
  function Trace(t: Tree): seq<Option<Node>>
    requires Descendable(t)
    decreases t, 1
  {
    [Some(t.node)] + ChildTraces(t, 0) + [None]
  }

  function ChildTraces(t: Tree, k: nat): seq<Option<Node>>
    requires Descendable(t) && k <= |t.children|
    decreases t, 0, |t.children| - k
  {
    if k == |t.children| then [] else Trace(t.children[k]) + ChildTraces(t, k + 1)
  }

  /** The visitor that records every call it receives and always descends. */
  function Recorder(s: seq<Option<Node>>, v: (), n: Option<Node>): Outcome<(seq<Option<Node>>, Option<()>)>
  {
    Ok((s + [n], Some(())))
  }

  /** Walking with a visitor that always descends makes exactly the calls of `Trace`, in order. */
  lemma {:induction false} WalkTrace(s: seq<Option<Node>>, t: Tree)
    requires Descendable(t)
    ensures Walk(Recorder, (), s, t) == Ok(s + Trace(t))
    decreases t, 1
  {
    WalkChildrenTrace(s + [Some(t.node)], t, 0);
    assert s + [Some(t.node)] + ChildTraces(t, 0) + [None] == s + Trace(t);
  }

  lemma {:induction false} WalkChildrenTrace(s: seq<Option<Node>>, t: Tree, k: nat)
    requires Descendable(t) && k <= |t.children|
    ensures WalkChildren(Recorder, (), s, t, k) == Ok(s + ChildTraces(t, k))
    decreases t, 0, |t.children| - k
  {
    if k < |t.children| {
      var c := t.children[k];
      assert Descendable(c);
      WalkTrace(s, c);
      WalkChildrenTrace(s + Trace(c), t, k + 1);
      assert WalkChildren(Recorder, (), s, t, k) == WalkChildren(Recorder, (), s + Trace(c), t, k + 1);
      assert ChildTraces(t, k) == Trace(c) + ChildTraces(t, k + 1);
      assert s + Trace(c) + ChildTraces(t, k + 1) == s + (Trace(c) + ChildTraces(t, k + 1));
    } else {
      assert s + [] == s;
    }
  }

  /** A visitor that declines a node receives no other call for it: no children and no `Visit(nil)`. */
  lemma WalkPruned<S, V>(visit: (S, V, Option<Node>) -> Outcome<(S, Option<V>)>, v: V, s: S, t: Tree, s1: S)
    requires visit(s, v, Some(t.node)) == Ok((s1, None))
    ensures Walk(visit, v, s, t) == Ok(s1)
  {
  }

  /** Any property of the visitor's state that every visit keeps, the whole walk keeps. */
  lemma {:induction false} WalkKeeps<S, V>(visit: (S, V, Option<Node>) -> Outcome<(S, Option<V>)>, inv: S -> bool, v: V, s: S, t: Tree)
    requires forall s', v', n :: inv(s') && visit(s', v', n).Ok? ==> inv(visit(s', v', n).value.0)
    requires inv(s)
    ensures Walk(visit, v, s, t).Ok? ==> inv(Walk(visit, v, s, t).value)
    decreases t, 1
  {
    var r := visit(s, v, Some(t.node));
    if r.Ok? && r.value.1.Some? && t.panic.None? {
      var w := r.value.1.value;
      WalkChildrenKeeps(visit, inv, w, r.value.0, t, 0);
      var c := WalkChildren(visit, w, r.value.0, t, 0);
      if c.Ok? {
        var fin := visit(c.value, w, None);
        assert fin.Ok? ==> inv(fin.value.0);
      }
    }
  }

  lemma {:induction false} WalkChildrenKeeps<S, V>(visit: (S, V, Option<Node>) -> Outcome<(S, Option<V>)>, inv: S -> bool, v: V, s: S, t: Tree, k: nat)
    requires forall s', v', n :: inv(s') && visit(s', v', n).Ok? ==> inv(visit(s', v', n).value.0)
    requires inv(s) && k <= |t.children|
    ensures WalkChildren(visit, v, s, t, k).Ok? ==> inv(WalkChildren(visit, v, s, t, k).value)
    decreases t, 0, |t.children| - k
  {
    if k < |t.children| {
      var c := t.children[k];
      WalkKeeps(visit, inv, v, s, c);
      var r := Walk(visit, v, s, c);
      if r.Ok? {
        WalkChildrenKeeps(visit, inv, v, r.value, t, k + 1);
      }
    }
  }

  // ---------------------------------------------------------------------------
  // Inspecting a block statement by statement

  /**
   * An inspection function that descends into every `*Statement` and ignores
   * `Visit(nil)`: inspecting a block with it comes down to inspecting each
   * statement's alternative in turn.
   */
  ghost predicate StatementTransparent<S(!new)>(f: (S, Option<Node>) -> Outcome<(S, bool)>)
  {
    (forall s, st :: f(s, Some(NStatement(st))) == Ok((s, true))) &&
    (forall s :: f(s, None) == Ok((s, false)))
  }

  /** Inspecting the alternatives of `stmts` in order, threading the state. */
  function AltFold<S>(f: (S, Option<Node>) -> Outcome<(S, bool)>, s: S, stmts: seq<Statement>): Outcome<S>
    decreases |stmts|
  {
    if stmts == [] then Ok(s)
    else match Inspect(f, s, AltTree(stmts[0].id, stmts[0].node))
      case Ok(s1) => AltFold(f, s1, stmts[1..])
      case Fail(e) => Fail(e)
      case Crash(x) => Crash(x)
  }

  /** An alternative the function declines is not descended into. */
  lemma AltDeclined<S>(f: (S, Option<Node>) -> Outcome<(S, bool)>, s: S, owner: nat, n: StmtNode, s1: S)
    requires f(s, Some(NAlt(owner, n))) == Ok((s1, false))
    ensures Inspect(f, s, AltTree(owner, n)) == Ok(s1)
  {
    assert Inspector(f)(s, (), Some(NAlt(owner, n))) == Ok((s1, None));
  }

  /** Inspecting a block whose node the function accepts is the fold over its statements. */
  lemma InspectBlock<S(!new)>(f: (S, Option<Node>) -> Outcome<(S, bool)>, s: S, b: Block, s1: S)
    requires StatementTransparent(f)
    requires f(s, Some(NBlock(b))) == Ok((s1, true))
    ensures Inspect(f, s, BlockTree(b)) == AltFold(f, s1, b.statements)
  {
    var t := BlockTree(b);
    assert Inspector(f)(s, (), Some(NBlock(b))) == Ok((s1, Some(())));
    InspectStatements(f, s1, b, 0);
    var r := WalkChildren(Inspector(f), (), s1, t, 0);
    if r.Ok? {
      assert f(r.value, None) == Ok((r.value, false));
      assert Inspector(f)(r.value, (), None) == Ok((r.value, None));
    }
    assert b.statements[0..] == b.statements;
  }

  lemma {:induction false} InspectStatements<S(!new)>(f: (S, Option<Node>) -> Outcome<(S, bool)>, s: S, b: Block, k: nat)
    requires StatementTransparent(f) && k <= |b.statements|
    ensures WalkChildren(Inspector(f), (), s, BlockTree(b), k) == AltFold(f, s, b.statements[k..])
    decreases |b.statements| - k
  {
    var t := BlockTree(b);
    if k < |b.statements| {
      var st := b.statements[k];
      var c := t.children[k];
      assert c == StatementTree(st);
      assert f(s, Some(NStatement(st))) == Ok((s, true));
      assert Inspector(f)(s, (), Some(NStatement(st))) == Ok((s, Some(())));
      var a := Walk(Inspector(f), (), s, AltTree(st.id, st.node));
      assert WalkChildren(Inspector(f), (), s, c, 1) == Ok(s);
      assert WalkChildren(Inspector(f), (), s, c, 0) == a;
      if a.Ok? {
        assert f(a.value, None) == Ok((a.value, false));
        assert Inspector(f)(a.value, (), None) == Ok((a.value, None));
        assert Walk(Inspector(f), (), s, c) == a;
        InspectStatements(f, a.value, b, k + 1);
      } else {
        assert Walk(Inspector(f), (), s, c) == a;
      }
      assert b.statements[k..][1..] == b.statements[k + 1..];
    }
  }

  /** Folding over two pieces is folding over the first and continuing with the second. */
  lemma {:induction false} AltFoldAppend<S>(f: (S, Option<Node>) -> Outcome<(S, bool)>, s: S, a: seq<Statement>, b: seq<Statement>)
    ensures AltFold(f, s, a + b) ==
      match AltFold(f, s, a)
      case Ok(s1) => AltFold(f, s1, b)
      case Fail(e) => Fail(e)
      case Crash(x) => Crash(x)
    decreases |a|
  {
    if a == [] {
      assert a + b == b;
    } else {
      assert (a + b)[0] == a[0];
      assert (a + b)[1..] == a[1..] + b;
      match Inspect(f, s, AltTree(a[0].id, a[0].node))
      case Ok(s1) => AltFoldAppend(f, s1, a[1..], b);
      case Fail(_) =>
      case Crash(_) =>
    }
  }

  /** Statements whose alternatives the function declines in state s leave s as it is. */
  lemma {:induction false} AltFoldUnchanged<S>(f: (S, Option<Node>) -> Outcome<(S, bool)>, s: S, stmts: seq<Statement>)
    requires forall i :: 0 <= i < |stmts| ==> f(s, Some(NAlt(stmts[i].id, stmts[i].node))) == Ok((s, false))
    ensures AltFold(f, s, stmts) == Ok(s)
    decreases |stmts|
  {
    if stmts != [] {
      AltDeclined(f, s, stmts[0].id, stmts[0].node, s);
      AltFoldUnchanged(f, s, stmts[1..]);
    }
  }

  /** The fold over one declined statement is that statement's step. */
  lemma AltFoldOne<S>(f: (S, Option<Node>) -> Outcome<(S, bool)>, s: S, st: Statement, s1: S)
    requires f(s, Some(NAlt(st.id, st.node))) == Ok((s1, false))
    ensures AltFold(f, s, [st]) == Ok(s1)
  {
    AltDeclined(f, s, st.id, st.node, s1);
    assert [st][1..] == [];
  }

  /** The fold over one statement is the inspection of its alternative. */
  lemma AltFoldSingle<S>(f: (S, Option<Node>) -> Outcome<(S, bool)>, s: S, st: Statement)
    ensures AltFold(f, s, [st]) == Inspect(f, s, AltTree(st.id, st.node))
  {
    assert [st][1..] == [];
  }

  /**
   * A range loop the function descends into, declining its range clause and
   * accepting its body, is inspected as the fold over the body's statements.
   */
  lemma InspectFor<S(!new)>(f: (S, Option<Node>) -> Outcome<(S, bool)>, s: S, owner: nat, c: RangeClause, body: Block, s1: S)
    requires StatementTransparent(f)
    requires f(s, Some(NAlt(owner, ForStmt(Range(c), body)))) == Ok((s1, true))
    requires f(s1, Some(NRangeClause(Some(c)))) == Ok((s1, false))
    requires f(s1, Some(NBlock(body))) == Ok((s1, true))
    ensures Inspect(f, s, AltTree(owner, ForStmt(Range(c), body))) == AltFold(f, s1, body.statements)
  {
    var t := AltTree(owner, ForStmt(Range(c), body));
    var g := Inspector(f);
    assert t.children == [RangeTree(Range(c)), BlockTree(body)];
    assert g(s, (), Some(t.node)) == Ok((s1, Some(())));
    assert g(s1, (), Some(t.children[0].node)) == Ok((s1, None));
    WalkSkipThenBlock(g, (), s1, t, body);
    InspectBlock(f, s1, body, s1);
    var r := AltFold(f, s1, body.statements);
    if r.Ok? {
      assert f(r.value, None) == Ok((r.value, false));
      assert g(r.value, (), None) == Ok((r.value, None));
    }
  }

}
