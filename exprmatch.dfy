/**
 * The syntactic expression tests the array-reading recognisers use
 * (`exprVar`, `exprInt64`, `exprEq`, `exprEqVar`, `exprEqInt64`; the same
 * definitions appear in gen/py3/arrayline.go and gen/py3/scanarray.go).  They
 * look through an expression with no `||`, `&&` or comparison operators, no
 * exponent and no negation for a single variable or integer literal; the
 * `+`/`-` and `*`/`/` operand lists are not examined.
 */
module ExprMatch {
  import opened Wrappers
  import opened Ast

  /** The innermost multiplication of the left spine, when no `||`, `&&` or comparison is present. */
  function Spine(e: Expr): (m: Option<Multiplication>)
    ensures m.Some? ==> m.value == e.left.left.left.left.left
  {
    if |e.right| == 0 && |e.left.right| == 0 && |e.left.left.right| == 0
    then Some(e.left.left.left.left.left)
    else None
  }

  /** `exprVar`: the name of a bare, unindexed variable. */
  function ExprVar(e: Expr): (r: Option<string>)
    ensures r.Some? ==> Spine(e).Some? && Spine(e).value.exponent.None? && Spine(e).value.unary.Plain?
  {
    match Spine(e)
    case Some(m) =>
      if m.exponent.None? && m.unary.Plain? && m.unary.value.alt.Var? && |m.unary.value.alt.variable.indices| == 0
      then Some(m.unary.value.alt.variable.ident)
      else None
    case None => None
  }

  /** `exprInt64`: the value of a bare integer literal. */
  function ExprInt64(e: Expr): (r: Option<int>)
    ensures r.Some? ==> Spine(e).Some? && Spine(e).value.exponent.None? && Spine(e).value.unary.Plain?
  {
    match Spine(e)
    case Some(m) =>
      if m.exponent.None? && m.unary.Plain? && m.unary.value.alt.Lit? && m.unary.value.alt.basicLit.IntLit?
      then Some(m.unary.value.alt.basicLit.i)
      else None
    case None => None
  }

  /** `exprEq`: both sides are the same bare variable. */
  predicate ExprEq(a: Expr, b: Expr)
  {
    ExprVar(a).Some? && ExprVar(b).Some? && ExprVar(a).value == ExprVar(b).value
  }

  /** `exprEqVar`: the expression is the bare variable `x`. */
  predicate ExprEqVar(a: Expr, x: string)
  {
    ExprVar(a).Some? && ExprVar(a).value == x
  }

  /** `exprEqInt64`: the expression is the bare literal `n`. */
  predicate ExprEqInt64(a: Expr, n: int)
  {
    ExprInt64(a).Some? && ExprInt64(a).value == n
  }

  /** The expression `x`. */
  function VarExpr(p: Pos, x: string): Expr
  {
    Bare(p, Plain(Primary(p, Var(Variable(x, [])))))
  }

  /** The expression `n`. */
  function IntExpr(p: Pos, n: int): Expr
  {
    Bare(p, Plain(Primary(p, Lit(IntLit(n)))))
  }

  /** The tests recognise exactly what they are meant to: a written variable or literal reads back. */
  lemma VarReadsBack(p: Pos, x: string)
    ensures ExprVar(VarExpr(p, x)) == Some(x) && ExprInt64(VarExpr(p, x)) == None
    ensures ExprEqVar(VarExpr(p, x), x)
  {
  }

  lemma IntReadsBack(p: Pos, n: int)
    ensures ExprInt64(IntExpr(p, n)) == Some(n) && ExprVar(IntExpr(p, n)) == None
    ensures ExprEqInt64(IntExpr(p, n), n)
  {
  }

  /** No expression is both a bare variable and a bare literal. */
  lemma VarOrLiteral(e: Expr)
    ensures !(ExprVar(e).Some? && ExprInt64(e).Some?)
  {
  }

  /** `exprEq` relates only bare variables, and relates them exactly when their names agree. */
  lemma ExprEqByName(a: Expr, b: Expr)
    ensures ExprEq(a, b) <==> ExprVar(a).Some? && ExprEqVar(b, ExprVar(a).value)
    ensures ExprEq(a, b) == ExprEq(b, a)
    ensures ExprEq(a, b) ==> ExprEq(a, a)
  {
  }

  lemma ExprEqTransitive(a: Expr, b: Expr, c: Expr)
    requires ExprEq(a, b) && ExprEq(b, c)
    ensures ExprEq(a, c)
  {
  }

  /**
   * A `+`/`-` tail is not looked at: `x + 1` passes for the variable `x`.
   * A negated, indexed or exponentiated variable, or one under a comparison,
   * does not.
   */
  lemma SumPassesForVariable(p: Pos, x: string, tail: seq<OpAddition>, factors: seq<OpMultiplication>)
    ensures ExprVar(Expr(p, LogicalOr(p, LogicalAnd(p,
      Relative(Addition(Multiplication(Plain(Primary(p, Var(Variable(x, [])))), None), factors), tail), []), []), []))
      == Some(x)
  {
  }

  lemma NotBareVariables(p: Pos, x: string, i: Expr, q: Primary, cmp: OpRelative)
    ensures ExprVar(Bare(p, Negated(Primary(p, Var(Variable(x, [])))))) == None
    ensures ExprVar(Bare(p, Plain(Primary(p, Var(Variable(x, [i])))))) == None
    ensures ExprVar(Expr(p, LogicalOr(p, LogicalAnd(p,
      Relative(Addition(Multiplication(Plain(Primary(p, Var(Variable(x, [])))), Some(q)), []), []), []), []), [])) == None
    ensures ExprVar(Expr(p, LogicalOr(p, LogicalAnd(p,
      Relative(Addition(Multiplication(Plain(Primary(p, Var(Variable(x, [])))), None), []), []), [cmp]), []), [])) == None
  {
  }
}
