/**
 * The expression evaluators of eval/evaluator.go (`expr` ... `basicLit`) and of
 * the earlier eval/eval.go (`evalExpr` ... `evalBasicLit`).  The two revisions
 * differ only in how a variable read treats an unbound name; `Rev` selects one.
 * Each level is a left fold: the left operand is evaluated, then for each
 * operator/operand pair the operand is evaluated (always: there is no
 * short-circuit) and combined with the accumulator by the left value's kind.
 */
module Eval {
  import opened Wrappers
  import opened Types
  import opened Errors
  import opened Coerce
  import opened Builtin
  import opened Ast

  /** `Current` is eval/evaluator.go, `Earlier` is eval/eval.go. */
  datatype Rev = Current | Earlier

  /** The outcome of comparing two floats; NaNs compare `Unordered`. */
  datatype Cmp = Less | Equal | Greater | Unordered

  /** The primitives the evaluator calls but this model does not define. */
  datatype Prims = Prims(rx: Regexp, floatCmp: (Float, Float) -> Cmp)

  /** The name-to-slot environment (`Values`); a scalar slot holds its value. */
  type Env = map<string, Value>

  datatype Ctx = Ctx(rev: Rev, values: Env, prims: Prims)

  function CursorOf(p: Pos): Cursor
  {
    Cursor(p.line, p.column)
  }

  /** The reflect kind name of a value held in a slot (`top`) or inside a slice. */
  function KindName(v: Value, top: bool): string
  {
    if v.VArray? then "slice" else if top then "ptr" else Name(TypeOf(v))
  }

  /** The text of the `reflect.ValueError` for `call` applied to a value of the given kind. */
  function ValueError(call: string, kind: string): Error
  {
    Runtime("reflect: call of reflect.Value." + call + " on " + kind + " Value")
  }

  const SliceIndexPanic: string := "reflect: slice index out of range"

  // ---------------------------------------------------------------------------
  // The fold levels

  /** `expr`: a chain with at least one `||` yields a bool. */
  function EvalExpr(c: Ctx, n: Expr): (r: Outcome<Value>)
    ensures r.Ok? && |n.right| > 0 ==> r.value.VBool?
    decreases n, 1
  {
    match EvalLogicalOr(c, n.left)
    case Ok(l) => FoldOr(c, n, 0, l)
    case Fail(e) => Fail(e)
    case Crash(s) => Crash(s)
  }

  /** `l || r1 || ...` from the k-th right operand on; a non-empty fold yields a bool. */
  function FoldOr(c: Ctx, n: Expr, k: nat, l: Value): (r: Outcome<Value>)
    requires k <= |n.right|
    ensures r.Ok? && k < |n.right| ==> r.value.VBool?
    decreases n, 0, |n.right| - k
  {
    if k == |n.right| then Ok(l)
    else match OpLogicalOr(c, n.right[k], l)
      case Ok(v) => FoldOr(c, n, k + 1, v)
      case Fail(e) => Fail(e)
      case Crash(s) => Crash(s)
  }

  /** `||`: the right operand is evaluated first, whatever the left value. */
  function OpLogicalOr(c: Ctx, n: Ast.OpLogicalOr, l: Value): (r: Outcome<Value>)
    ensures r.Ok? ==> l.VBool? && r.value.VBool?
    decreases n, 2
  {
    match EvalLogicalOr(c, n.logicalOr)
    case Ok(rv) => Logical(true, l, rv, CursorOf(n.pos))
    case Fail(e) => Fail(e)
    case Crash(s) => Crash(s)
  }

  /**
   * Combines two operands of `||` (`or`) or `&&`: the left one must be a bool
   * (otherwise the error has no position), the right one must pass `toBool`.
   */
  function Logical(or: bool, l: Value, rv: Value, pos: Cursor): (r: Outcome<Value>)
    ensures r.Ok? <==> l.VBool? && rv.VBool?
    ensures r.Ok? ==> r.value == VBool(if or then l.b || rv.b else l.b && rv.b)
    ensures !l.VBool? ==> r == Fail(InvalidOperation(NoPos))
    ensures l.VBool? && !rv.VBool? ==> r == Fail(InvalidOperation(pos))
  {
    if !l.VBool? then Fail(InvalidOperation(NoPos))
    else
      var (rb, ok) := ToBool(rv);
      if !ok then Fail(InvalidOperation(pos))
      else Ok(VBool(if or then l.b || rb else l.b && rb))
  }

  function EvalLogicalOr(c: Ctx, n: Ast.LogicalOr): Outcome<Value>
    decreases n, 1
  {
    match EvalLogicalAnd(c, n.left)
    case Ok(l) => FoldAnd(c, n, 0, l)
    case Fail(e) => Fail(e)
    case Crash(s) => Crash(s)
  }

  function FoldAnd(c: Ctx, n: Ast.LogicalOr, k: nat, l: Value): (r: Outcome<Value>)
    requires k <= |n.right|
    ensures r.Ok? && k < |n.right| ==> r.value.VBool?
    decreases n, 0, |n.right| - k
  {
    if k == |n.right| then Ok(l)
    else match OpLogicalAnd(c, n.right[k], l)
      case Ok(v) => FoldAnd(c, n, k + 1, v)
      case Fail(e) => Fail(e)
      case Crash(s) => Crash(s)
  }

  /** `&&`: the right operand is evaluated first, whatever the left value. */
  function OpLogicalAnd(c: Ctx, n: Ast.OpLogicalAnd, l: Value): (r: Outcome<Value>)
    ensures r.Ok? ==> l.VBool? && r.value.VBool?
    decreases n, 2
  {
    match EvalLogicalAnd(c, n.logicalAnd)
    case Ok(rv) => Logical(false, l, rv, CursorOf(n.pos))
    case Fail(e) => Fail(e)
    case Crash(s) => Crash(s)
  }

  function EvalLogicalAnd(c: Ctx, n: Ast.LogicalAnd): Outcome<Value>
    decreases n, 1
  {
    match EvalRelative(c, n.left)
    case Ok(l) => FoldRelative(c, n, 0, l)
    case Fail(e) => Fail(e)
    case Crash(s) => Crash(s)
  }

  function FoldRelative(c: Ctx, n: Ast.LogicalAnd, k: nat, l: Value): (r: Outcome<Value>)
    requires k <= |n.right|
    ensures r.Ok? && k < |n.right| ==> r.value.VBool?
    decreases n, 0, |n.right| - k
  {
    if k == |n.right| then Ok(l)
    else match OpRelative(c, n.right[k], l)
      case Ok(v) => FoldRelative(c, n, k + 1, v)
      case Fail(e) => Fail(e)
      case Crash(s) => Crash(s)
  }

  /** A comparison: the right operand is evaluated, then compared by the left value's kind. */
  function OpRelative(c: Ctx, n: Ast.OpRelative, l: Value): (r: Outcome<Value>)
    ensures r.Ok? ==> r.value.VBool?
    decreases n, 2
  {
    match EvalRelative(c, n.relative)
    case Ok(rv) => Compare(n.operator, l, rv, CursorOf(n.pos), c.prims.floatCmp)
    case Fail(e) => Fail(e)
    case Crash(s) => Crash(s)
  }

  predicate IsComparison(op: string)
  {
    op in {"==", "!=", "<=", ">=", "<", ">"}
  }

  function CompareInts(op: string, a: int, b: int): bool
    requires IsComparison(op)
  {
    if op == "==" then a == b
    else if op == "!=" then a != b
    else if op == "<=" then a <= b
    else if op == ">=" then a >= b
    else if op == "<" then a < b
    else a > b
  }

  function CompareFloats(op: string, o: Cmp): bool
    requires IsComparison(op)
  {
    if op == "==" then o == Equal
    else if op == "!=" then o != Equal
    else if op == "<=" then o == Less || o == Equal
    else if op == ">=" then o == Greater || o == Equal
    else if op == "<" then o == Less
    else o == Greater
  }

  /**
   * The comparison table.  Bools and strings support `==` and `!=` only; ints
   * and int64s all six operators; floats all six, but only against an `int`
   * right operand (the float coercions accept nothing else).  A right operand
   * that does not coerce is an invalid operation, positioned for the bool, int
   * and string cases only; an unsupported operator or left kind is an
   * unpositioned invalid operation.
   */
  function Compare(op: string, l: Value, rv: Value, pos: Cursor, cmp: (Float, Float) -> Cmp): (r: Outcome<Value>)
    ensures r.Ok? ==> r.value.VBool?
    ensures !r.Crash?
    ensures r.Fail? ==> r.err.InvalidOperation?
    ensures r.Ok? <==>
              || (l.VBool? && rv.VBool? && op in {"==", "!="})
              || (l.VString? && rv.VString? && op in {"==", "!="})
              || ((l.VInt? || l.VInt64?) && (rv.VInt? || rv.VInt64?) && IsComparison(op))
              || ((l.VFloat32? || l.VFloat64?) && rv.VInt? && IsComparison(op))
    ensures r.Ok? && (l.VInt? || l.VInt64?) ==> r.value.b == CompareInts(op, l.i, rv.i)
    ensures r.Ok? && (l.VBool? || l.VString?) ==> r.value.b == ((op == "==") == (l == rv))
  {
    match l
    case VBool(lb) =>
      var (rb, ok) := ToBool(rv);
      if !ok then Fail(InvalidOperation(pos))
      else if op == "==" then Ok(VBool(lb == rb))
      else if op == "!=" then Ok(VBool(lb != rb))
      else Fail(InvalidOperation(NoPos))
    case VInt(li) =>
      var (ri, ok) := ToInt(rv);
      if !ok then Fail(InvalidOperation(pos))
      else if IsComparison(op) then Ok(VBool(CompareInts(op, li, ri)))
      else Fail(InvalidOperation(NoPos))
    case VInt64(li) =>
      var (ri, ok) := ToInt64(rv);
      if !ok then Fail(InvalidOperation(NoPos))
      else if IsComparison(op) then Ok(VBool(CompareInts(op, li, ri)))
      else Fail(InvalidOperation(NoPos))
    case VFloat32(lf) =>
      var (rf, ok) := ToFloat32(rv);
      if !ok then Fail(InvalidOperation(NoPos))
      else if IsComparison(op) then Ok(VBool(CompareFloats(op, cmp(lf, rf))))
      else Fail(InvalidOperation(NoPos))
    case VFloat64(lf) =>
      var (rf, ok) := ToFloat64(rv);
      if !ok then Fail(InvalidOperation(NoPos))
      else if IsComparison(op) then Ok(VBool(CompareFloats(op, cmp(lf, rf))))
      else Fail(InvalidOperation(NoPos))
    case VString(ls) =>
      var (rs, ok) := ToString(rv);
      if !ok then Fail(InvalidOperation(pos))
      else if op == "==" then Ok(VBool(ls == rs))
      else if op == "!=" then Ok(VBool(ls != rs))
      else Fail(InvalidOperation(NoPos))
    case _ => Fail(InvalidOperation(NoPos))
  }

  function EvalRelative(c: Ctx, n: Relative): Outcome<Value>
    decreases n, 1
  {
    match EvalAddition(c, n.left)
    case Ok(l) => FoldAddition(c, n, 0, l)
    case Fail(e) => Fail(e)
    case Crash(s) => Crash(s)
  }

  function FoldAddition(c: Ctx, n: Relative, k: nat, l: Value): (r: Outcome<Value>)
    requires k <= |n.right|
    ensures r.Ok? && k < |n.right| ==> TypeOf(r.value) == TypeOf(l)
    decreases n, 0, |n.right| - k
  {
    if k == |n.right| then Ok(l)
    else match OpAddition(c, n.right[k], l)
      case Ok(v) => FoldAddition(c, n, k + 1, v)
      case Fail(e) => Fail(e)
      case Crash(s) => Crash(s)
  }

  /** `+` / `-`: the right operand is evaluated, then combined by the left value's kind. */
  function OpAddition(c: Ctx, n: Ast.OpAddition, l: Value): (r: Outcome<Value>)
    ensures r.Ok? ==> TypeOf(r.value) == TypeOf(l)
    decreases n, 2
  {
    match EvalAddition(c, n.addition)
    case Ok(rv) => Arith(n.operator, l, rv, CursorOf(n.pos))
    case Fail(e) => Fail(e)
    case Crash(s) => Crash(s)
  }

  /**
   * The arithmetic table: `+` and `-` on int, int64, float32 and float64 left
   * operands, the result having the left operand's kind; integer results wrap
   * at 64 bits.  A float left operand needs an `int` right operand.
   */
  function Arith(op: string, l: Value, rv: Value, pos: Cursor): (r: Outcome<Value>)
    ensures r.Ok? ==> TypeOf(r.value) == TypeOf(l)
    ensures !r.Crash?
    ensures r.Fail? ==> r.err.InvalidOperation?
    ensures r.Ok? <==>
              op in {"+", "-"} &&
              (((l.VInt? || l.VInt64?) && (rv.VInt? || rv.VInt64?)) || ((l.VFloat32? || l.VFloat64?) && rv.VInt?))
    ensures r.Ok? && (l.VInt? || l.VInt64?) ==> r.value.i == Wrap64(if op == "+" then l.i + rv.i else l.i - rv.i)
  {
    match l
    case VInt(li) =>
      var (ri, ok) := ToInt(rv);
      if !ok then Fail(InvalidOperation(pos))
      else if op == "+" then Ok(VInt(Wrap64(li + ri)))
      else if op == "-" then Ok(VInt(Wrap64(li - ri)))
      else Fail(InvalidOperation(NoPos))
    case VInt64(li) =>
      var (ri, ok) := ToInt64(rv);
      if !ok then Fail(InvalidOperation(NoPos))
      else if op == "+" then Ok(VInt64(Wrap64(li + ri)))
      else if op == "-" then Ok(VInt64(Wrap64(li - ri)))
      else Fail(InvalidOperation(NoPos))
    case VFloat32(lf) =>
      var (rf, ok) := ToFloat32(rv);
      if !ok then Fail(InvalidOperation(NoPos))
      else if op == "+" then Ok(VFloat32(FAdd(W32, lf, rf)))
      else if op == "-" then Ok(VFloat32(FSub(W32, lf, rf)))
      else Fail(InvalidOperation(NoPos))
    case VFloat64(lf) =>
      var (rf, ok) := ToFloat64(rv);
      if !ok then Fail(InvalidOperation(NoPos))
      else if op == "+" then Ok(VFloat64(FAdd(W64, lf, rf)))
      else if op == "-" then Ok(VFloat64(FSub(W64, lf, rf)))
      else Fail(InvalidOperation(NoPos))
    case _ => Fail(InvalidOperation(NoPos))
  }

  /** `*` and `/` operands are never evaluated: the fold keeps its left value. */
  function EvalAddition(c: Ctx, n: Addition): Outcome<Value>
    decreases n, 1
  {
    match EvalMultiplication(c, n.left)
    case Ok(l) => FoldMultiplication(c, n, 0, l)
    case Fail(e) => Fail(e)
    case Crash(s) => Crash(s)
  }

  function FoldMultiplication(c: Ctx, n: Addition, k: nat, l: Value): (r: Outcome<Value>)
    requires k <= |n.right|
    decreases n, 0, |n.right| - k
  {
    if k == |n.right| then Ok(l)
    else match OpMultiplication(n.right[k], l)
      case Ok(v) => FoldMultiplication(c, n, k + 1, v)
      case Fail(e) => Fail(e)
      case Crash(s) => Crash(s)
  }

  /** `opMultiplication` returns its left value unchanged. */
  function OpMultiplication(n: Ast.OpMultiplication, l: Value): Outcome<Value>
  {
    Ok(l)
  }

  /** The exponent of a `Multiplication` is never evaluated. */
  function EvalMultiplication(c: Ctx, n: Multiplication): Outcome<Value>
    decreases n, 1
  {
    EvalUnary(c, n.unary)
  }

  /** `unary`: a negated operand succeeds only on a numeric kind, which it keeps. */
  function EvalUnary(c: Ctx, n: Unary): (r: Outcome<Value>)
    ensures n.Negated? && r.Ok? ==> r.value.VInt? || r.value.VInt64? || r.value.VFloat32? || r.value.VFloat64?
    ensures n.Negated? && r.Ok? ==> EvalPrimary(c, n.negated).Ok? && TypeOf(r.value) == TypeOf(EvalPrimary(c, n.negated).value)
    decreases n, 1
  {
    match n
    case Plain(p) => EvalPrimary(c, p)
    case Negated(p) =>
      match EvalPrimary(c, p)
      case Ok(v) => Negate(v)
      case Fail(e) => Fail(e)
      case Crash(s) => Crash(s)
  }

  /** Negation of int, int64 (wrapping) and float values; anything else is an invalid operation. */
  function Negate(v: Value): (r: Outcome<Value>)
    ensures r.Ok? <==> v.VInt? || v.VInt64? || v.VFloat32? || v.VFloat64?
    ensures r.Ok? ==> TypeOf(r.value) == TypeOf(v)
    ensures r.Ok? && (v.VInt? || v.VInt64?) ==> r.value.i == Wrap64(-v.i)
    ensures !r.Ok? ==> r == Fail(InvalidOperation(NoPos))
  {
    match v
    case VInt(i) => Ok(VInt(Wrap64(-i)))
    case VInt64(i) => Ok(VInt64(Wrap64(-i)))
    case VFloat32(f) => Ok(VFloat32(FNeg(W32, f)))
    case VFloat64(f) => Ok(VFloat64(FNeg(W64, f)))
    case _ => Fail(InvalidOperation(NoPos))
  }

  /**
   * `primary`: a variable read succeeds only on a bound name, in either
   * revision, and yields the element its indices lead to inside the slot.
   */
  function EvalPrimary(c: Ctx, n: Primary): (r: Outcome<Value>)
    ensures n.alt.Var? && r.Ok? ==> n.alt.variable.ident in c.values
    ensures n.alt.Var? && r.Ok? && n.alt.variable.ident in c.values ==>
                      Reaches(c.values[n.alt.variable.ident], r.value, |n.alt.variable.indices|)
    ensures n.alt.Var? && n.alt.variable.ident !in c.values && c.rev == Current ==> r == Fail(Undefined(CursorOf(n.pos), n.alt.variable.ident))
    decreases n, 1
  {
    match n.alt
    case Call(call) =>
      (match EvalArgs(c, n, 0, [])
       case Ok(args) => Builtin.Call(call.ident, args, c.prims.rx)
       case Fail(e) => Fail(e)
       case Crash(s) => Crash(s))
    case Var(variable) =>
      if variable.ident in c.values then ReadVariable(c, n, 0, Some(c.values[variable.ident]), true)
      else if c.rev == Current then Fail(Undefined(CursorOf(n.pos), variable.ident))
      else ReadVariable(c, n, 0, None, true)
    case Lit(lit) => Ok(BasicLit(lit))
    case SubExpr(e) => EvalExpr(c, e)
  }

  /** The call arguments from the k-th on, evaluated left to right and appended to `acc`. */
  function EvalArgs(c: Ctx, n: Primary, k: nat, acc: seq<Value>): (r: Outcome<seq<Value>>)
    requires n.alt.Call? && k <= |n.alt.callExpr.args|
    ensures r.Ok? ==> |r.value| == |acc| + |n.alt.callExpr.args| - k && r.value[..|acc|] == acc
    decreases n, 0, |n.alt.callExpr.args| - k
  {
    if k == |n.alt.callExpr.args| then Ok(acc)
    else match EvalExpr(c, n.alt.callExpr.args[k])
      case Ok(v) => EvalArgs(c, n, k + 1, acc + [v])
      case Fail(e) => Fail(e)
      case Crash(s) => Crash(s)
  }

  /**
   * A variable read, from its k-th index on.  `v` is the reflect value reached
   * so far (`None` for the zero `reflect.Value` of an unbound name in the
   * earlier revision) and `top` says whether it is still the slot itself.  An
   * index is evaluated and must be an `int`; it is then applied without a range
   * check, so an index outside a slice panics with a string (a crash), and
   * indexing a scalar or the zero value panics with a `reflect.ValueError`.
   */
  function ReadVariable(c: Ctx, n: Primary, k: nat, v: Option<Value>, top: bool): (r: Outcome<Value>)
    requires n.alt.Var? && k <= |n.alt.variable.indices|
    ensures r.Ok? ==> v.Some? && Reaches(v.value, r.value, |n.alt.variable.indices| - k)
    decreases n, 0, |n.alt.variable.indices| - k
  {
    var ix := n.alt.variable.indices;
    if k == |ix| then
      if v.None? then Fail(ValueError("Interface", "zero")) else Ok(v.value)
    else match EvalExpr(c, ix[k])
      case Ok(r) =>
        if !r.VInt? then Fail(NonIntegerIndex(CursorOf(ix[k].pos)))
        else if v.None? then Fail(ValueError("Index", "zero"))
        else if !v.value.VArray? then Fail(ValueError("Index", KindName(v.value, top)))
        else if r.i < 0 || r.i >= |v.value.elems| then Crash(SliceIndexPanic)
        else
          var res := ReadVariable(c, n, k + 1, Some(v.value.elems[r.i]), false);
          ReachesCons(v.value, r.i, res, |ix| - k - 1);
          res
      case Fail(e) => Fail(e)
      case Crash(s) => Crash(s)
  }

  /** What an element of a slice reaches, the slice reaches with one more index. */
  lemma ReachesCons(v: Value, i: int, r: Outcome<Value>, n: nat)
    requires v.VArray? && 0 <= i < |v.elems|
    ensures r.Ok? && Reaches(v.elems[i], r.value, n) ==> Reaches(v, r.value, n + 1)
  {
    if r.Ok? && Reaches(v.elems[i], r.value, n) {
      var p :| ValidPath(v.elems[i], p) && |p| == n && At(v.elems[i], p) == r.value;
      assert ([i] + p)[1..] == p;
      assert ValidPath(v, [i] + p) && At(v, [i] + p) == r.value;
    }
  }

  /** Literals: an integer literal is an `int64`, a float literal a `float64`. */
  function BasicLit(n: Ast.BasicLit): (v: Value)
    ensures n.IntLit? ==> v == VInt64(n.i)
    ensures n.FloatLit? ==> v == VFloat64(n.f)
    ensures n.StringLit? ==> v == VString(n.s)
  {
    match n
    case FloatLit(f) => VFloat64(f)
    case IntLit(i) => VInt64(i)
    case StringLit(s) => VString(s)
  }

  // ---------------------------------------------------------------------------
  // Properties of the evaluator

  /** `||` does not short-circuit: a failing right operand fails the operation even after `true`. */
  lemma OrEvaluatesRightOperand(c: Ctx, n: Ast.OpLogicalOr, e: Error)
    requires EvalLogicalOr(c, n.logicalOr) == Fail(e)
    ensures OpLogicalOr(c, n, VBool(true)) == Fail(e)
  {
  }

  /** `&&` does not short-circuit: a failing right operand fails the operation even after `false`. */
  lemma AndEvaluatesRightOperand(c: Ctx, n: Ast.OpLogicalAnd, e: Error)
    requires EvalLogicalAnd(c, n.logicalAnd) == Fail(e)
    ensures OpLogicalAnd(c, n, VBool(false)) == Fail(e)
  {
  }

  lemma {:induction false} FoldMultiplicationKeeps(c: Ctx, n: Addition, k: nat, l: Value)
    requires k <= |n.right|
    ensures FoldMultiplication(c, n, k, l) == Ok(l)
    decreases |n.right| - k
  {
    if k < |n.right| {
      FoldMultiplicationKeeps(c, n, k + 1, l);
    }
  }

  /**
   * `*`, `/` and `^` are inert: a multiplicative chain evaluates to its first
   * unary operand, whatever its factors and exponent are.
   */
  lemma MultiplicationInert(c: Ctx, n: Addition)
    ensures EvalAddition(c, n) == EvalUnary(c, n.left.unary)
  {
    match EvalUnary(c, n.left.unary)
    case Ok(l) => FoldMultiplicationKeeps(c, n, 0, l);
    case Fail(_) =>
    case Crash(_) =>
  }

  /**
   * A bare integer literal evaluates to an `int64`, which is not an `int`: it
   * can be neither an index nor an array length.
   */
  lemma IntLiteralIsInt64(c: Ctx, p: Pos, n: int)
    ensures EvalExpr(c, Bare(p, Plain(Primary(p, Lit(IntLit(n)))))) == Ok(VInt64(n))
  {
    var e := Bare(p, Plain(Primary(p, Lit(IntLit(n)))));
    var add := e.left.left.left.left;
    assert EvalPrimary(c, Primary(p, Lit(IntLit(n)))) == Ok(VInt64(n));
    assert EvalMultiplication(c, add.left) == Ok(VInt64(n));
    assert FoldMultiplication(c, add, 0, VInt64(n)) == Ok(VInt64(n));
    assert EvalAddition(c, add) == Ok(VInt64(n));
    assert EvalRelative(c, e.left.left.left) == Ok(VInt64(n));
    assert EvalLogicalAnd(c, e.left.left) == Ok(VInt64(n));
    assert EvalLogicalOr(c, e.left) == Ok(VInt64(n));
  }

  /**
   * The two revisions agree on a variable that is bound; on an unbound one the
   * current revision reports it undefined and the earlier one reads the zero
   * `reflect.Value`.
   */
  lemma RevisionsOnUnboundVariable(values: Env, prims: Prims, p: Pos, x: string)
    requires x !in values
    ensures EvalPrimary(Ctx(Current, values, prims), Primary(p, Var(Variable(x, [])))) == Fail(Undefined(CursorOf(p), x))
    ensures EvalPrimary(Ctx(Earlier, values, prims), Primary(p, Var(Variable(x, [])))) == Fail(ValueError("Interface", "zero"))
  {
  }
}
