/**
 * The expression emitters of the Python 3 backend (`genExpr` ... `genBasicLit`
 * in gen/py3/py3.go) and the scan-target text the statement emitters share.
 * Each emitter prints its pieces left to right; by `Writer.PrintConcat` that
 * is the same as printing their concatenation, which is what `ExprText`
 * computes.  A panic (a call expression) ends the emitter with `Crash`.
 */
module Py3Expr {
  import opened Wrappers
  import opened Types
  import opened Errors
  import opened Ast
  import Writer
  import ExprMatch

  /** The `%f` and `%q` formatters, which this model does not interpret. */
  datatype Verbs = Verbs(float: Float -> string, quote: string -> string)

  /** Printing a followed by b: b is not reached when a panics. */
  function Cat(a: Outcome<string>, b: Outcome<string>): (r: Outcome<string>)
    ensures a.Ok? && b.Ok? <==> r.Ok?
    ensures r.Ok? ==> r.value == a.value + b.value
    ensures !a.Ok? ==> r == a
    ensures a.Ok? && !b.Ok? ==> r == b
  {
    match a
    case Ok(x) => (match b
      case Ok(y) => Ok(x + y)
      case Fail(e) => Fail(e)
      case Crash(m) => Crash(m))
    case Fail(e) => Fail(e)
    case Crash(m) => Crash(m)
  }

  /** The error a generator returns after printing `o`, or success when `o` printed. */
  function Status<T>(o: Outcome<T>): (r: Outcome<()>)
    ensures r.Ok? <==> o.Ok?
    ensures o.Fail? ==> r == Fail(o.err)
    ensures o.Crash? ==> r == Crash(o.reason)
  {
    match o
    case Ok(_) => Ok(())
    case Fail(e) => Fail(e)
    case Crash(m) => Crash(m)
  }

  /** `genExpr`: the `||` operands, joined by the operator text. */
  function ExprText(v: Verbs, e: Expr): Outcome<string>
    decreases e, 1
  {
    Cat(LogicalOrText(v, e.left), OrTail(v, e, 0))
  }

  function OrTail(v: Verbs, e: Expr, k: nat): Outcome<string>
    requires k <= |e.right|
    decreases e, 0, |e.right| - k
  {
    if k == |e.right| then Ok("")
    else Cat(Cat(Ok("||"), LogicalOrText(v, e.right[k].logicalOr)), OrTail(v, e, k + 1))
  }

  function LogicalOrText(v: Verbs, n: LogicalOr): Outcome<string>
    decreases n, 1
  {
    Cat(LogicalAndText(v, n.left), AndTail(v, n, 0))
  }

  function AndTail(v: Verbs, n: LogicalOr, k: nat): Outcome<string>
    requires k <= |n.right|
    decreases n, 0, |n.right| - k
  {
    if k == |n.right| then Ok("")
    else Cat(Cat(Ok("&&"), LogicalAndText(v, n.right[k].logicalAnd)), AndTail(v, n, k + 1))
  }

  function LogicalAndText(v: Verbs, n: LogicalAnd): Outcome<string>
    decreases n, 1
  {
    Cat(RelativeText(v, n.left), RelativeTail(v, n, 0))
  }

  function RelativeTail(v: Verbs, n: LogicalAnd, k: nat): Outcome<string>
    requires k <= |n.right|
    decreases n, 0, |n.right| - k
  {
    if k == |n.right| then Ok("")
    else Cat(Cat(Ok(n.right[k].operator), RelativeText(v, n.right[k].relative)), RelativeTail(v, n, k + 1))
  }

  function RelativeText(v: Verbs, n: Relative): Outcome<string>
    decreases n, 1
  {
    Cat(AdditionText(v, n.left), AdditionTail(v, n, 0))
  }

  function AdditionTail(v: Verbs, n: Relative, k: nat): Outcome<string>
    requires k <= |n.right|
    decreases n, 0, |n.right| - k
  {
    if k == |n.right| then Ok("")
    else Cat(Cat(Ok(n.right[k].operator), AdditionText(v, n.right[k].addition)), AdditionTail(v, n, k + 1))
  }

  function AdditionText(v: Verbs, n: Addition): Outcome<string>
    decreases n, 1
  {
    Cat(MultiplicationText(v, n.left), MultiplicationTail(v, n, 0))
  }

  function MultiplicationTail(v: Verbs, n: Addition, k: nat): Outcome<string>
    requires k <= |n.right|
    decreases n, 0, |n.right| - k
  {
    if k == |n.right| then Ok("")
    else Cat(Cat(Ok(n.right[k].operator), MultiplicationText(v, n.right[k].factor)), MultiplicationTail(v, n, k + 1))
  }

  /** `genMultiplication`: the unary operand only; an exponent is not printed. */
  function MultiplicationText(v: Verbs, n: Multiplication): Outcome<string>
    decreases n, 1
  {
    UnaryText(v, n.unary)
  }

  function UnaryText(v: Verbs, n: Unary): Outcome<string>
    decreases n, 1
  {
    match n
    case Plain(p) => PrimaryText(v, p)
    case Negated(p) => Cat(Ok("-"), PrimaryText(v, p))
  }

  /**
   * `genPrimary`: a variable prints its name (used as the format string; an
   * identifier holds no `%`), a parenthesised expression prints without its
   * parentheses, and a call reaches `panic("unreachable")`.
   */
  function PrimaryText(v: Verbs, n: Primary): Outcome<string>
    decreases n, 1
  {
    match n.alt
    case Call(_) => Crash("unreachable")
    case Var(x) => Ok(x.ident)
    case Lit(l) => Ok(BasicLitText(v, l))
    case SubExpr(e) => ExprText(v, e)
  }

  /** `genBasicLit`: `%f`, `%d` and `%q`. */
  function BasicLitText(v: Verbs, n: BasicLit): string
  {
    match n
    case FloatLit(f) => v.float(f)
    case IntLit(i) => Decimal(i)
    case StringLit(s) => v.quote(s)
  }

  lemma CatEmpty(a: Outcome<string>)
    ensures Cat(a, Ok("")) == a
  {
    if a.Ok? {
      assert a.value + "" == a.value;
    }
  }

  /** An expression of one operand prints that operand's text. */
  lemma BareText(v: Verbs, p: Pos, u: Unary)
    ensures ExprText(v, Bare(p, u)) == UnaryText(v, u)
  {
    var e := Bare(p, u);
    var t := UnaryText(v, u);
    assert MultiplicationText(v, e.left.left.left.left.left) == t;
    CatEmpty(t);
    assert AdditionText(v, e.left.left.left.left) == t;
    assert RelativeText(v, e.left.left.left) == t;
    assert LogicalAndText(v, e.left.left) == t;
    assert LogicalOrText(v, e.left) == t;
  }

  /** A variable prints only its name: its indices are dropped. */
  lemma VariablePrintsName(v: Verbs, p: Pos, x: string, ix: seq<Expr>)
    ensures ExprText(v, Bare(p, Plain(Primary(p, Var(Variable(x, ix)))))) == Ok(x)
  {
    BareText(v, p, Plain(Primary(p, Var(Variable(x, ix)))));
  }

  /** A call expression panics. */
  lemma CallPanics(v: Verbs, p: Pos, c: CallExpr)
    ensures ExprText(v, Bare(p, Plain(Primary(p, Call(c))))) == Crash("unreachable")
  {
    BareText(v, p, Plain(Primary(p, Call(c))));
  }

  /** An integer literal prints in decimal, which reads back as the literal. */
  lemma IntLiteralText(v: Verbs, p: Pos, n: int)
    ensures ExprText(v, ExprMatch.IntExpr(p, n)) == Ok(Decimal(n))
    ensures ParseDecimal(ExprText(v, ExprMatch.IntExpr(p, n)).value) == Some(n)
  {
    BareText(v, p, Plain(Primary(p, Lit(IntLit(n)))));
    DecimalRoundTrip(n);
  }

  /** The exponent of a multiplication is not printed. */
  lemma ExponentNotPrinted(v: Verbs, u: Unary, q: Primary)
    ensures MultiplicationText(v, Multiplication(u, Some(q))) == MultiplicationText(v, Multiplication(u, None))
  {
  }

  /** Negation prints a minus sign before the operand. */
  lemma NegationText(v: Verbs, p: Primary)
    ensures UnaryText(v, Negated(p)) == Cat(Ok("-"), PrimaryText(v, p))
  {
  }

  /** Operators print infix, with their text as written: `||` ... */
  lemma OrInfix(v: Verbs, p: Pos, l: LogicalOr, q: Pos, r: LogicalOr)
    ensures ExprText(v, Expr(p, l, [OpLogicalOr(q, r)])) == Cat(Cat(LogicalOrText(v, l), Ok("||")), LogicalOrText(v, r))
  {
    var e := Expr(p, l, [OpLogicalOr(q, r)]);
    var a := LogicalOrText(v, l);
    var b := LogicalOrText(v, r);
    assert OrTail(v, e, 1) == Ok("");
    assert OrTail(v, e, 0) == Cat(Cat(Ok("||"), b), Ok(""));
    if a.Ok? && b.Ok? {
      assert a.value + ("||" + b.value + "") == a.value + "||" + b.value;
    }
  }

  /** ... and a comparison, whose operator text is the captured one. */
  lemma ComparisonInfix(v: Verbs, p: Pos, l: Relative, q: Pos, op: string, r: Relative)
    ensures LogicalAndText(v, LogicalAnd(p, l, [OpRelative(q, op, r)])) == Cat(Cat(RelativeText(v, l), Ok(op)), RelativeText(v, r))
  {
    var n := LogicalAnd(p, l, [OpRelative(q, op, r)]);
    var a := RelativeText(v, l);
    var b := RelativeText(v, r);
    assert RelativeTail(v, n, 1) == Ok("");
    assert RelativeTail(v, n, 0) == Cat(Cat(Ok(op), b), Ok(""));
    if a.Ok? && b.Ok? {
      assert a.value + (op + b.value + "") == a.value + op + b.value;
    }
  }

  /**
   * What the array recognisers take for the variable x prints starting with
   * x; it prints exactly x when it has no `+`/`-` or `*`/`/` tail.
   */
  lemma RecognisedVariableText(v: Verbs, e: Expr, x: string)
    requires ExprMatch.ExprVar(e) == Some(x)
    ensures ExprText(v, e).Ok? ==> x <= ExprText(v, e).value
    ensures e.left.left.left.right == [] && e.left.left.left.left.right == [] ==> ExprText(v, e) == Ok(x)
  {
    var m := e.left.left.left.left.left;
    assert ExprMatch.Spine(e) == Some(m);
    assert m.unary.Plain? && m.unary.value.alt.Var? && m.unary.value.alt.variable.ident == x;
    assert PrimaryText(v, m.unary.value) == Ok(x);
    assert UnaryText(v, m.unary) == Ok(x);
    assert MultiplicationText(v, m) == Ok(x);
    var add := e.left.left.left.left;
    var rel := e.left.left.left;
    var mt := MultiplicationTail(v, add, 0);
    var at := AdditionTail(v, rel, 0);
    assert AdditionText(v, add) == Cat(Ok(x), mt);
    var r := Cat(Cat(Ok(x), mt), at);
    assert RelativeText(v, rel) == r;
    CatEmpty(r);
    assert LogicalAndText(v, e.left.left) == r;
    assert LogicalOrText(v, e.left) == r;
    assert ExprText(v, e) == r;
    if mt.Ok? && at.Ok? {
      assert r.value == x + mt.value + at.value;
    }
    if mt == Ok("") && at == Ok("") {
      assert x + "" + "" == x;
    }
  }

  // ---------------------------------------------------------------------------
  // Scan targets

  /** The key under which the generator records the Python type of `name` indexed k times. */
  function TypeKey(name: string, k: nat): (key: string)
    ensures |key| == |name| + 2 * k && key[..|name|] == name
  {
    name + Writer.Repeat("[]", k)
  }

  /** A scan target as printed: its name and each index in brackets. */
  function RefTarget(v: Verbs, r: Reference): Outcome<string>
  {
    Cat(Ok(r.ident), Indices(v, r.indices))
  }

  function Indices(v: Verbs, ix: seq<Expr>): Outcome<string>
  {
    if ix == [] then Ok("")
    else Cat(Cat(Cat(Ok("["), ExprText(v, ix[0])), Ok("]")), Indices(v, ix[1..]))
  }

  lemma CatAssoc(a: Outcome<string>, b: Outcome<string>, c: Outcome<string>)
    ensures Cat(Cat(a, b), c) == Cat(a, Cat(b, c))
  {
    if a.Ok? && b.Ok? && c.Ok? {
      assert a.value + b.value + c.value == a.value + (b.value + c.value);
    }
  }

  /** Bracketing two lists of indices is bracketing their concatenation. */
  lemma {:induction false} IndicesAppend(v: Verbs, a: seq<Expr>, b: seq<Expr>)
    ensures Indices(v, a + b) == Cat(Indices(v, a), Indices(v, b))
    decreases |a|
  {
    if a == [] {
      assert a + b == b;
      if Indices(v, b).Ok? {
        assert "" + Indices(v, b).value == Indices(v, b).value;
      }
    } else {
      assert (a + b)[0] == a[0] && (a + b)[1..] == a[1..] + b;
      IndicesAppend(v, a[1..], b);
      CatAssoc(Cat(Cat(Ok("["), ExprText(v, a[0])), Ok("]")), Indices(v, a[1..]), Indices(v, b));
    }
  }

  /** One more index: its brackets follow those of the earlier ones, or its panic ends the target. */
  lemma IndicesStep(v: Verbs, ix: seq<Expr>, i: nat)
    requires i < |ix| && Indices(v, ix[..i]).Ok?
    ensures ExprText(v, ix[i]).Ok? ==> Indices(v, ix[..i + 1]) == Ok(Indices(v, ix[..i]).value + ("[" + ExprText(v, ix[i]).value + "]"))
    ensures !ExprText(v, ix[i]).Ok? ==> Indices(v, ix) == ExprText(v, ix[i])
  {
    IndicesAppend(v, ix[..i], [ix[i]]);
    assert ix[..i] + [ix[i]] == ix[..i + 1];
    assert [ix[i]][1..] == [];
    var t := ExprText(v, ix[i]);
    assert Indices(v, [ix[i]]) == Cat(Cat(Cat(Ok("["), t), Ok("]")), Ok(""));
    if t.Ok? {
      assert "[" + t.value + "]" + "" == "[" + t.value + "]";
    }
    IndicesAppend(v, ix[..i + 1], ix[i + 1..]);
    assert ix[..i + 1] + ix[i + 1..] == ix;
  }

  /** Printing "[", t and "]" after p is printing p + "[" + t + "]". */
  /** Prints one index in brackets, piece by piece. */
  method PrintBracketed(cw: Writer.Writer, t: string)
    modifies cw
    ensures cw.State() == Writer.Printed(old(cw.State()), "[" + t + "]")
  {
    ghost var w := cw.State();
    cw.Print("[");
    cw.Print(t);
    Writer.PrintConcat(w, "[", t);
    cw.Print("]");
    Writer.PrintConcat(w, "[" + t, "]");
  }

  /** Prints a scan target piece by piece: the name, then "[", the index and "]" for each index. */
  method PrintTarget(cw: Writer.Writer, v: Verbs, r: Reference) returns (out: Outcome<string>)
    modifies cw
    ensures out == RefTarget(v, r)
    ensures out.Ok? ==> cw.State() == Writer.Printed(old(cw.State()), out.value)
  {
    var w0 := cw.State();
    cw.Print(r.ident);
    var i := 0;
    while i < |r.indices|
      invariant 0 <= i <= |r.indices|
      invariant Indices(v, r.indices[..i]).Ok?
      invariant cw.State() == Writer.Printed(w0, r.ident + Indices(v, r.indices[..i]).value)
    {
      var t := ExprText(v, r.indices[i]);
      IndicesStep(v, r.indices, i);
      if !t.Ok? {
        assert RefTarget(v, r) == Indices(v, r.indices) == t;
        return t;
      }
      ghost var q := Indices(v, r.indices[..i]).value;
      PrintBracketed(cw, t.value);
      Writer.PrintConcat(w0, r.ident + q, "[" + t.value + "]");
      CatAssoc(Ok(r.ident), Ok(q), Ok("[" + t.value + "]"));
      i := i + 1;
    }
    assert r.indices[..|r.indices|] == r.indices;
    assert RefTarget(v, r) == Ok(r.ident + Indices(v, r.indices).value);
    return RefTarget(v, r);
  }

  // ---------------------------------------------------------------------------
  // Target name lists

  /** The names of scan targets, in order. */
  function Idents(refs: seq<Reference>): (ns: seq<string>)
    ensures |ns| == |refs| && forall i :: 0 <= i < |refs| ==> ns[i] == refs[i].ident
  {
    seq(|refs|, i requires 0 <= i < |refs| => refs[i].ident)
  }

  /** Names joined by ", ". */
  function Join(ns: seq<string>): string
  {
    if |ns| == 0 then "" else if |ns| == 1 then ns[0] else ns[0] + ", " + Join(ns[1..])
  }

  /** The position of the first c in s. */
  function IndexOf(s: string, c: char): (r: Option<nat>)
    ensures r.Some? ==> r.value < |s| && s[r.value] == c && c !in s[..r.value]
    ensures r.None? ==> c !in s
  {
    if |s| == 0 then None
    else if s[0] == c then Some(0)
    else match IndexOf(s[1..], c)
      case Some(i) => assert s[..i + 1] == [s[0]] + s[1..][..i]; Some(i + 1)
      case None => assert s == [s[0]] + s[1..]; None
  }

  /** Splits at each ", ", the inverse of `Join` on names without commas. */
  function Split(s: string): seq<string>
    decreases |s|
  {
    match IndexOf(s, ',')
    case None => [s]
    case Some(i) => if i + 2 <= |s| then [s[..i]] + Split(s[i + 2..]) else [s[..i]]
  }

  lemma {:induction false} SplitJoin(ns: seq<string>)
    requires |ns| > 0 && forall i :: 0 <= i < |ns| ==> ',' !in ns[i]
    ensures Split(Join(ns)) == ns
    decreases |ns|
  {
    if |ns| > 1 {
      var s := Join(ns);
      var a := ns[0];
      assert s == a + ", " + Join(ns[1..]);
      assert s[..|a|] == a && s[|a|] == ',';
      assert IndexOf(s, ',') == Some(|a|);
      assert s[|a| + 2..] == Join(ns[1..]);
      SplitJoin(ns[1..]);
      assert [a] + ns[1..] == ns;
    }
  }

  /** Prints the target names separated by ", ". */
  method PrintNames(cw: Writer.Writer, refs: RefList)
    modifies cw
    ensures cw.State() == Writer.Printed(old(cw.State()), Join(Idents(refs)))
  {
    var w0 := cw.State();
    var i := 0;
    while i < |refs|
      invariant 0 <= i <= |refs|
      invariant i == 0 ==> cw.State() == w0
      invariant i > 0 ==> cw.State() == Writer.Printed(w0, Join(Idents(refs[..i])))
    {
      assert Idents(refs[..i + 1]) == Idents(refs[..i]) + [refs[i].ident];
      JoinSnoc(Idents(refs[..i]), refs[i].ident);
      if i == 0 {
        cw.Print(refs[i].ident);
      } else {
        ghost var p := Join(Idents(refs[..i]));
        cw.Print(", ");
        Writer.PrintConcat(w0, p, ", ");
        cw.Print(refs[i].ident);
        Writer.PrintConcat(w0, p + ", ", refs[i].ident);
        assert p + ", " + refs[i].ident == Join(Idents(refs[..i + 1]));
      }
      i := i + 1;
    }
    assert refs[..|refs|] == refs;
  }

  /** A name appended to the list is appended to the text after ", " (or alone). */
  lemma {:induction false} JoinSnoc(ns: seq<string>, x: string)
    ensures Join(ns + [x]) == if |ns| == 0 then x else Join(ns) + ", " + x
    decreases |ns|
  {
    if |ns| == 0 {
      assert ns + [x] == [x];
    } else if |ns| == 1 {
      assert ns + [x] == [ns[0], x];
      assert [ns[0], x][1..] == [x];
    } else {
      assert (ns + [x])[1..] == ns[1..] + [x];
      JoinSnoc(ns[1..], x);
    }
  }
}
