/**
 * The arrayLine optimisation (gen/py3/arrayline.go): a one-name array `var`,
 * a loop `for i 0 N` whose bound is the array's length, a `scan` of `a[i]` in
 * the loop and then an `eol` become one line reading the whole array.  The
 * loop statement carries the replacement; the var and the eol print nothing.
 */
module ArrayLine {
  import opened Wrappers
  import opened Errors
  import opened Ast
  import opened Walk
  import opened Optimization
  import opened ExprMatch
  import Writer
  import Py3Types
  import Py3Expr
  import MultiVar

  // ---------------------------------------------------------------------------
  // Generate

  /** The Python type of an array's elements; a nil dereference unless the var is an array of a named type. */
  function ElementType(spec: VarSpec): Outcome<string>
  {
    if spec.typ.TypeLit? && spec.typ.elementType.TypeName? then Ok(Py3Types.Lookup(Py3Types.ASTType, spec.typ.elementType.name))
    else Fail(Runtime(NilDeref))
  }

  /** The line `arrayLine.Generate` prints, without its newline. */
  function Line(decl: DeclAt, scan: ScanAt): Outcome<string>
  {
    match ElementType(decl.spec)
    case Ok(t) => Ok(Py3Expr.Join(Py3Expr.Idents(scan.scan.refList)) + MultiVar.SplitReader(t))
    case Fail(e) => Fail(e)
    case Crash(m) => Crash(m)
  }

  method Generate(cw: Writer.Writer, decl: DeclAt, scan: ScanAt) returns (out: Outcome<()>)
    modifies cw
    ensures out.Ok? <==> Line(decl, scan).Ok?
    ensures out.Ok? ==> cw.State() == Writer.Ended(old(cw.State()), Line(decl, scan).value)
    ensures !out.Ok? ==> out == Fail(Runtime(NilDeref))
  {
    var w0 := cw.State();
    Py3Expr.PrintNames(cw, scan.scan.refList);
    if !(decl.spec.typ.TypeLit? && decl.spec.typ.elementType.TypeName?) {
      return Fail(Runtime(NilDeref));
    }
    var t := Py3Types.Lookup(Py3Types.ASTType, decl.spec.typ.elementType.name);
    var names := Py3Expr.Join(Py3Expr.Idents(scan.scan.refList));
    cw.Print(" = map(" + t + ", input().split())");
    Writer.PrintConcat(w0, names, MultiVar.SplitReader(t));
    cw.Println("");
    Writer.PrintThenEnd(w0, names + MultiVar.SplitReader(t), "");
    assert names + MultiVar.SplitReader(t) + "" == names + MultiVar.SplitReader(t);
    return Ok(());
  }

  // ---------------------------------------------------------------------------
  // The recogniser

  /** A var of one name whose type is an array of a named type. */
  predicate ArrayDecl(spec: VarSpec)
  {
    |spec.identList| == 1 && spec.typ.TypeLit? && spec.typ.elementType.TypeName?
  }

  /** The loop runs from the literal 0 to the same variable the array's length names. */
  predicate CoversArray(length: Expr, c: RangeClause)
  {
    ExprEqInt64(c.low, 0) && ExprEq(length, c.high)
  }

  /** The scan reads exactly `name[index]`. */
  predicate ScansElement(sc: ScanStmt, name: string, index: string)
  {
    |sc.refList| == 1 && sc.refList[0].ident == name && |sc.refList[0].indices| == 1 &&
    ExprEqVar(sc.refList[0].indices[0], index)
  }

  /**
   * How far the pattern has been matched.  The array's name and length and
   * the loop's index variable are kept as the Go closure reads them from the
   * matched statements.
   */
  datatype Phase =
    | Zero
    | Declared(decl: DeclAt, name: string, length: Expr)
    | Looping(decl: DeclAt, name: string, forId: nat, index: string)
    | Scanned(decl: DeclAt, forId: nat, scan: ScanAt)

  datatype State = State(phase: Phase, ozs: Registry)

  /** The Inspect closure of `analyzer.arrayLine`. */
  function Visit(s: State, n: Option<Node>): Outcome<(State, bool)>
  {
    match n
    case None => Ok((s, false))
    case Some(node) =>
      match s.phase
      case Zero =>
        (match node
         case NBlock(_) => Ok((s, true))
         case NStatement(_) => Ok((s, true))
         case NAlt(o, VarDecl(spec)) =>
           if ArrayDecl(spec) then Ok((s.(phase := Declared(DeclAt(o, spec), spec.identList[0], spec.typ.arrayLength)), false))
           else Ok((s, false))
         case _ => Ok((s, false)))
      case Declared(d, name, length) =>
        (match node
         case NStatement(_) => Ok((s, true))
         case NAlt(_, CheckStmt(_)) => Ok((s, false))
         case NAlt(o, ForStmt(h, _)) =>
           // A loop with a scan header has no range clause to read: a nil dereference.
           if !h.Range? then Fail(Runtime(NilDeref))
           else if CoversArray(length, h.clause) then Ok((s.(phase := Looping(d, name, o, h.clause.index)), true))
           else Ok((s, false))
         case _ => Ok((s.(phase := Zero), false)))
      case Looping(d, name, f, index) =>
        (match node
         case NBlock(_) => Ok((s, true))
         case NStatement(_) => Ok((s, true))
         case NAlt(_, CheckStmt(_)) => Ok((s, false))
         case NRangeClause(_) => Ok((s, false))
         case NAlt(o, ScanStmt(sc)) =>
           if ScansElement(sc, name, index) then Ok((s.(phase := Scanned(d, f, ScanAt(o, sc))), false))
           else Ok((s, false))
         case _ => Ok((s.(phase := Zero), false)))
      case Scanned(d, f, sc) =>
        (match node
         case NStatement(_) => Ok((s, true))
         case NAlt(_, CheckStmt(_)) => Ok((s, false))
         case NAlt(o, EOLStmt(_)) =>
           Ok((State(Zero, s.ozs[f := ArrayLineOz(d, f, sc, o)][d.id := Noop][o := Noop]), false))
         case _ => Ok((s.(phase := Zero), false)))
  }

  /** `analyzer.arrayLine(b)`: the registry after inspecting the block. */
  function Run(ozs: Registry, b: Block): Outcome<Registry>
  {
    match Inspect(Visit, State(Zero, ozs), BlockTree(b))
    case Ok(s) => Ok(s.ozs)
    case Fail(e) => Fail(e)
    case Crash(m) => Crash(m)
  }

  /** A registered arrayLine is keyed by its loop and reads the one-name array element by element. */
  predicate WfEntry(k: nat, oz: Optimization)
    requires oz.ArrayLineOz?
  {
    oz.forId == k && ArrayDecl(oz.decl.spec) &&
    |oz.scan.scan.refList| == 1 && oz.scan.scan.refList[0].ident == oz.decl.spec.identList[0] &&
    |oz.scan.scan.refList[0].indices| == 1
  }

  ghost predicate Wf(ozs: Registry)
  {
    forall k :: k in ozs && ozs[k].ArrayLineOz? ==> WfEntry(k, ozs[k])
  }

  ghost predicate PhaseWf(p: Phase)
  {
    match p
    case Zero => true
    case Declared(d, name, _) => ArrayDecl(d.spec) && name == d.spec.identList[0]
    case Looping(d, name, _, _) => ArrayDecl(d.spec) && name == d.spec.identList[0]
    case Scanned(d, _, sc) =>
      ArrayDecl(d.spec) && |sc.scan.refList| == 1 && sc.scan.refList[0].ident == d.spec.identList[0] &&
      |sc.scan.refList[0].indices| == 1
  }

  ghost predicate Inv(s: State)
  {
    PhaseWf(s.phase) && Wf(s.ozs)
  }

  lemma VisitKeeps(s: State, n: Option<Node>)
    requires Inv(s) && Visit(s, n).Ok?
    ensures Inv(Visit(s, n).value.0)
  {
    var s1 := Visit(s, n).value.0;
    if s1.ozs != s.ozs {
      var p := s.phase;
      forall k | k in s1.ozs && s1.ozs[k].ArrayLineOz?
        ensures WfEntry(k, s1.ozs[k])
      {
        if k in s.ozs && s1.ozs[k] == s.ozs[k] {
        } else {
          assert s1.ozs[k] == ArrayLineOz(p.decl, p.forId, p.scan, n.value.owner);
        }
      }
    }
  }

  /** The recogniser registers only well-formed arrayLine replacements. */
  lemma RunKeepsWf(ozs: Registry, b: Block)
    requires Wf(ozs)
    ensures Run(ozs, b).Ok? ==> Wf(Run(ozs, b).value)
  {
    var inv := (s: State) => Inv(s);
    forall s': State, v': (), n: Option<Node> | inv(s') && Inspector(Visit)(s', v', n).Ok?
      ensures inv(Inspector(Visit)(s', v', n).value.0)
    {
      VisitKeeps(s', n);
    }
    WalkKeeps(Inspector(Visit), inv, (), State(Zero, ozs), BlockTree(b));
  }

  /** What the recogniser registers always generates: the array's name read from one split line. */
  lemma RegisteredGenerates(k: nat, oz: Optimization)
    requires oz.ArrayLineOz? && WfEntry(k, oz)
    ensures Line(oz.decl, oz.scan) ==
      Ok(oz.decl.spec.identList[0] + MultiVar.SplitReader(Py3Types.Lookup(Py3Types.ASTType, oz.decl.spec.typ.elementType.name)))
  {
    assert Py3Expr.Idents(oz.scan.scan.refList) == [oz.decl.spec.identList[0]];
  }

  /** The recogniser writes only arrayLine replacements and `Noop`s: every other entry stays as it was. */
  lemma RunWrites(ozs: Registry, b: Block)
    ensures Run(ozs, b).Ok? ==> forall k :: k in Run(ozs, b).value ==>
      (k in ozs && Run(ozs, b).value[k] == ozs[k]) || Run(ozs, b).value[k].Noop? || Run(ozs, b).value[k].ArrayLineOz?
  {
    var inv := (s: State) => forall k :: k in s.ozs ==> (k in ozs && s.ozs[k] == ozs[k]) || s.ozs[k].Noop? || s.ozs[k].ArrayLineOz?;
    forall s': State, v': (), n: Option<Node> | inv(s') && Inspector(Visit)(s', v', n).Ok?
      ensures inv(Inspector(Visit)(s', v', n).value.0)
    {
      var s1 := Visit(s', n).value.0;
      assert Inspector(Visit)(s', v', n).value.0 == s1;
      forall k | k in s1.ozs
        ensures (k in ozs && s1.ozs[k] == ozs[k]) || s1.ozs[k].Noop? || s1.ozs[k].ArrayLineOz?
      {
        if !(k in s'.ozs && s1.ozs[k] == s'.ozs[k]) {
          assert s1.ozs[k].Noop? || s1.ozs[k].ArrayLineOz?;
        }
      }
    }
    WalkKeeps(Inspector(Visit), inv, (), State(Zero, ozs), BlockTree(b));
  }

  lemma Transparent()
    ensures StatementTransparent(Visit)
  {
  }

  /** A matched var followed by checks leaves the matched phase. */
  lemma {:induction false} DeclSteps(ozs: Registry, d: Statement, cs: seq<Statement>)
    requires d.node.VarDecl? && ArrayDecl(d.node.spec)
    requires forall i :: 0 <= i < |cs| ==> cs[i].node.CheckStmt?
    ensures AltFold(Visit, State(Zero, ozs), [d] + cs) ==
      Ok(State(Declared(DeclAt(d.id, d.node.spec), d.node.spec.identList[0], d.node.spec.typ.arrayLength), ozs))
  {
    var s0 := State(Zero, ozs);
    var s1 := State(Declared(DeclAt(d.id, d.node.spec), d.node.spec.identList[0], d.node.spec.typ.arrayLength), ozs);
    AltFoldOne(Visit, s0, d, s1);
    AltFoldUnchanged(Visit, s1, cs);
    AltFoldAppend(Visit, s0, [d], cs);
  }

  /** A loop covering the array is entered: its body is folded in the loop phase. */
  lemma {:induction false} LoopStep(s: State, f: Statement)
    requires s.phase.Declared? && f.node.ForStmt? && f.node.header.Range?
    requires CoversArray(s.phase.length, f.node.header.clause)
    ensures AltFold(Visit, s, [f]) ==
      AltFold(Visit, s.(phase := Looping(s.phase.decl, s.phase.name, f.id, f.node.header.clause.index)), f.node.body.statements)
  {
    var c := f.node.header.clause;
    var body := f.node.body;
    var s1 := s.(phase := Looping(s.phase.decl, s.phase.name, f.id, c.index));
    Transparent();
    AltFoldSingle(Visit, s, f);
    assert f.node == ForStmt(Range(c), body);
    assert Visit(s, Some(NAlt(f.id, ForStmt(Range(c), body)))) == Ok((s1, true));
    assert Visit(s1, Some(NRangeClause(Some(c)))) == Ok((s1, false));
    assert Visit(s1, Some(NBlock(body))) == Ok((s1, true));
    InspectFor(Visit, s, f.id, c, body, s1);
  }

  /** In the loop phase, the element scan followed by checks leaves the scanned phase. */
  lemma {:induction false} ScanSteps(s: State, sc: Statement, cs: seq<Statement>)
    requires s.phase.Looping? && sc.node.ScanStmt? && ScansElement(sc.node.scan, s.phase.name, s.phase.index)
    requires forall i :: 0 <= i < |cs| ==> cs[i].node.CheckStmt?
    ensures AltFold(Visit, s, [sc] + cs) == Ok(s.(phase := Scanned(s.phase.decl, s.phase.forId, ScanAt(sc.id, sc.node.scan))))
  {
    var s1 := s.(phase := Scanned(s.phase.decl, s.phase.forId, ScanAt(sc.id, sc.node.scan)));
    AltFoldOne(Visit, s, sc, s1);
    AltFoldUnchanged(Visit, s1, cs);
    AltFoldAppend(Visit, s, [sc], cs);
  }

  /** Checks inside a match leave it as it is. */
  lemma {:induction false} CheckSteps(s: State, cs: seq<Statement>)
    requires !s.phase.Zero?
    requires forall i :: 0 <= i < |cs| ==> cs[i].node.CheckStmt?
    ensures AltFold(Visit, s, cs) == Ok(s)
  {
    forall i | 0 <= i < |cs|
      ensures Visit(s, Some(NAlt(cs[i].id, cs[i].node))) == Ok((s, false))
    {
      assert cs[i].node.CheckStmt?;
    }
    AltFoldUnchanged(Visit, s, cs);
  }

  /** In the scanned phase an eol registers the replacement. */
  lemma EolStep(s: State, e: Statement)
    requires s.phase.Scanned? && e.node.EOLStmt?
    ensures AltFold(Visit, s, [e]) ==
      Ok(State(Zero, s.ozs[s.phase.forId := ArrayLineOz(s.phase.decl, s.phase.forId, s.phase.scan, e.id)][s.phase.decl.id := Noop][e.id := Noop]))
  {
    var p := s.phase;
    var s1 := State(Zero, s.ozs[p.forId := ArrayLineOz(p.decl, p.forId, p.scan, e.id)][p.decl.id := Noop][e.id := Noop]);
    assert Visit(s, Some(NAlt(e.id, e.node))) == Ok((s1, false));
    AltFoldOne(Visit, s, e, s1);
  }

  /** The registry arrayLine writes for a var, a loop and an eol. */
  function Registered(ozs: Registry, d: Statement, f: Statement, sc: Statement, e: Statement): Registry
    requires d.node.VarDecl? && sc.node.ScanStmt?
  {
    ozs[f.id := ArrayLineOz(DeclAt(d.id, d.node.spec), f.id, ScanAt(sc.id, sc.node.scan), e.id)][d.id := Noop][e.id := Noop]
  }

  /**
   * `var a [N]T`, checks, `for i 0 N` whose body is `scan a[i]` and checks,
   * more checks and an `eol` after the loop: the loop is replaced and the var
   * and the eol dropped.
   */
  lemma {:induction false} FiresAfterLoop(ozs: Registry, id: nat, d: Statement, cs1: seq<Statement>, f: Statement,
                                          sc: Statement, cs2: seq<Statement>, cs3: seq<Statement>, e: Statement)
    requires d.node.VarDecl? && ArrayDecl(d.node.spec)
    requires f.node.ForStmt? && f.node.header.Range? && CoversArray(d.node.spec.typ.arrayLength, f.node.header.clause)
    requires f.node.body.statements == [sc] + cs2
    requires sc.node.ScanStmt? && ScansElement(sc.node.scan, d.node.spec.identList[0], f.node.header.clause.index)
    requires e.node.EOLStmt?
    requires forall i :: 0 <= i < |cs1| ==> cs1[i].node.CheckStmt?
    requires forall i :: 0 <= i < |cs2| ==> cs2[i].node.CheckStmt?
    requires forall i :: 0 <= i < |cs3| ==> cs3[i].node.CheckStmt?
    ensures Run(ozs, Block(id, [d] + cs1 + [f] + cs3 + [e])) == Ok(Registered(ozs, d, f, sc, e))
  {
    var s0 := State(Zero, ozs);
    var dd := DeclAt(d.id, d.node.spec);
    var s1 := State(Declared(dd, d.node.spec.identList[0], d.node.spec.typ.arrayLength), ozs);
    var s2 := State(Looping(dd, d.node.spec.identList[0], f.id, f.node.header.clause.index), ozs);
    var s3 := State(Scanned(dd, f.id, ScanAt(sc.id, sc.node.scan)), ozs);
    Transparent();
    InspectBlock(Visit, s0, Block(id, [d] + cs1 + [f] + cs3 + [e]), s0);
    DeclSteps(ozs, d, cs1);
    LoopStep(s1, f);
    ScanSteps(s2, sc, cs2);
    AltFoldAppend(Visit, s0, [d] + cs1, [f]);
    CheckSteps(s3, cs3);
    AltFoldAppend(Visit, s0, [d] + cs1 + [f], cs3);
    EolStep(s3, e);
    assert s3.phase.decl.id == d.id && s3.phase.forId == f.id;
    AltFoldAppend(Visit, s0, [d] + cs1 + [f] + cs3, [e]);
  }

  /**
   * The same when the `eol` closes the loop body instead (the layout of one
   * row per line, as in `for i 0 R; scan G[i]; eol; end`): the recogniser
   * does not tell the two apart and registers the one-line read here too.
   */
  lemma {:induction false} FiresWithEolInBody(ozs: Registry, id: nat, d: Statement, cs1: seq<Statement>, f: Statement,
                                              sc: Statement, cs2: seq<Statement>, e: Statement)
    requires d.node.VarDecl? && ArrayDecl(d.node.spec)
    requires f.node.ForStmt? && f.node.header.Range? && CoversArray(d.node.spec.typ.arrayLength, f.node.header.clause)
    requires f.node.body.statements == [sc] + cs2 + [e]
    requires sc.node.ScanStmt? && ScansElement(sc.node.scan, d.node.spec.identList[0], f.node.header.clause.index)
    requires e.node.EOLStmt?
    requires forall i :: 0 <= i < |cs1| ==> cs1[i].node.CheckStmt?
    requires forall i :: 0 <= i < |cs2| ==> cs2[i].node.CheckStmt?
    ensures Run(ozs, Block(id, [d] + cs1 + [f])) == Ok(Registered(ozs, d, f, sc, e))
  {
    var s0 := State(Zero, ozs);
    var dd := DeclAt(d.id, d.node.spec);
    var s1 := State(Declared(dd, d.node.spec.identList[0], d.node.spec.typ.arrayLength), ozs);
    var s2 := State(Looping(dd, d.node.spec.identList[0], f.id, f.node.header.clause.index), ozs);
    var s3 := State(Scanned(dd, f.id, ScanAt(sc.id, sc.node.scan)), ozs);
    Transparent();
    InspectBlock(Visit, s0, Block(id, [d] + cs1 + [f]), s0);
    DeclSteps(ozs, d, cs1);
    LoopStep(s1, f);
    BodyFires(s2, sc, cs2, e);
    assert s3.phase.decl.id == d.id && s3.phase.forId == f.id;
    AltFoldAppend(Visit, s0, [d] + cs1, [f]);
  }

  /** A loop body made of the element scan, checks and an eol completes the match inside the loop. */
  lemma BodyFires(s: State, sc: Statement, cs: seq<Statement>, e: Statement)
    requires s.phase.Looping? && sc.node.ScanStmt? && ScansElement(sc.node.scan, s.phase.name, s.phase.index)
    requires e.node.EOLStmt?
    requires forall i :: 0 <= i < |cs| ==> cs[i].node.CheckStmt?
    ensures AltFold(Visit, s, [sc] + cs + [e]) ==
      Ok(State(Zero, s.ozs[s.phase.forId := ArrayLineOz(s.phase.decl, s.phase.forId, ScanAt(sc.id, sc.node.scan), e.id)][s.phase.decl.id := Noop][e.id := Noop]))
  {
    var s3 := s.(phase := Scanned(s.phase.decl, s.phase.forId, ScanAt(sc.id, sc.node.scan)));
    ScanSteps(s, sc, cs);
    EolStep(s3, e);
    AltFoldAppend(Visit, s, [sc] + cs, [e]);
  }

  /** After a matched array var, a loop with a scan header makes the recogniser panic. */
  lemma {:induction false} ScanHeaderPanics(ozs: Registry, id: nat, d: Statement, f: Statement)
    requires d.node.VarDecl? && ArrayDecl(d.node.spec)
    requires f.node.ForStmt? && !f.node.header.Range?
    ensures Run(ozs, Block(id, [d, f])) == Fail(Runtime(NilDeref))
  {
    var s0 := State(Zero, ozs);
    var s1 := State(Declared(DeclAt(d.id, d.node.spec), d.node.spec.identList[0], d.node.spec.typ.arrayLength), ozs);
    Transparent();
    InspectBlock(Visit, s0, Block(id, [d, f]), s0);
    AltFoldOne(Visit, s0, d, s1);
    assert Visit(s1, Some(NAlt(f.id, f.node))) == Fail(Runtime(NilDeref));
    assert Inspector(Visit)(s1, (), Some(AltTree(f.id, f.node).node)) == Fail(Runtime(NilDeref));
    AltFoldSingle(Visit, s1, f);
    AltFoldAppend(Visit, s0, [d], [f]);
    assert [d] + [f] == [d, f];
  }

  /**
   * A loop that does not cover the array keeps the var matched; anything
   * but a check or a loop drops the match, and so does anything but a check
   * or an eol after the scan.
   */
  lemma Resets(s: State, o: nat, a: StmtNode)
    ensures s.phase.Declared? && a.ForStmt? && a.header.Range? && !CoversArray(s.phase.length, a.header.clause) ==>
      Visit(s, Some(NAlt(o, a))) == Ok((s, false))
    ensures s.phase.Declared? && !a.CheckStmt? && !a.ForStmt? ==> Visit(s, Some(NAlt(o, a))) == Ok((State(Zero, s.ozs), false))
    ensures s.phase.Scanned? && !a.CheckStmt? && !a.EOLStmt? ==> Visit(s, Some(NAlt(o, a))) == Ok((State(Zero, s.ozs), false))
  {
  }
}
