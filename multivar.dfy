/**
 * The multiVar optimisation (gen/py3/multivar.go): a scalar `var`, a `scan`
 * of names it declares (or of unindexed names) and an `eol`, with only `check`
 * statements between them, become one line reading the whole input line.
 * The recogniser is an `Inspect` over a block whose closure keeps a phase (the
 * Go `state` with the `oz` fields filled so far) and writes the registry.
 */
module MultiVar {
  import opened Wrappers
  import opened Errors
  import opened Ast
  import opened Walk
  import opened Optimization
  import Writer
  import Py3Types
  import Py3Expr

  // ---------------------------------------------------------------------------
  // Generate

  /** The Python type of a scalar declaration; a nil `TypeName` dereference otherwise. */
  function ScalarType(spec: VarSpec): Outcome<string>
  {
    if spec.typ.TypeName? then Ok(Py3Types.Lookup(Py3Types.ASTType, spec.typ.name))
    else Fail(Runtime(NilDeref))
  }

  /** What follows the names: one value read whole, converted, or several split from the line. */
  function Reader(t: string, count: nat): string
  {
    if count == 1 then (if t == "string" then " = input()" else " = " + t + "(input())")
    else SplitReader(t)
  }

  /** The values of a whole line, split at white space and each converted by t. */
  function SplitReader(t: string): string
  {
    " = map(" + t + ", input().split())"
  }

  /** The line `multiVar.Generate` prints, without its newline. */
  function Line(decl: DeclAt, scan: ScanAt): Outcome<string>
  {
    match ScalarType(decl.spec)
    case Ok(t) => Ok(Py3Expr.Join(Py3Expr.Idents(scan.scan.refList)) + Reader(t, |scan.scan.refList|))
    case Fail(e) => Fail(e)
    case Crash(m) => Crash(m)
  }

  method Generate(cw: Writer.Writer, decl: DeclAt, scan: ScanAt) returns (out: Outcome<()>)
    modifies cw
    ensures out.Ok? <==> Line(decl, scan).Ok?
    ensures out.Ok? ==> cw.State() == Writer.Ended(old(cw.State()), Line(decl, scan).value)
    ensures !out.Ok? ==> out == Fail(Runtime(NilDeref))
  {
    var w0 := cw.State();
    var refs := scan.scan.refList;
    Py3Expr.PrintNames(cw, refs);
    if !decl.spec.typ.TypeName? {
      return Fail(Runtime(NilDeref));
    }
    var t := Py3Types.Lookup(Py3Types.ASTType, decl.spec.typ.name);
    var names := Py3Expr.Join(Py3Expr.Idents(refs));
    if |refs| == 1 {
      if t == "string" {
        cw.Print(" = input()");
      } else {
        cw.Print(" = " + t + "(input())");
      }
    } else {
      cw.Print(" = map(" + t + ", input().split())");
    }
    Writer.PrintConcat(w0, names, Reader(t, |refs|));
    cw.Println("");
    Writer.PrintThenEnd(w0, names + Reader(t, |refs|), "");
    assert names + Reader(t, |refs|) + "" == names + Reader(t, |refs|);
    return Ok(());
  }

  /**
   * The line reads the scanned names in scan order: splitting its left-hand
   * side at ", " gives them back.  A single string is read whole, a single
   * other value converted, several split from the line.
   */
  lemma LineReadsNamesInOrder(decl: DeclAt, scan: ScanAt)
    requires decl.spec.typ.TypeName?
    requires forall r :: r in scan.scan.refList ==> ',' !in r.ident
    ensures Line(decl, scan).Ok?
    ensures var names := Py3Expr.Join(Py3Expr.Idents(scan.scan.refList));
      var t := Py3Types.Lookup(Py3Types.ASTType, decl.spec.typ.name);
      && Line(decl, scan).value[..|names|] == names
      && Py3Expr.Split(names) == Py3Expr.Idents(scan.scan.refList)
      && Line(decl, scan).value[|names|..] ==
        if |scan.scan.refList| > 1 then " = map(" + t + ", input().split())"
        else if t == "string" then " = input()"
        else " = " + t + "(input())"
  {
    var refs := scan.scan.refList;
    var ns := Py3Expr.Idents(refs);
    forall i | 0 <= i < |ns|
      ensures ',' !in ns[i]
    {
      assert refs[i] in refs;
    }
    Py3Expr.SplitJoin(ns);
  }

  // ---------------------------------------------------------------------------
  // The recogniser

  /** How far the pattern has been matched, with the statements matched so far. */
  datatype Phase = Zero | Declared(decl: DeclAt) | Scanned(decl: DeclAt, scan: ScanAt)

  datatype State = State(phase: Phase, ozs: Registry)

  /** The scan is accepted unless one of its targets is both undeclared by the var and indexed. */
  predicate Intersect(spec: VarSpec, scan: ScanStmt)
  {
    forall r :: r in scan.refList ==> r.ident in spec.identList || |r.indices| == 0
  }

  /** The Inspect closure of `analyzer.multiVar`. */
  function Visit(s: State, n: Option<Node>): Outcome<(State, bool)>
  {
    match n
    case None => Ok((s, false))
    case Some(node) =>
      match s.phase
      case Zero =>
        (match node
         case NBlock(_) => Ok((s, true))
         case NStatement(_) => Ok((s, true))
         case NAlt(o, VarDecl(spec)) =>
           if spec.typ.TypeName? then Ok((s.(phase := Declared(DeclAt(o, spec))), false)) else Ok((s, false))
         case _ => Ok((s, false)))
      case Declared(d) =>
        (match node
         case NStatement(_) => Ok((s, true))
         case NAlt(_, CheckStmt(_)) => Ok((s, false))
         case NAlt(o, ScanStmt(sc)) =>
           if Intersect(d.spec, sc) then Ok((s.(phase := Scanned(d, ScanAt(o, sc))), false)) else Ok((s, false))
         case _ => Ok((s.(phase := Zero), false)))
      case Scanned(d, sc) =>
        (match node
         case NStatement(_) => Ok((s, true))
         case NAlt(_, CheckStmt(_)) => Ok((s, false))
         case NAlt(o, EOLStmt(_)) =>
           Ok((State(Zero, s.ozs[sc.id := MultiVarOz(d, sc, o)][d.id := Noop][o := Noop]), false))
         case _ => Ok((s.(phase := Zero), false)))
  }

  /** `analyzer.multiVar(b)`: the registry after inspecting the block. */
  function Run(ozs: Registry, b: Block): Outcome<Registry>
  {
    match Inspect(Visit, State(Zero, ozs), BlockTree(b))
    case Ok(s) => Ok(s.ozs)
    case Fail(e) => Fail(e)
    case Crash(m) => Crash(m)
  }

  /** Every multiVar replacement is keyed by its scan, for a scalar var whose names the scan accepts. */
  ghost predicate Wf(ozs: Registry)
  {
    forall k :: k in ozs && ozs[k].MultiVarOz? ==>
      ozs[k].scan.id == k && ozs[k].decl.spec.typ.TypeName? && Intersect(ozs[k].decl.spec, ozs[k].scan.scan)
  }

  ghost predicate PhaseWf(p: Phase)
  {
    match p
    case Zero => true
    case Declared(d) => d.spec.typ.TypeName?
    case Scanned(d, sc) => d.spec.typ.TypeName? && Intersect(d.spec, sc.scan)
  }

  ghost predicate Inv(s: State)
  {
    PhaseWf(s.phase) && Wf(s.ozs)
  }

  lemma VisitKeeps(s: State, n: Option<Node>)
    requires Inv(s) && Visit(s, n).Ok?
    ensures Inv(Visit(s, n).value.0)
  {
    var s1 := Visit(s, n).value.0;
    forall k | k in s1.ozs && s1.ozs[k].MultiVarOz?
      ensures s1.ozs[k].scan.id == k && s1.ozs[k].decl.spec.typ.TypeName? && Intersect(s1.ozs[k].decl.spec, s1.ozs[k].scan.scan)
    {
      if s1.ozs != s.ozs {
        assert k !in s.ozs || s1.ozs[k] != s.ozs[k] ==> s1.ozs[k] == MultiVarOz(s.phase.decl, s.phase.scan, n.value.owner);
      }
    }
  }

  /** The recogniser registers only well-formed multiVar replacements. */
  lemma RunKeepsWf(ozs: Registry, b: Block)
    requires Wf(ozs)
    ensures Run(ozs, b).Ok? ==> Wf(Run(ozs, b).value)
  {
    var inv := (s: State) => Inv(s);
    forall s': State, v': (), n: Option<Node> | inv(s') && Inspector(Visit)(s', v', n).Ok?
      ensures inv(Inspector(Visit)(s', v', n).value.0)
    {
      VisitKeeps(s', n);
    }
    WalkKeeps(Inspector(Visit), inv, (), State(Zero, ozs), BlockTree(b));
  }

  /** The recogniser writes only multiVar replacements and `Noop`s: every other entry stays as it was. */
  lemma RunWrites(ozs: Registry, b: Block)
    ensures Run(ozs, b).Ok? ==> forall k :: k in Run(ozs, b).value ==>
      (k in ozs && Run(ozs, b).value[k] == ozs[k]) || Run(ozs, b).value[k].Noop? || Run(ozs, b).value[k].MultiVarOz?
  {
    var inv := (s: State) => forall k :: k in s.ozs ==> (k in ozs && s.ozs[k] == ozs[k]) || s.ozs[k].Noop? || s.ozs[k].MultiVarOz?;
    forall s': State, v': (), n: Option<Node> | inv(s') && Inspector(Visit)(s', v', n).Ok?
      ensures inv(Inspector(Visit)(s', v', n).value.0)
    {
      var s1 := Visit(s', n).value.0;
      assert Inspector(Visit)(s', v', n).value.0 == s1;
      forall k | k in s1.ozs
        ensures (k in ozs && s1.ozs[k] == ozs[k]) || s1.ozs[k].Noop? || s1.ozs[k].MultiVarOz?
      {
        if !(k in s'.ozs && s1.ozs[k] == s'.ozs[k]) {
          assert s1.ozs[k].Noop? || s1.ozs[k].MultiVarOz?;
        }
      }
    }
    WalkKeeps(Inspector(Visit), inv, (), State(Zero, ozs), BlockTree(b));
  }

  lemma Transparent()
    ensures StatementTransparent(Visit)
  {
  }

  /**
   * On a block made of a scalar var, checks, an accepted scan, checks and an
   * eol, the scan is replaced and the var and the eol dropped.
   */
  lemma {:induction false} Fires(ozs: Registry, id: nat, d: Statement, cs1: seq<Statement>, sc: Statement, cs2: seq<Statement>, e: Statement)
    requires d.node.VarDecl? && d.node.spec.typ.TypeName?
    requires sc.node.ScanStmt? && Intersect(d.node.spec, sc.node.scan)
    requires e.node.EOLStmt?
    requires forall i :: 0 <= i < |cs1| ==> cs1[i].node.CheckStmt?
    requires forall i :: 0 <= i < |cs2| ==> cs2[i].node.CheckStmt?
    ensures Run(ozs, Block(id, [d] + cs1 + [sc] + cs2 + [e])) ==
      Ok(ozs[sc.id := MultiVarOz(DeclAt(d.id, d.node.spec), ScanAt(sc.id, sc.node.scan), e.id)][d.id := Noop][e.id := Noop])
  {
    var b := Block(id, [d] + cs1 + [sc] + cs2 + [e]);
    var s0 := State(Zero, ozs);
    var dd := DeclAt(d.id, d.node.spec);
    var ss := ScanAt(sc.id, sc.node.scan);
    var s1 := State(Declared(dd), ozs);
    var s2 := State(Scanned(dd, ss), ozs);
    var s3 := State(Zero, ozs[sc.id := MultiVarOz(dd, ss, e.id)][d.id := Noop][e.id := Noop]);
    Transparent();
    InspectBlock(Visit, s0, b, s0);
    DeclStep(ozs, d);
    ChecksKeep(s1, cs1);
    ScanStep(dd, ozs, sc);
    ChecksKeep(s2, cs2);
    EolStep(dd, ss, ozs, e);
    AltFoldAppend(Visit, s0, [d], cs1);
    AltFoldAppend(Visit, s0, [d] + cs1, [sc]);
    AltFoldAppend(Visit, s0, [d] + cs1 + [sc], cs2);
    AltFoldAppend(Visit, s0, [d] + cs1 + [sc] + cs2, [e]);
  }

  /** A scalar var starts a match. */
  lemma DeclStep(ozs: Registry, d: Statement)
    requires d.node.VarDecl? && d.node.spec.typ.TypeName?
    ensures AltFold(Visit, State(Zero, ozs), [d]) == Ok(State(Declared(DeclAt(d.id, d.node.spec)), ozs))
  {
    assert Visit(State(Zero, ozs), Some(NAlt(d.id, d.node))) == Ok((State(Declared(DeclAt(d.id, d.node.spec)), ozs), false));
    AltFoldOne(Visit, State(Zero, ozs), d, State(Declared(DeclAt(d.id, d.node.spec)), ozs));
  }

  /** Checks inside a match leave it as it is. */
  lemma ChecksKeep(s: State, cs: seq<Statement>)
    requires !s.phase.Zero?
    requires forall i :: 0 <= i < |cs| ==> cs[i].node.CheckStmt?
    ensures AltFold(Visit, s, cs) == Ok(s)
  {
    forall i | 0 <= i < |cs|
      ensures Visit(s, Some(NAlt(cs[i].id, cs[i].node))) == Ok((s, false))
    {
    }
    AltFoldUnchanged(Visit, s, cs);
  }

  /** A scan that accepts the var's names advances the match. */
  lemma ScanStep(dd: DeclAt, ozs: Registry, sc: Statement)
    requires sc.node.ScanStmt? && Intersect(dd.spec, sc.node.scan)
    ensures AltFold(Visit, State(Declared(dd), ozs), [sc]) == Ok(State(Scanned(dd, ScanAt(sc.id, sc.node.scan)), ozs))
  {
    var s2 := State(Scanned(dd, ScanAt(sc.id, sc.node.scan)), ozs);
    assert Visit(State(Declared(dd), ozs), Some(NAlt(sc.id, sc.node))) == Ok((s2, false));
    AltFoldOne(Visit, State(Declared(dd), ozs), sc, s2);
  }

  /** The eol completes the match and registers the replacement. */
  lemma EolStep(dd: DeclAt, ss: ScanAt, ozs: Registry, e: Statement)
    requires e.node.EOLStmt?
    ensures AltFold(Visit, State(Scanned(dd, ss), ozs), [e]) == Ok(State(Zero, ozs[ss.id := MultiVarOz(dd, ss, e.id)][dd.id := Noop][e.id := Noop]))
  {
    var s3 := State(Zero, ozs[ss.id := MultiVarOz(dd, ss, e.id)][dd.id := Noop][e.id := Noop]);
    assert Visit(State(Scanned(dd, ss), ozs), Some(NAlt(e.id, e.node))) == Ok((s3, false));
    AltFoldOne(Visit, State(Scanned(dd, ss), ozs), e, s3);
  }

  /**
   * Once a var is matched, any statement other than a check or a scan resets
   * the match without registering; so does anything but a check or an eol
   * after the scan.  A rejected scan leaves the var matched.
   */
  lemma Resets(s: State, o: nat, a: StmtNode)
    ensures s.phase.Declared? && !a.CheckStmt? && !a.ScanStmt? ==> Visit(s, Some(NAlt(o, a))) == Ok((State(Zero, s.ozs), false))
    ensures s.phase.Scanned? && !a.CheckStmt? && !a.EOLStmt? ==> Visit(s, Some(NAlt(o, a))) == Ok((State(Zero, s.ozs), false))
    ensures s.phase.Declared? && a.ScanStmt? && !Intersect(s.phase.decl.spec, a.scan) ==> Visit(s, Some(NAlt(o, a))) == Ok((s, false))
  {
  }
}
