/**
 * The onlyToken optimisation (gen/py3/onlytoken.go): a `scan` of a single
 * target followed, after any `check` statements, by an `eol` becomes one line
 * reading that target from a whole input line.
 */
module OnlyToken {
  import opened Wrappers
  import opened Errors
  import opened Ast
  import opened Walk
  import opened Optimization
  import Writer
  import Py3Types
  import Py3Expr
  import MultiVar

  // ---------------------------------------------------------------------------
  // Generate

  /** The Python type the generator recorded for a target, by its name and number of indices. */
  function TargetType(types: map<string, string>, r: Reference): string
  {
    Py3Types.Lookup(types, Py3Expr.TypeKey(r.ident, |r.indices|))
  }

  /** The line `onlyToken.Generate` prints for the scan's first target, without its newline. */
  function Line(v: Py3Expr.Verbs, types: map<string, string>, scan: ScanAt): Outcome<string>
  {
    var r := scan.scan.refList[0];
    Py3Expr.Cat(Py3Expr.RefTarget(v, r), Ok(MultiVar.Reader(TargetType(types, r), 1)))
  }

  method Generate(cw: Writer.Writer, v: Py3Expr.Verbs, types: map<string, string>, scan: ScanAt) returns (out: Outcome<()>)
    modifies cw
    ensures out == Py3Expr.Status(Line(v, types, scan))
    ensures out.Ok? ==> cw.State() == Writer.Ended(old(cw.State()), Line(v, types, scan).value)
  {
    var w0 := cw.State();
    var r := scan.scan.refList[0];
    var target := Py3Expr.PrintTarget(cw, v, r);
    if !target.Ok? {
      return Py3Expr.Status(target);
    }
    var t := TargetType(types, r);
    if t == "string" {
      cw.Print(" = input()");
    } else {
      cw.Print(" = " + t + "(input())");
    }
    Writer.PrintConcat(w0, target.value, MultiVar.Reader(t, 1));
    cw.Println("");
    Writer.PrintThenEnd(w0, target.value + MultiVar.Reader(t, 1), "");
    assert target.value + MultiVar.Reader(t, 1) + "" == target.value + MultiVar.Reader(t, 1);
    return Ok(());
  }

  /**
   * An unindexed target recorded as a string is assigned the whole line; one
   * recorded with another type is assigned the line converted by that type.
   */
  lemma PlainTargetLine(v: Py3Expr.Verbs, types: map<string, string>, scan: ScanAt)
    requires scan.scan.refList[0].indices == []
    ensures var x := scan.scan.refList[0].ident;
      Line(v, types, scan) ==
        if x in types && types[x] == "string" then Ok(x + " = input()")
        else Ok(x + " = " + Py3Types.Lookup(types, x) + "(input())")
  {
    var r := scan.scan.refList[0];
    assert Py3Expr.TypeKey(r.ident, 0) == r.ident by {
      assert Writer.Repeat("[]", 0) == "";
      assert r.ident + "" == r.ident;
    }
    assert Py3Expr.RefTarget(v, r) == Ok(r.ident) by {
      assert r.ident + "" == r.ident;
    }
    var t := Py3Types.Lookup(types, r.ident);
    assert r.ident + (" = " + t + "(input())") == r.ident + " = " + t + "(input())";
  }

  /** The line is the printed target followed by the reader; a failing index expression is the line's failure. */
  lemma LineIsTargetThenReader(v: Py3Expr.Verbs, types: map<string, string>, scan: ScanAt)
    ensures var r := scan.scan.refList[0];
      && (Line(v, types, scan).Ok? <==> Py3Expr.RefTarget(v, r).Ok?)
      && (Line(v, types, scan).Ok? ==> Py3Expr.RefTarget(v, r).value <= Line(v, types, scan).value)
      && (!Line(v, types, scan).Ok? ==> Line(v, types, scan) == Py3Expr.RefTarget(v, r))
  {
  }

  // ---------------------------------------------------------------------------
  // The recogniser

  datatype Phase = Zero | Scanned(scan: ScanAt)

  datatype State = State(phase: Phase, ozs: Registry)

  /** The Inspect closure of `analyzer.onlyToken`. */
  function Visit(s: State, n: Option<Node>): Outcome<(State, bool)>
  {
    match n
    case None => Ok((s, false))
    case Some(node) =>
      match s.phase
      case Zero =>
        (match node
         case NBlock(_) => Ok((s, true))
         case NStatement(_) => Ok((s, true))
         case NAlt(o, ScanStmt(sc)) =>
           if |sc.refList| == 1 then Ok((s.(phase := Scanned(ScanAt(o, sc))), false)) else Ok((s, false))
         case _ => Ok((s, false)))
      case Scanned(sc) =>
        (match node
         case NStatement(_) => Ok((s, true))
         case NAlt(_, CheckStmt(_)) => Ok((s, false))
         case NAlt(o, EOLStmt(_)) =>
           Ok((State(Zero, s.ozs[sc.id := OnlyTokenOz(sc, o)][o := Noop]), false))
         case _ => Ok((s.(phase := Zero), false)))
  }

  /** `analyzer.onlyToken(b)`: the registry after inspecting the block. */
  function Run(ozs: Registry, b: Block): Outcome<Registry>
  {
    match Inspect(Visit, State(Zero, ozs), BlockTree(b))
    case Ok(s) => Ok(s.ozs)
    case Fail(e) => Fail(e)
    case Crash(m) => Crash(m)
  }

  /** Every onlyToken replacement is keyed by its scan, which has exactly one target. */
  ghost predicate Wf(ozs: Registry)
  {
    forall k :: k in ozs && ozs[k].OnlyTokenOz? ==> ozs[k].scan.id == k && |ozs[k].scan.scan.refList| == 1
  }

  ghost predicate Inv(s: State)
  {
    Wf(s.ozs) && (s.phase.Scanned? ==> |s.phase.scan.scan.refList| == 1)
  }

  lemma VisitKeeps(s: State, n: Option<Node>)
    requires Inv(s) && Visit(s, n).Ok?
    ensures Inv(Visit(s, n).value.0)
  {
  }

  /** The recogniser registers only well-formed onlyToken replacements. */
  lemma RunKeepsWf(ozs: Registry, b: Block)
    requires Wf(ozs)
    ensures Run(ozs, b).Ok? ==> Wf(Run(ozs, b).value)
  {
    var inv := (s: State) => Inv(s);
    forall s': State, v': (), n: Option<Node> | inv(s') && Inspector(Visit)(s', v', n).Ok?
      ensures inv(Inspector(Visit)(s', v', n).value.0)
    {
      VisitKeeps(s', n);
    }
    WalkKeeps(Inspector(Visit), inv, (), State(Zero, ozs), BlockTree(b));
  }

  /** The recogniser writes only onlyToken replacements and `Noop`s: every other entry stays as it was. */
  lemma RunWrites(ozs: Registry, b: Block)
    ensures Run(ozs, b).Ok? ==> forall k :: k in Run(ozs, b).value ==>
      (k in ozs && Run(ozs, b).value[k] == ozs[k]) || Run(ozs, b).value[k].Noop? || Run(ozs, b).value[k].OnlyTokenOz?
  {
    var inv := (s: State) => forall k :: k in s.ozs ==> (k in ozs && s.ozs[k] == ozs[k]) || s.ozs[k].Noop? || s.ozs[k].OnlyTokenOz?;
    forall s': State, v': (), n: Option<Node> | inv(s') && Inspector(Visit)(s', v', n).Ok?
      ensures inv(Inspector(Visit)(s', v', n).value.0)
    {
      var s1 := Visit(s', n).value.0;
      assert Inspector(Visit)(s', v', n).value.0 == s1;
      forall k | k in s1.ozs
        ensures (k in ozs && s1.ozs[k] == ozs[k]) || s1.ozs[k].Noop? || s1.ozs[k].OnlyTokenOz?
      {
        if !(k in s'.ozs && s1.ozs[k] == s'.ozs[k]) {
          assert s1.ozs[k].Noop? || s1.ozs[k].OnlyTokenOz?;
        }
      }
    }
    WalkKeeps(Inspector(Visit), inv, (), State(Zero, ozs), BlockTree(b));
  }

  lemma Transparent()
    ensures StatementTransparent(Visit)
  {
  }

  /** The fold over a one-target scan, checks and an eol registers the scan and drops the eol. */
  lemma {:induction false} FoldFires(ozs: Registry, sc: Statement, cs: seq<Statement>, e: Statement)
    requires sc.node.ScanStmt? && |sc.node.scan.refList| == 1
    requires e.node.EOLStmt?
    requires forall i :: 0 <= i < |cs| ==> cs[i].node.CheckStmt?
    ensures AltFold(Visit, State(Zero, ozs), [sc] + cs + [e]) ==
      Ok(State(Zero, ozs[sc.id := OnlyTokenOz(ScanAt(sc.id, sc.node.scan), e.id)][e.id := Noop]))
  {
    var s0 := State(Zero, ozs);
    var ss := ScanAt(sc.id, sc.node.scan);
    var s1 := State(Scanned(ss), ozs);
    var s2 := State(Zero, ozs[sc.id := OnlyTokenOz(ss, e.id)][e.id := Noop]);
    AltFoldOne(Visit, s0, sc, s1);
    AltFoldUnchanged(Visit, s1, cs);
    AltFoldOne(Visit, s1, e, s2);
    AltFoldAppend(Visit, s0, [sc], cs);
    AltFoldAppend(Visit, s0, [sc] + cs, [e]);
  }

  /** On a block made of a one-target scan, checks and an eol, the scan is replaced and the eol dropped. */
  lemma {:induction false} Fires(ozs: Registry, id: nat, sc: Statement, cs: seq<Statement>, e: Statement)
    requires sc.node.ScanStmt? && |sc.node.scan.refList| == 1
    requires e.node.EOLStmt?
    requires forall i :: 0 <= i < |cs| ==> cs[i].node.CheckStmt?
    ensures Run(ozs, Block(id, [sc] + cs + [e])) == Ok(ozs[sc.id := OnlyTokenOz(ScanAt(sc.id, sc.node.scan), e.id)][e.id := Noop])
  {
    var b := Block(id, [sc] + cs + [e]);
    Transparent();
    InspectBlock(Visit, State(Zero, ozs), b, State(Zero, ozs));
    FoldFires(ozs, sc, cs, e);
  }

  /**
   * A scan of several targets is not matched; after a matched scan, anything
   * but a check or an eol drops the match without registering.
   */
  lemma Resets(s: State, o: nat, a: StmtNode)
    ensures s.phase.Zero? && a.ScanStmt? && |a.scan.refList| != 1 ==> Visit(s, Some(NAlt(o, a))) == Ok((s, false))
    ensures s.phase.Scanned? && !a.CheckStmt? && !a.EOLStmt? ==> Visit(s, Some(NAlt(o, a))) == Ok((State(Zero, s.ozs), false))
  {
  }
}
