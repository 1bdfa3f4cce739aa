/**
 * The older several-name recogniser (gen/py3/scansame.go): a loop over a
 * block's statements.  A scalar `var`, a `scan` its names cover and an `eol`,
 * with only `check` statements between them, are registered as one line
 * reading all the scanned names.  Loop bodies are handed on to
 * `analyzeBlock`, which is not part of this model.
 */
module ScanSame {
  import opened Wrappers
  import opened Errors
  import opened Ast
  import opened Optimization
  import Writer
  import MultiVar
  import ScanOne

  /** `scanSame.Generate` prints what `multiVar.Generate` prints. */
  method Generate(cw: Writer.Writer, decl: DeclAt, scan: ScanAt) returns (out: Outcome<()>)
    modifies cw
    ensures out.Ok? <==> MultiVar.Line(decl, scan).Ok?
    ensures out.Ok? ==> cw.State() == Writer.Ended(old(cw.State()), MultiVar.Line(decl, scan).value)
    ensures !out.Ok? ==> out == Fail(Runtime(NilDeref))
  {
    out := MultiVar.Generate(cw, decl, scan);
  }

  /** `szero`, `svar` and `sscan` with the statements matched so far, and `seol`. */
  datatype Phase = Zero | Declared(decl: DeclAt) | Scanned(decl: DeclAt, scan: ScanAt) | Registered

  datatype Acc = Acc(phase: Phase, ozs: Registry, nested: seq<Block>)

  /** One iteration of the loop. */
  function Step(a: Acc, st: Statement): Acc
  {
    match st.node
    case VarDecl(spec) =>
      if spec.typ.TypeName? then a.(phase := Declared(DeclAt(st.id, spec))) else a
    case ScanStmt(sc) =>
      if a.phase.Declared? then
        (if MultiVar.Intersect(a.phase.decl.spec, sc) then a.(phase := Scanned(a.phase.decl, ScanAt(st.id, sc))) else a)
      else a.(phase := Zero)
    case CheckStmt(_) => a
    case ForStmt(_, body) => a.(phase := Zero, nested := a.nested + [body])
    case EOLStmt(_) =>
      if a.phase.Scanned? then
        Acc(Registered, a.ozs[a.phase.scan.id := ScanSameOz(a.phase.decl, a.phase.scan, st.id)][a.phase.decl.id := Noop][st.id := Noop], a.nested)
      else a.(phase := Zero)
    case _ => a.(phase := Zero)
  }

  function Fold(a: Acc, stmts: seq<Statement>): Acc
    decreases |stmts|
  {
    if stmts == [] then a else Step(Fold(a, stmts[..|stmts| - 1]), stmts[|stmts| - 1])
  }

  /** `analyzeBlockScanSame`. */
  method AnalyzeBlock(ozs: Registry, b: Block) returns (ozs': Registry, nested: seq<Block>)
    ensures ozs' == Fold(Acc(Zero, ozs, []), b.statements).ozs
    ensures nested == Fold(Acc(Zero, ozs, []), b.statements).nested
  {
    var state := Zero;
    ozs', nested := ozs, [];
    var i := 0;
    while i < |b.statements|
      invariant 0 <= i <= |b.statements|
      invariant Acc(state, ozs', nested) == Fold(Acc(Zero, ozs, []), b.statements[..i])
    {
      var n := b.statements[i];
      match n.node {
        case VarDecl(spec) =>
          if spec.typ.TypeName? {
            state := Declared(DeclAt(n.id, spec));
          }
        case ScanStmt(sc) =>
          if state.Declared? {
            if MultiVar.Intersect(state.decl.spec, sc) {
              state := Scanned(state.decl, ScanAt(n.id, sc));
            }
          } else {
            state := Zero;
          }
        case CheckStmt(_) =>
        case ForStmt(_, body) =>
          state := Zero;
          nested := nested + [body];
        case EOLStmt(_) =>
          if state.Scanned? {
            ozs' := ozs'[state.scan.id := ScanSameOz(state.decl, state.scan, n.id)][state.decl.id := Noop][n.id := Noop];
            state := Registered;
          } else {
            state := Zero;
          }
        case _ =>
          state := Zero;
      }
      assert b.statements[..i + 1][..i] == b.statements[..i];
      i := i + 1;
    }
    assert b.statements[..i] == b.statements;
  }

  lemma {:induction false} FoldAppend(a: Acc, s: seq<Statement>, t: seq<Statement>)
    ensures Fold(a, s + t) == Fold(Fold(a, s), t)
    decreases |t|
  {
    if t == [] {
      assert s + t == s;
    } else {
      assert (s + t)[..|s + t| - 1] == s + t[..|t| - 1];
      FoldAppend(a, s, t[..|t| - 1]);
    }
  }

  /** Exactly the bodies of the block's loops are handed on, each once and in order. */
  lemma {:induction false} NestedAreLoopBodies(a: Acc, stmts: seq<Statement>)
    ensures Fold(a, stmts).nested == a.nested + ScanOne.ForBodies(stmts)
    decreases |stmts|
  {
    if stmts != [] {
      NestedAreLoopBodies(a, stmts[..|stmts| - 1]);
    }
  }

  /** Every scanSame replacement is keyed by its scan, for a scalar var whose names the scan covers. */
  ghost predicate Wf(ozs: Registry)
  {
    forall k :: k in ozs && ozs[k].ScanSameOz? ==>
      ozs[k].scan.id == k && ozs[k].decl.spec.typ.TypeName? && MultiVar.Intersect(ozs[k].decl.spec, ozs[k].scan.scan)
  }

  ghost predicate Inv(a: Acc)
  {
    Wf(a.ozs) &&
    (a.phase.Declared? ==> a.phase.decl.spec.typ.TypeName?) &&
    (a.phase.Scanned? ==> a.phase.decl.spec.typ.TypeName? && MultiVar.Intersect(a.phase.decl.spec, a.phase.scan.scan))
  }

  lemma StepKeeps(a: Acc, st: Statement)
    requires Inv(a)
    ensures Inv(Step(a, st))
  {
    var b := Step(a, st);
    if b.ozs != a.ozs {
      forall k | k in b.ozs && b.ozs[k].ScanSameOz?
        ensures b.ozs[k].scan.id == k && b.ozs[k].decl.spec.typ.TypeName? && MultiVar.Intersect(b.ozs[k].decl.spec, b.ozs[k].scan.scan)
      {
        if !(k in a.ozs && b.ozs[k] == a.ozs[k]) {
          assert b.ozs[k] == ScanSameOz(a.phase.decl, a.phase.scan, st.id);
        }
      }
    }
  }

  /** The loop registers only well-formed replacements. */
  lemma {:induction false} FoldKeepsWf(a: Acc, stmts: seq<Statement>)
    requires Inv(a)
    ensures Inv(Fold(a, stmts))
    decreases |stmts|
  {
    if stmts != [] {
      FoldKeepsWf(a, stmts[..|stmts| - 1]);
      StepKeeps(Fold(a, stmts[..|stmts| - 1]), stmts[|stmts| - 1]);
    }
  }

  lemma {:induction false} ChecksSkipped(a: Acc, cs: seq<Statement>)
    requires forall i :: 0 <= i < |cs| ==> cs[i].node.CheckStmt?
    ensures Fold(a, cs) == a
    decreases |cs|
  {
    if cs != [] {
      ChecksSkipped(a, cs[..|cs| - 1]);
    }
  }

  /**
   * A scalar var, checks, a covered scan, checks and an eol: the scan is
   * replaced and the var and the eol dropped.
   */
  lemma {:induction false} Fires(ozs: Registry, nested: seq<Block>, d: Statement, cs1: seq<Statement>, sc: Statement, cs2: seq<Statement>, e: Statement)
    requires d.node.VarDecl? && d.node.spec.typ.TypeName?
    requires sc.node.ScanStmt? && MultiVar.Intersect(d.node.spec, sc.node.scan)
    requires e.node.EOLStmt?
    requires forall i :: 0 <= i < |cs1| ==> cs1[i].node.CheckStmt?
    requires forall i :: 0 <= i < |cs2| ==> cs2[i].node.CheckStmt?
    ensures Fold(Acc(Zero, ozs, nested), [d] + cs1 + [sc] + cs2 + [e]) ==
      Acc(Registered, ozs[sc.id := ScanSameOz(DeclAt(d.id, d.node.spec), ScanAt(sc.id, sc.node.scan), e.id)][d.id := Noop][e.id := Noop], nested)
  {
    var a0 := Acc(Zero, ozs, nested);
    var dd := DeclAt(d.id, d.node.spec);
    var a1 := Acc(Declared(dd), ozs, nested);
    var a2 := Acc(Scanned(dd, ScanAt(sc.id, sc.node.scan)), ozs, nested);
    assert Fold(a0, [d]) == a1 by {
      assert [d][..0] == [];
    }
    ChecksSkipped(a1, cs1);
    FoldAppend(a0, [d], cs1);
    assert ([d] + cs1 + [sc])[..|[d] + cs1 + [sc]| - 1] == [d] + cs1;
    assert Fold(a0, [d] + cs1 + [sc]) == a2;
    ChecksSkipped(a2, cs2);
    FoldAppend(a0, [d] + cs1 + [sc], cs2);
    assert ([d] + cs1 + [sc] + cs2 + [e])[..|[d] + cs1 + [sc] + cs2 + [e]| - 1] == [d] + cs1 + [sc] + cs2;
  }

  /**
   * Any scalar var restarts the match from itself, whatever came before; an
   * array var changes nothing; a scan the var's names do not cover keeps the
   * var matched.
   */
  lemma Restarts(a: Acc, st: Statement)
    ensures st.node.VarDecl? && st.node.spec.typ.TypeName? ==> Step(a, st) == a.(phase := Declared(DeclAt(st.id, st.node.spec)))
    ensures st.node.VarDecl? && !st.node.spec.typ.TypeName? ==> Step(a, st) == a
    ensures a.phase.Declared? && st.node.ScanStmt? && !MultiVar.Intersect(a.phase.decl.spec, st.node.scan) ==> Step(a, st) == a
  {
  }
}
