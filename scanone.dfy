/**
 * The older single-token recogniser (gen/py3/scanone.go): a loop over a
 * block's statements with a three-state machine.  A one-target `scan`
 * followed, after any `check` statements, by an `eol` is registered as a
 * one-line read.  The blocks of `for` statements are handed on to
 * `analyzeBlock`, which is not part of this model: the method returns them.
 */
module ScanOne {
  import opened Wrappers
  import opened Errors
  import opened Ast
  import opened Optimization
  import Writer
  import Py3Expr
  import OnlyToken

  /** `scanOne.Generate` prints what `onlyToken.Generate` prints. */
  method Generate(cw: Writer.Writer, v: Py3Expr.Verbs, types: map<string, string>, scan: ScanAt) returns (out: Outcome<()>)
    modifies cw
    ensures out == Py3Expr.Status(OnlyToken.Line(v, types, scan))
    ensures out.Ok? ==> cw.State() == Writer.Ended(old(cw.State()), OnlyToken.Line(v, types, scan).value)
  {
    out := OnlyToken.Generate(cw, v, types, scan);
  }

  /** `szero`, `sscan` with the matched scan, and `seol` after a registration. */
  datatype Phase = Zero | Scanned(scan: ScanAt) | Registered

  /** The loop's state: the phase, the registry and the blocks handed to `analyzeBlock` so far. */
  datatype Acc = Acc(phase: Phase, ozs: Registry, nested: seq<Block>)

  /** One iteration of the loop. */
  function Step(a: Acc, st: Statement): Acc
  {
    match st.node
    case ScanStmt(sc) =>
      if a.phase.Zero? then (if |sc.refList| == 1 then a.(phase := Scanned(ScanAt(st.id, sc))) else a)
      else a.(phase := Zero)
    case CheckStmt(_) => a
    case ForStmt(_, body) => a.(phase := Zero, nested := a.nested + [body])
    case EOLStmt(_) =>
      if a.phase.Scanned? then Acc(Registered, a.ozs[a.phase.scan.id := ScanOneOz(a.phase.scan, st.id)][st.id := Noop], a.nested)
      else a.(phase := Zero)
    case _ => a.(phase := Zero)
  }

  /** The loop over a sequence of statements. */
  function Fold(a: Acc, stmts: seq<Statement>): Acc
    decreases |stmts|
  {
    if stmts == [] then a else Step(Fold(a, stmts[..|stmts| - 1]), stmts[|stmts| - 1])
  }

  /** `analyzeBlockScanOne`. */
  method AnalyzeBlock(ozs: Registry, b: Block) returns (ozs': Registry, nested: seq<Block>)
    ensures ozs' == Fold(Acc(Zero, ozs, []), b.statements).ozs
    ensures nested == Fold(Acc(Zero, ozs, []), b.statements).nested
  {
    var state := Zero;
    ozs', nested := ozs, [];
    var i := 0;
    while i < |b.statements|
      invariant 0 <= i <= |b.statements|
      invariant Acc(state, ozs', nested) == Fold(Acc(Zero, ozs, []), b.statements[..i])
    {
      var n := b.statements[i];
      match n.node {
        case ScanStmt(sc) =>
          if state.Zero? {
            if |sc.refList| == 1 {
              state := Scanned(ScanAt(n.id, sc));
            }
          } else {
            state := Zero;
          }
        case CheckStmt(_) =>
        case ForStmt(_, body) =>
          state := Zero;
          nested := nested + [body];
        case EOLStmt(_) =>
          if state.Scanned? {
            ozs' := ozs'[state.scan.id := ScanOneOz(state.scan, n.id)][n.id := Noop];
            state := Registered;
          } else {
            state := Zero;
          }
        case _ =>
          state := Zero;
      }
      assert b.statements[..i + 1][..i] == b.statements[..i];
      i := i + 1;
    }
    assert b.statements[..i] == b.statements;
  }

  lemma {:induction false} FoldAppend(a: Acc, s: seq<Statement>, t: seq<Statement>)
    ensures Fold(a, s + t) == Fold(Fold(a, s), t)
    decreases |t|
  {
    if t == [] {
      assert s + t == s;
    } else {
      assert (s + t)[..|s + t| - 1] == s + t[..|t| - 1];
      FoldAppend(a, s, t[..|t| - 1]);
    }
  }

  /** The bodies of the `for` statements, in order. */
  function ForBodies(stmts: seq<Statement>): (bodies: seq<Block>)
    ensures |bodies| <= |stmts|
    decreases |stmts|
  {
    if stmts == [] then []
    else ForBodies(stmts[..|stmts| - 1]) + (if stmts[|stmts| - 1].node.ForStmt? then [stmts[|stmts| - 1].node.body] else [])
  }

  /** Exactly the bodies of the block's loops are handed on, each once and in order. */
  lemma {:induction false} NestedAreLoopBodies(a: Acc, stmts: seq<Statement>)
    ensures Fold(a, stmts).nested == a.nested + ForBodies(stmts)
    decreases |stmts|
  {
    if stmts != [] {
      NestedAreLoopBodies(a, stmts[..|stmts| - 1]);
    }
  }

  /** Every scanOne replacement is keyed by its scan, which has exactly one target. */
  ghost predicate Wf(ozs: Registry)
  {
    forall k :: k in ozs && ozs[k].ScanOneOz? ==> ozs[k].scan.id == k && |ozs[k].scan.scan.refList| == 1
  }

  ghost predicate Inv(a: Acc)
  {
    Wf(a.ozs) && (a.phase.Scanned? ==> |a.phase.scan.scan.refList| == 1)
  }

  /** The loop registers only well-formed replacements. */
  lemma {:induction false} FoldKeepsWf(a: Acc, stmts: seq<Statement>)
    requires Inv(a)
    ensures Inv(Fold(a, stmts))
    decreases |stmts|
  {
    if stmts != [] {
      FoldKeepsWf(a, stmts[..|stmts| - 1]);
    }
  }

  /** A one-target scan, checks and an eol: the scan is replaced and the eol dropped. */
  lemma {:induction false} Fires(ozs: Registry, nested: seq<Block>, sc: Statement, cs: seq<Statement>, e: Statement)
    requires sc.node.ScanStmt? && |sc.node.scan.refList| == 1
    requires e.node.EOLStmt?
    requires forall i :: 0 <= i < |cs| ==> cs[i].node.CheckStmt?
    ensures Fold(Acc(Zero, ozs, nested), [sc] + cs + [e]) ==
      Acc(Registered, ozs[sc.id := ScanOneOz(ScanAt(sc.id, sc.node.scan), e.id)][e.id := Noop], nested)
  {
    var a1 := Acc(Scanned(ScanAt(sc.id, sc.node.scan)), ozs, nested);
    assert Fold(Acc(Zero, ozs, nested), [sc]) == a1 by {
      assert [sc][..0] == [];
    }
    ChecksSkipped(a1, cs);
    FoldAppend(Acc(Zero, ozs, nested), [sc], cs);
    assert ([sc] + cs + [e])[..|[sc] + cs + [e]| - 1] == [sc] + cs;
  }

  lemma {:induction false} ChecksSkipped(a: Acc, cs: seq<Statement>)
    requires forall i :: 0 <= i < |cs| ==> cs[i].node.CheckStmt?
    ensures Fold(a, cs) == a
    decreases |cs|
  {
    if cs != [] {
      ChecksSkipped(a, cs[..|cs| - 1]);
    }
  }

  /**
   * After a registration the machine is in `seol`, where a scan resets it:
   * of two one-target lines in a row only the first is replaced, and the
   * second keeps whatever the registry held for it.
   */
  lemma SecondLineMissed(ozs: Registry, sc1: Statement, e1: Statement, sc2: Statement, e2: Statement)
    requires sc1.node.ScanStmt? && |sc1.node.scan.refList| == 1 && e1.node.EOLStmt?
    requires sc2.node.ScanStmt? && |sc2.node.scan.refList| == 1 && e2.node.EOLStmt?
    ensures Fold(Acc(Zero, ozs, []), [sc1, e1, sc2, e2]) ==
      Acc(Zero, ozs[sc1.id := ScanOneOz(ScanAt(sc1.id, sc1.node.scan), e1.id)][e1.id := Noop], [])
  {
    var a0 := Acc(Zero, ozs, []);
    var a1 := Acc(Scanned(ScanAt(sc1.id, sc1.node.scan)), ozs, []);
    var a2 := Acc(Registered, ozs[sc1.id := ScanOneOz(ScanAt(sc1.id, sc1.node.scan), e1.id)][e1.id := Noop], []);
    assert [sc1][..0] == [];
    assert Fold(a0, [sc1]) == a1;
    assert [sc1, e1][..1] == [sc1];
    assert Fold(a0, [sc1, e1]) == a2;
    assert [sc1, e1, sc2][..2] == [sc1, e1];
    assert Fold(a0, [sc1, e1, sc2]) == a2.(phase := Zero);
    assert [sc1, e1, sc2, e2][..3] == [sc1, e1, sc2];
  }
}
