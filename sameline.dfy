/**
 * The sameLine optimisation (gen/py3/sameline.go): in a block with no `eol`
 * anywhere inside it, the tokens of a line are shared among several scans, so
 * every `scan` directly in the block assigns each target the next token of
 * the pending line list `_`.
 */
module SameLine {
  import opened Wrappers
  import opened Errors
  import opened Ast
  import opened Walk
  import opened Optimization
  import Writer
  import Py3Expr
  import OnlyToken

  // ---------------------------------------------------------------------------
  // Generate

  /** The line assigning one target the next pending token, converted by its recorded type. */
  function RefLine(v: Py3Expr.Verbs, types: map<string, string>, r: Reference): Outcome<string>
  {
    Py3Expr.Cat(Py3Expr.RefTarget(v, r), Ok(" = " + OnlyToken.TargetType(types, r) + "(_.pop(0))"))
  }

  /** The writer after one line per target, in order; the first target whose index fails stops it. */
  function Emit(w: Writer.Out, v: Py3Expr.Verbs, types: map<string, string>, refs: seq<Reference>): Outcome<Writer.Out>
    decreases |refs|
  {
    if refs == [] then Ok(w)
    else match RefLine(v, types, refs[0])
      case Ok(l) => Emit(Writer.Ended(w, l), v, types, refs[1..])
      case Fail(e) => Fail(e)
      case Crash(m) => Crash(m)
  }

  lemma {:induction false} EmitAppend(w: Writer.Out, v: Py3Expr.Verbs, types: map<string, string>, a: seq<Reference>, b: seq<Reference>)
    ensures Emit(w, v, types, a + b) ==
      match Emit(w, v, types, a)
      case Ok(w1) => Emit(w1, v, types, b)
      case Fail(e) => Fail(e)
      case Crash(m) => Crash(m)
    decreases |a|
  {
    if a == [] {
      assert a + b == b;
    } else {
      assert (a + b)[0] == a[0] && (a + b)[1..] == a[1..] + b;
      match RefLine(v, types, a[0])
      case Ok(l) => EmitAppend(Writer.Ended(w, l), v, types, a[1..], b);
      case Fail(_) =>
      case Crash(_) =>
    }
  }

  /**
   * Emitting succeeds exactly when every target's indices print; it then
   * writes one line per target, ends at column 0 and only appends.
   */
  lemma {:induction false} EmitLines(w: Writer.Out, v: Py3Expr.Verbs, types: map<string, string>, refs: seq<Reference>)
    ensures Emit(w, v, types, refs).Ok? <==> forall i :: 0 <= i < |refs| ==> Py3Expr.RefTarget(v, refs[i]).Ok?
    ensures Emit(w, v, types, refs).Ok? ==>
      var w' := Emit(w, v, types, refs).value;
      && w'.r == w.r + |refs| && w.buf <= w'.buf && w'.d == w.d && w'.indent == w.indent
      && (|refs| > 0 ==> w'.c == 0 && |w'.buf| > 0 && w'.buf[|w'.buf| - 1] == '\n')
    decreases |refs|
  {
    if refs != [] {
      var l := RefLine(v, types, refs[0]);
      if l.Ok? {
        Writer.AppendOnly(w, l.value);
        EmitLines(Writer.Ended(w, l.value), v, types, refs[1..]);
        forall i | 0 <= i < |refs[1..]|
          ensures refs[1..][i] == refs[i + 1]
        {
        }
      }
    }
  }

  method Generate(cw: Writer.Writer, v: Py3Expr.Verbs, types: map<string, string>, scan: ScanAt) returns (out: Outcome<()>)
    modifies cw
    ensures out == Py3Expr.Status(Emit(old(cw.State()), v, types, scan.scan.refList))
    ensures out.Ok? ==> cw.State() == Emit(old(cw.State()), v, types, scan.scan.refList).value
  {
    var refs := scan.scan.refList;
    ghost var w0 := cw.State();
    var i := 0;
    while i < |refs|
      invariant 0 <= i <= |refs|
      invariant Emit(w0, v, types, refs[..i]) == Ok(cw.State())
    {
      var r := refs[i];
      ghost var w1 := cw.State();
      var target := Py3Expr.PrintTarget(cw, v, r);
      if !target.Ok? {
        assert RefLine(v, types, r) == target;
        EmitStops(w0, v, types, refs, i);
        return Py3Expr.Status(target);
      }
      var tail := " = " + OnlyToken.TargetType(types, r) + "(_.pop(0))";
      cw.Print(tail);
      Writer.PrintConcat(w1, target.value, tail);
      cw.Println("");
      Writer.PrintThenEnd(w1, target.value + tail, "");
      assert target.value + tail + "" == target.value + tail;
      EmitStep(w0, v, types, refs, i, target.value + tail);
      i := i + 1;
    }
    assert refs[..i] == refs;
    return Ok(());
  }

  /** One more target's line, after the earlier ones printed. */
  lemma EmitStep(w0: Writer.Out, v: Py3Expr.Verbs, types: map<string, string>, refs: seq<Reference>, i: nat, l: string)
    requires i < |refs| && Emit(w0, v, types, refs[..i]).Ok? && RefLine(v, types, refs[i]) == Ok(l)
    ensures Emit(w0, v, types, refs[..i + 1]) == Ok(Writer.Ended(Emit(w0, v, types, refs[..i]).value, l))
  {
    EmitAppend(w0, v, types, refs[..i], [refs[i]]);
    assert refs[..i + 1] == refs[..i] + [refs[i]];
    assert [refs[i]][1..] == [];
  }

  /** The first target whose line fails decides the outcome. */
  lemma EmitStops(w0: Writer.Out, v: Py3Expr.Verbs, types: map<string, string>, refs: seq<Reference>, i: nat)
    requires i < |refs| && Emit(w0, v, types, refs[..i]).Ok? && !RefLine(v, types, refs[i]).Ok?
    ensures Py3Expr.Status(Emit(w0, v, types, refs)) == Py3Expr.Status(RefLine(v, types, refs[i]))
  {
    EmitAppend(w0, v, types, refs[..i], refs[i..]);
    assert refs[..i] + refs[i..] == refs;
    assert refs[i..][0] == refs[i];
  }

  // ---------------------------------------------------------------------------
  // The recogniser

  /** The Inspect closure of `analyzer.sameLine`: every scan directly in the block is replaced. */
  function Visit(ozs: Registry, n: Option<Node>): Outcome<(Registry, bool)>
  {
    match n
    case Some(NBlock(_)) => Ok((ozs, true))
    case Some(NStatement(_)) => Ok((ozs, true))
    case Some(NAlt(o, ScanStmt(sc))) => Ok((ozs[o := SameLineOz(ScanAt(o, sc))], false))
    case _ => Ok((ozs, false))
  }

  /** `analyzer.sameLine(b)`, given the blocks `findBlockEOLs` marked. */
  function Run(ozs: Registry, blockEOLs: set<nat>, b: Block): Outcome<Registry>
  {
    if b.id in blockEOLs then Ok(ozs) else Inspect(Visit, ozs, BlockTree(b))
  }

  /** The reference definition: each scan statement, in order, registers its replacement. */
  function Marked(ozs: Registry, stmts: seq<Statement>): Registry
    decreases |stmts|
  {
    if stmts == [] then ozs
    else Marked(if stmts[0].node.ScanStmt? then ozs[stmts[0].id := SameLineOz(ScanAt(stmts[0].id, stmts[0].node.scan))] else ozs, stmts[1..])
  }

  lemma {:induction false} FoldMarks(ozs: Registry, stmts: seq<Statement>)
    ensures AltFold(Visit, ozs, stmts) == Ok(Marked(ozs, stmts))
    decreases |stmts|
  {
    if stmts != [] {
      var st := stmts[0];
      var o1 := if st.node.ScanStmt? then ozs[st.id := SameLineOz(ScanAt(st.id, st.node.scan))] else ozs;
      AltDeclined(Visit, ozs, st.id, st.node, o1);
      FoldMarks(o1, stmts[1..]);
    }
  }

  /** The recogniser never fails, and computes the reference definition over the block's statements. */
  lemma RunMarks(ozs: Registry, blockEOLs: set<nat>, b: Block)
    ensures Run(ozs, blockEOLs, b) == Ok(if b.id in blockEOLs then ozs else Marked(ozs, b.statements))
  {
    if b.id !in blockEOLs {
      InspectBlock(Visit, ozs, b, ozs);
      FoldMarks(ozs, b.statements);
    }
  }

  /**
   * The reference definition replaces the last scan statement with each id
   * and leaves every other key as it was.
   */
  lemma {:induction false} MarkedEntries(ozs: Registry, stmts: seq<Statement>, k: nat)
    ensures (exists i :: 0 <= i < |stmts| && stmts[i].id == k && stmts[i].node.ScanStmt?) ==>
      k in Marked(ozs, stmts) && Marked(ozs, stmts)[k].SameLineOz? && Marked(ozs, stmts)[k].scan.id == k
    ensures (forall i :: 0 <= i < |stmts| ==> stmts[i].id != k || !stmts[i].node.ScanStmt?) ==>
      (k in Marked(ozs, stmts) <==> k in ozs) && (k in ozs ==> Marked(ozs, stmts)[k] == ozs[k])
    decreases |stmts|
  {
    if stmts != [] {
      var st := stmts[0];
      var o1 := if st.node.ScanStmt? then ozs[st.id := SameLineOz(ScanAt(st.id, st.node.scan))] else ozs;
      MarkedEntries(o1, stmts[1..], k);
      forall i | 0 <= i < |stmts[1..]|
        ensures stmts[1..][i] == stmts[i + 1]
      {
      }
      if exists i :: 0 <= i < |stmts| && stmts[i].id == k && stmts[i].node.ScanStmt? {
        var i :| 0 <= i < |stmts| && stmts[i].id == k && stmts[i].node.ScanStmt?;
        if !(exists j :: 0 <= j < |stmts[1..]| && stmts[1..][j].id == k && stmts[1..][j].node.ScanStmt?) {
          assert i == 0;
        } else {
          var j :| 0 <= j < |stmts[1..]| && stmts[1..][j].id == k && stmts[1..][j].node.ScanStmt?;
        }
      } else {
        assert forall i :: 0 <= i < |stmts[1..]| ==> stmts[1..][i].id != k || !stmts[1..][i].node.ScanStmt?;
      }
    }
  }

  /** In a block already marked as holding an eol, the recogniser does nothing. */
  lemma MarkedBlockUntouched(ozs: Registry, blockEOLs: set<nat>, b: Block)
    requires b.id in blockEOLs
    ensures Run(ozs, blockEOLs, b) == Ok(ozs)
  {
  }
}
