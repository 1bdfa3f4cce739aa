/**
 * The older array recogniser (gen/py3/scanarray.go): a loop over a block's
 * statements.  A one-name array `var`, then a loop `for i 0 N` over the
 * array's length whose body `analyzeBlockScanArraySfor` accepts, then an
 * `eol` are registered as one line reading the whole array.  Loop bodies not
 * taken by the pattern are handed on to `analyzeBlock`, which is not part of
 * this model.
 */
module ScanArray {
  import opened Wrappers
  import opened Errors
  import opened Ast
  import opened Optimization
  import opened ExprMatch
  import Writer
  import ArrayLine

  /** A registration whose loop had no element scan holds a nil scan, which `Generate` dereferences. */
  method Generate(cw: Writer.Writer, decl: DeclAt, scanned: Option<ScanAt>) returns (out: Outcome<()>)
    modifies cw
    ensures scanned.None? ==> out == Fail(Runtime(NilDeref)) && cw.State() == old(cw.State())
    ensures scanned.Some? ==> (out.Ok? <==> ArrayLine.Line(decl, scanned.value).Ok?)
    ensures scanned.Some? && out.Ok? ==> cw.State() == Writer.Ended(old(cw.State()), ArrayLine.Line(decl, scanned.value).value)
    ensures !out.Ok? ==> out == Fail(Runtime(NilDeref))
  {
    if scanned.None? {
      return Fail(Runtime(NilDeref));
    }
    out := ArrayLine.Generate(cw, decl, scanned.value);
  }

  // ---------------------------------------------------------------------------
  // The loop body

  /** What `analyzeBlockScanArraySfor` returns: `(nil, false)`, or `true` with the scan found, possibly nil. */
  datatype LoopScan = Rejected | Accepted(scan: Option<ScanAt>)

  /**
   * The loop over the body from a given state: `found` is the matched scan
   * (`sscan`), or none (`szero`).  A second scan after a match, or any
   * statement other than a scan or a check, rejects the loop; a scan that
   * does not read `name[index]` is passed over.
   */
  function SforFrom(found: Option<ScanAt>, stmts: seq<Statement>, name: string, index: string): LoopScan
    decreases |stmts|
  {
    if stmts == [] then Accepted(found)
    else match stmts[0].node
      case ScanStmt(sc) =>
        if found.None? then
          SforFrom(if ArrayLine.ScansElement(sc, name, index) then Some(ScanAt(stmts[0].id, sc)) else None, stmts[1..], name, index)
        else Rejected
      case CheckStmt(_) => SforFrom(found, stmts[1..], name, index)
      case _ => Rejected
  }

  /** `analyzeBlockScanArraySfor`, given the array's name and the loop's index variable. */
  method Sfor(body: Block, name: string, index: string) returns (r: LoopScan)
    ensures r == SforFrom(None, body.statements, name, index)
  {
    var found: Option<ScanAt> := None;
    var i := 0;
    while i < |body.statements|
      invariant 0 <= i <= |body.statements|
      invariant SforFrom(found, body.statements[i..], name, index) == SforFrom(None, body.statements, name, index)
    {
      var n := body.statements[i];
      assert body.statements[i..][1..] == body.statements[i + 1..];
      match n.node {
        case ScanStmt(sc) =>
          if found.None? {
            if ArrayLine.ScansElement(sc, name, index) {
              found := Some(ScanAt(n.id, sc));
            }
          } else {
            return Rejected;
          }
        case CheckStmt(_) =>
        case _ =>
          return Rejected;
      }
      i := i + 1;
    }
    return Accepted(found);
  }

  /**
   * An accepted body holds only scans and checks; the scan found reads
   * `name[index]` and is one of the body's statements; with no scan found, no
   * statement of the body reads `name[index]`.
   */
  lemma {:induction false} SforAccepts(found: Option<ScanAt>, stmts: seq<Statement>, name: string, index: string)
    requires found.Some? ==> ArrayLine.ScansElement(found.value.scan, name, index)
    ensures SforFrom(found, stmts, name, index).Accepted? ==>
      forall i :: 0 <= i < |stmts| ==> stmts[i].node.ScanStmt? || stmts[i].node.CheckStmt?
    ensures SforFrom(found, stmts, name, index) == Accepted(None) ==>
      found.None? && forall i :: 0 <= i < |stmts| && stmts[i].node.ScanStmt? ==> !ArrayLine.ScansElement(stmts[i].node.scan, name, index)
    ensures SforFrom(found, stmts, name, index).Accepted? && SforFrom(found, stmts, name, index).scan.Some? ==>
      var s := SforFrom(found, stmts, name, index).scan.value;
      ArrayLine.ScansElement(s.scan, name, index) &&
      (Some(s) == found || exists i :: 0 <= i < |stmts| && stmts[i].id == s.id && stmts[i].node == ScanStmt(s.scan))
    decreases |stmts|
  {
    if stmts != [] {
      var st := stmts[0];
      var next := if st.node.ScanStmt? && found.None? && ArrayLine.ScansElement(st.node.scan, name, index)
        then Some(ScanAt(st.id, st.node.scan)) else found;
      SforAccepts(next, stmts[1..], name, index);
      forall i | 0 <= i < |stmts[1..]|
        ensures stmts[1..][i] == stmts[i + 1]
      {
      }
      var r := SforFrom(found, stmts, name, index);
      if r.Accepted? && r.scan.Some? && r.scan != found && r.scan != next {
        var i :| 0 <= i < |stmts[1..]| && stmts[1..][i].id == r.scan.value.id && stmts[1..][i].node == ScanStmt(r.scan.value.scan);
        assert stmts[i + 1].id == r.scan.value.id;
      }
    }
  }

  /**
   * A scan of another variable before the element scan is passed over: the
   * body is accepted with the element scan alone, so the replacement line
   * does not read the other variable.
   */
  lemma OtherScanDropped(s1: Statement, s2: Statement, name: string, index: string)
    requires s1.node.ScanStmt? && !ArrayLine.ScansElement(s1.node.scan, name, index)
    requires s2.node.ScanStmt? && ArrayLine.ScansElement(s2.node.scan, name, index)
    ensures SforFrom(None, [s1, s2], name, index) == Accepted(Some(ScanAt(s2.id, s2.node.scan)))
  {
    assert [s1, s2][1..] == [s2];
    assert [s2][1..] == [];
    assert SforFrom(Some(ScanAt(s2.id, s2.node.scan)), [], name, index) == Accepted(Some(ScanAt(s2.id, s2.node.scan)));
    assert SforFrom(None, [s2], name, index) == Accepted(Some(ScanAt(s2.id, s2.node.scan)));
  }

  /** A body of checks alone is accepted with no scan. */
  lemma {:induction false} ChecksOnlyAccepted(cs: seq<Statement>, name: string, index: string)
    requires forall i :: 0 <= i < |cs| ==> cs[i].node.CheckStmt?
    ensures SforFrom(None, cs, name, index) == Accepted(None)
    decreases |cs|
  {
    if cs != [] {
      ChecksOnlyAccepted(cs[1..], name, index);
    }
  }

  // ---------------------------------------------------------------------------
  // The block

  /** `szero`, `svar` with the matched var, `sfor` with the loop and its scan, and `seol`. */
  datatype Phase =
    | Zero
    | Declared(decl: DeclAt, name: string, length: Expr)
    | Looped(decl: DeclAt, forId: nat, scanned: Option<ScanAt>)
    | Registered

  datatype Acc = Acc(phase: Phase, ozs: Registry, nested: seq<Block>)

  /** One iteration of the loop; a scan-header loop after a matched var dereferences its nil range. */
  function Step(a: Acc, st: Statement): Outcome<Acc>
  {
    match st.node
    case VarDecl(spec) =>
      if a.phase.Zero? then
        (if ArrayLine.ArrayDecl(spec) then Ok(a.(phase := Declared(DeclAt(st.id, spec), spec.identList[0], spec.typ.arrayLength))) else Ok(a))
      else Ok(a.(phase := Zero))
    case CheckStmt(_) => Ok(a)
    case ForStmt(h, body) =>
      if a.phase.Declared? && !h.Range? then Fail(Runtime(NilDeref))
      else if a.phase.Declared? && ArrayLine.CoversArray(a.phase.length, h.clause) then
        (match SforFrom(None, body.statements, a.phase.name, h.clause.index)
         case Accepted(sc) => Ok(a.(phase := Looped(a.phase.decl, st.id, sc)))
         case Rejected => Ok(a.(phase := Zero)))
      else Ok(a.(phase := Zero, nested := a.nested + [body]))
    case EOLStmt(_) =>
      if a.phase.Looped? then
        Ok(Acc(Registered, a.ozs[a.phase.forId := ScanArrayOz(a.phase.decl, a.phase.forId, a.phase.scanned, st.id)][a.phase.decl.id := Noop][st.id := Noop], a.nested))
      else Ok(a.(phase := Zero))
    case _ => Ok(a.(phase := Zero))
  }

  function Fold(a: Acc, stmts: seq<Statement>): Outcome<Acc>
    decreases |stmts|
  {
    if stmts == [] then Ok(a)
    else match Fold(a, stmts[..|stmts| - 1])
      case Ok(b) => Step(b, stmts[|stmts| - 1])
      case Fail(e) => Fail(e)
      case Crash(m) => Crash(m)
  }

  /** `analyzeBlockScanArray`: the registry and the loop bodies handed on, or the panic. */
  method AnalyzeBlock(ozs: Registry, b: Block) returns (out: Outcome<Registry>, nested: seq<Block>)
    ensures out.Ok? <==> Fold(Acc(Zero, ozs, []), b.statements).Ok?
    ensures out.Ok? ==> out.value == Fold(Acc(Zero, ozs, []), b.statements).value.ozs &&
                        nested == Fold(Acc(Zero, ozs, []), b.statements).value.nested
    ensures !out.Ok? ==> out == Fail(Runtime(NilDeref))
  {
    var state := Zero;
    var reg: Registry := ozs;
    nested := [];
    var i := 0;
    while i < |b.statements|
      invariant 0 <= i <= |b.statements|
      invariant Fold(Acc(Zero, ozs, []), b.statements[..i]) == Ok(Acc(state, reg, nested))
    {
      var n := b.statements[i];
      assert b.statements[..i + 1][..i] == b.statements[..i];
      match n.node {
        case VarDecl(spec) =>
          if state.Zero? {
            if ArrayLine.ArrayDecl(spec) {
              state := Declared(DeclAt(n.id, spec), spec.identList[0], spec.typ.arrayLength);
            }
          } else {
            state := Zero;
          }
        case CheckStmt(_) =>
        case ForStmt(h, body) =>
          if state.Declared? && !h.Range? {
            FailurePersists(Acc(Zero, ozs, []), b.statements, i + 1);
            return Fail(Runtime(NilDeref)), nested;
          }
          if state.Declared? && ArrayLine.CoversArray(state.length, h.clause) {
            var r := Sfor(body, state.name, h.clause.index);
            if r.Accepted? {
              state := Looped(state.decl, n.id, r.scan);
            } else {
              state := Zero;
            }
          } else {
            state := Zero;
            nested := nested + [body];
          }
        case EOLStmt(_) =>
          if state.Looped? {
            reg := reg[state.forId := ScanArrayOz(state.decl, state.forId, state.scanned, n.id)][state.decl.id := Noop][n.id := Noop];
            state := Registered;
          } else {
            state := Zero;
          }
        case _ =>
          state := Zero;
      }
      i := i + 1;
    }
    assert b.statements[..i] == b.statements;
    return Ok(reg), nested;
  }

  /** Once the loop has panicked, the statements after it are not reached. */
  lemma {:induction false} FailurePersists(a: Acc, stmts: seq<Statement>, k: nat)
    requires k <= |stmts| && Fold(a, stmts[..k]) == Fail(Runtime(NilDeref))
    ensures Fold(a, stmts) == Fail(Runtime(NilDeref))
    decreases |stmts| - k
  {
    if k < |stmts| {
      assert stmts[..k + 1][..k] == stmts[..k];
      FailurePersists(a, stmts, k + 1);
    } else {
      assert stmts[..k] == stmts;
    }
  }

  lemma {:induction false} FoldAppend(a: Acc, s: seq<Statement>, t: seq<Statement>)
    ensures Fold(a, s + t) ==
      match Fold(a, s)
      case Ok(b) => Fold(b, t)
      case Fail(e) => Fail(e)
      case Crash(m) => Crash(m)
    decreases |t|
  {
    if t == [] {
      assert s + t == s;
    } else {
      assert (s + t)[..|s + t| - 1] == s + t[..|t| - 1];
      FoldAppend(a, s, t[..|t| - 1]);
    }
  }

  lemma {:induction false} ChecksSkipped(a: Acc, cs: seq<Statement>)
    requires forall i :: 0 <= i < |cs| ==> cs[i].node.CheckStmt?
    ensures Fold(a, cs) == Ok(a)
    decreases |cs|
  {
    if cs != [] {
      ChecksSkipped(a, cs[..|cs| - 1]);
    }
  }

  /** Every handed-on block is the body of one of the block's loops. */
  lemma {:induction false} NestedAreLoopBodies(a: Acc, stmts: seq<Statement>)
    requires Fold(a, stmts).Ok?
    ensures forall blk :: blk in Fold(a, stmts).value.nested ==>
      blk in a.nested || exists i :: 0 <= i < |stmts| && stmts[i].node.ForStmt? && stmts[i].node.body == blk
    decreases |stmts|
  {
    if stmts != [] {
      var pre := stmts[..|stmts| - 1];
      NestedAreLoopBodies(a, pre);
      forall blk | blk in Fold(a, stmts).value.nested
        ensures blk in a.nested || exists i :: 0 <= i < |stmts| && stmts[i].node.ForStmt? && stmts[i].node.body == blk
      {
        if blk in Fold(a, pre).value.nested {
          if blk !in a.nested {
            var i :| 0 <= i < |pre| && pre[i].node.ForStmt? && pre[i].node.body == blk;
            assert stmts[i] == pre[i];
          }
        } else {
          assert stmts[|stmts| - 1].node.ForStmt? && stmts[|stmts| - 1].node.body == blk;
        }
      }
    }
  }

  /**
   * Every scanArray replacement is keyed by its loop, for a one-name array
   * var; a scan it holds reads that array's element.
   */
  ghost predicate Wf(ozs: Registry)
  {
    forall k :: k in ozs && ozs[k].ScanArrayOz? ==>
      ozs[k].forId == k && ArrayLine.ArrayDecl(ozs[k].decl.spec) &&
      (ozs[k].scanned.Some? ==> ozs[k].scanned.value.scan.refList[0].ident == ozs[k].decl.spec.identList[0])
  }

  ghost predicate Inv(a: Acc)
  {
    Wf(a.ozs) &&
    (a.phase.Declared? ==> ArrayLine.ArrayDecl(a.phase.decl.spec) && a.phase.name == a.phase.decl.spec.identList[0]) &&
    (a.phase.Looped? ==>
      ArrayLine.ArrayDecl(a.phase.decl.spec) &&
      (a.phase.scanned.Some? ==> a.phase.scanned.value.scan.refList[0].ident == a.phase.decl.spec.identList[0]))
  }

  lemma StepKeeps(a: Acc, st: Statement)
    requires Inv(a) && Step(a, st).Ok?
    ensures Inv(Step(a, st).value)
  {
    var b := Step(a, st).value;
    if st.node.ForStmt? && a.phase.Declared? && st.node.header.Range? {
      SforAccepts(None, st.node.body.statements, a.phase.name, st.node.header.clause.index);
    }
    if b.ozs != a.ozs {
      forall k | k in b.ozs && b.ozs[k].ScanArrayOz?
        ensures b.ozs[k].forId == k && ArrayLine.ArrayDecl(b.ozs[k].decl.spec) &&
          (b.ozs[k].scanned.Some? ==> b.ozs[k].scanned.value.scan.refList[0].ident == b.ozs[k].decl.spec.identList[0])
      {
        if !(k in a.ozs && b.ozs[k] == a.ozs[k]) {
          assert b.ozs[k] == ScanArrayOz(a.phase.decl, a.phase.forId, a.phase.scanned, st.id);
        }
      }
    }
  }

  /** The loop registers only well-formed replacements. */
  lemma {:induction false} FoldKeepsWf(a: Acc, stmts: seq<Statement>)
    requires Inv(a)
    ensures Fold(a, stmts).Ok? ==> Inv(Fold(a, stmts).value)
    decreases |stmts|
  {
    if stmts != [] {
      FoldKeepsWf(a, stmts[..|stmts| - 1]);
      if Fold(a, stmts[..|stmts| - 1]).Ok? && Step(Fold(a, stmts[..|stmts| - 1]).value, stmts[|stmts| - 1]).Ok? {
        StepKeeps(Fold(a, stmts[..|stmts| - 1]).value, stmts[|stmts| - 1]);
      }
    }
  }

  /**
   * An array var, checks, a covering loop whose body is accepted, checks and
   * an eol: the loop is replaced, with the scan the body yielded, and the var
   * and the eol dropped.
   */
  lemma {:induction false} Fires(ozs: Registry, d: Statement, cs1: seq<Statement>, f: Statement, cs2: seq<Statement>, e: Statement, found: Option<ScanAt>)
    requires d.node.VarDecl? && ArrayLine.ArrayDecl(d.node.spec)
    requires f.node.ForStmt? && f.node.header.Range? && ArrayLine.CoversArray(d.node.spec.typ.arrayLength, f.node.header.clause)
    requires SforFrom(None, f.node.body.statements, d.node.spec.identList[0], f.node.header.clause.index) == Accepted(found)
    requires e.node.EOLStmt?
    requires forall i :: 0 <= i < |cs1| ==> cs1[i].node.CheckStmt?
    requires forall i :: 0 <= i < |cs2| ==> cs2[i].node.CheckStmt?
    ensures Fold(Acc(Zero, ozs, []), [d] + cs1 + [f] + cs2 + [e]) ==
      Ok(Acc(Registered, ozs[f.id := ScanArrayOz(DeclAt(d.id, d.node.spec), f.id, found, e.id)][d.id := Noop][e.id := Noop], []))
  {
    var a0 := Acc(Zero, ozs, []);
    var dd := DeclAt(d.id, d.node.spec);
    var a1 := Acc(Declared(dd, d.node.spec.identList[0], d.node.spec.typ.arrayLength), ozs, []);
    var a2 := Acc(Looped(dd, f.id, found), ozs, []);
    assert Fold(a0, [d]) == Ok(a1) by {
      assert [d][..0] == [];
    }
    ChecksSkipped(a1, cs1);
    FoldAppend(a0, [d], cs1);
    assert ([d] + cs1 + [f])[..|[d] + cs1 + [f]| - 1] == [d] + cs1;
    assert Fold(a0, [d] + cs1 + [f]) == Ok(a2);
    ChecksSkipped(a2, cs2);
    FoldAppend(a0, [d] + cs1 + [f], cs2);
    assert ([d] + cs1 + [f] + cs2 + [e])[..|[d] + cs1 + [f] + cs2 + [e]| - 1] == [d] + cs1 + [f] + cs2;
  }

  /**
   * A covering loop whose body holds only checks is registered with no scan,
   * and generating it then dereferences the nil scan.
   */
  lemma NilScanRegistered(ozs: Registry, d: Statement, f: Statement, e: Statement)
    requires d.node.VarDecl? && ArrayLine.ArrayDecl(d.node.spec)
    requires f.node.ForStmt? && f.node.header.Range? && ArrayLine.CoversArray(d.node.spec.typ.arrayLength, f.node.header.clause)
    requires forall i :: 0 <= i < |f.node.body.statements| ==> f.node.body.statements[i].node.CheckStmt?
    requires e.node.EOLStmt?
    ensures Fold(Acc(Zero, ozs, []), [d, f, e]) ==
      Ok(Acc(Registered, ozs[f.id := ScanArrayOz(DeclAt(d.id, d.node.spec), f.id, None, e.id)][d.id := Noop][e.id := Noop], []))
  {
    ChecksOnlyAccepted(f.node.body.statements, d.node.spec.identList[0], f.node.header.clause.index);
    Fires(ozs, d, [], f, [], e, None);
    assert [d] + [] + [f] + [] + [e] == [d, f, e];
  }

  /** After a matched array var, a loop with a scan header makes the recogniser panic. */
  lemma ScanHeaderPanics(ozs: Registry, d: Statement, f: Statement)
    requires d.node.VarDecl? && ArrayLine.ArrayDecl(d.node.spec)
    requires f.node.ForStmt? && !f.node.header.Range?
    ensures Fold(Acc(Zero, ozs, []), [d, f]) == Fail(Runtime(NilDeref))
  {
    var a0 := Acc(Zero, ozs, []);
    var a1 := Acc(Declared(DeclAt(d.id, d.node.spec), d.node.spec.identList[0], d.node.spec.typ.arrayLength), ozs, []);
    assert [d, f][..1] == [d] && [d][..0] == [];
    assert Fold(a0, [d]) == Ok(a1);
    assert Step(a1, f) == Fail(Runtime(NilDeref));
  }
}
