/**
 * The Python 3 generator (gen/py3/py3.go).  `Generate` analyses the source,
 * then walks it: statements a recogniser registered print their replacement,
 * the others print their generic translation, and if a generic scan was
 * emitted the program starts with `_ = None`, the line buffer the generic
 * scans share.  The generator is a class over the writer and the `types` and
 * `linevar` fields of the Go context; each method is proved against the
 * function of the same statement below, which is the specification.
 * `Generate` is py3.go as written; `GenerateCorrected` looks branch blocks
 * up with the corrected `findBlockEOLs`, fills arrays with the element type's
 * own zero literal, and closes an empty loop body with `pass`.
 *
 * Every failure here is a panic (a nil dereference, an unreachable node, a
 * call expression in `genExpr`): the errors the Go emitters return are all
 * nil, so `Visit` dropping them loses nothing.
 */
module Py3 {
  import opened Wrappers
  import opened Errors
  import opened Ast
  import opened Optimization
  import Walk
  import Writer
  import Py3Types
  import Py3Expr
  import MultiVar
  import OnlyToken
  import ArrayLine
  import SameLine
  import ScanArray
  import ScanSame
  import ScanOne
  import Analyze

  /** The generator's state as a value: the recorded Python types, `linevar` and the writer. */
  datatype Gen = Gen(types: map<string, string>, linevar: bool, w: Writer.Out)

  /** The state of a fresh generator. */
  function Start(): Gen
  {
    Gen(map[], false, Writer.Out("", "\t", 0, 0, 0))
  }

  // ---------------------------------------------------------------------------
  // The zero literal of array elements

  /** `ASTZero[t]` as written: t is already the Python type, so the lookup uses the wrong key. */
  function ArrayZeroAsWritten(elem: string): string
  {
    Py3Types.Lookup(Py3Types.ASTZero, Py3Types.Lookup(Py3Types.ASTType, elem))
  }

  /** The element's zero literal, looked up by its scanspec type name as the table is keyed. */
  function ArrayZero(elem: string): string
  {
    Py3Types.Lookup(Py3Types.ASTZero, elem)
  }

  /** As written, a float array is filled from `[]`: `x = [] * n` is the empty list whatever n is. */
  lemma FloatArrayZeroLost()
    ensures ArrayZeroAsWritten("float32") == "" && ArrayZeroAsWritten("float64") == ""
    ensures ArrayZero("float32") == "0.0" && ArrayZero("float64") == "0.0"
  {
  }

  /** The zero literal an array declaration fills its elements with, as written or corrected. */
  function ElementZero(corrected: bool, elem: string): string
  {
    if corrected then ArrayZero(elem) else ArrayZeroAsWritten(elem)
  }

  /** The corrected lookup gives every scalar element type its own non-empty zero literal. */
  lemma ArrayZeroDefined(elem: string)
    requires elem in Py3Types.ASTType
    ensures ArrayZero(elem) == Py3Types.ASTZero[elem] && ArrayZero(elem) != ""
  {
  }

  // ---------------------------------------------------------------------------
  // The specification

  /** Ending the line with the text an emitter computed, or its panic. */
  function EndLine(g: Gen, l: Outcome<string>): (r: Outcome<Gen>)
    ensures Py3Expr.Status(r) == Py3Expr.Status(l)
  {
    match l
    case Ok(s) => Ok(g.(w := Writer.Ended(g.w, s)))
    case Fail(e) => Fail(e)
    case Crash(m) => Crash(m)
  }

  /** `oz.Generate(g.ctx)` for each kind of registered replacement. */
  function OzGen(oz: Optimization, v: Py3Expr.Verbs, g: Gen): Outcome<Gen>
  {
    match oz
    case Noop => Ok(g)
    case MultiVarOz(d, sc, _) => EndLine(g, MultiVar.Line(d, sc))
    case OnlyTokenOz(sc, _) => EndLine(g, OnlyToken.Line(v, g.types, sc))
    case ArrayLineOz(d, _, sc, _) => EndLine(g, ArrayLine.Line(d, sc))
    case SameLineOz(sc) =>
      (match SameLine.Emit(g.w, v, g.types, sc.scan.refList)
       case Ok(w) => Ok(g.(w := w))
       case Fail(e) => Fail(e)
       case Crash(m) => Crash(m))
    case ScanArrayOz(d, _, scanned, _) =>
      if scanned.None? then Fail(Runtime(NilDeref)) else EndLine(g, ArrayLine.Line(d, scanned.value))
    case ScanSameOz(d, sc, _) => EndLine(g, MultiVar.Line(d, sc))
    case ScanOneOz(sc, _) => EndLine(g, OnlyToken.Line(v, g.types, sc))
  }

  /** The types recorded for names declared with one type, the last name written last. */
  function Declare(types: map<string, string>, names: seq<string>, t: string): (r: map<string, string>)
    decreases |names|
  {
    if names == [] then types else Declare(types, names[..|names| - 1], t)[names[|names| - 1] := t]
  }

  /** Each declared name gets the type; every other entry is kept. */
  lemma {:induction false} DeclareRecords(types: map<string, string>, names: seq<string>, t: string)
    ensures forall i :: 0 <= i < |names| ==> names[i] in Declare(types, names, t) && Declare(types, names, t)[names[i]] == t
    ensures forall k :: k !in names ==>
      && (k in Declare(types, names, t) <==> k in types)
      && (k in types ==> Declare(types, names, t)[k] == types[k])
    decreases |names|
  {
    if names != [] {
      var init := names[..|names| - 1];
      DeclareRecords(types, init, t);
      forall i | 0 <= i < |names| - 1
        ensures names[i] == init[i]
      {
      }
    }
  }

  /**
   * The names of an array declaration, from the first: each is recorded as
   * an array of t, and then either the registered replacement is generated
   * (and the other names are not reached) or `x = [zero] * length` is printed.
   */
  function OnArrayNames(ozs: Registry, v: Py3Expr.Verbs, g: Gen, id: nat, names: seq<string>, t: string, zero: string, length: Expr): Outcome<Gen>
    decreases |names|
  {
    if names == [] then Ok(g)
    else
      var x := names[0];
      var g1 := g.(types := g.types[x := "array"][x + "[]" := t]);
      if id in ozs then OzGen(ozs[id], v, g1)
      else match Py3Expr.ExprText(v, length)
        case Ok(e) => OnArrayNames(ozs, v, g1.(w := Writer.Ended(g1.w, x + " = [" + zero + "] * " + e)), id, names[1..], t, zero, length)
        case Fail(err) => Fail(err)
        case Crash(m) => Crash(m)
  }

  /**
   * `varDecl`: scalars only record their type; arrays are created here unless
   * registered, filled with the zero literal `ElementZero` gives.  Here and in
   * the functions below, `corrected` chooses between py3.go as written and the
   * generator with the corrections listed in the findings.
   */
  function OnVarDecl(corrected: bool, ozs: Registry, v: Py3Expr.Verbs, g: Gen, id: nat, spec: VarSpec): Outcome<Gen>
  {
    match spec.typ
    case TypeName(name) => Ok(g.(types := Declare(g.types, spec.identList, Py3Types.Lookup(Py3Types.ASTType, name))))
    case TypeLit(length, elem) =>
      if !elem.TypeName? then Fail(Runtime(NilDeref))
      else OnArrayNames(ozs, v, g, id, spec.identList, Py3Types.Lookup(Py3Types.ASTType, elem.name), ElementZero(corrected, elem.name), length)
  }

  /** The line a generic scan starts with: refill the shared buffer when it is empty. */
  const Refill := "if _ == None: _ = input().split()"

  /** `scanStmt`: the replacement if registered; otherwise refill the buffer and pop one value per target. */
  function OnScan(ozs: Registry, v: Py3Expr.Verbs, g: Gen, id: nat, sc: ScanStmt): Outcome<Gen>
  {
    if id in ozs then OzGen(ozs[id], v, g)
    else
      var g1 := g.(linevar := true, w := Writer.Ended(g.w, Refill));
      match SameLine.Emit(g1.w, v, g1.types, sc.refList)
      case Ok(w) => Ok(g1.(w := w))
      case Fail(e) => Fail(e)
      case Crash(m) => Crash(m)
  }

  /** `eolStmt`: the replacement if registered, otherwise empty the buffer. */
  function OnEol(ozs: Registry, v: Py3Expr.Verbs, g: Gen, id: nat): Outcome<Gen>
  {
    if id in ozs then OzGen(ozs[id], v, g) else Ok(g.(w := Writer.Ended(g.w, "_ = None")))
  }

  /** The header line of the i-th branch of an if statement. */
  function BranchHeader(v: Py3Expr.Verbs, br: IfBranch, i: nat): Outcome<string>
  {
    if br.condition.Some? then
      Py3Expr.Cat(Py3Expr.Cat(Ok(if i == 0 then "if " else "elif "), Py3Expr.ExprText(v, br.condition.value)), Ok(":"))
    else Ok("else:")
  }

  /** The header line of a range loop. */
  function ForHeader(v: Py3Expr.Verbs, c: RangeClause): Outcome<string>
  {
    Py3Expr.Cat(Py3Expr.Cat(Py3Expr.Cat(Py3Expr.Cat(Ok("for " + c.index + " in range("),
      Py3Expr.ExprText(v, c.low)), Ok(", ")), Py3Expr.ExprText(v, c.high)), Ok("):"))
  }

  /**
   * An indented suite: the block one level deeper and, when `pass` is set,
   * the line `pass` if the block printed nothing, so that the suite is never
   * empty.  `ifStmt` always adds it; `forStmt` as written does not.
   */
  function Suite(corrected: bool, ozs: Registry, v: Py3Expr.Verbs, g: Gen, b: Block, pass: bool): Outcome<Gen>
    decreases b, 3
  {
    var g1 := g.(w := g.w.(d := g.w.d + 1));
    match OnBlock(corrected, ozs, v, g1, b)
    case Ok(g2) =>
      var g3 := if pass && |g2.w.buf| == |g1.w.buf| then g2.(w := Writer.Ended(g2.w, "pass")) else g2;
      Ok(g3.(w := g3.w.(d := g3.w.d - 1)))
    case Fail(e) => Fail(e)
    case Crash(m) => Crash(m)
  }

  /** One branch of `ifStmt`: its header and its suite. */
  function OnBranch(corrected: bool, ozs: Registry, v: Py3Expr.Verbs, g: Gen, br: IfBranch, i: nat): Outcome<Gen>
    decreases br, 4
  {
    match BranchHeader(v, br, i)
    case Ok(h) => Suite(corrected, ozs, v, g.(w := Writer.Ended(g.w, h)), br.block, true)
    case Fail(e) => Fail(e)
    case Crash(m) => Crash(m)
  }

  /** `ifStmt`: the branches from the k-th on. */
  function OnBranches(corrected: bool, ozs: Registry, v: Py3Expr.Verbs, g: Gen, branches: seq<IfBranch>, k: nat): Outcome<Gen>
    requires k <= |branches|
    decreases IfStmt(branches), 2, |branches| - k
  {
    if k == |branches| then Ok(g)
    else match OnBranch(corrected, ozs, v, g, branches[k], k)
      case Ok(g1) => OnBranches(corrected, ozs, v, g1, branches, k + 1)
      case Fail(e) => Fail(e)
      case Crash(m) => Crash(m)
  }

  /**
   * `forStmt`: the replacement if registered; a nil dereference for a loop
   * with a scan header; otherwise the header and the body's suite, which
   * gets its `pass` only in the corrected generator.
   */
  function OnFor(corrected: bool, ozs: Registry, v: Py3Expr.Verbs, g: Gen, id: nat, h: Ast.ForHeader, body: Block): Outcome<Gen>
    decreases ForStmt(h, body), 2
  {
    if id in ozs then OzGen(ozs[id], v, g)
    else if !h.Range? then Fail(Runtime(NilDeref))
    else match ForHeader(v, h.clause)
      case Ok(line) => Suite(corrected, ozs, v, g.(w := Writer.Ended(g.w, line)), body, corrected)
      case Fail(e) => Fail(e)
      case Crash(m) => Crash(m)
  }

  /** `Visit` on a statement's one alternative. */
  function OnStatement(corrected: bool, ozs: Registry, v: Py3Expr.Verbs, g: Gen, id: nat, n: StmtNode): Outcome<Gen>
    decreases n, 3
  {
    match n
    case VarDecl(spec) => OnVarDecl(corrected, ozs, v, g, id, spec)
    case ScanStmt(sc) => OnScan(ozs, v, g, id, sc)
    case ScanlnStmt(_) => Fail(Walk.Unreachable("*ast.ScanlnStmt"))
    case CheckStmt(_) => Ok(g)
    case IfStmt(branches) => OnBranches(corrected, ozs, v, g, branches, 0)
    case ForStmt(h, body) => OnFor(corrected, ozs, v, g, id, h, body)
    case EOLStmt(_) => OnEol(ozs, v, g, id)
    case EOFStmt(_) => Ok(g)
  }

  /** The statements of a block from the k-th on. */
  function OnStatements(corrected: bool, ozs: Registry, v: Py3Expr.Verbs, g: Gen, b: Block, k: nat): Outcome<Gen>
    requires k <= |b.statements|
    decreases b, 1, |b.statements| - k
  {
    if k == |b.statements| then Ok(g)
    else match OnStatement(corrected, ozs, v, g, b.statements[k].id, b.statements[k].node)
      case Ok(g1) => OnStatements(corrected, ozs, v, g1, b, k + 1)
      case Fail(e) => Fail(e)
      case Crash(m) => Crash(m)
  }

  /** `ast.Walk(g, b)` on a block. */
  function OnBlock(corrected: bool, ozs: Registry, v: Py3Expr.Verbs, g: Gen, b: Block): Outcome<Gen>
    decreases b, 2
  {
    OnStatements(corrected, ozs, v, g, b, 0)
  }

  /** `analyze`: as written, or with the corrected `findBlockEOLs`. */
  function Analysis(corrected: bool, src: Source): Outcome<Analyze.Analysis>
  {
    if corrected then Analyze.Analyze(src) else Analyze.AnalyzeAsWritten(src)
  }

  /** The program `Generate` (`corrected` false) or `GenerateCorrected` returns. */
  function Program(corrected: bool, v: Py3Expr.Verbs, src: Source): Outcome<string>
  {
    match Analysis(corrected, src)
    case Ok(a) =>
      (match OnBlock(corrected, a.ozs, v, Start(), src.block)
       case Ok(g) => Ok((if g.linevar then "_ = None\n" else "") + g.w.buf)
       case Fail(e) => Fail(e)
       case Crash(m) => Crash(m))
    case Fail(e) => Fail(e)
    case Crash(m) => Crash(m)
  }

  // ---------------------------------------------------------------------------
  // Properties of the generated code

  /** The writer is at the start of a line: column 0, after a newline or at the very beginning. */
  ghost predicate AtLineStart(w: Writer.Out)
  {
    w.c == 0 && (w.buf == "" || w.buf[|w.buf| - 1] == '\n')
  }

  /** t occurs in s at position i. */
  predicate OccursAt(s: string, t: string, i: int)
  {
    0 <= i && i + |t| <= |s| && s[i..i + |t|] == t
  }

  /** t occurs in s. */
  ghost predicate Contains(s: string, t: string)
  {
    exists i :: OccursAt(s, t, i)
  }

  lemma ContainsGrows(s: string, s': string, t: string)
    requires Contains(s, t) && s <= s'
    ensures Contains(s', t)
  {
    var i :| OccursAt(s, t, i);
    assert s'[i..i + |t|] == s[i..i + |t|];
    assert OccursAt(s', t, i);
  }

  /**
   * What every emitter keeps: the depth it started at, the indent string,
   * everything printed before, the start of a line, and a `linevar` already
   * set; `linevar` becomes set only together with a refill line.
   */
  ghost predicate Keeps(g: Gen, r: Outcome<Gen>)
  {
    r.Ok? ==>
      && r.value.w.d == g.w.d && r.value.w.indent == g.w.indent && g.w.buf <= r.value.w.buf
      && (AtLineStart(g.w) ==> AtLineStart(r.value.w))
      && (g.linevar ==> r.value.linevar)
      && (r.value.linevar ==> g.linevar || Contains(r.value.w.buf, Refill))
  }

  lemma KeepsTrans(g: Gen, g1: Gen, r: Outcome<Gen>)
    requires Keeps(g, Ok(g1)) && Keeps(g1, r)
    ensures Keeps(g, r)
  {
    if r.Ok? && r.value.linevar && !g.linevar && g1.linevar {
      ContainsGrows(g1.w.buf, r.value.w.buf, Refill);
    }
  }

  lemma EndedKeeps(g: Gen, s: string)
    ensures Keeps(g, Ok(g.(w := Writer.Ended(g.w, s))))
    ensures AtLineStart(Writer.Ended(g.w, s)) && |g.w.buf| < |Writer.Ended(g.w, s).buf|
  {
    Writer.AppendOnly(g.w, s);
  }

  lemma EndLineKeeps(g: Gen, l: Outcome<string>)
    ensures Keeps(g, EndLine(g, l))
  {
    if l.Ok? {
      EndedKeeps(g, l.value);
    }
  }

  lemma OzKeeps(oz: Optimization, v: Py3Expr.Verbs, g: Gen)
    ensures Keeps(g, OzGen(oz, v, g))
  {
    match oz
    case Noop =>
    case MultiVarOz(d, sc, _) => EndLineKeeps(g, MultiVar.Line(d, sc));
    case OnlyTokenOz(sc, _) => EndLineKeeps(g, OnlyToken.Line(v, g.types, sc));
    case ArrayLineOz(d, _, sc, _) => EndLineKeeps(g, ArrayLine.Line(d, sc));
    case SameLineOz(sc) => SameLine.EmitLines(g.w, v, g.types, sc.scan.refList);
    case ScanArrayOz(d, _, scanned, _) =>
      if scanned.Some? {
        EndLineKeeps(g, ArrayLine.Line(d, scanned.value));
      }
    case ScanSameOz(d, sc, _) => EndLineKeeps(g, MultiVar.Line(d, sc));
    case ScanOneOz(sc, _) => EndLineKeeps(g, OnlyToken.Line(v, g.types, sc));
  }

  lemma {:induction false} ArrayNamesKeep(ozs: Registry, v: Py3Expr.Verbs, g: Gen, id: nat, names: seq<string>, t: string, zero: string, length: Expr)
    ensures Keeps(g, OnArrayNames(ozs, v, g, id, names, t, zero, length))
    decreases |names|
  {
    if names != [] {
      var x := names[0];
      var g1 := g.(types := g.types[x := "array"][x + "[]" := t]);
      if id in ozs {
        OzKeeps(ozs[id], v, g1);
      } else {
        var e := Py3Expr.ExprText(v, length);
        if e.Ok? {
          var s := x + " = [" + zero + "] * " + e.value;
          EndedKeeps(g1, s);
          ArrayNamesKeep(ozs, v, g1.(w := Writer.Ended(g1.w, s)), id, names[1..], t, zero, length);
        }
      }
    }
  }

  lemma VarDeclKeeps(corrected: bool, ozs: Registry, v: Py3Expr.Verbs, g: Gen, id: nat, spec: VarSpec)
    ensures Keeps(g, OnVarDecl(corrected, ozs, v, g, id, spec))
  {
    if spec.typ.TypeLit? && spec.typ.elementType.TypeName? {
      var elem := spec.typ.elementType.name;
      ArrayNamesKeep(ozs, v, g, id, spec.identList, Py3Types.Lookup(Py3Types.ASTType, elem), ElementZero(corrected, elem), spec.typ.arrayLength);
    }
  }

  lemma ScanKeeps(ozs: Registry, v: Py3Expr.Verbs, g: Gen, id: nat, sc: ScanStmt)
    ensures Keeps(g, OnScan(ozs, v, g, id, sc))
  {
    if id in ozs {
      OzKeeps(ozs[id], v, g);
    } else {
      var g1 := g.(linevar := true, w := Writer.Ended(g.w, Refill));
      RefillKeeps(g);
      var e := SameLine.Emit(g1.w, v, g1.types, sc.refList);
      if e.Ok? {
        EmitKeeps(g1, v, sc.refList);
        KeepsTrans(g, g1, Ok(g1.(w := e.value)));
      }
    }
  }

  /** The refill line sets `linevar` and is itself the evidence for it. */
  lemma RefillKeeps(g: Gen)
    ensures Keeps(g, Ok(g.(linevar := true, w := Writer.Ended(g.w, Refill))))
  {
    var g1 := g.(linevar := true, w := Writer.Ended(g.w, Refill));
    EndedKeeps(g, Refill);
    var i := |g.w.buf| + |Writer.Pending(g.w)|;
    assert g1.w.buf[i..i + |Refill|] == Refill;
    assert OccursAt(g1.w.buf, Refill, i);
  }

  /** The target lines of a generic scan keep the generator's invariants. */
  lemma EmitKeeps(g: Gen, v: Py3Expr.Verbs, refs: seq<Reference>)
    requires SameLine.Emit(g.w, v, g.types, refs).Ok?
    ensures Keeps(g, Ok(g.(w := SameLine.Emit(g.w, v, g.types, refs).value)))
  {
    SameLine.EmitLines(g.w, v, g.types, refs);
    if refs == [] {
      assert SameLine.Emit(g.w, v, g.types, refs).value == g.w;
    }
  }

  lemma EolKeeps(ozs: Registry, v: Py3Expr.Verbs, g: Gen, id: nat)
    ensures Keeps(g, OnEol(ozs, v, g, id))
  {
    if id in ozs {
      OzKeeps(ozs[id], v, g);
    } else {
      EndedKeeps(g, "_ = None");
    }
  }

  lemma StatementKeeps(corrected: bool, ozs: Registry, v: Py3Expr.Verbs, g: Gen, id: nat, n: StmtNode)
    ensures Keeps(g, OnStatement(corrected, ozs, v, g, id, n))
    decreases n, 3
  {
    match n
    case VarDecl(spec) => VarDeclKeeps(corrected, ozs, v, g, id, spec);
    case ScanStmt(sc) => ScanKeeps(ozs, v, g, id, sc);
    case ScanlnStmt(_) =>
    case CheckStmt(_) =>
    case IfStmt(branches) => BranchesKeep(corrected, ozs, v, g, branches, 0);
    case ForStmt(h, body) => ForKeeps(corrected, ozs, v, g, id, h, body);
    case EOLStmt(_) => EolKeeps(ozs, v, g, id);
    case EOFStmt(_) =>
  }

  lemma StatementsKeep(corrected: bool, ozs: Registry, v: Py3Expr.Verbs, g: Gen, b: Block, k: nat)
    requires k <= |b.statements|
    ensures Keeps(g, OnStatements(corrected, ozs, v, g, b, k))
    decreases b, 1, |b.statements| - k
  {
    if k < |b.statements| {
      var st := b.statements[k];
      StatementKeeps(corrected, ozs, v, g, st.id, st.node);
      var r := OnStatement(corrected, ozs, v, g, st.id, st.node);
      if r.Ok? {
        StatementsKeep(corrected, ozs, v, r.value, b, k + 1);
        KeepsTrans(g, r.value, OnStatements(corrected, ozs, v, r.value, b, k + 1));
      }
    }
  }

  lemma BlockKeeps(corrected: bool, ozs: Registry, v: Py3Expr.Verbs, g: Gen, b: Block)
    ensures Keeps(g, OnBlock(corrected, ozs, v, g, b))
    decreases b, 2
  {
    StatementsKeep(corrected, ozs, v, g, b, 0);
  }

  /**
   * A suite keeps what every emitter keeps, and one that adds `pass` is never
   * empty: it prints at least the `pass`.
   */
  lemma SuiteKeeps(corrected: bool, ozs: Registry, v: Py3Expr.Verbs, g: Gen, b: Block, pass: bool)
    ensures Keeps(g, Suite(corrected, ozs, v, g, b, pass))
    ensures pass && Suite(corrected, ozs, v, g, b, pass).Ok? ==> |g.w.buf| < |Suite(corrected, ozs, v, g, b, pass).value.w.buf|
    decreases b, 3
  {
    var g1 := g.(w := g.w.(d := g.w.d + 1));
    BlockKeeps(corrected, ozs, v, g1, b);
    var r := OnBlock(corrected, ozs, v, g1, b);
    if r.Ok? {
      DedentKeeps(g, r.value, pass);
    }
  }

  /** Closing a suite (with `pass` when it adds one and its body printed nothing) keeps the invariants. */
  lemma DedentKeeps(g: Gen, g2: Gen, pass: bool)
    requires Keeps(g.(w := g.w.(d := g.w.d + 1)), Ok(g2))
    ensures var g3 := if pass && |g2.w.buf| == |g.w.buf| then g2.(w := Writer.Ended(g2.w, "pass")) else g2;
            Keeps(g, Ok(g3.(w := g3.w.(d := g3.w.d - 1)))) && (pass ==> |g.w.buf| < |g3.w.buf|)
  {
    if pass && |g2.w.buf| == |g.w.buf| {
      EndedKeeps(g2, "pass");
      if g2.linevar && !g.linevar {
        ContainsGrows(g2.w.buf, Writer.Ended(g2.w, "pass").buf, Refill);
      }
    }
  }

  lemma BranchKeeps(corrected: bool, ozs: Registry, v: Py3Expr.Verbs, g: Gen, br: IfBranch, i: nat)
    ensures Keeps(g, OnBranch(corrected, ozs, v, g, br, i))
    decreases br, 4
  {
    var h := BranchHeader(v, br, i);
    if h.Ok? {
      EndedKeeps(g, h.value);
      SuiteKeeps(corrected, ozs, v, g.(w := Writer.Ended(g.w, h.value)), br.block, true);
    }
  }

  lemma BranchesKeep(corrected: bool, ozs: Registry, v: Py3Expr.Verbs, g: Gen, branches: seq<IfBranch>, k: nat)
    requires k <= |branches|
    ensures Keeps(g, OnBranches(corrected, ozs, v, g, branches, k))
    decreases IfStmt(branches), 2, |branches| - k
  {
    if k < |branches| {
      BranchKeeps(corrected, ozs, v, g, branches[k], k);
      var r := OnBranch(corrected, ozs, v, g, branches[k], k);
      if r.Ok? {
        BranchesKeep(corrected, ozs, v, r.value, branches, k + 1);
        KeepsTrans(g, r.value, OnBranches(corrected, ozs, v, r.value, branches, k + 1));
      }
    }
  }

  lemma ForKeeps(corrected: bool, ozs: Registry, v: Py3Expr.Verbs, g: Gen, id: nat, h: Ast.ForHeader, body: Block)
    ensures Keeps(g, OnFor(corrected, ozs, v, g, id, h, body))
    decreases ForStmt(h, body), 2
  {
    if id in ozs {
      OzKeeps(ozs[id], v, g);
    } else if h.Range? {
      var line := ForHeader(v, h.clause);
      if line.Ok? {
        EndedKeeps(g, line.value);
        SuiteKeeps(corrected, ozs, v, g.(w := Writer.Ended(g.w, line.value)), body, corrected);
      }
    }
  }

  /**
   * The program is whole lines: it is empty or ends with a newline, and the
   * indentation the loops and branches opened is closed again.
   */
  lemma ProgramWholeLines(corrected: bool, v: Py3Expr.Verbs, src: Source)
    ensures var p := Program(corrected, v, src);
            p.Ok? ==> p.value == "" || p.value[|p.value| - 1] == '\n'
  {
    var a := Analysis(corrected, src);
    if a.Ok? {
      BlockKeeps(corrected, a.value.ozs, v, Start(), src.block);
    }
  }

  /**
   * The program starts with `_ = None` only when the walk printed the refill
   * line of a generic scan: `linevar` is set by nothing else.
   */
  lemma LinevarOnlyForGenericScan(corrected: bool, v: Py3Expr.Verbs, src: Source)
    ensures var a := Analysis(corrected, src);
      a.Ok? && OnBlock(corrected, a.value.ozs, v, Start(), src.block).Ok? && OnBlock(corrected, a.value.ozs, v, Start(), src.block).value.linevar ==>
      Contains(OnBlock(corrected, a.value.ozs, v, Start(), src.block).value.w.buf, Refill)
  {
    var a := Analysis(corrected, src);
    if a.Ok? {
      BlockKeeps(corrected, a.value.ozs, v, Start(), src.block);
    }
  }

  /** Check and eof statements print nothing; a scalar declaration only records its names' type. */
  lemma SilentStatements(corrected: bool, ozs: Registry, v: Py3Expr.Verbs, g: Gen, id: nat, n: StmtNode)
    ensures n.CheckStmt? || n.EOFStmt? ==> OnStatement(corrected, ozs, v, g, id, n) == Ok(g)
    ensures n.VarDecl? && n.spec.typ.TypeName? ==>
      OnStatement(corrected, ozs, v, g, id, n) == Ok(g.(types := Declare(g.types, n.spec.identList, Py3Types.Lookup(Py3Types.ASTType, n.spec.typ.name))))
  {
  }

  /**
   * A generic scan succeeds exactly when every target's indices print; it
   * sets `linevar`, prints the refill line and then one line per target.
   */
  lemma GenericScanLines(ozs: Registry, v: Py3Expr.Verbs, g: Gen, id: nat, sc: ScanStmt)
    requires id !in ozs
    ensures OnScan(ozs, v, g, id, sc).Ok? <==> forall i :: 0 <= i < |sc.refList| ==> Py3Expr.RefTarget(v, sc.refList[i]).Ok?
    ensures OnScan(ozs, v, g, id, sc).Ok? ==>
      var g' := OnScan(ozs, v, g, id, sc).value;
      && g'.linevar && g'.types == g.types
      && g.w.buf + Writer.Pending(g.w) + Refill + "\n" <= g'.w.buf
      && g'.w.r == g.w.r + 1 + |sc.refList|
  {
    var g1 := g.(linevar := true, w := Writer.Ended(g.w, Refill));
    SameLine.EmitLines(g1.w, v, g1.types, sc.refList);
  }

  /**
   * A loop whose body prints nothing: as written only its header is printed,
   * an empty suite; the corrected loop prints `pass` one level deeper.
   */
  lemma EmptyLoopBody(v: Py3Expr.Verbs, g: Gen, id: nat, c: RangeClause, bid: nat)
    requires ForHeader(v, c).Ok?
    ensures var line := ForHeader(v, c).value;
      var w1 := Writer.Ended(g.w, line);
      && OnFor(false, map[], v, g, id, Range(c), Block(bid, [])) == Ok(g.(w := w1))
      && OnFor(true, map[], v, g, id, Range(c), Block(bid, [])) == Ok(g.(w := Writer.Ended(w1.(d := w1.d + 1), "pass").(d := w1.d)))
  {
    var w1 := Writer.Ended(g.w, ForHeader(v, c).value);
    var g1 := g.(w := w1.(d := w1.d + 1));
    assert OnStatements(false, map[], v, g1, Block(bid, []), 0) == Ok(g1);
    assert OnBlock(false, map[], v, g1, Block(bid, [])) == Ok(g1);
    assert OnStatements(true, map[], v, g1, Block(bid, []), 0) == Ok(g1);
    assert OnBlock(true, map[], v, g1, Block(bid, [])) == Ok(g1);
  }

  // ---------------------------------------------------------------------------
  // The generator

  /** One array name printed by `OnArrayNames` when the declaration is not registered. */
  lemma ArrayNameStep(ozs: Registry, v: Py3Expr.Verbs, g: Gen, id: nat, names: seq<string>, t: string, zero: string, length: Expr, e: string)
    requires id !in ozs && names != [] && Py3Expr.ExprText(v, length) == Ok(e)
    ensures var x := names[0];
            OnArrayNames(ozs, v, g, id, names, t, zero, length) ==
            OnArrayNames(ozs, v, Gen(g.types[x := "array"][x + "[]" := t], g.linevar, Writer.Ended(g.w, x + " = [" + zero + "] * " + e)), id, names[1..], t, zero, length)
  {
  }

  /** Printing a line in two pieces and ending it is ending it with the whole text. */
  lemma PrintTwoThenEnd(w: Writer.Out, a: string, b: string)
    ensures Writer.Ended(Writer.Printed(Writer.Printed(w, a), b), "") == Writer.Ended(w, a + b)
  {
    Writer.PrintConcat(w, a, b);
    Writer.PrintThenEnd(w, a + b, "");
    assert a + b + "" == a + b;
  }

  /** Printing a line in pieces and ending it is ending it with the whole text. */
  lemma PrintPiecesThenEnd(w: Writer.Out, a: string, b: string, c: string)
    ensures Writer.Ended(Writer.Printed(Writer.Printed(Writer.Printed(w, a), b), c), "") == Writer.Ended(w, a + b + c)
  {
    Writer.PrintConcat(w, a, b);
    Writer.PrintConcat(w, a + b, c);
    Writer.PrintThenEnd(w, a + b + c, "");
    assert a + b + c + "" == a + b + c;
  }

  /** A generator whose outcome agrees with its line's, and fails only with a nil dereference, returns the status of ending that line. */
  lemma LineStatus(out: Outcome<()>, g: Gen, l: Outcome<string>)
    requires out.Ok? <==> l.Ok?
    requires !out.Ok? ==> out == Fail(Runtime(NilDeref))
    requires !l.Ok? ==> l == Fail(Runtime(NilDeref))
    ensures out == Py3Expr.Status(EndLine(g, l))
  {
    assert Py3Expr.Status(EndLine(g, l)) == Py3Expr.Status(l);
    if l.Ok? {
      assert Py3Expr.Status(l) == Ok(());
      var u: () := out.value;
      assert u == ();
    }
  }

  /**
   * `Generator` with its `Context`: the analysis, the writer, the recorded
   * types and `linevar`; `corrected` chooses the corrected generator.
   */
  class Generator {
    const corrected: bool
    const ozs: Registry
    const v: Py3Expr.Verbs
    const cw: Writer.Writer
    var types: map<string, string>
    var linevar: bool

    function State(): Gen
      reads this, cw
    {
      Gen(types, linevar, cw.State())
    }

    constructor (corrected: bool, ozs: Registry, v: Py3Expr.Verbs)
      ensures this.corrected == corrected && this.ozs == ozs && this.v == v && State() == Start() && fresh(cw)
    {
      this.corrected := corrected;
      this.ozs := ozs;
      this.v := v;
      cw := new Writer.Writer("\t");
      types := map[];
      linevar := false;
    }

    /** `oz.Generate(g.ctx)`. */
    method EmitOz(oz: Optimization) returns (out: Outcome<()>)
      modifies cw
      ensures out == Py3Expr.Status(OzGen(oz, v, old(State())))
      ensures out.Ok? ==> State() == OzGen(oz, v, old(State())).value
    {
      ghost var g0 := State();
      match oz
      case Noop => out := Ok(());
      case MultiVarOz(d, sc, _) =>
        out := MultiVar.Generate(cw, d, sc);
        LineStatus(out, g0, MultiVar.Line(d, sc));
      case OnlyTokenOz(sc, _) => out := OnlyToken.Generate(cw, v, types, sc);
      case ArrayLineOz(d, _, sc, _) =>
        out := ArrayLine.Generate(cw, d, sc);
        LineStatus(out, g0, ArrayLine.Line(d, sc));
      case SameLineOz(sc) =>
        ghost var e := SameLine.Emit(cw.State(), v, types, sc.scan.refList);
        assert Py3Expr.Status(OzGen(oz, v, State())) == Py3Expr.Status(e);
        out := SameLine.Generate(cw, v, types, sc);
      case ScanArrayOz(d, _, scanned, _) =>
        out := ScanArray.Generate(cw, d, scanned);
        if scanned.Some? {
          LineStatus(out, g0, ArrayLine.Line(d, scanned.value));
        }
      case ScanSameOz(d, sc, _) =>
        out := ScanSame.Generate(cw, d, sc);
        LineStatus(out, g0, MultiVar.Line(d, sc));
      case ScanOneOz(sc, _) => out := ScanOne.Generate(cw, v, types, sc);
    }

    /** `varDecl`. */
    method EmitVarDecl(id: nat, spec: VarSpec) returns (out: Outcome<()>)
      modifies this, cw
      ensures out == Py3Expr.Status(OnVarDecl(corrected, ozs, v, old(State()), id, spec))
      ensures out.Ok? ==> State() == OnVarDecl(corrected, ozs, v, old(State()), id, spec).value
    {
      match spec.typ
      case TypeName(name) =>
        DeclareScalars(spec.identList, Py3Types.Lookup(Py3Types.ASTType, name));
        return Ok(());
      case TypeLit(length, elem) =>
        if !elem.TypeName? {
          return Fail(Runtime(NilDeref));
        }
        out := EmitArrays(id, spec.identList, Py3Types.Lookup(Py3Types.ASTType, elem.name), ElementZero(corrected, elem.name), length);
    }

    /** The loop of `varDecl` over the names of a scalar declaration. */
    method DeclareScalars(names: seq<string>, t: string)
      modifies this
      ensures State() == old(State()).(types := Declare(old(types), names, t))
    {
      ghost var g0 := State();
      var i := 0;
      while i < |names|
        invariant 0 <= i <= |names|
        invariant State() == g0.(types := Declare(g0.types, names[..i], t))
      {
        assert names[..i + 1][..i] == names[..i];
        types := types[names[i] := t];
        i := i + 1;
      }
      assert names[..i] == names;
    }

    /** The loop of `varDecl` over the names of an array declaration. */
    method EmitArrays(id: nat, names: seq<string>, t: string, zero: string, length: Expr) returns (out: Outcome<()>)
      modifies this, cw
      ensures out == Py3Expr.Status(OnArrayNames(ozs, v, old(State()), id, names, t, zero, length))
      ensures out.Ok? ==> State() == OnArrayNames(ozs, v, old(State()), id, names, t, zero, length).value
    {
      ghost var g0 := State();
      var i := 0;
      while i < |names|
        invariant 0 <= i <= |names|
        invariant OnArrayNames(ozs, v, g0, id, names, t, zero, length) == OnArrayNames(ozs, v, State(), id, names[i..], t, zero, length)
      {
        var x := names[i];
        ghost var gi := State();
        assert names[i..][0] == x && names[i..][1..] == names[i + 1..];
        types := types[x := "array"][x + "[]" := t];
        if id in ozs {
          out := EmitOz(ozs[id]);
          return;
        }
        ghost var w1 := cw.State();
        var head := x + " = [" + zero + "] * ";
        cw.Print(head);
        var e := Py3Expr.ExprText(v, length);
        if !e.Ok? {
          return Py3Expr.Status(e);
        }
        cw.Print(e.value);
        cw.Println("");
        ghost var line := x + " = [" + zero + "] * " + e.value;
        assert w1 == gi.w;
        PrintTwoThenEnd(w1, head, e.value);
        assert head + e.value == line;
        ArrayNameStep(ozs, v, gi, id, names[i..], t, zero, length, e.value);
        i := i + 1;
      }
      return Ok(());
    }

    /** `scanStmt`. */
    method EmitScan(id: nat, sc: ScanStmt) returns (out: Outcome<()>)
      modifies this, cw
      ensures out == Py3Expr.Status(OnScan(ozs, v, old(State()), id, sc))
      ensures out.Ok? ==> State() == OnScan(ozs, v, old(State()), id, sc).value
    {
      if id in ozs {
        out := EmitOz(ozs[id]);
        return;
      }
      linevar := true;
      cw.Println(Refill);
      out := SameLine.Generate(cw, v, types, ScanAt(id, sc));
    }

    /** `eolStmt`. */
    method EmitEol(id: nat) returns (out: Outcome<()>)
      modifies this, cw
      ensures out == Py3Expr.Status(OnEol(ozs, v, old(State()), id))
      ensures out.Ok? ==> State() == OnEol(ozs, v, old(State()), id).value
    {
      if id in ozs {
        out := EmitOz(ozs[id]);
        return;
      }
      cw.Println("_ = None");
      return Ok(());
    }

    /** The indented walk of a branch or loop body, with `pass`, if asked for, for a body that printed nothing. */
    method WalkSuite(b: Block, pass: bool) returns (out: Outcome<()>)
      modifies this, cw
      ensures out == Py3Expr.Status(Suite(corrected, ozs, v, old(State()), b, pass))
      ensures out.Ok? ==> State() == Suite(corrected, ozs, v, old(State()), b, pass).value
      decreases b, 3
    {
      cw.Indent(1);
      var l := cw.Len();
      out := WalkBlock(b);
      if !out.Ok? {
        return;
      }
      var l2 := cw.Len();
      if pass && l2 == l {
        cw.Println("pass");
      }
      cw.Indent(-1);
    }

    /** One branch of `ifStmt`. */
    method EmitBranch(br: IfBranch, i: nat) returns (out: Outcome<()>)
      modifies this, cw
      ensures out == Py3Expr.Status(OnBranch(corrected, ozs, v, old(State()), br, i))
      ensures out.Ok? ==> State() == OnBranch(corrected, ozs, v, old(State()), br, i).value
      decreases br, 4
    {
      ghost var w0 := cw.State();
      if br.condition.Some? {
        var kw := if i == 0 then "if " else "elif ";
        cw.Print(kw);
        var e := Py3Expr.ExprText(v, br.condition.value);
        if !e.Ok? {
          return Py3Expr.Status(e);
        }
        cw.Print(e.value);
        cw.Print(":");
        cw.Println("");
        PrintPiecesThenEnd(w0, kw, e.value, ":");
      } else {
        cw.Print("else:");
        cw.Println("");
        Writer.PrintThenEnd(w0, "else:", "");
        assert "else:" + "" == "else:";
      }
      out := WalkSuite(br.block, true);
    }

    /** `ifStmt`. */
    method EmitIf(branches: seq<IfBranch>) returns (out: Outcome<()>)
      modifies this, cw
      ensures out == Py3Expr.Status(OnBranches(corrected, ozs, v, old(State()), branches, 0))
      ensures out.Ok? ==> State() == OnBranches(corrected, ozs, v, old(State()), branches, 0).value
      decreases IfStmt(branches), 2
    {
      ghost var g0 := State();
      var i := 0;
      while i < |branches|
        invariant 0 <= i <= |branches|
        invariant OnBranches(corrected, ozs, v, g0, branches, 0) == OnBranches(corrected, ozs, v, State(), branches, i)
      {
        out := EmitBranch(branches[i], i);
        if !out.Ok? {
          return;
        }
        i := i + 1;
      }
      return Ok(());
    }

    /** `forStmt`. */
    method EmitFor(id: nat, h: Ast.ForHeader, body: Block) returns (out: Outcome<()>)
      modifies this, cw
      ensures out == Py3Expr.Status(OnFor(corrected, ozs, v, old(State()), id, h, body))
      ensures out.Ok? ==> State() == OnFor(corrected, ozs, v, old(State()), id, h, body).value
      decreases ForStmt(h, body), 2
    {
      if id in ozs {
        out := EmitOz(ozs[id]);
        return;
      }
      if !h.Range? {
        return Fail(Runtime(NilDeref));
      }
      ghost var w0 := cw.State();
      var c := h.clause;
      var head := "for " + c.index + " in range(";
      cw.Print(head);
      var low := Py3Expr.ExprText(v, c.low);
      if !low.Ok? {
        return Py3Expr.Status(low);
      }
      cw.Print(low.value);
      cw.Print(", ");
      var high := Py3Expr.ExprText(v, c.high);
      if !high.Ok? {
        return Py3Expr.Status(high);
      }
      cw.Print(high.value);
      cw.Print("):");
      cw.Println("");
      Writer.PrintConcat(w0, head, low.value);
      Writer.PrintConcat(w0, head + low.value, ", ");
      PrintPiecesThenEnd(w0, head + low.value + ", ", high.value, "):");
      out := WalkSuite(body, corrected);
    }

    /** `Visit` on a statement's alternative. */
    method Visit(id: nat, n: StmtNode) returns (out: Outcome<()>)
      modifies this, cw
      ensures out == Py3Expr.Status(OnStatement(corrected, ozs, v, old(State()), id, n))
      ensures out.Ok? ==> State() == OnStatement(corrected, ozs, v, old(State()), id, n).value
      decreases n, 3
    {
      match n
      case VarDecl(spec) => out := EmitVarDecl(id, spec);
      case ScanStmt(sc) => out := EmitScan(id, sc);
      case ScanlnStmt(_) => out := Fail(Walk.Unreachable("*ast.ScanlnStmt"));
      case CheckStmt(_) => out := Ok(());
      case IfStmt(branches) => out := EmitIf(branches);
      case ForStmt(h, body) => out := EmitFor(id, h, body);
      case EOLStmt(_) => out := EmitEol(id);
      case EOFStmt(_) => out := Ok(());
    }

    /** `ast.Walk(g, b)` on a block: each statement in turn. */
    method WalkBlock(b: Block) returns (out: Outcome<()>)
      modifies this, cw
      ensures out == Py3Expr.Status(OnBlock(corrected, ozs, v, old(State()), b))
      ensures out.Ok? ==> State() == OnBlock(corrected, ozs, v, old(State()), b).value
      decreases b, 2
    {
      ghost var g0 := State();
      var i := 0;
      while i < |b.statements|
        invariant 0 <= i <= |b.statements|
        invariant OnBlock(corrected, ozs, v, g0, b) == OnStatements(corrected, ozs, v, State(), b, i)
      {
        out := Visit(b.statements[i].id, b.statements[i].node);
        if !out.Ok? {
          return;
        }
        i := i + 1;
      }
      return Ok(());
    }
  }

  /**
   * The walk of `Generate`: analyse, walk the source, and put `_ = None`
   * first when a generic scan needs the buffer.
   */
  method GenerateWith(corrected: bool, v: Py3Expr.Verbs, src: Source) returns (out: Outcome<string>)
    ensures out == Program(corrected, v, src)
  {
    var a := if corrected then Analyze.Analyze(src) else Analyze.AnalyzeAsWritten(src);
    if !a.Ok? {
      return match a
        case Fail(e) => Fail(e)
        case Crash(m) => Crash(m);
    }
    var g := new Generator(corrected, a.value.ozs, v);
    var r := g.WalkBlock(src.block);
    if !r.Ok? {
      return match r
        case Fail(e) => Fail(e)
        case Crash(m) => Crash(m);
    }
    assert g.State() == OnBlock(corrected, a.value.ozs, v, Start(), src.block).value;
    ghost var gg := OnBlock(corrected, a.value.ozs, v, Start(), src.block).value;
    var text := g.cw.Bytes();
    assert text == gg.w.buf;
    if g.linevar {
      text := "_ = None\n" + text;
    }
    assert text == (if gg.linevar then "_ = None\n" else "") + gg.w.buf;
    return Ok(text);
  }

  /** `Generate` as py3.go writes it. */
  method Generate(v: Py3Expr.Verbs, src: Source) returns (out: Outcome<string>)
    ensures out == Program(false, v, src)
  {
    out := GenerateWith(false, v, src);
  }

  /** `Generate` with the corrections of the findings: branch blocks marked, float zeros kept, `pass` in empty loops. */
  method GenerateCorrected(v: Py3Expr.Verbs, src: Source) returns (out: Outcome<string>)
    ensures out == Program(true, v, src)
  {
    out := GenerateWith(true, v, src);
  }
}
