/**
 * The statement executors of eval/evaluator.go and eval/eval.go as functions
 * from a state to a run: `varDecl`, `scanStmt`, `scanlnStmt`, `checkStmt`,
 * `ifStmt`, the three `for` forms, `eolStmt` and `eofStmt`, and the block walk
 * that `Evaluate` drives.  A statement that fails stops the whole evaluation
 * (the Go code panics with the error and `Evaluate` recovers it).
 *
 * The token reader (`readBool` ... `readStringLn`, `Input.Int` ...), `isAtEOL`
 * and `isAtEOF` are not part of this model: they are an `Input` oracle, asked
 * once per input operation; `pos` counts the operations made so far, and a
 * read at or beyond `length` finds the end of input.  The earlier revision's
 * `Input.EOL` and `Input.EOF` are asked through the same oracle, since the
 * line they look at is the one the token readers consume.
 */
module Exec {
  import opened Wrappers
  import opened Types
  import opened Errors
  import opened Coerce
  import opened Ast
  import opened Eval

  /** What a scan asks the reader for: the slot's kind, or a whole line for `scanln`. */
  datatype ReadKind = RBool | RInt | RInt64 | RFloat32 | RFloat64 | RString | RStringLn

  datatype ReadStatus = ReadOk | ReadEOF | ReadErr(err: Error)

  /** A reader returns a value (stored even when the status is an error) and a status. */
  datatype ReadResult = ReadResult(value: Value, status: ReadStatus)

  datatype Input = Input(
    openErr: Option<Error>,
    length: nat,
    read: (nat, ReadKind) -> ReadResult,
    atEOL: nat -> Outcome<bool>,
    atEOF: nat -> Outcome<bool>,
    got: nat -> seq<byte>,
    cursor: nat -> Cursor)

  /** The fixed part of an evaluation: the revision, the input and the primitives. */
  datatype Machine = Machine(rev: Rev, input: Input, prims: Prims)

  datatype State = State(values: Env, pos: nat)

  /** A statement's end and the state it leaves. */
  datatype Run = Run(out: Outcome<()>, st: State)

  function CtxOf(m: Machine, st: State): Ctx
  {
    Ctx(m.rev, st.values, m.prims)
  }

  /** The zero value `reflect.New` and `reflect.MakeSlice` give a scalar kind. */
  function GoZero(t: Type): (v: Value)
    ensures IsScalar(t) ==> TypeOf(v) == t
  {
    match t
    case Bool => VBool(false)
    case Int => VInt(0)
    case Int64 => VInt64(0)
    case Float32 => VFloat32(FOfInt(W32, 0))
    case Float64 => VFloat64(FOfInt(W64, 0))
    case String => VString("")
    case _ => VInvalid
  }

  function KindOfRead(k: ReadKind): Type
  {
    match k
    case RBool => Bool
    case RInt => Int
    case RInt64 => Int64
    case RFloat32 => Float32
    case RFloat64 => Float64
    case RString => String
    case RStringLn => String
  }

  /**
   * The reader's answer to the operation at `pos`.  Past the end of input it
   * reports EOF; a value of another kind than asked for is read as that kind's zero.
   */
  function ReadAt(inp: Input, pos: nat, k: ReadKind): (r: ReadResult)
    ensures TypeOf(r.value) == KindOfRead(k)
    ensures r.status.ReadOk? ==> pos < inp.length
  {
    if pos >= inp.length then ReadResult(GoZero(KindOfRead(k)), ReadEOF)
    else
      var a := inp.read(pos, k);
      if TypeOf(a.value) == KindOfRead(k) then a else ReadResult(GoZero(KindOfRead(k)), a.status)
  }

  /** The read a slot of this value calls for; `scanln` only scans strings. */
  function SlotRead(v: Value, line: bool): Option<ReadKind>
  {
    if line then (if v.VString? then Some(RStringLn) else None)
    else match v
      case VBool(_) => Some(RBool)
      case VInt(_) => Some(RInt)
      case VInt64(_) => Some(RInt64)
      case VFloat32(_) => Some(RFloat32)
      case VFloat64(_) => Some(RFloat64)
      case VString(_) => Some(RString)
      case _ => None
  }

  /** `v` with the element at `path` replaced by `x`. */
  function Store(v: Value, path: seq<int>, x: Value): (r: Value)
    requires ValidPath(v, path)
    ensures ValidPath(r, path) && At(r, path) == x
    ensures |path| > 0 ==> r.VArray? && |r.elems| == |v.elems|
  {
    if |path| == 0 then x
    else v.(elems := v.elems[path[0] := Store(v.elems[path[0]], path[1..], x)])
  }

  /**
   * Resolves the indices of a scan target from the k-th on, starting at `v`
   * (`top`: still the slot itself).  Each index is evaluated, must be an `int`,
   * and must lie in `[0, len)`; a string element is indexed by its bytes (see
   * `IndexByte`), and any other scalar has no length (`reflect.ValueError`).
   * The result is the path followed and the value reached.
   */
  function Resolve(c: Ctx, f: Reference, k: nat, v: Value, top: bool): (r: Outcome<(seq<int>, Value)>)
    requires k <= |f.indices|
    ensures r.Ok? ==> ValidPath(v, r.value.0) && At(v, r.value.0) == r.value.1 && |r.value.0| == |f.indices| - k
    decreases |f.indices| - k
  {
    if k == |f.indices| then Ok(([], v))
    else match EvalExpr(c, f.indices[k])
      case Ok(ix) =>
        var pos := CursorOf(f.indices[k].pos);
        if !ix.VInt? then Fail(NonIntegerIndex(pos))
        else if v.VString? && !top then
          if ix.i < 0 || ix.i >= |v.s| then Fail(InvalidIndex(pos, ix.i, |v.s|))
          else IndexByte(c, f, k + 1)
        else if !v.VArray? then Fail(ValueError("Len", KindName(v, top)))
        else if ix.i < 0 || ix.i >= |v.elems| then Fail(InvalidIndex(pos, ix.i, |v.elems|))
        else (match Resolve(c, f, k + 1, v.elems[ix.i], false)
          case Ok(p) => Ok(([ix.i] + p.0, p.1))
          case Fail(e) => Fail(e)
          case Crash(s) => Crash(s))
      case Fail(e) => Fail(e)
      case Crash(s) => Crash(s)
  }

  /**
   * The indices after one that picked a byte out of a string element.  The
   * byte is a `uint8`, which has no length, so a further index fails with a
   * `reflect.ValueError` once it has been evaluated, and a byte as the target
   * of the scan has no reader.
   */
  function IndexByte(c: Ctx, f: Reference, k: nat): (r: Outcome<(seq<int>, Value)>)
    requires k <= |f.indices|
    ensures !r.Ok?
    ensures k == |f.indices| ==> r == Fail(CantScanType)
    ensures k < |f.indices| && EvalExpr(c, f.indices[k]).Ok? && EvalExpr(c, f.indices[k]).value.VInt? ==> r == Fail(ValueError("Len", "uint8"))
  {
    if k == |f.indices| then Fail(CantScanType)
    else match EvalExpr(c, f.indices[k])
      case Ok(ix) => if !ix.VInt? then Fail(NonIntegerIndex(CursorOf(f.indices[k].pos))) else Fail(ValueError("Len", "uint8"))
      case Fail(e) => Fail(e)
      case Crash(s) => Crash(s)
  }

  /**
   * `scanStmt` / `scanlnStmt` from the k-th reference on.  Each reference is
   * looked up, resolved, read by its slot's kind and stored, left to right; the
   * first error stops the statement, and what earlier references stored stays.
   */
  function ScanRefs(m: Machine, line: bool, s: ScanStmt, k: nat, st: State): (r: Run)
    requires k <= |s.refList|
    ensures r.st.pos >= st.pos
    ensures r.out.Ok? && k < |s.refList| ==> st.pos < m.input.length && r.st.pos > st.pos
    ensures r.out.Ok? ==> r.st.values.Keys == st.values.Keys
    decreases |s.refList| - k
  {
    if k == |s.refList| then Run(Ok(()), st)
    else
      var f := s.refList[k];
      if f.ident !in st.values then
        Run(Fail(Undefined(if m.rev == Current then CursorOf(s.pos) else NoPos, f.ident)), st)
      else match Resolve(CtxOf(m, st), f, 0, st.values[f.ident], true)
        case Fail(e) => Run(Fail(e), st)
        case Crash(x) => Run(Crash(x), st)
        case Ok(p) =>
          match SlotRead(p.1, line)
          case None => Run(Fail(CantScanType), st)
          case Some(rk) =>
            var rr := ReadAt(m.input, st.pos, rk);
            var st' := State(st.values[f.ident := Store(st.values[f.ident], p.0, rr.value)], st.pos + 1);
            match rr.status
            case ReadOk => ScanRefs(m, line, s, k + 1, st')
            case ReadEOF => Run(Fail(UnexpectedEOF(CursorOf(s.pos))), st')
            // `enrichError` sets the position on its own copy of the error, so
            // the reader's error comes back unchanged.
            case ReadErr(e) => Run(Fail(e), st')
  }

  /**
   * `varDecl` from the k-th name on.  A scalar name is bound to a fresh zero
   * slot; an array name evaluates the length (once per name), which must be a
   * Go `int`, and is bound to a slice of that many zeros.
   */
  function Declare(m: Machine, spec: VarSpec, k: nat, st: State): (r: Run)
    requires k <= |spec.identList|
    ensures r.st.pos == st.pos
    ensures r.out.Ok? ==> r.st.values.Keys == st.values.Keys + set i | k <= i < |spec.identList| :: spec.identList[i]
    decreases |spec.identList| - k
  {
    if k == |spec.identList| then Run(Ok(()), st)
    else
      var x := spec.identList[k];
      match spec.typ
      case TypeName(name) =>
        if name !in ASTType then Run(Crash("reflect: New(nil)"), st)
        else Declare(m, spec, k + 1, st.(values := st.values[x := GoZero(ASTType[name])]))
      case TypeLit(len, elem) =>
        match EvalExpr(CtxOf(m, st), len)
        case Fail(e) => Run(Fail(e), st)
        case Crash(s) => Run(Crash(s), st)
        case Ok(l) =>
          if !l.VInt? then Run(Fail(Message("invalid array bound")), st)
          else if !elem.TypeName? || elem.name !in ASTType then Run(Fail(Runtime(NilDeref)), st)
          else if l.i < 0 then Run(Crash("reflect.MakeSlice: negative len"), st)
          else
            var slice := VArray(seq(l.i, _ => GoZero(ASTType[elem.name])));
            Declare(m, spec, k + 1, st.(values := st.values[x := slice]))
  }

  /** `checkStmt` from the k-th clause on: the first clause that is not `true` fails. */
  function CheckClauses(m: Machine, n: CheckStmt, k: nat, st: State): (r: Outcome<()>)
    requires k <= |n.exprList|
    decreases |n.exprList| - k
  {
    if k == |n.exprList| then Ok(())
    else match EvalExpr(CtxOf(m, st), n.exprList[k])
      case Fail(e) => Fail(e)
      case Crash(s) => Crash(s)
      case Ok(v) =>
        if v != VBool(true) then Fail(CheckError(CursorOf(n.pos), k + 1, m.input.cursor(st.pos)))
        else CheckClauses(m, n, k + 1, st)
  }

  /** `eolStmt`: the reader is asked whether the line is over. */
  function Eol(m: Machine, p: Pos, st: State): (r: Run)
    ensures r.st == st.(pos := st.pos + 1)
  {
    var st' := st.(pos := st.pos + 1);
    match m.input.atEOL(st.pos)
    case Fail(e) => Run(Fail(e), st')
    case Crash(s) => Run(Crash(s), st')
    case Ok(b) =>
      if b then Run(Ok(()), st')
      else if m.rev == Current then
        Run(Fail(ExpectedEOL(CursorOf(p), m.input.got(st.pos), m.input.cursor(st.pos))), st')
      else Run(Fail(ExpectedEOL(CursorOf(p), [], NoPos)), st')
  }

  /** `eofStmt`: the reader is asked whether the input is over; the error carries the trailing token. */
  function Eof(m: Machine, p: Pos, st: State): (r: Run)
    ensures r.st == st.(pos := st.pos + 1)
  {
    var st' := st.(pos := st.pos + 1);
    match m.input.atEOF(st.pos)
    case Fail(e) => Run(Fail(e), st')
    case Crash(s) => Run(Crash(s), st')
    case Ok(b) =>
      if b then Run(Ok(()), st')
      else Run(Fail(ExpectedEOF(CursorOf(p), m.input.got(st.pos))), st')
  }

  /** How many input operations remain before the end of input. */
  function Remaining(m: Machine, pos: nat): nat
  {
    if pos < m.input.length then m.input.length - pos else 0
  }

  /** The statements of a block from the k-th on; the first failure stops the walk. */
  function ExecBlock(m: Machine, b: Block, k: nat, st: State): (r: Run)
    requires k <= |b.statements|
    ensures r.st.pos >= st.pos
    decreases b, 0, |b.statements| - k
  {
    if k == |b.statements| then Run(Ok(()), st)
    else
      var r := ExecStmt(m, b.statements[k], st);
      if r.out.Ok? then ExecBlock(m, b, k + 1, r.st) else r
  }

  function ExecStmt(m: Machine, s: Statement, st: State): (r: Run)
    ensures r.st.pos >= st.pos
    decreases s, 0, 0
  {
    match s.node
    case VarDecl(spec) => Declare(m, spec, 0, st)
    case ScanStmt(n) => ScanRefs(m, false, n, 0, st)
    case ScanlnStmt(n) => ScanRefs(m, true, n, 0, st)
    case CheckStmt(n) => Run(CheckClauses(m, n, 0, st), st)
    case IfStmt(_) => ExecIf(m, s.node, 0, st)
    case ForStmt(_, _) => ExecFor(m, s.node, st)
    case EOLStmt(p) => Eol(m, p, st)
    case EOFStmt(p) => Eof(m, p, st)
  }

  /**
   * `ifStmt` from the k-th branch on: runs exactly the first branch whose
   * condition is absent or true; a condition that is not a bool is an error.
   */
  function ExecIf(m: Machine, n: StmtNode, k: nat, st: State): (r: Run)
    requires n.IfStmt? && k <= |n.branches|
    ensures r.st.pos >= st.pos
    decreases n, 1, |n.branches| - k
  {
    if k == |n.branches| then Run(Ok(()), st)
    else
      var br := n.branches[k];
      match br.condition
      case None => ExecBlock(m, br.block, 0, st)
      case Some(e) =>
        match EvalExpr(CtxOf(m, st), e)
        case Fail(err) => Run(Fail(err), st)
        case Crash(x) => Run(Crash(x), st)
        case Ok(v) =>
          if !v.VBool? then Run(Fail(Message("non-bool used as if condition")), st)
          else if v.b then ExecBlock(m, br.block, 0, st)
          else ExecIf(m, n, k + 1, st)
  }

  /**
   * `forStmt`.  The current revision dispatches on the header; the earlier one
   * knows only the range form and dereferences the missing range clause of a
   * scan header.
   */
  function ExecFor(m: Machine, n: StmtNode, st: State): (r: Run)
    requires n.ForStmt?
    ensures r.st.pos >= st.pos
    decreases n, 2, 0
  {
    match n.header
    case Range(rc) =>
      (match EvalExpr(CtxOf(m, st), rc.low)
      case Fail(e) => Run(Fail(e), st)
      case Crash(x) => Run(Crash(x), st)
      case Ok(l) =>
        if !ToInt(l).1 then Run(Fail(Message("invalid loop bound")), st)
        else (match EvalExpr(CtxOf(m, st), rc.high)
          case Fail(e) => Run(Fail(e), st)
          case Crash(x) => Run(Crash(x), st)
          case Ok(h) =>
            if !ToInt(h).1 then Run(Fail(Message("invalid loop bound")), st)
            else RangeLoop(m, n, ToInt(l).0, ToInt(h).0, st)))
    case ForScan(s) =>
      if m.rev == Earlier then Run(Fail(Runtime(NilDeref)), st) else ScanLoop(m, n, false, st)
    case ForScanln(s) =>
      if m.rev == Earlier then Run(Fail(Runtime(NilDeref)), st) else ScanLoop(m, n, true, st)
  }

  /** The range loop from `i`: the index name is bound to `i`, then the body runs. */
  function RangeLoop(m: Machine, n: StmtNode, i: int, hi: int, st: State): (r: Run)
    requires n.ForStmt? && n.header.Range?
    ensures r.st.pos >= st.pos
    decreases n, 1, if i < hi then hi - i else 0
  {
    if i >= hi then Run(Ok(()), st)
    else
      var r := ExecBlock(m, n.body, 0, st.(values := st.values[n.header.clause.index := VInt(i)]));
      if r.out.Ok? then RangeLoop(m, n, i + 1, hi, r.st) else r
  }

  /**
   * The scan loop: scan the header's targets, then run the body, until the
   * header scan meets the end of input, which ends the loop without error.
   */
  function ScanLoop(m: Machine, n: StmtNode, line: bool, st: State): (r: Run)
    requires n.ForStmt? && (if line then n.header.ForScanln? else n.header.ForScan?)
    ensures r.st.pos >= st.pos
    decreases n, 1, Remaining(m, st.pos)
  {
    var s := if line then n.header.scanln else n.header.scan;
    var h := ScanRefs(m, line, s, 0, st);
    if h.out.Fail? && h.out.err.UnexpectedEOF? then Run(Ok(()), h.st)
    else if !h.out.Ok? then h
    else
      var b := ExecBlock(m, n.body, 0, h.st);
      if b.out.Ok? then ScanLoop(m, n, line, b.st) else b
  }

  /** `Evaluate` of the current revision: the bound values, or the first error. */
  function Evaluate(m: Machine, src: Source): (r: Outcome<Env>)
    requires m.rev == Current
  {
    if m.input.openErr.Some? then Fail(m.input.openErr.value)
    else
      var r := ExecBlock(m, src.block, 0, State(map[], 0));
      match r.out
      case Ok(_) => Ok(r.st.values)
      case Fail(e) => Fail(e)
      case Crash(s) => Crash(s)
  }

  /** `Evaluate` of the earlier revision: the evaluator is returned even after an error. */
  function EvaluateEarlier(m: Machine, src: Source): (r: (Env, Outcome<()>))
    requires m.rev == Earlier
  {
    var r := ExecBlock(m, src.block, 0, State(map[], 0));
    (r.st.values, r.out)
  }
}
