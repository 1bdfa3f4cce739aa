/**
 * The evaluator object of eval/evaluator.go (and of eval/eval.go, through
 * `Machine.rev`): it owns the name-to-slot environment and the input, and its
 * statement methods update them step by step.  Each method is proved to leave
 * exactly the state, and return exactly the outcome, that the functions of
 * module `Exec` prescribe.
 */
module Evaluator {
  import opened Wrappers
  import opened Types
  import opened Errors
  import opened Coerce
  import Ast
  import opened Eval
  import Exec

  class Evaluator {
    /** `Values`: the slots declared so far. */
    var values: Env
    /** How many input operations have been made. */
    var pos: nat
    const m: Exec.Machine

    function Snapshot(): Exec.State
      reads this
    {
      Exec.State(values, pos)
    }

    function Ctx(): Ctx
      reads this
    {
      Exec.CtxOf(m, Snapshot())
    }

    constructor (m: Exec.Machine)
      ensures this.m == m && values == map[] && pos == 0
    {
      this.m := m;
      values := map[];
      pos := 0;
    }

    /** Walks a block: its statements in order, stopping at the first that fails. */
    method Block(b: Ast.Block) returns (out: Outcome<()>)
      modifies this
      ensures Exec.Run(out, Snapshot()) == Exec.ExecBlock(m, b, 0, old(Snapshot()))
      decreases b, 0
    {
      var k := 0;
      while k < |b.statements|
        invariant k <= |b.statements|
        invariant Exec.ExecBlock(m, b, 0, old(Snapshot())) == Exec.ExecBlock(m, b, k, Snapshot())
      {
        ghost var before := Snapshot();
        out := Visit(b.statements[k]);
        if !out.Ok? {
          assert Exec.ExecBlock(m, b, k, before) == Exec.Run(out, Snapshot());
          return;
        }
        k := k + 1;
      }
      out := Ok(());
    }

    /** `Visit` of a statement: runs its one alternative. */
    method Visit(s: Ast.Statement) returns (out: Outcome<()>)
      modifies this
      ensures Exec.Run(out, Snapshot()) == Exec.ExecStmt(m, s, old(Snapshot()))
      decreases s, 0
    {
      match s.node
      case VarDecl(spec) => out := VarDecl(spec);
      case ScanStmt(n) => out := ScanStmt(n, false);
      case ScanlnStmt(n) => out := ScanStmt(n, true);
      case CheckStmt(n) => out := CheckStmt(n);
      case IfStmt(_) => out := IfStmt(s.node);
      case ForStmt(_, _) => out := ForStmt(s.node);
      case EOLStmt(p) => out := EolStmt(p);
      case EOFStmt(p) => out := EofStmt(p);
    }

    /** `varDecl`: binds each listed name to a fresh slot. */
    method VarDecl(spec: Ast.VarSpec) returns (out: Outcome<()>)
      modifies this
      ensures Exec.Run(out, Snapshot()) == Exec.Declare(m, spec, 0, old(Snapshot()))
    {
      var k := 0;
      while k < |spec.identList|
        invariant k <= |spec.identList|
        invariant Exec.Declare(m, spec, 0, old(Snapshot())) == Exec.Declare(m, spec, k, Snapshot())
      {
        var x := spec.identList[k];
        match spec.typ {
          case TypeName(name) =>
            if name !in ASTType {
              return Crash("reflect: New(nil)");
            }
            values := values[x := Exec.GoZero(ASTType[name])];
          case TypeLit(len, elem) =>
            var l := EvalExpr(Ctx(), len);
            if !l.Ok? {
              return if l.Fail? then Fail(l.err) else Crash(l.reason);
            }
            if !l.value.VInt? {
              return Fail(Message("invalid array bound"));
            }
            if !elem.TypeName? || elem.name !in ASTType {
              return Fail(Runtime(NilDeref));
            }
            if l.value.i < 0 {
              return Crash("reflect.MakeSlice: negative len");
            }
            values := values[x := VArray(seq(l.value.i, _ => Exec.GoZero(ASTType[elem.name])))];
        }
        k := k + 1;
      }
      out := Ok(());
    }

    /** Follows the indices of a scan target, checking each one, from the slot `v`. */
    method Reference(f: Ast.Reference, v: Value) returns (r: Outcome<(seq<int>, Value)>)
      ensures r == Exec.Resolve(Ctx(), f, 0, v, true)
    {
      var path: seq<int> := [];
      var cur := v;
      var k := 0;
      ExtendEmpty(Exec.Resolve(Ctx(), f, 0, v, true));
      while k < |f.indices|
        invariant k <= |f.indices| && |path| == k
        invariant ValidPath(v, path) && At(v, path) == cur
        invariant Exec.Resolve(Ctx(), f, 0, v, true) == Extend(path, Exec.Resolve(Ctx(), f, k, cur, k == 0))
      {
        var ix := EvalExpr(Ctx(), f.indices[k]);
        var p := CursorOf(f.indices[k].pos);
        if !ix.Ok? {
          return if ix.Fail? then Fail(ix.err) else Crash(ix.reason);
        }
        if !ix.value.VInt? {
          return Fail(NonIntegerIndex(p));
        }
        if cur.VString? && k != 0 {
          if ix.value.i < 0 || ix.value.i >= |cur.s| {
            return Fail(InvalidIndex(p, ix.value.i, |cur.s|));
          }
          if k + 1 == |f.indices| {
            return Fail(CantScanType);
          }
          var next := EvalExpr(Ctx(), f.indices[k + 1]);
          if !next.Ok? {
            return if next.Fail? then Fail(next.err) else Crash(next.reason);
          }
          if !next.value.VInt? {
            return Fail(NonIntegerIndex(CursorOf(f.indices[k + 1].pos)));
          }
          return Fail(ValueError("Len", "uint8"));
        }
        if !cur.VArray? {
          return Fail(ValueError("Len", KindName(cur, k == 0)));
        }
        if ix.value.i < 0 || ix.value.i >= |cur.elems| {
          return Fail(InvalidIndex(p, ix.value.i, |cur.elems|));
        }
        ExtendStep(path, ix.value.i, Exec.Resolve(Ctx(), f, k + 1, cur.elems[ix.value.i], false));
        PathStep(v, path, ix.value.i);
        path := path + [ix.value.i];
        cur := cur.elems[ix.value.i];
        k := k + 1;
      }
      assert path + [] == path;
      r := Ok((path, cur));
    }

    /**
     * `scanStmt` (or `scanlnStmt` when `line`): each reference is resolved,
     * read by its slot's kind and stored before the read's error is looked at.
     */
    method ScanStmt(n: Ast.ScanStmt, line: bool) returns (out: Outcome<()>)
      modifies this
      ensures Exec.Run(out, Snapshot()) == Exec.ScanRefs(m, line, n, 0, old(Snapshot()))
    {
      var k := 0;
      while k < |n.refList|
        invariant k <= |n.refList|
        invariant Exec.ScanRefs(m, line, n, 0, old(Snapshot())) == Exec.ScanRefs(m, line, n, k, Snapshot())
      {
        ghost var st := Snapshot();
        ghost var r := Exec.ScanRefs(m, line, n, k, st);
        var f := n.refList[k];
        if f.ident !in values {
          return Fail(Undefined(if m.rev == Current then CursorOf(n.pos) else NoPos, f.ident));
        }
        var target := Reference(f, values[f.ident]);
        if !target.Ok? {
          assert r == Exec.Run(if target.Fail? then Fail(target.err) else Crash(target.reason), st);
          return if target.Fail? then Fail(target.err) else Crash(target.reason);
        }
        var kind := Exec.SlotRead(target.value.1, line);
        if kind.None? {
          return Fail(CantScanType);
        }
        var rr := Exec.ReadAt(m.input, pos, kind.value);
        values := values[f.ident := Exec.Store(values[f.ident], target.value.0, rr.value)];
        pos := pos + 1;
        assert Snapshot() == Exec.State(st.values[f.ident := Exec.Store(st.values[f.ident], target.value.0, rr.value)], st.pos + 1);
        match rr.status {
          case ReadOk =>
            assert r == Exec.ScanRefs(m, line, n, k + 1, Snapshot());
          case ReadEOF => return Fail(UnexpectedEOF(CursorOf(n.pos)));
          case ReadErr(e) => return Fail(e);
        }
        k := k + 1;
      }
      out := Ok(());
    }

    /** `checkStmt`: evaluates the clauses in order; the first that is not `true` fails. */
    method CheckStmt(n: Ast.CheckStmt) returns (out: Outcome<()>)
      ensures out == Exec.CheckClauses(m, n, 0, Snapshot())
    {
      var k := 0;
      while k < |n.exprList|
        invariant k <= |n.exprList|
        invariant Exec.CheckClauses(m, n, 0, Snapshot()) == Exec.CheckClauses(m, n, k, Snapshot())
      {
        var v := EvalExpr(Ctx(), n.exprList[k]);
        if !v.Ok? {
          return if v.Fail? then Fail(v.err) else Crash(v.reason);
        }
        if v.value != VBool(true) {
          return Fail(CheckError(CursorOf(n.pos), k + 1, m.input.cursor(pos)));
        }
        k := k + 1;
      }
      out := Ok(());
    }

    /** `ifStmt`: runs the block of the first branch whose condition is absent or true. */
    method IfStmt(n: Ast.StmtNode) returns (out: Outcome<()>)
      requires n.IfStmt?
      modifies this
      ensures Exec.Run(out, Snapshot()) == Exec.ExecIf(m, n, 0, old(Snapshot()))
      decreases n, 0
    {
      var k := 0;
      while k < |n.branches|
        invariant k <= |n.branches| && Snapshot() == old(Snapshot())
        invariant Exec.ExecIf(m, n, 0, old(Snapshot())) == Exec.ExecIf(m, n, k, Snapshot())
      {
        var br := n.branches[k];
        var cond := true;
        if br.condition.Some? {
          var v := EvalExpr(Ctx(), br.condition.value);
          if !v.Ok? {
            return if v.Fail? then Fail(v.err) else Crash(v.reason);
          }
          var (b, ok) := ToBool(v.value);
          if !ok {
            return Fail(Message("non-bool used as if condition"));
          }
          cond := b;
        }
        if cond {
          out := Block(br.block);
          return;
        }
        k := k + 1;
      }
      out := Ok(());
    }

    /** `forStmt`: dispatches on the header; the earlier revision has only the range form. */
    method ForStmt(n: Ast.StmtNode) returns (out: Outcome<()>)
      requires n.ForStmt?
      modifies this
      ensures Exec.Run(out, Snapshot()) == Exec.ExecFor(m, n, old(Snapshot()))
      decreases n, 1
    {
      match n.header
      case Range(_) => out := ForStmtRange(n);
      case ForScan(_) =>
        if m.rev == Earlier {
          return Fail(Runtime(NilDeref));
        }
        out := ForStmtScan(n, false);
      case ForScanln(_) =>
        if m.rev == Earlier {
          return Fail(Runtime(NilDeref));
        }
        out := ForStmtScan(n, true);
    }

    /** `forStmtRange`: both bounds once, then the body for each index from low up to high - 1. */
    method ForStmtRange(n: Ast.StmtNode) returns (out: Outcome<()>)
      requires n.ForStmt? && n.header.Range?
      modifies this
      ensures Exec.Run(out, Snapshot()) == Exec.ExecFor(m, n, old(Snapshot()))
      decreases n, 0
    {
      var rc := n.header.clause;
      var l := EvalExpr(Ctx(), rc.low);
      if !l.Ok? {
        return if l.Fail? then Fail(l.err) else Crash(l.reason);
      }
      var (lo, lok) := ToInt(l.value);
      if !lok {
        return Fail(Message("invalid loop bound"));
      }
      var h := EvalExpr(Ctx(), rc.high);
      if !h.Ok? {
        return if h.Fail? then Fail(h.err) else Crash(h.reason);
      }
      var (hi, hok) := ToInt(h.value);
      if !hok {
        return Fail(Message("invalid loop bound"));
      }
      var i := lo;
      while i < hi
        invariant Exec.ExecFor(m, n, old(Snapshot())) == Exec.RangeLoop(m, n, i, hi, Snapshot())
        decreases hi - i
      {
        values := values[rc.index := VInt(i)];
        out := Block(n.body);
        if !out.Ok? {
          return;
        }
        i := i + 1;
      }
      out := Ok(());
    }

    /** `forStmtScan` / `forStmtlnScan`: scan then body, until the scan meets the end of input. */
    method ForStmtScan(n: Ast.StmtNode, line: bool) returns (out: Outcome<()>)
      requires n.ForStmt? && (if line then n.header.ForScanln? else n.header.ForScan?)
      modifies this
      ensures Exec.Run(out, Snapshot()) == Exec.ScanLoop(m, n, line, old(Snapshot()))
      decreases n, 0
    {
      var s := if line then n.header.scanln else n.header.scan;
      while true
        invariant Exec.ScanLoop(m, n, line, old(Snapshot())) == Exec.ScanLoop(m, n, line, Snapshot())
        decreases Exec.Remaining(m, pos)
      {
        ghost var before := Snapshot();
        out := ScanStmt(s, line);
        if out.Fail? && out.err.UnexpectedEOF? {
          return Ok(());
        }
        if !out.Ok? {
          return;
        }
        out := Block(n.body);
        if !out.Ok? {
          return;
        }
        assert Exec.Remaining(m, pos) < Exec.Remaining(m, before.pos);
      }
    }

    /** `eolStmt`: fails unless the reader is at the end of a line. */
    method EolStmt(p: Ast.Pos) returns (out: Outcome<()>)
      modifies this
      ensures Exec.Run(out, Snapshot()) == Exec.Eol(m, p, old(Snapshot()))
    {
      var at := m.input.atEOL(pos);
      var got := m.input.got(pos);
      var cur := m.input.cursor(pos);
      pos := pos + 1;
      match at
      case Fail(e) => out := Fail(e);
      case Crash(s) => out := Crash(s);
      case Ok(b) =>
        if b {
          out := Ok(());
        } else if m.rev == Current {
          out := Fail(ExpectedEOL(CursorOf(p), got, cur));
        } else {
          out := Fail(ExpectedEOL(CursorOf(p), [], NoPos));
        }
    }

    /** `eofStmt`: fails, with the trailing token, unless the reader is at the end of input. */
    method EofStmt(p: Ast.Pos) returns (out: Outcome<()>)
      modifies this
      ensures Exec.Run(out, Snapshot()) == Exec.Eof(m, p, old(Snapshot()))
    {
      var at := m.input.atEOF(pos);
      var got := m.input.got(pos);
      pos := pos + 1;
      match at
      case Fail(e) => out := Fail(e);
      case Crash(s) => out := Crash(s);
      case Ok(b) => out := if b then Ok(()) else Fail(ExpectedEOF(CursorOf(p), got));
    }
  }

  /** A resolution result with `prefix` put in front of its path. */
  function Extend(prefix: seq<int>, r: Outcome<(seq<int>, Value)>): Outcome<(seq<int>, Value)>
  {
    match r
    case Ok(p) => Ok((prefix + p.0, p.1))
    case Fail(e) => Fail(e)
    case Crash(s) => Crash(s)
  }

  lemma ExtendEmpty(r: Outcome<(seq<int>, Value)>)
    ensures Extend([], r) == r
  {
    if r.Ok? {
      assert [] + r.value.0 == r.value.0;
    }
  }

  lemma ExtendStep(prefix: seq<int>, i: int, r: Outcome<(seq<int>, Value)>)
    ensures Extend(prefix, match r case Ok(p) => Ok(([i] + p.0, p.1)) case Fail(e) => Fail(e) case Crash(s) => Crash(s))
      == Extend(prefix + [i], r)
  {
    if r.Ok? {
      assert prefix + ([i] + r.value.0) == (prefix + [i]) + r.value.0;
    }
  }

  lemma {:induction false} PathStep(v: Value, path: seq<int>, i: int)
    requires ValidPath(v, path) && At(v, path).VArray? && 0 <= i < |At(v, path).elems|
    ensures ValidPath(v, path + [i]) && At(v, path + [i]) == At(v, path).elems[i]
    decreases |path|
  {
    if |path| > 0 {
      PathStep(v.elems[path[0]], path[1..], i);
      assert (path + [i])[1..] == path[1..] + [i];
    }
  }

  /** `Evaluate` of eval/evaluator.go: the values on success, nothing but the error on failure. */
  method Evaluate(m: Exec.Machine, src: Ast.Source) returns (r: Outcome<Env>)
    requires m.rev == Current
    ensures r == Exec.Evaluate(m, src)
  {
    if m.input.openErr.Some? {
      return Fail(m.input.openErr.value);
    }
    var e := new Evaluator(m);
    var out := e.Block(src.block);
    match out
    case Ok(_) => r := Ok(e.values);
    case Fail(err) => r := Fail(err);
    case Crash(s) => r := Crash(s);
  }

  /** `Evaluate` of eval/eval.go: the evaluator is returned together with the error, if any. */
  method EvaluateEarlier(m: Exec.Machine, src: Ast.Source) returns (e: Evaluator, out: Outcome<()>)
    requires m.rev == Earlier
    ensures (e.values, out) == Exec.EvaluateEarlier(m, src)
  {
    e := new Evaluator(m);
    out := e.Block(src.block);
  }
}
