/**
 * Properties of the statement executors of eval/evaluator.go and eval/eval.go,
 * stated over the functions of module `Exec`.
 */
module ExecFacts {
  import opened Wrappers
  import opened Types
  import opened Errors
  import opened Coerce
  import opened Ast
  import opened Eval
  import opened Exec

  // ---------------------------------------------------------------------------
  // check

  /**
   * A check statement passes exactly when every clause, evaluated in order,
   * is the boolean `true`.
   */
  lemma {:induction false} CheckPassesIffAllTrue(m: Machine, n: CheckStmt, k: nat, st: State)
    requires k <= |n.exprList|
    ensures CheckClauses(m, n, k, st) == Ok(()) <==>
      forall i :: k <= i < |n.exprList| ==> EvalExpr(CtxOf(m, st), n.exprList[i]) == Ok(VBool(true))
    decreases |n.exprList| - k
  {
    if k < |n.exprList| {
      CheckPassesIffAllTrue(m, n, k + 1, st);
    }
  }

  /**
   * When the clauses before the j-th are `true` and the j-th evaluates to
   * anything else (a non-bool counts as false), the check fails naming clause
   * j + 1; the clauses after it are not evaluated.
   */
  lemma {:induction false} CheckFailsAtFirstFalseClause(m: Machine, n: CheckStmt, k: nat, j: nat, st: State, v: Value)
    requires k <= j < |n.exprList|
    requires forall i :: k <= i < j ==> EvalExpr(CtxOf(m, st), n.exprList[i]) == Ok(VBool(true))
    requires EvalExpr(CtxOf(m, st), n.exprList[j]) == Ok(v) && v != VBool(true)
    ensures CheckClauses(m, n, k, st) == Fail(CheckError(CursorOf(n.pos), j + 1, m.input.cursor(st.pos)))
    decreases j - k
  {
    if k < j {
      CheckFailsAtFirstFalseClause(m, n, k + 1, j, st, v);
    }
  }

  /** Clauses after a failing one never matter: a check depends only on the clauses up to its first failure. */
  lemma {:induction false} CheckIgnoresLaterClauses(m: Machine, n: CheckStmt, more: seq<Expr>, k: nat, st: State)
    requires k <= |n.exprList|
    requires !CheckClauses(m, n, k, st).Ok?
    ensures CheckClauses(m, n.(exprList := n.exprList + more), k, st) == CheckClauses(m, n, k, st)
    decreases |n.exprList| - k
  {
    var n' := n.(exprList := n.exprList + more);
    assert n'.exprList[k] == n.exprList[k];
    if EvalExpr(CtxOf(m, st), n.exprList[k]) == Ok(VBool(true)) {
      CheckIgnoresLaterClauses(m, n, more, k + 1, st);
    }
  }

  // ---------------------------------------------------------------------------
  // if

  /** A branch is taken when it has no condition or its condition is `true`. */
  predicate Taken(m: Machine, st: State, br: IfBranch)
  {
    br.condition.None? || EvalExpr(CtxOf(m, st), br.condition.value) == Ok(VBool(true))
  }

  /** A branch is passed over when its condition is `false`. */
  predicate Skipped(m: Machine, st: State, br: IfBranch)
  {
    br.condition.Some? && EvalExpr(CtxOf(m, st), br.condition.value) == Ok(VBool(false))
  }

  /** An if statement runs exactly the first taken branch, after skipping the ones before it. */
  lemma {:induction false} IfRunsFirstTakenBranch(m: Machine, n: StmtNode, k: nat, j: nat, st: State)
    requires n.IfStmt? && k <= j < |n.branches|
    requires forall i :: k <= i < j ==> Skipped(m, st, n.branches[i])
    requires Taken(m, st, n.branches[j])
    ensures ExecIf(m, n, k, st) == ExecBlock(m, n.branches[j].block, 0, st)
    decreases j - k
  {
    if k < j {
      assert Skipped(m, st, n.branches[k]);
      IfRunsFirstTakenBranch(m, n, k + 1, j, st);
    }
  }

  /** When every branch is skipped nothing happens. */
  lemma {:induction false} IfWithNoTakenBranch(m: Machine, n: StmtNode, k: nat, st: State)
    requires n.IfStmt? && k <= |n.branches|
    requires forall i :: k <= i < |n.branches| ==> Skipped(m, st, n.branches[i])
    ensures ExecIf(m, n, k, st) == Run(Ok(()), st)
    decreases |n.branches| - k
  {
    if k < |n.branches| {
      assert Skipped(m, st, n.branches[k]);
      IfWithNoTakenBranch(m, n, k + 1, st);
    }
  }

  // ---------------------------------------------------------------------------
  // var

  /** A scalar declaration binds every listed name to the zero of its kind and reads no input. */
  lemma {:induction false} ScalarDeclBindsZeros(m: Machine, spec: VarSpec, k: nat, st: State)
    requires k <= |spec.identList|
    requires spec.typ.TypeName? && spec.typ.name in ASTType
    ensures Declare(m, spec, k, st).out == Ok(())
    ensures forall i :: k <= i < |spec.identList| ==>
      Declare(m, spec, k, st).st.values[spec.identList[i]] == GoZero(ASTType[spec.typ.name])
    ensures forall x :: x in st.values && x !in spec.identList[k..] ==>
      Declare(m, spec, k, st).st.values[x] == st.values[x]
    decreases |spec.identList| - k
  {
    if k < |spec.identList| {
      var x := spec.identList[k];
      var st' := st.(values := st.values[x := GoZero(ASTType[spec.typ.name])]);
      ScalarDeclBindsZeros(m, spec, k + 1, st');
      forall y | y !in spec.identList[k..]
        ensures y != x && y !in spec.identList[k + 1..]
      {
        NotInSuffix(spec.identList, k, y);
      }
    }
  }

  /** What is missing from a suffix is neither its first element nor in the rest. */
  lemma NotInSuffix<T>(s: seq<T>, k: nat, y: T)
    requires k < |s| && y !in s[k..]
    ensures y != s[k] && y !in s[k + 1..]
  {
    assert s[k..] == [s[k]] + s[k + 1..];
  }

  /** The slice an array declaration of length l binds: l zeros of the element kind. */
  function ZeroSlice(l: nat, t: Type): (v: Value)
    ensures v.VArray? && |v.elems| == l && forall i :: 0 <= i < l ==> v.elems[i] == GoZero(t)
  {
    VArray(seq(l, _ => GoZero(t)))
  }

  /** `st` with each of `xs`, from the first, bound to `v`. */
  function BindEach(st: State, xs: seq<string>, v: Value): (r: State)
    ensures r.pos == st.pos
    ensures forall x :: x in r.values <==> x in st.values || x in xs
    ensures forall x :: x in xs ==> r.values[x] == v
    ensures forall x :: x in st.values && x !in xs ==> r.values[x] == st.values[x]
    decreases |xs|
  {
    if xs == [] then st
    else
      var r := BindEach(st.(values := st.values[xs[0] := v]), xs[1..], v);
      assert forall x :: x in xs ==> x == xs[0] || x in xs[1..];
      r
  }

  /**
   * An array declaration whose length evaluates to the `int` l >= 0, in the
   * state before each name is bound, binds every listed name to a slice of l
   * zeros of the element kind, keeps every other binding and reads no input.
   */
  lemma {:induction false} ArrayDeclBindsSlice(m: Machine, spec: VarSpec, k: nat, st: State, l: nat)
    requires k <= |spec.identList|
    requires spec.typ.TypeLit? && spec.typ.elementType.TypeName? && spec.typ.elementType.name in ASTType
    requires forall j :: k <= j < |spec.identList| ==>
      EvalExpr(CtxOf(m, BindEach(st, spec.identList[k..j], ZeroSlice(l, ASTType[spec.typ.elementType.name]))), spec.typ.arrayLength) == Ok(VInt(l))
    ensures Declare(m, spec, k, st) == Run(Ok(()), BindEach(st, spec.identList[k..], ZeroSlice(l, ASTType[spec.typ.elementType.name])))
    decreases |spec.identList| - k
  {
    var names, s := spec.identList, ZeroSlice(l, ASTType[spec.typ.elementType.name]);
    if k < |names| {
      var st1 := st.(values := st.values[names[k] := s]);
      assert names[k..k] == [];
      ArrayDeclStep(m, spec, k, st, l);
      var k1 := k + 1;
      forall j | k1 <= j < |names|
        ensures EvalExpr(CtxOf(m, BindEach(st1, names[k1..j], s)), spec.typ.arrayLength) == Ok(VInt(l))
      {
        BindEachFirst(st, names, k, j, s);
      }
      BindEachFirst(st, names, k, |names|, s);
      assert names[k..|names|] == names[k..] && names[k1..|names|] == names[k1..];
      ArrayDeclBindsSlice(m, spec, k1, st1, l);
    }
  }

  /** Binding the names from k to j is binding the k-th, then the rest. */
  lemma BindEachFirst(st: State, xs: seq<string>, k: nat, j: nat, v: Value)
    requires k < j <= |xs|
    ensures BindEach(st, xs[k..j], v) == BindEach(st.(values := st.values[xs[k] := v]), xs[k + 1..j], v)
  {
    assert xs[k..j][0] == xs[k] && xs[k..j][1..] == xs[k + 1..j];
  }

  /** A name whose length evaluates to the `int` l >= 0 is bound to l zeros before the next name. */
  lemma ArrayDeclStep(m: Machine, spec: VarSpec, k: nat, st: State, l: nat)
    requires k < |spec.identList|
    requires spec.typ.TypeLit? && spec.typ.elementType.TypeName? && spec.typ.elementType.name in ASTType
    requires EvalExpr(CtxOf(m, st), spec.typ.arrayLength) == Ok(VInt(l))
    ensures Declare(m, spec, k, st) ==
      Declare(m, spec, k + 1, st.(values := st.values[spec.identList[k] := ZeroSlice(l, ASTType[spec.typ.elementType.name])]))
  {
    assert VArray(seq(l, _ => GoZero(ASTType[spec.typ.elementType.name]))) == ZeroSlice(l, ASTType[spec.typ.elementType.name]);
  }

  /**
   * The length of the array declaration is checked at every name: a value
   * that is not an `int` (an `int64`, a float, a string or a bool alike) is
   * "invalid array bound", and a negative `int` panics in `reflect.MakeSlice`;
   * either way nothing more is bound.
   */
  lemma ArrayBoundChecked(m: Machine, spec: VarSpec, k: nat, st: State)
    requires k < |spec.identList| && spec.typ.TypeLit?
    ensures var e := EvalExpr(CtxOf(m, st), spec.typ.arrayLength);
      && (e.Ok? && !e.value.VInt? ==> Declare(m, spec, k, st) == Run(Fail(Message("invalid array bound")), st))
      && (e.Ok? && e.value.VInt? && e.value.i < 0 && spec.typ.elementType.TypeName? && spec.typ.elementType.name in ASTType ==>
            Declare(m, spec, k, st) == Run(Crash("reflect.MakeSlice: negative len"), st))
      && (e.Fail? ==> Declare(m, spec, k, st) == Run(Fail(e.err), st))
  {
  }

  /** An array whose length is an integer literal is rejected: the literal is an `int64`. */
  lemma LiteralArrayBoundRejected(m: Machine, x: string, p: Pos, len: int, elem: TypeSpec, st: State)
    ensures Declare(m, VarSpec([x], TypeLit(Bare(p, Plain(Primary(p, Lit(IntLit(len))))), elem)), 0, st).out
      == Fail(Message("invalid array bound"))
  {
    IntLiteralIsInt64(CtxOf(m, st), p, len);
  }

  // ---------------------------------------------------------------------------
  // scan

  /** `w` has the shape of `v`: the same kind and, for a slice, the same length and element shapes. */
  predicate SameShape(v: Value, w: Value)
  {
    TypeOf(v) == TypeOf(w) &&
    (v.VArray? ==> |v.elems| == |w.elems| && forall i :: 0 <= i < |v.elems| ==> SameShape(v.elems[i], w.elems[i]))
  }

  lemma {:induction false} SameShapeRefl(v: Value)
    ensures SameShape(v, v)
  {
    if v.VArray? {
      forall i | 0 <= i < |v.elems| {
        SameShapeRefl(v.elems[i]);
      }
    }
  }

  lemma {:induction false} SameShapeTrans(u: Value, v: Value, w: Value)
    requires SameShape(u, v) && SameShape(v, w)
    ensures SameShape(u, w)
  {
    if u.VArray? {
      forall i | 0 <= i < |u.elems| {
        SameShapeTrans(u.elems[i], v.elems[i], w.elems[i]);
      }
    }
  }

  /** Storing a scalar of the slot's own kind keeps the shape of the whole value. */
  lemma {:induction false} StoreKeepsShape(v: Value, path: seq<int>, x: Value)
    requires ValidPath(v, path) && !At(v, path).VArray? && TypeOf(x) == TypeOf(At(v, path))
    ensures SameShape(v, Store(v, path, x))
    decreases |path|
  {
    if |path| > 0 {
      var i := path[0];
      StoreKeepsShape(v.elems[i], path[1..], x);
      var w := Store(v, path, x);
      forall j | 0 <= j < |v.elems|
        ensures SameShape(v.elems[j], w.elems[j])
      {
        if j != i {
          SameShapeRefl(v.elems[j]);
        }
      }
    }
  }

  /** Every slot of `b` has the shape of the same slot in `a`, and there are no others. */
  predicate ShapesKept(a: Env, b: Env)
  {
    a.Keys == b.Keys && forall x :: x in a ==> SameShape(a[x], b[x])
  }

  lemma ShapesKeptRefl(a: Env)
    ensures ShapesKept(a, a)
  {
    forall x | x in a {
      SameShapeRefl(a[x]);
    }
  }

  lemma ShapesKeptTrans(a: Env, b: Env, c: Env)
    requires ShapesKept(a, b) && ShapesKept(b, c)
    ensures ShapesKept(a, c)
  {
    forall x | x in a
      ensures SameShape(a[x], c[x])
    {
      SameShapeTrans(a[x], b[x], c[x]);
    }
  }

  /** Storing a scalar of the slot's own kind into one variable keeps every variable's shape. */
  lemma StoreKeepsShapes(a: Env, y: string, path: seq<int>, x: Value)
    requires y in a && ValidPath(a[y], path) && !At(a[y], path).VArray? && TypeOf(x) == TypeOf(At(a[y], path))
    ensures ShapesKept(a, a[y := Store(a[y], path, x)])
  {
    ShapesKeptRefl(a);
    StoreKeepsShape(a[y], path, x);
  }

  /** The state after the k-th reference of a scan is read and stored, when it is. */
  ghost function Stored(m: Machine, line: bool, s: ScanStmt, k: nat, st: State): Option<(State, bool)>
    requires k < |s.refList|
  {
    var f := s.refList[k];
    if f.ident !in st.values then None
    else match Resolve(CtxOf(m, st), f, 0, st.values[f.ident], true)
      case Ok(p) =>
        (match SlotRead(p.1, line)
         case Some(rk) =>
           var rr := ReadAt(m.input, st.pos, rk);
           Some((State(st.values[f.ident := Store(st.values[f.ident], p.0, rr.value)], st.pos + 1), rr.status.ReadOk?))
         case None => None)
      case _ => None
  }

  /** One reference of a scan: nothing is stored, or a store is followed by the rest of the scan or by a stop. */
  lemma ScanStep(m: Machine, line: bool, s: ScanStmt, k: nat, st: State)
    requires k < |s.refList|
    ensures Stored(m, line, s, k, st).None? ==> ScanRefs(m, line, s, k, st).st == st
    ensures Stored(m, line, s, k, st).Some? && Stored(m, line, s, k, st).value.1 ==>
      ScanRefs(m, line, s, k, st) == ScanRefs(m, line, s, k + 1, Stored(m, line, s, k, st).value.0)
    ensures Stored(m, line, s, k, st).Some? && !Stored(m, line, s, k, st).value.1 ==>
      ScanRefs(m, line, s, k, st).st == Stored(m, line, s, k, st).value.0
  {
  }

  /** The store of one reference keeps every variable's shape. */
  lemma StoredShapes(m: Machine, line: bool, s: ScanStmt, k: nat, st: State)
    requires k < |s.refList| && Stored(m, line, s, k, st).Some?
    ensures ShapesKept(st.values, Stored(m, line, s, k, st).value.0.values)
  {
    var f := s.refList[k];
    var p := Resolve(CtxOf(m, st), f, 0, st.values[f.ident], true).value;
    var rk := SlotRead(p.1, line).value;
    StoreKeepsShapes(st.values, f.ident, p.0, ReadAt(m.input, st.pos, rk).value);
  }

  /**
   * Scanning never changes a variable's kind or an array's length, whether it
   * succeeds or stops at an error: it only overwrites scalars with values of
   * their own kind.
   */
  lemma {:induction false} ScanKeepsShapes(m: Machine, line: bool, s: ScanStmt, k: nat, st: State)
    requires k <= |s.refList|
    ensures ShapesKept(st.values, ScanRefs(m, line, s, k, st).st.values)
    decreases |s.refList| - k
  {
    ShapesKeptRefl(st.values);
    if k < |s.refList| {
      ScanStep(m, line, s, k, st);
      var o := Stored(m, line, s, k, st);
      if o.Some? {
        StoredShapes(m, line, s, k, st);
        if o.value.1 {
          ScanKeepsShapes(m, line, s, k + 1, o.value.0);
          ShapesKeptTrans(st.values, o.value.0.values, ScanRefs(m, line, s, k + 1, o.value.0).st.values);
        }
      }
    }
  }

  /** An unbound scan target is reported with the scan's position in the current revision only. */
  lemma ScanOfUnboundName(m: Machine, line: bool, s: ScanStmt, st: State)
    requires s.refList[0].ident !in st.values
    ensures ScanRefs(m, line, s, 0, st) ==
      Run(Fail(Undefined(if m.rev == Current then CursorOf(s.pos) else NoPos, s.refList[0].ident)), st)
  {
  }

  /**
   * Indexing a string element of an array picks one of its bytes: an index
   * outside the string is an invalid index, and the byte itself, a `uint8`,
   * cannot be scanned.  Nothing is read either way.
   */
  lemma ScanOfStringByte(m: Machine, line: bool, s: ScanStmt, st: State, i: int, j: int)
    requires var f := s.refList[0];
      && f.ident in st.values && st.values[f.ident].VArray? && |f.indices| == 2
      && 0 <= i < |st.values[f.ident].elems| && st.values[f.ident].elems[i].VString?
      && EvalExpr(CtxOf(m, st), f.indices[0]) == Ok(VInt(i)) && EvalExpr(CtxOf(m, st), f.indices[1]) == Ok(VInt(j))
    ensures var f := s.refList[0]; var n := |st.values[f.ident].elems[i].s|;
      ScanRefs(m, line, s, 0, st) ==
        Run(Fail(if j < 0 || j >= n then InvalidIndex(CursorOf(f.indices[1].pos), j, n) else CantScanType), st)
  {
    var f := s.refList[0];
    var c := CtxOf(m, st);
    var v := st.values[f.ident];
    var n := |v.elems[i].s|;
    var inner := if j < 0 || j >= n then InvalidIndex(CursorOf(f.indices[1].pos), j, n) else CantScanType;
    assert Resolve(c, f, 1, v.elems[i], false) == Fail(inner);
    assert Resolve(c, f, 0, v, true) == Fail(inner);
  }

  /**
   * A reader's error is returned as it is: `enrichError` sets the scan's
   * position on its own copy of the error, which it then drops.  The value
   * read is stored first.
   */
  lemma ScanReadErrorKept(m: Machine, line: bool, s: ScanStmt, st: State, p: (seq<int>, Value), rk: ReadKind, e: Error)
    requires var f := s.refList[0];
      && f.ident in st.values && Resolve(CtxOf(m, st), f, 0, st.values[f.ident], true) == Ok(p)
      && SlotRead(p.1, line) == Some(rk) && ReadAt(m.input, st.pos, rk).status == ReadErr(e)
    ensures var f := s.refList[0];
      ScanRefs(m, line, s, 0, st) ==
        Run(Fail(e), State(st.values[f.ident := Store(st.values[f.ident], p.0, ReadAt(m.input, st.pos, rk).value)], st.pos + 1))
  {
  }

  /** `scanln` only scans strings: any other slot cannot be scanned, and nothing is read. */
  lemma ScanlnRejectsNonString(m: Machine, s: ScanStmt, st: State)
    requires s.refList[0].ident in st.values && |s.refList[0].indices| == 0
    requires !st.values[s.refList[0].ident].VString?
    ensures ScanRefs(m, true, s, 0, st) == Run(Fail(CantScanType), st)
  {
  }

  // ---------------------------------------------------------------------------
  // for

  /** A range loop whose low bound is not below its high bound runs its body zero times. */
  lemma RangeLoopEmpty(m: Machine, n: StmtNode, lo: int, hi: int, st: State)
    requires n.ForStmt? && n.header.Range? && lo >= hi
    ensures RangeLoop(m, n, lo, hi, st) == Run(Ok(()), st)
  {
  }

  /** A scan loop whose header scan meets the end of input ends without error. */
  lemma ScanLoopEndsAtEOF(m: Machine, n: StmtNode, line: bool, st: State, p: Cursor)
    requires n.ForStmt? && (if line then n.header.ForScanln? else n.header.ForScan?)
    requires ScanRefs(m, line, if line then n.header.scanln else n.header.scan, 0, st).out == Fail(UnexpectedEOF(p))
    ensures ScanLoop(m, n, line, st).out == Ok(())
  {
  }

  /** The earlier revision knows only the range header: a scan header dereferences a nil range clause. */
  lemma EarlierRejectsScanHeaders(m: Machine, n: StmtNode, st: State)
    requires m.rev == Earlier && n.ForStmt? && !n.header.Range?
    ensures ExecFor(m, n, st) == Run(Fail(Runtime(NilDeref)), st)
  {
  }
}
