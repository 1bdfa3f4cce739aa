/**
 * The Python 3 backend's analysis pass (gen/py3/analyze.go).  `findBlockEOLs`
 * marks every block that holds an `eol`; then a walk over the source runs the
 * four recognisers on every block it reaches, in the order multiVar,
 * onlyToken, arrayLine, sameLine.  The Go analyzer is an object whose map
 * fields the closures update; here its state is threaded through the walk.
 */
module Analyze {
  import opened Wrappers
  import opened Errors
  import opened Ast
  import opened Walk
  import opened Optimization
  import MultiVar
  import OnlyToken
  import ArrayLine
  import SameLine

  // ---------------------------------------------------------------------------
  // findBlockEOLs

  /** The closure's state: the stack of nodes being inspected, and the ids of the blocks marked so far. */
  datatype Finder = Finder(stack: seq<Node>, eols: set<nat>)

  /** The ids of the blocks on a stack. */
  function BlockIds(stack: seq<Node>): set<nat>
  {
    set i | 0 <= i < |stack| && stack[i].NBlock? :: stack[i].block.id
  }

  /**
   * The Inspect closure of `findBlockEOLs`.  As written (`intoBranches` false)
   * an `*IfBranch` is neither pushed nor descended into; the corrected closure
   * treats it as it treats a loop.  A `Visit(nil)` pops; on an empty stack that
   * slice expression panics.
   */
  function FindVisit(intoBranches: bool, s: Finder, n: Option<Node>): Outcome<(Finder, bool)>
  {
    match n
    case None =>
      if |s.stack| == 0 then Crash("slice bounds out of range")
      else Ok((s.(stack := s.stack[..|s.stack| - 1]), false))
    case Some(node) =>
      if node.NSource? || node.NBlock? || node.NStatement? ||
         (node.NAlt? && (node.alt.ForStmt? || node.alt.IfStmt?)) ||
         (intoBranches && node.NIfBranch?)
      then Ok((s.(stack := s.stack + [node]), true))
      else if node.NAlt? && node.alt.EOLStmt? then Ok((s.(eols := s.eols + BlockIds(s.stack)), false))
      else Ok((s, false))
  }

  function Finding(intoBranches: bool): (Finder, Option<Node>) -> Outcome<(Finder, bool)>
  {
    (s: Finder, n: Option<Node>) => FindVisit(intoBranches, s, n)
  }

  /** `findBlockEOLs` as written. */
  function FindBlockEOLsAsWritten(src: Source): Outcome<set<nat>>
  {
    match Inspect(Finding(false), Finder([], {}), SourceTree(src))
    case Ok(f) => Ok(f.eols)
    case Fail(e) => Fail(e)
    case Crash(m) => Crash(m)
  }

  /** `findBlockEOLs` with `*ast.IfBranch` among the nodes it pushes and descends into. */
  function FindBlockEOLs(src: Source): Outcome<set<nat>>
  {
    match Inspect(Finding(true), Finder([], {}), SourceTree(src))
    case Ok(f) => Ok(f.eols)
    case Fail(e) => Fail(e)
    case Crash(m) => Crash(m)
  }

  lemma BlockIdsPush(stack: seq<Node>, x: Node)
    ensures BlockIds(stack + [x]) == BlockIds(stack) + (if x.NBlock? then {x.block.id} else {})
  {
    var s2 := stack + [x];
    forall id | id in BlockIds(s2)
      ensures id in BlockIds(stack) + (if x.NBlock? then {x.block.id} else {})
    {
      var i :| 0 <= i < |s2| && s2[i].NBlock? && s2[i].block.id == id;
      if i < |stack| {
        assert stack[i] == s2[i];
      }
    }
    forall id | id in BlockIds(stack)
      ensures id in BlockIds(s2)
    {
      var i :| 0 <= i < |stack| && stack[i].NBlock? && stack[i].block.id == id;
      assert s2[i] == stack[i];
    }
    if x.NBlock? {
      assert s2[|stack|] == x;
    }
  }

  /**
   * Whether an eol stands in the block or in one of its loops' bodies, at any
   * depth, and with `br` also in one of its branches.
   */
  predicate EolIn(br: bool, b: Block)
    decreases b, 1
  {
    exists i :: 0 <= i < |b.statements| && EolInNode(br, b.statements[i].node)
  }

  predicate EolInNode(br: bool, n: StmtNode)
    decreases n, 0
  {
    match n
    case EOLStmt(_) => true
    case ForStmt(_, body) => EolIn(br, body)
    case IfStmt(branches) => br && exists j :: 0 <= j < |branches| && EolIn(br, branches[j].block)
    case _ => false
  }

  /** Whether block c is b or nested in it, through loop bodies and, with `br`, if branches. */
  ghost predicate Within(br: bool, c: Block, b: Block)
    decreases b, 1
  {
    c == b || exists i :: 0 <= i < |b.statements| && WithinNode(br, c, b.statements[i].node)
  }

  ghost predicate WithinNode(br: bool, c: Block, n: StmtNode)
    decreases n, 0
  {
    match n
    case ForStmt(_, body) => Within(br, c, body)
    case IfStmt(branches) => br && exists j :: 0 <= j < |branches| && Within(br, c, branches[j].block)
    case _ => false
  }

  // The walk over a block restores the stack and only adds marks; with the
  // corrected closure it marks every block on the stack and every nested
  // block that holds an eol.

  ghost predicate Restored(s: Finder, r: Outcome<Finder>)
  {
    r.Ok? && r.value.stack == s.stack && s.eols <= r.value.eols
  }

  // Each lemma below takes the nested block c whose mark it establishes as a
  // parameter, so that its contract holds no quantifier.

  lemma {:induction false} KeepsBlock(br: bool, s: Finder, b: Block, c: Block)
    ensures Restored(s, Inspect(Finding(br), s, BlockTree(b)))
    ensures br && EolIn(br, b) ==> BlockIds(s.stack) + {b.id} <= Inspect(Finding(br), s, BlockTree(b)).value.eols
    ensures br && Within(br, c, b) && EolIn(br, c) ==> c.id in Inspect(Finding(br), s, BlockTree(b)).value.eols
    decreases b, 3
  {
    var g := Inspector(Finding(br));
    var t := BlockTree(b);
    var s1 := s.(stack := s.stack + [NBlock(b)]);
    assert g(s, (), Some(t.node)) == Ok((s1, Some(())));
    KeepsStatements(br, s1, b, 0, c);
    BlockIdsPush(s.stack, NBlock(b));
    var r := WalkChildren(g, (), s1, t, 0);
    assert s1.stack[..|s1.stack| - 1] == s.stack;
    assert g(r.value, (), None) == Ok((r.value.(stack := s.stack), None));
    assert EolIn(br, b) ==> EolFrom(br, b, 0);
    assert Within(br, c, b) ==> c == b || WithinFrom(br, c, b, 0);
  }

  /** Some statement of b from the k-th on holds an eol. */
  ghost predicate EolFrom(br: bool, b: Block, k: nat)
  {
    exists i :: k <= i < |b.statements| && EolInNode(br, b.statements[i].node)
  }

  /** Block c is nested in some statement of b from the k-th on. */
  ghost predicate WithinFrom(br: bool, c: Block, b: Block, k: nat)
  {
    exists i :: k <= i < |b.statements| && WithinNode(br, c, b.statements[i].node)
  }

  lemma FromStep(br: bool, c: Block, b: Block, k: nat)
    requires k < |b.statements|
    ensures EolFrom(br, b, k) <==> EolInNode(br, b.statements[k].node) || EolFrom(br, b, k + 1)
    ensures WithinFrom(br, c, b, k) <==> WithinNode(br, c, b.statements[k].node) || WithinFrom(br, c, b, k + 1)
  {
    if EolFrom(br, b, k) {
      var i :| k <= i < |b.statements| && EolInNode(br, b.statements[i].node);
      assert i == k || (k + 1 <= i < |b.statements| && EolInNode(br, b.statements[i].node));
    }
    if WithinFrom(br, c, b, k) {
      var i :| k <= i < |b.statements| && WithinNode(br, c, b.statements[i].node);
      assert i == k || (k + 1 <= i < |b.statements| && WithinNode(br, c, b.statements[i].node));
    }
  }

  lemma {:induction false} KeepsStatements(br: bool, s: Finder, b: Block, k: nat, c: Block)
    requires k <= |b.statements|
    ensures Restored(s, WalkChildren(Inspector(Finding(br)), (), s, BlockTree(b), k))
    ensures br && EolFrom(br, b, k) ==>
      BlockIds(s.stack) <= WalkChildren(Inspector(Finding(br)), (), s, BlockTree(b), k).value.eols
    ensures br && WithinFrom(br, c, b, k) && EolIn(br, c) ==>
      c.id in WalkChildren(Inspector(Finding(br)), (), s, BlockTree(b), k).value.eols
    decreases b, 2, |b.statements| - k
  {
    if k < |b.statements| {
      var g := Inspector(Finding(br));
      var t := BlockTree(b);
      var st := b.statements[k];
      assert t.children[k] == StatementTree(st);
      KeepsStatement(br, s, st, c);
      var r := Walk.Walk(g, (), s, StatementTree(st));
      KeepsStatements(br, r.value, b, k + 1, c);
      assert WalkChildren(g, (), s, t, k) == WalkChildren(g, (), r.value, t, k + 1);
      FromStep(br, c, b, k);
    }
  }

  lemma {:induction false} KeepsStatement(br: bool, s: Finder, st: Statement, c: Block)
    ensures Restored(s, Walk.Walk(Inspector(Finding(br)), (), s, StatementTree(st)))
    ensures br && EolInNode(br, st.node) ==> BlockIds(s.stack) <= Walk.Walk(Inspector(Finding(br)), (), s, StatementTree(st)).value.eols
    ensures br && WithinNode(br, c, st.node) && EolIn(br, c) ==> c.id in Walk.Walk(Inspector(Finding(br)), (), s, StatementTree(st)).value.eols
    decreases st, 3
  {
    var g := Inspector(Finding(br));
    var t := StatementTree(st);
    var s1 := s.(stack := s.stack + [NStatement(st)]);
    assert g(s, (), Some(t.node)) == Ok((s1, Some(())));
    KeepsAlt(br, s1, st.id, st.node, c);
    BlockIdsPush(s.stack, NStatement(st));
    var r := Walk.Walk(g, (), s1, AltTree(st.id, st.node));
    assert WalkChildren(g, (), r.value, t, 1) == r;
    assert WalkChildren(g, (), s1, t, 0) == r;
    ScopeClosed(br, s, t, r.value);
  }

  /** A node the finder pushed is popped once its children are walked, whatever they marked. */
  lemma ScopeClosed(br: bool, s: Finder, t: Tree, r: Finder)
    requires Inspector(Finding(br))(s, (), Some(t.node)) == Ok((s.(stack := s.stack + [t.node]), Some(())))
    requires WalkChildren(Inspector(Finding(br)), (), s.(stack := s.stack + [t.node]), t, 0) == Ok(r)
    requires r.stack == s.stack + [t.node] && t.panic == None
    ensures Walk.Walk(Inspector(Finding(br)), (), s, t) == Ok(r.(stack := s.stack))
  {
    var g := Inspector(Finding(br));
    assert r.stack[..|r.stack| - 1] == s.stack;
    assert g(r, (), None) == Ok((r.(stack := s.stack), None));
  }

  lemma {:induction false} KeepsAlt(br: bool, s: Finder, o: nat, n: StmtNode, c: Block)
    ensures Restored(s, Walk.Walk(Inspector(Finding(br)), (), s, AltTree(o, n)))
    ensures br && EolInNode(br, n) ==> BlockIds(s.stack) <= Walk.Walk(Inspector(Finding(br)), (), s, AltTree(o, n)).value.eols
    ensures br && WithinNode(br, c, n) && EolIn(br, c) ==> c.id in Walk.Walk(Inspector(Finding(br)), (), s, AltTree(o, n)).value.eols
    decreases n, 4
  {
    var g := Inspector(Finding(br));
    var t := AltTree(o, n);
    match n
    case ForStmt(h, body) => KeepsFor(br, s, o, h, body, c);
    case IfStmt(branches) =>
      KeepsIf(br, s, o, branches, c);
      assert EolInNode(br, n) ==> EolInBranches(br, branches, 0);
      assert WithinNode(br, c, n) ==> WithinBranches(br, c, branches, 0);
    case EOLStmt(_) =>
      assert g(s, (), Some(t.node)) == Ok((s.(eols := s.eols + BlockIds(s.stack)), None));
    case _ =>
      assert g(s, (), Some(t.node)) == Ok((s, None));
  }

  lemma {:induction false} KeepsFor(br: bool, s: Finder, o: nat, h: ForHeader, body: Block, c: Block)
    ensures Restored(s, Walk.Walk(Inspector(Finding(br)), (), s, AltTree(o, ForStmt(h, body))))
    ensures br && EolIn(br, body) ==> BlockIds(s.stack) <= Walk.Walk(Inspector(Finding(br)), (), s, AltTree(o, ForStmt(h, body))).value.eols
    ensures br && Within(br, c, body) && EolIn(br, c) ==> c.id in Walk.Walk(Inspector(Finding(br)), (), s, AltTree(o, ForStmt(h, body))).value.eols
    decreases ForStmt(h, body), 3
  {
    var g := Inspector(Finding(br));
    var t := AltTree(o, ForStmt(h, body));
    var s1 := s.(stack := s.stack + [t.node]);
    assert g(s, (), Some(t.node)) == Ok((s1, Some(())));
    assert t.children == [RangeTree(h), BlockTree(body)];
    assert g(s1, (), Some(RangeTree(h).node)) == Ok((s1, None));
    WalkSkipThenBlock(g, (), s1, t, body);
    KeepsBlock(br, s1, body, c);
    BlockIdsPush(s.stack, t.node);
    var r := Walk.Walk(g, (), s1, BlockTree(body));
    ScopeClosed(br, s, t, r.value);
  }

  lemma {:induction false} KeepsIf(br: bool, s: Finder, o: nat, branches: seq<IfBranch>, c: Block)
    ensures Restored(s, Walk.Walk(Inspector(Finding(br)), (), s, AltTree(o, IfStmt(branches))))
    ensures br && EolInBranches(br, branches, 0) ==> BlockIds(s.stack) <= Walk.Walk(Inspector(Finding(br)), (), s, AltTree(o, IfStmt(branches))).value.eols
    ensures br && WithinBranches(br, c, branches, 0) && EolIn(br, c) ==> c.id in Walk.Walk(Inspector(Finding(br)), (), s, AltTree(o, IfStmt(branches))).value.eols
    decreases IfStmt(branches), 3
  {
    var g := Inspector(Finding(br));
    var t := AltTree(o, IfStmt(branches));
    var s1 := s.(stack := s.stack + [t.node]);
    assert g(s, (), Some(t.node)) == Ok((s1, Some(())));
    KeepsBranches(br, s1, o, branches, 0, c);
    BlockIdsPush(s.stack, t.node);
    var r := WalkChildren(g, (), s1, t, 0);
    ScopeClosed(br, s, t, r.value);
  }

  /** Some branch from the k-th on holds an eol. */
  ghost predicate EolInBranches(br: bool, branches: seq<IfBranch>, k: nat)
  {
    exists j :: k <= j < |branches| && EolIn(br, branches[j].block)
  }

  /** Block c is nested in some branch from the k-th on. */
  ghost predicate WithinBranches(br: bool, c: Block, branches: seq<IfBranch>, k: nat)
  {
    exists j :: k <= j < |branches| && Within(br, c, branches[j].block)
  }

  lemma BranchesStep(br: bool, c: Block, branches: seq<IfBranch>, k: nat)
    requires k < |branches|
    ensures EolInBranches(br, branches, k) <==> EolIn(br, branches[k].block) || EolInBranches(br, branches, k + 1)
    ensures WithinBranches(br, c, branches, k) <==> Within(br, c, branches[k].block) || WithinBranches(br, c, branches, k + 1)
  {
    if EolInBranches(br, branches, k) {
      var j :| k <= j < |branches| && EolIn(br, branches[j].block);
      assert j == k || (k + 1 <= j < |branches| && EolIn(br, branches[j].block));
    }
    if WithinBranches(br, c, branches, k) {
      var j :| k <= j < |branches| && Within(br, c, branches[j].block);
      assert j == k || (k + 1 <= j < |branches| && Within(br, c, branches[j].block));
    }
  }

  lemma {:induction false} KeepsBranches(br: bool, s: Finder, o: nat, branches: seq<IfBranch>, k: nat, c: Block)
    requires k <= |branches|
    ensures Restored(s, WalkChildren(Inspector(Finding(br)), (), s, AltTree(o, IfStmt(branches)), k))
    ensures br && EolInBranches(br, branches, k) ==>
      BlockIds(s.stack) <= WalkChildren(Inspector(Finding(br)), (), s, AltTree(o, IfStmt(branches)), k).value.eols
    ensures br && WithinBranches(br, c, branches, k) && EolIn(br, c) ==>
      c.id in WalkChildren(Inspector(Finding(br)), (), s, AltTree(o, IfStmt(branches)), k).value.eols
    decreases IfStmt(branches), 2, |branches| - k
  {
    var g := Inspector(Finding(br));
    var t := AltTree(o, IfStmt(branches));
    if k < |branches| {
      assert t.children[k] == BranchTree(branches[k]);
      KeepsBranch(br, s, branches[k], c);
      var r := Walk.Walk(g, (), s, BranchTree(branches[k]));
      KeepsBranches(br, r.value, o, branches, k + 1, c);
      WalkChildrenStep(g, (), s, t, k, r.value);
      var rest := WalkChildren(g, (), r.value, t, k + 1);
      assert WalkChildren(g, (), s, t, k) == rest;
      RestoredTrans(s, r, rest);
      BranchesStep(br, c, branches, k);
      if br && WithinBranches(br, c, branches, k) && EolIn(br, c) {
        if Within(br, c, branches[k].block) {
          assert c.id in r.value.eols;
        } else {
          assert WithinBranches(br, c, branches, k + 1);
        }
        assert c.id in rest.value.eols;
      }
    } else {
      assert |t.children| == k;
      assert WalkChildren(g, (), s, t, k) == Ok(s);
      assert !EolInBranches(br, branches, k) && !WithinBranches(br, c, branches, k);
    }
  }

  lemma RestoredTrans(s: Finder, r1: Outcome<Finder>, r2: Outcome<Finder>)
    requires Restored(s, r1) && Restored(r1.value, r2)
    ensures Restored(s, r2) && r1.value.eols <= r2.value.eols
  {
  }

  lemma {:induction false} KeepsBranch(br: bool, s: Finder, x: IfBranch, c: Block)
    ensures Restored(s, Walk.Walk(Inspector(Finding(br)), (), s, BranchTree(x)))
    ensures br && EolIn(br, x.block) ==> BlockIds(s.stack) <= Walk.Walk(Inspector(Finding(br)), (), s, BranchTree(x)).value.eols
    ensures br && Within(br, c, x.block) && EolIn(br, c) ==> c.id in Walk.Walk(Inspector(Finding(br)), (), s, BranchTree(x)).value.eols
    decreases x, 3
  {
    var g := Inspector(Finding(br));
    var t := BranchTree(x);
    if br {
      var s1 := s.(stack := s.stack + [t.node]);
      assert g(s, (), Some(t.node)) == Ok((s1, Some(())));
      var e := t.children[0];
      assert g(s1, (), Some(e.node)) == Ok((s1, None));
      WalkSkipThenBlock(g, (), s1, t, x.block);
      KeepsBlock(br, s1, x.block, c);
      BlockIdsPush(s.stack, t.node);
      var r := Walk.Walk(g, (), s1, BlockTree(x.block));
      ScopeClosed(br, s, t, r.value);
    } else {
      assert g(s, (), Some(t.node)) == Ok((s, None));
    }
  }

  /**
   * The finder never pops an empty stack, as written or corrected; the
   * corrected finder marks every block of the source that holds an eol, in
   * itself, a loop body or a branch.
   */
  lemma FindBlockEOLsMarks(src: Source)
    ensures FindBlockEOLsAsWritten(src).Ok? && FindBlockEOLs(src).Ok?
    ensures forall c :: Within(true, c, src.block) && EolIn(true, c) ==> c.id in FindBlockEOLs(src).value
  {
    KeepsSource(false, src, src.block);
    KeepsSource(true, src, src.block);
    forall c | Within(true, c, src.block) && EolIn(true, c)
      ensures c.id in FindBlockEOLs(src).value
    {
      KeepsSource(true, src, c);
    }
  }

  lemma KeepsSource(br: bool, src: Source, c: Block)
    ensures Restored(Finder([], {}), Inspect(Finding(br), Finder([], {}), SourceTree(src)))
    ensures br && Within(br, c, src.block) && EolIn(br, c) ==> c.id in Inspect(Finding(br), Finder([], {}), SourceTree(src)).value.eols
  {
    var g := Inspector(Finding(br));
    var s := Finder([], {});
    var t := SourceTree(src);
    var s1 := s.(stack := s.stack + [t.node]);
    assert g(s, (), Some(t.node)) == Ok((s1, Some(())));
    KeepsBlock(br, s1, src.block, c);
    var r := Walk.Walk(g, (), s1, BlockTree(src.block));
    assert WalkChildren(g, (), r.value, t, 1) == r;
    assert WalkChildren(g, (), s1, t, 0) == r;
    assert g(r.value, (), None) == Ok((r.value.(stack := []), None));
  }

  // The converse: every id the walk adds is the id of a block on the stack,
  // when the walked part holds an eol, or of a nested block that holds one.
  // Each lemma below takes the id in question as a parameter.

  /** Some block nested in b (b itself included) holds an eol and has this id. */
  ghost predicate MarkedIn(br: bool, id: nat, b: Block)
  {
    exists c :: Within(br, c, b) && EolIn(br, c) && c.id == id
  }

  ghost predicate MarkedInNode(br: bool, id: nat, n: StmtNode)
  {
    exists c :: WithinNode(br, c, n) && EolIn(br, c) && c.id == id
  }

  ghost predicate MarkedFrom(br: bool, id: nat, b: Block, k: nat)
  {
    exists c :: WithinFrom(br, c, b, k) && EolIn(br, c) && c.id == id
  }

  ghost predicate MarkedInBranches(id: nat, branches: seq<IfBranch>, k: nat)
  {
    exists c :: WithinBranches(true, c, branches, k) && EolIn(true, c) && c.id == id
  }

  lemma {:induction false} SoundBlock(br: bool, s: Finder, b: Block, id: nat)
    ensures var r := Inspect(Finding(br), s, BlockTree(b));
      r.Ok? && (id in r.value.eols ==> id in s.eols || (EolIn(br, b) && id in BlockIds(s.stack)) || MarkedIn(br, id, b))
    decreases b, 3
  {
    var g := Inspector(Finding(br));
    var t := BlockTree(b);
    var s1 := s.(stack := s.stack + [NBlock(b)]);
    assert g(s, (), Some(t.node)) == Ok((s1, Some(())));
    KeepsStatements(br, s1, b, 0, b);
    SoundStatements(br, s1, b, 0, id);
    BlockIdsPush(s.stack, NBlock(b));
    var r := WalkChildren(g, (), s1, t, 0);
    assert s1.stack[..|s1.stack| - 1] == s.stack;
    assert g(r.value, (), None) == Ok((r.value.(stack := s.stack), None));
    if id in r.value.eols && id !in s.eols {
      assert EolFrom(br, b, 0) ==> EolIn(br, b);
      if MarkedFrom(br, id, b, 0) {
        var c :| WithinFrom(br, c, b, 0) && EolIn(br, c) && c.id == id;
        assert Within(br, c, b);
      } else if id !in BlockIds(s.stack) {
        assert id == b.id && EolIn(br, b) && Within(br, b, b);
      }
    }
  }

  lemma {:induction false} SoundStatements(br: bool, s: Finder, b: Block, k: nat, id: nat)
    requires k <= |b.statements|
    ensures var r := WalkChildren(Inspector(Finding(br)), (), s, BlockTree(b), k);
      r.Ok? && (id in r.value.eols ==> id in s.eols || (EolFrom(br, b, k) && id in BlockIds(s.stack)) || MarkedFrom(br, id, b, k))
    decreases b, 2, |b.statements| - k
  {
    if k < |b.statements| {
      var g := Inspector(Finding(br));
      var t := BlockTree(b);
      var st := b.statements[k];
      assert t.children[k] == StatementTree(st);
      SoundStatement(br, s, st, id);
      KeepsStatement(br, s, st, b);
      var r := Walk.Walk(g, (), s, StatementTree(st));
      SoundStatements(br, r.value, b, k + 1, id);
      WalkChildrenStep(g, (), s, t, k, r.value);
      MarkedFromStep(br, id, b, k);
      var rest := WalkChildren(g, (), r.value, t, k + 1);
      MarksChain(id, s.eols, r.value.eols, rest.value.eols, BlockIds(s.stack),
        EolInNode(br, st.node), MarkedInNode(br, id, st.node), EolFrom(br, b, k + 1), MarkedFrom(br, id, b, k + 1),
        EolFrom(br, b, k), MarkedFrom(br, id, b, k));
    } else {
      assert WalkChildren(Inspector(Finding(br)), (), s, BlockTree(b), k) == Ok(s);
    }
  }

  /** Two walks in a row add only what each of them may add. */
  lemma MarksChain(x: nat, e0: set<nat>, e1: set<nat>, e2: set<nat>, ids: set<nat>,
                   p1: bool, m1: bool, p2: bool, m2: bool, p: bool, m: bool)
    requires x in e1 ==> x in e0 || (p1 && x in ids) || m1
    requires x in e2 ==> x in e1 || (p2 && x in ids) || m2
    requires (p1 || p2 ==> p) && (m1 || m2 ==> m)
    ensures x in e2 ==> x in e0 || (p && x in ids) || m
  {
  }

  lemma MarkedFromStep(br: bool, id: nat, b: Block, k: nat)
    requires k < |b.statements|
    ensures EolInNode(br, b.statements[k].node) || EolFrom(br, b, k + 1) ==> EolFrom(br, b, k)
    ensures MarkedInNode(br, id, b.statements[k].node) || MarkedFrom(br, id, b, k + 1) ==> MarkedFrom(br, id, b, k)
  {
    FromStep(br, b, b, k);
    if MarkedInNode(br, id, b.statements[k].node) {
      var c :| WithinNode(br, c, b.statements[k].node) && EolIn(br, c) && c.id == id;
      FromStep(br, c, b, k);
    }
    if MarkedFrom(br, id, b, k + 1) {
      var c :| WithinFrom(br, c, b, k + 1) && EolIn(br, c) && c.id == id;
      FromStep(br, c, b, k);
    }
  }

  lemma {:induction false} SoundStatement(br: bool, s: Finder, st: Statement, id: nat)
    ensures var r := Walk.Walk(Inspector(Finding(br)), (), s, StatementTree(st));
      r.Ok? && (id in r.value.eols ==> id in s.eols || (EolInNode(br, st.node) && id in BlockIds(s.stack)) || MarkedInNode(br, id, st.node))
    decreases st, 3
  {
    var g := Inspector(Finding(br));
    var t := StatementTree(st);
    var s1 := s.(stack := s.stack + [NStatement(st)]);
    assert g(s, (), Some(t.node)) == Ok((s1, Some(())));
    KeepsAlt(br, s1, st.id, st.node, Block(0, []));
    SoundAlt(br, s1, st.id, st.node, id);
    BlockIdsPush(s.stack, NStatement(st));
    var r := Walk.Walk(g, (), s1, AltTree(st.id, st.node));
    assert WalkChildren(g, (), r.value, t, 1) == r;
    assert WalkChildren(g, (), s1, t, 0) == r;
    ScopeClosed(br, s, t, r.value);
  }

  lemma {:induction false} SoundAlt(br: bool, s: Finder, o: nat, n: StmtNode, id: nat)
    ensures var r := Walk.Walk(Inspector(Finding(br)), (), s, AltTree(o, n));
      r.Ok? && (id in r.value.eols ==> id in s.eols || (EolInNode(br, n) && id in BlockIds(s.stack)) || MarkedInNode(br, id, n))
    decreases n, 4
  {
    var g := Inspector(Finding(br));
    var t := AltTree(o, n);
    KeepsAlt(br, s, o, n, Block(0, []));
    match n
    case ForStmt(h, body) =>
      SoundFor(br, s, o, h, body, id);
      if MarkedIn(br, id, body) {
        var c :| Within(br, c, body) && EolIn(br, c) && c.id == id;
        assert WithinNode(br, c, n);
      }
    case IfStmt(branches) =>
      if br {
        SoundIf(s, o, branches, id);
        assert EolInBranches(true, branches, 0) ==> EolInNode(br, n);
        if MarkedInBranches(id, branches, 0) {
          var c :| WithinBranches(true, c, branches, 0) && EolIn(true, c) && c.id == id;
          assert WithinNode(br, c, n);
        }
      } else {
        AsWrittenSkipsIf(s, o, branches);
      }
    case EOLStmt(_) =>
      assert g(s, (), Some(t.node)) == Ok((s.(eols := s.eols + BlockIds(s.stack)), None));
    case _ =>
      assert g(s, (), Some(t.node)) == Ok((s, None));
  }

  lemma {:induction false} SoundFor(br: bool, s: Finder, o: nat, h: ForHeader, body: Block, id: nat)
    ensures var r := Walk.Walk(Inspector(Finding(br)), (), s, AltTree(o, ForStmt(h, body)));
      r.Ok? && (id in r.value.eols ==> id in s.eols || (EolIn(br, body) && id in BlockIds(s.stack)) || MarkedIn(br, id, body))
    decreases ForStmt(h, body), 3
  {
    var g := Inspector(Finding(br));
    var t := AltTree(o, ForStmt(h, body));
    var s1 := s.(stack := s.stack + [t.node]);
    assert g(s, (), Some(t.node)) == Ok((s1, Some(())));
    assert t.children == [RangeTree(h), BlockTree(body)];
    assert g(s1, (), Some(RangeTree(h).node)) == Ok((s1, None));
    WalkSkipThenBlock(g, (), s1, t, body);
    SoundBlock(br, s1, body, id);
    KeepsBlock(br, s1, body, body);
    BlockIdsPush(s.stack, t.node);
    var r := Walk.Walk(g, (), s1, BlockTree(body));
    ScopeClosed(br, s, t, r.value);
  }

  lemma {:induction false} SoundIf(s: Finder, o: nat, branches: seq<IfBranch>, id: nat)
    ensures var r := Walk.Walk(Inspector(Finding(true)), (), s, AltTree(o, IfStmt(branches)));
      r.Ok? && (id in r.value.eols ==> id in s.eols || (EolInBranches(true, branches, 0) && id in BlockIds(s.stack)) || MarkedInBranches(id, branches, 0))
    decreases IfStmt(branches), 3
  {
    var g := Inspector(Finding(true));
    var t := AltTree(o, IfStmt(branches));
    var s1 := s.(stack := s.stack + [t.node]);
    assert g(s, (), Some(t.node)) == Ok((s1, Some(())));
    KeepsBranches(true, s1, o, branches, 0, Block(0, []));
    SoundBranches(s1, o, branches, 0, id);
    BlockIdsPush(s.stack, t.node);
    var r := WalkChildren(g, (), s1, t, 0);
    ScopeClosed(true, s, t, r.value);
  }

  lemma {:induction false} SoundBranches(s: Finder, o: nat, branches: seq<IfBranch>, k: nat, id: nat)
    requires k <= |branches|
    ensures var r := WalkChildren(Inspector(Finding(true)), (), s, AltTree(o, IfStmt(branches)), k);
      r.Ok? && (id in r.value.eols ==> id in s.eols || (EolInBranches(true, branches, k) && id in BlockIds(s.stack)) || MarkedInBranches(id, branches, k))
    decreases IfStmt(branches), 2, |branches| - k
  {
    var g := Inspector(Finding(true));
    var t := AltTree(o, IfStmt(branches));
    if k < |branches| {
      assert t.children[k] == BranchTree(branches[k]);
      SoundBranch(s, branches[k], id);
      KeepsBranch(true, s, branches[k], Block(0, []));
      var r := Walk.Walk(g, (), s, BranchTree(branches[k]));
      SoundBranches(r.value, o, branches, k + 1, id);
      WalkChildrenStep(g, (), s, t, k, r.value);
      MarkedBranchesStep(id, branches, k);
      var rest := WalkChildren(g, (), r.value, t, k + 1);
      MarksChain(id, s.eols, r.value.eols, rest.value.eols, BlockIds(s.stack),
        EolIn(true, branches[k].block), MarkedIn(true, id, branches[k].block),
        EolInBranches(true, branches, k + 1), MarkedInBranches(id, branches, k + 1),
        EolInBranches(true, branches, k), MarkedInBranches(id, branches, k));
    } else {
      assert |t.children| == k;
      assert WalkChildren(g, (), s, t, k) == Ok(s);
    }
  }

  lemma MarkedBranchesStep(id: nat, branches: seq<IfBranch>, k: nat)
    requires k < |branches|
    ensures EolIn(true, branches[k].block) || EolInBranches(true, branches, k + 1) ==> EolInBranches(true, branches, k)
    ensures MarkedIn(true, id, branches[k].block) || MarkedInBranches(id, branches, k + 1) ==> MarkedInBranches(id, branches, k)
  {
    BranchesStep(true, Block(0, []), branches, k);
    if MarkedIn(true, id, branches[k].block) {
      var c :| Within(true, c, branches[k].block) && EolIn(true, c) && c.id == id;
      BranchesStep(true, c, branches, k);
    }
    if MarkedInBranches(id, branches, k + 1) {
      var c :| WithinBranches(true, c, branches, k + 1) && EolIn(true, c) && c.id == id;
      BranchesStep(true, c, branches, k);
    }
  }

  lemma {:induction false} SoundBranch(s: Finder, x: IfBranch, id: nat)
    ensures var r := Walk.Walk(Inspector(Finding(true)), (), s, BranchTree(x));
      r.Ok? && (id in r.value.eols ==> id in s.eols || (EolIn(true, x.block) && id in BlockIds(s.stack)) || MarkedIn(true, id, x.block))
    decreases x, 3
  {
    var g := Inspector(Finding(true));
    var t := BranchTree(x);
    var s1 := s.(stack := s.stack + [t.node]);
    assert g(s, (), Some(t.node)) == Ok((s1, Some(())));
    var e := t.children[0];
    assert g(s1, (), Some(e.node)) == Ok((s1, None));
    WalkSkipThenBlock(g, (), s1, t, x.block);
    SoundBlock(true, s1, x.block, id);
    KeepsBlock(true, s1, x.block, x.block);
    BlockIdsPush(s.stack, t.node);
    var r := Walk.Walk(g, (), s1, BlockTree(x.block));
    ScopeClosed(true, s, t, r.value);
  }

  /**
   * Conversely, every id either finder marks is the id of a block of the
   * source that holds an eol: as written, one reached through loop bodies
   * with the eol in itself or a loop body; corrected, through branches too.
   */
  lemma FindBlockEOLsSound(src: Source, id: nat)
    ensures FindBlockEOLsAsWritten(src).Ok? && (id in FindBlockEOLsAsWritten(src).value ==> MarkedIn(false, id, src.block))
    ensures FindBlockEOLs(src).Ok? && (id in FindBlockEOLs(src).value ==> MarkedIn(true, id, src.block))
  {
    SoundSource(false, src, id);
    SoundSource(true, src, id);
  }

  lemma SoundSource(br: bool, src: Source, id: nat)
    ensures var r := Inspect(Finding(br), Finder([], {}), SourceTree(src));
      r.Ok? && (id in r.value.eols ==> MarkedIn(br, id, src.block))
  {
    var g := Inspector(Finding(br));
    var s := Finder([], {});
    var t := SourceTree(src);
    var s1 := s.(stack := s.stack + [t.node]);
    assert g(s, (), Some(t.node)) == Ok((s1, Some(())));
    KeepsBlock(br, s1, src.block, src.block);
    SoundBlock(br, s1, src.block, id);
    assert BlockIds(s1.stack) == {};
    var r := Walk.Walk(g, (), s1, BlockTree(src.block));
    assert WalkChildren(g, (), r.value, t, 1) == r;
    assert WalkChildren(g, (), s1, t, 0) == r;
    assert g(r.value, (), None) == Ok((r.value.(stack := []), None));
  }

  /** What the finder as written marks, the corrected finder marks too. */
  lemma AsWrittenMarksFewer(src: Source)
    ensures FindBlockEOLsAsWritten(src).Ok? && FindBlockEOLs(src).Ok?
    ensures FindBlockEOLsAsWritten(src).value <= FindBlockEOLs(src).value
  {
    FindBlockEOLsMarks(src);
    forall id | id in FindBlockEOLsAsWritten(src).value
      ensures id in FindBlockEOLs(src).value
    {
      FindBlockEOLsSound(src, id);
      var c :| Within(false, c, src.block) && EolIn(false, c) && c.id == id;
      WithinWidens(c, src.block);
      EolWidens(c);
    }
  }

  /** Nesting through loops only is nesting. */
  lemma {:induction false} WithinWidens(c: Block, b: Block)
    ensures Within(false, c, b) ==> Within(true, c, b)
    decreases b, 1
  {
    if Within(false, c, b) && c != b {
      var i :| 0 <= i < |b.statements| && WithinNode(false, c, b.statements[i].node);
      WithinNodeWidens(c, b.statements[i].node);
    }
  }

  lemma {:induction false} WithinNodeWidens(c: Block, n: StmtNode)
    ensures WithinNode(false, c, n) ==> WithinNode(true, c, n)
    decreases n, 0
  {
    if n.ForStmt? {
      WithinWidens(c, n.body);
    }
  }

  /** An eol found through loops only is found. */
  lemma {:induction false} EolWidens(b: Block)
    ensures EolIn(false, b) ==> EolIn(true, b)
    decreases b, 1
  {
    if EolIn(false, b) {
      var i :| 0 <= i < |b.statements| && EolInNode(false, b.statements[i].node);
      EolNodeWidens(b.statements[i].node);
    }
  }

  lemma {:induction false} EolNodeWidens(n: StmtNode)
    ensures EolInNode(false, n) ==> EolInNode(true, n)
    decreases n, 0
  {
    if n.ForStmt? {
      EolWidens(n.body);
    }
  }

  /** As written, the finder steps over an if statement without looking at its branches. */
  lemma {:induction false} AsWrittenSkipsIf(s: Finder, o: nat, branches: seq<IfBranch>)
    ensures Inspect(Finding(false), s, AltTree(o, IfStmt(branches))) == Ok(s)
  {
    var g := Inspector(Finding(false));
    var t := AltTree(o, IfStmt(branches));
    var s1 := s.(stack := s.stack + [t.node]);
    assert g(s, (), Some(t.node)) == Ok((s1, Some(())));
    SkipsBranches(s1, o, branches, 0);
    assert s1.stack[..|s1.stack| - 1] == s.stack;
    assert g(s1, (), None) == Ok((s, None));
  }

  lemma {:induction false} SkipsBranches(s: Finder, o: nat, branches: seq<IfBranch>, k: nat)
    requires k <= |branches|
    ensures WalkChildren(Inspector(Finding(false)), (), s, AltTree(o, IfStmt(branches)), k) == Ok(s)
    decreases |branches| - k
  {
    var g := Inspector(Finding(false));
    var t := AltTree(o, IfStmt(branches));
    IfTreeChildren(o, branches);
    if k < |branches| {
      BranchDeclined(s, branches[k]);
      WalkPruned(g, (), s, t.children[k], s);
      WalkChildrenStep(g, (), s, t, k, s);
      SkipsBranches(s, o, branches, k + 1);
    }
  }

  /** As written, the finder neither pushes nor enters an if branch. */
  lemma BranchDeclined(s: Finder, br: IfBranch)
    ensures Inspector(Finding(false))(s, (), Some(NIfBranch(br))) == Ok((s, None))
  {
    assert FindVisit(false, s, Some(NIfBranch(br))) == Ok((s, false));
  }

  /** A source whose only eol stands in the else branch of its only statement. */
  function BranchEolSource(p: Pos): Source
  {
    Source(Block(1, [Statement(2, p, IfStmt([IfBranch(None, Block(3, [Statement(4, p, EOLStmt(p))]))]))]))
  }

  /**
   * As written, `findBlockEOLs` marks no block of that source, though block 3
   * holds an eol; the corrected finder marks it.
   */
  lemma {:induction false} IfBranchEolMissed(p: Pos)
    ensures var src := BranchEolSource(p);
      Within(true, Block(3, [Statement(4, p, EOLStmt(p))]), src.block) && EolIn(true, Block(3, [Statement(4, p, EOLStmt(p))])) &&
      FindBlockEOLsAsWritten(src) == Ok({}) && FindBlockEOLs(src).Ok? && 3 in FindBlockEOLs(src).value
  {
    var src := BranchEolSource(p);
    var inner := Block(3, [Statement(4, p, EOLStmt(p))]);
    var st := src.block.statements[0];
    assert EolInNode(true, inner.statements[0].node);
    assert Within(true, inner, inner);
    assert st.node.branches[0].block == inner;
    assert WithinNode(true, inner, st.node);
    FindBlockEOLsMarks(src);
    AsWrittenMarksNothing(p);
  }

  lemma {:induction false} AsWrittenMarksNothing(p: Pos)
    ensures FindBlockEOLsAsWritten(BranchEolSource(p)) == Ok({})
  {
    var src := BranchEolSource(p);
    var st := src.block.statements[0];
    var g := Inspector(Finding(false));
    var s1 := Finder([NSource(src)], {});
    var s2 := Finder([NSource(src), NBlock(src.block)], {});
    var s3 := Finder([NSource(src), NBlock(src.block), NStatement(st)], {});
    AsWrittenSkipsIf(s3, st.id, st.node.branches);
    var ts := StatementTree(st);
    assert s2.stack + [NStatement(st)] == s3.stack;
    assert g(s2, (), Some(NStatement(st))) == Ok((s3, Some(())));
    assert WalkChildren(g, (), s3, ts, 1) == Ok(s3);
    assert WalkChildren(g, (), s3, ts, 0) == Ok(s3);
    assert s3.stack[..|s3.stack| - 1] == s2.stack;
    assert g(s3, (), None) == Ok((s2, None));
    assert Walk.Walk(g, (), s2, ts) == Ok(s2);
    StepBlock(src, s1, s2);
  }

  lemma {:induction false} StepBlock(src: Source, s1: Finder, s2: Finder)
    requires |src.block.statements| == 1 && s1 == Finder([NSource(src)], {}) && s2 == Finder([NSource(src), NBlock(src.block)], {})
    requires Walk.Walk(Inspector(Finding(false)), (), s2, StatementTree(src.block.statements[0])) == Ok(s2)
    ensures FindBlockEOLsAsWritten(src) == Ok({})
  {
    var g := Inspector(Finding(false));
    var tb := BlockTree(src.block);
    assert s1.stack + [NBlock(src.block)] == s2.stack;
    assert g(s1, (), Some(NBlock(src.block))) == Ok((s2, Some(())));
    assert WalkChildren(g, (), s2, tb, 1) == Ok(s2);
    assert WalkChildren(g, (), s2, tb, 0) == Ok(s2);
    assert s2.stack[..|s2.stack| - 1] == s1.stack;
    assert g(s2, (), None) == Ok((s1, None));
    assert Walk.Walk(g, (), s1, tb) == Ok(s1);
    var t := SourceTree(src);
    assert [] + [NSource(src)] == s1.stack;
    assert FindVisit(false, Finder([], {}), Some(NSource(src))) == Ok((s1, true));
    assert g(Finder([], {}), (), Some(NSource(src))) == Ok((s1, Some(())));
    assert WalkChildren(g, (), s1, t, 1) == Ok(s1);
    assert WalkChildren(g, (), s1, t, 0) == Ok(s1);
    assert g(s1, (), None) == Ok((Finder([], {}), None));
  }

  // ---------------------------------------------------------------------------
  // The analyzer

  /** The analyzer's two maps: the replacements registered so far and the marked blocks. */
  datatype Analysis = Analysis(ozs: Registry, blockEOLs: set<nat>)

  /** The four recognisers, in the order `analyzer.Visit` runs them on a block. */
  function AnalyzeBlock(ozs: Registry, blockEOLs: set<nat>, b: Block): Outcome<Registry>
  {
    match MultiVar.Run(ozs, b)
    case Fail(e) => Fail(e)
    case Crash(m) => Crash(m)
    case Ok(o1) =>
      match OnlyToken.Run(o1, b)
      case Fail(e) => Fail(e)
      case Crash(m) => Crash(m)
      case Ok(o2) =>
        match ArrayLine.Run(o2, b)
        case Fail(e) => Fail(e)
        case Crash(m) => Crash(m)
        case Ok(o3) => SameLine.Run(o3, blockEOLs, b)
  }

  /** `analyzer.Visit`: descend through sources, statements, loops, ifs and branches; run the recognisers on each block. */
  function AnalyzerVisit(a: Analysis, n: Option<Node>): Outcome<(Analysis, bool)>
  {
    match n
    case None => Ok((a, false))
    case Some(node) =>
      if node.NBlock? then
        match AnalyzeBlock(a.ozs, a.blockEOLs, node.block)
        case Ok(o) => Ok((a.(ozs := o), true))
        case Fail(e) => Fail(e)
        case Crash(m) => Crash(m)
      else if node.NSource? || node.NStatement? || node.NIfBranch? ||
              (node.NAlt? && (node.alt.ForStmt? || node.alt.IfStmt?))
      then Ok((a, true))
      else Ok((a, false))
  }

  /** `ast.Walk(&a, n)` once the block marks are known. */
  function AnalyzeWith(blockEOLs: set<nat>, src: Source): Outcome<Analysis>
  {
    Inspect(AnalyzerVisit, Analysis(map[], blockEOLs), SourceTree(src))
  }

  /** `analyze` with the corrected `findBlockEOLs`. */
  function Analyze(src: Source): Outcome<Analysis>
  {
    match FindBlockEOLs(src)
    case Ok(eols) => AnalyzeWith(eols, src)
    case Fail(e) => Fail(e)
    case Crash(m) => Crash(m)
  }

  /** `analyze` as written. */
  function AnalyzeAsWritten(src: Source): Outcome<Analysis>
  {
    match FindBlockEOLsAsWritten(src)
    case Ok(eols) => AnalyzeWith(eols, src)
    case Fail(e) => Fail(e)
    case Crash(m) => Crash(m)
  }

  /** Every sameLine replacement is keyed by its own scan statement. */
  ghost predicate SameLineWf(ozs: Registry)
  {
    forall k :: k in ozs && ozs[k].SameLineOz? ==> ozs[k].scan.id == k
  }

  /** What each registered replacement needs for its code generator: the conjunction of the recognisers' invariants. */
  ghost predicate Wf(ozs: Registry)
  {
    MultiVar.Wf(ozs) && OnlyToken.Wf(ozs) && ArrayLine.Wf(ozs) && SameLineWf(ozs)
  }

  /** The sameLine recogniser keeps the other recognisers' entries that it does not replace, and its own invariant. */
  lemma SameLineKeepsWf(ozs: Registry, blockEOLs: set<nat>, b: Block)
    requires Wf(ozs)
    ensures SameLine.Run(ozs, blockEOLs, b).Ok? && Wf(SameLine.Run(ozs, blockEOLs, b).value)
  {
    SameLine.RunMarks(ozs, blockEOLs, b);
    if b.id !in blockEOLs {
      var m := SameLine.Marked(ozs, b.statements);
      forall k | k in m
        ensures (k in ozs && m[k] == ozs[k]) || (m[k].SameLineOz? && m[k].scan.id == k)
      {
        SameLine.MarkedEntries(ozs, b.statements, k);
      }
    }
  }

  /** The multiVar recogniser keeps the invariant. */
  lemma MultiVarKeepsWf(ozs: Registry, b: Block)
    requires Wf(ozs)
    ensures MultiVar.Run(ozs, b).Ok? ==> Wf(MultiVar.Run(ozs, b).value)
  {
    MultiVar.RunKeepsWf(ozs, b);
    MultiVar.RunWrites(ozs, b);
  }

  /** The onlyToken recogniser keeps the invariant. */
  lemma OnlyTokenKeepsWf(ozs: Registry, b: Block)
    requires Wf(ozs)
    ensures OnlyToken.Run(ozs, b).Ok? ==> Wf(OnlyToken.Run(ozs, b).value)
  {
    OnlyToken.RunKeepsWf(ozs, b);
    OnlyToken.RunWrites(ozs, b);
  }

  /** The arrayLine recogniser keeps the invariant. */
  lemma ArrayLineKeepsWf(ozs: Registry, b: Block)
    requires Wf(ozs)
    ensures ArrayLine.Run(ozs, b).Ok? ==> Wf(ArrayLine.Run(ozs, b).value)
  {
    ArrayLine.RunKeepsWf(ozs, b);
    ArrayLine.RunWrites(ozs, b);
  }

  /** Each block's analysis keeps the invariant. */
  lemma AnalyzeBlockKeepsWf(ozs: Registry, blockEOLs: set<nat>, b: Block)
    requires Wf(ozs)
    ensures AnalyzeBlock(ozs, blockEOLs, b).Ok? ==> Wf(AnalyzeBlock(ozs, blockEOLs, b).value)
  {
    MultiVarKeepsWf(ozs, b);
    var r1 := MultiVar.Run(ozs, b);
    if r1.Ok? {
      OnlyTokenKeepsWf(r1.value, b);
      var r2 := OnlyToken.Run(r1.value, b);
      if r2.Ok? {
        ArrayLineKeepsWf(r2.value, b);
        var r3 := ArrayLine.Run(r2.value, b);
        if r3.Ok? {
          SameLineKeepsWf(r3.value, blockEOLs, b);
        }
      }
    }
  }

  /** Every replacement the analysis registers satisfies its recogniser's invariant, whatever the block marks. */
  lemma AnalyzeWithWf(blockEOLs: set<nat>, src: Source)
    ensures AnalyzeWith(blockEOLs, src).Ok? ==> Wf(AnalyzeWith(blockEOLs, src).value.ozs)
  {
    var inv := (a: Analysis) => Wf(a.ozs);
    forall a': Analysis, v': (), n: Option<Node> | inv(a') && Inspector(AnalyzerVisit)(a', v', n).Ok?
      ensures inv(Inspector(AnalyzerVisit)(a', v', n).value.0)
    {
      assert Inspector(AnalyzerVisit)(a', v', n).value.0 == AnalyzerVisit(a', n).value.0;
      if n.Some? && n.value.NBlock? {
        AnalyzeBlockKeepsWf(a'.ozs, a'.blockEOLs, n.value.block);
      }
    }
    WalkKeeps(Inspector(AnalyzerVisit), inv, (), Analysis(map[], blockEOLs), SourceTree(src));
  }

  /** The branch block of `BranchScanReplaced`: a one-target scan, then an eol. */
  function ScanEolBlock(p: Pos, x: string): Block
  {
    Block(3, [Statement(5, p, ScanStmt(Scan(p, [Reference(p, x, [])]))), Statement(4, p, EOLStmt(p))])
  }

  /** On that block multiVar and arrayLine register nothing and onlyToken registers the scan. */
  lemma {:induction false} ScanEolBeforeSameLine(p: Pos, x: string)
    ensures var b := ScanEolBlock(p, x);
      var sc := b.statements[0];
      var o2 := map[5 := OnlyTokenOz(ScanAt(5, sc.node.scan), 4)][4 := Noop];
      MultiVar.Run(map[], b) == Ok(map[]) && OnlyToken.Run(map[], b) == Ok(o2) && ArrayLine.Run(o2, b) == Ok(o2)
  {
    var b := ScanEolBlock(p, x);
    var sc := b.statements[0];
    var e := b.statements[1];
    ScanEolNoMultiVar(p, x);
    assert [sc] + [] + [e] == b.statements;
    OnlyToken.Fires(map[], 3, sc, [], e);
    ScanEolNoArrayLine(p, x, map[5 := OnlyTokenOz(ScanAt(5, sc.node.scan), 4)][4 := Noop]);
  }

  /** Without a var before it, multiVar passes over the scan and the eol. */
  lemma ScanEolNoMultiVar(p: Pos, x: string)
    ensures MultiVar.Run(map[], ScanEolBlock(p, x)) == Ok(map[])
  {
    var b := ScanEolBlock(p, x);
    var s := MultiVar.State(MultiVar.Zero, map[]);
    MultiVar.Transparent();
    InspectBlock(MultiVar.Visit, s, b, s);
    assert MultiVar.Visit(s, Some(NAlt(b.statements[0].id, b.statements[0].node))) == Ok((s, false));
    assert MultiVar.Visit(s, Some(NAlt(b.statements[1].id, b.statements[1].node))) == Ok((s, false));
    AltFoldUnchanged(MultiVar.Visit, s, b.statements);
  }

  /** Without a for loop before it, arrayLine passes over the scan and the eol. */
  lemma ScanEolNoArrayLine(p: Pos, x: string, ozs: Registry)
    ensures ArrayLine.Run(ozs, ScanEolBlock(p, x)) == Ok(ozs)
  {
    var b := ScanEolBlock(p, x);
    var s := ArrayLine.State(ArrayLine.Zero, ozs);
    ArrayLine.Transparent();
    InspectBlock(ArrayLine.Visit, s, b, s);
    assert ArrayLine.Visit(s, Some(NAlt(b.statements[0].id, b.statements[0].node))) == Ok((s, false));
    assert ArrayLine.Visit(s, Some(NAlt(b.statements[1].id, b.statements[1].node))) == Ok((s, false));
    AltFoldUnchanged(ArrayLine.Visit, s, b.statements);
  }

  /**
   * The consequence of the missed mark: in a branch block holding a
   * one-target scan and an eol, the onlyToken replacement registered for the
   * scan is overwritten by sameLine's when the block is not marked, and kept
   * when it is.
   */
  lemma {:induction false} BranchScanReplaced(p: Pos, x: string)
    ensures var b := ScanEolBlock(p, x);
      var unmarked := AnalyzeBlock(map[], {}, b);
      var marked := AnalyzeBlock(map[], {3}, b);
      unmarked.Ok? && 5 in unmarked.value && unmarked.value[5].SameLineOz? &&
      marked.Ok? && 5 in marked.value && marked.value[5].OnlyTokenOz?
  {
    var b := ScanEolBlock(p, x);
    var o2 := map[5 := OnlyTokenOz(ScanAt(5, b.statements[0].node.scan), 4)][4 := Noop];
    ScanEolReachesSameLine(p, x, {});
    ScanEolReachesSameLine(p, x, {3});
    SameLine.RunMarks(o2, {}, b);
    assert b.statements[0].id == 5 && b.statements[0].node.ScanStmt?;
    SameLine.MarkedEntries(o2, b.statements, 5);
    SameLine.RunMarks(o2, {3}, b);
    assert 5 in o2 && o2[5].OnlyTokenOz?;
  }

  /** On that block the analysis comes down to sameLine over onlyToken's registry. */
  lemma ScanEolReachesSameLine(p: Pos, x: string, blockEOLs: set<nat>)
    ensures var b := ScanEolBlock(p, x);
      AnalyzeBlock(map[], blockEOLs, b) ==
      SameLine.Run(map[5 := OnlyTokenOz(ScanAt(5, b.statements[0].node.scan), 4)][4 := Noop], blockEOLs, b)
  {
    ScanEolBeforeSameLine(p, x);
  }
}
