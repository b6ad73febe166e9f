/**
 * What the walk guarantees about scopes and about the statements it keeps.
 *
 * The central fact is `WalkEvolves`: visiting a statement changes the frames
 * below the innermost one only by removing names that a `del` inside it
 * deletes and by adding, to the global frame, names that a `global` inside it
 * declares. Everything about function and class scoping follows from it.
 */
module Properties {
  import opened Wrappers
  import opened Syntax
  import opened Scopes
  import opened Disambiguation

  // ---------------------------------------------------------------------
  // Summaries of a tree

  /** The names a `global` statement declares. */
  function GlobalDeclared(k: StmtKind): set<Ident>
  {
    if k.Global? then DeclaredNames(k.declared) else {}
  }

  /** The plain names a `del` statement deletes. */
  function DeletedTargets(targets: seq<Expression>): set<Ident>
  {
    set t | t in targets && t.Name? :: Some(t.id)
  }

  function Deleted(k: StmtKind): set<Ident>
  {
    if k.Delete? then DeletedTargets(k.targets) else {}
  }

  /** `f` collected over a statement and everything nested in it. */
  function Collected(f: StmtKind -> set<Ident>, s: Stmt): set<Ident>
    decreases s, 1
  {
    f(s.kind) + CollectedInside(f, s)
  }

  /** `f` collected over the suites of a statement. */
  function CollectedInside(f: StmtKind -> set<Ident>, s: Stmt): set<Ident>
    decreases s, 0
  {
    match s.kind
    case With(_, body) => CollectedBlock(f, body)
    case For(_, _, body, orelse) => CollectedBlock(f, body) + CollectedBlock(f, orelse)
    case FunctionDef(_, body) => CollectedBlock(f, body)
    case ClassDef(_, _, body) => CollectedBlock(f, body)
    case Try(body, handlers, orelse, finalbody) =>
      CollectedBlock(f, body) + CollectedHandlers(f, handlers) + CollectedBlock(f, orelse) + CollectedBlock(f, finalbody)
    case OtherStmt(_, body, orelse) => CollectedBlock(f, body) + CollectedBlock(f, orelse)
    case _ => {}
  }

  function CollectedBlock(f: StmtKind -> set<Ident>, ss: seq<Stmt>): set<Ident>
    decreases ss, 2
  {
    if ss == [] then {} else Collected(f, ss[0]) + CollectedBlock(f, ss[1..])
  }

  function CollectedHandlers(f: StmtKind -> set<Ident>, hs: seq<ExceptHandler>): set<Ident>
    decreases hs, 2
  {
    if hs == [] then {} else CollectedBlock(f, hs[0].body) + CollectedHandlers(f, hs[1..])
  }

  /** The names a statement's own header binds: assignment and loop targets,
      imports, `with ... as` targets, handler names, the defined name, and the
      names a `global` declares. */
  function HeaderNames(k: StmtKind): set<Ident>
  {
    match k
    case Assign(targets, _) => AssignedNames(targets)
    case Import(names) => ImportedNames(names)
    case ImportFrom(_, names) => ImportedNames(names)
    case With(items, _) => WithNames(items)
    case For(target, _, _, _) => TargetNames(target)
    case FunctionDef(name, _) => {Some(name)}
    case ClassDef(name, _, _) => {Some(name)}
    case Try(_, handlers, _, _) => HandlerNames(handlers)
    case Global(declared) => DeclaredNames(declared)
    case _ => {}
  }

  // ---------------------------------------------------------------------
  // How a stack may evolve

  /** `r` is `st` after a step that deletes only names in `deleted` and, below
      the innermost frame, adds only names in `globals`, and only to the global
      frame. The innermost frame may gain anything. */
  predicate Evolves(st: Stack, r: Stack, deleted: set<Ident>, globals: set<Ident>)
  {
    && |r| == |st|
    && (forall i :: 0 <= i < |st| ==> st[i] - deleted <= r[i])
    && (forall i :: 0 <= i < |st| - 1 ==> r[i] <= st[i] + (if i == 1 then globals else {}))
  }

  lemma EvolvesTrans(a: Stack, b: Stack, c: Stack, d1: set<Ident>, g1: set<Ident>, d2: set<Ident>, g2: set<Ident>)
    requires Evolves(a, b, d1, g1) && Evolves(b, c, d2, g2)
    ensures Evolves(a, c, d1 + d2, g1 + g2)
  {
    forall i | 0 <= i < |a| ensures a[i] - (d1 + d2) <= c[i] {
      assert a[i] - d1 <= b[i];
      assert b[i] - d2 <= c[i];
    }
    forall i | 0 <= i < |a| - 1 ensures c[i] <= a[i] + (if i == 1 then g1 + g2 else {}) {
      assert c[i] <= b[i] + (if i == 1 then g2 else {});
      assert b[i] <= a[i] + (if i == 1 then g1 else {});
    }
  }

  /** Removal takes the name out of at most one frame, changes no frame
      otherwise and adds nothing. */
  lemma RemoveInnermostFrames(st: Stack, x: Ident)
    ensures forall i :: 0 <= i < |st| ==> st[i] - {x} <= RemoveInnermost(st, x)[i] <= st[i]
    ensures forall i, j :: 0 <= i < j < |st| ==>
              RemoveInnermost(st, x)[i] == st[i] || RemoveInnermost(st, x)[j] == st[j]
  {
    if Bound(st, x) {
      var k := InnermostHolderOf(st, x);
      RemoveInnermostCases(st, x, k);
    } else {
      RemoveInnermostUnbound(st, x);
    }
  }

  /** `del` removes only the plain names among its targets and never adds a
      name. */
  lemma {:induction false} UnbindOnlyRemovesPlainNames(st: Stack, targets: seq<Expression>)
    ensures |Unbind(st, targets)| == |st|
    ensures forall i :: 0 <= i < |st| ==> st[i] - DeletedTargets(targets) <= Unbind(st, targets)[i] <= st[i]
  {
    if targets != [] {
      var init := targets[..|targets| - 1];
      var t := targets[|targets| - 1];
      UnbindOnlyRemovesPlainNames(st, init);
      assert DeletedTargets(init) <= DeletedTargets(targets) by {
        forall u | u in init ensures u in targets { }
      }
      if t.Name? {
        RemoveInnermostFrames(Unbind(st, init), Some(t.id));
        assert Some(t.id) in DeletedTargets(targets);
      }
    }
  }

  lemma AddTopEvolves(st: Stack, xs: set<Ident>)
    requires |st| > 0
    ensures Evolves(st, AddTop(st, xs), {}, {})
  {
  }

  lemma AddGlobalEvolves(st: Stack, xs: set<Ident>)
    requires |st| > 1
    ensures Evolves(st, AddGlobal(st, xs), {}, xs)
  {
  }

  /** A body visited in a frame of its own, which is then dropped, leaves the
      enclosing frames evolving as the body's walk lets them. */
  lemma ScopedEvolves(st: Stack, n: Ident, b: Stack, d: set<Ident>, g: set<Ident>)
    requires |st| > 0 && Evolves(Push(AddTop(st, {n})), b, d, g)
    ensures Evolves(st, Pop(b), d, g)
  {
    var p := Push(AddTop(st, {n}));
    forall i | 0 <= i < |st| ensures st[i] - d <= Pop(b)[i] {
      assert st[i] <= p[i];
      assert p[i] - d <= b[i];
    }
    forall i | 0 <= i < |st| - 1 ensures Pop(b)[i] <= st[i] + (if i == 1 then g else {}) {
      assert p[i] == st[i];
    }
  }

  // ---------------------------------------------------------------------
  // The walk evolves the stack

  lemma {:induction false} WalkEvolves(env: Env, s: Stmt, st: Stack)
    requires 2 <= |st| && ParserYieldsStatement(env.parse) && LinesWithin(s, |env.lines|)
    ensures Evolves(st, Walk(env, s, st).contexts, Collected(Deleted, s), Collected(GlobalDeclared, s))
    decreases s, 1
  {
    var o := Walk(env, s, st);
    var dIn, gIn := CollectedInside(Deleted, s), CollectedInside(GlobalDeclared, s);
    match s.kind
    case Expr(_) =>
    case Assign(targets, _) =>
      AddTopEvolves(st, AssignedNames(targets));
    case Import(names) =>
      AddTopEvolves(st, ImportedNames(names));
    case ImportFrom(_, names) =>
      AddTopEvolves(st, ImportedNames(names));
    case With(items, _) =>
      var st1 := AddTop(st, WithNames(items));
      AddTopEvolves(st, WithNames(items));
      GenericWalkEvolves(env, s, st1);
      EvolvesTrans(st, st1, o.contexts, {}, {}, dIn, gIn);
    case For(target, _, _, _) =>
      var st1 := AddTop(st, TargetNames(target));
      AddTopEvolves(st, TargetNames(target));
      GenericWalkEvolves(env, s, st1);
      EvolvesTrans(st, st1, o.contexts, {}, {}, dIn, gIn);
    case FunctionDef(name, _) =>
      var st1 := Push(AddTop(st, {Some(name)}));
      GenericWalkEvolves(env, s, st1);
      ScopedEvolves(st, Some(name), GenericWalk(env, s, st1).contexts, dIn, gIn);
    case ClassDef(name, _, _) =>
      var st1 := Push(AddTop(st, {Some(name)}));
      GenericWalkEvolves(env, s, st1);
      ScopedEvolves(st, Some(name), GenericWalk(env, s, st1).contexts, dIn, gIn);
    case Delete(targets) =>
      UnbindOnlyRemovesPlainNames(st, targets);
    case Try(_, handlers, _, _) =>
      var st1 := AddTop(st, HandlerNames(handlers));
      AddTopEvolves(st, HandlerNames(handlers));
      GenericWalkEvolves(env, s, st1);
      EvolvesTrans(st, st1, o.contexts, {}, {}, dIn, gIn);
    case Global(declared) =>
      AddGlobalEvolves(st, DeclaredNames(declared));
    case OtherStmt(_, _, _) =>
      GenericWalkEvolves(env, s, st);
  }

  lemma {:induction false} GenericWalkEvolves(env: Env, s: Stmt, st: Stack)
    requires 2 <= |st| && ParserYieldsStatement(env.parse) && LinesWithin(s, |env.lines|)
    ensures Evolves(st, GenericWalk(env, s, st).contexts, CollectedInside(Deleted, s), CollectedInside(GlobalDeclared, s))
    decreases s, 0
  {
    match s.kind
    case With(_, body) =>
      WalkBlockEvolves(env, body, st);
    case For(_, _, body, orelse) =>
      var b := WalkBlock(env, body, st);
      WalkBlockEvolves(env, body, st);
      WalkBlockEvolves(env, orelse, b.contexts);
      EvolvesTrans(st, b.contexts, WalkBlock(env, orelse, b.contexts).contexts,
        CollectedBlock(Deleted, body), CollectedBlock(GlobalDeclared, body),
        CollectedBlock(Deleted, orelse), CollectedBlock(GlobalDeclared, orelse));
    case FunctionDef(_, body) =>
      WalkBlockEvolves(env, body, st);
    case ClassDef(_, _, body) =>
      WalkBlockEvolves(env, body, st);
    case Try(body, handlers, orelse, finalbody) =>
      var b := WalkBlock(env, body, st);
      var h := WalkHandlers(env, handlers, b.contexts);
      var e := WalkBlock(env, orelse, h.contexts);
      var f := WalkBlock(env, finalbody, e.contexts);
      WalkBlockEvolves(env, body, st);
      WalkHandlersEvolves(env, handlers, b.contexts);
      WalkBlockEvolves(env, orelse, h.contexts);
      WalkBlockEvolves(env, finalbody, e.contexts);
      EvolvesTrans(st, b.contexts, h.contexts,
        CollectedBlock(Deleted, body), CollectedBlock(GlobalDeclared, body),
        CollectedHandlers(Deleted, handlers), CollectedHandlers(GlobalDeclared, handlers));
      EvolvesTrans(st, h.contexts, e.contexts,
        CollectedBlock(Deleted, body) + CollectedHandlers(Deleted, handlers),
        CollectedBlock(GlobalDeclared, body) + CollectedHandlers(GlobalDeclared, handlers),
        CollectedBlock(Deleted, orelse), CollectedBlock(GlobalDeclared, orelse));
      EvolvesTrans(st, e.contexts, f.contexts,
        CollectedBlock(Deleted, body) + CollectedHandlers(Deleted, handlers) + CollectedBlock(Deleted, orelse),
        CollectedBlock(GlobalDeclared, body) + CollectedHandlers(GlobalDeclared, handlers) + CollectedBlock(GlobalDeclared, orelse),
        CollectedBlock(Deleted, finalbody), CollectedBlock(GlobalDeclared, finalbody));
    case OtherStmt(_, body, orelse) =>
      var b := WalkBlock(env, body, st);
      WalkBlockEvolves(env, body, st);
      WalkBlockEvolves(env, orelse, b.contexts);
      EvolvesTrans(st, b.contexts, WalkBlock(env, orelse, b.contexts).contexts,
        CollectedBlock(Deleted, body), CollectedBlock(GlobalDeclared, body),
        CollectedBlock(Deleted, orelse), CollectedBlock(GlobalDeclared, orelse));
    case _ =>
  }

  lemma {:induction false} WalkBlockEvolves(env: Env, ss: seq<Stmt>, st: Stack)
    requires 2 <= |st| && ParserYieldsStatement(env.parse) && BlockLinesWithin(ss, |env.lines|)
    ensures Evolves(st, WalkBlock(env, ss, st).contexts, CollectedBlock(Deleted, ss), CollectedBlock(GlobalDeclared, ss))
    decreases ss, 2
  {
    if ss != [] {
      var h := Walk(env, ss[0], st);
      WalkEvolves(env, ss[0], st);
      WalkBlockEvolves(env, ss[1..], h.contexts);
      EvolvesTrans(st, h.contexts, WalkBlock(env, ss[1..], h.contexts).contexts,
        Collected(Deleted, ss[0]), Collected(GlobalDeclared, ss[0]),
        CollectedBlock(Deleted, ss[1..]), CollectedBlock(GlobalDeclared, ss[1..]));
    }
  }

  lemma {:induction false} WalkHandlersEvolves(env: Env, hs: seq<ExceptHandler>, st: Stack)
    requires 2 <= |st| && ParserYieldsStatement(env.parse) && HandlersLinesWithin(hs, |env.lines|)
    ensures Evolves(st, WalkHandlers(env, hs, st).contexts, CollectedHandlers(Deleted, hs), CollectedHandlers(GlobalDeclared, hs))
    decreases hs, 2
  {
    if hs != [] {
      var b := WalkBlock(env, hs[0].body, st);
      WalkBlockEvolves(env, hs[0].body, st);
      WalkHandlersEvolves(env, hs[1..], b.contexts);
      EvolvesTrans(st, b.contexts, WalkHandlers(env, hs[1..], b.contexts).contexts,
        CollectedBlock(Deleted, hs[0].body), CollectedBlock(GlobalDeclared, hs[0].body),
        CollectedHandlers(Deleted, hs[1..]), CollectedHandlers(GlobalDeclared, hs[1..]));
    }
  }

  // ---------------------------------------------------------------------
  // Consequences

  /** A name bound somewhere stays bound through a step that does not delete it. */
  lemma EvolvesKeepsBound(st: Stack, r: Stack, d: set<Ident>, g: set<Ident>, x: Ident)
    requires Evolves(st, r, d, g) && Bound(st, x) && x !in d
    ensures Bound(r, x)
  {
    var i :| 0 <= i < |st| && x in st[i];
    assert x in r[i];
  }

  /** Visiting a list of statements is visiting its two halves one after the
      other. */
  lemma {:induction false} WalkBlockAppend(env: Env, a: seq<Stmt>, b: seq<Stmt>, st: Stack)
    requires 2 <= |st| && ParserYieldsStatement(env.parse) && BlockLinesWithin(a + b, |env.lines|)
    ensures BlockLinesWithin(a, |env.lines|) && BlockLinesWithin(b, |env.lines|)
    ensures var ra := WalkBlock(env, a, st);
            var rb := WalkBlock(env, b, ra.contexts);
            WalkBlock(env, a + b, st) == Visited(ra.tree + rb.tree, rb.contexts)
    decreases |a|
  {
    assert forall i :: 0 <= i < |a| ==> (a + b)[i] == a[i];
    assert forall i :: 0 <= i < |b| ==> (a + b)[|a| + i] == b[i];
    if a != [] {
      assert (a + b)[0] == a[0] && (a + b)[1..] == a[1..] + b;
      var h := Walk(env, a[0], st);
      WalkBlockAppend(env, a[1..], b, h.contexts);
      var ra := WalkBlock(env, a[1..], h.contexts);
      var rb := WalkBlock(env, b, ra.contexts);
      assert [h.tree] + (ra.tree + rb.tree) == ([h.tree] + ra.tree) + rb.tree;
    } else {
      assert a + b == b;
      assert WalkBlock(env, a, st) == Visited([], st);
      assert [] + WalkBlock(env, b, st).tree == WalkBlock(env, b, st).tree;
    }
  }

  /** Visiting a statement leaves it at its line and column: only its suites,
      or for an expression statement its content, are replaced. */
  lemma WalkKeepsPosition(env: Env, s: Stmt, st: Stack)
    requires 2 <= |st| && ParserYieldsStatement(env.parse) && LinesWithin(s, |env.lines|)
    ensures Walk(env, s, st).tree.lineno == s.lineno
    ensures Walk(env, s, st).tree.colOffset == s.colOffset
  {
  }

  /** Every statement of a visited list keeps its line and column. */
  lemma {:induction false} WalkBlockKeepsPositions(env: Env, ss: seq<Stmt>, st: Stack)
    requires 2 <= |st| && ParserYieldsStatement(env.parse) && BlockLinesWithin(ss, |env.lines|)
    ensures forall i :: 0 <= i < |ss| ==>
              WalkBlock(env, ss, st).tree[i].lineno == ss[i].lineno &&
              WalkBlock(env, ss, st).tree[i].colOffset == ss[i].colOffset
  {
    if ss != [] {
      var h := Walk(env, ss[0], st);
      WalkKeepsPosition(env, ss[0], st);
      WalkBlockKeepsPositions(env, ss[1..], h.contexts);
      var r := WalkBlock(env, ss, st).tree;
      assert r == [h.tree] + WalkBlock(env, ss[1..], h.contexts).tree;
      forall i | 1 <= i < |ss|
        ensures r[i].lineno == ss[i].lineno && r[i].colOffset == ss[i].colOffset
      {
        assert r[i] == WalkBlock(env, ss[1..], h.contexts).tree[i - 1];
        assert ss[i] == ss[1..][i - 1];
      }
    }
  }

  /** A run returns one statement per top-level statement, each at the line
      and column of the one it replaces. */
  lemma DisambiguateKeepsPositions(env: Env, tree: seq<Stmt>, root: set<string>)
    requires ParserYieldsStatement(env.parse) && BlockLinesWithin(tree, |env.lines|)
    ensures forall i :: 0 <= i < |tree| ==>
              Disambiguate(env, tree, root)[i].lineno == tree[i].lineno &&
              Disambiguate(env, tree, root)[i].colOffset == tree[i].colOffset
  {
    WalkBlockKeepsPositions(env, tree, Initial(root));
  }

  /** After a function or class definition the stack has its old depth, and a
      name is bound only if it was bound before, is the defined name itself,
      or is declared `global` inside the body: whatever else the body binds
      is gone with its frame. */
  lemma DefinitionScoped(env: Env, s: Stmt, st: Stack, x: Ident)
    requires s.kind.FunctionDef? || s.kind.ClassDef?
    requires 2 <= |st| && ParserYieldsStatement(env.parse) && LinesWithin(s, |env.lines|)
    ensures |Walk(env, s, st).contexts| == |st|
    ensures Bound(Walk(env, s, st).contexts, x) ==>
      Bound(st, x) || x == Some(s.kind.name) || x in CollectedInside(GlobalDeclared, s)
  {
    var n := Some(s.kind.name);
    var p := Push(AddTop(st, {n}));
    var b := GenericWalk(env, s, p).contexts;
    GenericWalkEvolves(env, s, p);
    var r := Walk(env, s, st).contexts;
    assert r == Pop(b);
    if Bound(r, x) {
      var i :| 0 <= i < |r| && x in r[i];
      assert x in b[i];
      assert i < |p| - 1;
      if x !in CollectedInside(GlobalDeclared, s) {
        assert x in AddTop(st, {n})[i];
        AddTopBound(st, {n}, x);
      }
    }
  }

  /** The names a statement's header binds are bound after the statement,
      unless a `del` within it deletes them. For a definition this is its
      own name, bound in the enclosing frame. */
  lemma HeaderBindingPersists(env: Env, s: Stmt, st: Stack, x: Ident)
    requires 2 <= |st| && ParserYieldsStatement(env.parse) && LinesWithin(s, |env.lines|)
    requires x in HeaderNames(s.kind) && x !in Collected(Deleted, s)
    ensures Bound(Walk(env, s, st).contexts, x)
  {
    var dIn, gIn := CollectedInside(Deleted, s), CollectedInside(GlobalDeclared, s);
    var top := |st| - 1;
    match s.kind
    case Assign(targets, _) =>
      assert x in AddTop(st, AssignedNames(targets))[top];
    case Import(names) =>
      assert x in AddTop(st, ImportedNames(names))[top];
    case ImportFrom(_, names) =>
      assert x in AddTop(st, ImportedNames(names))[top];
    case With(items, _) =>
      var st1 := AddTop(st, WithNames(items));
      assert x in st1[top];
      GenericWalkEvolves(env, s, st1);
      EvolvesKeepsBound(st1, Walk(env, s, st).contexts, dIn, gIn, x);
    case For(target, _, _, _) =>
      var st1 := AddTop(st, TargetNames(target));
      assert x in st1[top];
      GenericWalkEvolves(env, s, st1);
      EvolvesKeepsBound(st1, Walk(env, s, st).contexts, dIn, gIn, x);
    case FunctionDef(name, _) =>
      var p := Push(AddTop(st, {Some(name)}));
      GenericWalkEvolves(env, s, p);
      assert x in p[top];
      assert x in GenericWalk(env, s, p).contexts[top];
      assert x in Walk(env, s, st).contexts[top];
    case ClassDef(name, _, _) =>
      var p := Push(AddTop(st, {Some(name)}));
      GenericWalkEvolves(env, s, p);
      assert x in p[top];
      assert x in GenericWalk(env, s, p).contexts[top];
      assert x in Walk(env, s, st).contexts[top];
    case Try(_, handlers, _, _) =>
      var st1 := AddTop(st, HandlerNames(handlers));
      assert x in st1[top];
      GenericWalkEvolves(env, s, st1);
      EvolvesKeepsBound(st1, Walk(env, s, st).contexts, dIn, gIn, x);
    case Global(declared) =>
      assert x in AddGlobal(st, DeclaredNames(declared))[1];
      assert Walk(env, s, st).contexts == AddGlobal(st, DeclaredNames(declared));
  }

  /** An expression statement whose leftmost name is bound by the statements
      before it in the same list is left as it is. */
  lemma ExprKeptWhenBound(env: Env, pre: seq<Stmt>, e: Stmt, post: seq<Stmt>, st: Stack)
    requires e.kind.Expr?
    requires 2 <= |st| && ParserYieldsStatement(env.parse) && BlockLinesWithin(pre + [e] + post, |env.lines|)
    requires BlockLinesWithin(pre, |env.lines|)
    requires Bound(WalkBlock(env, pre, st).contexts, StmtLeftmostName(e))
    ensures |WalkBlock(env, pre + [e] + post, st).tree| == |pre| + 1 + |post|
    ensures WalkBlock(env, pre + [e] + post, st).tree[|pre|] == e
  {
    assert pre + [e] + post == pre + ([e] + post);
    WalkBlockAppend(env, pre, [e] + post, st);
    var ra := WalkBlock(env, pre, st);
    assert ([e] + post)[0] == e && ([e] + post)[1..] == post;
    assert WalkBlock(env, [e] + post, ra.contexts).tree[0] == Walk(env, e, ra.contexts).tree;
  }

  /** A statement that binds a name keeps every later expression statement of
      the same list whose leftmost name it is, provided nothing in between (nor
      the binding statement itself) deletes that name. */
  lemma EarlierBindingKeepsStatement(env: Env, b: Stmt, mid: seq<Stmt>, e: Stmt, post: seq<Stmt>, st: Stack)
    requires e.kind.Expr? && StmtLeftmostName(e) in HeaderNames(b.kind)
    requires StmtLeftmostName(e) !in Collected(Deleted, b) + CollectedBlock(Deleted, mid)
    requires 2 <= |st| && ParserYieldsStatement(env.parse)
    requires BlockLinesWithin([b] + mid + [e] + post, |env.lines|)
    ensures WalkBlock(env, [b] + mid + [e] + post, st).tree[1 + |mid|] == e
  {
    var x := StmtLeftmostName(e);
    var pre := [b] + mid;
    assert pre + [e] + post == [b] + mid + [e] + post;
    assert pre + ([e] + post) == [b] + mid + [e] + post;
    assert pre[0] == b && pre[1..] == mid;
    WalkBlockAppend(env, pre, [e] + post, st);
    var h := Walk(env, b, st);
    HeaderBindingPersists(env, b, st, x);
    WalkBlockEvolves(env, mid, h.contexts);
    EvolvesKeepsBound(h.contexts, WalkBlock(env, mid, h.contexts).contexts,
      CollectedBlock(Deleted, mid), CollectedBlock(GlobalDeclared, mid), x);
    assert WalkBlock(env, pre, st).contexts == WalkBlock(env, mid, h.contexts).contexts;
    ExprKeptWhenBound(env, pre, e, post, st);
  }

  /** Visiting a one-statement list is visiting the statement. */
  lemma WalkBlockSingle(env: Env, g: Stmt, st: Stack)
    requires 2 <= |st| && ParserYieldsStatement(env.parse) && LinesWithin(g, |env.lines|)
    ensures BlockLinesWithin([g], |env.lines|)
    ensures WalkBlock(env, [g], st).contexts == Walk(env, g, st).contexts
  {
    assert [g][0] == g && [g][1..] == [];
  }

  /** A `global` statement adds its names to the global frame. */
  lemma WalkGlobal(env: Env, g: Stmt, st: Stack)
    requires g.kind.Global?
    requires 2 <= |st| && ParserYieldsStatement(env.parse)
    ensures LinesWithin(g, |env.lines|)
    ensures Walk(env, g, st).contexts == AddGlobal(st, DeclaredNames(g.kind.declared))
  {
  }

  /** In a statement list, the names a `global` declares are in the global
      frame after the list, unless a later statement deletes them. */
  lemma GlobalSurvivesBlock(env: Env, pre: seq<Stmt>, g: Stmt, post: seq<Stmt>, n: string, st: Stack)
    requires g.kind.Global? && n in g.kind.declared
    requires Some(n) !in CollectedBlock(Deleted, post)
    requires 2 <= |st| && ParserYieldsStatement(env.parse) && BlockLinesWithin(pre + [g] + post, |env.lines|)
    ensures Some(n) in WalkBlock(env, pre + [g] + post, st).contexts[1]
  {
    WalkBlockAppend(env, pre + [g], post, st);
    WalkBlockAppend(env, pre, [g], st);
    var a := WalkBlock(env, pre, st).contexts;
    var ag := WalkBlock(env, pre + [g], st).contexts;
    WalkGlobal(env, g, a);
    WalkBlockSingle(env, g, a);
    assert ag == AddGlobal(a, DeclaredNames(g.kind.declared));
    assert Some(n) in ag[1];
    WalkBlockEvolves(env, post, ag);
  }

  /** A `global` declaration inside a function or class body binds its names
      in the global frame, where they stay once the body's frame is dropped,
      unless a later statement of the body deletes them. */
  lemma GlobalSurvivesDefinition(env: Env, s: Stmt, pre: seq<Stmt>, g: Stmt, post: seq<Stmt>, n: string, st: Stack)
    requires (s.kind.FunctionDef? || s.kind.ClassDef?) && s.kind.body == pre + [g] + post
    requires g.kind.Global? && n in g.kind.declared
    requires Some(n) !in CollectedBlock(Deleted, post)
    requires 2 <= |st| && ParserYieldsStatement(env.parse) && LinesWithin(s, |env.lines|)
    ensures Some(n) in Walk(env, s, st).contexts[1]
  {
    var p := Push(AddTop(st, {Some(s.kind.name)}));
    GlobalSurvivesBlock(env, pre, g, post, n, p);
    assert GenericWalk(env, s, p).contexts == WalkBlock(env, s.kind.body, p).contexts;
  }

  /** A function's own name is bound while its body is visited: an
      expression statement that opens the body and refers to the function
      (a recursive reference) is left as it is. */
  lemma RecursiveReferenceKept(env: Env, s: Stmt, st: Stack)
    requires s.kind.FunctionDef? && |s.kind.body| > 0
    requires s.kind.body[0].kind.Expr? && StmtLeftmostName(s.kind.body[0]) == Some(s.kind.name)
    requires 2 <= |st| && ParserYieldsStatement(env.parse) && LinesWithin(s, |env.lines|)
    ensures Walk(env, s, st).tree.kind.FunctionDef?
    ensures |Walk(env, s, st).tree.kind.body| == |s.kind.body|
    ensures Walk(env, s, st).tree.kind.body[0] == s.kind.body[0]
  {
    var p := Push(AddTop(st, {Some(s.kind.name)}));
    var first := s.kind.body[0];
    assert Some(s.kind.name) in p[|st| - 1];
    assert Bound(p, StmtLeftmostName(first));
    assert Walk(env, first, p).tree == first;
    var b := WalkBlock(env, s.kind.body, p);
    assert b.tree[0] == first;
    assert Walk(env, s, st).tree == s.(kind := FunctionDef(s.kind.name, b.tree));
  }
}
