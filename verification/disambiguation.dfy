/**
 * The context-aware walk as a pure function of the tree and the scope stack.
 * The transformer class proves each of its visit methods equal to the
 * function of the same shape here; the properties of the pass are lemmas
 * about these functions.
 */
module Disambiguation {
  import opened Wrappers
  import opened Syntax
  import opened Scopes

  /** What the parser makes of one line: a module body, or a syntax error. */
  datatype ParseOutcome = Parsed(body: seq<Stmt>) | SyntaxError

  /** The collaborators of one run: the input split into lines, the parser,
      and the rewrite of a line into subprocess syntax. */
  datatype Env = Env(lines: seq<string>, parse: string -> ParseOutcome, subprocLine: string -> string)

  /** A tree (or list of trees) after a visit, with the scope stack after it. */
  datatype Visited<T> = Visited(tree: T, contexts: Stack)

  /** The parser's side of the contract: a successful parse of a line has at
      least one statement, whose first one is the replacement. */
  ghost predicate ParserYieldsStatement(parse: string -> ParseOutcome)
  {
    forall line :: parse(line).Parsed? ==> parse(line).body != []
  }

  /** Every expression statement of `s` names a line of an input of `count`
      lines, as a tree parsed from that input does. */
  predicate LinesWithin(s: Stmt, count: int)
    decreases s
  {
    match s.kind
    case Expr(_) => 1 <= s.lineno <= count
    case With(_, body) => BlockLinesWithin(body, count)
    case For(_, _, body, orelse) => BlockLinesWithin(body, count) && BlockLinesWithin(orelse, count)
    case FunctionDef(_, body) => BlockLinesWithin(body, count)
    case ClassDef(_, _, body) => BlockLinesWithin(body, count)
    case Try(body, handlers, orelse, finalbody) =>
      && BlockLinesWithin(body, count)
      && HandlersLinesWithin(handlers, count)
      && BlockLinesWithin(orelse, count)
      && BlockLinesWithin(finalbody, count)
    case OtherStmt(_, body, orelse) => BlockLinesWithin(body, count) && BlockLinesWithin(orelse, count)
    case _ => true
  }

  predicate BlockLinesWithin(ss: seq<Stmt>, count: int)
    decreases ss
  {
    forall i :: 0 <= i < |ss| ==> LinesWithin(ss[i], count)
  }

  predicate HandlersLinesWithin(hs: seq<ExceptHandler>, count: int)
    decreases hs
  {
    forall i :: 0 <= i < |hs| ==> BlockLinesWithin(hs[i].body, count)
  }

  // ---------------------------------------------------------------------
  // Names bound by one statement's header

  /** What one assignment or loop target binds: the leftmost name of every
      element of a tuple or list target, or the target's own leftmost name. */
  function TargetNames(t: Expression): (r: set<Ident>)
    ensures t.Tuple? || t.List? ==> forall i :: 0 <= i < |t.elts| ==> LeftmostName(t.elts[i]) in r
    ensures !(t.Tuple? || t.List?) ==> r == {LeftmostName(t)}
  {
    if t.Tuple? || t.List? then set e | e in t.elts :: LeftmostName(e)
    else {LeftmostName(t)}
  }

  /** What the targets of one assignment bind, all of them together. */
  function AssignedNames(targets: seq<Expression>): (r: set<Ident>)
    ensures forall i :: 0 <= i < |targets| ==> TargetNames(targets[i]) <= r
  {
    set t, x | t in targets && x in TargetNames(t) :: x
  }

  /** The name an import binds: its alias when it has one. */
  function ImportedName(a: Alias): (r: string)
    ensures a.asname.Some? ==> r == a.asname.value
    ensures a.asname.None? ==> r == a.name
  {
    if a.asname.None? then a.name else a.asname.value
  }

  /** What one import statement binds. */
  function ImportedNames(names: seq<Alias>): (r: set<Ident>)
    ensures None !in r
    ensures forall i :: 0 <= i < |names| ==> Some(ImportedName(names[i])) in r
  {
    set a | a in names :: Some(ImportedName(a))
  }

  /** What the `as` targets of one `with` statement bind; items without a
      target bind nothing. */
  function WithNames(items: seq<WithItem>): (r: set<Ident>)
    ensures forall i :: 0 <= i < |items| && items[i].optionalVars.Some? ==> LeftmostName(items[i].optionalVars.value) in r
  {
    set it | it in items && it.optionalVars.Some? :: LeftmostName(it.optionalVars.value)
  }

  /** What the `as` names of the handlers of one `try` bind; a handler
      without a name binds nothing. */
  function HandlerNames(handlers: seq<ExceptHandler>): (r: set<Ident>)
    ensures None !in r
    ensures forall i :: 0 <= i < |handlers| && handlers[i].name.Some? ==> handlers[i].name in r
  {
    set h | h in handlers && h.name.Some? :: h.name
  }

  /** What one `global` statement declares. */
  function DeclaredNames(declared: seq<string>): (r: set<Ident>)
    ensures None !in r
    ensures forall i :: 0 <= i < |declared| ==> Some(declared[i]) in r
  {
    set n | n in declared :: Some(n)
  }

  lemma AssignedNamesSnoc(ts: seq<Expression>, t: Expression)
    ensures AssignedNames(ts + [t]) == AssignedNames(ts) + TargetNames(t)
  {
    assert forall u :: u in ts + [t] <==> u in ts || u == t;
  }

  lemma ImportedNamesSnoc(names: seq<Alias>, a: Alias)
    ensures ImportedNames(names + [a]) == ImportedNames(names) + {Some(ImportedName(a))}
  {
    assert forall u :: u in names + [a] <==> u in names || u == a;
  }

  lemma WithNamesSnoc(items: seq<WithItem>, it: WithItem)
    ensures WithNames(items + [it]) ==
      WithNames(items) + (if it.optionalVars.Some? then {LeftmostName(it.optionalVars.value)} else {})
  {
    assert forall u :: u in items + [it] <==> u in items || u == it;
  }

  lemma HandlerNamesSnoc(hs: seq<ExceptHandler>, h: ExceptHandler)
    ensures HandlerNames(hs + [h]) == HandlerNames(hs) + (if h.name.Some? then {h.name} else {})
  {
    assert forall u :: u in hs + [h] <==> u in hs || u == h;
  }

  /** The effect of `del t1, ..., tn` on the stack: each target that is a
      plain name is removed from the innermost frame holding it, in order. */
  function Unbind(st: Stack, targets: seq<Expression>): (r: Stack)
    ensures |r| == |st|
    decreases |targets|
  {
    if targets == [] then st
    else
      var before := Unbind(st, targets[..|targets| - 1]);
      var t := targets[|targets| - 1];
      if t.Name? then RemoveInnermost(before, Some(t.id)) else before
  }

  // ---------------------------------------------------------------------
  // Expression statements

  /** The replacement for expression statement `s`: its line, rewritten into
      subprocess syntax and parsed; the first statement of the result, moved
      to `s`'s position; `None` on a syntax error. */
  function Reparse(env: Env, s: Stmt): (r: Option<Stmt>)
    requires ParserYieldsStatement(env.parse) && 1 <= s.lineno <= |env.lines|
    ensures var outcome := env.parse(env.subprocLine(env.lines[s.lineno - 1]));
            && (r.None? <==> outcome.SyntaxError?)
            && (r.Some? ==> r.value.kind == outcome.body[0].kind)
    ensures r.Some? ==> r.value.lineno == s.lineno && r.value.colOffset == s.colOffset
  {
    match env.parse(env.subprocLine(env.lines[s.lineno - 1]))
    case SyntaxError => None
    case Parsed(body) => Some(body[0].(lineno := s.lineno, colOffset := s.colOffset))
  }

  /** What an expression statement becomes when its leftmost name is unbound:
      its reparse, or the statement itself when the reparse fails. Either way
      the statement stays at its position. */
  function Reparsed(env: Env, s: Stmt): (r: Stmt)
    requires ParserYieldsStatement(env.parse) && 1 <= s.lineno <= |env.lines|
    ensures r.lineno == s.lineno && r.colOffset == s.colOffset
    ensures env.parse(env.subprocLine(env.lines[s.lineno - 1])).SyntaxError? ==> r == s
    ensures Reparse(env, s).Some? ==> r == Reparse(env, s).value
  {
    match Reparse(env, s)
    case Some(n) => n
    case None => s
  }

  /** What visiting expression statement `s` gives: `s` itself when its
      leftmost name is bound, otherwise its reparse, or `s` again when the
      reparse fails. */
  function ExprVisited(env: Env, s: Stmt, st: Stack): (r: Stmt)
    requires ParserYieldsStatement(env.parse)
    requires !Bound(st, StmtLeftmostName(s)) ==> 1 <= s.lineno <= |env.lines|
    ensures Bound(st, StmtLeftmostName(s)) ==> r == s
    ensures !Bound(st, StmtLeftmostName(s)) ==> r == Reparsed(env, s)
    ensures r.lineno == s.lineno && r.colOffset == s.colOffset
  {
    if Bound(st, StmtLeftmostName(s)) then s else Reparsed(env, s)
  }

  // ---------------------------------------------------------------------
  // The walk

  /** Visiting one statement: the kind-specific visitor, which for the kinds
      with a suite binds the header's names and then visits the suites. */
  function Walk(env: Env, s: Stmt, st: Stack): (o: Visited<Stmt>)
    requires 2 <= |st| && ParserYieldsStatement(env.parse) && LinesWithin(s, |env.lines|)
    ensures |o.contexts| == |st|
    decreases s, 1
  {
    match s.kind
    case Expr(_) => Visited(ExprVisited(env, s, st), st)
    case Assign(targets, _) => Visited(s, AddTop(st, AssignedNames(targets)))
    case Import(names) => Visited(s, AddTop(st, ImportedNames(names)))
    case ImportFrom(_, names) => Visited(s, AddTop(st, ImportedNames(names)))
    case With(items, _) => GenericWalk(env, s, AddTop(st, WithNames(items)))
    case For(target, _, _, _) => GenericWalk(env, s, AddTop(st, TargetNames(target)))
    case FunctionDef(name, _) =>
      var o := GenericWalk(env, s, Push(AddTop(st, {Some(name)})));
      Visited(o.tree, Pop(o.contexts))
    case ClassDef(name, _, _) =>
      var o := GenericWalk(env, s, Push(AddTop(st, {Some(name)})));
      Visited(o.tree, Pop(o.contexts))
    case Delete(targets) => GenericWalk(env, s, Unbind(st, targets))
    case Try(_, handlers, _, _) => GenericWalk(env, s, AddTop(st, HandlerNames(handlers)))
    case Global(declared) => GenericWalk(env, s, AddGlobal(st, DeclaredNames(declared)))
    case OtherStmt(_, _, _) => GenericWalk(env, s, st)
  }

  /** Visiting the suites of a statement in field order, replacing each by
      its visited form. Statements without a suite are left as they are. */
  function GenericWalk(env: Env, s: Stmt, st: Stack): (o: Visited<Stmt>)
    requires 2 <= |st| && ParserYieldsStatement(env.parse) && LinesWithin(s, |env.lines|)
    ensures |o.contexts| == |st|
    decreases s, 0
  {
    match s.kind
    case With(items, body) =>
      var b := WalkBlock(env, body, st);
      Visited(s.(kind := With(items, b.tree)), b.contexts)
    case For(target, iter, body, orelse) =>
      var b := WalkBlock(env, body, st);
      var e := WalkBlock(env, orelse, b.contexts);
      Visited(s.(kind := For(target, iter, b.tree, e.tree)), e.contexts)
    case FunctionDef(name, body) =>
      var b := WalkBlock(env, body, st);
      Visited(s.(kind := FunctionDef(name, b.tree)), b.contexts)
    case ClassDef(name, bases, body) =>
      var b := WalkBlock(env, body, st);
      Visited(s.(kind := ClassDef(name, bases, b.tree)), b.contexts)
    case Try(body, handlers, orelse, finalbody) =>
      var b := WalkBlock(env, body, st);
      var h := WalkHandlers(env, handlers, b.contexts);
      var e := WalkBlock(env, orelse, h.contexts);
      var f := WalkBlock(env, finalbody, e.contexts);
      Visited(s.(kind := Try(b.tree, h.tree, e.tree, f.tree)), f.contexts)
    case OtherStmt(tag, body, orelse) =>
      var b := WalkBlock(env, body, st);
      var e := WalkBlock(env, orelse, b.contexts);
      Visited(s.(kind := OtherStmt(tag, b.tree, e.tree)), e.contexts)
    case _ => Visited(s, st)
  }

  /** Visiting a statement list in order, each statement seeing the scope left
      by the ones before it. */
  function WalkBlock(env: Env, ss: seq<Stmt>, st: Stack): (o: Visited<seq<Stmt>>)
    requires 2 <= |st| && ParserYieldsStatement(env.parse) && BlockLinesWithin(ss, |env.lines|)
    ensures |o.contexts| == |st| && |o.tree| == |ss|
    decreases ss, 2
  {
    if ss == [] then Visited([], st)
    else
      var h := Walk(env, ss[0], st);
      var t := WalkBlock(env, ss[1..], h.contexts);
      Visited([h.tree] + t.tree, t.contexts)
  }

  /** Visiting the handlers of a `try` in order: each handler's body. */
  function WalkHandlers(env: Env, hs: seq<ExceptHandler>, st: Stack): (o: Visited<seq<ExceptHandler>>)
    requires 2 <= |st| && ParserYieldsStatement(env.parse) && HandlersLinesWithin(hs, |env.lines|)
    ensures |o.contexts| == |st| && |o.tree| == |hs|
    decreases hs, 2
  {
    if hs == [] then Visited([], st)
    else
      var b := WalkBlock(env, hs[0].body, st);
      var t := WalkHandlers(env, hs[1..], b.contexts);
      Visited([hs[0].(body := b.tree)] + t.tree, t.contexts)
  }

  /** A whole run: the module body walked from the root context and an empty
      global frame. */
  function Disambiguate(env: Env, tree: seq<Stmt>, root: set<string>): (r: seq<Stmt>)
    requires ParserYieldsStatement(env.parse) && BlockLinesWithin(tree, |env.lines|)
    ensures |r| == |tree|
  {
    WalkBlock(env, tree, Initial(root)).tree
  }
}
