/**
 * `CtxAwareTransformer`: the visitor object. Its scope stack `contexts` and
 * the input `lines` are fields that the visit methods update as they go; each
 * method is proved equal to the function of the same shape in module
 * Disambiguation, so what is proved there holds of the object.
 */
module Transformer {
  import opened Wrappers
  import opened Syntax
  import opened Scopes
  import opened Disambiguation

  class CtxAwareTransformer {
    /** The parser tried on subprocess lines, and the rewrite of a line into
        subprocess syntax. */
    const parse: string -> ParseOutcome
    const subprocLine: string -> string
    /** The input of the current run, one entry per line. */
    var lines: seq<string>
    /** The scope stack: root context, global frame, one frame per enclosing
        function or class body. */
    var contexts: Stack

    constructor (parse: string -> ParseOutcome, subprocLine: string -> string)
      ensures this.parse == parse && this.subprocLine == subprocLine
      ensures lines == [] && contexts == []
    {
      this.parse := parse;
      this.subprocLine := subprocLine;
      lines := [];
      contexts := [];
    }

    /** The collaborators as the specification functions take them. */
    function Collaborators(): Env
      reads this
    {
      Env(lines, parse, subprocLine)
    }

    /** One run over a module body: two frames to start with, the caller's
        root context and an empty global frame; both fields are cleared
        afterwards. */
    method CtxVisit(tree: seq<Stmt>, input: seq<string>, root: set<string>) returns (r: seq<Stmt>)
      requires ParserYieldsStatement(parse) && BlockLinesWithin(tree, |input|)
      modifies this
      ensures r == Disambiguate(Env(input, parse, subprocLine), tree, root)
      ensures |r| == |tree|
      ensures lines == [] && contexts == []
    {
      lines := input;
      contexts := Initial(root);
      r := VisitBlock(tree);
      lines := [];
      contexts := [];
    }

    /** Binds all of `values` in the innermost frame. */
    method CtxUpdate(values: set<Ident>)
      requires |contexts| > 0
      modifies this`contexts
      ensures contexts == AddTop(old(contexts), values)
    {
      contexts := contexts[|contexts| - 1 := contexts[|contexts| - 1] + values];
    }

    /** Binds `value` in the innermost frame. */
    method CtxAdd(value: Ident)
      requires |contexts| > 0
      modifies this`contexts
      ensures contexts == AddTop(old(contexts), {value})
    {
      contexts := contexts[|contexts| - 1 := contexts[|contexts| - 1] + {value}];
    }

    /** Removes `value` from the innermost frame that holds it, searching from
        the innermost frame outwards; no frame holding it is no change. */
    method CtxRemove(value: Ident)
      modifies this`contexts
      ensures contexts == RemoveInnermost(old(contexts), value)
    {
      var i := |contexts|;
      while i > 0
        invariant 0 <= i <= |contexts|
        invariant contexts == old(contexts)
        invariant forall j :: i <= j < |contexts| ==> value !in contexts[j]
      {
        i := i - 1;
        if value in contexts[i] {
          RemoveInnermostAt(contexts, value, i);
          contexts := contexts[i := contexts[i] - {value}];
          return;
        }
      }
      RemoveInnermostUnbound(contexts, value);
    }

    /** An expression statement: kept when its leftmost name is bound in some
        frame (searched from the innermost outwards), otherwise replaced by
        the first statement of its reparsed line at the original position,
        or kept when that line does not parse. The scope is not changed. */
    method VisitExpr(node: Stmt) returns (r: Stmt)
      requires node.kind.Expr? && ParserYieldsStatement(parse)
      requires !Bound(contexts, StmtLeftmostName(node)) ==> 1 <= node.lineno <= |lines|
      ensures r == ExprVisited(Collaborators(), node, contexts)
      ensures Bound(contexts, StmtLeftmostName(node)) ==> r == node
      ensures !Bound(contexts, StmtLeftmostName(node)) ==>
        match parse(subprocLine(lines[node.lineno - 1]))
        case Parsed(body) => r == body[0].(lineno := node.lineno, colOffset := node.colOffset)
        case SyntaxError => r == node
    {
      var lname := StmtLeftmostName(node);
      var inscope := false;
      var i := |contexts|;
      while i > 0
        invariant 0 <= i <= |contexts|
        invariant !inscope
        invariant forall j :: i <= j < |contexts| ==> lname !in contexts[j]
      {
        i := i - 1;
        if lname in contexts[i] {
          inscope := true;
          break;
        }
      }
      if inscope {
        return node;
      }
      var spline := subprocLine(lines[node.lineno - 1]);
      match parse(spline) {
        case Parsed(body) =>
          r := body[0].(lineno := node.lineno, colOffset := node.colOffset);
        case SyntaxError =>
          r := node;
      }
    }

    /** Binds the names of every assignment target in the innermost frame.
        The value is not visited. */
    method VisitAssign(node: Stmt) returns (r: Stmt)
      requires node.kind.Assign? && |contexts| > 0
      modifies this`contexts
      ensures r == node
      ensures contexts == AddTop(old(contexts), AssignedNames(node.kind.targets))
    {
      var targets := node.kind.targets;
      ghost var st0 := contexts;
      assert targets[..0] == [] && AssignedNames(targets[..0]) == {};
      AddTopNothing(st0);
      var i := 0;
      while i < |targets|
        invariant 0 <= i <= |targets|
        invariant contexts == AddTop(st0, AssignedNames(targets[..i]))
      {
        var targ := targets[i];
        AddTopTwice(st0, AssignedNames(targets[..i]), TargetNames(targ));
        if targ.Tuple? || targ.List? {
          CtxUpdate(set e | e in targ.elts :: LeftmostName(e));
        } else {
          CtxAdd(LeftmostName(targ));
        }
        AssignedNamesSnoc(targets[..i], targ);
        assert targets[..i + 1] == targets[..i] + [targ];
        i := i + 1;
      }
      assert targets[..i] == targets;
      return node;
    }

    /** Binds each imported name, or its alias, in the innermost frame. */
    method VisitImport(node: Stmt) returns (r: Stmt)
      requires node.kind.Import? && |contexts| > 0
      modifies this`contexts
      ensures r == node
      ensures contexts == AddTop(old(contexts), ImportedNames(node.kind.names))
    {
      BindImported(node.kind.names);
      return node;
    }

    /** As for `import`: binds each imported member, or its alias. */
    method VisitImportFrom(node: Stmt) returns (r: Stmt)
      requires node.kind.ImportFrom? && |contexts| > 0
      modifies this`contexts
      ensures r == node
      ensures contexts == AddTop(old(contexts), ImportedNames(node.kind.names))
    {
      BindImported(node.kind.names);
      return node;
    }

    /** The loop shared by both import visitors. */
    method BindImported(names: seq<Alias>)
      requires |contexts| > 0
      modifies this`contexts
      ensures contexts == AddTop(old(contexts), ImportedNames(names))
    {
      ghost var st0 := contexts;
      assert names[..0] == [] && ImportedNames(names[..0]) == {};
      AddTopNothing(st0);
      var i := 0;
      while i < |names|
        invariant 0 <= i <= |names|
        invariant contexts == AddTop(st0, ImportedNames(names[..i]))
      {
        var name := names[i];
        AddTopTwice(st0, ImportedNames(names[..i]), {Some(ImportedName(name))});
        if name.asname.None? {
          CtxAdd(Some(name.name));
        } else {
          CtxAdd(Some(name.asname.value));
        }
        ImportedNamesSnoc(names[..i], name);
        assert names[..i + 1] == names[..i] + [name];
        i := i + 1;
      }
      assert names[..i] == names;
    }

    /** The loop of `visit_With` over its items: binds the leftmost name of
        each `as` target that is present. */
    method BindWithTargets(items: seq<WithItem>)
      requires |contexts| > 0
      modifies this`contexts
      ensures contexts == AddTop(old(contexts), WithNames(items))
    {
      ghost var st0 := contexts;
      assert items[..0] == [] && WithNames(items[..0]) == {};
      AddTopNothing(st0);
      var i := 0;
      while i < |items|
        invariant 0 <= i <= |items|
        invariant contexts == AddTop(st0, WithNames(items[..i]))
      {
        var item := items[i];
        WithNamesSnoc(items[..i], item);
        assert items[..i + 1] == items[..i] + [item];
        if item.optionalVars.Some? {
          AddTopTwice(st0, WithNames(items[..i]), {LeftmostName(item.optionalVars.value)});
          CtxAdd(LeftmostName(item.optionalVars.value));
        } else {
          assert WithNames(items[..i + 1]) == WithNames(items[..i]);
        }
        i := i + 1;
      }
      assert items[..i] == items;
    }

    /** Binds the leftmost name of each `as` target, then visits the body. */
    method VisitWith(node: Stmt) returns (r: Stmt)
      requires node.kind.With? && 2 <= |contexts|
      requires ParserYieldsStatement(parse) && LinesWithin(node, |lines|)
      modifies this`contexts
      ensures Visited(r, contexts) == Walk(Collaborators(), node, old(contexts))
      decreases node, 1
    {
      BindWithTargets(node.kind.items);
      r := GenericVisit(node);
    }

    /** Binds the loop target's names, then visits body and else-suite. */
    method VisitFor(node: Stmt) returns (r: Stmt)
      requires node.kind.For? && 2 <= |contexts|
      requires ParserYieldsStatement(parse) && LinesWithin(node, |lines|)
      modifies this`contexts
      ensures Visited(r, contexts) == Walk(Collaborators(), node, old(contexts))
      decreases node, 1
    {
      var targ := node.kind.target;
      if targ.Tuple? || targ.List? {
        CtxUpdate(set e | e in targ.elts :: LeftmostName(e));
      } else {
        CtxAdd(LeftmostName(targ));
      }
      r := GenericVisit(node);
    }

    /** Binds the function's name in the current frame, visits the body in a
        frame of its own, and drops that frame. */
    method VisitFunctionDef(node: Stmt) returns (r: Stmt)
      requires node.kind.FunctionDef? && 2 <= |contexts|
      requires ParserYieldsStatement(parse) && LinesWithin(node, |lines|)
      modifies this`contexts
      ensures Visited(r, contexts) == Walk(Collaborators(), node, old(contexts))
      decreases node, 1
    {
      CtxAdd(Some(node.kind.name));
      contexts := contexts + [{}];
      r := GenericVisit(node);
      contexts := contexts[..|contexts| - 1];
    }

    /** As for a function: the class name outside, the body in its own frame. */
    method VisitClassDef(node: Stmt) returns (r: Stmt)
      requires node.kind.ClassDef? && 2 <= |contexts|
      requires ParserYieldsStatement(parse) && LinesWithin(node, |lines|)
      modifies this`contexts
      ensures Visited(r, contexts) == Walk(Collaborators(), node, old(contexts))
      decreases node, 1
    {
      CtxAdd(Some(node.kind.name));
      contexts := contexts + [{}];
      r := GenericVisit(node);
      contexts := contexts[..|contexts| - 1];
    }

    /** Unbinds each deleted plain name; other targets change nothing. */
    method VisitDelete(node: Stmt) returns (r: Stmt)
      requires node.kind.Delete? && 2 <= |contexts|
      requires ParserYieldsStatement(parse) && LinesWithin(node, |lines|)
      modifies this`contexts
      ensures Visited(r, contexts) == Walk(Collaborators(), node, old(contexts))
      decreases node, 1
    {
      var targets := node.kind.targets;
      var i := 0;
      while i < |targets|
        invariant 0 <= i <= |targets|
        invariant contexts == Unbind(old(contexts), targets[..i])
      {
        var targ := targets[i];
        if targ.Name? {
          CtxRemove(Some(targ.id));
        }
        assert targets[..i + 1][..i] == targets[..i];
        i := i + 1;
      }
      assert targets[..i] == targets;
      r := GenericVisit(node);
    }

    /** Binds each handler's `as` name, then visits all suites. */
    method VisitTry(node: Stmt) returns (r: Stmt)
      requires node.kind.Try? && 2 <= |contexts|
      requires ParserYieldsStatement(parse) && LinesWithin(node, |lines|)
      modifies this`contexts
      ensures Visited(r, contexts) == Walk(Collaborators(), node, old(contexts))
      decreases node, 1
    {
      var handlers := node.kind.handlers;
      ghost var st0 := contexts;
      assert handlers[..0] == [] && HandlerNames(handlers[..0]) == {};
      AddTopNothing(st0);
      var i := 0;
      while i < |handlers|
        invariant 0 <= i <= |handlers| && |contexts| == |old(contexts)|
        invariant contexts == AddTop(st0, HandlerNames(handlers[..i]))
      {
        var handler := handlers[i];
        AddTopTwice(st0, HandlerNames(handlers[..i]), if handler.name.Some? then {handler.name} else {});
        AddTopNothing(AddTop(st0, HandlerNames(handlers[..i])));
        if handler.name.Some? {
          CtxAdd(handler.name);
        }
        HandlerNamesSnoc(handlers[..i], handler);
        assert handlers[..i + 1] == handlers[..i] + [handler];
        i := i + 1;
      }
      assert handlers[..i] == handlers;
      r := GenericVisit(node);
    }

    /** Binds the declared names in the global frame, index 1, whatever the
        current depth. */
    method VisitGlobal(node: Stmt) returns (r: Stmt)
      requires node.kind.Global? && 2 <= |contexts|
      requires ParserYieldsStatement(parse) && LinesWithin(node, |lines|)
      modifies this`contexts
      ensures Visited(r, contexts) == Walk(Collaborators(), node, old(contexts))
      decreases node, 1
    {
      contexts := contexts[1 := contexts[1] + DeclaredNames(node.kind.declared)];
      r := GenericVisit(node);
    }

    /** Dispatch on the statement kind; kinds without a visitor of their own
        are visited generically. */
    method Visit(node: Stmt) returns (r: Stmt)
      requires 2 <= |contexts| && ParserYieldsStatement(parse) && LinesWithin(node, |lines|)
      modifies this`contexts
      ensures Visited(r, contexts) == Walk(Collaborators(), node, old(contexts))
      decreases node, 2
    {
      match node.kind {
        case Expr(_) => r := VisitExpr(node);
        case Assign(_, _) => r := VisitAssign(node);
        case Import(_) => r := VisitImport(node);
        case ImportFrom(_, _) => r := VisitImportFrom(node);
        case With(_, _) => r := VisitWith(node);
        case For(_, _, _, _) => r := VisitFor(node);
        case FunctionDef(_, _) => r := VisitFunctionDef(node);
        case ClassDef(_, _, _) => r := VisitClassDef(node);
        case Delete(_) => r := VisitDelete(node);
        case Try(_, _, _, _) => r := VisitTry(node);
        case Global(_) => r := VisitGlobal(node);
        case OtherStmt(_, _, _) => r := GenericVisit(node);
      }
    }

    /** Visits every suite of `node` in field order and puts the visited
        statements in their place. */
    method GenericVisit(node: Stmt) returns (r: Stmt)
      requires 2 <= |contexts| && ParserYieldsStatement(parse) && LinesWithin(node, |lines|)
      modifies this`contexts
      ensures Visited(r, contexts) == GenericWalk(Collaborators(), node, old(contexts))
      decreases node, 0
    {
      match node.kind {
        case With(items, body) =>
          var b := VisitBlock(body);
          r := node.(kind := With(items, b));
        case For(target, iter, body, orelse) =>
          var b := VisitBlock(body);
          var e := VisitBlock(orelse);
          r := node.(kind := For(target, iter, b, e));
        case FunctionDef(name, body) =>
          var b := VisitBlock(body);
          r := node.(kind := FunctionDef(name, b));
        case ClassDef(name, bases, body) =>
          var b := VisitBlock(body);
          r := node.(kind := ClassDef(name, bases, b));
        case Try(body, handlers, orelse, finalbody) =>
          var b := VisitBlock(body);
          var h := VisitHandlers(handlers);
          var e := VisitBlock(orelse);
          var f := VisitBlock(finalbody);
          r := node.(kind := Try(b, h, e, f));
        case OtherStmt(tag, body, orelse) =>
          var b := VisitBlock(body);
          var e := VisitBlock(orelse);
          r := node.(kind := OtherStmt(tag, b, e));
        case _ =>
          r := node;
      }
    }

    /** Visits a statement list in order, replacing each statement by its
        visited form. */
    method VisitBlock(ss: seq<Stmt>) returns (r: seq<Stmt>)
      requires 2 <= |contexts| && ParserYieldsStatement(parse) && BlockLinesWithin(ss, |lines|)
      modifies this`contexts
      ensures Visited(r, contexts) == WalkBlock(Collaborators(), ss, old(contexts))
      decreases ss, 3
    {
      ghost var env := Collaborators();
      ghost var goal := WalkBlock(env, ss, old(contexts));
      r := [];
      var i := 0;
      while i < |ss|
        invariant 0 <= i <= |ss| && |contexts| == |old(contexts)|
        invariant BlockLinesWithin(ss[i..], |lines|)
        invariant r + WalkBlock(env, ss[i..], contexts).tree == goal.tree
        invariant WalkBlock(env, ss[i..], contexts).contexts == goal.contexts
      {
        assert ss[i..][0] == ss[i] && ss[i..][1..] == ss[i + 1..];
        var n := Visit(ss[i]);
        r := r + [n];
        i := i + 1;
      }
      assert ss[i..] == [];
      assert WalkBlock(env, ss[i..], contexts) == Visited([], contexts);
      assert r + [] == r;
      assert Collaborators() == env;
    }

    /** Visits the body of each handler of a `try` in order. */
    method VisitHandlers(hs: seq<ExceptHandler>) returns (r: seq<ExceptHandler>)
      requires 2 <= |contexts| && ParserYieldsStatement(parse) && HandlersLinesWithin(hs, |lines|)
      modifies this`contexts
      ensures Visited(r, contexts) == WalkHandlers(Collaborators(), hs, old(contexts))
      decreases hs, 3
    {
      ghost var env := Collaborators();
      ghost var goal := WalkHandlers(env, hs, old(contexts));
      r := [];
      var i := 0;
      while i < |hs|
        invariant 0 <= i <= |hs| && |contexts| == |old(contexts)|
        invariant HandlersLinesWithin(hs[i..], |lines|)
        invariant r + WalkHandlers(env, hs[i..], contexts).tree == goal.tree
        invariant WalkHandlers(env, hs[i..], contexts).contexts == goal.contexts
      {
        assert hs[i..][0] == hs[i] && hs[i..][1..] == hs[i + 1..];
        var b := VisitBlock(hs[i].body);
        r := r + [hs[i].(body := b)];
        i := i + 1;
      }
      assert hs[i..] == [];
      assert WalkHandlers(env, hs[i..], contexts) == Visited([], contexts);
      assert r + [] == r;
      assert Collaborators() == env;
    }
  }
}
