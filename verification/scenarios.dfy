/**
 * Small programs run through the walk from an empty root context, for any
 * parser and any subprocess rewrite: which statements are kept and which are
 * handed to the reparse.
 */
module Scenarios {
  import opened Wrappers
  import opened Syntax
  import opened Scopes
  import opened Disambiguation
  import opened Properties

  /** An expression statement whose leftmost name the statements before it in
      the same list leave unbound is handed to the reparse, wherever it stands
      in the list. */
  lemma UnboundStatementReparsed(env: Env, pre: seq<Stmt>, e: Stmt, post: seq<Stmt>, st: Stack)
    requires e.kind.Expr?
    requires 2 <= |st| && ParserYieldsStatement(env.parse) && BlockLinesWithin(pre + [e] + post, |env.lines|)
    requires BlockLinesWithin(pre, |env.lines|) && 1 <= e.lineno <= |env.lines|
    requires !Bound(WalkBlock(env, pre, st).contexts, StmtLeftmostName(e))
    ensures |WalkBlock(env, pre + [e] + post, st).tree| == |pre| + 1 + |post|
    ensures WalkBlock(env, pre + [e] + post, st).tree[|pre|] == Reparsed(env, e)
  {
    assert pre + [e] + post == pre + ([e] + post);
    WalkBlockAppend(env, pre, [e] + post, st);
    assert ([e] + post)[0] == e && ([e] + post)[1..] == post;
  }

  /** `foo = 1`, `foo`, `bar`: the first expression statement is kept, the
      second is reparsed. */
  lemma {:induction false} AssignedThenUsed(env: Env)
    requires ParserYieldsStatement(env.parse) && |env.lines| == 3
    ensures var assign := Stmt(Assign([Name("foo")], OtherExpr("Num", [])), 1, 0);
            var foo := Stmt(Expr(Name("foo")), 2, 0);
            var bar := Stmt(Expr(Name("bar")), 3, 0);
            var r := Disambiguate(env, [assign, foo, bar], {});
            |r| == 3 && r[1] == foo && r[2] == Reparsed(env, bar)
  {
    var assign := Stmt(Assign([Name("foo")], OtherExpr("Num", [])), 1, 0);
    var foo := Stmt(Expr(Name("foo")), 2, 0);
    var bar := Stmt(Expr(Name("bar")), 3, 0);
    var st := Initial({});
    assert Some("foo") in TargetNames(Name("foo"));
    assert Some("foo") in HeaderNames(assign.kind);
    assert [assign] + [] + [foo] + [bar] == [assign, foo, bar];
    EarlierBindingKeepsStatement(env, assign, [], foo, [bar], st);
    var pre := [assign, foo];
    assert pre + [bar] == [assign, foo, bar];
    var after := WalkBlock(env, pre, st).contexts;
    WalkBlockEvolves(env, pre, st);
    assert !Bound(after, Some("bar")) by {
      forall i | 0 <= i < |after| ensures Some("bar") !in after[i] {
        if i < |after| - 1 {
          assert i == 0;
        } else {
          assert pre[0] == assign && pre[1..] == [foo];
          assert [foo][0] == foo && [foo][1..] == [];
          var h := Walk(env, assign, st).contexts;
          assert AssignedNames([Name("foo")]) == {Some("foo")};
          assert h == AddTop(st, {Some("foo")});
          assert Walk(env, foo, h).contexts == h;
          assert WalkBlock(env, [foo], h).contexts == h;
          assert after == h;
        }
      }
    }
    assert pre + [bar] + [] == [assign, foo, bar];
    UnboundStatementReparsed(env, pre, bar, [], st);
  }

  /** Inside `def f():`, `x = 1` followed by `x`: the use is kept, and the
      definition's walk is the definition with that body. */
  lemma LocalUseKept(env: Env, def: Stmt, st: Stack)
    requires def.kind == FunctionDef("f", [Stmt(Assign([Name("x")], OtherExpr("Num", [])), 2, 4),
                                           Stmt(Expr(Name("x")), 3, 4)])
    requires 2 <= |st| && ParserYieldsStatement(env.parse) && |env.lines| == 4
    ensures LinesWithin(def, |env.lines|)
    ensures var o := Walk(env, def, st).tree;
            o.kind.FunctionDef? && |o.kind.body| == 2 && o.kind.body[1] == Stmt(Expr(Name("x")), 3, 4)
  {
    var assign := Stmt(Assign([Name("x")], OtherExpr("Num", [])), 2, 4);
    var inner := Stmt(Expr(Name("x")), 3, 4);
    var p := Push(AddTop(st, {Some("f")}));
    assert Some("x") in TargetNames(Name("x"));
    assert Some("x") in HeaderNames(assign.kind);
    assert [assign] + [] + [inner] + [] == [assign, inner];
    EarlierBindingKeepsStatement(env, assign, [], inner, [], p);
    assert BlockLinesWithin([assign, inner], |env.lines|);
    assert Walk(env, def, st).tree == def.(kind := FunctionDef("f", WalkBlock(env, [assign, inner], p).tree));
  }

  /** The same definition, visited where `x` is unbound, leaves `x` unbound:
      the name the body binds is gone with the body's frame. */
  lemma LocalNameGone(env: Env, def: Stmt, st: Stack)
    requires def.kind == FunctionDef("f", [Stmt(Assign([Name("x")], OtherExpr("Num", [])), 2, 4),
                                           Stmt(Expr(Name("x")), 3, 4)])
    requires 2 <= |st| && ParserYieldsStatement(env.parse) && |env.lines| == 4
    requires !Bound(st, Some("x"))
    ensures LinesWithin(def, |env.lines|)
    ensures !Bound(Walk(env, def, st).contexts, Some("x"))
  {
    var assign := Stmt(Assign([Name("x")], OtherExpr("Num", [])), 2, 4);
    var inner := Stmt(Expr(Name("x")), 3, 4);
    assert BlockLinesWithin([assign, inner], |env.lines|);
    DefinitionScoped(env, def, st, Some("x"));
    assert CollectedBlock(GlobalDeclared, [inner]) == {};
    assert CollectedBlock(GlobalDeclared, [assign, inner]) == {};
  }

  /** `def f():` binding `x` and using it, then `x` at module level: the
      inner use is kept, the outer one is reparsed since the function's frame
      is gone. */
  lemma {:induction false} FunctionLocalName(env: Env)
    requires ParserYieldsStatement(env.parse) && |env.lines| == 4
    ensures BlockLinesWithin([Stmt(FunctionDef("f", [Stmt(Assign([Name("x")], OtherExpr("Num", [])), 2, 4),
                                                      Stmt(Expr(Name("x")), 3, 4)]), 1, 0),
                              Stmt(Expr(Name("x")), 4, 0)], |env.lines|)
    ensures var inner := Stmt(Expr(Name("x")), 3, 4);
            var def := Stmt(FunctionDef("f", [Stmt(Assign([Name("x")], OtherExpr("Num", [])), 2, 4), inner]), 1, 0);
            var outer := Stmt(Expr(Name("x")), 4, 0);
            var r := Disambiguate(env, [def, outer], {});
            && |r| == 2
            && r[0].kind.FunctionDef? && |r[0].kind.body| == 2 && r[0].kind.body[1] == inner
            && r[1] == Reparsed(env, outer)
  {
    var assign := Stmt(Assign([Name("x")], OtherExpr("Num", [])), 2, 4);
    var inner := Stmt(Expr(Name("x")), 3, 4);
    var def := Stmt(FunctionDef("f", [assign, inner]), 1, 0);
    var outer := Stmt(Expr(Name("x")), 4, 0);
    var st := Initial({});
    LocalUseKept(env, def, st);
    LocalNameGone(env, def, st);
    WalkBlockSingle(env, def, st);
    assert [def] + [outer] + [] == [def, outer];
    UnboundStatementReparsed(env, [def], outer, [], st);
    assert [def, outer][0] == def && [def, outer][1..] == [outer];
    assert WalkBlock(env, [def, outer], st).tree[0] == Walk(env, def, st).tree;
  }

  /** `del` of a single name no frame holds leaves the statement and the
      stack as they are. */
  lemma DeleteOfUnboundName(env: Env, del: Stmt, x: string, st: Stack)
    requires del.kind == Delete([Name(x)])
    requires 2 <= |st| && ParserYieldsStatement(env.parse) && !Bound(st, Some(x))
    ensures LinesWithin(del, |env.lines|)
    ensures Walk(env, del, st) == Visited(del, st)
  {
    RemoveInnermostUnbound(st, Some(x));
    assert [Name(x)][..0] == [];
    assert Unbind(st, [Name(x)]) == st;
  }

  /** `del x` of a name never bound changes nothing, so a following `x` is
      still reparsed. */
  lemma {:induction false} DeleteUnbound(env: Env)
    requires ParserYieldsStatement(env.parse) && |env.lines| == 2
    ensures var del := Stmt(Delete([Name("x")]), 1, 0);
            var use := Stmt(Expr(Name("x")), 2, 0);
            var r := Disambiguate(env, [del, use], {});
            |r| == 2 && r[0] == del && r[1] == Reparsed(env, use)
  {
    var del := Stmt(Delete([Name("x")]), 1, 0);
    var use := Stmt(Expr(Name("x")), 2, 0);
    var st := Initial({});
    assert !Bound(st, Some("x"));
    DeleteOfUnboundName(env, del, "x", st);
    WalkBlockSingle(env, del, st);
    assert [del] + [use] == [del, use];
    assert [del, use][0] == del && [del, use][1..] == [use];
    assert [del] + [use] + [] == [del, use];
    UnboundStatementReparsed(env, [del], use, [], st);
  }

  /** `ls -la` with `ls` in the root context: the statement is Python and is
      kept as it is. */
  lemma RootNameKept(env: Env)
    requires ParserYieldsStatement(env.parse) && |env.lines| == 1
    ensures var ls := Stmt(Expr(BinOp(Name("ls"), Name("la"))), 1, 0);
            Disambiguate(env, [ls], {"ls"}) == [ls]
  {
    var ls := Stmt(Expr(BinOp(Name("ls"), Name("la"))), 1, 0);
    var st := Initial({"ls"});
    assert Some("ls") in st[0];
    assert Walk(env, ls, st) == Visited(ls, st);
    assert [ls][0] == ls && [ls][1..] == [];
  }

  /** `def f(): del x` removes `x` from the innermost frame holding it, here
      the module frame, so a later `x` is reparsed. */
  lemma DelInFunction(env: Env, def: Stmt, st: Stack)
    requires def.kind == FunctionDef("f", [Stmt(Delete([Name("x")]), 3, 4)])
    requires |st| == 2 && Some("x") in st[1] && Some("x") !in st[0]
    requires ParserYieldsStatement(env.parse)
    ensures LinesWithin(def, |env.lines|)
    ensures !Bound(Walk(env, def, st).contexts, Some("x"))
  {
    var del := Stmt(Delete([Name("x")]), 3, 4);
    var p := Push(AddTop(st, {Some("f")}));
    assert InnermostHolder(p, Some("x"), 1);
    RemoveInnermostCases(p, Some("x"), 1);
    assert [Name("x")][..0] == [];
    var q := Unbind(p, [Name("x")]);
    assert q == p[1 := p[1] - {Some("x")}];
    assert Walk(env, del, p).contexts == q;
    WalkBlockSingle(env, del, p);
    assert GenericWalk(env, def, p).contexts == q;
    assert Walk(env, def, st).contexts == Pop(q);
  }

  /** `x = 1`, `def f(): del x`, `x`: the `del` in the function reaches the
      module-level `x`, so the last statement is reparsed. */
  lemma {:induction false} DelInFunctionRemovesOuter(env: Env)
    requires ParserYieldsStatement(env.parse) && |env.lines| == 4
    ensures var assign := Stmt(Assign([Name("x")], OtherExpr("Num", [])), 1, 0);
            var def := Stmt(FunctionDef("f", [Stmt(Delete([Name("x")]), 3, 4)]), 2, 0);
            var use := Stmt(Expr(Name("x")), 4, 0);
            var r := Disambiguate(env, [assign, def, use], {});
            |r| == 3 && r[2] == Reparsed(env, use)
  {
    var assign := Stmt(Assign([Name("x")], OtherExpr("Num", [])), 1, 0);
    var def := Stmt(FunctionDef("f", [Stmt(Delete([Name("x")]), 3, 4)]), 2, 0);
    var use := Stmt(Expr(Name("x")), 4, 0);
    var st := Initial({});
    assert TargetNames(Name("x")) == {Some("x")};
    assert forall t :: t in [Name("x")] ==> t == Name("x");
    assert AssignedNames([Name("x")]) == {Some("x")};
    var h := Walk(env, assign, st).contexts;
    assert h == AddTop(st, {Some("x")});
    DelInFunction(env, def, h);
    var pre := [assign, def];
    assert pre[0] == assign && pre[1..] == [def];
    WalkBlockSingle(env, def, h);
    assert WalkBlock(env, pre, st).contexts == Walk(env, def, h).contexts;
    assert pre + [use] + [] == [assign, def, use];
    UnboundStatementReparsed(env, pre, use, [], st);
  }
}
