/**
 * The scope stack of the transformer: a list of frames, each the set of names
 * bound at that level. Frame 0 is the caller's root context, frame 1 the
 * module-level ("global") frame, and each function or class body being
 * visited adds one more frame on top.
 *
 * A bound name is an `Option<string>`: `leftmostname` of an assignment target
 * that has no leftmost name is `None`, and the source adds that `None` to the
 * frame like any other name.
 */
module Scopes {
  import opened Wrappers

  type Ident = Option<string>
  type Frame = set<Ident>
  type Stack = seq<Frame>

  /** `x` is bound in some frame of the stack. */
  predicate Bound(st: Stack, x: Ident)
  {
    exists i :: 0 <= i < |st| && x in st[i]
  }

  /** The root frame and the empty global frame that a run starts from. */
  function Initial(root: set<string>): (r: Stack)
    ensures |r| == 2 && r[1] == {}
    ensures forall x :: x in r[0] <==> x.Some? && x.value in root
  {
    [set n | n in root :: Some(n)] + [{}]
  }

  /** Binds `xs` in the innermost frame (`contexts[-1].update(xs)`). */
  function AddTop(st: Stack, xs: set<Ident>): (r: Stack)
    requires |st| > 0
    ensures |r| == |st| && r[|st| - 1] == st[|st| - 1] + xs
    ensures r[..|st| - 1] == st[..|st| - 1]
  {
    st[|st| - 1 := st[|st| - 1] + xs]
  }

  /** Binding nothing changes nothing. */
  lemma AddTopNothing(st: Stack)
    requires |st| > 0
    ensures AddTop(st, {}) == st
  {
    assert st[|st| - 1] + {} == st[|st| - 1];
  }

  /** Two bindings in the innermost frame are one binding of both. */
  lemma AddTopTwice(st: Stack, xs: set<Ident>, ys: set<Ident>)
    requires |st| > 0
    ensures AddTop(AddTop(st, xs), ys) == AddTop(st, xs + ys)
  {
    assert AddTop(st, xs)[|st| - 1] + ys == st[|st| - 1] + (xs + ys);
  }

  /** Binds `xs` in the global frame, index 1, whatever the depth. */
  function AddGlobal(st: Stack, xs: set<Ident>): (r: Stack)
    requires |st| > 1
    ensures |r| == |st| && r[1] == st[1] + xs
    ensures r[0] == st[0] && r[2..] == st[2..]
  {
    st[1 := st[1] + xs]
  }

  /** Enters a function or class body. */
  function Push(st: Stack): (r: Stack)
    ensures |r| == |st| + 1 && r[|st|] == {} && r[..|st|] == st
  {
    st + [{}]
  }

  /** Leaves a function or class body, discarding its frame. */
  function Pop(st: Stack): (r: Stack)
    requires |st| > 0
    ensures |r| == |st| - 1 && r + [st[|st| - 1]] == st
  {
    st[..|st| - 1]
  }

  /** Leaving a body drops exactly the frame entering it added. */
  lemma PopPush(st: Stack)
    ensures Pop(Push(st)) == st
  {
    assert (st + [{}])[..|st|] == st;
  }

  /** Removes `x` from the innermost frame that holds it, if any. */
  function RemoveInnermost(st: Stack, x: Ident): (r: Stack)
    ensures |r| == |st|
  {
    if st == [] then []
    else if x in st[|st| - 1] then st[..|st| - 1] + [st[|st| - 1] - {x}]
    else RemoveInnermost(st[..|st| - 1], x) + [st[|st| - 1]]
  }

  /** `k` is the innermost frame that binds `x`. */
  predicate InnermostHolder(st: Stack, x: Ident, k: int)
  {
    0 <= k < |st| && x in st[k] && forall j :: k < j < |st| ==> x !in st[j]
  }

  /** A bound name has an innermost frame holding it. */
  lemma {:induction false} InnermostHolderOf(st: Stack, x: Ident) returns (k: int)
    requires Bound(st, x)
    ensures InnermostHolder(st, x, k)
  {
    var n := |st| - 1;
    if x in st[n] {
      k := n;
    } else {
      var init := st[..n];
      assert Bound(init, x) by {
        var i :| 0 <= i < |st| && x in st[i];
        assert i < n && init[i] == st[i];
      }
      k := InnermostHolderOf(init, x);
      assert forall j :: k < j < n ==> st[j] == init[j];
    }
  }

  /** Removal from a stack whose innermost holder of the name is frame `k`
      takes the name out of frame `k` alone. */
  lemma {:induction false} RemoveInnermostAt(st: Stack, x: Ident, k: int)
    requires InnermostHolder(st, x, k)
    ensures RemoveInnermost(st, x) == st[k := st[k] - {x}]
  {
    var n := |st| - 1;
    var init := st[..n];
    if x !in st[n] {
      assert k < n && InnermostHolder(init, x, k);
      RemoveInnermostAt(init, x, k);
      assert init[k := init[k] - {x}] + [st[n]] == st[k := st[k] - {x}];
    } else {
      assert k == n;
      assert init + [st[n] - {x}] == st[n := st[n] - {x}];
    }
  }

  /** Removal of a name no frame holds changes nothing. */
  lemma {:induction false} RemoveInnermostUnbound(st: Stack, x: Ident)
    requires !Bound(st, x)
    ensures RemoveInnermost(st, x) == st
  {
    if st != [] {
      var n := |st| - 1;
      var init := st[..n];
      assert x !in st[n];
      forall i | 0 <= i < |init| ensures x !in init[i] {
        assert init[i] == st[i];
      }
      RemoveInnermostUnbound(init, x);
      assert init + [st[n]] == st;
    }
  }

  /** Removal touches only the innermost frame holding the name, and leaves
      the stack as it was when no frame holds it. */
  lemma RemoveInnermostCases(st: Stack, x: Ident, k: int)
    ensures InnermostHolder(st, x, k) ==> RemoveInnermost(st, x) == st[k := st[k] - {x}]
    ensures !Bound(st, x) ==> RemoveInnermost(st, x) == st
  {
    if InnermostHolder(st, x, k) {
      RemoveInnermostAt(st, x, k);
    }
    if !Bound(st, x) {
      RemoveInnermostUnbound(st, x);
    }
  }

  /** After a removal the name is still bound exactly when a frame other than
      the innermost one that held it also holds it. */
  lemma RemoveInnermostBound(st: Stack, x: Ident, k: int)
    requires InnermostHolder(st, x, k)
    ensures Bound(RemoveInnermost(st, x), x) <==> exists i :: 0 <= i < k && x in st[i]
  {
    RemoveInnermostCases(st, x, k);
    var r := RemoveInnermost(st, x);
    if Bound(r, x) {
      var i :| 0 <= i < |r| && x in r[i];
      assert i != k && i < k;
    }
    if exists i :: 0 <= i < k && x in st[i] {
      var i :| 0 <= i < k && x in st[i];
      assert x in r[i];
    }
  }

  /** Binding in the innermost frame makes the new names bound and changes
      the binding of no other name. */
  lemma AddTopBound(st: Stack, xs: set<Ident>, y: Ident)
    requires |st| > 0
    ensures Bound(AddTop(st, xs), y) <==> Bound(st, y) || y in xs
  {
    var r := AddTop(st, xs);
    if y in xs {
      assert y in r[|st| - 1];
    }
    if Bound(st, y) {
      var i :| 0 <= i < |st| && y in st[i];
      assert y in r[i];
    }
    if Bound(r, y) {
      var i :| 0 <= i < |r| && y in r[i];
      assert y in st[i] || y in xs;
    }
  }

  /** Binding in the global frame makes the new names bound and changes the
      binding of no other name, whatever the depth. */
  lemma AddGlobalBound(st: Stack, xs: set<Ident>, y: Ident)
    requires |st| > 1
    ensures Bound(AddGlobal(st, xs), y) <==> Bound(st, y) || y in xs
  {
    var r := AddGlobal(st, xs);
    if y in xs {
      assert y in r[1];
    }
    if Bound(st, y) {
      var i :| 0 <= i < |st| && y in st[i];
      assert y in r[i];
    }
    if Bound(r, y) {
      var i :| 0 <= i < |r| && y in r[i];
      assert y in st[i] || y in xs;
    }
  }
}
