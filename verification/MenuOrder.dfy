/**
Finalizing visits every node once, in definition order, and leaves a tree with
the same nodes in the same order, without `if` nodes and promptless menus.
*/
module MenuOrder {
  import opened Options
  import opened KconfigModel
  import opened MenuTree

  lemma {:induction false} PreorderConcat(f: seq<Tree>, g: seq<Tree>)
    ensures Preorder(f + g) == Preorder(f) + Preorder(g)
  {
    if f == [] {
      assert f + g == g;
    } else {
      assert (f + g)[0] == f[0] && (f + g)[1..] == f[1..] + g;
      PreorderConcat(f[1..], g);
    }
  }

  lemma PreorderCons(t: Tree, f: seq<Tree>)
    ensures Preorder([t] + f) == [t.id] + Preorder(t.children) + Preorder(f)
  {
    assert ([t] + f)[1..] == f;
  }

  lemma PreorderOne(t: Tree)
    ensures Preorder([t]) == [t.id] + Preorder(t.children)
    ensures Preorder([]) == []
  {
    assert [t][1..] == [];
  }

  /** The ids that do not belong to `if` nodes. */
  function NonIf(s: State, ids: seq<NodeId>): seq<NodeId> {
    if ids == [] then []
    else (if IsIf(s, ids[0]) then [] else [ids[0]]) + NonIf(s, ids[1..])
  }

  lemma {:induction false} NonIfConcat(s: State, a: seq<NodeId>, b: seq<NodeId>)
    ensures NonIf(s, a + b) == NonIf(s, a) + NonIf(s, b)
  {
    if a == [] {
      assert a + b == b;
    } else {
      assert (a + b)[1..] == a[1..] + b;
      NonIfConcat(s, a[1..], b);
    }
  }

  /** Same nodes of the same kind, with a prompt or without. */
  ghost predicate SameShape(s: State, r: State) {
    && r.kind == s.kind && |r.props| == |s.props|
    && forall i :: 0 <= i < |s.props| ==> r.props[i].prompt.None? == s.props[i].prompt.None?
  }

  /** Trees as the parser leaves them: of known nodes, symbols and comments without children. */
  predicate Parsed(s: State, f: seq<Tree>) {
    f == [] || (Known(s, f[0].id) && (s.kind[f[0].id].SymbolNode? ==> f[0].children == [])
                && Parsed(s, f[0].children) && Parsed(s, f[1..]))
  }

  /** `if` nodes never have prompts. */
  ghost predicate IfsPlain(s: State) {
    forall i: NodeId :: IsIf(s, i) ==> s.props[i].prompt.None?
  }

  lemma {:induction false} PropagateShape(s: State, f: seq<Tree>, base: Expr, vis: Expr)
    ensures SameShape(s, Propagate(s, f, base, vis))
    decreases |f|
  {
    if f != [] {
      var i := f[0].id;
      var s1 := if Known(s, i) then SetProps(s, i, Pushed(s.kind[i], s.props[i], base, vis)) else s;
      PropagateShape(s1, f[1..], base, vis);
    }
  }

  lemma {:induction false} SameParsed(s: State, r: State, f: seq<Tree>)
    requires SameShape(s, r) && Parsed(s, f)
    ensures Parsed(r, f)
    decreases Size(f)
  {
    if f != [] {
      SameParsed(s, r, f[0].children);
      SameParsed(s, r, f[1..]);
    }
  }

  lemma SameIfs(s: State, r: State)
    requires SameShape(s, r) && IfsPlain(s)
    ensures IfsPlain(r)
  {
    forall i: NodeId | IsIf(r, i) ensures r.props[i].prompt.None? {
      assert IsIf(s, i);
    }
  }

  lemma {:induction false} SameNonIf(s: State, r: State, ids: seq<NodeId>)
    requires SameShape(s, r)
    ensures NonIf(s, ids) == NonIf(r, ids)
  {
    if ids != [] {
      SameNonIf(s, r, ids[1..]);
    }
  }

  // -- levels -----------------------------------------------------------------

  /** A node with children and without a prompt that is no choice. */
  predicate Promptless(s: State, t: Tree) {
    |t.children| > 0 && Known(s, t.id) && !s.props[t.id].prompt.Some?
    && (s.kind[t.id].SymbolNode? || s.kind[t.id].MENU? || s.kind[t.id].COMMENT? || s.kind[t.id].IF?)
  }

  /** No `if` node and no promptless menu anywhere in the forest. */
  predicate Clean(s: State, f: seq<Tree>) {
    f == [] || (!IsIf(s, f[0].id) && !Promptless(s, f[0]) && Clean(s, f[0].children) && Clean(s, f[1..]))
  }

  /** The levels below the roots are clean. */
  predicate CleanBelow(s: State, f: seq<Tree>) {
    forall i :: 0 <= i < |f| ==> Clean(s, f[i].children)
  }

  predicate Flat(s: State, f: seq<Tree>) {
    forall i :: 0 <= i < |f| ==> !Promptless(s, f[i])
  }

  lemma {:induction false} CleanIsBelow(s: State, f: seq<Tree>)
    requires Clean(s, f)
    ensures CleanBelow(s, f)
  {
    if f != [] {
      CleanIsBelow(s, f[1..]);
      forall i | 0 <= i < |f| ensures Clean(s, f[i].children) {
        assert i > 0 ==> f[i] == f[1..][i - 1];
      }
    }
  }

  lemma {:induction false} SameClean(s: State, r: State, f: seq<Tree>)
    requires SameShape(s, r)
    ensures Clean(s, f) == Clean(r, f)
    decreases Size(f)
  {
    if f != [] {
      SameClean(s, r, f[0].children);
      SameClean(s, r, f[1..]);
    }
  }

  lemma {:induction false} FlattenLevel(s: State, f: seq<Tree>)
    requires CleanBelow(s, f)
    ensures Preorder(Flatten(s, f)) == Preorder(f)
    ensures Flat(s, Flatten(s, f)) && CleanBelow(s, Flatten(s, f))
    decreases Size(f)
  {
    if f != [] {
      var t, rest := f[0], f[1..];
      assert CleanBelow(s, rest);
      if Dissolves(s, t) {
        SizeConcat(t.children, rest);
        CleanIsBelow(s, t.children);
        FlattenLevel(s, t.children + rest);
        PreorderConcat(t.children, rest);
        PreorderCons(Tree(t.id, []), Flatten(s, t.children + rest));
      } else {
        FlattenLevel(s, rest);
        PreorderCons(t, Flatten(s, rest));
      }
    }
  }

  /** The trees of a flattened level: promptless menus are emptied and their children join it, all others stay as they are. */
  function Surface(s: State, f: seq<Tree>): set<Tree>
    decreases Size(f)
  {
    if f == [] then {}
    else (if Promptless(s, f[0]) then {Tree(f[0].id, [])} + Surface(s, f[0].children) else {f[0]}) + Surface(s, f[1..])
  }

  lemma {:induction false} SurfaceConcat(s: State, f: seq<Tree>, g: seq<Tree>)
    ensures Surface(s, f + g) == Surface(s, f) + Surface(s, g)
  {
    if f == [] {
      assert f + g == g;
    } else {
      assert (f + g)[0] == f[0] && (f + g)[1..] == f[1..] + g;
      SurfaceConcat(s, f[1..], g);
    }
  }

  lemma {:induction false} FlattenSurfaces(s: State, f: seq<Tree>)
    ensures (set t | t in Flatten(s, f)) == Surface(s, f)
    decreases Size(f)
  {
    if f != [] {
      var t, rest := f[0], f[1..];
      if Promptless(s, t) {
        SizeConcat(t.children, rest);
        FlattenSurfaces(s, t.children + rest);
        SurfaceConcat(s, t.children, rest);
        var g := Flatten(s, t.children + rest);
        assert Flatten(s, f) == [Tree(t.id, [])] + g;
        assert (set x | x in [Tree(t.id, [])] + g) == {Tree(t.id, [])} + (set x | x in g);
      } else {
        FlattenSurfaces(s, rest);
        var g := Flatten(s, rest);
        assert Flatten(s, f) == [t] + g;
        assert (set x | x in [t] + g) == {t} + (set x | x in g);
      }
    }
  }

  lemma {:induction false} RemoveIfsLevel(s: State, f: seq<Tree>)
    requires IfsPlain(s) && Flat(s, f) && CleanBelow(s, f)
    ensures NonIf(s, Preorder(RemoveIfs(s, f))) == NonIf(s, Preorder(f))
    ensures Clean(s, RemoveIfs(s, f))
  {
    if f != [] {
      var t, rest := f[0], f[1..];
      RemoveIfsLevel(s, rest);
      if IsIf(s, t.id) {
        assert t.children == [];
        assert Preorder(f)[1..] == Preorder(rest);
      } else {
        PreorderCons(t, RemoveIfs(s, rest));
        assert ([t] + RemoveIfs(s, rest))[1..] == RemoveIfs(s, rest);
        NonIfConcat(s, [t.id] + Preorder(t.children), Preorder(RemoveIfs(s, rest)));
        NonIfConcat(s, [t.id] + Preorder(t.children), Preorder(rest));
      }
    }
  }

  /** Finishing one level keeps the order of its nodes and leaves it clean. */
  lemma LevelKeeps(s: State, t: Tree)
    requires IfsPlain(s) && CleanBelow(s, t.children)
    ensures Level(s, t).id == t.id && Clean(s, Level(s, t).children)
    ensures NonIf(s, Preorder([Level(s, t)])) == NonIf(s, Preorder([t]))
  {
    if t.children != [] {
      FlattenLevel(s, t.children);
      RemoveIfsLevel(s, Flatten(s, t.children));
      PreorderOne(t);
      PreorderOne(Level(s, t));
      NonIfConcat(s, [t.id], Preorder(t.children));
      NonIfConcat(s, [t.id], Preorder(Level(s, t).children));
    }
  }

  // -- the whole tree ---------------------------------------------------------------

  /** From a forest to the forest g and the unconsumed rest: same nodes in order, all of f's logged. */
  ghost predicate Ordered(s: State, f: seq<Tree>, g: seq<Tree>, rest: seq<Tree>, r: State) {
    && SameShape(s, r) && IfsPlain(r) && CleanBelow(r, g) && Parsed(r, rest)
    && r.log + Preorder(rest) == s.log + Preorder(f)
    && NonIf(r, Preorder(g) + Preorder(rest)) == NonIf(r, Preorder(f))
  }

  lemma ShapeTrans(s: State, r: State, q: State)
    requires SameShape(s, r) && SameShape(r, q)
    ensures SameShape(s, q)
  {}

  lemma SameBelow(s: State, r: State, g: seq<Tree>)
    requires SameShape(s, r) && CleanBelow(s, g)
    ensures CleanBelow(r, g)
  {
    forall i | 0 <= i < |g| ensures Clean(r, g[i].children) {
      SameClean(s, r, g[i].children);
    }
  }

  /** Finalizing a head and then the rest. */
  lemma OrderedCons(s: State, t: Tree, f: seq<Tree>, d: Done, gs: seq<Tree>, rest: seq<Tree>, r: State)
    requires Ordered(s, [t] + f, [d.node], d.rest, d.s) && Ordered(d.s, d.rest, gs, rest, r)
    ensures Ordered(s, [t] + f, [d.node] + gs, rest, r)
  {
    hide Clean, NonIf, Preorder, Parsed;
    ShapeTrans(s, d.s, r);
    SameBelow(d.s, r, [d.node]);
    PreorderConcat([d.node], gs);
    var a, b, c, all := Preorder([d.node]), Preorder(gs), Preorder(rest), Preorder([t] + f);
    NonIfConcat(r, a, b + c);
    assert a + b + c == a + (b + c);
    NonIfConcat(r, a, Preorder(d.rest));
    SameNonIf(d.s, r, all);
    SameNonIf(d.s, r, a + Preorder(d.rest));
  }

  lemma SymbolOrder(t: Tree, rest: seq<Tree>, s: State, vis: Expr, kids: seq<Tree>, rest1: seq<Tree>, s1: State, s2: State)
    requires IfsPlain(s) && Parsed(s, [t] + rest) && t.children == []
    requires s1 == s.(log := s.log + [t.id], items := s1.items) && Ordered(s1, rest, kids, rest1, s2)
    ensures Ordered(s, [t] + rest, [Level(s2, if kids == [] then t else Tree(t.id, kids))], rest1, s2)
  {
    hide Clean, Level, Parsed, NonIf, Preorder, IsIf;
    var t1 := if kids == [] then t else Tree(t.id, kids);
    LevelKeeps(s2, t1);
    PreorderCons(t, rest);
    PreorderOne(t1);
    var a := [t.id];
    assert s1.log + Preorder(rest) == s.log + (a + Preorder(rest));
    assert Preorder([t] + rest) == a + Preorder(rest);
    ShapeTrans(s, s1, s2);
    NonIfConcat(s2, a, Preorder(rest));
    NonIfConcat(s2, a, Preorder(kids) + Preorder(rest1));
    NonIfConcat(s2, Preorder([Level(s2, t1)]), Preorder(rest1));
    NonIfConcat(s2, Preorder([t1]), Preorder(rest1));
    assert a + (Preorder(kids) + Preorder(rest1)) == Preorder([t1]) + Preorder(rest1);
  }

  lemma EmptyPreorder()
    ensures Preorder([]) == []
  {}

  lemma ParsedParts(s: State, t: Tree, rest: seq<Tree>)
    requires Parsed(s, [t] + rest)
    ensures Known(s, t.id) && Parsed(s, t.children) && Parsed(s, rest)
    ensures s.kind[t.id].SymbolNode? ==> t.children == []
  {
    assert ([t] + rest)[1..] == rest;
  }

  lemma OtherOrder(t: Tree, rest: seq<Tree>, s: State, s1: State, kids: seq<Tree>, s2: State, r: State)
    requires IfsPlain(s) && Parsed(s, [t] + rest)
    requires SameShape(s, s1) && s1.log == s.log + [t.id] && Ordered(s1, t.children, kids, [], s2)
    requires r == s2.(items := r.items)
    ensures Ordered(s, [t] + rest, [Level(s2, Tree(t.id, kids))], rest, r)
  {
    ParsedParts(s, t, rest);
    hide Clean, Level, NonIf, Preorder, Parsed, IsIf;
    var t1 := Tree(t.id, kids);
    ShapeTrans(s, s1, s2);
    SameIfs(s2, r);
    SameParsed(s, r, rest);
    LevelKeeps(s2, t1);
    assert kids == t1.children;
    OtherLog(t, rest, s, s1, s2);
    OtherNodes(s2, r, t, t1, rest, Level(s2, t1));
    SameBelow(s2, r, [Level(s2, t1)]);
  }

  /** The node and then those below it have been logged. */
  lemma OtherLog(t: Tree, rest: seq<Tree>, s: State, s1: State, s2: State)
    requires s1.log == s.log + [t.id] && s2.log + Preorder([]) == s1.log + Preorder(t.children)
    ensures s2.log + Preorder(rest) == s.log + Preorder([t] + rest)
  {
    EmptyPreorder();
    PreorderCons(t, rest);
    hide Preorder;
    var a, cs, rs := [t.id], Preorder(t.children), Preorder(rest);
    assert s2.log == s.log + a + cs by { assert s2.log + [] == s2.log; }
    assert s.log + a + cs + rs == s.log + (a + cs + rs);
  }

  /** And are kept, but for `if` nodes. */
  lemma OtherNodes(s: State, r: State, t: Tree, t1: Tree, rest: seq<Tree>, t2: Tree)
    requires SameShape(s, r) && t1.id == t.id
    requires NonIf(s, Preorder(t1.children) + Preorder([])) == NonIf(s, Preorder(t.children))
    requires NonIf(s, Preorder([t2])) == NonIf(s, Preorder([t1]))
    ensures NonIf(r, Preorder([t2]) + Preorder(rest)) == NonIf(r, Preorder([t] + rest))
  {
    EmptyPreorder();
    PreorderCons(t, rest);
    PreorderOne(t1);
    hide Preorder, NonIf, SameShape;
    var a, cs, ks, rs, ls := [t.id], Preorder(t.children), Preorder(t1.children), Preorder(rest), Preorder([t2]);
    assert ks + [] == ks;
    NonIfConcat(s, a + cs, rs);
    NonIfConcat(s, a, cs);
    NonIfConcat(s, a, ks);
    NonIfConcat(s, ls, rs);
    SameNonIf(s, r, a + cs + rs);
    SameNonIf(s, r, ls + rs);
  }

  lemma {:induction false} NodeOrder(t: Tree, rest: seq<Tree>, s: State, vis: Expr)
    requires IfsPlain(s) && Parsed(s, [t] + rest)
    ensures var d := FinalizeNode(t, rest, s, vis);
      d.node.id == t.id && Ordered(s, [t] + rest, [d.node], d.rest, d.s)
    decreases 1 + Size(t.children) + Size(rest), 1
  {
    hide Clean, Level, Preorder, NonIf, Flatten, RemoveIfs;
    ParsedParts(s, t, rest);
    var s0 := s.(log := s.log + [t.id]);
    var k := s.kind[t.id];
    if k.SymbolNode? {
      var s1 := s0.(items := AddProps(s0.items, k.sym, s0.props[t.id]));
      SameParsed(s, s1, rest);
      SameIfs(s, s1);
      AbsorbOrder(t.id, rest, s1, vis);
      var (kids, rest1, s2) := Absorb(t.id, rest, s1, vis);
      SymbolOrder(t, rest, s, vis, kids, rest1, s1, s2);
      LevelId(s2, if kids == [] then t else Tree(t.id, kids));
    } else if t.children == [] {
      EmptyPreorder();
      SameIfs(s, s0);
      OrderedNothing(s0);
      OtherOrder(t, rest, s, s0, [], s0, FinalizeChoice(s0, t));
      LevelId(s0, t);
    } else {
      var inner := InnerVisible(k, s0.props[t.id], vis);
      var s1 := Propagate(s0, t.children, BaseDep(k, s0.props[t.id]), inner);
      PropagateShape(s0, t.children, BaseDep(k, s0.props[t.id]), inner);
      SameParsed(s, s1, t.children);
      SameIfs(s, s1);
      AllOrder(t.children, s1, inner);
      var (kids, s2) := FinalizeAll(t.children, s1, inner);
      var t1 := Level(s2, Tree(t.id, kids));
      OtherOrder(t, rest, s, s1, kids, s2, FinalizeChoice(s2, t1));
      LevelId(s2, Tree(t.id, kids));
    }
  }

  lemma LevelId(s: State, t: Tree)
    ensures Level(s, t).id == t.id && (t.children == [] ==> Level(s, t) == t)
  {}

  lemma OrderedNothing(s: State)
    requires IfsPlain(s)
    ensures Ordered(s, [], [], [], s)
  {}

  lemma {:induction false} AbsorbOrder(i: NodeId, rest: seq<Tree>, s: State, vis: Expr)
    requires IfsPlain(s) && Parsed(s, rest)
    ensures var (kids, rest1, s1) := Absorb(i, rest, s, vis);
      Ordered(s, rest, kids, rest1, s1)
    decreases Size(rest), 2
  {
    if rest == [] || !AutoMenuDep(s, i, rest[0].id) {
      OrderedStart(s, rest);
    } else {
      hide Clean, Preorder, NonIf;
      assert rest == [rest[0]] + rest[1..];
      NodeOrder(rest[0], rest[1..], s, vis);
      var d := FinalizeNode(rest[0], rest[1..], s, vis);
      AbsorbOrder(i, d.rest, d.s, vis);
      var (kids, rest1, s1) := Absorb(i, d.rest, d.s, vis);
      OrderedCons(s, rest[0], rest[1..], d, kids, rest1, s1);
    }
  }

  lemma OrderedStart(s: State, rest: seq<Tree>)
    requires IfsPlain(s) && Parsed(s, rest)
    ensures Ordered(s, rest, [], rest, s)
  {
    assert Preorder([]) + Preorder(rest) == Preorder(rest);
  }

  lemma {:induction false} AllOrder(f: seq<Tree>, s: State, vis: Expr)
    requires IfsPlain(s) && Parsed(s, f)
    ensures var (ts, s1) := FinalizeAll(f, s, vis);
      Ordered(s, f, ts, [], s1)
    decreases Size(f), 2
  {
    if f == [] {
      OrderedNothing(s);
    } else {
      hide Clean, Preorder, NonIf;
      assert f == [f[0]] + f[1..];
      NodeOrder(f[0], f[1..], s, vis);
      var d := FinalizeNode(f[0], f[1..], s, vis);
      AllOrder(d.rest, d.s, vis);
      var (ts, s1) := FinalizeAll(d.rest, d.s, vis);
      OrderedCons(s, f[0], f[1..], d, ts, [], s1);
    }
  }

  /**
  Finalizing the whole tree visits each node exactly once, in definition order;
  the finished tree has the same nodes in the same order except for its `if`
  nodes, and neither `if` nodes nor promptless menus at any level.
  */
  lemma FinalizedTree(top: Tree, s: State)
    requires IfsPlain(s) && Parsed(s, [top]) && !IsIf(s, top.id) && s.log == []
    ensures var d := FinalizeNode(top, [], s, Y);
      && d.s.log == Preorder([top])
      && Preorder([d.node]) == NonIf(s, Preorder([top]))
      && Clean(d.s, d.node.children)
  {
    hide Clean, Preorder, NonIf;
    NodeOrder(top, [], s, Y);
    var d := FinalizeNode(top, [], s, Y);
    assert [top] + [] == [top];
    EmptyPreorder();
    assert d.s.log + [] == d.s.log && s.log + Preorder([top]) == Preorder([top]);
    assert Clean(d.s, [d.node][0].children);
    assert d.rest == [] by { SizeNone(d.rest); SizeNone([]); }
    assert Preorder([d.node]) + Preorder([]) == Preorder([d.node]);
    CleanNonIf(d.s, d.node);
    SameNonIf(s, d.s, Preorder([top]));
  }

  lemma SizeNone(f: seq<Tree>)
    ensures Size(f) == 0 <==> f == []
  {}

  lemma CleanNonIf(s: State, t: Tree)
    requires Clean(s, t.children) && !IsIf(s, t.id)
    ensures NonIf(s, Preorder([t])) == Preorder([t])
  {
    PreorderOne(t);
    NonIfConcat(s, [t.id], Preorder(t.children));
    CleanForest(s, t.children);
  }

  lemma {:induction false} CleanForest(s: State, f: seq<Tree>)
    requires Clean(s, f)
    ensures NonIf(s, Preorder(f)) == Preorder(f)
    decreases Size(f)
  {
    if f != [] {
      CleanForest(s, f[0].children);
      CleanForest(s, f[1..]);
      NonIfConcat(s, [f[0].id] + Preorder(f[0].children), Preorder(f[1..]));
      NonIfConcat(s, [f[0].id], Preorder(f[0].children));
    }
  }
}
