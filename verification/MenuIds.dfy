/**
Finalizing never duplicates a node: the ids of its result are among those it
was given, counted with multiplicity.
*/
module MenuIds {
  import opened KconfigModel
  import opened MenuTree
  import opened MenuOrder
  import opened MenuMeaning

  /** g holds no node that f does not. */
  ghost predicate Fewer(f: seq<Tree>, g: seq<Tree>) {
    multiset(Preorder(g)) <= multiset(Preorder(f))
  }

  lemma FewerTrans(f: seq<Tree>, g: seq<Tree>, h: seq<Tree>)
    requires Fewer(f, g) && Fewer(g, h)
    ensures Fewer(f, h)
  {}

  lemma {:induction false} DistinctCount(ids: seq<NodeId>)
    ensures (forall i, j :: 0 <= i < j < |ids| ==> ids[i] != ids[j]) <==> (forall x :: multiset(ids)[x] <= 1)
  {
    if ids != [] {
      var init, last := ids[..|ids| - 1], ids[|ids| - 1];
      assert ids == init + [last];
      DistinctCount(init);
      if forall i, j :: 0 <= i < j < |ids| ==> ids[i] != ids[j] {
        assert last !in init;
        assert forall x :: multiset(ids)[x] == multiset(init)[x] + multiset([last])[x];
      }
      if forall x :: multiset(ids)[x] <= 1 {
        assert forall x :: multiset(init)[x] <= multiset(ids)[x];
        assert multiset(ids)[last] == multiset(init)[last] + 1;
      }
    }
  }

  lemma FewerDistinct(f: seq<Tree>, g: seq<Tree>)
    requires Fewer(f, g) && Distinct(f)
    ensures Distinct(g) && forall x :: x in Preorder(g) ==> x in Preorder(f)
  {
    DistinctCount(Preorder(f));
    DistinctCount(Preorder(g));
    forall x | x in Preorder(g) ensures x in Preorder(f) {
      assert x in multiset(Preorder(g));
    }
  }

  lemma FewerConcat(f: seq<Tree>, g: seq<Tree>, h: seq<Tree>, k: seq<Tree>)
    requires Fewer(f, g) && Fewer(h, k)
    ensures Fewer(f + h, g + k)
  {
    PreorderConcat(f, h);
    PreorderConcat(g, k);
  }

  lemma {:induction false} FlattenIds(s: State, f: seq<Tree>)
    ensures Preorder(Flatten(s, f)) == Preorder(f)
    decreases Size(f)
  {
    if f != [] {
      var t, rest := f[0], f[1..];
      if Dissolves(s, t) {
        SizeConcat(t.children, rest);
        FlattenIds(s, t.children + rest);
        PreorderConcat(t.children, rest);
        PreorderCons(Tree(t.id, []), Flatten(s, t.children + rest));
      } else {
        FlattenIds(s, rest);
        PreorderCons(t, Flatten(s, rest));
      }
    }
  }

  lemma {:induction false} RemoveIfsIds(s: State, f: seq<Tree>)
    ensures Fewer(f, RemoveIfs(s, f))
  {
    if f != [] {
      var t, rest := f[0], f[1..];
      RemoveIfsIds(s, rest);
      if !IsIf(s, t.id) {
        PreorderCons(t, RemoveIfs(s, rest));
      }
    }
  }

  lemma LevelIds(s: State, t: Tree)
    ensures Fewer([t], [Level(s, t)])
  {
    if t.children != [] {
      FlattenIds(s, t.children);
      RemoveIfsIds(s, Flatten(s, t.children));
      PreorderOne(t);
      PreorderOne(Level(s, t));
    }
  }

  /** A node with other children. */
  lemma NodeFewer(t: Tree, kids: seq<Tree>, rest: seq<Tree>, rest1: seq<Tree>)
    requires Fewer(rest, kids + rest1) || Fewer(t.children + rest, kids + rest1)
    ensures Fewer([t] + rest, [Tree(t.id, kids)] + rest1)
  {
    PreorderCons(t, rest);
    PreorderConcat(t.children, rest);
    PreorderCons(Tree(t.id, kids), rest1);
    PreorderConcat(kids, rest1);
    hide Preorder;
    assert Preorder([Tree(t.id, kids)] + rest1) == [t.id] + (Preorder(kids) + Preorder(rest1));
    assert Preorder([t] + rest) == [t.id] + (Preorder(t.children) + Preorder(rest));
  }

  lemma LevelFewer(s: State, f: seq<Tree>, t: Tree, rest: seq<Tree>)
    requires Fewer(f, [t] + rest)
    ensures Fewer(f, [Level(s, t)] + rest)
  {
    LevelIds(s, t);
    hide Level;
    FewerConcat([t], [Level(s, t)], rest, rest);
    FewerTrans(f, [t] + rest, [Level(s, t)] + rest);
  }

  lemma FewerSame(f: seq<Tree>)
    ensures Fewer(f, f)
  {}

  /** One node, then the others. */
  lemma FewerHead(f: seq<Tree>, node: Tree, rest: seq<Tree>, kids: seq<Tree>, rest1: seq<Tree>)
    requires Fewer(f, [node] + rest) && Fewer(rest, kids + rest1)
    ensures Fewer(f, [node] + kids + rest1)
  {
    hide Preorder;
    FewerSame([node]);
    FewerConcat([node], [node], rest, kids + rest1);
    FewerTrans(f, [node] + rest, [node] + (kids + rest1));
    assert [node] + kids + rest1 == [node] + (kids + rest1);
  }

  lemma {:induction false} NodeIds(t: Tree, rest: seq<Tree>, s: State, vis: Expr)
    ensures var d := FinalizeNode(t, rest, s, vis);
      Fewer([t] + rest, [d.node] + d.rest)
    decreases 1 + Size(t.children) + Size(rest), 1
  {
    hide Level, Fewer, AddProps, FinalizeChoice, Propagate;
    FewerSame([t] + rest);
    if Known(s, t.id) {
      var s0 := s.(log := s.log + [t.id]);
      var k := s.kind[t.id];
      if k.SymbolNode? {
        var s1 := s0.(items := AddProps(s0.items, k.sym, s0.props[t.id]));
        var (kids, rest1, s2) := Absorb(t.id, rest, s1, vis);
        AbsorbIds(t.id, rest, s1, vis);
        NodeFewer(t, kids, rest, rest1);
        if kids == [] {
          FewerSame([t]);
          assert kids + rest1 == rest1;
          FewerConcat([t], [t], rest, rest1);
        }
        LevelFewer(s2, [t] + rest, if kids == [] then t else Tree(t.id, kids), rest1);
      } else if t.children != [] {
        var inner := InnerVisible(k, s0.props[t.id], vis);
        var s1 := Propagate(s0, t.children, BaseDep(k, s0.props[t.id]), inner);
        var (kids, s2) := FinalizeAll(t.children, s1, inner);
        AllIds(t.children, s1, inner);
        FewerSame(rest);
        FewerConcat(t.children, kids, rest, rest);
        NodeFewer(t, kids, rest, rest);
        LevelFewer(s2, [t] + rest, Tree(t.id, kids), rest);
      }
    }
  }

  lemma {:induction false} AbsorbIds(i: NodeId, rest: seq<Tree>, s: State, vis: Expr)
    ensures var (kids, rest1, s1) := Absorb(i, rest, s, vis);
      Fewer(rest, kids + rest1)
    decreases Size(rest), 2
  {
    hide Fewer, AutoMenuDep;
    if rest == [] || !AutoMenuDep(s, i, rest[0].id) {
      FewerSame(rest);
      assert [] + rest == rest;
    } else {
      assert rest == [rest[0]] + rest[1..];
      var d := FinalizeNode(rest[0], rest[1..], s, vis);
      NodeIds(rest[0], rest[1..], s, vis);
      AbsorbIds(i, d.rest, d.s, vis);
      var (kids, rest1, s1) := Absorb(i, d.rest, d.s, vis);
      FewerHead(rest, d.node, d.rest, kids, rest1);
    }
  }

  lemma {:induction false} AllIds(f: seq<Tree>, s: State, vis: Expr)
    ensures Fewer(f, FinalizeAll(f, s, vis).0)
    decreases Size(f), 2
  {
    hide Fewer;
    if f == [] {
      FewerSame(f);
    } else {
      assert f == [f[0]] + f[1..];
      var d := FinalizeNode(f[0], f[1..], s, vis);
      NodeIds(f[0], f[1..], s, vis);
      AllIds(d.rest, d.s, vis);
      var (ts, s1) := FinalizeAll(d.rest, d.s, vis);
      assert ts + [] == ts && [d.node] + ts + [] == [d.node] + ts;
      FewerHead(f, d.node, d.rest, ts, []);
    }
  }
}
