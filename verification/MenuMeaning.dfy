/**
What the pushed-down dependencies and the collected reverse dependencies mean.
*/
module MenuMeaning {
  import opened Options
  import opened KconfigModel
  import opened MenuTree
  import opened MenuOrder

  // -- which properties change, and how -------------------------------------------

  ghost predicate Distinct(f: seq<Tree>) {
    var ids := Preorder(f);
    forall i, j :: 0 <= i < j < |ids| ==> ids[i] != ids[j]
  }

  /** The nodes below the roots. */
  function Inner(f: seq<Tree>): seq<NodeId> {
    if f == [] then [] else Preorder(f[0].children) + Inner(f[1..])
  }

  /** The properties of the given nodes are the same in both states. */
  ghost predicate Agree(s: State, r: State, ids: seq<NodeId>) {
    && r.kind == s.kind && |r.props| == |s.props|
    && forall i: NodeId :: i in ids && i < |s.props| ==> r.props[i] == s.props[i]
  }

  /** Only the properties of the given nodes may differ. */
  ghost predicate Outside(s: State, r: State, ids: seq<NodeId>) {
    && r.kind == s.kind && |r.props| == |s.props|
    && forall i: NodeId :: i !in ids && i < |s.props| ==> r.props[i] == s.props[i]
  }

  /** Every node of the forest has had its parent's dependencies pushed into it. */
  predicate Inherits(s: State, r: State, f: seq<Tree>, base: Expr, vis: Expr) {
    f == [] ||
      (var i := f[0].id;
       && Known(s, i) && Known(r, i) && r.props[i] == Pushed(s.kind[i], s.props[i], base, vis)
       && Inherits(s, r, f[0].children, BaseDep(s.kind[i], r.props[i]), InnerVisible(s.kind[i], r.props[i], vis))
       && Inherits(s, r, f[1..], base, vis))
  }

  /** So has every node below the roots. */
  predicate Down(s: State, r: State, f: seq<Tree>, vis: Expr) {
    f == [] ||
      (var i := f[0].id;
       && Known(s, i) && Known(r, i)
       && Inherits(s, r, f[0].children, BaseDep(s.kind[i], r.props[i]), InnerVisible(s.kind[i], r.props[i], vis))
       && Down(s, r, f[1..], vis))
  }

  lemma {:induction false} InheritsFrame(s: State, r: State, s1: State, r1: State, f: seq<Tree>, base: Expr, vis: Expr)
    requires Inherits(s, r, f, base, vis) && Agree(s, s1, Preorder(f)) && Agree(r, r1, Preorder(f))
    ensures Inherits(s1, r1, f, base, vis)
    decreases Size(f)
  {
    if f != [] {
      var i := f[0].id;
      assert i in Preorder(f);
      InheritsFrame(s, r, s1, r1, f[0].children, BaseDep(s.kind[i], r.props[i]), InnerVisible(s.kind[i], r.props[i], vis));
      InheritsFrame(s, r, s1, r1, f[1..], base, vis);
    }
  }

  lemma {:induction false} DownFrame(s: State, r: State, s1: State, r1: State, f: seq<Tree>, vis: Expr)
    requires Down(s, r, f, vis) && Agree(s, s1, Preorder(f)) && Agree(r, r1, Preorder(f))
    ensures Down(s1, r1, f, vis)
  {
    if f != [] {
      var i := f[0].id;
      assert i in Preorder(f);
      InheritsFrame(s, r, s1, r1, f[0].children, BaseDep(s.kind[i], r.props[i]), InnerVisible(s.kind[i], r.props[i], vis));
      DownFrame(s, r, s1, r1, f[1..], vis);
    }
  }

  lemma {:induction false} DownConcat(s: State, r: State, f: seq<Tree>, g: seq<Tree>, vis: Expr)
    requires Down(s, r, f, vis) && Down(s, r, g, vis)
    ensures Down(s, r, f + g, vis)
  {
    if f == [] {
      assert f + g == g;
    } else {
      assert (f + g)[0] == f[0] && (f + g)[1..] == f[1..] + g;
      DownConcat(s, r, f[1..], g, vis);
    }
  }

  lemma {:induction false} InnerConcat(f: seq<Tree>, g: seq<Tree>)
    ensures Inner(f + g) == Inner(f) + Inner(g)
  {
    if f == [] {
      assert f + g == g;
    } else {
      assert (f + g)[0] == f[0] && (f + g)[1..] == f[1..] + g;
      InnerConcat(f[1..], g);
    }
  }

  lemma {:induction false} InnerOfPreorder(f: seq<Tree>, i: NodeId)
    requires i in Inner(f)
    ensures i in Preorder(f)
  {
    if i !in Preorder(f[0].children) {
      InnerOfPreorder(f[1..], i);
    }
  }

  lemma DistinctParts(f: seq<Tree>, g: seq<Tree>)
    requires Distinct(f + g)
    ensures Distinct(f) && Distinct(g)
    ensures forall i :: i in Preorder(f) ==> i !in Preorder(g)
  {
    PreorderConcat(f, g);
    var a, b := Preorder(f), Preorder(g);
    var ids := Preorder(f + g);
    assert forall i :: 0 <= i < |a| ==> ids[i] == a[i];
    assert forall j :: 0 <= j < |b| ==> ids[|a| + j] == b[j];
  }

  lemma DistinctTree(t: Tree)
    requires Distinct([t])
    ensures Distinct(t.children) && t.id !in Preorder(t.children)
  {
    PreorderOne(t);
    hide Preorder;
    var ids, below := Preorder([t]), Preorder(t.children);
    assert ids[0] == t.id;
    forall i | 0 <= i < |below| ensures ids[1 + i] == below[i] && below[i] != t.id {}
    forall i, j | 0 <= i < j < |below| ensures below[i] != below[j] {
      assert ids[1 + i] != ids[1 + j];
    }
  }

  /** A root is no inner node. */
  lemma {:induction false} RootNotInner(f: seq<Tree>, k: nat)
    requires Distinct(f) && k < |f|
    ensures f[k].id !in Inner(f) && f[k].id in Preorder(f)
  {
    assert f == [f[0]] + f[1..];
    DistinctParts([f[0]], f[1..]);
    DistinctTree(f[0]);
    PreorderOne(f[0]);
    PreorderConcat([f[0]], f[1..]);
    hide Preorder;
    var here, later := Preorder([f[0]]), Preorder(f[1..]);
    assert here[0] == f[0].id;
    assert Preorder(f) == here + later;
    if k > 0 {
      RootNotInner(f[1..], k - 1);
      assert f[k] == f[1..][k - 1];
      assert f[k].id in later && f[k].id !in here;
      assert forall x :: x in Preorder(f[0].children) ==> x in here;
    } else if f[0].id in Inner(f[1..]) {
      InnerOfPreorder(f[1..], f[0].id);
      assert false;
    }
  }

  /** What Propagate() does to the roots of the forest, and to nothing else. */
  lemma {:induction false} PropagatePushes(s: State, f: seq<Tree>, base: Expr, vis: Expr)
    requires Distinct(f) && Parsed(s, f)
    ensures var r := Propagate(s, f, base, vis);
      && r.kind == s.kind && |r.props| == |s.props|
      && (forall k :: 0 <= k < |f| ==> Known(s, f[k].id) && r.props[f[k].id] == Pushed(s.kind[f[k].id], s.props[f[k].id], base, vis))
      && (forall i: NodeId :: i < |s.props| && (forall k :: 0 <= k < |f| ==> f[k].id != i) ==> r.props[i] == s.props[i])
    decreases |f|
  {
    if f != [] {
      var i := f[0].id;
      var s1 := SetProps(s, i, Pushed(s.kind[i], s.props[i], base, vis));
      assert f == [f[0]] + f[1..];
      DistinctParts([f[0]], f[1..]);
      PreorderOne(f[0]);
      PushedParsed(s, s1, f[1..]);
      PropagatePushes(s1, f[1..], base, vis);
      var r := Propagate(s, f, base, vis);
      assert r == Propagate(s1, f[1..], base, vis);
      forall k | 0 <= k < |f[1..]| ensures f[1..][k].id != i {
        RootNotInner(f[1..], k);
      }
      forall k | 0 <= k < |f|
        ensures Known(s, f[k].id) && r.props[f[k].id] == Pushed(s.kind[f[k].id], s.props[f[k].id], base, vis)
      {
        if k > 0 {
          assert f[k] == f[1..][k - 1];
        }
      }
      forall j: NodeId | j < |s.props| && (forall k :: 0 <= k < |f| ==> f[k].id != j) ensures r.props[j] == s.props[j] {
        assert f[0].id != j;
        assert forall k :: 0 <= k < |f[1..]| ==> f[1..][k] == f[k + 1];
      }
    }
  }

  lemma {:induction false} PushedParsed(s: State, r: State, f: seq<Tree>)
    requires Parsed(s, f) && r.kind == s.kind && |r.props| == |s.props|
    ensures Parsed(r, f)
    decreases Size(f)
  {
    if f != [] {
      PushedParsed(s, r, f[0].children);
      PushedParsed(s, r, f[1..]);
    }
  }

  /** The roots were pushed into, and the nodes below them after that. */
  lemma {:induction false} InheritsBoth(s: State, s1: State, r: State, f: seq<Tree>, base: Expr, vis: Expr)
    requires Down(s1, r, f, vis) && Agree(s, s1, Inner(f))
    requires forall k :: 0 <= k < |f| ==>
               && Known(s, f[k].id) && Known(r, f[k].id)
               && r.props[f[k].id] == Pushed(s.kind[f[k].id], s.props[f[k].id], base, vis)
    ensures Inherits(s, r, f, base, vis)
  {
    if f != [] {
      var i := f[0].id;
      assert Known(s, f[0].id);
      InheritsFrame(s1, r, s, r, f[0].children, BaseDep(s.kind[i], r.props[i]), InnerVisible(s.kind[i], r.props[i], vis));
      assert forall k :: 0 <= k < |f[1..]| ==> f[1..][k] == f[k + 1];
      InheritsBoth(s, s1, r, f[1..], base, vis);
    }
  }

  /** The part of f that is no longer in its suffix rest has been seen to; nothing else has changed. */
  ghost predicate Pushing(s: State, f: seq<Tree>, rest: seq<Tree>, r: State, vis: Expr) {
    && |rest| <= |f| && rest == f[|f| - |rest|..]
    && Down(s, r, f[..|f| - |rest|], vis) && Outside(s, r, Inner(f[..|f| - |rest|]))
  }

  lemma PushingNothing(s: State, f: seq<Tree>, vis: Expr)
    ensures Pushing(s, f, f, s, vis)
  {}

  lemma PushingThen(s: State, f: seq<Tree>, g: seq<Tree>, m: State, rest: seq<Tree>, r: State, vis: Expr)
    requires Distinct(f) && Pushing(s, f, g, m, vis) && Pushing(m, g, rest, r, vis)
    ensures Pushing(s, f, rest, r, vis)
  {
    hide Down, Preorder, Inner;
    var a, b := f[..|f| - |g|], g[..|g| - |rest|];
    assert f == a + g && g == b + rest;
    assert f[..|f| - |rest|] == a + b;
    assert rest == f[|f| - |rest|..];
    DistinctParts(a, g);
    PreorderConcat(b, rest);
    assert Agree(m, r, Preorder(a)) by {
      forall i: NodeId | i in Preorder(a) && i < |m.props| ensures r.props[i] == m.props[i] {
        if i in Inner(b) {
          InnerOfPreorder(b, i);
        }
      }
    }
    assert Agree(m, s, Preorder(b)) by {
      forall i: NodeId | i in Preorder(b) && i < |m.props| ensures m.props[i] == s.props[i] {
        if i in Inner(a) {
          InnerOfPreorder(a, i);
        }
      }
    }
    DownFrame(s, m, s, r, a, vis);
    DownFrame(m, r, s, r, b, vis);
    DownConcat(s, r, a, b, vis);
    InnerConcat(a, b);
  }

  lemma {:induction false} NodePushes(t: Tree, rest: seq<Tree>, s: State, vis: Expr)
    requires Parsed(s, [t] + rest) && Distinct([t] + rest)
    ensures var d := FinalizeNode(t, rest, s, vis);
      Pushing(s, [t] + rest, d.rest, d.s, vis)
    decreases 1 + Size(t.children) + Size(rest), 1
  {
    hide Level, Preorder, Inherits, Down, Inner;
    ParsedParts(s, t, rest);
    DistinctParts([t], rest);
    if s.kind[t.id].SymbolNode? {
      SymbolPushes(t, rest, s, vis);
    } else if t.children == [] {
      var s0 := s.(log := s.log + [t.id]);
      LeafPushes(t, rest, s, FinalizeChoice(s0, t), vis);
    } else {
      DistinctTree(t);
      LevelPushes(t, rest, s, vis);
    }
  }

  lemma {:induction false} SymbolPushes(t: Tree, rest: seq<Tree>, s: State, vis: Expr)
    requires Known(s, t.id) && Parsed(s, rest) && Distinct([t] + rest) && Distinct(rest)
    requires t.children == [] && s.kind[t.id].SymbolNode?
    ensures var d := FinalizeNode(t, rest, s, vis);
      Pushing(s, [t] + rest, d.rest, d.s, vis)
    decreases 1 + Size(t.children) + Size(rest), 0
  {
    hide Level, Preorder, Distinct, Pushing, AddProps;
    var s0 := s.(log := s.log + [t.id]);
    var s1 := s0.(items := AddProps(s0.items, s.kind[t.id].sym, s0.props[t.id]));
    PushedParsed(s, s1, rest);
    AbsorbPushes(t.id, rest, s1, vis);
    var (kids, rest1, s2) := Absorb(t.id, rest, s1, vis);
    LeafPushes(t, rest, s, s1, vis);
    PushingThen(s, [t] + rest, rest, s1, rest1, s2, vis);
  }

  /** A menu, choice or `if`: push into the children, then finalize them. */
  lemma {:induction false} LevelPushes(t: Tree, rest: seq<Tree>, s: State, vis: Expr)
    requires Known(s, t.id) && Parsed(s, t.children) && Distinct([t]) && Distinct(t.children)
    requires t.children != [] && !s.kind[t.id].SymbolNode?
    ensures var d := FinalizeNode(t, rest, s, vis);
      Pushing(s, [t] + rest, d.rest, d.s, vis)
    decreases 1 + Size(t.children) + Size(rest), 0
  {
    hide Level, Preorder, Inherits, Pushing;
    var s0 := s.(log := s.log + [t.id]);
    var k := s.kind[t.id];
    var p := s.props[t.id];
    var inner := InnerVisible(k, p, vis);
    var s1 := Propagate(s0, t.children, BaseDep(k, p), inner);
    PushedParsed(s, s0, t.children);
    PropagatePushes(s0, t.children, BaseDep(k, p), inner);
    PushedParsed(s, s1, t.children);
    AllPushes(t.children, s1, inner);
    var (kids, s2) := FinalizeAll(t.children, s1, inner);
    ChildrenPushed(t, s0, s1, s2, BaseDep(k, p), inner);
    var r := FinalizeChoice(s2, Level(s2, Tree(t.id, kids)));
    MenuPushes(t, rest, s, s2, r, vis);
    assert FinalizeNode(t, rest, s, vis).s == r && FinalizeNode(t, rest, s, vis).rest == rest;
  }

  /** A node without children pushes nothing. */
  lemma LeafPushes(t: Tree, rest: seq<Tree>, s: State, r: State, vis: Expr)
    requires t.children == [] && Known(s, t.id) && r == s.(items := r.items, log := r.log)
    ensures Pushing(s, [t] + rest, rest, r, vis)
  {
    assert ([t] + rest)[1..] == rest && ([t] + rest)[..1] == [t];
    assert [t][1..] == [];
    assert Inherits(s, r, [], BaseDep(s.kind[t.id], r.props[t.id]), InnerVisible(s.kind[t.id], r.props[t.id], vis));
  }

  lemma ChildrenPushed(t: Tree, s0: State, s1: State, s2: State, base: Expr, inner: Expr)
    requires Parsed(s0, t.children) && Distinct(t.children) && s1 == Propagate(s0, t.children, base, inner)
    requires Pushing(s1, t.children, [], s2, inner)
    ensures Inherits(s0, s2, t.children, base, inner) && Outside(s0, s2, Preorder(t.children))
  {
    var f := t.children;
    PropagatePushes(s0, f, base, inner);
    assert f[..|f|] == f;
    hide Inherits, Down, Preorder;
    forall k | 0 <= k < |f|
      ensures Known(s2, f[k].id) && s2.props[f[k].id] == s1.props[f[k].id]
      ensures f[k].id !in Inner(f) && f[k].id in Preorder(f)
    {
      RootNotInner(f, k);
    }
    assert Agree(s0, s1, Inner(f));
    InheritsBoth(s0, s1, s2, f, base, inner);
    forall i: NodeId | i !in Preorder(f) && i < |s0.props| ensures s2.props[i] == s0.props[i] {
      if i in Inner(f) {
        InnerOfPreorder(f, i);
      }
    }
  }

  lemma MenuPushes(t: Tree, rest: seq<Tree>, s: State, s2: State, r: State, vis: Expr)
    requires Known(s, t.id) && Distinct([t]) && Outside(s, s2, Preorder(t.children)) && r == s2.(items := r.items)
    requires Inherits(s.(log := s.log + [t.id]), s2, t.children, BaseDep(s.kind[t.id], s.props[t.id]), InnerVisible(s.kind[t.id], s.props[t.id], vis))
    ensures Pushing(s, [t] + rest, rest, r, vis)
  {
    var s0 := s.(log := s.log + [t.id]);
    DistinctTree(t);
    assert ([t] + rest)[1..] == rest && ([t] + rest)[..1] == [t];
    assert [t][1..] == [];
    assert Inner([t]) == Preorder(t.children);
    InheritsFrame(s0, s2, s, r, t.children, BaseDep(s.kind[t.id], s.props[t.id]), InnerVisible(s.kind[t.id], s.props[t.id], vis));
    hide Inherits, Preorder;
    assert Down(s, r, [], vis);
    assert Down(s, r, [t], vis);
  }

  lemma {:induction false} AbsorbPushes(i: NodeId, rest: seq<Tree>, s: State, vis: Expr)
    requires Parsed(s, rest) && Distinct(rest)
    ensures var (kids, rest1, s1) := Absorb(i, rest, s, vis);
      Pushing(s, rest, rest1, s1, vis)
    decreases Size(rest), 2
  {
    if rest == [] || !AutoMenuDep(s, i, rest[0].id) {
      PushingNothing(s, rest, vis);
    } else {
      assert rest == [rest[0]] + rest[1..];
      NodePushes(rest[0], rest[1..], s, vis);
      var d := FinalizeNode(rest[0], rest[1..], s, vis);
      RestParsed(s, rest, d.rest, d.s, vis);
      AbsorbPushes(i, d.rest, d.s, vis);
      var (kids, rest1, s1) := Absorb(i, d.rest, d.s, vis);
      PushingThen(s, rest, d.rest, d.s, rest1, s1, vis);
    }
  }

  lemma RestParsed(s: State, f: seq<Tree>, rest: seq<Tree>, r: State, vis: Expr)
    requires Parsed(s, f) && Distinct(f) && Pushing(s, f, rest, r, vis)
    ensures Parsed(r, rest) && Distinct(rest)
  {
    assert f == f[..|f| - |rest|] + rest;
    DistinctParts(f[..|f| - |rest|], rest);
    SuffixParsed(s, f[..|f| - |rest|], rest);
    PushedParsed(s, r, rest);
  }

  lemma {:induction false} SuffixParsed(s: State, f: seq<Tree>, g: seq<Tree>)
    requires Parsed(s, f + g)
    ensures Parsed(s, g)
  {
    if f == [] {
      assert f + g == g;
    } else {
      assert (f + g)[1..] == f[1..] + g;
      SuffixParsed(s, f[1..], g);
    }
  }

  lemma {:induction false} AllPushes(f: seq<Tree>, s: State, vis: Expr)
    requires Parsed(s, f) && Distinct(f)
    ensures var (ts, s1) := FinalizeAll(f, s, vis);
      Pushing(s, f, [], s1, vis)
    decreases Size(f), 2
  {
    if f == [] {
      PushingNothing(s, f, vis);
    } else {
      assert f == [f[0]] + f[1..];
      NodePushes(f[0], f[1..], s, vis);
      var d := FinalizeNode(f[0], f[1..], s, vis);
      RestParsed(s, f, d.rest, d.s, vis);
      AllPushes(d.rest, d.s, vis);
      var (ts, s1) := FinalizeAll(d.rest, d.s, vis);
      PushingThen(s, f, d.rest, d.s, [], s1, vis);
    }
  }

  // -- choices --------------------------------------------------------------------

  lemma MakeAndItems(e1: Expr, e2: Expr)
    ensures MakeAnd(e1, e2) == N <==> e1 == N || e2 == N
    ensures MakeAnd(e1, e2) != N ==> ExprItems(MakeAnd(e1, e2)) == ExprItems(e1) + ExprItems(e2)
  {
    assert ExprItems(Y) == {};
  }

  /**
  A prompt directly below a choice looks at the choice in the end, unless it has
  become the constant n, which happens exactly when its condition, the symbol's own
  dependencies or an enclosing `visible if` are that constant.
  */
  lemma MemberPromptLooksAtChoice(sym: Id, choice: Id, p: Props, vis: Expr)
    requires p.prompt.Some?
    ensures var q := Pushed(SymbolNode(sym), p, BaseDep(ChoiceNode(choice), p), vis).prompt;
      && q.Some?
      && (q.value == N <==> p.prompt.value == N || p.dep == N || vis == N)
      && (q.value != N ==> choice in ExprItems(q.value))
  {
    var base := Val(Operand.Item(choice));
    MakeAndItems(p.dep, base);
    MakeAndItems(vis, MakeAnd(p.dep, base));
    MakeAndItems(p.prompt.value, MakeAnd(vis, MakeAnd(p.dep, base)));
    assert choice in ExprItems(base);
  }

  // -- values -------------------------------------------------------------------------

  ghost predicate Has(c: Config, v: View, e: Expr) {
    ExprValue(e, c, v).Some?
  }

  function Num(c: Config, v: View, e: Expr): Tri {
    if ExprValue(e, c, v).Some? then ExprValue(e, c, v).value else 0
  }

  lemma MakeAndMeans(c: Config, v: View, e1: Expr, e2: Expr)
    requires Has(c, v, e1) && Has(c, v, e2)
    ensures Has(c, v, MakeAnd(e1, e2)) && Num(c, v, MakeAnd(e1, e2)) == Min(Num(c, v, e1), Num(c, v, e2))
  {}

  lemma MakeOrMeans(c: Config, v: View, e1: Expr, e2: Expr)
    requires Has(c, v, e1) && Has(c, v, e2)
    ensures Has(c, v, MakeOr(e1, e2)) && Num(c, v, MakeOr(e1, e2)) == Max(Num(c, v, e1), Num(c, v, e2))
  {}

  /** Everything a node mentions has a value. */
  ghost predicate PropsKnown(c: Config, v: View, p: Props) {
    && Has(c, v, p.dep) && Has(c, v, p.visibility) && (p.prompt.Some? ==> Has(c, v, p.prompt.value))
    && (forall k :: 0 <= k < |p.defaults| ==> Has(c, v, p.defaults[k].cond))
    && (forall k :: 0 <= k < |p.ranges| ==> Has(c, v, p.ranges[k].cond))
    && (forall k :: 0 <= k < |p.selects| ==> Has(c, v, p.selects[k].cond))
    && (forall k :: 0 <= k < |p.implies| ==> Has(c, v, p.implies[k].cond))
  }

  ghost predicate ForestKnown(c: Config, v: View, s: State, f: seq<Tree>) {
    f == [] ||
      (&& Known(s, f[0].id) && PropsKnown(c, v, s.props[f[0].id])
       && (s.kind[f[0].id].ChoiceNode? ==> Has(c, v, Val(Operand.Item(s.kind[f[0].id].choice))))
       && ForestKnown(c, v, s, f[0].children) && ForestKnown(c, v, s, f[1..]))
  }

  /** Condition e has become e1, lowered to a bound. */
  ghost predicate Low(c: Config, v: View, e: Expr, e1: Expr, bound: Tri) {
    Num(c, v, e1) == Min(Num(c, v, e), bound)
  }

  ghost predicate LowDefaults(c: Config, v: View, ds: seq<Default>, es: seq<Default>, bound: Tri) {
    && |es| == |ds|
    && forall j :: 0 <= j < |ds| ==> es[j].value == ds[j].value && Low(c, v, ds[j].cond, es[j].cond, bound)
  }

  ghost predicate LowRanges(c: Config, v: View, ds: seq<Range>, es: seq<Range>, bound: Tri) {
    && |es| == |ds|
    && forall j :: 0 <= j < |ds| ==>
         es[j].low == ds[j].low && es[j].high == ds[j].high && Low(c, v, ds[j].cond, es[j].cond, bound)
  }

  ghost predicate LowSelects(c: Config, v: View, ds: seq<Select>, es: seq<Select>, bound: Tri) {
    && |es| == |ds|
    && forall j :: 0 <= j < |ds| ==> es[j].target == ds[j].target && Low(c, v, ds[j].cond, es[j].cond, bound)
  }

  /** The conditions of q are those of p, lowered to the value of q's dependencies. */
  ghost predicate Lowered(c: Config, v: View, k: NodeItem, p: Props, q: Props, dep: Tri, vis: Tri) {
    var own := Num(c, v, q.dep);
    && PropsKnown(c, v, q) && Low(c, v, p.dep, q.dep, dep) && q.visibility == p.visibility
    && p.prompt.Some? == q.prompt.Some?
    && (p.prompt.Some? ==> Low(c, v, p.prompt.value, q.prompt.value, if HasItem(k) then Min(vis, own) else own))
    && (HasItem(k) ==>
          && LowDefaults(c, v, p.defaults, q.defaults, own) && LowRanges(c, v, p.ranges, q.ranges, own)
          && LowSelects(c, v, p.selects, q.selects, own) && LowSelects(c, v, p.implies, q.implies, own))
  }

  lemma PushedMeans(c: Config, v: View, k: NodeItem, p: Props, base: Expr, vis: Expr)
    requires PropsKnown(c, v, p) && Has(c, v, base) && Has(c, v, vis)
    ensures Lowered(c, v, k, p, Pushed(k, p, base, vis), Num(c, v, base), Num(c, v, vis))
  {
    var dep := MakeAnd(p.dep, base);
    MakeAndMeans(c, v, p.dep, base);
    MakeAndMeans(c, v, vis, dep);
    if p.prompt.Some? {
      MakeAndMeans(c, v, p.prompt.value, MakeAnd(vis, dep));
      MakeAndMeans(c, v, p.prompt.value, dep);
    }
    hide Has, Num, MakeAnd, Low;
    assert Low(c, v, p.dep, dep, Num(c, v, base)) by { LowAnd(c, v, p.dep, base); }
    if p.prompt.Some? {
      LowAnd(c, v, p.prompt.value, MakeAnd(vis, dep));
      LowAnd(c, v, p.prompt.value, dep);
    }
    CondsMean(c, v, p, dep);
    hide LowDefaults, LowRanges, LowSelects;
    forall j | 0 <= j < |p.selects| ensures Has(c, v, MakeAnd(p.selects[j].cond, dep)) {
      LowAnd(c, v, p.selects[j].cond, dep);
    }
    forall j | 0 <= j < |p.implies| ensures Has(c, v, MakeAnd(p.implies[j].cond, dep)) {
      LowAnd(c, v, p.implies[j].cond, dep);
    }
    forall j | 0 <= j < |p.defaults| ensures Has(c, v, MakeAnd(p.defaults[j].cond, dep)) {
      LowAnd(c, v, p.defaults[j].cond, dep);
    }
    forall j | 0 <= j < |p.ranges| ensures Has(c, v, MakeAnd(p.ranges[j].cond, dep)) {
      LowAnd(c, v, p.ranges[j].cond, dep);
    }
  }

  lemma LowAnd(c: Config, v: View, e: Expr, dep: Expr)
    requires Has(c, v, e) && Has(c, v, dep)
    ensures Has(c, v, MakeAnd(e, dep)) && Low(c, v, e, MakeAnd(e, dep), Num(c, v, dep))
  {
    MakeAndMeans(c, v, e, dep);
  }

  lemma CondsMean(c: Config, v: View, p: Props, dep: Expr)
    requires PropsKnown(c, v, p) && Has(c, v, dep)
    ensures LowDefaults(c, v, p.defaults, WithConds(p.defaults, dep), Num(c, v, dep))
    ensures LowRanges(c, v, p.ranges, WithRangeConds(p.ranges, dep), Num(c, v, dep))
    ensures LowSelects(c, v, p.selects, WithSelectConds(p.selects, dep), Num(c, v, dep))
    ensures LowSelects(c, v, p.implies, WithSelectConds(p.implies, dep), Num(c, v, dep))
  {
    hide Has, Num, MakeAnd, Low;
    forall e | Has(c, v, e) ensures Low(c, v, e, MakeAnd(e, dep), Num(c, v, dep)) {
      LowAnd(c, v, e, dep);
    }
  }

  /**
  Going down the tree, `dep` is the least of the dependencies passed, and `vis`
  of the `visible if` conditions: every condition of every node is the least of
  its own, the node's own dependencies, dep, and for prompts of symbols and
  choices vis. Below a choice its mode takes the place of its dependencies.
  */
  ghost predicate Means(c: Config, v: View, s: State, r: State, f: seq<Tree>, dep: Tri, vis: Tri) {
    f == [] ||
      (var i := f[0].id;
       && Known(s, i) && Known(r, i) && Lowered(c, v, s.kind[i], s.props[i], r.props[i], dep, vis)
       && Means(c, v, s, r, f[0].children,
                if s.kind[i].ChoiceNode? then Num(c, v, Val(Operand.Item(s.kind[i].choice))) else Num(c, v, r.props[i].dep),
                if s.kind[i].MENU? then Min(vis, Num(c, v, s.props[i].visibility)) else vis)
       && Means(c, v, s, r, f[1..], dep, vis))
  }

  lemma {:induction false} InheritsMeans(c: Config, v: View, s: State, r: State, f: seq<Tree>, base: Expr, vis: Expr)
    requires Inherits(s, r, f, base, vis) && ForestKnown(c, v, s, f) && Has(c, v, base) && Has(c, v, vis)
    ensures Means(c, v, s, r, f, Num(c, v, base), Num(c, v, vis))
    decreases Size(f)
  {
    hide Has, Num, Pushed;
    if f != [] {
      var i := f[0].id;
      PushedMeans(c, v, s.kind[i], s.props[i], base, vis);
      MakeAndMeans(c, v, vis, s.props[i].visibility);
      InheritsMeans(c, v, s, r, f[0].children, BaseDep(s.kind[i], r.props[i]), InnerVisible(s.kind[i], r.props[i], vis));
      InheritsMeans(c, v, s, r, f[1..], base, vis);
    }
  }

  /** Dependency propagation, for the whole tree. */
  lemma PropagationMeans(c: Config, v: View, top: Tree, s: State)
    requires Parsed(s, [top]) && Distinct([top]) && ForestKnown(c, v, s, [top]) && !s.kind[top.id].ChoiceNode? && s.kind[top.id].MENU?
    ensures var r := FinalizeNode(top, [], s, Y).s;
      Means(c, v, s, r, top.children, Num(c, v, s.props[top.id].dep), Num(c, v, s.props[top.id].visibility))
  {
    assert [top] + [] == [top];
    NodePushes(top, [], s, Y);
    var d := FinalizeNode(top, [], s, Y);
    assert d.rest == [] by { SizeNone(d.rest); SizeNone([]); }
    assert [top][..1] == [top];
    assert Down(s, d.s, [top], Y);
    DistinctTree(top);
    assert Inner([top]) == Preorder(top.children) by { assert [top][1..] == []; }
    var p := s.props[top.id];
    assert d.s.props[top.id] == p;
    hide Has, Num, Preorder, FinalizeNode;
    MakeAndMeans(c, v, Y, p.visibility) by { assert Has(c, v, Y); }
    InheritsMeans(c, v, s, d.s, top.children, p.dep, InnerVisible(MENU, p, Y));
  }

  // -- types of a choice and its symbols ---------------------------------------------

  predicate Untyped(items: seq<ItemProps>, x: Id) {
    x >= |items| || items[x].typ.Unknown?
  }

  /** The k-th symbol is the first with a type, `t`. */
  predicate FirstAt(items: seq<ItemProps>, syms: seq<Id>, t: Type, k: nat) {
    && k < |syms| && !Untyped(items, syms[k]) && items[syms[k]].typ == t
    && forall j :: 0 <= j < k ==> Untyped(items, syms[j])
  }

  /** `t` is the first type specified among the symbols, or none is. */
  ghost predicate IsFirstType(items: seq<ItemProps>, syms: seq<Id>, t: Type) {
    if t.Unknown? then forall k :: 0 <= k < |syms| ==> Untyped(items, syms[k])
    else exists k: nat :: FirstAt(items, syms, t, k)
  }

  lemma {:induction false} FirstTypeFinds(items: seq<ItemProps>, syms: seq<Id>)
    ensures IsFirstType(items, syms, FirstType(items, syms))
  {
    if syms != [] && !Untyped(items, syms[0]) {
      assert FirstAt(items, syms, items[syms[0]].typ, 0);
    } else if syms != [] {
      var rest := syms[1..];
      FirstTypeFinds(items, rest);
      var t := FirstType(items, rest);
      if !t.Unknown? {
        var k: nat :| FirstAt(items, rest, t, k);
        assert FirstAt(items, syms, t, k + 1) by {
          forall j | 0 <= j < k + 1 ensures Untyped(items, syms[j]) {
            assert j > 0 ==> syms[j] == rest[j - 1];
          }
        }
      } else {
        forall j | 0 <= j < |syms| ensures Untyped(items, syms[j]) {
          assert j > 0 ==> syms[j] == rest[j - 1];
        }
      }
    }
  }

  lemma {:induction false} MembersKeepTypes(s: State, choice: Id, f: seq<Tree>, x: Id)
    requires x < |s.items|
    ensures AddMembers(s, choice, f).items[x].typ == s.items[x].typ
    decreases |f|
  {
    if f != [] {
      var i := f[0].id;
      if Known(s, i) && s.kind[i].SymbolNode? && s.kind[i].sym < |s.items| && choice < |s.items| {
        var own := s.items[s.kind[i].sym := s.items[s.kind[i].sym].(choice := Some(choice))];
        MembersKeepTypes(s.(items := own[choice := own[choice].(syms := own[choice].syms + [s.kind[i].sym])]), choice, f[1..], x);
      } else {
        MembersKeepTypes(s, choice, f[1..], x);
      }
    }
  }

  /**
  A choice without a type gets the first one specified among its symbols, symbols
  without a type get that of the choice, and no specified type is ever changed.
  */
  lemma TypesInferred(s: State, t: Tree)
    requires Known(s, t.id) && s.kind[t.id].ChoiceNode? && s.kind[t.id].choice < |s.items|
    ensures var c, items := s.kind[t.id].choice, FinalizeChoice(s, t).items;
      && |items| == |s.items|
      && (forall x: Id :: x < |items| && (!s.items[x].typ.Unknown? || (x != c && x !in items[c].syms)) ==> items[x].typ == s.items[x].typ)
      && (forall x: Id :: x < |items| && s.items[x].typ.Unknown? && x in items[c].syms ==> items[x].typ == items[c].typ)
      && (s.items[c].typ.Unknown? ==> IsFirstType(s.items, items[c].syms, items[c].typ))
  {
    var c, p := s.kind[t.id].choice, s.props[t.id];
    var d := s.items[c].(directDep := MakeOr(s.items[c].directDep, p.dep), defaults := s.items[c].defaults + p.defaults);
    var s0 := s.(items := s.items[c := d]);
    var m := AddMembers(s0, c, t.children);
    forall x: Id | x < |s.items| ensures m.items[x].typ == s.items[x].typ {
      MembersKeepTypes(s0, c, t.children, x);
    }
    hide AddMembers, IsFirstType, FirstType;
    FirstTypeFinds(m.items, m.items[c].syms);
    SameTypes(s.items, m.items, m.items[c].syms, FirstType(m.items, m.items[c].syms));
  }

  lemma SameTypes(a: seq<ItemProps>, b: seq<ItemProps>, syms: seq<Id>, t: Type)
    requires |a| == |b| && (forall x: Id :: x < |a| ==> a[x].typ == b[x].typ) && IsFirstType(b, syms, t)
    ensures IsFirstType(a, syms, t)
  {
    if k: nat :| FirstAt(b, syms, t, k) {
      assert FirstAt(a, syms, t, k);
    }
  }
}
