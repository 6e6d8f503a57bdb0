/**
The reverse dependencies that finalizing collects: what selects a symbol, over
all nodes of the tree.
*/
module MenuRevDeps {
  import opened Options
  import opened KconfigModel
  import opened MenuTree
  import opened MenuOrder
  import opened MenuMeaning

  /** OR-ing the selects of x in a list onto e. */
  function SelectFold(ss: seq<Select>, sym: Id, x: Id, e: Expr): Expr {
    if ss == [] then e
    else
      var s := ss[|ss| - 1];
      var e1 := SelectFold(ss[..|ss| - 1], sym, x, e);
      if s.target == x then MakeOr(e1, MakeAnd(Val(Operand.Item(sym)), s.cond)) else e1
  }

  /** And those of the symbol nodes in a list. */
  function RevFold(r: State, ids: seq<NodeId>, x: Id, e: Expr, weak: bool): Expr {
    if ids == [] then e
    else
      var i := ids[|ids| - 1];
      var e1 := RevFold(r, ids[..|ids| - 1], x, e, weak);
      if Known(r, i) && r.kind[i].SymbolNode? then SelectFold(Selects(r.props[i], weak), r.kind[i].sym, x, e1) else e1
  }

  lemma {:induction false} RevFoldConcat(r: State, a: seq<NodeId>, b: seq<NodeId>, x: Id, e: Expr, weak: bool)
    ensures RevFold(r, a + b, x, e, weak) == RevFold(r, b, x, RevFold(r, a, x, e, weak), weak)
  {
    if b == [] {
      assert a + b == a;
    } else {
      assert (a + b)[..|a + b| - 1] == a + b[..|b| - 1];
      RevFoldConcat(r, a, b[..|b| - 1], x, e, weak);
    }
  }

  lemma {:induction false} RevFoldSame(m: State, r: State, ids: seq<NodeId>, x: Id, e: Expr, weak: bool)
    requires Agree(m, r, ids)
    ensures RevFold(m, ids, x, e, weak) == RevFold(r, ids, x, e, weak)
  {
    if ids != [] {
      assert ids[|ids| - 1] in ids;
      RevFoldSame(m, r, ids[..|ids| - 1], x, e, weak);
    }
  }

  /** What a symbol has from its own nodes. */
  datatype Own = Own(dep: Expr, defaults: seq<Default>, ranges: seq<Range>, selects: seq<Select>, implies: seq<Select>)

  function OwnOf(d: ItemProps): Own {
    Own(d.directDep, d.defaults, d.ranges, d.selects, d.implies)
  }

  /** Its dependencies are met if those of one node are; all else is put together in the order of the nodes. */
  function OwnFold(r: State, ids: seq<NodeId>, x: Id, o: Own): Own {
    if ids == [] then o
    else
      var i := ids[|ids| - 1];
      var o1 := OwnFold(r, ids[..|ids| - 1], x, o);
      if Known(r, i) && r.kind[i] == SymbolNode(x) then
        var p := r.props[i];
        Own(MakeOr(o1.dep, p.dep), o1.defaults + p.defaults, o1.ranges + p.ranges, o1.selects + p.selects, o1.implies + p.implies)
      else o1
  }

  predicate NoChoice(s: State, x: Id) {
    forall i :: 0 <= i < |s.kind| ==> s.kind[i] != ChoiceNode(x)
  }

  lemma {:induction false} OwnFoldConcat(r: State, a: seq<NodeId>, b: seq<NodeId>, x: Id, o: Own)
    ensures OwnFold(r, a + b, x, o) == OwnFold(r, b, x, OwnFold(r, a, x, o))
  {
    if b == [] {
      assert a + b == a;
    } else {
      assert (a + b)[..|a + b| - 1] == a + b[..|b| - 1];
      OwnFoldConcat(r, a, b[..|b| - 1], x, o);
    }
  }

  lemma {:induction false} OwnFoldSame(m: State, r: State, ids: seq<NodeId>, x: Id, o: Own)
    requires Agree(m, r, ids)
    ensures OwnFold(m, ids, x, o) == OwnFold(r, ids, x, o)
  {
    if ids != [] {
      assert ids[|ids| - 1] in ids;
      OwnFoldSame(m, r, ids[..|ids| - 1], x, o);
    }
  }

  lemma {:induction false} AddRevDepsKeepOwn(items: seq<ItemProps>, sym: Id, ss: seq<Select>, weak: bool, x: Id)
    requires x < |items|
    ensures OwnOf(AddRevDeps(items, sym, ss, weak)[x]) == OwnOf(items[x])
  {
    if ss != [] {
      AddRevDepsKeepOwn(items, sym, ss[..|ss| - 1], weak, x);
    }
  }

  lemma AddPropsOwn(items: seq<ItemProps>, sym: Id, p: Props, x: Id)
    requires x < |items|
    ensures var o := OwnOf(items[x]);
      OwnOf(AddProps(items, sym, p)[x]) ==
      if x == sym then
        Own(MakeOr(o.dep, p.dep), o.defaults + p.defaults, o.ranges + p.ranges, o.selects + p.selects, o.implies + p.implies)
      else o
  {
    var own := if sym < |items| then items[sym := AddOwn(items[sym], p)] else items;
    AddRevDepsKeepOwn(own, sym, p.selects, false, x);
    AddRevDepsKeepOwn(AddRevDeps(own, sym, p.selects, false), sym, p.implies, true, x);
  }

  lemma {:induction false} AddMembersKeepOwn(s: State, choice: Id, f: seq<Tree>, x: Id)
    requires x < |s.items|
    ensures OwnOf(AddMembers(s, choice, f).items[x]) == OwnOf(s.items[x])
    decreases |f|
  {
    if f != [] {
      var i := f[0].id;
      if Known(s, i) && s.kind[i].SymbolNode? && s.kind[i].sym < |s.items| && choice < |s.items| {
        var own := s.items[s.kind[i].sym := s.items[s.kind[i].sym].(choice := Some(choice))];
        AddMembersKeepOwn(s.(items := own[choice := own[choice].(syms := own[choice].syms + [s.kind[i].sym])]), choice, f[1..], x);
      } else {
        AddMembersKeepOwn(s, choice, f[1..], x);
      }
    }
  }

  lemma FinalizeChoiceKeepsOwn(s: State, t: Tree, x: Id)
    requires x < |s.items| && NoChoice(s, x)
    ensures OwnOf(FinalizeChoice(s, t).items[x]) == OwnOf(s.items[x])
  {
    if Known(s, t.id) && s.kind[t.id].ChoiceNode? && s.kind[t.id].choice < |s.items| {
      var c := s.kind[t.id].choice;
      var p := s.props[t.id];
      var d := s.items[c].(directDep := MakeOr(s.items[c].directDep, p.dep), defaults := s.items[c].defaults + p.defaults);
      AddMembersKeepOwn(s.(items := s.items[c := d]), c, t.children, x);
    }
  }

  lemma {:induction false} AddRevDepsFolds(items: seq<ItemProps>, sym: Id, ss: seq<Select>, weak: bool, x: Id)
    requires x < |items|
    ensures var r := AddRevDeps(items, sym, ss, weak);
      && RevDep(r[x], weak) == SelectFold(ss, sym, x, RevDep(items[x], weak))
      && RevDep(r[x], !weak) == RevDep(items[x], !weak)
  {
    if ss != [] {
      AddRevDepsFolds(items, sym, ss[..|ss| - 1], weak, x);
    }
  }

  lemma AddPropsFolds(items: seq<ItemProps>, sym: Id, p: Props, x: Id, weak: bool)
    requires x < |items|
    ensures RevDep(AddProps(items, sym, p)[x], weak) == SelectFold(Selects(p, weak), sym, x, RevDep(items[x], weak))
  {
    var own := if sym < |items| then items[sym := AddOwn(items[sym], p)] else items;
    AddRevDepsFolds(own, sym, p.selects, false, x);
    AddRevDepsFolds(AddRevDeps(own, sym, p.selects, false), sym, p.implies, true, x);
  }

  lemma {:induction false} AddMembersKeeps(s: State, choice: Id, f: seq<Tree>, x: Id, weak: bool)
    requires x < |s.items|
    ensures RevDep(AddMembers(s, choice, f).items[x], weak) == RevDep(s.items[x], weak)
    decreases |f|
  {
    if f != [] {
      var i := f[0].id;
      if Known(s, i) && s.kind[i].SymbolNode? && s.kind[i].sym < |s.items| && choice < |s.items| {
        var own := s.items[s.kind[i].sym := s.items[s.kind[i].sym].(choice := Some(choice))];
        AddMembersKeeps(s.(items := own[choice := own[choice].(syms := own[choice].syms + [s.kind[i].sym])]), choice, f[1..], x, weak);
      } else {
        AddMembersKeeps(s, choice, f[1..], x, weak);
      }
    }
  }

  lemma FinalizeChoiceKeeps(s: State, t: Tree, x: Id, weak: bool)
    requires x < |s.items|
    ensures RevDep(FinalizeChoice(s, t).items[x], weak) == RevDep(s.items[x], weak)
  {
    if Known(s, t.id) && s.kind[t.id].ChoiceNode? && s.kind[t.id].choice < |s.items| {
      var c := s.kind[t.id].choice;
      var p := s.props[t.id];
      var d := s.items[c].(directDep := MakeOr(s.items[c].directDep, p.dep), defaults := s.items[c].defaults + p.defaults);
      AddMembersKeeps(s.(items := s.items[c := d]), c, t.children, x, weak);
    }
  }

  /** The symbols have what the nodes in `ids` give them. */
  ghost predicate Gathered(s: State, r: State, ids: seq<NodeId>) {
    && r.kind == s.kind && |r.items| == |s.items|
    && forall x: Id :: x < |s.items| && NoChoice(s, x) ==> OwnOf(r.items[x]) == OwnFold(r, ids, x, OwnOf(s.items[x]))
  }

  /** Between two states, the selects of the nodes logged since have been added to every item, and their properties to their own. */
  ghost predicate Collected(s: State, r: State) {
    && |r.items| == |s.items| && |s.log| <= |r.log| && r.log[..|s.log|] == s.log
    && (forall x: Id, weak: bool :: x < |s.items| ==>
          RevDep(r.items[x], weak) == RevFold(r, r.log[|s.log|..], x, RevDep(s.items[x], weak), weak))
    && Gathered(s, r, r.log[|s.log|..])
  }

  lemma GatheredThen(s: State, m: State, r: State, a: seq<NodeId>, b: seq<NodeId>)
    requires Gathered(s, m, a) && Gathered(m, r, b) && Agree(m, r, a)
    ensures Gathered(s, r, a + b)
  {
    hide OwnOf, OwnFold;
    forall x: Id | x < |s.items| && NoChoice(s, x) ensures OwnOf(r.items[x]) == OwnFold(r, a + b, x, OwnOf(s.items[x])) {
      assert NoChoice(m, x);
      OwnFoldConcat(r, a, b, x, OwnOf(s.items[x]));
      OwnFoldSame(m, r, a, x, OwnOf(s.items[x]));
    }
  }

  lemma GatheredChoice(s: State, m: State, t1: Tree, ids: seq<NodeId>)
    requires Gathered(s, m, ids)
    ensures Gathered(s, FinalizeChoice(m, t1), ids)
  {
    var r := FinalizeChoice(m, t1);
    hide FinalizeChoice, OwnOf, OwnFold;
    forall x: Id | x < |s.items| && NoChoice(s, x) ensures OwnOf(r.items[x]) == OwnFold(r, ids, x, OwnOf(s.items[x])) {
      assert NoChoice(m, x);
      FinalizeChoiceKeepsOwn(m, t1, x);
      assert Agree(m, r, ids);
      OwnFoldSame(m, r, ids, x, OwnOf(s.items[x]));
    }
  }

  /** A node that is no symbol's gives symbols nothing, a symbol's node its properties. */
  lemma GatheredOne(s: State, r: State, i: NodeId)
    requires Known(s, i) && r.kind == s.kind && |r.props| == |s.props| && r.props[i] == s.props[i]
    requires r.items == if s.kind[i].SymbolNode? then AddProps(s.items, s.kind[i].sym, s.props[i]) else s.items
    ensures Gathered(s, r, [i])
  {
    hide AddProps;
    assert [i][..0] == [];
    forall x: Id | x < |s.items| && NoChoice(s, x) ensures OwnOf(r.items[x]) == OwnFold(r, [i], x, OwnOf(s.items[x])) {
      assert OwnFold(r, [], x, OwnOf(s.items[x])) == OwnOf(s.items[x]);
      if s.kind[i].SymbolNode? {
        AddPropsOwn(s.items, s.kind[i].sym, s.props[i], x);
      }
    }
  }

  lemma CollectedNothing(s: State)
    ensures Collected(s, s)
  {
    assert s.log[|s.log|..] == [];
  }

  lemma CollectedThen(s: State, m: State, r: State)
    requires Collected(s, m) && Collected(m, r) && Agree(m, r, m.log[|s.log|..])
    ensures Collected(s, r)
  {
    var a, b := m.log[|s.log|..], r.log[|m.log|..];
    assert r.log[|s.log|..] == a + b;
    assert r.log[..|s.log|] == m.log[..|s.log|];
    forall x: Id, weak: bool | x < |s.items|
      ensures RevDep(r.items[x], weak) == RevFold(r, r.log[|s.log|..], x, RevDep(s.items[x], weak), weak)
    {
      var e := RevDep(s.items[x], weak);
      RevFoldConcat(r, a, b, x, e, weak);
      RevFoldSame(m, r, a, x, e, weak);
    }
    hide Gathered, Agree;
    GatheredThen(s, m, r, a, b);
  }

  /** The nodes of one step that were logged before a later step keep their properties in it. */
  lemma LoggedKept(s: State, f: seq<Tree>, g: seq<Tree>, hs: seq<Tree>, m: State, gs: seq<Tree>, rest: seq<Tree>, r: State, vis: Expr)
    requires Distinct(f) && Pushing(s, f, g, m, vis) && Ordered(s, f, hs, g, m)
    requires Pushing(m, g, rest, r, vis)
    requires |s.log| <= |m.log|
    ensures Agree(m, r, m.log[|s.log|..])
  {
    hide Down, Preorder, Inner, Parsed, Clean, NonIf;
    var a, b := f[..|f| - |g|], g[..|g| - |rest|];
    assert f == a + g && g == b + rest;
    PreorderConcat(a, g);
    PreorderConcat(b, rest);
    DistinctParts(a, g);
    var pa, pg := Preorder(a), Preorder(g);
    assert m.log == s.log + pa by {
      assert m.log + pg == (s.log + pa) + pg;
      SameFront(m.log, s.log + pa, pg);
    }
    assert m.log[|s.log|..] == pa;
    forall i: NodeId | i in pa && i < |m.props| ensures r.props[i] == m.props[i] {
      if i in Inner(b) {
        InnerOfPreorder(b, i);
      }
    }
  }

  lemma SameFront<T>(a: seq<T>, b: seq<T>, c: seq<T>)
    requires a + c == b + c
    ensures a == b
  {
    assert |a| == |b|;
    assert a == (a + c)[..|a|];
  }

  lemma {:induction false} NodeCollects(t: Tree, rest: seq<Tree>, s: State, vis: Expr)
    requires IfsPlain(s) && Parsed(s, [t] + rest) && Distinct([t] + rest)
    ensures Collected(s, FinalizeNode(t, rest, s, vis).s)
    decreases 1 + Size(t.children) + Size(rest), 1
  {
    ParsedParts(s, t, rest);
    DistinctParts([t], rest);
    DistinctTree(t);
    if s.kind[t.id].SymbolNode? {
      SymbolCollects(t, rest, s, vis);
    } else if t.children == [] {
      var s0 := s.(log := s.log + [t.id]);
      OtherCollects(s, t, s0, FinalizeChoice(s0, t), t);
    } else {
      LevelCollects(t, rest, s, vis);
    }
  }

  lemma OtherCollects(s: State, t: Tree, s0: State, r: State, t1: Tree)
    requires Known(s, t.id) && !s.kind[t.id].SymbolNode? && s0.kind == s.kind && s0.props == s.props
    requires s0.log == s.log + [t.id] && s0.items == s.items && r == FinalizeChoice(s0, t1)
    ensures Collected(s, r)
  {
    assert r.log[|s.log|..] == [t.id] && r.log[..|s.log|] == s.log;
    assert [t.id][..0] == [];
    hide FinalizeChoice;
    forall x: Id, weak: bool | x < |s.items|
      ensures RevDep(r.items[x], weak) == RevFold(r, [t.id], x, RevDep(s.items[x], weak), weak)
    {
      FinalizeChoiceKeeps(s0, t1, x, weak);
    }
    hide Gathered;
    GatheredOne(s, s0, t.id);
    GatheredChoice(s, s0, t1, [t.id]);
  }

  lemma ChoiceCollects(s: State, m: State, t1: Tree)
    requires Collected(s, m)
    ensures Collected(s, FinalizeChoice(m, t1))
  {
    var r := FinalizeChoice(m, t1);
    hide FinalizeChoice;
    forall x: Id, weak: bool | x < |s.items|
      ensures RevDep(r.items[x], weak) == RevFold(r, r.log[|s.log|..], x, RevDep(s.items[x], weak), weak)
    {
      FinalizeChoiceKeeps(m, t1, x, weak);
      assert Agree(m, r, r.log[|s.log|..]);
      RevFoldSame(m, r, r.log[|s.log|..], x, RevDep(s.items[x], weak), weak);
    }
    hide Gathered;
    GatheredChoice(s, m, t1, m.log[|s.log|..]);
  }

  lemma {:induction false} SymbolCollects(t: Tree, rest: seq<Tree>, s: State, vis: Expr)
    requires IfsPlain(s) && Known(s, t.id) && Parsed(s, rest) && Distinct([t] + rest) && Distinct(rest)
    requires t.children == [] && s.kind[t.id].SymbolNode?
    ensures Collected(s, FinalizeNode(t, rest, s, vis).s)
    decreases 1 + Size(t.children) + Size(rest), 0
  {
    hide Level, Preorder, Distinct, AddProps, Parsed, Pushing, Ordered, Collected, Agree;
    var s0 := s.(log := s.log + [t.id]);
    var s1 := s0.(items := AddProps(s0.items, s.kind[t.id].sym, s0.props[t.id]));
    PushedParsed(s, s1, rest);
    SameIfs(s, s1);
    OwnCollected(s, s1, t.id);
    AbsorbCollects(t.id, rest, s1, vis);
    AbsorbPushes(t.id, rest, s1, vis);
    var (kids, rest1, s2) := Absorb(t.id, rest, s1, vis);
    OwnKept(t, rest, s, s1, rest1, s2, vis);
    CollectedThen(s, s1, s2);
  }

  lemma OwnCollected(s: State, s1: State, i: NodeId)
    requires Known(s, i) && s.kind[i].SymbolNode?
    requires s1 == s.(log := s.log + [i], items := AddProps(s.items, s.kind[i].sym, s.props[i]))
    ensures Collected(s, s1)
  {
    assert s1.log[|s.log|..] == [i] && s1.log[..|s.log|] == s.log;
    assert [i][..0] == [];
    hide AddProps;
    forall x: Id, weak: bool | x < |s.items|
      ensures RevDep(s1.items[x], weak) == RevFold(s1, [i], x, RevDep(s.items[x], weak), weak)
    {
      AddPropsFolds(s.items, s.kind[i].sym, s.props[i], x, weak);
    }
    hide Gathered;
    GatheredOne(s, s1, i);
  }

  lemma OwnKept(t: Tree, rest: seq<Tree>, s: State, s1: State, rest1: seq<Tree>, s2: State, vis: Expr)
    requires Distinct([t] + rest) && s1.log == s.log + [t.id] && Pushing(s1, rest, rest1, s2, vis)
    ensures Agree(s1, s2, s1.log[|s.log|..])
  {
    assert s1.log[|s.log|..] == [t.id];
    DistinctParts([t], rest);
    PreorderOne(t);
    hide Preorder, Down;
    var b := rest[..|rest| - |rest1|];
    assert rest == b + rest1;
    PreorderConcat(b, rest1);
    assert t.id in Preorder([t]);
    assert t.id !in Preorder(rest) && Preorder(rest) == Preorder(b) + Preorder(rest1);
    if t.id in Inner(b) {
      InnerOfPreorder(b, t.id);
      assert false;
    }
  }

  lemma OpenCollected(s: State, s1: State, i: NodeId)
    requires Known(s, i) && !s.kind[i].SymbolNode? && s1.kind == s.kind && |s1.props| == |s.props|
    requires s1.items == s.items && s1.log == s.log + [i] && s1.props[i] == s.props[i]
    ensures Collected(s, s1)
  {
    assert s1.log[|s.log|..] == [i] && s1.log[..|s.log|] == s.log;
    assert [i][..0] == [];
    forall x: Id, weak: bool | x < |s.items| ensures RevFold(s1, [i], x, RevDep(s.items[x], weak), weak) == RevDep(s1.items[x], weak) {
      assert RevFold(s1, [], x, RevDep(s.items[x], weak), weak) == RevDep(s.items[x], weak);
    }
    hide Gathered;
    GatheredOne(s, s1, i);
  }

  lemma OwnPropsKept(t: Tree, s: State, base: Expr, vis: Expr)
    requires Known(s, t.id) && Parsed(s, t.children) && Distinct(t.children) && t.id !in Preorder(t.children)
    ensures Propagate(s, t.children, base, vis).props[t.id] == s.props[t.id]
  {
    PropagatePushes(s, t.children, base, vis);
    hide Preorder, Distinct, Parsed, Propagate;
    forall k | 0 <= k < |t.children| ensures t.children[k].id != t.id {
      RootNotInner(t.children, k);
    }
  }

  lemma {:induction false} LevelCollects(t: Tree, rest: seq<Tree>, s: State, vis: Expr)
    requires IfsPlain(s) && Known(s, t.id) && Parsed(s, t.children) && Distinct(t.children) && t.id !in Preorder(t.children)
    requires t.children != [] && !s.kind[t.id].SymbolNode?
    ensures Collected(s, FinalizeNode(t, rest, s, vis).s)
    decreases 1 + Size(t.children) + Size(rest), 0
  {
    var s0 := s.(log := s.log + [t.id]);
    var k := s.kind[t.id];
    var inner := InnerVisible(k, s.props[t.id], vis);
    var s1 := Propagate(s0, t.children, BaseDep(k, s.props[t.id]), inner);
    PropagateShape(s0, t.children, BaseDep(k, s.props[t.id]), inner);
    PushedParsed(s, s0, t.children);
    OwnPropsKept(t, s0, BaseDep(k, s.props[t.id]), inner);
    OpenCollected(s, s1, t.id);
    hide Level, Preorder, Distinct, Parsed, Pushing, Ordered, Collected, Agree;
    PushedParsed(s, s1, t.children);
    SameIfs(s, s1);
    AllCollects(t.children, s1, inner);
    AllPushes(t.children, s1, inner);
    var (kids, s2) := FinalizeAll(t.children, s1, inner);
    OuterKept(t, s, s1, s2, inner);
    CollectedThen(s, s1, s2);
    ChoiceCollects(s, s2, Level(s2, Tree(t.id, kids)));
  }

  lemma OuterKept(t: Tree, s: State, s1: State, s2: State, inner: Expr)
    requires t.id !in Preorder(t.children) && s1.log == s.log + [t.id] && Pushing(s1, t.children, [], s2, inner)
    ensures Agree(s1, s2, s1.log[|s.log|..])
  {
    var f := t.children;
    assert s1.log[|s.log|..] == [t.id];
    assert f[..|f|] == f;
    if t.id in Inner(f) {
      InnerOfPreorder(f, t.id);
      assert false;
    }
  }

  lemma {:induction false} AbsorbCollects(i: NodeId, rest: seq<Tree>, s: State, vis: Expr)
    requires IfsPlain(s) && Parsed(s, rest) && Distinct(rest)
    ensures Collected(s, Absorb(i, rest, s, vis).2)
    decreases Size(rest), 3
  {
    if rest == [] || !AutoMenuDep(s, i, rest[0].id) {
      CollectedNothing(s);
    } else {
      hide Preorder, Distinct, Parsed, Pushing, Collected, Agree, AutoMenuDep;
      assert rest == [rest[0]] + rest[1..];
      var d := FinalizeNode(rest[0], rest[1..], s, vis);
      HeadCollects(rest, s, vis);
      AbsorbCollects(i, d.rest, d.s, vis);
      AbsorbPushes(i, d.rest, d.s, vis);
      var (kids, rest1, s1) := Absorb(i, d.rest, d.s, vis);
      HeadThen(rest, s, rest1, s1, vis);
    }
  }

  /** The first node of a level, with what the rest of the level needs. */
  lemma {:induction false} HeadCollects(f: seq<Tree>, s: State, vis: Expr)
    requires f != [] && IfsPlain(s) && Parsed(s, f) && Distinct(f)
    ensures var d := FinalizeNode(f[0], f[1..], s, vis);
      && Collected(s, d.s) && IfsPlain(d.s) && Parsed(d.s, d.rest) && Distinct(d.rest)
      && Pushing(s, f, d.rest, d.s, vis) && Ordered(s, f, [d.node], d.rest, d.s)
    decreases Size(f), 2
  {
    hide Preorder, Distinct, Parsed, Pushing, Collected, FinalizeNode;
    assert f == [f[0]] + f[1..];
    NodeCollects(f[0], f[1..], s, vis);
    NodePushes(f[0], f[1..], s, vis);
    NodeOrder(f[0], f[1..], s, vis);
    var d := FinalizeNode(f[0], f[1..], s, vis);
    RestParsed(s, f, d.rest, d.s, vis);
  }

  lemma HeadThen(f: seq<Tree>, s: State, rest: seq<Tree>, r: State, vis: Expr)
    requires f != [] && Distinct(f)
    requires var d := FinalizeNode(f[0], f[1..], s, vis);
      && Collected(s, d.s) && Pushing(s, f, d.rest, d.s, vis) && Ordered(s, f, [d.node], d.rest, d.s)
      && Pushing(d.s, d.rest, rest, r, vis) && Collected(d.s, r)
    ensures Collected(s, r)
  {
    var d := FinalizeNode(f[0], f[1..], s, vis);
    assert |s.log| <= |d.s.log|;
    hide FinalizeNode, Collected, Pushing, Ordered, Distinct;
    LoggedKept(s, f, d.rest, [d.node], d.s, [], rest, r, vis);
    CollectedThen(s, d.s, r);
  }

  lemma {:induction false} AllCollects(f: seq<Tree>, s: State, vis: Expr)
    requires IfsPlain(s) && Parsed(s, f) && Distinct(f)
    ensures Collected(s, FinalizeAll(f, s, vis).1)
    decreases Size(f), 3
  {
    if f == [] {
      CollectedNothing(s);
    } else {
      hide Preorder, Distinct, Parsed, Pushing, Collected, Agree;
      var d := FinalizeNode(f[0], f[1..], s, vis);
      HeadCollects(f, s, vis);
      AllCollects(d.rest, d.s, vis);
      AllPushes(d.rest, d.s, vis);
      var (ts, s1) := FinalizeAll(d.rest, d.s, vis);
      HeadThen(f, s, [], s1, vis);
    }
  }

  // -- values ------------------------------------------------------------------

  /** How strongly the j-th select of node i acts on its target. */
  function Strength(c: Config, v: View, r: State, i: NodeId, j: nat, weak: bool): Tri
    requires Known(r, i) && j < |Selects(r.props[i], weak)|
  {
    if r.kind[i].SymbolNode? then
      Min(Num(c, v, Val(Operand.Item(r.kind[i].sym))), Num(c, v, Selects(r.props[i], weak)[j].cond))
    else 0
  }

  /** Node i, a symbol's, selects x with its j-th select. */
  predicate SelectsItem(r: State, i: NodeId, j: nat, x: Id, weak: bool) {
    Known(r, i) && r.kind[i].SymbolNode? && j < |Selects(r.props[i], weak)| && Selects(r.props[i], weak)[j].target == x
  }

  ghost predicate SelectsKnown(c: Config, v: View, r: State, ids: seq<NodeId>, weak: bool) {
    forall i: NodeId :: i in ids && Known(r, i) && r.kind[i].SymbolNode? ==>
      && Has(c, v, Val(Operand.Item(r.kind[i].sym)))
      && forall j :: 0 <= j < |Selects(r.props[i], weak)| ==> Has(c, v, Selects(r.props[i], weak)[j].cond)
  }

  lemma {:induction false} SelectFoldMeans(c: Config, v: View, r: State, i: NodeId, n: nat, x: Id, e: Expr, weak: bool)
    returns (j: nat)
    requires Known(r, i) && r.kind[i].SymbolNode? && n <= |Selects(r.props[i], weak)|
    requires SelectsKnown(c, v, r, [i], weak) && Has(c, v, e)
    ensures var f := SelectFold(Selects(r.props[i], weak)[..n], r.kind[i].sym, x, e);
      && Has(c, v, f) && Num(c, v, e) <= Num(c, v, f)
      && (forall k :: 0 <= k < n && SelectsItem(r, i, k, x, weak) ==> Strength(c, v, r, i, k, weak) <= Num(c, v, f))
      && (Num(c, v, f) == Num(c, v, e) || (SelectsItem(r, i, j, x, weak) && Num(c, v, f) == Strength(c, v, r, i, j, weak)))
  {
    hide Has, Num, MakeAnd, MakeOr;
    var ss := Selects(r.props[i], weak);
    j := 0;
    if n > 0 {
      j := SelectFoldMeans(c, v, r, i, n - 1, x, e, weak);
      assert ss[..n][..n - 1] == ss[..n - 1];
      var e1 := SelectFold(ss[..n - 1], r.kind[i].sym, x, e);
      assert i in [i];
      MakeAndMeans(c, v, Val(Operand.Item(r.kind[i].sym)), ss[n - 1].cond);
      MakeOrMeans(c, v, e1, MakeAnd(Val(Operand.Item(r.kind[i].sym)), ss[n - 1].cond));
      if ss[n - 1].target == x && Strength(c, v, r, i, n - 1, weak) > Num(c, v, e1) {
        j := n - 1;
      }
    }
  }

  /** The fold is the greatest strength of all selects of x, or e where that is greater. */
  lemma {:induction false} RevFoldMeans(c: Config, v: View, r: State, ids: seq<NodeId>, x: Id, e: Expr, weak: bool)
    returns (i: NodeId, j: nat)
    requires SelectsKnown(c, v, r, ids, weak) && Has(c, v, e)
    ensures var f := RevFold(r, ids, x, e, weak);
      && Has(c, v, f) && Num(c, v, e) <= Num(c, v, f)
      && (forall n: NodeId, k :: n in ids && SelectsItem(r, n, k, x, weak) ==> Strength(c, v, r, n, k, weak) <= Num(c, v, f))
      && (Num(c, v, f) == Num(c, v, e) || (i in ids && SelectsItem(r, i, j, x, weak) && Num(c, v, f) == Strength(c, v, r, i, j, weak)))
  {
    hide Has, Num, SelectFold;
    i, j := 0, 0;
    if ids != [] {
      var init, last := ids[..|ids| - 1], ids[|ids| - 1];
      i, j := RevFoldMeans(c, v, r, init, x, e, weak);
      if Known(r, last) && r.kind[last].SymbolNode? {
        var ss := Selects(r.props[last], weak);
        var e1 := RevFold(r, init, x, e, weak);
        assert ss[..|ss|] == ss;
        var k := SelectFoldMeans(c, v, r, last, |ss|, x, e1, weak);
        if Num(c, v, RevFold(r, ids, x, e, weak)) != Num(c, v, e1) {
          i, j := last, k;
        }
      }
    }
  }

  /** A symbol has the properties of its nodes, in definition order and with the conditions they end up with. */
  lemma PropertiesGathered(top: Tree, s: State, x: Id)
    requires IfsPlain(s) && Parsed(s, [top]) && Distinct([top]) && s.log == [] && x < |s.items| && NoChoice(s, x)
    ensures var r := FinalizeNode(top, [], s, Y).s;
      |r.items| == |s.items| && OwnOf(r.items[x]) == OwnFold(r, Preorder([top]), x, OwnOf(s.items[x]))
  {
    hide FinalizeNode, OwnFold, Preorder, Parsed, NonIf, Clean, Distinct;
    assert [top] + [] == [top];
    NodeCollects(top, [], s, Y);
    NodeOrder(top, [], s, Y);
    var d := FinalizeNode(top, [], s, Y);
    var r := d.s;
    assert d.rest == [] by { EndOfLevel(top, s); }
    EmptyPreorder();
    assert r.log + [] == r.log && s.log + Preorder([top]) == Preorder([top]);
    assert r.log[0..] == Preorder([top]);
  }

  /** The direct dependencies of a symbol are met as far as those of its most accessible node. */
  lemma {:induction false} DirectDepMeans(c: Config, v: View, r: State, ids: seq<NodeId>, x: Id, o: Own)
    requires Has(c, v, o.dep) && forall i: NodeId :: i in ids && Known(r, i) && r.kind[i] == SymbolNode(x) ==> Has(c, v, r.props[i].dep)
    ensures var e := OwnFold(r, ids, x, o).dep;
      && Has(c, v, e) && Num(c, v, e) >= Num(c, v, o.dep)
      && (forall i: NodeId :: i in ids && Known(r, i) && r.kind[i] == SymbolNode(x) ==> Num(c, v, r.props[i].dep) <= Num(c, v, e))
      && (Num(c, v, e) == Num(c, v, o.dep)
          || exists i: NodeId :: i in ids && Known(r, i) && r.kind[i] == SymbolNode(x) && Num(c, v, r.props[i].dep) == Num(c, v, e))
  {
    hide Has, Num, MakeOr;
    if ids != [] {
      var init, last := ids[..|ids| - 1], ids[|ids| - 1];
      assert ids == init + [last];
      DirectDepMeans(c, v, r, init, x, o);
      if Known(r, last) && r.kind[last] == SymbolNode(x) {
        MakeOrMeans(c, v, OwnFold(r, init, x, o).dep, r.props[last].dep);
      }
    }
  }

  // -- the symbols of a choice ---------------------------------------------------

  /** The symbols whose nodes lie directly below. */
  function SymsBelow(s: State, f: seq<Tree>): seq<Id> {
    if f == [] then []
    else
      (if Known(s, f[0].id) && s.kind[f[0].id].SymbolNode? && s.kind[f[0].id].sym < |s.items| then [s.kind[f[0].id].sym] else [])
      + SymsBelow(s, f[1..])
  }

  lemma {:induction false} MembersAdded(s: State, choice: Id, f: seq<Tree>)
    requires choice < |s.items|
    ensures var r, syms := AddMembers(s, choice, f), SymsBelow(s, f);
      && r.items[choice].syms == s.items[choice].syms + syms
      && (forall x: Id :: x < |s.items| ==> r.items[x].choice == if x in syms then Some(choice) else s.items[x].choice)
      && (forall x: Id :: x < |s.items| && x != choice ==> r.items[x].syms == s.items[x].syms)
    decreases |f|
  {
    if f != [] {
      var i := f[0].id;
      if Known(s, i) && s.kind[i].SymbolNode? && s.kind[i].sym < |s.items| {
        var s1 := WithMember(s, choice, s.kind[i].sym);
        MembersAdded(s1, choice, f[1..]);
        SameSymsBelow(s, s1, f[1..]);
        MemberAdded(s, choice, s.kind[i].sym);
        assert AddMembers(s, choice, f) == AddMembers(s1, choice, f[1..]);
        assert SymsBelow(s, f) == [s.kind[i].sym] + SymsBelow(s, f[1..]);
        hide AddMembers, SymsBelow, WithMember;
        assert s1.items[choice].syms + SymsBelow(s, f[1..]) == s.items[choice].syms + SymsBelow(s, f);
      } else {
        MembersAdded(s, choice, f[1..]);
        assert SymsBelow(s, f) == SymsBelow(s, f[1..]);
        hide SymsBelow;
      }
    }
  }

  /** One round of the loop over the nodes of a choice. */
  function WithMember(s: State, choice: Id, sym: Id): State
    requires choice < |s.items| && sym < |s.items|
  {
    var own := s.items[sym := s.items[sym].(choice := Some(choice))];
    s.(items := own[choice := own[choice].(syms := own[choice].syms + [sym])])
  }

  lemma MemberAdded(s: State, choice: Id, sym: Id)
    requires choice < |s.items| && sym < |s.items|
    ensures var r := WithMember(s, choice, sym);
      && r == s.(items := r.items) && |r.items| == |s.items| && r.items[choice].syms == s.items[choice].syms + [sym]
      && (forall x: Id :: x < |s.items| ==> r.items[x].choice == if x == sym then Some(choice) else s.items[x].choice)
      && (forall x: Id :: x < |s.items| && x != choice ==> r.items[x].syms == s.items[x].syms)
  {}

  lemma {:induction false} SameSymsBelow(s: State, r: State, f: seq<Tree>)
    requires r.kind == s.kind && |r.props| == |s.props| && |r.items| == |s.items|
    ensures SymsBelow(r, f) == SymsBelow(s, f)
  {
    if f != [] {
      SameSymsBelow(s, r, f[1..]);
    }
  }

  /**
  A finished choice node registers exactly the symbols directly below it, in
  order, and adds its own dependencies and defaults to the choice.
  */
  lemma MembersRegistered(s: State, t: Tree)
    requires Known(s, t.id) && s.kind[t.id].ChoiceNode? && s.kind[t.id].choice < |s.items|
    ensures var c, p, items, syms := s.kind[t.id].choice, s.props[t.id], FinalizeChoice(s, t).items, SymsBelow(s, t.children);
      && |items| == |s.items|
      && items[c].syms == s.items[c].syms + syms && items[c].defaults == s.items[c].defaults + p.defaults
      && items[c].directDep == MakeOr(s.items[c].directDep, p.dep)
      && (forall x: Id :: x < |items| ==> items[x].choice == if x in syms then Some(c) else s.items[x].choice)
      && (forall x: Id :: x < |items| && x != c ==> items[x].syms == s.items[x].syms && OwnOf(items[x]) == OwnOf(s.items[x]))
  {
    var c, p := s.kind[t.id].choice, s.props[t.id];
    var d := s.items[c].(directDep := MakeOr(s.items[c].directDep, p.dep), defaults := s.items[c].defaults + p.defaults);
    var s0 := s.(items := s.items[c := d]);
    MembersAdded(s0, c, t.children);
    SameSymsBelow(s, s0, t.children);
    forall x: Id | x < |s.items| ensures OwnOf(AddMembers(s0, c, t.children).items[x]) == OwnOf(s0.items[x]) {
      AddMembersKeepOwn(s0, c, t.children, x);
    }
    TypesOnly(AddMembers(s0, c, t.children).items, c);
    hide AddMembers, SymsBelow, MakeOr, InferTypes;
  }

  lemma TypesOnly(items: seq<ItemProps>, c: Id)
    requires c < |items|
    ensures forall x: Id :: x < |items| ==> InferTypes(items, c)[x] == items[x].(typ := InferTypes(items, c)[x].typ)
  {
    hide FirstType;
  }

  lemma AllCollected(top: Tree, s: State, x: Id, weak: bool)
    requires IfsPlain(s) && Parsed(s, [top]) && Distinct([top]) && s.log == [] && x < |s.items|
    ensures var r := FinalizeNode(top, [], s, Y).s;
      && |r.items| == |s.items|
      && RevDep(r.items[x], weak) == RevFold(r, Preorder([top]), x, RevDep(s.items[x], weak), weak)
  {
    hide FinalizeNode, RevFold, Preorder, Parsed, NonIf, Clean, Distinct;
    assert [top] + [] == [top];
    NodeCollects(top, [], s, Y);
    NodeOrder(top, [], s, Y);
    var d := FinalizeNode(top, [], s, Y);
    var r := d.s;
    assert d.rest == [] by { EndOfLevel(top, s); }
    EmptyPreorder();
    assert r.log + [] == r.log && s.log + Preorder([top]) == Preorder([top]);
    assert r.log[0..] == Preorder([top]);
  }

  lemma EndOfLevel(top: Tree, s: State)
    ensures FinalizeNode(top, [], s, Y).rest == []
  {
    var rest := FinalizeNode(top, [], s, Y).rest;
    hide FinalizeNode;
    SizeNone(rest);
    SizeNone([]);
  }

  /**
  After finalizing, an item's reverse dependency has the value of the strongest
  select (or imply) of it anywhere in the tree, under its pushed-down condition.
  */
  lemma ReverseDependency(c: Config, v: View, top: Tree, s: State, x: Id, weak: bool) returns (i: NodeId, j: nat)
    requires IfsPlain(s) && Parsed(s, [top]) && Distinct([top]) && s.log == []
    requires x < |s.items| && RevDep(s.items[x], weak) == N
    requires SelectsKnown(c, v, FinalizeNode(top, [], s, Y).s, Preorder([top]), weak)
    ensures var r := FinalizeNode(top, [], s, Y).s;
      && x < |r.items|
      && (forall n: NodeId, k :: n in Preorder([top]) && SelectsItem(r, n, k, x, weak) ==>
            Strength(c, v, r, n, k, weak) <= Num(c, v, RevDep(r.items[x], weak)))
      && (Num(c, v, RevDep(r.items[x], weak)) == 0 ||
            (i in Preorder([top]) && SelectsItem(r, i, j, x, weak)
             && Num(c, v, RevDep(r.items[x], weak)) == Strength(c, v, r, i, j, weak)))
  {
    var r := FinalizeNode(top, [], s, Y).s;
    AllCollected(top, s, x, weak);
    assert Has(c, v, N) && Num(c, v, N) == 0;
    hide FinalizeNode, RevFold, Preorder, Parsed, Has, Num, Strength, SelectsItem, Distinct, SelectsKnown;
    i, j := RevFoldMeans(c, v, r, Preorder([top]), x, N, weak);
  }
}
