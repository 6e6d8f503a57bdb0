/**
From the menu tree to the configuration: what finalizing leaves on symbols and
choices resolves every reference and ties choice symbols to their choice.
*/
module MenuConfig {
  import opened Options
  import opened KconfigModel
  import opened KconfigSemantics
  import opened KconfigReads
  import opened MenuTree
  import opened MenuOrder
  import opened MenuMeaning

  import KconfigAcyclic
  import KconfigFile
  import KconfigSaveLoad

  // ---------------------------------------------------------------------
  // What lies inside a choice
  // ---------------------------------------------------------------------

  predicate IsChoiceNode(s: State, i: NodeId) {
    Known(s, i) && s.kind[i].ChoiceNode?
  }

  /** The nodes of a forest, without what is inside its choices. */
  function Scope(s: State, f: seq<Tree>): set<NodeId> {
    if f == [] then {}
    else {f[0].id} + (if IsChoiceNode(s, f[0].id) then {} else Scope(s, f[0].children)) + Scope(s, f[1..])
  }

  /** Node n is inside a node of choice ch, and of no other in between. */
  predicate InsideChoice(s: State, f: seq<Tree>, n: NodeId, ch: Id) {
    f != [] &&
      (|| (Known(s, f[0].id) && s.kind[f[0].id] == ChoiceNode(ch) && n in Scope(s, f[0].children))
       || InsideChoice(s, f[0].children, n, ch)
       || InsideChoice(s, f[1..], n, ch))
  }

  lemma {:induction false} ScopeConcat(s: State, f: seq<Tree>, g: seq<Tree>)
    ensures Scope(s, f + g) == Scope(s, f) + Scope(s, g)
  {
    if f == [] {
      assert f + g == g;
    } else {
      assert (f + g)[0] == f[0] && (f + g)[1..] == f[1..] + g;
      ScopeConcat(s, f[1..], g);
    }
  }

  lemma {:induction false} SameScope(s: State, r: State, f: seq<Tree>)
    requires r.kind == s.kind && |r.props| == |s.props|
    ensures Scope(r, f) == Scope(s, f)
    decreases Size(f)
  {
    if f != [] {
      SameScope(s, r, f[0].children);
      SameScope(s, r, f[1..]);
    }
  }

  lemma {:induction false} SameInside(s: State, r: State, f: seq<Tree>, n: NodeId, ch: Id)
    requires r.kind == s.kind && |r.props| == |s.props|
    ensures InsideChoice(r, f, n, ch) == InsideChoice(s, f, n, ch)
    decreases Size(f)
  {
    if f != [] {
      SameScope(s, r, f[0].children);
      SameInside(s, r, f[0].children, n, ch);
      SameInside(s, r, f[1..], n, ch);
    }
  }

  // -- conditions inside a choice mention it -----------------------------------

  predicate Bound(e: Expr, ch: Id) {
    e == N || ch in ExprItems(e)
  }

  lemma BoundAnd(e1: Expr, e2: Expr, ch: Id)
    requires Bound(e1, ch) || Bound(e2, ch)
    ensures Bound(MakeAnd(e1, e2), ch)
  {
    MakeAndItems(e1, e2);
  }

  predicate BoundProps(p: Props, ch: Id) {
    Bound(p.dep, ch) && (p.prompt.Some? ==> Bound(p.prompt.value, ch))
  }

  lemma PushedBound(k: NodeItem, p: Props, base: Expr, vis: Expr, ch: Id)
    requires Bound(base, ch)
    ensures BoundProps(Pushed(k, p, base, vis), ch)
  {
    var dep := MakeAnd(p.dep, base);
    BoundAnd(p.dep, base, ch);
    BoundAnd(vis, dep, ch);
    if p.prompt.Some? {
      BoundAnd(p.prompt.value, MakeAnd(vis, dep), ch);
      BoundAnd(p.prompt.value, dep, ch);
    }
  }

  lemma {:induction false} ScopeBound(s: State, r: State, f: seq<Tree>, base: Expr, vis: Expr, ch: Id, n: NodeId)
    requires Inherits(s, r, f, base, vis) && r.kind == s.kind && Bound(base, ch) && n in Scope(s, f)
    ensures Known(r, n) && BoundProps(r.props[n], ch)
    decreases Size(f)
  {
    var i := f[0].id;
    PushedBound(s.kind[i], s.props[i], base, vis, ch);
    if n != i {
      if n in Scope(s, f[1..]) {
        ScopeBound(s, r, f[1..], base, vis, ch, n);
      } else {
        ScopeBound(s, r, f[0].children, BaseDep(s.kind[i], r.props[i]), InnerVisible(s.kind[i], r.props[i], vis), ch, n);
      }
    }
  }

  lemma {:induction false} InheritedBound(s: State, r: State, f: seq<Tree>, base: Expr, vis: Expr, n: NodeId, ch: Id)
    requires Inherits(s, r, f, base, vis) && r.kind == s.kind && InsideChoice(s, f, n, ch)
    ensures Known(r, n) && BoundProps(r.props[n], ch)
    decreases Size(f)
  {
    var i := f[0].id;
    var base1, vis1 := BaseDep(s.kind[i], r.props[i]), InnerVisible(s.kind[i], r.props[i], vis);
    if s.kind[i] == ChoiceNode(ch) && n in Scope(s, f[0].children) {
      ScopeBound(s, r, f[0].children, base1, vis1, ch, n);
    } else if InsideChoice(s, f[0].children, n, ch) {
      InheritedBound(s, r, f[0].children, base1, vis1, n, ch);
    } else {
      InheritedBound(s, r, f[1..], base, vis, n, ch);
    }
  }

  /** In the finished tree every condition inside a choice mentions it, or has become n. */
  lemma {:induction false} InsideMentions(s: State, r: State, f: seq<Tree>, vis: Expr, n: NodeId, ch: Id)
    requires Down(s, r, f, vis) && r.kind == s.kind && InsideChoice(s, f, n, ch)
    ensures Known(r, n) && BoundProps(r.props[n], ch)
  {
    var i := f[0].id;
    var base1, vis1 := BaseDep(s.kind[i], r.props[i]), InnerVisible(s.kind[i], r.props[i], vis);
    if s.kind[i] == ChoiceNode(ch) && n in Scope(s, f[0].children) {
      ScopeBound(s, r, f[0].children, base1, vis1, ch, n);
    } else if InsideChoice(s, f[0].children, n, ch) {
      InheritedBound(s, r, f[0].children, base1, vis1, n, ch);
    } else {
      InsideMentions(s, r, f[1..], vis, n, ch);
    }
  }

  // -- finalizing moves nothing into a choice -------------------------------------

  lemma {:induction false} FlattenScope(s: State, f: seq<Tree>)
    ensures Scope(s, Flatten(s, f)) <= Scope(s, f)
    decreases Size(f)
  {
    if f != [] {
      var t, rest := f[0], f[1..];
      if Dissolves(s, t) {
        SizeConcat(t.children, rest);
        FlattenScope(s, t.children + rest);
        ScopeConcat(s, t.children, rest);
        ScopeConcat(s, [Tree(t.id, [])], Flatten(s, t.children + rest));
        assert [Tree(t.id, [])][1..] == [];
        assert !IsChoiceNode(s, t.id);
      } else {
        FlattenScope(s, rest);
        assert ([t] + Flatten(s, rest))[1..] == Flatten(s, rest);
      }
    }
  }

  lemma {:induction false} RemoveIfsScope(s: State, f: seq<Tree>)
    ensures Scope(s, RemoveIfs(s, f)) <= Scope(s, f)
  {
    if f != [] {
      RemoveIfsScope(s, f[1..]);
      if !IsIf(s, f[0].id) {
        assert ([f[0]] + RemoveIfs(s, f[1..]))[1..] == RemoveIfs(s, f[1..]);
      }
    }
  }

  lemma LevelScope(s: State, t: Tree)
    ensures Level(s, t).id == t.id && Scope(s, Level(s, t).children) <= Scope(s, t.children)
  {
    if t.children != [] {
      FlattenScope(s, t.children);
      RemoveIfsScope(s, Flatten(s, t.children));
    }
  }

  lemma ScopeCons(s: State, t: Tree, f: seq<Tree>)
    ensures Scope(s, [t] + f) == {t.id} + (if IsChoiceNode(s, t.id) then {} else Scope(s, t.children)) + Scope(s, f)
  {
    assert ([t] + f)[1..] == f;
  }

  predicate Suffix(g: seq<Tree>, f: seq<Tree>) {
    |g| <= |f| && g == f[|f| - |g|..]
  }

  lemma SuffixTrans(h: seq<Tree>, g: seq<Tree>, f: seq<Tree>)
    requires Suffix(h, g) && f != [] && Suffix(g, f[1..])
    ensures Suffix(h, f)
  {}

  /** The same kinds of nodes. */
  predicate SameKinds(s: State, r: State) {
    r.kind == s.kind && |r.props| == |s.props|
  }

  lemma {:induction false} NodeScope(t: Tree, rest: seq<Tree>, s: State, vis: Expr)
    ensures var d := FinalizeNode(t, rest, s, vis);
      SameKinds(s, d.s) && d.node.id == t.id && Suffix(d.rest, rest) && Scope(s, [d.node] + d.rest) <= Scope(s, [t] + rest)
    decreases 1 + Size(t.children) + Size(rest), 1
  {
    hide Level, Scope, AddProps, FinalizeChoice;
    if Known(s, t.id) {
      var s0 := s.(log := s.log + [t.id]);
      var k := s.kind[t.id];
      ScopeCons(s, t, rest);
      if k.SymbolNode? {
        var s1 := s0.(items := AddProps(s0.items, k.sym, s0.props[t.id]));
        AbsorbScope(t.id, rest, s1, vis);
        var (kids, rest1, s2) := Absorb(t.id, rest, s1, vis);
        var t1 := if kids == [] then t else Tree(t.id, kids);
        SymbolScope(s, s1, s2, t, rest, kids, rest1, t1);
        LevelScope(s2, t1);
      } else if t.children != [] {
        var inner := InnerVisible(k, s0.props[t.id], vis);
        var s1 := Propagate(s0, t.children, BaseDep(k, s0.props[t.id]), inner);
        PropagateShape(s0, t.children, BaseDep(k, s0.props[t.id]), inner);
        AllScope(t.children, s1, inner);
        var (kids, s2) := FinalizeAll(t.children, s1, inner);
        OtherScope(s, s1, s2, t, rest, kids);
        LevelScope(s2, Tree(t.id, kids));
      } else {
        assert FinalizeNode(t, rest, s, vis) == Done(t, rest, FinalizeChoice(s0, t));
      }
    }
  }

  lemma SymbolScope(s: State, s1: State, s2: State, t: Tree, rest: seq<Tree>, kids: seq<Tree>, rest1: seq<Tree>, t1: Tree)
    requires SameKinds(s, s1) && SameKinds(s1, s2) && Scope(s1, kids + rest1) <= Scope(s1, rest)
    requires t1 == if kids == [] then t else Tree(t.id, kids)
    ensures SameKinds(s, s2) && Scope(s, [Level(s2, t1)] + rest1) <= Scope(s, [t] + rest)
  {
    LevelScope(s2, t1);
    hide Level, Scope;
    SameScope(s, s1, kids + rest1);
    SameScope(s, s1, rest);
    SameScope(s, s2, Level(s2, t1).children);
    SameScope(s, s2, t1.children);
    ScopeConcat(s, kids, rest1);
    ScopeCons(s, t, rest);
    ScopeCons(s, Level(s2, t1), rest1);
  }

  lemma OtherScope(s: State, s1: State, s2: State, t: Tree, rest: seq<Tree>, kids: seq<Tree>)
    requires SameKinds(s, s1) && SameKinds(s1, s2) && Scope(s1, kids) <= Scope(s1, t.children)
    ensures var t1 := Level(s2, Tree(t.id, kids));
      && SameKinds(s, s2) && Scope(s, t1.children) <= Scope(s, t.children) && t1.id == t.id
      && Scope(s, [t1] + rest) <= Scope(s, [t] + rest)
  {
    var t1 := Level(s2, Tree(t.id, kids));
    LevelScope(s2, Tree(t.id, kids));
    hide Level, Scope;
    SameScope(s, s1, kids);
    SameScope(s, s1, t.children);
    SameScope(s, s2, t1.children);
    SameScope(s, s2, kids);
    ScopeCons(s, t, rest);
    ScopeCons(s, t1, rest);
  }

  lemma {:induction false} AbsorbScope(i: NodeId, rest: seq<Tree>, s: State, vis: Expr)
    ensures var (kids, rest1, s1) := Absorb(i, rest, s, vis);
      SameKinds(s, s1) && Suffix(rest1, rest) && Scope(s, kids + rest1) <= Scope(s, rest)
    decreases Size(rest), 2
  {
    hide Scope, AutoMenuDep;
    if rest == [] || !AutoMenuDep(s, i, rest[0].id) {
      assert [] + rest == rest;
    } else {
      assert rest == [rest[0]] + rest[1..];
      NodeScope(rest[0], rest[1..], s, vis);
      var d := FinalizeNode(rest[0], rest[1..], s, vis);
      AbsorbScope(i, d.rest, d.s, vis);
      var (kids, rest1, s1) := Absorb(i, d.rest, d.s, vis);
      SuffixTrans(rest1, d.rest, rest);
      HeadScope(s, d.s, rest, d.node, d.rest, kids, rest1);
    }
  }

  lemma HeadScope(s: State, m: State, f: seq<Tree>, node: Tree, rest: seq<Tree>, kids: seq<Tree>, rest1: seq<Tree>)
    requires SameKinds(s, m) && Scope(s, [node] + rest) <= Scope(s, f) && Scope(m, kids + rest1) <= Scope(m, rest)
    ensures Scope(s, [node] + kids + rest1) <= Scope(s, f)
  {
    hide Scope;
    SameScope(s, m, kids + rest1);
    SameScope(s, m, rest);
    assert [node] + kids + rest1 == [node] + (kids + rest1);
    ScopeConcat(s, [node], kids + rest1);
    ScopeConcat(s, [node], rest);
  }

  lemma {:induction false} AllScope(f: seq<Tree>, s: State, vis: Expr)
    ensures var (ts, s1) := FinalizeAll(f, s, vis);
      SameKinds(s, s1) && Scope(s, ts) <= Scope(s, f)
    decreases Size(f), 2
  {
    hide Scope;
    if f != [] {
      assert f == [f[0]] + f[1..];
      NodeScope(f[0], f[1..], s, vis);
      var d := FinalizeNode(f[0], f[1..], s, vis);
      AllScope(d.rest, d.s, vis);
      var (ts, s1) := FinalizeAll(d.rest, d.s, vis);
      assert ts + [] == ts && [d.node] + ts + [] == [d.node] + ts;
      HeadScope(s, d.s, f, d.node, d.rest, ts, []);
    }
  }

  // ---------------------------------------------------------------------
  // Expressions stay sound
  // ---------------------------------------------------------------------

  lemma AndSound(c: Config, e1: Expr, e2: Expr)
    requires SoundExpr(c, e1) && SoundExpr(c, e2)
    ensures SoundExpr(c, MakeAnd(e1, e2)) && SoundExpr(c, MakeOr(e1, e2))
  {}

  predicate SoundDefault(c: Config, d: Default) {
    SoundExpr(c, d.value) && SoundExpr(c, d.cond)
  }

  predicate SoundRange(c: Config, x: Range) {
    SymbolOperand(c, x.low) && SymbolOperand(c, x.high) && SoundExpr(c, x.cond)
  }

  predicate SoundProps(c: Config, p: Props) {
    && SoundExpr(c, p.dep) && (p.prompt.Some? ==> SoundExpr(c, p.prompt.value)) && SoundExpr(c, p.visibility)
    && (forall k :: 0 <= k < |p.defaults| ==> SoundDefault(c, p.defaults[k]))
    && (forall k :: 0 <= k < |p.ranges| ==> SoundRange(c, p.ranges[k]))
    && (forall k :: 0 <= k < |p.selects| ==> SoundExpr(c, p.selects[k].cond))
    && (forall k :: 0 <= k < |p.implies| ==> SoundExpr(c, p.implies[k].cond))
  }

  predicate SoundItem(c: Config, d: ItemProps) {
    && SoundExpr(c, d.directDep) && SoundExpr(c, d.revDep) && SoundExpr(c, d.weakRevDep)
    && (forall k :: 0 <= k < |d.defaults| ==> SoundDefault(c, d.defaults[k]))
    && (forall k :: 0 <= k < |d.ranges| ==> SoundRange(c, d.ranges[k]))
  }

  predicate SoundKind(c: Config, k: NodeItem) {
    && (k.SymbolNode? ==> k.sym < |c.items| && c.items[k.sym].Symbol?)
    && (k.ChoiceNode? ==> IsChoice(c, k.choice))
  }

  /** Symbols and choices are those of `c`, and so is everything the properties refer to. */
  ghost predicate SoundState(c: Config, s: State) {
    && |s.items| == |c.items| && |s.kind| == |s.props|
    && (forall i :: 0 <= i < |s.props| ==> SoundProps(c, s.props[i]) && SoundKind(c, s.kind[i]))
    && (forall x :: 0 <= x < |s.items| ==> SoundItem(c, s.items[x]))
  }

  lemma PushedSound(c: Config, k: NodeItem, p: Props, base: Expr, vis: Expr)
    requires SoundProps(c, p) && SoundExpr(c, base) && SoundExpr(c, vis)
    ensures SoundProps(c, Pushed(k, p, base, vis))
  {
    var dep := MakeAnd(p.dep, base);
    forall e1, e2 | SoundExpr(c, e1) && SoundExpr(c, e2) ensures SoundExpr(c, MakeAnd(e1, e2)) {
      AndSound(c, e1, e2);
    }
    hide SoundExpr, MakeAnd, SymbolOperand;
    assert SoundExpr(c, dep);
    var q := Pushed(k, p, base, vis);
    if HasItem(k) {
      forall j | 0 <= j < |q.defaults| ensures SoundDefault(c, q.defaults[j]) {
        assert SoundDefault(c, p.defaults[j]);
      }
      forall j | 0 <= j < |q.ranges| ensures SoundRange(c, q.ranges[j]) {
        assert SoundRange(c, p.ranges[j]);
      }
    }
  }

  lemma {:induction false} PropagateSound(c: Config, s: State, f: seq<Tree>, base: Expr, vis: Expr)
    requires SoundState(c, s) && SoundExpr(c, base) && SoundExpr(c, vis)
    ensures SoundState(c, Propagate(s, f, base, vis))
    decreases |f|
  {
    hide SoundExpr, SoundProps, SoundItem, SoundKind, Pushed;
    if f != [] {
      var i := f[0].id;
      if Known(s, i) {
        PushedSound(c, s.kind[i], s.props[i], base, vis);
        PropagateSound(c, SetProps(s, i, Pushed(s.kind[i], s.props[i], base, vis)), f[1..], base, vis);
      } else {
        PropagateSound(c, s, f[1..], base, vis);
      }
    }
  }

  ghost predicate SoundItems(c: Config, items: seq<ItemProps>) {
    |items| == |c.items| && forall x :: 0 <= x < |items| ==> SoundItem(c, items[x])
  }

  /** Choices and their symbols are as they were. */
  ghost predicate SameMembers(a: seq<ItemProps>, b: seq<ItemProps>) {
    |a| == |b| && forall x :: 0 <= x < |a| ==> b[x].choice == a[x].choice && b[x].syms == a[x].syms
  }

  lemma AddRevDepSound(c: Config, items: seq<ItemProps>, sym: Id, x: Select, weak: bool)
    requires SoundItems(c, items) && sym < |c.items| && SoundExpr(c, x.cond)
    ensures SoundItems(c, AddRevDep(items, sym, x, weak)) && SameMembers(items, AddRevDep(items, sym, x, weak))
  {
    if x.target < |items| {
      var d := items[x.target];
      AndSound(c, Val(Operand.Item(sym)), x.cond);
      AndSound(c, RevDep(d, weak), MakeAnd(Val(Operand.Item(sym)), x.cond));
    }
  }

  lemma {:induction false} AddRevDepsSound(c: Config, items: seq<ItemProps>, sym: Id, ss: seq<Select>, weak: bool)
    requires SoundItems(c, items) && sym < |c.items| && forall k :: 0 <= k < |ss| ==> SoundExpr(c, ss[k].cond)
    ensures SoundItems(c, AddRevDeps(items, sym, ss, weak)) && SameMembers(items, AddRevDeps(items, sym, ss, weak))
  {
    hide SoundItem, SoundExpr, AddRevDep;
    if ss != [] {
      AddRevDepsSound(c, items, sym, ss[..|ss| - 1], weak);
      AddRevDepSound(c, AddRevDeps(items, sym, ss[..|ss| - 1], weak), sym, ss[|ss| - 1], weak);
    }
  }

  lemma OwnSound(c: Config, d: ItemProps, p: Props)
    requires SoundItem(c, d) && SoundProps(c, p)
    ensures SoundItem(c, AddOwn(d, p))
  {
    AndSound(c, d.directDep, p.dep);
    hide SoundExpr, SoundDefault, SoundRange, MakeOr;
  }

  lemma AddPropsSound(c: Config, items: seq<ItemProps>, sym: Id, p: Props)
    requires SoundItems(c, items) && sym < |c.items| && SoundProps(c, p)
    ensures SoundItems(c, AddProps(items, sym, p)) && SameMembers(items, AddProps(items, sym, p))
  {
    var own := items[sym := AddOwn(items[sym], p)];
    OwnSound(c, items[sym], p);
    assert SoundItems(c, own) by { hide SoundItem, AddOwn; }
    assert SameMembers(items, own);
    hide SoundItem, SoundExpr, SoundItems, AddRevDeps, AddOwn;
    AddRevDepsSound(c, own, sym, p.selects, false);
    AddRevDepsSound(c, AddRevDeps(own, sym, p.selects, false), sym, p.implies, true);
  }

  // ---------------------------------------------------------------------
  // Choice symbols
  // ---------------------------------------------------------------------

  /** A symbol in a choice has a node inside that choice, and the choice knows it. */
  ghost predicate HousedAt(s: State, all: seq<Tree>, x: Id, ch: Id) {
    && ch < |s.items| && x in s.items[ch].syms
    && exists n: NodeId :: n < |s.kind| && s.kind[n] == SymbolNode(x) && InsideChoice(s, all, n, ch)
  }

  predicate SymbolsOnly(c: Config, syms: seq<Id>) {
    forall k :: 0 <= k < |syms| ==> syms[k] < |c.items| && c.items[syms[k]].Symbol?
  }

  ghost predicate Housed(c: Config, s: State, all: seq<Tree>) {
    && (forall x: Id :: x < |s.items| && s.items[x].choice.Some? ==>
          IsChoice(c, s.items[x].choice.value) && HousedAt(s, all, x, s.items[x].choice.value))
    && (forall ch: Id :: ch < |s.items| ==> SymbolsOnly(c, s.items[ch].syms))
  }

  ghost predicate Inv(c: Config, s: State, all: seq<Tree>) {
    SoundState(c, s) && Housed(c, s, all)
  }

  lemma HousedFrame(c: Config, s: State, r: State, all: seq<Tree>)
    requires Housed(c, s, all) && SameKinds(s, r) && SameMembers(s.items, r.items)
    ensures Housed(c, r, all)
  {
    hide InsideChoice;
    forall x: Id | x < |r.items| && r.items[x].choice.Some?
      ensures IsChoice(c, r.items[x].choice.value) && HousedAt(r, all, x, r.items[x].choice.value)
    {
      var ch := s.items[x].choice.value;
      assert HousedAt(s, all, x, ch);
      var n: NodeId :| n < |s.kind| && s.kind[n] == SymbolNode(x) && InsideChoice(s, all, n, ch);
      SameInside(s, r, all, n, ch);
    }
    forall ch: Id | ch < |r.items| ensures SymbolsOnly(c, r.items[ch].syms) {
      assert SymbolsOnly(c, s.items[ch].syms);
    }
  }

  lemma SymbolInv(c: Config, s: State, all: seq<Tree>, i: NodeId)
    requires Inv(c, s, all) && Known(s, i) && s.kind[i].SymbolNode?
    ensures Inv(c, s.(log := s.log + [i], items := AddProps(s.items, s.kind[i].sym, s.props[i])), all)
  {
    var r := s.(log := s.log + [i], items := AddProps(s.items, s.kind[i].sym, s.props[i]));
    assert SoundKind(c, s.kind[i]) && SoundProps(c, s.props[i]);
    AddPropsSound(c, s.items, s.kind[i].sym, s.props[i]);
    hide SoundProps, SoundItem, AddProps, Housed;
    HousedFrame(c, s, r, all);
  }

  lemma PropagateInv(c: Config, s: State, all: seq<Tree>, i: NodeId, f: seq<Tree>, base: Expr, vis: Expr)
    requires Inv(c, s, all) && SoundExpr(c, base) && SoundExpr(c, vis)
    ensures Inv(c, Propagate(s.(log := s.log + [i]), f, base, vis), all)
  {
    var s0 := s.(log := s.log + [i]);
    hide SoundProps, SoundItem, SoundExpr, SoundKind, Housed;
    PropagateSound(c, s0, f, base, vis);
    PropagateShape(s0, f, base, vis);
    HousedFrame(c, s, Propagate(s0, f, base, vis), all);
  }

  /** Everything but choices and their symbols is as it was. */
  predicate SameRest(a: ItemProps, b: ItemProps) {
    b == a.(choice := b.choice, syms := b.syms, typ := b.typ)
  }

  lemma {:induction false} MembersKeepRest(s: State, choice: Id, f: seq<Tree>, x: Id)
    requires x < |s.items|
    ensures SameRest(s.items[x], AddMembers(s, choice, f).items[x])
    decreases |f|
  {
    if f != [] {
      var i := f[0].id;
      if Known(s, i) && s.kind[i].SymbolNode? && s.kind[i].sym < |s.items| && choice < |s.items| {
        var own := s.items[s.kind[i].sym := s.items[s.kind[i].sym].(choice := Some(choice))];
        MembersKeepRest(s.(items := own[choice := own[choice].(syms := own[choice].syms + [s.kind[i].sym])]), choice, f[1..], x);
      } else {
        MembersKeepRest(s, choice, f[1..], x);
      }
    }
  }

  /** One more symbol for a choice, whose node lies inside it. */
  lemma MemberHoused(c: Config, s: State, all: seq<Tree>, ch: Id, n: NodeId)
    requires Housed(c, s, all) && |s.items| == |c.items| && IsChoice(c, ch)
    requires Known(s, n) && s.kind[n].SymbolNode? && SoundKind(c, s.kind[n]) && InsideChoice(s, all, n, ch)
    ensures var x := s.kind[n].sym;
      var own := s.items[x := s.items[x].(choice := Some(ch))];
      Housed(c, s.(items := own[ch := own[ch].(syms := own[ch].syms + [x])]), all)
  {
    hide InsideChoice;
    var x := s.kind[n].sym;
    var own := s.items[x := s.items[x].(choice := Some(ch))];
    var r := s.(items := own[ch := own[ch].(syms := own[ch].syms + [x])]);
    forall y: Id | y < |r.items| && r.items[y].choice.Some?
      ensures IsChoice(c, r.items[y].choice.value) && HousedAt(r, all, y, r.items[y].choice.value)
    {
      if y == x {
        SameInside(s, r, all, n, ch);
      } else {
        var m: NodeId :| m < |s.kind| && s.kind[m] == SymbolNode(y) && InsideChoice(s, all, m, s.items[y].choice.value);
        SameInside(s, r, all, m, s.items[y].choice.value);
      }
    }
    forall z: Id | z < |r.items| ensures SymbolsOnly(c, r.items[z].syms) {
      assert SymbolsOnly(c, s.items[z].syms);
    }
  }

  lemma {:induction false} MembersHoused(c: Config, s: State, all: seq<Tree>, ch: Id, f: seq<Tree>)
    requires Housed(c, s, all) && |s.items| == |c.items| && IsChoice(c, ch)
    requires forall i :: 0 <= i < |s.kind| ==> SoundKind(c, s.kind[i])
    requires forall k :: 0 <= k < |f| ==> InsideChoice(s, all, f[k].id, ch)
    ensures Housed(c, AddMembers(s, ch, f), all)
    decreases |f|
  {
    hide InsideChoice, Housed;
    if f != [] {
      var i := f[0].id;
      var s1 := s;
      if Known(s, i) && s.kind[i].SymbolNode? && s.kind[i].sym < |s.items| {
        MemberHoused(c, s, all, ch, i);
        var own := s.items[s.kind[i].sym := s.items[s.kind[i].sym].(choice := Some(ch))];
        s1 := s.(items := own[ch := own[ch].(syms := own[ch].syms + [s.kind[i].sym])]);
      }
      forall k | 0 <= k < |f[1..]| ensures InsideChoice(s1, all, f[1..][k].id, ch) {
        assert f[1..][k] == f[k + 1];
        SameInside(s, s1, all, f[k + 1].id, ch);
      }
      MembersHoused(c, s1, all, ch, f[1..]);
    }
  }

  lemma InferredTypes(items: seq<ItemProps>, choice: Id)
    requires choice < |items|
    ensures SameMembers(items, InferTypes(items, choice))
    ensures forall x :: 0 <= x < |items| ==> SameRest(items[x], InferTypes(items, choice)[x])
  {}

  lemma RestSound(c: Config, a: ItemProps, b: ItemProps)
    requires SoundItem(c, a) && SameRest(a, b)
    ensures SoundItem(c, b)
  {}

  lemma OwnChoiceSound(c: Config, d: ItemProps, p: Props)
    requires SoundItem(c, d) && SoundProps(c, p)
    ensures SoundItem(c, d.(directDep := MakeOr(d.directDep, p.dep), defaults := d.defaults + p.defaults))
  {
    AndSound(c, d.directDep, p.dep);
    hide SoundExpr, SoundDefault, SoundRange, MakeOr;
  }

  /** The end of finalizing a choice's node whose children lie inside it. */
  lemma ChoiceInv(c: Config, s: State, all: seq<Tree>, t: Tree)
    requires Inv(c, s, all)
    requires IsChoiceNode(s, t.id) ==> forall k :: 0 <= k < |t.children| ==> InsideChoice(s, all, t.children[k].id, s.kind[t.id].choice)
    ensures Inv(c, FinalizeChoice(s, t), all)
  {
    hide InsideChoice, Housed, SoundProps, SoundItem, AddMembers, InferTypes;
    if Known(s, t.id) && s.kind[t.id].ChoiceNode? {
      var ch, p := s.kind[t.id].choice, s.props[t.id];
      assert SoundKind(c, s.kind[t.id]) && SoundProps(c, p) && SoundItem(c, s.items[ch]);
      OwnChoiceSound(c, s.items[ch], p);
      var d := s.items[ch].(directDep := MakeOr(s.items[ch].directDep, p.dep), defaults := s.items[ch].defaults + p.defaults);
      var s1 := s.(items := s.items[ch := d]);
      HousedFrame(c, s, s1, all);
      forall k | 0 <= k < |t.children| ensures InsideChoice(s1, all, t.children[k].id, ch) {
        SameInside(s, s1, all, t.children[k].id, ch);
      }
      MembersHoused(c, s1, all, ch, t.children);
      var s2 := AddMembers(s1, ch, t.children);
      var s3 := s2.(items := InferTypes(s2.items, ch));
      InferredTypes(s2.items, ch);
      HousedFrame(c, s2, s3, all);
      forall x | 0 <= x < |s3.items| ensures SoundItem(c, s3.items[x]) {
        assert SoundItem(c, s1.items[x]);
        MembersKeepRest(s1, ch, t.children, x);
        RestSound(c, s1.items[x], s2.items[x]);
        RestSound(c, s2.items[x], s3.items[x]);
      }
    }
  }

  // -- the whole tree --------------------------------------------------------------

  /** What lies inside a choice of f lies inside that choice of the whole forest. */
  ghost predicate PartOf(s: State, all: seq<Tree>, f: seq<Tree>) {
    forall n: NodeId, ch: Id :: InsideChoice(s, f, n, ch) ==> InsideChoice(s, all, n, ch)
  }

  lemma {:induction false} InsideSuffix(s: State, f: seq<Tree>, g: seq<Tree>, n: NodeId, ch: Id)
    requires Suffix(g, f) && InsideChoice(s, g, n, ch)
    ensures InsideChoice(s, f, n, ch)
  {
    if |g| < |f| {
      assert Suffix(g, f[1..]);
      InsideSuffix(s, f[1..], g, n, ch);
    } else {
      assert f == g;
    }
  }

  lemma PartSuffix(s: State, r: State, all: seq<Tree>, f: seq<Tree>, g: seq<Tree>)
    requires PartOf(s, all, f) && Suffix(g, f) && SameKinds(s, r)
    ensures PartOf(r, all, g)
  {
    hide InsideChoice;
    forall n: NodeId, ch: Id | InsideChoice(r, g, n, ch) ensures InsideChoice(r, all, n, ch) {
      SameInside(s, r, g, n, ch);
      InsideSuffix(s, f, g, n, ch);
      SameInside(s, r, all, n, ch);
    }
  }

  lemma PartChildren(s: State, r: State, all: seq<Tree>, t: Tree, rest: seq<Tree>)
    requires PartOf(s, all, [t] + rest) && SameKinds(s, r)
    ensures PartOf(r, all, t.children) && PartOf(r, all, rest)
    ensures IsChoiceNode(s, t.id) ==> forall n :: n in Scope(s, t.children) ==> InsideChoice(r, all, n, s.kind[t.id].choice)
  {
    var f := [t] + rest;
    assert f[0] == t && f[1..] == rest;
    forall n: NodeId, ch: Id ensures InsideChoice(s, t.children, n, ch) || InsideChoice(s, rest, n, ch) ==> InsideChoice(s, f, n, ch) {}
    if IsChoiceNode(s, t.id) {
      forall n | n in Scope(s, t.children) ensures InsideChoice(s, f, n, s.kind[t.id].choice) {}
    }
    hide InsideChoice, Scope;
    forall n: NodeId, ch: Id ensures InsideChoice(r, t.children, n, ch) ==> InsideChoice(r, all, n, ch)
                             ensures InsideChoice(r, rest, n, ch) ==> InsideChoice(r, all, n, ch)
                             ensures InsideChoice(s, all, n, ch) ==> InsideChoice(r, all, n, ch)
    {
      SameInside(s, r, t.children, n, ch);
      SameInside(s, r, rest, n, ch);
      SameInside(s, r, all, n, ch);
    }
  }

  lemma {:induction false} RootsInScope(s: State, f: seq<Tree>, k: nat)
    requires k < |f|
    ensures f[k].id in Scope(s, f)
  {
    if k > 0 {
      RootsInScope(s, f[1..], k - 1);
    }
  }

  lemma {:induction false} NodeInv(c: Config, all: seq<Tree>, t: Tree, rest: seq<Tree>, s: State, vis: Expr)
    requires Inv(c, s, all) && SoundExpr(c, vis) && PartOf(s, all, [t] + rest)
    ensures Inv(c, FinalizeNode(t, rest, s, vis).s, all)
    decreases 1 + Size(t.children) + Size(rest), 1
  {
    hide Level, Scope, AddProps, FinalizeChoice, Inv, PartOf, InsideChoice, SoundExpr;
    if Known(s, t.id) {
      var s0 := s.(log := s.log + [t.id]);
      var k := s.kind[t.id];
      if k.SymbolNode? {
        var s1 := s0.(items := AddProps(s0.items, k.sym, s0.props[t.id]));
        SymbolInv(c, s, all, t.id);
        PartChildren(s, s1, all, t, rest);
        AbsorbInv(c, all, t.id, rest, s1, vis);
      } else if t.children == [] {
        LeafInv(c, s, all, t);
      } else {
        MenuInv(c, all, t, rest, s, vis);
      }
    }
  }

  lemma LeafInv(c: Config, s: State, all: seq<Tree>, t: Tree)
    requires Inv(c, s, all) && t.children == []
    ensures Inv(c, FinalizeChoice(s.(log := s.log + [t.id]), t), all)
  {
    var s0 := s.(log := s.log + [t.id]);
    hide FinalizeChoice, Housed, SoundProps, SoundItem, SoundKind, InsideChoice;
    HousedFrame(c, s, s0, all);
    ChoiceInv(c, s0, all, t);
  }

  lemma BaseSound(c: Config, s: State, i: NodeId, vis: Expr)
    requires SoundState(c, s) && Known(s, i) && SoundExpr(c, vis)
    ensures SoundExpr(c, BaseDep(s.kind[i], s.props[i])) && SoundExpr(c, InnerVisible(s.kind[i], s.props[i], vis))
  {
    assert SoundKind(c, s.kind[i]) && SoundProps(c, s.props[i]);
    AndSound(c, vis, s.props[i].visibility);
  }

  lemma {:induction false} MenuInv(c: Config, all: seq<Tree>, t: Tree, rest: seq<Tree>, s: State, vis: Expr)
    requires Inv(c, s, all) && SoundExpr(c, vis) && PartOf(s, all, [t] + rest)
    requires Known(s, t.id) && !s.kind[t.id].SymbolNode? && t.children != []
    ensures Inv(c, FinalizeNode(t, rest, s, vis).s, all)
    decreases 1 + Size(t.children) + Size(rest), 0
  {
    var s0 := s.(log := s.log + [t.id]);
    var k := s.kind[t.id];
    var base, inner := BaseDep(k, s0.props[t.id]), InnerVisible(k, s0.props[t.id], vis);
    BaseSound(c, s, t.id, vis);
    hide Level, Scope, FinalizeChoice, Inv, PartOf, InsideChoice, SoundExpr, BaseDep, InnerVisible;
    var s1 := Propagate(s0, t.children, base, inner);
    PropagateInv(c, s, all, t.id, t.children, base, inner);
    PropagateShape(s0, t.children, base, inner);
    PartChildren(s, s1, all, t, rest);
    AllInv(c, all, t.children, s1, inner);
    AllScope(t.children, s1, inner);
    var (kids, s2) := FinalizeAll(t.children, s1, inner);
    PartChildren(s, s2, all, t, rest);
    OtherScope(s, s1, s2, t, rest, kids);
    var t1 := Level(s2, Tree(t.id, kids));
    forall j | 0 <= j < |t1.children| && IsChoiceNode(s2, t1.id) ensures InsideChoice(s2, all, t1.children[j].id, s2.kind[t1.id].choice) {
      RootsInScope(s, t1.children, j);
    }
    ChoiceInv(c, s2, all, t1);
  }

  lemma {:induction false} AbsorbInv(c: Config, all: seq<Tree>, i: NodeId, rest: seq<Tree>, s: State, vis: Expr)
    requires Inv(c, s, all) && SoundExpr(c, vis) && PartOf(s, all, rest)
    ensures Inv(c, Absorb(i, rest, s, vis).2, all)
    decreases Size(rest), 2
  {
    hide Inv, PartOf, AutoMenuDep, SoundExpr;
    if rest != [] && AutoMenuDep(s, i, rest[0].id) {
      assert rest == [rest[0]] + rest[1..];
      NodeInv(c, all, rest[0], rest[1..], s, vis);
      NodeScope(rest[0], rest[1..], s, vis);
      var d := FinalizeNode(rest[0], rest[1..], s, vis);
      assert Suffix(d.rest, rest);
      PartSuffix(s, d.s, all, rest, d.rest);
      AbsorbInv(c, all, i, d.rest, d.s, vis);
    }
  }

  lemma {:induction false} AllInv(c: Config, all: seq<Tree>, f: seq<Tree>, s: State, vis: Expr)
    requires Inv(c, s, all) && SoundExpr(c, vis) && PartOf(s, all, f)
    ensures Inv(c, FinalizeAll(f, s, vis).1, all)
    decreases Size(f), 2
  {
    hide Inv, PartOf, SoundExpr;
    if f != [] {
      assert f == [f[0]] + f[1..];
      NodeInv(c, all, f[0], f[1..], s, vis);
      NodeScope(f[0], f[1..], s, vis);
      var d := FinalizeNode(f[0], f[1..], s, vis);
      assert Suffix(d.rest, f);
      PartSuffix(s, d.s, all, f, d.rest);
      AllInv(c, all, d.rest, d.s, vis);
    }
  }

  // ---------------------------------------------------------------------
  // The configuration
  // ---------------------------------------------------------------------

  /** What an item has besides the properties of its nodes. */
  datatype Origin = SymbolOrigin(name: string, special: bool) | ChoiceOrigin(optional: bool)

  /** The prompt conditions of an item's nodes. */
  function PromptsOf(s: State, ids: seq<NodeId>, k: NodeItem): seq<Expr> {
    if ids == [] then []
    else
      var i := ids[0];
      (if Known(s, i) && s.kind[i] == k && s.props[i].prompt.Some? then [s.props[i].prompt.value] else []) + PromptsOf(s, ids[1..], k)
  }

  predicate Defined(s: State, ids: seq<NodeId>, x: Id) {
    exists i: NodeId :: i in ids && i < |s.kind| && s.kind[i] == SymbolNode(x)
  }

  function SymbolOf(e: Expr): Id {
    if e.Val? && e.operand.Item? then e.operand.id else 0
  }

  function ChoiceDefaultsOf(ds: seq<Default>): (r: seq<ChoiceDefault>)
    ensures |r| == |ds|
  {
    seq(|ds|, k requires 0 <= k < |ds| => ChoiceDefault(SymbolOf(ds[k].value), ds[k].cond))
  }

  function DefOf(s: State, ids: seq<NodeId>, o: Origin, x: Id): Def
    requires x < |s.items|
  {
    var d := s.items[x];
    match o
    case SymbolOrigin(name, special) =>
      Symbol(name, d.typ, PromptsOf(s, ids, SymbolNode(x)), d.defaults, d.ranges, d.revDep, d.weakRevDep, d.directDep,
             d.choice, Defined(s, ids, x), special)
    case ChoiceOrigin(optional) =>
      Choice(d.typ, PromptsOf(s, ids, ChoiceNode(x)), ChoiceDefaultsOf(d.defaults), d.syms, optional)
  }

  /** The symbols and choices of the nodes `ids`, in the state `s`. */
  function ConfigOf(s: State, ids: seq<NodeId>, origins: seq<Origin>, modules: Id, lib: Lib): Config
    requires |origins| == |s.items|
  {
    Config(seq(|s.items|, x requires 0 <= x < |s.items| => DefOf(s, ids, origins[x], x)), modules, lib, [])
  }

  lemma {:induction false} SameSorts(c: Config, d: Config, e: Expr)
    requires |c.items| == |d.items| && forall x :: 0 <= x < |c.items| ==> c.items[x].Symbol? == d.items[x].Symbol?
    ensures SoundExpr(c, e) == SoundExpr(d, e)
  {
    match e
    case Val(_) =>
    case And(l, r) =>
      SameSorts(c, d, l);
      SameSorts(c, d, r);
    case Or(l, r) =>
      SameSorts(c, d, l);
      SameSorts(c, d, r);
    case Not(x) => SameSorts(c, d, x);
    case Compare(_, _, _) =>
  }

  lemma {:induction false} PromptIsOfNode(s: State, ids: seq<NodeId>, k: NodeItem, j: nat) returns (i: NodeId)
    requires j < |PromptsOf(s, ids, k)|
    ensures i in ids && Known(s, i) && s.kind[i] == k && s.props[i].prompt == Some(PromptsOf(s, ids, k)[j])
  {
    i := ids[0];
    var here := Known(s, i) && s.kind[i] == k && s.props[i].prompt.Some?;
    if !(here && j == 0) {
      i := PromptIsOfNode(s, ids[1..], k, if here then j - 1 else j);
    }
  }

  lemma {:induction false} InsideIsNode(s: State, f: seq<Tree>, n: NodeId, ch: Id)
    requires InsideChoice(s, f, n, ch)
    ensures n in Preorder(f)
    decreases Size(f)
  {
    if InsideChoice(s, f[0].children, n, ch) {
      InsideIsNode(s, f[0].children, n, ch);
    } else if InsideChoice(s, f[1..], n, ch) {
      InsideIsNode(s, f[1..], n, ch);
    } else {
      ScopeIsNode(s, f[0].children, n);
    }
  }

  lemma {:induction false} ScopeIsNode(s: State, f: seq<Tree>, n: NodeId)
    requires n in Scope(s, f)
    ensures n in Preorder(f)
    decreases Size(f)
  {
    if n != f[0].id {
      if n in Scope(s, f[1..]) {
        ScopeIsNode(s, f[1..], n);
      } else {
        ScopeIsNode(s, f[0].children, n);
      }
    }
  }

  /** The menu tree as the parser leaves it. */
  ghost predicate ParsedMenu(top: Tree, s: State, origins: seq<Origin>, modules: Id, lib: Lib) {
    && Parsed(s, [top]) && Distinct([top]) && Known(s, top.id) && s.kind[top.id].MENU?
    && |origins| == |s.items| && SoundState(ConfigOf(s, Preorder([top]), origins, modules, lib), s)
    && (forall x :: 0 <= x < |s.items| ==> s.items[x].choice.None? && s.items[x].syms == [])
    && modules < |s.items| && origins[modules].SymbolOrigin?
  }

  function Finalized(top: Tree, s: State): (r: State)
    ensures |r.items| == |s.items|
  {
    NodeLength(top, [], s, Y);
    FinalizeNode(top, [], s, Y).s
  }

  lemma {:induction false} NodeLength(t: Tree, rest: seq<Tree>, s: State, vis: Expr)
    ensures |FinalizeNode(t, rest, s, vis).s.items| == |s.items|
    decreases 1 + Size(t.children) + Size(rest), 1
  {
    hide Level, AddProps, Propagate, FinalizeChoice;
    if Known(s, t.id) {
      var s0 := s.(log := s.log + [t.id]);
      var k := s.kind[t.id];
      if k.SymbolNode? {
        AbsorbLength(t.id, rest, s0.(items := AddProps(s0.items, k.sym, s0.props[t.id])), vis);
      } else if t.children != [] {
        var inner := InnerVisible(k, s0.props[t.id], vis);
        AllLength(t.children, Propagate(s0, t.children, BaseDep(k, s0.props[t.id]), inner), inner);
      }
    }
  }

  lemma {:induction false} AbsorbLength(i: NodeId, rest: seq<Tree>, s: State, vis: Expr)
    ensures |Absorb(i, rest, s, vis).2.items| == |s.items|
    decreases Size(rest), 2
  {
    if rest != [] && AutoMenuDep(s, i, rest[0].id) {
      NodeLength(rest[0], rest[1..], s, vis);
      var d := FinalizeNode(rest[0], rest[1..], s, vis);
      AbsorbLength(i, d.rest, d.s, vis);
    }
  }

  lemma {:induction false} AllLength(f: seq<Tree>, s: State, vis: Expr)
    ensures |FinalizeAll(f, s, vis).1.items| == |s.items|
    decreases Size(f), 2
  {
    if f != [] {
      NodeLength(f[0], f[1..], s, vis);
      var d := FinalizeNode(f[0], f[1..], s, vis);
      AllLength(d.rest, d.s, vis);
    }
  }

  predicate SymbolDefaults(c: Config, ds: seq<Default>) {
    forall k :: 0 <= k < |ds| ==> ds[k].value.Val? && SymbolOperand(c, ds[k].value.operand)
  }

  /**
  What is an error or draws a warning after parsing: a default of a string or
  number that is no symbol, a default of a choice that is none of its symbols, a
  symbol in two choices, a choice symbol with a prompt outside its choice that does
  not depend on the choice, and a type without a definition.
  */
  ghost predicate Sane(top: Tree, s: State, c: Config)
    requires |c.items| == |s.items|
  {
    var r := Finalized(top, s);
    && (forall x: Id :: x < |c.items| && c.items[x].Symbol? && !IsBoolTri(c.items[x].typ) && !c.items[x].typ.Unknown? ==>
          SymbolDefaults(c, c.items[x].defaults))
    && (forall x: Id, k :: x < |c.items| && c.items[x].Choice? && 0 <= k < |c.items[x].choiceDefaults| ==>
          c.items[x].choiceDefaults[k].sym in c.items[x].syms)
    && (forall ch: Id, x: Id :: ch < |r.items| && x in r.items[ch].syms && x < |r.items| ==> r.items[x].choice == Some(ch))
    && (forall x: Id :: x < |c.items| && c.items[x].Symbol? && c.items[x].choice.Some? ==>
          ModeReadable(c.items[x]) || PromptsInside(top, s, r, x, c.items[x].choice.value))
    && (forall x: Id :: x < |c.items| && c.items[x].Symbol? && !c.items[x].defined ==> c.items[x].typ.Unknown?)
  }

  /** All prompts of x are inside choice ch. */
  ghost predicate PromptsInside(top: Tree, s: State, r: State, x: Id, ch: Id) {
    forall n: NodeId :: n in Preorder([top]) && Known(r, n) && r.kind[n] == SymbolNode(x) && r.props[n].prompt.Some? ==>
      InsideChoice(s, [top], n, ch)
  }

  lemma InvBegins(top: Tree, s: State, origins: seq<Origin>, modules: Id, lib: Lib)
    requires ParsedMenu(top, s, origins, modules, lib)
    ensures Inv(ConfigOf(s, Preorder([top]), origins, modules, lib), s, [top])
  {
    hide SoundState, InsideChoice;
  }

  /** What finalizing the whole tree has done. */
  lemma FinalFacts(top: Tree, s: State, origins: seq<Origin>, modules: Id, lib: Lib)
    requires ParsedMenu(top, s, origins, modules, lib)
    ensures var r := Finalized(top, s);
      Inv(ConfigOf(s, Preorder([top]), origins, modules, lib), r, [top]) && SameKinds(s, r) && Down(s, r, [top], Y)
  {
    InvBegins(top, s, origins, modules, lib);
    var c := ConfigOf(s, Preorder([top]), origins, modules, lib);
    assert SoundExpr(c, Y);
    assert [top] + [] == [top];
    assert PartOf(s, [top], [top] + []);
    hide Inv, PartOf, SoundExpr, Down, Preorder;
    NodeInv(c, [top], top, [], s, Y);
    NodeScope(top, [], s, Y);
    NodePushes(top, [], s, Y);
    assert FinalizeNode(top, [], s, Y).rest == [];
    assert [top][..1] == [top];
  }

  lemma SymbolProperties(c0: Config, c: Config, p: ItemProps)
    requires |c0.items| == |c.items| && forall y :: 0 <= y < |c.items| ==> c.items[y].Symbol? == c0.items[y].Symbol?
    requires SoundItem(c0, p)
    ensures SoundItem(c, p)
  {
    forall e ensures SoundExpr(c0, e) == SoundExpr(c, e) {
      SameSorts(c0, c, e);
    }
    hide SoundExpr;
    forall k | 0 <= k < |p.defaults| ensures SoundDefault(c, p.defaults[k]) {
      assert SoundDefault(c0, p.defaults[k]);
    }
    forall k | 0 <= k < |p.ranges| ensures SoundRange(c, p.ranges[k]) {
      assert SoundRange(c0, p.ranges[k]);
    }
  }

  /** What is left to say of a symbol's references. */
  lemma SymbolFromParts(c: Config, p: ItemProps, x: Id)
    requires x < |c.items| && c.items[x].Symbol? && SoundItem(c, p)
    requires var d := c.items[x];
      && d.defaults == p.defaults && d.ranges == p.ranges && d.revDep == p.revDep && d.weakRevDep == p.weakRevDep && d.directDep == p.directDep
      && (forall k :: 0 <= k < |d.prompts| ==> SoundExpr(c, d.prompts[k]))
      && (!IsBoolTri(d.typ) && !d.typ.Unknown? ==> SymbolDefaults(c, d.defaults))
      && (d.choice.Some? ==> IsChoice(c, d.choice.value) && x in c.items[d.choice.value].syms && (NeverShown(d) || ModeReadable(d)))
      && (!d.defined ==> d.typ.Unknown? && d.prompts == [] && d.choice.None?)
    ensures ResolvedSymbol(c, x)
  {
    var d := c.items[x];
    hide SoundExpr, SymbolOperand, NeverShown, ModeReadable;
    forall k | 0 <= k < |d.defaults| ensures SoundExpr(c, d.defaults[k].cond) && SoundExpr(c, d.defaults[k].value) {
      assert SoundDefault(c, p.defaults[k]);
    }
    forall k | 0 <= k < |d.ranges|
      ensures SymbolOperand(c, d.ranges[k].low) && SymbolOperand(c, d.ranges[k].high) && SoundExpr(c, d.ranges[k].cond)
    {
      assert SoundRange(c, p.ranges[k]);
    }
  }

  lemma InvItem(c: Config, s: State, all: seq<Tree>, x: Id)
    requires Inv(c, s, all) && x < |s.items|
    ensures SoundItem(c, s.items[x])
  {}

  lemma FieldsOf(s: State, ids: seq<NodeId>, origins: seq<Origin>, modules: Id, lib: Lib, x: Id)
    requires |origins| == |s.items| && x < |s.items| && origins[x].SymbolOrigin?
    ensures var c := ConfigOf(s, ids, origins, modules, lib);
      && x < |c.items| && c.items[x].Symbol?
      && var d, p := c.items[x], s.items[x];
        && d.defaults == p.defaults && d.ranges == p.ranges && d.revDep == p.revDep && d.weakRevDep == p.weakRevDep
        && d.directDep == p.directDep && d.choice == p.choice
  {
    hide PromptsOf, Defined;
  }

  lemma SaneSymbol(top: Tree, s: State, c: Config, x: Id)
    requires |c.items| == |s.items| && Sane(top, s, c) && x < |c.items| && c.items[x].Symbol?
    ensures var d := c.items[x];
      && (!IsBoolTri(d.typ) && !d.typ.Unknown? ==> SymbolDefaults(c, d.defaults))
      && (d.choice.Some? ==> ModeReadable(d) || PromptsInside(top, s, Finalized(top, s), x, d.choice.value))
      && (!d.defined ==> d.typ.Unknown?)
  {
    hide Finalized, SymbolDefaults, ModeReadable, PromptsInside;
  }

  lemma SymbolResolved(top: Tree, s: State, origins: seq<Origin>, modules: Id, lib: Lib, x: Id)
    requires ParsedMenu(top, s, origins, modules, lib) && x < |s.items| && origins[x].SymbolOrigin?
    requires var c := ConfigOf(Finalized(top, s), Preorder([top]), origins, modules, lib); Sane(top, s, c)
    ensures ResolvedSymbol(ConfigOf(Finalized(top, s), Preorder([top]), origins, modules, lib), x)
  {
    hide Preorder, Down, InsideChoice, SoundExpr, ModeReadable, NeverShown, PromptsInside, PromptsOf, SoundItem, Housed,
      ResolvedSymbol, Sane, SymbolDefaults, Defined;
    var ids, r := Preorder([top]), Finalized(top, s);
    var c0, c := ConfigOf(s, ids, origins, modules, lib), ConfigOf(r, ids, origins, modules, lib);
    hide ParsedMenu;
    FinalFacts(top, s, origins, modules, lib);
    InvItem(c0, r, [top], x);
    hide Inv;
    SymbolPrompts(top, s, origins, modules, lib, x);
    SymbolProperties(c0, c, r.items[x]);
    if r.items[x].choice.Some? {
      SymbolHoused(c0, r, [top], x);
    }
    SaneSymbol(top, s, c, x);
    FieldsOf(r, ids, origins, modules, lib, x);
    hide ConfigOf, Finalized;
    SymbolFromParts(c, r.items[x], x);
  }

  lemma SymbolHoused(c: Config, s: State, all: seq<Tree>, x: Id)
    requires Inv(c, s, all) && x < |s.items| && s.items[x].choice.Some?
    ensures IsChoice(c, s.items[x].choice.value) && s.items[x].choice.value < |s.items| && x in s.items[s.items[x].choice.value].syms
  {
    assert HousedAt(s, all, x, s.items[x].choice.value);
  }

  /** The prompts of a symbol are sound; in a choice some mention it or all are n. */
  lemma SymbolPrompts(top: Tree, s: State, origins: seq<Origin>, modules: Id, lib: Lib, x: Id)
    requires ParsedMenu(top, s, origins, modules, lib) && x < |s.items| && origins[x].SymbolOrigin?
    ensures var r := Finalized(top, s);
      var c := ConfigOf(r, Preorder([top]), origins, modules, lib);
      var d := c.items[x];
      && (forall k :: 0 <= k < |d.prompts| ==> SoundExpr(c, d.prompts[k]))
      && (d.choice.Some? ==> d.defined)
      && (!d.defined ==> d.prompts == [])
      && (d.choice.Some? && PromptsInside(top, s, r, x, d.choice.value) ==> NeverShown(d) || ModeReadable(d))
  {
    var ids, r := Preorder([top]), Finalized(top, s);
    var c0, c := ConfigOf(s, ids, origins, modules, lib), ConfigOf(r, ids, origins, modules, lib);
    FinalFacts(top, s, origins, modules, lib);
    var d := c.items[x];
    assert |c.items| == |c0.items| && forall y :: 0 <= y < |c.items| ==> c.items[y].Symbol? == c0.items[y].Symbol?;
    hide Down, Preorder, SoundItem, SoundKind, InsideChoice, ParsedMenu, Scope, PromptsOf;
    forall k | 0 <= k < |d.prompts|
      ensures SoundExpr(c, d.prompts[k]) && d.defined
      ensures d.choice.Some? && PromptsInside(top, s, r, x, d.choice.value) ==> Bound(d.prompts[k], d.choice.value)
    {
      var i := PromptIsOfNode(r, ids, SymbolNode(x), k);
      assert SoundProps(c0, r.props[i]);
      SameSorts(c0, c, d.prompts[k]);
      if d.choice.Some? && PromptsInside(top, s, r, x, d.choice.value) {
        InsideMentions(s, r, [top], Y, i, d.choice.value);
      }
    }
    if d.prompts != [] {
      assert SoundExpr(c, d.prompts[0]);
    }
    if d.choice.Some? {
      var ch := d.choice.value;
      assert HousedAt(r, [top], x, ch);
      var n: NodeId :| n < |r.kind| && r.kind[n] == SymbolNode(x) && InsideChoice(r, [top], n, ch);
      InsideIsNode(r, [top], n, ch);
      if PromptsInside(top, s, r, x, ch) && !NeverShown(d) {
        var k :| 0 <= k < |d.prompts| && d.prompts[k] != N;
        assert ch in ExprsItems(d.prompts);
      }
    }
  }

  lemma ChoiceIsResolved(top: Tree, s: State, origins: seq<Origin>, modules: Id, lib: Lib, x: Id)
    requires ParsedMenu(top, s, origins, modules, lib) && x < |s.items| && origins[x].ChoiceOrigin?
    requires var c := ConfigOf(Finalized(top, s), Preorder([top]), origins, modules, lib); Sane(top, s, c)
    ensures ResolvedChoice(ConfigOf(Finalized(top, s), Preorder([top]), origins, modules, lib), x)
  {
    var ids, r := Preorder([top]), Finalized(top, s);
    var c0, c := ConfigOf(s, ids, origins, modules, lib), ConfigOf(r, ids, origins, modules, lib);
    FinalFacts(top, s, origins, modules, lib);
    var d := c.items[x];
    assert SoundItem(c0, r.items[x]) && SymbolsOnly(c0, r.items[x].syms);
    assert |c.items| == |c0.items| && forall y :: 0 <= y < |c.items| ==> c.items[y].Symbol? == c0.items[y].Symbol?;
    hide Down, Preorder, SoundKind, InsideChoice, ParsedMenu, Scope, PromptsOf, ModeReadable, PromptsInside;
    forall k | 0 <= k < |d.prompts| ensures SoundExpr(c, d.prompts[k]) {
      var i := PromptIsOfNode(r, ids, ChoiceNode(x), k);
      assert SoundProps(c0, r.props[i]);
      SameSorts(c0, c, d.prompts[k]);
    }
    forall k | 0 <= k < |d.choiceDefaults| ensures SoundExpr(c, d.choiceDefaults[k].cond) {
      assert SoundDefault(c0, r.items[x].defaults[k]);
      SameSorts(c0, c, d.choiceDefaults[k].cond);
    }
    forall m | m in d.syms ensures m < |c.items| && c.items[m].Symbol? && c.items[m].choice == Some(x) {
      var k :| 0 <= k < |d.syms| && d.syms[k] == m;
    }
  }

  /** The finished tree gives a configuration in which all references resolve. */
  lemma ConfigResolved(top: Tree, s: State, origins: seq<Origin>, modules: Id, lib: Lib)
    requires ParsedMenu(top, s, origins, modules, lib)
    requires Sane(top, s, ConfigOf(Finalized(top, s), Preorder([top]), origins, modules, lib))
    ensures Resolved(ConfigOf(Finalized(top, s), Preorder([top]), origins, modules, lib))
  {
    var c := ConfigOf(Finalized(top, s), Preorder([top]), origins, modules, lib);
    hide ResolvedSymbol, ResolvedChoice, Sane, Preorder;
    forall x | 0 <= x < |c.items| ensures if c.items[x].Symbol? then ResolvedSymbol(c, x) else ResolvedChoice(c, x) {
      if origins[x].SymbolOrigin? {
        SymbolResolved(top, s, origins, modules, lib, x);
      } else {
        ChoiceIsResolved(top, s, origins, modules, lib, x);
      }
    }
  }

  /** So it has values, if it passes the dependency-loop check, exactly without a loop that the check does not see. */
  lemma ValuesFromMenu(top: Tree, s: State, origins: seq<Origin>, modules: Id, lib: Lib)
    requires ParsedMenu(top, s, origins, modules, lib)
    requires Sane(top, s, ConfigOf(Finalized(top, s), Preorder([top]), origins, modules, lib))
    ensures var c := ConfigOf(Finalized(top, s), Preorder([top]), origins, modules, lib);
      && Resolved(c)
      && (KconfigAcyclic.PassesCheck(c) ==>
            ((exists levels :: WellFormed(c.(levels := levels))) <==> !KconfigAcyclic.CrossingLoop(c)))
  {
    var c := ConfigOf(Finalized(top, s), Preorder([top]), origins, modules, lib);
    ConfigResolved(top, s, origins, modules, lib);
    hide Resolved, WellFormed, KconfigAcyclic.PassesCheck, KconfigAcyclic.CrossingLoop, ConfigOf, Finalized, Preorder;
    if KconfigAcyclic.PassesCheck(c) {
      KconfigAcyclic.CheckExactly(c);
    }
  }

  // ---------------------------------------------------------------------
  // The order of the .config file
  // ---------------------------------------------------------------------

  /** The symbols of the nodes, in their order. */
  function LayoutOf(kind: seq<NodeItem>, order: seq<NodeId>): seq<KconfigFile.Entry> {
    if order == [] then []
    else
      (if order[0] < |kind| && kind[order[0]].SymbolNode? then [KconfigFile.Sym(kind[order[0]].sym)] else []) + LayoutOf(kind, order[1..])
  }

  lemma {:induction false} LayoutHas(kind: seq<NodeItem>, order: seq<NodeId>, e: KconfigFile.Entry)
    ensures e in LayoutOf(kind, order) <==>
      exists i: NodeId :: i in order && i < |kind| && kind[i].SymbolNode? && e == KconfigFile.Sym(kind[i].sym)
  {
    if order != [] {
      LayoutHas(kind, order[1..], e);
      assert order == [order[0]] + order[1..];
    }
  }

  lemma {:induction false} NonIfHas(s: State, ids: seq<NodeId>, i: NodeId)
    ensures i in NonIf(s, ids) <==> i in ids && !IsIf(s, i)
  {
    if ids != [] {
      NonIfHas(s, ids[1..], i);
    }
  }

  /** The nodes below the top of the finished tree are those of the parsed one, without top and `if` nodes. */
  lemma FinishedNodes(top: Tree, s: State, i: NodeId)
    requires IfsPlain(s) && Parsed(s, [top]) && Distinct([top]) && !IsIf(s, top.id) && s.log == [] && i != top.id
    ensures i in Preorder(FinalizeNode(top, [], s, Y).node.children) <==> i in Preorder([top]) && !IsIf(s, i)
  {
    FinalizedTree(top, s);
    NodeScope(top, [], s, Y);
    var d := FinalizeNode(top, [], s, Y);
    PreorderOne(d.node);
    NonIfHas(s, Preorder([top]), i);
  }

  /** Which symbols are live. */
  lemma LiveSymbols(s: State, ids: seq<NodeId>, origins: seq<Origin>, modules: Id, lib: Lib, x: Id)
    requires |origins| == |s.items|
    ensures var c := ConfigOf(s, ids, origins, modules, lib);
      Live(c, x) && c.items[x].Symbol? <==> x < |s.items| && origins[x].SymbolOrigin? && Defined(s, ids, x)
  {
    hide PromptsOf, ChoiceDefaultsOf, Defined;
  }

  lemma SameDefined(s: State, r: State, ids: seq<NodeId>, x: Id)
    requires SameKinds(s, r)
    ensures Defined(r, ids, x) == Defined(s, ids, x)
  {}

  /** Exactly the defined symbols have an entry. */
  lemma EntriesDefined(top: Tree, s: State, x: Id)
    requires IfsPlain(s) && Parsed(s, [top]) && Distinct([top]) && Known(s, top.id) && s.kind[top.id].MENU? && s.log == []
    ensures var order := Preorder(FinalizeNode(top, [], s, Y).node.children);
      KconfigFile.Sym(x) in LayoutOf(s.kind, order) <==> Defined(s, Preorder([top]), x)
  {
    var order := Preorder(FinalizeNode(top, [], s, Y).node.children);
    hide Preorder, FinalizeNode, Distinct, Parsed, IfsPlain;
    LayoutHas(s.kind, order, KconfigFile.Sym(x));
    forall i: NodeId | i < |s.kind| && s.kind[i] == SymbolNode(x) ensures i in order <==> i in Preorder([top]) {
      FinishedNodes(top, s, i);
    }
  }

  lemma {:induction false} OnlySymbols(kind: seq<NodeItem>, order: seq<NodeId>, k: nat)
    requires k < |LayoutOf(kind, order)|
    ensures LayoutOf(kind, order)[k].Sym?
  {
    if order[0] < |kind| && kind[order[0]].SymbolNode? {
      if k > 0 {
        OnlySymbols(kind, order[1..], k - 1);
      }
    } else {
      OnlySymbols(kind, order[1..], k);
    }
  }

  /** Walking the finished tree comes to every defined symbol. */
  lemma LayoutFromMenu(top: Tree, s: State, origins: seq<Origin>, modules: Id, lib: Lib)
    requires ParsedMenu(top, s, origins, modules, lib) && IfsPlain(s) && s.log == []
    ensures var c := ConfigOf(Finalized(top, s), Preorder([top]), origins, modules, lib);
      KconfigSaveLoad.LayoutOk(c, LayoutOf(s.kind, Preorder(FinalizeNode(top, [], s, Y).node.children)))
  {
    var ids, r := Preorder([top]), Finalized(top, s);
    var c := ConfigOf(r, ids, origins, modules, lib);
    var layout := LayoutOf(s.kind, Preorder(FinalizeNode(top, [], s, Y).node.children));
    hide Preorder, FinalizeNode, ParsedMenu, Defined, ConfigOf, LayoutOf, Distinct, Parsed, IfsPlain, Finalized;
    FinalKinds(top, s);
    TopIsMenu(top, s, origins, modules, lib);
    forall x: Id
      ensures Live(c, x) && c.items[x].Symbol? <==> Defined(s, ids, x)
      ensures KconfigFile.Sym(x) in layout <==> Defined(s, ids, x)
    {
      LiveSymbols(r, ids, origins, modules, lib, x);
      SameDefined(s, r, ids, x);
      EntriesDefined(top, s, x);
      if Defined(s, ids, x) {
        DefinedSymbol(top, s, origins, modules, lib, x);
      }
    }
    forall k | 0 <= k < |layout| ensures layout[k].Sym? {
      OnlySymbols(s.kind, Preorder(FinalizeNode(top, [], s, Y).node.children), k);
    }
    LayoutMeans(c, layout);
  }

  lemma LayoutMeans(c: Config, layout: seq<KconfigFile.Entry>)
    requires forall k :: 0 <= k < |layout| ==> layout[k].Sym?
    requires forall x: Id :: KconfigFile.Sym(x) in layout <==> Live(c, x) && c.items[x].Symbol?
    ensures KconfigSaveLoad.LayoutOk(c, layout)
  {
    hide Live;
    forall k | 0 <= k < |layout| ensures KconfigSaveLoad.EntryOk(c, layout[k]) {
      assert KconfigFile.Sym(layout[k].id) in layout;
    }
  }

  lemma FinalKinds(top: Tree, s: State)
    ensures SameKinds(s, Finalized(top, s))
  {
    NodeScope(top, [], s, Y);
  }

  lemma DefinedSymbol(top: Tree, s: State, origins: seq<Origin>, modules: Id, lib: Lib, x: Id)
    requires ParsedMenu(top, s, origins, modules, lib) && Defined(s, Preorder([top]), x)
    ensures x < |s.items| == |origins| && origins[x].SymbolOrigin?
  {
    hide ParsedMenu, Preorder;
    var i: NodeId :| i in Preorder([top]) && i < |s.kind| && s.kind[i] == SymbolNode(x);
    SymbolKind(top, s, origins, modules, lib, i);
  }

  lemma TopIsMenu(top: Tree, s: State, origins: seq<Origin>, modules: Id, lib: Lib)
    requires ParsedMenu(top, s, origins, modules, lib)
    ensures Parsed(s, [top]) && Distinct([top]) && Known(s, top.id) && s.kind[top.id].MENU?
  {}

  lemma SymbolKind(top: Tree, s: State, origins: seq<Origin>, modules: Id, lib: Lib, i: NodeId)
    requires ParsedMenu(top, s, origins, modules, lib) && i < |s.kind| && s.kind[i].SymbolNode?
    ensures s.kind[i].sym < |s.items| == |origins| && origins[s.kind[i].sym].SymbolOrigin?
  {
    assert SoundKind(ConfigOf(s, Preorder([top]), origins, modules, lib), s.kind[i]);
  }
}
