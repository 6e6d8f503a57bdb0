/**
Implicit menus: which siblings a symbol absorbs, what that says of their conditions,
and that it is the longest run of them.
*/
module MenuImplicit {
  import opened Options
  import opened KconfigModel
  import opened MenuTree
  import opened MenuOrder
  import opened MenuMeaning

  // ---------------------------------------------------------------------
  // Depending on a symbol
  // ---------------------------------------------------------------------

  function Conjuncts(e: Expr): set<Expr> {
    match e
    case And(l, r) => Conjuncts(l) + Conjuncts(r)
    case _ => {e}
  }

  function Letter(t: Tri): Operand {
    Operand.Const(Tristate, t, TriToStr(t))
  }

  /** "s", "s = m", "s = y", "s != n", or one of the comparisons the other way round. */
  predicate Asks(q: Expr, sym: Id) {
    var s := Operand.Item(sym);
    || q == Val(s)
    || q == Compare(Equal, s, Letter(1)) || q == Compare(Equal, Letter(1), s)
    || q == Compare(Equal, s, Letter(2)) || q == Compare(Equal, Letter(2), s)
    || q == Compare(Unequal, s, Letter(0)) || q == Compare(Unequal, Letter(0), s)
  }

  /** "s != y", which the program takes for a dependency as well. */
  predicate Denies(q: Expr, sym: Id) {
    var s := Operand.Item(sym);
    q == Compare(Unequal, s, Letter(2)) || q == Compare(Unequal, Letter(2), s)
  }

  /** Some conjunct asks for the symbol, or denies that it is y. */
  ghost predicate HangsOn(e: Expr, sym: Id) {
    exists q :: q in Conjuncts(e) && (Asks(q, sym) || Denies(q, sym))
  }

  lemma {:induction false} DependsOnExactly(e: Expr, sym: Id)
    ensures DependsOn(e, sym) <==> HangsOn(e, sym)
  {
    match e
    case And(l, r) =>
      DependsOnExactly(l, sym);
      DependsOnExactly(r, sym);
      if q :| q in Conjuncts(e) && (Asks(q, sym) || Denies(q, sym)) {
        assert q in Conjuncts(l) || q in Conjuncts(r);
      }
    case _ =>
      assert e in Conjuncts(e);
  }

  /** A conjunction is n as soon as one conjunct is. */
  lemma {:induction false} ConjunctBounds(e: Expr, q: Expr, c: Config, v: View)
    requires q in Conjuncts(e) && ExprValue(q, c, v) == Some(0) && ExprValue(e, c, v).Some?
    ensures ExprValue(e, c, v) == Some(0)
  {
    match e
    case And(l, r) =>
      if q in Conjuncts(l) {
        ConjunctBounds(l, q, c, v);
      } else if ExprValue(l, c, v) != Some(0) {
        ConjunctBounds(r, q, c, v);
      }
    case _ =>
  }

  /** Where the symbol is n, so is every condition that asks for it. */
  lemma AskedIsN(e: Expr, q: Expr, sym: Id, c: Config, v: View)
    requires IsBoolTri(OrigType(c, Operand.Item(sym))) && q in Conjuncts(e) && Asks(q, sym)
    requires v.Tri(Operand.Item(sym)) == Some(0) && ExprValue(e, c, v).Some?
    ensures ExprValue(e, c, v) == Some(0)
  {
    assert ExprValue(q, c, v) == Some(0);
    ConjunctBounds(e, q, c, v);
  }

  /** Of the conditions that make a sibling hang on a bool or tristate symbol, exactly those that ask for it are n where it is n. */
  lemma NExactly(q: Expr, sym: Id, c: Config)
    requires IsBoolTri(OrigType(c, Operand.Item(sym))) && (Asks(q, sym) || Denies(q, sym))
    ensures (forall v: View :: v.Tri(Operand.Item(sym)) == Some(0) ==> ExprValue(q, c, v) == Some(0)) <==> Asks(q, sym)
  {
    if Denies(q, sym) {
      var v := View(Env(map[], map[sym := (0, false)], map[], map[], map[]), {sym});
      assert v.Tri(Operand.Item(sym)) == Some(0) && ExprValue(q, c, v) == Some(2);
    } else {
      forall v: View | v.Tri(Operand.Item(sym)) == Some(0) ensures ExprValue(q, c, v) == Some(0) {
        assert q in Conjuncts(q);
      }
    }
  }

  /** "depends on S != y" hangs below S although it can be met where S is n. */
  lemma DeniedExample(sym: Id, c: Config, v: View)
    requires IsBoolTri(OrigType(c, Operand.Item(sym))) && v.Tri(Operand.Item(sym)) == Some(0)
    ensures var e := Compare(Unequal, Operand.Item(sym), Letter(2)); DependsOn(e, sym) && ExprValue(e, c, v) == Some(2)
  {}

  // ---------------------------------------------------------------------
  // Who is absorbed
  // ---------------------------------------------------------------------

  predicate IsSymbolNode(s: State, i: NodeId) {
    Known(s, i) && s.kind[i].SymbolNode?
  }

  /** Node j hangs on the symbol of node i, by its prompt if it has one, otherwise by its dependencies. */
  ghost predicate Hangs(s: State, i: NodeId, j: NodeId) {
    && IsSymbolNode(s, i) && Known(s, j)
    && (s.props[j].prompt.Some? ==> HangsOn(s.props[j].prompt.value, s.kind[i].sym))
    && (s.props[j].prompt.None? ==> HangsOn(s.props[j].dep, s.kind[i].sym))
  }

  lemma AutoMenuDepMeans(s: State, i: NodeId, j: NodeId)
    ensures AutoMenuDep(s, i, j) <==> Hangs(s, i, j)
  {
    if IsSymbolNode(s, i) && Known(s, j) {
      DependsOnExactly(if s.props[j].prompt.Some? then s.props[j].prompt.value else s.props[j].dep, s.kind[i].sym);
    }
  }

  // Finalizing is the same as grouping all nodes first and finishing the levels of
  // the grouped tree afterwards. A grouped tree has the absorbed siblings of a symbol
  // as its children, and is otherwise the parsed one.

  /** The trees of a grouped forest that were siblings before. */
  function Row(s: State, g: seq<Tree>): seq<Tree> {
    if g == [] then []
    else [g[0]] + (if IsSymbolNode(s, g[0].id) then Row(s, g[0].children) else []) + Row(s, g[1..])
  }

  /** The grouped forest has the siblings f, and below them their own children, grouped. */
  ghost predicate Regrouped(s: State, f: seq<Tree>, g: seq<Tree>)
    decreases Size(f)
  {
    || (f == [] && g == [])
    || (f != [] && |Row(s, g)| == |f| && forall k :: 0 <= k < |f| ==> RegroupedAt(s, f, k, Row(s, g)[k]))
  }

  ghost predicate RegroupedAt(s: State, f: seq<Tree>, k: nat, u: Tree)
    requires k < |f|
    decreases Size(f), 0
  {
    SizeAt(f, k);
    u.id == f[k].id && (!IsSymbolNode(s, u.id) ==> Regrouped(s, f[k].children, u.children))
  }

  lemma {:induction false} SizeAt(f: seq<Tree>, k: nat)
    requires k < |f|
    ensures Size(f[k].children) < Size(f)
  {
    if k > 0 {
      SizeAt(f[1..], k - 1);
    }
  }

  /** What a symbol has absorbed hangs on it. */
  ghost predicate AllHang(s: State, g: seq<Tree>) {
    g == [] ||
      (&& (IsSymbolNode(s, g[0].id) ==> forall k :: 0 <= k < |g[0].children| ==> Hangs(s, g[0].id, g[0].children[k].id))
       && AllHang(s, g[0].children) && AllHang(s, g[1..]))
  }

  /** The sibling after a symbol and all it has absorbed does not hang on it; `next` follows the whole forest. */
  ghost predicate Longest(s: State, g: seq<Tree>, next: Option<NodeId>) {
    g == [] ||
      (var after := if |g| > 1 then Some(g[1].id) else next;
       && (IsSymbolNode(s, g[0].id) && after.Some? ==> !Hangs(s, g[0].id, after.value))
       && Longest(s, g[0].children, if IsSymbolNode(s, g[0].id) then after else None)
       && Longest(s, g[1..], next))
  }

  function Head(f: seq<Tree>): Option<NodeId> {
    if f == [] then None else Some(f[0].id)
  }

  /** The levels finished from the bottom up. */
  function Leveled(s: State, g: seq<Tree>): seq<Tree> {
    if g == [] then [] else [Level(s, Tree(g[0].id, Leveled(s, g[0].children)))] + Leveled(s, g[1..])
  }

  /** The forest g groups the siblings f as finalizing does, before the siblings `rest`. */
  ghost predicate Groups(s: State, f: seq<Tree>, g: seq<Tree>, rest: seq<Tree>) {
    Preorder(g) == Preorder(f) && Regrouped(s, f, g) && AllHang(s, g) && Longest(s, g, Head(rest))
  }

  // -- frames -------------------------------------------------------------------

  lemma {:induction false} SameRow(s: State, r: State, g: seq<Tree>)
    requires r.kind == s.kind && |r.props| == |s.props|
    ensures Row(r, g) == Row(s, g)
    decreases Size(g)
  {
    if g != [] {
      SameRow(s, r, g[0].children);
      SameRow(s, r, g[1..]);
    }
  }

  lemma {:induction false} SameRegrouped(s: State, r: State, f: seq<Tree>, g: seq<Tree>)
    requires r.kind == s.kind && |r.props| == |s.props| && Regrouped(s, f, g)
    ensures Regrouped(r, f, g)
    decreases Size(f)
  {
    SameRow(s, r, g);
    if f != [] {
      var row := Row(s, g);
      forall k | 0 <= k < |f| ensures RegroupedAt(r, f, k, row[k]) {
        assert RegroupedAt(s, f, k, row[k]);
        SizeAt(f, k);
        if !IsSymbolNode(s, row[k].id) {
          SameRegrouped(s, r, f[k].children, row[k].children);
        }
      }
    }
  }

  lemma HangsFrame(s: State, r: State, i: NodeId, j: NodeId)
    requires r.kind == s.kind && |r.props| == |s.props| && (j < |s.props| ==> r.props[j] == s.props[j])
    ensures Hangs(r, i, j) == Hangs(s, i, j)
  {}

  lemma {:induction false} SameHang(s: State, r: State, g: seq<Tree>)
    requires Agree(s, r, Preorder(g)) && AllHang(s, g)
    ensures AllHang(r, g)
    decreases Size(g)
  {
    hide Hangs;
    if g != [] {
      var t := g[0];
      assert Preorder(g) == [t.id] + Preorder(t.children) + Preorder(g[1..]);
      forall k | 0 <= k < |t.children| ensures Hangs(r, t.id, t.children[k].id) == Hangs(s, t.id, t.children[k].id) {
        RootIn(t.children, k);
        HangsFrame(s, r, t.id, t.children[k].id);
      }
      SameHang(s, r, t.children);
      SameHang(s, r, g[1..]);
    }
  }

  lemma {:induction false} RootIn(f: seq<Tree>, k: nat)
    requires k < |f|
    ensures f[k].id in Preorder(f)
  {
    if k > 0 {
      RootIn(f[1..], k - 1);
    }
  }

  lemma {:induction false} SameLongest(s: State, r: State, g: seq<Tree>, next: Option<NodeId>)
    requires Agree(s, r, Preorder(g)) && Longest(s, g, next)
    requires next.Some? && next.value < |s.props| ==> r.props[next.value] == s.props[next.value]
    ensures Longest(r, g, next)
    decreases Size(g)
  {
    hide Hangs;
    if g != [] {
      var t := g[0];
      var after := if |g| > 1 then Some(g[1].id) else next;
      assert Preorder(g) == [t.id] + Preorder(t.children) + Preorder(g[1..]);
      if |g| > 1 {
        RootIn(g, 1);
      }
      if after.Some? {
        HangsFrame(s, r, t.id, after.value);
      }
      SameLongest(s, r, t.children, if IsSymbolNode(s, t.id) then after else None);
      SameLongest(s, r, g[1..], next);
    }
  }

  lemma GroupsFrame(s: State, r: State, f: seq<Tree>, g: seq<Tree>, rest: seq<Tree>)
    requires Groups(s, f, g, rest) && Agree(s, r, Preorder(f)) && Agree(s, r, if rest == [] then [] else [rest[0].id])
    ensures Groups(r, f, g, rest)
  {
    hide Regrouped, AllHang, Longest, Preorder;
    SameRegrouped(s, r, f, g);
    SameHang(s, r, g);
    if rest != [] {
      assert rest[0].id in [rest[0].id];
    }
    SameLongest(s, r, g, Head(rest));
  }

  lemma {:induction false} SameLeveled(s: State, r: State, g: seq<Tree>)
    requires SameShape(s, r)
    ensures Leveled(r, g) == Leveled(s, g)
    decreases Size(g)
  {
    hide Level, SameShape;
    if g != [] {
      SameLeveled(s, r, g[0].children);
      SameLeveled(s, r, g[1..]);
      SameLevel(s, r, Tree(g[0].id, Leveled(s, g[0].children)));
    }
  }

  lemma SameLevel(s: State, r: State, t: Tree)
    requires SameShape(s, r)
    ensures Level(r, t) == Level(s, t)
  {
    SameFlatten(s, r, t.children);
    SameRemoved(s, r, Flatten(s, t.children));
  }

  lemma {:induction false} SameFlatten(s: State, r: State, f: seq<Tree>)
    requires SameShape(s, r)
    ensures Flatten(r, f) == Flatten(s, f)
    decreases Size(f)
  {
    if f != [] {
      SizeConcat(f[0].children, f[1..]);
      SameFlatten(s, r, f[0].children + f[1..]);
      SameFlatten(s, r, f[1..]);
    }
  }

  lemma {:induction false} SameRemoved(s: State, r: State, f: seq<Tree>)
    requires SameShape(s, r)
    ensures RemoveIfs(r, f) == RemoveIfs(s, f)
  {
    if f != [] {
      SameRemoved(s, r, f[1..]);
    }
  }

  // -- one forest after another --------------------------------------------------

  lemma {:induction false} RowConcat(s: State, g: seq<Tree>, h: seq<Tree>)
    ensures Row(s, g + h) == Row(s, g) + Row(s, h)
  {
    if g == [] {
      assert g + h == h;
    } else {
      assert (g + h)[0] == g[0] && (g + h)[1..] == g[1..] + h;
      RowConcat(s, g[1..], h);
    }
  }

  lemma {:induction false} LeveledConcat(s: State, g: seq<Tree>, h: seq<Tree>)
    ensures Leveled(s, g + h) == Leveled(s, g) + Leveled(s, h)
  {
    hide Level;
    if g == [] {
      assert g + h == h;
    } else {
      assert (g + h)[0] == g[0] && (g + h)[1..] == g[1..] + h;
      LeveledConcat(s, g[1..], h);
    }
  }

  lemma {:induction false} HangConcat(s: State, g: seq<Tree>, h: seq<Tree>)
    requires AllHang(s, g) && AllHang(s, h)
    ensures AllHang(s, g + h)
  {
    hide Hangs;
    if g == [] {
      assert g + h == h;
    } else {
      assert (g + h)[0] == g[0] && (g + h)[1..] == g[1..] + h;
      HangConcat(s, g[1..], h);
    }
  }

  /** What follows the first forest is the second. */
  lemma {:induction false} LongestConcat(s: State, g: seq<Tree>, h: seq<Tree>, next: Option<NodeId>)
    requires Longest(s, g, if h == [] then next else Some(h[0].id)) && Longest(s, h, next)
    ensures Longest(s, g + h, next)
  {
    hide Hangs;
    if g == [] {
      assert g + h == h;
    } else {
      assert (g + h)[0] == g[0] && (g + h)[1..] == g[1..] + h;
      LongestConcat(s, g[1..], h, next);
    }
  }

  lemma RegroupedConcat(s: State, f: seq<Tree>, g: seq<Tree>, f1: seq<Tree>, g1: seq<Tree>)
    requires Regrouped(s, f, g) && Regrouped(s, f1, g1)
    ensures Regrouped(s, f + f1, g + g1)
  {
    RowConcat(s, g, g1);
    var row, row1 := Row(s, g), Row(s, g1);
    hide Row;
    if f == [] {
      assert f + f1 == f1 && g + g1 == g1;
    } else if f1 == [] {
      assert f + f1 == f && g + g1 == g;
    } else {
      forall k | 0 <= k < |f + f1| ensures RegroupedAt(s, f + f1, k, (row + row1)[k]) {
        if k < |f| {
          assert RegroupedAt(s, f, k, row[k]);
        } else {
          assert RegroupedAt(s, f1, k - |f|, row1[k - |f|]);
        }
      }
    }
  }

  lemma FirstIds(f: seq<Tree>, g: seq<Tree>)
    requires Preorder(f) == Preorder(g)
    ensures (f == [] <==> g == []) && Head(f) == Head(g)
  {
    if f != [] && g != [] {
      assert Preorder(f)[0] == f[0].id && Preorder(g)[0] == g[0].id;
    }
  }

  lemma GroupsConcat(s: State, f: seq<Tree>, g: seq<Tree>, f1: seq<Tree>, g1: seq<Tree>, rest: seq<Tree>)
    requires Groups(s, f, g, f1 + rest) && Groups(s, f1, g1, rest)
    ensures Groups(s, f + f1, g + g1, rest)
  {
    FirstIds(f1, g1);
    assert f1 == [] ==> f1 + rest == rest;
    assert Head(f1 + rest) == if g1 == [] then Head(rest) else Some(g1[0].id);
    hide Preorder, Regrouped, AllHang, Longest;
    PreorderConcat(f, f1);
    PreorderConcat(g, g1);
    RegroupedConcat(s, f, g, f1, g1);
    HangConcat(s, g, g1);
    LongestConcat(s, g, g1, Head(rest));
  }

  lemma GroupsNothing(s: State, rest: seq<Tree>)
    ensures Groups(s, [], [], rest)
  {}

  /** A symbol node on top of what it has absorbed. */
  lemma GroupsSymbol(s: State, t: Tree, f: seq<Tree>, g: seq<Tree>, rest: seq<Tree>)
    requires IsSymbolNode(s, t.id) && t.children == [] && Groups(s, f, g, rest)
    requires forall k :: 0 <= k < |g| ==> Hangs(s, t.id, g[k].id)
    requires rest != [] ==> !Hangs(s, t.id, rest[0].id)
    ensures Groups(s, [t] + f, [Tree(t.id, g)], rest)
  {
    var u := Tree(t.id, g);
    PreorderCons(t, f);
    PreorderOne(u);
    EmptyPreorder();
    hide Hangs;
    assert [u][1..] == [];
    assert Row(s, [u]) == [u] + Row(s, g);
    assert RegroupedAt(s, [t] + f, 0, u);
    var row := Row(s, g);
    assert f == [] ==> row == [];
    forall k | 0 <= k < |[t] + f| ensures RegroupedAt(s, [t] + f, k, ([u] + row)[k]) {
      if k > 0 {
        assert RegroupedAt(s, f, k - 1, row[k - 1]);
        assert ([t] + f)[k] == f[k - 1] && ([u] + row)[k] == row[k - 1];
      }
    }
    assert Regrouped(s, [t] + f, [u]);
    SymbolOnTop(s, u, Head(rest));
  }

  lemma SymbolOnTop(s: State, u: Tree, next: Option<NodeId>)
    requires IsSymbolNode(s, u.id) && Longest(s, u.children, next) && AllHang(s, u.children)
    requires forall k :: 0 <= k < |u.children| ==> Hangs(s, u.id, u.children[k].id)
    requires next.Some? ==> !Hangs(s, u.id, next.value)
    ensures Longest(s, [u], next) && AllHang(s, [u])
  {
    assert [u][1..] == [] && |[u]| == 1;
    hide Hangs;
    assert Longest(s, [], next) && AllHang(s, []);
  }

  /** A menu, choice or `if` with its own children, grouped. */
  lemma GroupsOther(s: State, t: Tree, g: seq<Tree>, rest: seq<Tree>)
    requires !IsSymbolNode(s, t.id) && Groups(s, t.children, g, [])
    ensures Groups(s, [t], [Tree(t.id, g)], rest)
  {
    var u := Tree(t.id, g);
    PreorderOne(t);
    PreorderOne(u);
    hide Hangs;
    assert [u][1..] == [];
    assert Row(s, [u]) == [u] && [t][0] == t;
    assert RegroupedAt(s, [t], 0, u);
    assert Regrouped(s, [t], [u]);
    assert AllHang(s, [u]) && Longest(s, [u], Head(rest));
  }

  // -- finalizing groups ------------------------------------------------------------

  /** The part of f before its suffix rest. */
  function Used(f: seq<Tree>, rest: seq<Tree>): seq<Tree> {
    if |rest| <= |f| then f[..|f| - |rest|] else []
  }

  /** Later steps leave what was used before them, and the node that comes next, alone. */
  lemma LaterAgrees(f: seq<Tree>, g: seq<Tree>, m: State, rest: seq<Tree>, r: State, vis: Expr)
    requires Distinct(f) && |g| <= |f| && g == f[|f| - |g|..] && Pushing(m, g, rest, r, vis)
    ensures Agree(m, r, Preorder(Used(f, g))) && Agree(m, r, if g == [] then [] else [g[0].id])
  {
    hide Preorder, Down, Inner;
    var a, b := Used(f, g), Used(g, rest);
    assert f == a + g && g == b + rest;
    DistinctParts(a, g);
    PreorderConcat(b, rest);
    forall i: NodeId | i in Preorder(a) && i < |m.props| ensures r.props[i] == m.props[i] {
      if i in Inner(b) {
        InnerOfPreorder(b, i);
      }
    }
    if g != [] {
      HeadAgrees(g, m, rest, r, vis);
    }
  }

  lemma HeadAgrees(g: seq<Tree>, m: State, rest: seq<Tree>, r: State, vis: Expr)
    requires g != [] && Distinct(g) && Pushing(m, g, rest, r, vis)
    ensures Agree(m, r, [g[0].id])
  {
    hide Preorder, Down, Inner;
    var b := Used(g, rest);
    assert g == b + rest;
    DistinctParts(b, rest);
    if b == [] {
      assert Inner(b) == [] by { InnerNothing(); }
    } else {
      assert b[0] == g[0];
      RootNotInner(b, 0);
    }
  }

  lemma InnerNothing()
    ensures Inner([]) == []
  {}

  lemma {:induction false} NodeGroups(t: Tree, rest: seq<Tree>, s: State, vis: Expr) returns (u: Tree)
    requires IfsPlain(s) && Parsed(s, [t] + rest) && Distinct([t] + rest)
    ensures var d := FinalizeNode(t, rest, s, vis);
      && [d.node] == Leveled(d.s, [u]) && Groups(d.s, Used([t] + rest, d.rest), [u], d.rest)
    decreases 1 + Size(t.children) + Size(rest), 1
  {
    ParsedParts(s, t, rest);
    DistinctParts([t], rest);
    DistinctTree(t);
    if s.kind[t.id].SymbolNode? {
      u := SymbolGroups(t, rest, s, vis);
    } else if t.children == [] {
      u := t;
      var r := FinalizeChoice(s.(log := s.log + [t.id]), t);
      hide Preorder, FinalizeChoice, Groups;
      GroupsNothing(r, []);
      GroupsOther(r, t, [], rest);
      assert Used([t] + rest, rest) == [t];
      LeveledOne(r, t.id, []);
      LevelId(r, t);
    } else {
      u := LevelGroups(t, rest, s, vis);
    }
  }

  lemma LeveledOne(s: State, i: NodeId, g: seq<Tree>)
    ensures Leveled(s, [Tree(i, g)]) == [Level(s, Tree(i, Leveled(s, g)))]
    ensures Leveled(s, []) == []
  {
    assert [Tree(i, g)][1..] == [];
  }

  lemma {:induction false} SymbolGroups(t: Tree, rest: seq<Tree>, s: State, vis: Expr) returns (u: Tree)
    requires IfsPlain(s) && Known(s, t.id) && Parsed(s, rest) && Distinct(rest)
    requires t.children == [] && s.kind[t.id].SymbolNode?
    ensures var d := FinalizeNode(t, rest, s, vis);
      && [d.node] == Leveled(d.s, [u]) && Groups(d.s, Used([t] + rest, d.rest), [u], d.rest)
    decreases 1 + Size(t.children) + Size(rest), 0
  {
    hide Level, Preorder, Distinct, AddProps, Parsed, Groups, Hangs;
    var s1 := s.(log := s.log + [t.id], items := AddProps(s.items, s.kind[t.id].sym, s.props[t.id]));
    PushedParsed(s, s1, rest);
    SameIfs(s, s1);
    var (kids, rest1, s2) := Absorb(t.id, rest, s1, vis);
    AbsorbPushes(t.id, rest, s1, vis);
    var us := AbsorbGroups(t.id, rest, s1, vis);
    u := Tree(t.id, us);
    GroupsSymbol(s2, t, Used(rest, rest1), us, rest1);
    assert Used([t] + rest, rest1) == [t] + Used(rest, rest1);
    LeveledOne(s2, t.id, us);
    assert kids == [] ==> t == Tree(t.id, kids);
  }

  lemma {:induction false} LevelGroups(t: Tree, rest: seq<Tree>, s: State, vis: Expr) returns (u: Tree)
    requires IfsPlain(s) && Known(s, t.id) && Parsed(s, t.children) && Distinct(t.children)
    requires t.children != [] && !s.kind[t.id].SymbolNode?
    ensures var d := FinalizeNode(t, rest, s, vis);
      && [d.node] == Leveled(d.s, [u]) && Groups(d.s, Used([t] + rest, d.rest), [u], d.rest)
    decreases 1 + Size(t.children) + Size(rest), 0
  {
    var s0 := s.(log := s.log + [t.id]);
    var k := s.kind[t.id];
    var inner := InnerVisible(k, s.props[t.id], vis);
    var s1 := Propagate(s0, t.children, BaseDep(k, s.props[t.id]), inner);
    PropagateShape(s0, t.children, BaseDep(k, s.props[t.id]), inner);
    hide Level, Preorder, Distinct, Parsed, Groups, FinalizeChoice;
    PushedParsed(s, s1, t.children);
    SameIfs(s, s1);
    AllPushes(t.children, s1, inner);
    var (kids, s2) := FinalizeAll(t.children, s1, inner);
    var us := AllGroups(t.children, s1, inner);
    var r := FinalizeChoice(s2, Level(s2, Tree(t.id, kids)));
    u := Tree(t.id, us);
    ItemsOnly(s2, r, t.children, us);
    GroupsOther(r, t, us, rest);
    assert Used([t] + rest, rest) == [t];
    LeveledOne(r, t.id, us);
    SameLevel(s2, r, Tree(t.id, kids));
  }

  lemma ItemsOnly(s: State, r: State, f: seq<Tree>, g: seq<Tree>)
    requires r == s.(items := r.items) && Groups(s, f, g, [])
    ensures Groups(r, f, g, []) && SameShape(s, r) && Leveled(r, g) == Leveled(s, g)
  {
    GroupsFrame(s, r, f, g, []);
    SameLeveled(s, r, g);
  }

  /** One node of a level, framed for the rest of it. */
  lemma {:induction false} HeadGroups(f: seq<Tree>, s: State, vis: Expr, rest: seq<Tree>, us: seq<Tree>, ts: seq<Tree>, r: State) returns (gs: seq<Tree>)
    requires f != [] && IfsPlain(s) && Parsed(s, f) && Distinct(f)
    requires var d := FinalizeNode(f[0], f[1..], s, vis);
      && Pushing(d.s, d.rest, rest, r, vis) && SameShape(d.s, r)
      && Groups(r, Used(d.rest, rest), us, rest) && ts == Leveled(r, us)
    ensures var d := FinalizeNode(f[0], f[1..], s, vis);
      && gs != [] && gs[1..] == us && gs[0].id == f[0].id
      && [d.node] + ts == Leveled(r, gs) && Groups(r, Used(f, rest), gs, rest)
    decreases Size(f), 2
  {
    hide Preorder, Distinct, Parsed, Groups, FinalizeNode, SameShape;
    assert f == [f[0]] + f[1..];
    var d := FinalizeNode(f[0], f[1..], s, vis);
    NodePushes(f[0], f[1..], s, vis);
    var u := NodeGroups(f[0], f[1..], s, vis);
    gs := [u] + us;
    LaterAgrees(f, d.rest, d.s, rest, r, vis);
    GroupsFrame(d.s, r, Used(f, d.rest), [u], d.rest);
    assert d.rest == Used(d.rest, rest) + rest;
    GroupsConcat(r, Used(f, d.rest), [u], Used(d.rest, rest), us, rest);
    assert Used(f, rest) == Used(f, d.rest) + Used(d.rest, rest);
    SameLeveled(d.s, r, [u]);
    LeveledConcat(r, [u], us);
    HeadId(d.s, d.node, u);
    FirstOf(f, d.rest, d.s, u);
  }

  lemma HeadId(s: State, node: Tree, u: Tree)
    requires [node] == Leveled(s, [u])
    ensures node.id == u.id
  {
    assert [u][1..] == [];
    assert [node][0] == node;
    LevelId(s, Tree(u.id, Leveled(s, u.children)));
  }

  lemma FirstOf(f: seq<Tree>, rest: seq<Tree>, s: State, u: Tree)
    requires Groups(s, Used(f, rest), [u], rest) && f != []
    ensures u.id == f[0].id
  {
    PreorderOne(u);
    FirstIds(Used(f, rest), [u]);
  }

  lemma {:induction false} AbsorbGroups(i: NodeId, rest: seq<Tree>, s: State, vis: Expr) returns (us: seq<Tree>)
    requires IfsPlain(s) && Parsed(s, rest) && Distinct(rest) && IsSymbolNode(s, i)
    ensures var (kids, rest1, s1) := Absorb(i, rest, s, vis);
      && kids == Leveled(s1, us) && Groups(s1, Used(rest, rest1), us, rest1)
      && (forall k :: 0 <= k < |us| ==> Hangs(s1, i, us[k].id))
      && (rest1 != [] ==> !Hangs(s1, i, rest1[0].id)) && IsSymbolNode(s1, i)
    decreases Size(rest), 3
  {
    hide Preorder, Distinct, Parsed, Groups, Hangs;
    if rest == [] || !AutoMenuDep(s, i, rest[0].id) {
      us := [];
      GroupsNothing(s, rest);
      if rest != [] {
        AutoMenuDepMeans(s, i, rest[0].id);
      }
    } else {
      AutoMenuDepMeans(s, i, rest[0].id);
      hide AutoMenuDep, Pushing, SameShape, FinalizeNode, Leveled, Ordered;
      var d := FinalizeNode(rest[0], rest[1..], s, vis);
      HeadFacts(rest, s, vis);
      var us1 := AbsorbGroups(i, d.rest, d.s, vis);
      var (kids, rest1, s1) := Absorb(i, d.rest, d.s, vis);
      TailFacts(i, d.rest, d.s, vis);
      us := HeadGroups(rest, s, vis, rest1, us1, kids, s1);
      HeadStays(rest, d.rest, d.s, rest1, s1, vis);
      HeadHangs(i, rest[0].id, s, d.s, s1);
      forall k | 0 <= k < |us| ensures Hangs(s1, i, us[k].id) {
        if k > 0 {
          assert us[k] == us1[k - 1];
        }
      }
    }
  }

  /** The first node of a level leaves a suffix of the others, and itself alone. */
  lemma HeadFacts(f: seq<Tree>, s: State, vis: Expr)
    requires f != [] && IfsPlain(s) && Parsed(s, f) && Distinct(f)
    ensures var d := FinalizeNode(f[0], f[1..], s, vis);
      && |d.rest| < |f| && d.rest == f[|f| - |d.rest|..] && IfsPlain(d.s) && Parsed(d.s, d.rest) && Distinct(d.rest)
      && d.s.kind == s.kind && |d.s.props| == |s.props| && (f[0].id < |s.props| ==> d.s.props[f[0].id] == s.props[f[0].id])
  {
    hide Preorder, Distinct, Parsed, FinalizeNode;
    assert f == [f[0]] + f[1..];
    var d := FinalizeNode(f[0], f[1..], s, vis);
    NodePushes(f[0], f[1..], s, vis);
    NodeOrder(f[0], f[1..], s, vis);
    RestParsed(s, f, d.rest, d.s, vis);
    HeadAgrees(f, s, d.rest, d.s, vis);
    assert f[0].id in [f[0].id];
    RestShorter(f, s, vis);
  }

  lemma RestShorter(f: seq<Tree>, s: State, vis: Expr)
    requires f != [] && Parsed(s, f) && Distinct(f)
    ensures |FinalizeNode(f[0], f[1..], s, vis).rest| < |f|
  {
    assert f == [f[0]] + f[1..];
    NodePushes(f[0], f[1..], s, vis);
    var d := FinalizeNode(f[0], f[1..], s, vis);
    hide FinalizeNode, Distinct, Parsed, Preorder, Down;
    SizeCons(f);
    assert f[|f| - |f|..] == f;
  }

  lemma SizeCons(f: seq<Tree>)
    requires f != []
    ensures Size(f[1..]) < Size(f)
  {}

  lemma TailFacts(i: NodeId, rest: seq<Tree>, s: State, vis: Expr)
    requires IfsPlain(s) && Parsed(s, rest) && Distinct(rest)
    ensures var (kids, rest1, s1) := Absorb(i, rest, s, vis);
      Pushing(s, rest, rest1, s1, vis) && SameShape(s, s1) && s1.kind == s.kind && |s1.props| == |s.props|
  {
    hide Preorder, Distinct, Parsed, Absorb;
    AbsorbPushes(i, rest, s, vis);
    AbsorbOrder(i, rest, s, vis);
  }

  lemma HeadHangs(i: NodeId, j: NodeId, s: State, m: State, r: State)
    requires m.kind == s.kind && |m.props| == |s.props| && (j < |s.props| ==> m.props[j] == s.props[j])
    requires r.kind == m.kind && |r.props| == |m.props| && (j < |m.props| ==> r.props[j] == m.props[j])
    ensures Hangs(r, i, j) == Hangs(s, i, j) && IsSymbolNode(r, i) == IsSymbolNode(s, i) && IsSymbolNode(m, i) == IsSymbolNode(s, i)
  {
    HangsFrame(s, m, i, j);
    HangsFrame(m, r, i, j);
    hide Hangs;
  }

  lemma HeadStays(f: seq<Tree>, g: seq<Tree>, m: State, rest: seq<Tree>, r: State, vis: Expr)
    requires f != [] && Distinct(f) && |g| < |f| && g == f[|f| - |g|..] && Pushing(m, g, rest, r, vis)
    ensures f[0].id < |m.props| ==> |r.props| == |m.props| && r.props[f[0].id] == m.props[f[0].id]
  {
    LaterAgrees(f, g, m, rest, r, vis);
    RootIn(Used(f, g), 0);
  }

  lemma {:induction false} AllGroups(f: seq<Tree>, s: State, vis: Expr) returns (us: seq<Tree>)
    requires IfsPlain(s) && Parsed(s, f) && Distinct(f)
    ensures var (ts, s1) := FinalizeAll(f, s, vis);
      ts == Leveled(s1, us) && Groups(s1, f, us, [])
    decreases Size(f), 3
  {
    hide Preorder, Distinct, Parsed, Groups;
    us := [];
    if f == [] {
      GroupsNothing(s, []);
    } else {
      AllUnfolds(f, s, vis);
      hide Pushing, SameShape, FinalizeNode, FinalizeAll, Leveled, Ordered;
      var d := FinalizeNode(f[0], f[1..], s, vis);
      HeadFacts(f, s, vis);
      var us1 := AllGroups(d.rest, d.s, vis);
      AllPushes(d.rest, d.s, vis);
      var (ts, s1) := FinalizeAll(d.rest, d.s, vis);
      AllShape(d.rest, d.s, vis);
      assert Used(d.rest, []) == d.rest && Used(f, []) == f;
      us := HeadGroups(f, s, vis, [], us1, ts, s1);
    }
  }

  lemma AllUnfolds(f: seq<Tree>, s: State, vis: Expr)
    requires f != []
    ensures var d := FinalizeNode(f[0], f[1..], s, vis);
      FinalizeAll(f, s, vis) == ([d.node] + FinalizeAll(d.rest, d.s, vis).0, FinalizeAll(d.rest, d.s, vis).1)
  {
    hide FinalizeNode;
  }

  lemma AllShape(f: seq<Tree>, s: State, vis: Expr)
    requires IfsPlain(s) && Parsed(s, f)
    ensures SameShape(s, FinalizeAll(f, s, vis).1)
  {
    AllOrder(f, s, vis);
  }

  /**
  The finished tree is the grouped one with its levels finished: each symbol has
  absorbed the longest run of following siblings, with what these had absorbed
  before, that hang on it.
  */
  lemma ImplicitMenus(top: Tree, s: State) returns (u: Tree)
    requires IfsPlain(s) && Parsed(s, [top]) && Distinct([top])
    ensures var d := FinalizeNode(top, [], s, Y);
      && [d.node] == Leveled(d.s, [u]) && u.id == top.id && Preorder([u]) == Preorder([top])
      && Regrouped(d.s, [top], [u]) && AllHang(d.s, [u]) && Longest(d.s, [u], None)
  {
    assert [top] + [] == [top];
    u := NodeGroups(top, [], s, Y);
    var d := FinalizeNode(top, [], s, Y);
    assert d.rest == [] by { SizeNone(d.rest); SizeNone([]); }
    hide Regrouped, AllHang, Longest, FinalizeNode, Leveled;
    assert Used([top], []) == [top];
    FirstIds([top], [u]);
  }
}
