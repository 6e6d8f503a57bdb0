/**
The menu tree after parsing and what finalizing it does, on trees as values:
dependencies are pushed down, symbols absorb the siblings that depend on them,
and promptless nodes are dissolved into the level above.
*/
module MenuTree {
  import opened Options
  import opened KconfigModel

  type NodeId = nat

  datatype NodeItem = SymbolNode(sym: Id) | ChoiceNode(choice: Id) | MENU | COMMENT | IF

  datatype Select = Select(target: Id, cond: Expr)

  /** The properties a menu node carries. */
  datatype Props = Props(dep: Expr, prompt: Option<Expr>, visibility: Expr, defaults: seq<Default>,
                         ranges: seq<Range>, selects: seq<Select>, implies: seq<Select>)

  /** What finalizing collects on a symbol or choice. */
  datatype ItemProps = ItemProps(directDep: Expr, defaults: seq<Default>, ranges: seq<Range>,
                                 selects: seq<Select>, implies: seq<Select>,
                                 revDep: Expr, weakRevDep: Expr, syms: seq<Id>, choice: Option<Id>, typ: Type)

  datatype Tree = Tree(id: NodeId, children: seq<Tree>)

  /** `kind` is fixed; `log` lists the nodes finalized so far. */
  datatype State = State(kind: seq<NodeItem>, props: seq<Props>, items: seq<ItemProps>, log: seq<NodeId>)

  function Size(f: seq<Tree>): nat {
    if f == [] then 0 else 1 + Size(f[0].children) + Size(f[1..])
  }

  /** Every node before its children and those before the next node. */
  function Preorder(f: seq<Tree>): seq<NodeId> {
    if f == [] then [] else [f[0].id] + Preorder(f[0].children) + Preorder(f[1..])
  }

  /** _make_and() */
  function MakeAnd(e1: Expr, e2: Expr): Expr {
    if e1 == Y then e2 else if e2 == Y then e1 else if e1 == N || e2 == N then N else And(e1, e2)
  }

  /** _make_or() */
  function MakeOr(e1: Expr, e2: Expr): Expr {
    if e1 == N then e2 else if e2 == N then e1 else if e1 == Y || e2 == Y then Y else Or(e1, e2)
  }

  predicate HasItem(k: NodeItem) {
    k.SymbolNode? || k.ChoiceNode?
  }

  // -- pushing dependencies down ------------------------------------------------

  function WithConds(ds: seq<Default>, dep: Expr): (r: seq<Default>)
    ensures |r| == |ds|
  {
    seq(|ds|, i requires 0 <= i < |ds| => ds[i].(cond := MakeAnd(ds[i].cond, dep)))
  }

  function WithRangeConds(rs: seq<Range>, dep: Expr): (r: seq<Range>)
    ensures |r| == |rs|
  {
    seq(|rs|, i requires 0 <= i < |rs| => rs[i].(cond := MakeAnd(rs[i].cond, dep)))
  }

  function WithSelectConds(ss: seq<Select>, dep: Expr): (r: seq<Select>)
    ensures |r| == |ss|
  {
    seq(|ss|, i requires 0 <= i < |ss| => ss[i].(cond := MakeAnd(ss[i].cond, dep)))
  }

  /** The body of the loop in _propagate_deps(). */
  function Pushed(k: NodeItem, p: Props, base: Expr, vis: Expr): Props {
    var dep := MakeAnd(p.dep, base);
    var q := p.(dep := dep);
    if HasItem(k) then
      q.(prompt := if p.prompt.Some? then Some(MakeAnd(p.prompt.value, MakeAnd(vis, dep))) else None,
         defaults := WithConds(p.defaults, dep),
         ranges := WithRangeConds(p.ranges, dep),
         selects := WithSelectConds(p.selects, dep),
         implies := WithSelectConds(p.implies, dep))
    else if p.prompt.Some? then q.(prompt := Some(MakeAnd(p.prompt.value, dep)))
    else q
  }

  predicate Known(s: State, i: NodeId) {
    i < |s.kind| == |s.props|
  }

  function SetProps(s: State, i: NodeId, p: Props): State {
    if Known(s, i) then s.(props := s.props[i := p]) else s
  }

  /** _propagate_deps() over the remaining children. */
  function Propagate(s: State, f: seq<Tree>, base: Expr, vis: Expr): (r: State)
    ensures r == s.(props := r.props) && |r.props| == |s.props|
    decreases |f|
  {
    if f == [] then s
    else
      var i := f[0].id;
      var s1 := if Known(s, i) then SetProps(s, i, Pushed(s.kind[i], s.props[i], base, vis)) else s;
      Propagate(s1, f[1..], base, vis)
  }

  /** What a node's children inherit: a choice stands for itself. */
  function BaseDep(k: NodeItem, p: Props): Expr {
    if k.ChoiceNode? then Val(Operand.Item(k.choice)) else p.dep
  }

  function InnerVisible(k: NodeItem, p: Props, vis: Expr): Expr {
    if k.MENU? then MakeAnd(vis, p.visibility) else vis
  }

  // -- collecting properties ------------------------------------------------------

  /** The selects of a node, or its implies. */
  function Selects(p: Props, weak: bool): seq<Select> {
    if weak then p.implies else p.selects
  }

  function RevDep(d: ItemProps, weak: bool): Expr {
    if weak then d.weakRevDep else d.revDep
  }

  function AddRevDep(items: seq<ItemProps>, sym: Id, s: Select, weak: bool): (r: seq<ItemProps>)
    ensures |r| == |items|
  {
    if s.target >= |items| then items
    else
      var d := items[s.target];
      var e := MakeOr(RevDep(d, weak), MakeAnd(Val(Operand.Item(sym)), s.cond));
      items[s.target := if weak then d.(weakRevDep := e) else d.(revDep := e)]
  }

  function AddRevDeps(items: seq<ItemProps>, sym: Id, ss: seq<Select>, weak: bool): (r: seq<ItemProps>)
    ensures |r| == |items|
  {
    if ss == [] then items else AddRevDep(AddRevDeps(items, sym, ss[..|ss| - 1], weak), sym, ss[|ss| - 1], weak)
  }

  function AddOwn(d: ItemProps, p: Props): ItemProps {
    d.(directDep := MakeOr(d.directDep, p.dep), defaults := d.defaults + p.defaults, ranges := d.ranges + p.ranges,
       selects := d.selects + p.selects, implies := d.implies + p.implies)
  }

  /** _add_props_to_sym() */
  function AddProps(items: seq<ItemProps>, sym: Id, p: Props): (r: seq<ItemProps>)
    ensures |r| == |items|
  {
    var own := if sym < |items| then items[sym := AddOwn(items[sym], p)] else items;
    AddRevDeps(AddRevDeps(own, sym, p.selects, false), sym, p.implies, true)
  }

  /** _finalize_choice(): the symbols directly below the choice become its symbols. */
  function AddMembers(s: State, choice: Id, f: seq<Tree>): (r: State)
    ensures r == s.(items := r.items) && |r.items| == |s.items|
    decreases |f|
  {
    if f == [] then s
    else
      var i := f[0].id;
      var s1 := if Known(s, i) && s.kind[i].SymbolNode? && s.kind[i].sym < |s.items| && choice < |s.items| then
        var own := s.items[s.kind[i].sym := s.items[s.kind[i].sym].(choice := Some(choice))];
        s.(items := own[choice := own[choice].(syms := own[choice].syms + [s.kind[i].sym])])
      else s;
      AddMembers(s1, choice, f[1..])
  }

  /** The first specified type among the symbols. */
  function FirstType(items: seq<ItemProps>, syms: seq<Id>): Type {
    if syms == [] then Unknown
    else if syms[0] < |items| && !items[syms[0]].typ.Unknown? then items[syms[0]].typ
    else FirstType(items, syms[1..])
  }

  /** The symbols without a type get one. */
  function Typed(items: seq<ItemProps>, syms: seq<Id>, t: Type): (r: seq<ItemProps>)
    ensures |r| == |items|
  {
    seq(|items|, x requires 0 <= x < |items| => if x in syms && items[x].typ.Unknown? then items[x].(typ := t) else items[x])
  }

  function InferTypes(items: seq<ItemProps>, choice: Id): (r: seq<ItemProps>)
    requires choice < |items|
    ensures |r| == |items|
  {
    var syms := items[choice].syms;
    var t := if items[choice].typ.Unknown? then FirstType(items, syms) else items[choice].typ;
    Typed(items[choice := items[choice].(typ := t)], syms, t)
  }

  /** The last steps of finalizing a choice's node. */
  function FinalizeChoice(s: State, t: Tree): (r: State)
    ensures r == s.(items := r.items) && |r.items| == |s.items|
  {
    if Known(s, t.id) && s.kind[t.id].ChoiceNode? && s.kind[t.id].choice < |s.items| then
      var c := s.kind[t.id].choice;
      var p := s.props[t.id];
      var d := s.items[c].(directDep := MakeOr(s.items[c].directDep, p.dep), defaults := s.items[c].defaults + p.defaults);
      var s1 := AddMembers(s.(items := s.items[c := d]), c, t.children);
      s1.(items := InferTypes(s1.items, c))
    else s
  }

  // -- implicit menus ---------------------------------------------------------------

  predicate IsConst(o: Operand, t: Tri, name: string) {
    o == Operand.Const(Tristate, t, name)
  }

  /** _expr_depends_on() */
  predicate DependsOn(e: Expr, sym: Id) {
    match e
    case Val(o) => o == Operand.Item(sym)
    case And(l, r) => DependsOn(l, sym) || DependsOn(r, sym)
    case Compare(rel, a, b) =>
      if !rel.Equal? && !rel.Unequal? then false
      else if b != Operand.Item(sym) && a != Operand.Item(sym) then false
      else
        var other := if b == Operand.Item(sym) then a else b;
        (rel.Equal? && IsConst(other, 1, "m")) || IsConst(other, 2, "y") || (rel.Unequal? && IsConst(other, 0, "n"))
    case _ => false
  }

  /** _auto_menu_dep() */
  predicate AutoMenuDep(s: State, i: NodeId, j: NodeId) {
    && Known(s, i) && Known(s, j) && s.kind[i].SymbolNode?
    && DependsOn(if s.props[j].prompt.Some? then s.props[j].prompt.value else s.props[j].dep, s.kind[i].sym)
  }

  // -- levels ---------------------------------------------------------------------------

  /** Whether a node with children is dissolved into its level. */
  predicate Dissolves(s: State, t: Tree) {
    t.children != [] && Known(s, t.id) && s.props[t.id].prompt.None? && !s.kind[t.id].ChoiceNode?
  }

  lemma {:induction false} SizeConcat(f: seq<Tree>, g: seq<Tree>)
    ensures Size(f + g) == Size(f) + Size(g)
  {
    if f != [] {
      assert (f + g)[0] == f[0] && (f + g)[1..] == f[1..] + g;
      SizeConcat(f[1..], g);
    } else {
      assert f + g == g;
    }
  }

  /** _flatten() */
  function Flatten(s: State, f: seq<Tree>): seq<Tree>
    decreases Size(f)
  {
    if f == [] then []
    else if Dissolves(s, f[0]) then
      SizeConcat(f[0].children, f[1..]);
      [Tree(f[0].id, [])] + Flatten(s, f[0].children + f[1..])
    else [f[0]] + Flatten(s, f[1..])
  }

  predicate IsIf(s: State, i: NodeId) {
    Known(s, i) && s.kind[i].IF?
  }

  /** _remove_ifs() */
  function RemoveIfs(s: State, f: seq<Tree>): seq<Tree> {
    if f == [] then []
    else if IsIf(s, f[0].id) then RemoveIfs(s, f[1..])
    else [f[0]] + RemoveIfs(s, f[1..])
  }

  function Level(s: State, t: Tree): Tree {
    if t.children == [] then t else Tree(t.id, RemoveIfs(s, Flatten(s, t.children)))
  }

  // -- finalizing --------------------------------------------------------------------------

  /** A finalized node, the siblings it left, and the state. */
  datatype Done = Done(node: Tree, rest: seq<Tree>, s: State)

  /** _finalize_node(), for the node with what follows it on its level. */
  function FinalizeNode(t: Tree, rest: seq<Tree>, s: State, vis: Expr): (d: Done)
    ensures Size(d.rest) <= Size(rest)
    decreases 1 + Size(t.children) + Size(rest), 1
  {
    if !Known(s, t.id) then Done(t, rest, s)
    else
      var s0 := s.(log := s.log + [t.id]);
      var k := s.kind[t.id];
      if k.SymbolNode? then
        var s1 := s0.(items := AddProps(s0.items, k.sym, s0.props[t.id]));
        var (kids, rest1, s2) := Absorb(t.id, rest, s1, vis);
        Done(Level(s2, if kids == [] then t else Tree(t.id, kids)), rest1, s2)
      else if t.children == [] then Done(t, rest, FinalizeChoice(s0, t))
      else
        var inner := InnerVisible(k, s0.props[t.id], vis);
        var s1 := Propagate(s0, t.children, BaseDep(k, s0.props[t.id]), inner);
        var (kids, s2) := FinalizeAll(t.children, s1, inner);
        var t1 := Level(s2, Tree(t.id, kids));
        Done(t1, rest, FinalizeChoice(s2, t1))
  }

  /** The siblings that go into the implicit menu of symbol node i. */
  function Absorb(i: NodeId, rest: seq<Tree>, s: State, vis: Expr): (r: (seq<Tree>, seq<Tree>, State))
    ensures Size(r.1) <= Size(rest)
    decreases Size(rest), 2
  {
    if rest == [] || !AutoMenuDep(s, i, rest[0].id) then ([], rest, s)
    else
      var d := FinalizeNode(rest[0], rest[1..], s, vis);
      var (kids, rest1, s1) := Absorb(i, d.rest, d.s, vis);
      ([d.node] + kids, rest1, s1)
  }

  function FinalizeAll(f: seq<Tree>, s: State, vis: Expr): (seq<Tree>, State)
    decreases Size(f), 2
  {
    if f == [] then ([], s)
    else
      var d := FinalizeNode(f[0], f[1..], s, vis);
      var (ts, s1) := FinalizeAll(d.rest, d.s, vis);
      ([d.node] + ts, s1)
  }
}
