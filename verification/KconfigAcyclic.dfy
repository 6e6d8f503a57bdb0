/**
What a passed dependency-loop check says of evaluation: an order exists exactly if
no chain of looks comes back to its start along a step the check does not make.
*/
module KconfigAcyclic {
  import opened Options
  import opened KconfigModel
  import opened KconfigSemantics
  import opened KconfigReads
  import opened Cycles

  import DepGraph
  import DepSound

  /** The graph the check walks: `_dependents` as _build_dep() leaves it, and the choices. */
  ghost predicate Matches(c: Config, g: DepGraph.Graph) {
    && DepGraph.Proper(g) && |g.deps| == |c.items|
    && forall i :: 0 <= i < |c.items| ==> MatchesAt(c, g, i)
  }

  ghost predicate MatchesAt(c: Config, g: DepGraph.Graph, i: Id)
    requires DepGraph.Proper(g) && |g.deps| == |c.items| && i < |c.items|
  {
    && g.isChoice[i] == c.items[i].Choice?
    && g.choice[i] == (if c.items[i].Symbol? then c.items[i].choice else None)
    && (c.items[i].Choice? ==> g.syms[i] == c.items[i].syms)
    && (forall d: Id :: d in g.deps[i] <==> Live(c, d) && i in PropertyItems(c.items[d]))
  }

  // ---------------------------------------------------------------------
  // Steps
  // ---------------------------------------------------------------------

  predicate IsSymbol(c: Config, i: Id) {
    i < |c.items| && c.items[i].Symbol?
  }

  predicate InChoice(c: Config, m: Id, ch: Id) {
    IsSymbol(c, m) && c.items[m].choice == Some(ch)
  }

  /** b's rule looks at a, which b's properties mention. */
  predicate Mention(c: Config, a: Node, b: Node) {
    b.id < |c.items| && Live(c, b.id) && a.id in PropertyItems(c.items[b.id]) && (a.kind == OfTri || a.kind == OfStr)
  }

  /** A step from a symbol to one of its dependents. */
  predicate SymbolMention(c: Config, a: Node, b: Node) {
    Mention(c, a, b) && IsSymbol(c, a.id)
  }

  /** Through its own item a value only looks at earlier kinds. */
  predicate Own(c: Config, a: Node, b: Node) {
    a.id == b.id && Phase(c, a) < Phase(c, b) && b.kind != OfVis
  }

  predicate ModeOf(c: Config, a: Node, b: Node) {
    InChoice(c, b.id, a.id) && a.kind == OfTri && b.kind == OfVis
  }

  predicate TypeOfB(c: Config, a: Node, b: Node) {
    b.id < |c.items| && a == Node(c.modules, OfTri) && c.items[b.id].typ.Tristate?
  }

  predicate SeenBy(c: Config, a: Node, b: Node) {
    IsChoice(c, b.id) && b.kind == OfSel && a.kind == OfVis && a.id in c.items[b.id].syms
  }

  predicate ChosenBy(c: Config, a: Node, b: Node) {
    a.kind == OfSel && b.kind == OfTri && InChoice(c, b.id, a.id)
  }

  /** Within a choice: its visibility, mode and string, visibility of the symbols, selection, values. */
  function Phase(c: Config, n: Node): nat {
    match n.kind
    case OfVis => if IsChoice(c, n.id) then 0 else 3
    case OfTri => if IsChoice(c, n.id) then 1 else 5
    case OfSel => 4
    case OfStr => if IsChoice(c, n.id) then 2 else 6
    case OfAsg => 6
  }

  lemma {:induction false} ExprMentions(e: Expr, r: Node)
    requires ExprReads(e, r)
    ensures r.id in ExprItems(e) && (r.kind == OfTri || r.kind == OfStr)
  {
    match e
    case Val(o) =>
    case And(a, b) =>
      if ExprReads(a, r) { ExprMentions(a, r); } else { ExprMentions(b, r); }
    case Or(a, b) =>
      if ExprReads(a, r) { ExprMentions(a, r); } else { ExprMentions(b, r); }
    case Not(x) => ExprMentions(x, r);
    case Compare(_, a, b) =>
  }

  lemma PromptMentions(es: seq<Expr>, r: Node)
    requires ExprsRead(es, r)
    ensures r.id in ExprsItems(es) && (r.kind == OfTri || r.kind == OfStr)
  {
    var k :| 0 <= k < |es| && ExprReads(es[k], r);
    ExprMentions(es[k], r);
  }

  lemma DefaultsMention(d: Def, r: Node)
    requires d.Symbol? && DefaultsRead(d, r)
    ensures r.id in DefaultsItems(d.defaults) && (r.kind == OfTri || r.kind == OfStr)
  {
    var k :| 0 <= k < |d.defaults| && DefaultReads(d.typ, d.defaults[k], r);
    DefaultItems(d.defaults, k);
    if ExprReads(d.defaults[k].cond, r) {
      ExprMentions(d.defaults[k].cond, r);
    } else if ExprReads(d.defaults[k].value, r) {
      ExprMentions(d.defaults[k].value, r);
    }
  }

  lemma RangesMention(d: Def, r: Node)
    requires d.Symbol? && RangesRead(d, r)
    ensures r.id in RangesItems(d.ranges) && (r.kind == OfTri || r.kind == OfStr)
  {
    var k :| 0 <= k < |d.ranges| && RangeReads(d.ranges[k], r);
    RangeItems(d.ranges, k);
    if ExprReads(d.ranges[k].cond, r) {
      ExprMentions(d.ranges[k].cond, r);
    }
  }

  lemma ChoiceDefaultsMention(d: Def, r: Node)
    requires d.Choice? && ChoiceDefaultsRead(d, r)
    ensures r.id in ChoiceDefaultsItems(d.choiceDefaults) && (r.kind == OfTri || r.kind == OfStr)
  {
    var k :| 0 <= k < |d.choiceDefaults| && ExprReads(d.choiceDefaults[k].cond, r);
    ExprMentions(d.choiceDefaults[k].cond, r);
  }

  lemma SelectsMention(d: Def, r: Node)
    requires d.Symbol? && (ExprReads(d.revDep, r) || ExprReads(d.weakRevDep, r) || ExprReads(d.directDep, r))
    ensures r.id in PropertyItems(d) && (r.kind == OfTri || r.kind == OfStr)
  {
    if ExprReads(d.revDep, r) {
      ExprMentions(d.revDep, r);
    } else if ExprReads(d.weakRevDep, r) {
      ExprMentions(d.weakRevDep, r);
    } else {
      ExprMentions(d.directDep, r);
    }
  }

  predicate Step(c: Config, a: Node, b: Node) {
    || Mention(c, a, b) || Own(c, a, b) || ModeOf(c, a, b) || TypeOfB(c, a, b) || SeenBy(c, a, b) || ChosenBy(c, a, b)
  }

  /** Undefined symbols look at nothing. */
  lemma ReaderIsLive(c: Config, n: Node, r: Node)
    requires Resolved(c) && Reads(c, n, r)
    ensures Live(c, n.id)
  {
    if c.items[n.id].Symbol? {
      assert ResolvedSymbol(c, n.id);
    }
  }

  lemma SymbolStep(c: Config, b: Node, a: Node)
    requires Reads(c, b, a) && Live(c, b.id) && c.items[b.id].Symbol?
    ensures Step(c, a, b)
  {
    var d := c.items[b.id];
    hide ExprsRead, DefaultsRead, RangesRead, ExprReads, ExprsItems, DefaultsItems, RangesItems;
    if ExprsRead(d.prompts, a) {
      PromptMentions(d.prompts, a);
    }
    if DefaultsRead(d, a) {
      DefaultsMention(d, a);
    }
    if RangesRead(d, a) {
      RangesMention(d, a);
    }
    if ExprReads(d.revDep, a) || ExprReads(d.weakRevDep, a) || ExprReads(d.directDep, a) {
      SelectsMention(d, a);
    }
  }

  lemma ChoiceStep(c: Config, b: Node, a: Node)
    requires Reads(c, b, a) && IsChoice(c, b.id)
    ensures Step(c, a, b)
  {
    var d := c.items[b.id];
    hide ExprsRead, ChoiceDefaultsRead, ExprsItems, ChoiceDefaultsItems;
    if ExprsRead(d.prompts, a) {
      PromptMentions(d.prompts, a);
    }
    if ChoiceDefaultsRead(d, a) {
      ChoiceDefaultsMention(d, a);
    }
  }

  lemma FlowStep(c: Config, a: Node, b: Node)
    requires Resolved(c) && (a, b) in Flow(c)
    ensures Step(c, a, b)
  {
    hide Resolved, Step, Reads, Live;
    FlowIsReads(c, b, a);
    ReaderIsLive(c, b, a);
    ReaderExists(c, b, a);
    if c.items[b.id].Symbol? {
      SymbolStep(c, b, a);
    } else {
      ChoiceStep(c, b, a);
    }
  }

  // ---------------------------------------------------------------------
  // Loops the check does not see
  // ---------------------------------------------------------------------

  /** The check follows a choice to its symbols alone, and MODULES to what mentions it. */
  predicate Unfollowed(c: Config, a: Node, b: Node) {
    || (IsChoice(c, a.id) && Mention(c, a, b) && !InChoice(c, b.id, a.id))
    || (TypeOfB(c, a, b) && !Mention(c, a, b))
  }

  /** It does not go from a choice symbol it came to as a dependent on to the choice. */
  predicate CrossesAt(c: Config, a: Node, b: Node, d: Node) {
    SymbolMention(c, a, b) && SeenBy(c, b, d)
  }

  ghost predicate Crosses(c: Config, l: seq<Node>) {
    || (exists j :: 0 <= j < |l| - 1 && Unfollowed(c, l[j], l[j + 1]))
    || (exists j :: 1 <= j < |l| - 1 && CrossesAt(c, l[j - 1], l[j], l[j + 1]))
  }

  ghost predicate CrossingLoop(c: Config) {
    exists l :: Cycle(Flow(c), l) && Crosses(c, l)
  }

  // ---------------------------------------------------------------------
  // All others are found
  // ---------------------------------------------------------------------

  /** The numbers of a passed check, at the level of the configuration. */
  ghost predicate Descends(c: Config, u: seq<nat>) {
    && |u| == |c.items|
    && (forall x: Id, d: Id :: IsSymbol(c, x) && Live(c, d) && x in PropertyItems(c.items[d]) ==> Low(c, u, d, u[x]))
  }

  /** A number below the bound, for a choice those of all its symbols. */
  predicate Low(c: Config, u: seq<nat>, i: Id, bound: nat)
    requires |u| == |c.items|
  {
    i < |u| && if c.items[i].Choice? then forall s :: s in c.items[i].syms ==> s < |u| && u[s] < bound else u[i] < bound
  }

  lemma DescendingDescends(c: Config, g: DepGraph.Graph, u: seq<nat>)
    requires Matches(c, g) && DepSound.Descending(g, u)
    ensures Descends(c, u)
  {
    hide PropertyItems;
    forall x: Id, d: Id | IsSymbol(c, x) && Live(c, d) && x in PropertyItems(c.items[d]) ensures Low(c, u, d, u[x]) {
      assert MatchesAt(c, g, x) && MatchesAt(c, g, d);
      assert d in g.deps[x];
      var k :| 0 <= k < |g.deps[x]| && g.deps[x][k] == d;
      if c.items[d].Choice? {
        forall s | s in c.items[d].syms ensures s < |u| && u[s] < u[x] {
          var j :| 0 <= j < |g.syms[d]| && g.syms[d][j] == s;
        }
      }
    }
  }

  lemma LowChoice(c: Config, u: seq<nat>, ch: Id, m: Id, bound: nat)
    requires Resolved(c) && |u| == |c.items| && InChoice(c, m, ch) && Low(c, u, ch, bound)
    ensures Low(c, u, m, bound)
  {
    assert ResolvedSymbol(c, m);
  }

  lemma MemberOf(c: Config, ch: Id, m: Id)
    requires Resolved(c) && IsChoice(c, ch) && m in c.items[ch].syms
    ensures InChoice(c, m, ch)
  {
    assert ResolvedChoice(c, ch);
  }

  /** How low a step leads; a visibility not reached from a dependency has the whole choice below. */
  ghost predicate LowNode(c: Config, u: seq<nat>, a: Node, b: Node, bound: nat)
    requires |u| == |c.items|
  {
    && Low(c, u, b.id, bound)
    && (b.kind == OfVis && IsSymbol(c, b.id) && c.items[b.id].choice.Some? && !SymbolMention(c, a, b) ==>
          Low(c, u, c.items[b.id].choice.value, bound))
  }

  lemma LowStep(c: Config, u: seq<nat>, z: Node, a: Node, b: Node, bound: nat)
    requires Resolved(c) && Descends(c, u) && Step(c, a, b) && !Unfollowed(c, a, b) && !CrossesAt(c, z, a, b)
    requires LowNode(c, u, z, a, bound)
    ensures LowNode(c, u, a, b, bound)
  {
    hide Resolved, PropertyItems, Phase;
    if SymbolMention(c, a, b) {
      assert Low(c, u, b.id, u[a.id]);
    } else if Mention(c, a, b) {
      LowChoice(c, u, a.id, b.id, bound);
    } else if ModeOf(c, a, b) || ChosenBy(c, a, b) {
      LowChoice(c, u, a.id, b.id, bound);
    } else if SeenBy(c, a, b) {
      MemberOf(c, b.id, a.id);
    }
  }

  lemma FirstStep(c: Config, u: seq<nat>, a: Node, b: Node)
    requires Descends(c, u) && SymbolMention(c, a, b)
    ensures a.id < |u| && LowNode(c, u, a, b, u[a.id])
  {
    hide PropertyItems;
  }

  lemma {:induction false} StaysLow(c: Config, u: seq<nat>, l: seq<Node>, j: nat)
    requires Resolved(c) && Descends(c, u) && Walk(Flow(c), l) && !Crosses(c, l) && 1 <= j < |l|
    requires SymbolMention(c, l[0], l[1])
    ensures l[0].id < |u| && LowNode(c, u, l[j - 1], l[j], u[l[0].id])
  {
    hide Resolved, Descends, LowNode, Flow, SymbolMention, Unfollowed, CrossesAt, Step;
    FirstStep(c, u, l[0], l[1]);
    assert |u| == |c.items| by { DescendsLength(c, u); }
    if j > 1 {
      StaysLow(c, u, l, j - 1);
      assert (l[j - 1], l[j - 1 + 1]) in Flow(c);
      FlowStep(c, l[j - 1], l[j]);
      assert !Unfollowed(c, l[j - 1], l[j - 1 + 1]) && !CrossesAt(c, l[j - 1 - 1], l[j - 1], l[j - 1 + 1]);
      LowStep(c, u, l[j - 2], l[j - 1], l[j], u[l[0].id]);
    }
  }

  lemma DescendsLength(c: Config, u: seq<nat>)
    requires Descends(c, u)
    ensures |u| == |c.items|
  {}

  lemma StartsAtDependency(c: Config, u: seq<nat>, l: seq<Node>)
    requires Resolved(c) && Descends(c, u) && Cycle(Flow(c), l) && SymbolMention(c, l[0], l[1])
    ensures Crosses(c, l)
  {
    if !Crosses(c, l) {
      StaysLow(c, u, l, |l| - 1);
    }
  }

  /** Without dependencies of symbols a chain stays in its choice and only goes forward. */
  lemma {:induction false} GoesForward(c: Config, l: seq<Node>, j: nat)
    requires Resolved(c) && Walk(Flow(c), l) && 1 <= j < |l|
    requires forall k :: 0 <= k < |l| - 1 ==> !SymbolMention(c, l[k], l[k + 1]) && !Unfollowed(c, l[k], l[k + 1])
    ensures Phase(c, l[0]) < Phase(c, l[j])
  {
    hide Resolved, Flow, SymbolMention, Unfollowed, Step, Phase;
    assert (l[j - 1], l[j - 1 + 1]) in Flow(c);
    FlowStep(c, l[j - 1], l[j]);
    FlowInRange(c, l[j - 1], l[j]);
    assert !SymbolMention(c, l[j - 1], l[j - 1 + 1]) && !Unfollowed(c, l[j - 1], l[j - 1 + 1]);
    ForwardStep(c, l[j - 1], l[j]);
    if j > 1 {
      GoesForward(c, l, j - 1);
    }
  }

  lemma ForwardStep(c: Config, a: Node, b: Node)
    requires Resolved(c) && a.id < |c.items| && b.id < |c.items|
    requires Step(c, a, b) && !SymbolMention(c, a, b) && !Unfollowed(c, a, b)
    ensures Phase(c, a) < Phase(c, b)
  {
    hide PropertyItems, NeverShown, ModeReadable, SoundExpr;
    assert if c.items[a.id].Symbol? then ResolvedSymbol(c, a.id) else ResolvedChoice(c, a.id);
    assert if c.items[b.id].Symbol? then ResolvedSymbol(c, b.id) else ResolvedChoice(c, b.id);
  }

  lemma FlowInRange(c: Config, a: Node, b: Node)
    requires (a, b) in Flow(c)
    ensures a.id < |c.items| && b.id < |c.items|
  {}

  /** After a passed check every loop crosses, possibly once it is turned. */
  lemma PassedLoopsCross(c: Config, u: seq<nat>, l: seq<Node>)
    requires Resolved(c) && Descends(c, u) && Cycle(Flow(c), l)
    ensures CrossingLoop(c)
  {
    hide Resolved, Descends, Flow, SymbolMention, Unfollowed, Phase;
    if !Crosses(c, l) {
      if j :| 0 <= j < |l| - 1 && SymbolMention(c, l[j], l[j + 1]) {
        TurnedCycle(Flow(c), l, j);
        StartsAtDependency(c, u, Turned(l, j));
      } else {
        GoesForward(c, l, |l| - 1);
      }
    }
  }

  // ---------------------------------------------------------------------
  // What the check is worth
  // ---------------------------------------------------------------------

  lemma RootsFacts(c: Config, g: DepGraph.Graph, roots: seq<Id>)
    requires Resolved(c) && Matches(c, g)
    requires DepGraph.Roots(g, roots) && forall i: Id :: Live(c, i) && c.items[i].Symbol? ==> i in roots
    ensures DepSound.RootsCover(g, roots)
  {
    hide PropertyItems, Resolved;
    forall x | 0 <= x < |g.deps| && !g.isChoice[x] && x !in roots
      ensures g.choice[x].None? && forall y, k :: 0 <= y < |g.deps| && !g.isChoice[y] && 0 <= k < |g.deps[y]| ==> g.deps[y][k] != x
    {
      assert MatchesAt(c, g, x);
      assert c.items[x].Symbol? && !Live(c, x);
      UndefinedOutside(c, x);
      forall y, k | 0 <= y < |g.deps| && !g.isChoice[y] && 0 <= k < |g.deps[y]| ensures g.deps[y][k] != x {
        assert MatchesAt(c, g, y);
        assert g.deps[y][k] in g.deps[y];
      }
    }
  }

  lemma UndefinedOutside(c: Config, x: Id)
    requires Resolved(c) && IsSymbol(c, x) && !Live(c, x)
    ensures c.items[x].choice.None?
  {
    assert ResolvedSymbol(c, x);
  }

  predicate Passes(g: DepGraph.Graph, roots: seq<Id>)
    requires DepGraph.Proper(g) && DepGraph.Roots(g, roots)
  {
    DepGraph.VisitAll(g, DepGraph.Fresh(g), roots, 0).0.Clear?
  }

  /** All defined symbols, which the check starts from. */
  ghost predicate AllRoots(c: Config, g: DepGraph.Graph, roots: seq<Id>)
    requires DepGraph.Proper(g)
  {
    DepGraph.Roots(g, roots) && forall i: Id :: Live(c, i) && c.items[i].Symbol? ==> i in roots
  }

  /**
  A configuration that passes the dependency-loop check has an evaluation order,
  and with it values, exactly if it has no crossing loop.
  */
  lemma PassedExactly(c: Config, g: DepGraph.Graph, roots: seq<Id>)
    requires Resolved(c) && Matches(c, g) && AllRoots(c, g, roots) && Passes(g, roots)
    ensures (exists levels :: WellFormed(c.(levels := levels))) <==> !CrossingLoop(c)
  {
    hide Resolved, Flow, Descends, Crosses, WellFormed, DepSound.Descending, DepSound.RootsCover;
    OrderExists(c);
    RootsFacts(c, g, roots);
    var u := DepSound.PassedMeansAcyclic(g, roots);
    DescendingDescends(c, g, u);
    if l :| Cycle(Flow(c), l) {
      PassedLoopsCross(c, u, l);
    }
  }

  // ---------------------------------------------------------------------
  // The graph of a configuration
  // ---------------------------------------------------------------------

  /** The dependents of item i among the first n items. */
  function DependentList(c: Config, i: Id, n: nat): (r: seq<Id>)
    requires n <= |c.items|
    ensures forall d: Id :: d in r <==> d < n && Live(c, d) && i in PropertyItems(c.items[d])
  {
    if n == 0 then []
    else DependentList(c, i, n - 1) + if Live(c, n - 1) && i in PropertyItems(c.items[n - 1]) then [n - 1] else []
  }

  /** _build_dep(), with dependents in the order of the items. */
  function GraphOf(c: Config): (g: DepGraph.Graph)
    ensures |g.deps| == |g.isChoice| == |g.choice| == |g.syms| == |c.items|
  {
    var n := |c.items|;
    DepGraph.Graph(seq(n, i requires 0 <= i < n => DependentList(c, i, n)),
                   seq(n, i requires 0 <= i < n => c.items[i].Choice?),
                   seq(n, i requires 0 <= i < n => if c.items[i].Symbol? then c.items[i].choice else None),
                   seq(n, i requires 0 <= i < n => if c.items[i].Choice? then c.items[i].syms else []))
  }

  function RootsFrom(c: Config, n: nat): (r: seq<Id>)
    requires n <= |c.items|
    ensures forall i: Id :: i in r <==> i < n && c.items[i].Symbol? && c.items[i].defined
  {
    if n == 0 then [] else RootsFrom(c, n - 1) + if c.items[n - 1].Symbol? && c.items[n - 1].defined then [n - 1] else []
  }

  lemma GraphProper(c: Config)
    requires Resolved(c)
    ensures DepGraph.Proper(GraphOf(c))
  {
    hide PropertyItems;
    var g := GraphOf(c);
    forall x, k | 0 <= x < |c.items| && 0 <= k < |g.deps[x]| ensures g.deps[x][k] < |c.items| {
      assert g.deps[x][k] in DependentList(c, x, |c.items|);
    }
    forall x | 0 <= x < |c.items| && g.choice[x].Some?
      ensures var ch := g.choice[x].value; !g.isChoice[x] && ch < |c.items| && g.isChoice[ch] && x in g.syms[ch]
    {
      assert ResolvedSymbol(c, x);
    }
    forall ch, k | 0 <= ch < |c.items| && g.isChoice[ch] && 0 <= k < |g.syms[ch]|
      ensures g.syms[ch][k] < |c.items| && g.choice[g.syms[ch][k]] == Some(ch)
    {
      assert ResolvedChoice(c, ch) && g.syms[ch][k] in c.items[ch].syms;
    }
  }

  lemma GraphMatches(c: Config)
    requires Resolved(c)
    ensures DepGraph.Proper(GraphOf(c)) && Matches(c, GraphOf(c)) && AllRoots(c, GraphOf(c), RootsFrom(c, |c.items|))
  {
    GraphProper(c);
    hide PropertyItems, Resolved, DepGraph.Proper;
    var g, roots := GraphOf(c), RootsFrom(c, |c.items|);
    forall i | 0 <= i < |c.items| ensures MatchesAt(c, g, i) {}
    forall j | 0 <= j < |roots| ensures roots[j] < |g.deps| && !g.isChoice[roots[j]] {
      assert roots[j] in roots;
    }
  }

  /** The check passes for the configuration. */
  predicate PassesCheck(c: Config)
    requires Resolved(c)
  {
    GraphMatches(c);
    Passes(GraphOf(c), RootsFrom(c, |c.items|))
  }

  /** The same for the graph the configuration itself has. */
  lemma CheckExactly(c: Config)
    requires Resolved(c) && PassesCheck(c)
    ensures (exists levels :: WellFormed(c.(levels := levels))) <==> !CrossingLoop(c)
  {
    hide Resolved, Passes, CrossingLoop, WellFormed;
    GraphMatches(c);
    PassedExactly(c, GraphOf(c), RootsFrom(c, |c.items|));
  }
}
