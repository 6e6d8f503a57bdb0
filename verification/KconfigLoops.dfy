/**
The dependency-loop check on concrete configurations: three kinds of loops it misses,
a choice it may let through, and one configuration it refuses without need.
*/
module KconfigLoops {
  import opened Options
  import opened KconfigModel
  import opened KconfigSemantics
  import opened KconfigReads
  import opened KconfigAcyclic

  import DepGraph
  import DepLoops

  function Modules(prompts: seq<Expr>): Def {
    Symbol("MODULES", Bool, prompts, [Default(Y, Y)], [], N, N, Y, None, true, false)
  }

  /** A bool symbol with one prompt and nothing else. */
  function Plain(name: string, prompt: Expr, choice: Option<Id>): Def {
    Symbol(name, Bool, [prompt], [], [], N, N, prompt, choice, true, false)
  }

  function The(i: Id): Expr {
    Val(Operand.Item(i))
  }

  ghost predicate Unordered(c: Config) {
    forall levels :: !WellFormed(c.(levels := levels))
  }

  /** It passes the check and has no evaluation order. */
  ghost predicate Missed(c: Config, g: DepGraph.Graph, roots: seq<Id>) {
    Resolved(c) && Matches(c, g) && AllRoots(c, g, roots) && Passes(g, roots) && Unordered(c)
  }

  lemma ItemWellFormed(c: Config, i: Id)
    requires WellFormed(c) && i < |c.items|
    ensures WellFormedItem(c, i)
  {}

  lemma OnePrompt(e: Expr)
    ensures ExprsItems([e]) == ExprItems(e)
  {
    assert [e][0] == e;
  }

  lemma PlainItems(name: string, prompt: Expr, choice: Option<Id>)
    ensures PropertyItems(Plain(name, prompt, choice)) == ExprItems(prompt)
  {
    OnePrompt(prompt);
  }

  lemma ModulesItems()
    ensures PropertyItems(Modules([])) == {}
  {}

  lemma PlainResolved(c: Config, i: Id, name: string, prompt: Expr, choice: Option<Id>)
    requires i < |c.items| && c.items[i] == Plain(name, prompt, choice) && SoundExpr(c, prompt)
    requires choice.Some? ==> IsChoice(c, choice.value) && i in c.items[choice.value].syms && choice.value in ExprItems(prompt)
    ensures ResolvedSymbol(c, i)
  {
    PlainItems(name, prompt, choice);
    hide ExprItems, PropertyItems;
  }

  lemma ModulesResolved(c: Config, i: Id)
    requires i < |c.items| && c.items[i] == Modules([])
    ensures ResolvedSymbol(c, i)
  {}

  lemma ChoiceResolved(c: Config, i: Id, prompt: Expr, syms: seq<Id>)
    requires i < |c.items| && c.items[i] == Choice(Bool, [prompt], [], syms, false) && SoundExpr(c, prompt)
    requires forall s :: s in syms ==> s < |c.items| && c.items[s].Symbol? && c.items[s].choice == Some(i)
    ensures ResolvedChoice(c, i)
  {
    hide SoundExpr;
    assert [prompt][0] == prompt;
  }

  /** What each item mentions. */
  ghost predicate Mentioned(c: Config, ps: seq<set<Id>>) {
    |ps| == |c.items| && forall i: Id :: i < |ps| ==> PropertyItems(c.items[i]) == ps[i] && Live(c, i)
  }

  lemma MatchesFrom(c: Config, g: DepGraph.Graph, ps: seq<set<Id>>)
    requires DepGraph.Proper(g) && Mentioned(c, ps) && |g.deps| == |ps|
    requires forall i: Id :: i < |ps| ==>
      && g.isChoice[i] == c.items[i].Choice? && g.choice[i] == (if c.items[i].Symbol? then c.items[i].choice else None)
      && (c.items[i].Choice? ==> g.syms[i] == c.items[i].syms)
    requires forall i: Id, d: Id :: i < |ps| ==> (d in g.deps[i] <==> d < |ps| && i in ps[d])
    ensures Matches(c, g)
  {
    hide PropertyItems, DepGraph.Proper;
    forall i | 0 <= i < |c.items| ensures MatchesAt(c, g, i) {
      forall d: Id ensures d in g.deps[i] <==> Live(c, d) && i in PropertyItems(c.items[d]) {
        assert d in g.deps[i] <==> d < |ps| && i in ps[d];
        assert d < |ps| ==> PropertyItems(c.items[d]) == ps[d] && Live(c, d);
      }
    }
  }

  lemma PassesLayered(g: DepGraph.Graph, rank: seq<nat>, roots: seq<Id>)
    requires DepGraph.Proper(g) && DepGraph.Roots(g, roots) && DepLoops.Layered(g, rank)
    ensures Passes(g, roots)
  {
    DepLoops.NoFalseAlarm(g, rank, DepGraph.Fresh(g), roots, 0);
  }

  // ---------------------------------------------------------------------
  // A dependency between two symbols of a choice
  // ---------------------------------------------------------------------

  /** A choice (0) with symbols A (1), B (2) and C (3), where B depends on C. */
  function Siblings(lib: Lib): Config {
    Config([Choice(Bool, [Y], [], [1, 2, 3], false), Plain("A", The(0), Some(0)), Plain("B", And(The(3), The(0)), Some(0)),
            Plain("C", The(0), Some(0)), Modules([])], 4, lib, [])
  }

  const SIBLINGS := DepGraph.Graph([[1, 2, 3], [], [], [2], []], [true, false, false, false, false],
                                   [None, Some(0), Some(0), Some(0), None], [[1, 2, 3], [], [], [], []])

  lemma SiblingsProper()
    ensures DepGraph.Proper(SIBLINGS) && |SIBLINGS.deps| == 5 && DepGraph.Roots(SIBLINGS, [1, 2, 3, 4])
  {
    assert SIBLINGS.syms[0][0] == 1 && SIBLINGS.syms[0][1] == 2 && SIBLINGS.syms[0][2] == 3;
  }

  /** B is visited from the choice and finished: nothing depends on it. */
  lemma SiblingsB()
    requires DepGraph.Proper(SIBLINGS)
    ensures DepGraph.VisitSym(SIBLINGS, [1, 1, 0, 0, 0], 2, true) == (DepGraph.Clear, [1, 1, 2, 0, 0])
  {
    var v, u := [1, 1, 0, 0, 0], [1, 1, 1, 0, 0];
    assert v[2 := 1] == u && u[2 := 2] == [1, 1, 2, 0, 0];
    assert DepGraph.VisitDeps(SIBLINGS, u, 2, 0) == (DepGraph.Clear, u);
  }

  /** C finds B finished. */
  lemma SiblingsC()
    requires DepGraph.Proper(SIBLINGS)
    ensures DepGraph.VisitSym(SIBLINGS, [1, 1, 2, 0, 0], 3, true) == (DepGraph.Clear, [1, 1, 2, 2, 0])
  {
    var v, u := [1, 1, 2, 0, 0], [1, 1, 2, 1, 0];
    assert v[3 := 1] == u && u[3 := 2] == [1, 1, 2, 2, 0];
    assert DepGraph.VisitSym(SIBLINGS, u, 2, false) == (DepGraph.Clear, u);
    assert DepGraph.VisitDeps(SIBLINGS, u, 3, 1) == (DepGraph.Clear, u);
    assert DepGraph.VisitDeps(SIBLINGS, u, 3, 0) == (DepGraph.Clear, u);
  }

  lemma SiblingsChoice()
    requires DepGraph.Proper(SIBLINGS)
    ensures DepGraph.VisitChoice(SIBLINGS, [0, 1, 0, 0, 0], 0, Some(1)) == (DepGraph.Clear, [2, 1, 2, 2, 0])
  {
    hide DepGraph.VisitSym, DepGraph.VisitDeps, DepGraph.Proper;
    var v, w := [1, 1, 0, 0, 0], [1, 1, 2, 2, 0];
    assert [0, 1, 0, 0, 0][0 := 1] == v && w[0 := 2] == [2, 1, 2, 2, 0];
    SiblingsB();
    SiblingsC();
    assert DepGraph.VisitMembers(SIBLINGS, w, 0, Some(1), 3) == (DepGraph.Clear, w);
    assert DepGraph.VisitMembers(SIBLINGS, [1, 1, 2, 0, 0], 0, Some(1), 2) == (DepGraph.Clear, w);
    assert DepGraph.VisitMembers(SIBLINGS, v, 0, Some(1), 1) == (DepGraph.Clear, w);
    assert DepGraph.VisitMembers(SIBLINGS, v, 0, Some(1), 0) == (DepGraph.Clear, w);
  }

  lemma SiblingsA()
    requires DepGraph.Proper(SIBLINGS)
    ensures DepGraph.VisitSym(SIBLINGS, [0, 0, 0, 0, 0], 1, false) == (DepGraph.Clear, [2, 2, 2, 2, 0])
  {
    hide DepGraph.VisitChoice, DepGraph.Proper;
    var u := [0, 1, 0, 0, 0];
    assert [0, 0, 0, 0, 0][1 := 1] == u && [2, 1, 2, 2, 0][1 := 2] == [2, 2, 2, 2, 0];
    assert DepGraph.VisitDeps(SIBLINGS, u, 1, 0) == (DepGraph.Clear, u);
    SiblingsChoice();
  }

  lemma SiblingsLast()
    requires DepGraph.Proper(SIBLINGS)
    ensures DepGraph.VisitSym(SIBLINGS, [2, 2, 2, 2, 0], 4, false) == (DepGraph.Clear, [2, 2, 2, 2, 2])
  {
    var v, u := [2, 2, 2, 2, 0], [2, 2, 2, 2, 1];
    assert v[4 := 1] == u && u[4 := 2] == [2, 2, 2, 2, 2];
    assert DepGraph.VisitDeps(SIBLINGS, u, 4, 0) == (DepGraph.Clear, u);
  }

  lemma SiblingsPass()
    requires DepGraph.Proper(SIBLINGS) && DepGraph.Roots(SIBLINGS, [1, 2, 3, 4])
    ensures Passes(SIBLINGS, [1, 2, 3, 4])
  {
    var v := [2, 2, 2, 2, 0];
    assert DepGraph.Fresh(SIBLINGS) == [0, 0, 0, 0, 0];
    SiblingsA();
    SiblingsLast();
    assert DepGraph.VisitSym(SIBLINGS, v, 2, false) == (DepGraph.Clear, v) && DepGraph.VisitSym(SIBLINGS, v, 3, false) == (DepGraph.Clear, v);
    hide DepGraph.VisitSym, DepGraph.Proper;
    var w := [2, 2, 2, 2, 2];
    assert DepGraph.VisitAll(SIBLINGS, w, [1, 2, 3, 4], 4) == (DepGraph.Clear, w);
    assert DepGraph.VisitAll(SIBLINGS, v, [1, 2, 3, 4], 3) == (DepGraph.Clear, w);
    assert DepGraph.VisitAll(SIBLINGS, v, [1, 2, 3, 4], 2) == (DepGraph.Clear, w);
    assert DepGraph.VisitAll(SIBLINGS, v, [1, 2, 3, 4], 1) == (DepGraph.Clear, w);
  }

  lemma SiblingsItems(lib: Lib)
    ensures |Siblings(lib).items| == 5 && Mentioned(Siblings(lib), [{}, {0}, {0, 3}, {0}, {}])
  {
    PlainItems("A", The(0), Some(0));
    PlainItems("B", And(The(3), The(0)), Some(0));
    PlainItems("C", The(0), Some(0));
    ModulesItems();
    OnePrompt(Y);
  }

  lemma SiblingsResolved(lib: Lib)
    ensures Resolved(Siblings(lib))
  {
    var c := Siblings(lib);
    ChoiceResolved(c, 0, Y, [1, 2, 3]);
    PlainResolved(c, 1, "A", The(0), Some(0));
    PlainResolved(c, 2, "B", And(The(3), The(0)), Some(0));
    PlainResolved(c, 3, "C", The(0), Some(0));
    ModulesResolved(c, 4);
    hide ResolvedSymbol, ResolvedChoice;
  }

  lemma SiblingsMatch(lib: Lib)
    ensures Matches(Siblings(lib), SIBLINGS) && AllRoots(Siblings(lib), SIBLINGS, [1, 2, 3, 4])
  {
    SiblingsItems(lib);
    SiblingsProper();
    hide Mentioned, DepGraph.Proper;
    MatchesFrom(Siblings(lib), SIBLINGS, [{}, {0}, {0, 3}, {0}, {}]);
    hide Matches;
    assert 1 in [1, 2, 3, 4] && 2 in [1, 2, 3, 4] && 3 in [1, 2, 3, 4] && 4 in [1, 2, 3, 4];
  }

  /** B's visibility needs C's value, that the selection, and that B's visibility. */
  lemma SiblingsUnordered(lib: Lib)
    ensures Unordered(Siblings(lib))
  {
    forall levels ensures !WellFormed(Siblings(lib).(levels := levels)) {
      var c := Siblings(lib).(levels := levels);
      if WellFormed(c) {
        ItemWellFormed(c, 0);
        ItemWellFormed(c, 2);
        ItemWellFormed(c, 3);
        SiblingsRise(c, lib);
      }
    }
  }

  lemma SiblingsRise(c: Config, lib: Lib)
    requires c == Siblings(lib).(levels := c.levels)
    ensures |c.items| == 5
    ensures WellFormedItem(c, 0) ==> VisLevel(c, 2) < SelLevel(c, 0)
    ensures WellFormedItem(c, 2) ==> TriLevel(c, 3) < VisLevel(c, 2)
    ensures WellFormedItem(c, 3) ==> SelLevel(c, 0) < TriLevel(c, 3)
  {
    assert c.items[0].syms[1] == 2;
    FirstPrompt(c, 2);
  }

  lemma FirstPrompt(c: Config, i: Id)
    requires i < |c.items| && c.items[i].prompts != []
    ensures WellFormedItem(c, i) ==> ExprBelow(c, c.items[i].prompts[0], VisLevel(c, i))
  {}

  lemma MissedSiblings(lib: Lib)
    ensures Missed(Siblings(lib), SIBLINGS, [1, 2, 3, 4])
  {
    SiblingsMatch(lib);
    SiblingsResolved(lib);
    SiblingsUnordered(lib);
    SiblingsProper();
    SiblingsPass();
  }

  // ---------------------------------------------------------------------
  // A symbol in a menu inside a choice
  // ---------------------------------------------------------------------

  /** A choice (0) with the given prompt, its symbol A (1), and N (2) in a menu inside the choice. */
  function WithMenu(lib: Lib, prompt: Expr, member: Expr): Config {
    Config([Choice(Bool, [prompt], [], [1], false), Plain("A", member, Some(0)), Plain("N", The(0), None), Modules([])], 3, lib, [])
  }

  /** The choice is shown if N is y. */
  const MENU_IN_CHOICE := DepGraph.Graph([[1, 2], [], [0], []], [true, false, false, false], [None, Some(0), None, None],
                                         [[1], [], [], []])

  lemma MenuShaped(g: DepGraph.Graph)
    requires |g.deps| == 4 && g.isChoice == [true, false, false, false] && g.choice == [None, Some(0), None, None]
    requires g.syms == [[1], [], [], []] && forall x, k :: 0 <= x < 4 && 0 <= k < |g.deps[x]| ==> g.deps[x][k] < 4
    ensures DepGraph.Proper(g)
  {
    assert g.syms[0][0] == 1;
  }

  lemma MenuProper()
    ensures DepGraph.Proper(MENU_IN_CHOICE) && |MENU_IN_CHOICE.deps| == 4 && DepGraph.Roots(MENU_IN_CHOICE, [1, 2, 3])
    ensures Passes(MENU_IN_CHOICE, [1, 2, 3])
  {
    MenuShaped(MENU_IN_CHOICE);
    hide DepGraph.Proper, Passes;
    assert DepLoops.Layered(MENU_IN_CHOICE, [1, 1, 0, 0]);
    PassesLayered(MENU_IN_CHOICE, [1, 1, 0, 0], [1, 2, 3]);
  }

  lemma WithMenuItems(lib: Lib, prompt: Expr, member: Expr)
    ensures |WithMenu(lib, prompt, member).items| == 4
    ensures Mentioned(WithMenu(lib, prompt, member), [ExprItems(prompt), ExprItems(member), {0}, {}])
  {
    PlainItems("A", member, Some(0));
    PlainItems("N", The(0), None);
    ModulesItems();
    OnePrompt(prompt);
  }

  lemma WithMenuResolved(lib: Lib, prompt: Expr, member: Expr)
    requires var c := WithMenu(lib, prompt, member); SoundExpr(c, prompt) && SoundExpr(c, member) && 0 in ExprItems(member)
    ensures Resolved(WithMenu(lib, prompt, member))
  {
    var c := WithMenu(lib, prompt, member);
    ChoiceResolved(c, 0, prompt, [1]);
    PlainResolved(c, 1, "A", member, Some(0));
    PlainResolved(c, 2, "N", The(0), None);
    ModulesResolved(c, 3);
    hide ResolvedSymbol, ResolvedChoice;
  }

  predicate MenuShape(g: DepGraph.Graph) {
    && DepGraph.Proper(g) && |g.deps| == 4 && g.isChoice == [true, false, false, false]
    && g.choice == [None, Some(0), None, None] && g.syms == [[1], [], [], []]
  }

  lemma WithMenuMatches(lib: Lib, prompt: Expr, member: Expr, g: DepGraph.Graph, ps: seq<set<Id>>)
    requires MenuShape(g) && ps == [ExprItems(prompt), ExprItems(member), {0}, {}]
    requires |g.deps| == |ps| && forall i: Id, d: Id :: i < |ps| ==> (d in g.deps[i] <==> d < |ps| && i in ps[d])
    ensures Matches(WithMenu(lib, prompt, member), g)
  {
    WithMenuItems(lib, prompt, member);
    var c := WithMenu(lib, prompt, member);
    hide Mentioned, DepGraph.Proper, ExprItems;
    forall i: Id | i < 4
      ensures g.isChoice[i] == c.items[i].Choice? && g.choice[i] == (if c.items[i].Symbol? then c.items[i].choice else None)
      ensures c.items[i].Choice? ==> g.syms[i] == c.items[i].syms
    {
      assert i == 0 || i == 1 || i == 2 || i == 3;
    }
    MatchesFrom(c, g, ps);
  }

  lemma WithMenuRoots(lib: Lib, prompt: Expr, member: Expr, g: DepGraph.Graph)
    requires MenuShape(g)
    ensures DepGraph.Roots(g, [1, 2, 3]) && AllRoots(WithMenu(lib, prompt, member), g, [1, 2, 3])
  {
    assert 1 in [1, 2, 3] && 2 in [1, 2, 3] && 3 in [1, 2, 3];
  }

  lemma MenuMatches(lib: Lib)
    ensures var c := WithMenu(lib, The(2), The(0));
      Resolved(c) && Matches(c, MENU_IN_CHOICE) && AllRoots(c, MENU_IN_CHOICE, [1, 2, 3])
  {
    assert ExprItems(The(2)) == {2} && ExprItems(The(0)) == {0};
    WithMenuResolved(lib, The(2), The(0));
    MenuProper();
    hide DepGraph.Proper, Passes, Resolved, ExprItems, Matches, AllRoots, WithMenu;
    WithMenuRoots(lib, The(2), The(0), MENU_IN_CHOICE);
    WithMenuMatches(lib, The(2), The(0), MENU_IN_CHOICE, [{2}, {0}, {0}, {}]);
  }

  /** The mode needs N, and N the mode. */
  lemma MenuUnordered(lib: Lib)
    ensures Unordered(WithMenu(lib, The(2), The(0)))
  {
    forall levels ensures !WellFormed(WithMenu(lib, The(2), The(0)).(levels := levels)) {
      var c := WithMenu(lib, The(2), The(0)).(levels := levels);
      if WellFormed(c) {
        ItemWellFormed(c, 0);
        ItemWellFormed(c, 2);
        MenuRises(c, lib);
      }
    }
  }

  lemma MenuRises(c: Config, lib: Lib)
    requires c == WithMenu(lib, The(2), The(0)).(levels := c.levels)
    ensures |c.items| == 4
    ensures WellFormedItem(c, 0) ==> TriLevel(c, 2) < VisLevel(c, 0) < TriLevel(c, 0)
    ensures WellFormedItem(c, 2) ==> TriLevel(c, 0) < VisLevel(c, 2) < TriLevel(c, 2)
  {
    FirstPrompt(c, 0);
    FirstPrompt(c, 2);
  }

  lemma MissedMenu(lib: Lib)
    ensures Missed(WithMenu(lib, The(2), The(0)), MENU_IN_CHOICE, [1, 2, 3])
  {
    MenuMatches(lib);
    MenuUnordered(lib);
    MenuProper();
  }

  /**
  If a symbol of the choice depends on N instead, there is a loop between items, but
  none between values: first the mode, then N, then the symbol's visibility, then the selection.
  */
  const MEMBER_ON_MENU := DepGraph.Graph([[1, 2], [], [1], []], [true, false, false, false], [None, Some(0), None, None],
                                         [[1], [], [], []])

  lemma MemberLayered()
    requires DepGraph.Proper(MEMBER_ON_MENU)
    ensures DepLoops.Layered(MEMBER_ON_MENU, [1, 1, 0, 0])
  {
    hide DepGraph.Proper;
    assert MEMBER_ON_MENU.deps[2][0] == 1;
  }

  lemma MemberProper()
    ensures DepGraph.Proper(MEMBER_ON_MENU) && |MEMBER_ON_MENU.deps| == 4 && DepGraph.Roots(MEMBER_ON_MENU, [1, 2, 3])
    ensures Passes(MEMBER_ON_MENU, [1, 2, 3])
  {
    MenuShaped(MEMBER_ON_MENU);
    hide DepGraph.Proper, Passes;
    MemberLayered();
    hide DepLoops.Layered;
    PassesLayered(MEMBER_ON_MENU, [1, 1, 0, 0], [1, 2, 3]);
  }

  function MemberOnMenu(lib: Lib): Config {
    WithMenu(lib, Y, And(The(2), The(0)))
  }

  lemma MemberMatches(lib: Lib)
    ensures var c := MemberOnMenu(lib); Resolved(c) && Matches(c, MEMBER_ON_MENU) && AllRoots(c, MEMBER_ON_MENU, [1, 2, 3])
  {
    var e := And(The(2), The(0));
    assert ExprItems(Y) == {} && ExprItems(e) == {0, 2};
    WithMenuResolved(lib, Y, e);
    MemberProper();
    hide DepGraph.Proper, Passes, Resolved, ExprItems, Matches, AllRoots, WithMenu;
    WithMenuRoots(lib, Y, e, MEMBER_ON_MENU);
    WithMenuMatches(lib, Y, e, MEMBER_ON_MENU, [{}, {0, 2}, {0}, {}]);
  }

  const MemberLevels: seq<Levels> := [Levels(0, 1, 5, 2, 1), Levels(4, 6, 0, 7, 5), Levels(2, 3, 0, 4, 3), Levels(0, 1, 0, 2, 1)]

  lemma MemberShown(lib: Lib)
    ensures var c := MemberOnMenu(lib).(levels := MemberLevels);
      |c.items| == 4 && ModeReadable(c.items[1]) && WellFormedItem(c, 1)
  {
    PlainItems("A", And(The(2), The(0)), Some(0));
    hide PropertyItems;
    var c := MemberOnMenu(lib).(levels := MemberLevels);
    assert c.items[1] == Plain("A", And(The(2), The(0)), Some(0)) && 0 in ExprItems(And(The(2), The(0)));
    assert ModeReadable(c.items[1]);
    assert LogicalBelow(c, 1);
    assert ExprBelow(c, c.items[1].prompts[0], VisLevel(c, 1));
    assert ExprsBelow(c, c.items[1].prompts, VisLevel(c, 1));
  }

  lemma MemberOrdered(lib: Lib)
    ensures WellFormed(MemberOnMenu(lib).(levels := MemberLevels))
  {
    MemberShown(lib);
    var c := MemberOnMenu(lib).(levels := MemberLevels);
    assert WellFormedItem(c, 0);
    assert WellFormedItem(c, 2);
    assert WellFormedItem(c, 3);
    hide WellFormedItem;
  }

  /** It passes and can be evaluated. */
  lemma LetThrough(lib: Lib)
    ensures var c := MemberOnMenu(lib);
      && Resolved(c) && Matches(c, MEMBER_ON_MENU) && AllRoots(c, MEMBER_ON_MENU, [1, 2, 3]) && Passes(MEMBER_ON_MENU, [1, 2, 3])
      && exists levels :: WellFormed(c.(levels := levels))
  {
    MemberMatches(lib);
    MemberProper();
    MemberOrdered(lib);
  }

  // ---------------------------------------------------------------------
  // MODULES
  // ---------------------------------------------------------------------

  /** MODULES (0) depends on the tristate symbol T (1), whose type depends on MODULES. */
  function ModulesOnTristate(lib: Lib): Config {
    Config([Modules([The(1)]), Symbol("T", Tristate, [Y], [], [], N, N, Y, None, true, false)], 0, lib, [])
  }

  const MODULES_ON_T := DepGraph.Graph([[], [0]], [false, false], [None, None], [[], []])

  lemma ModulesOnTMatches(lib: Lib)
    ensures var c := ModulesOnTristate(lib); Resolved(c) && Matches(c, MODULES_ON_T) && AllRoots(c, MODULES_ON_T, [0, 1])
  {
    var c := ModulesOnTristate(lib);
    OnePrompt(The(1));
    OnePrompt(Y);
    assert ResolvedSymbol(c, 0) && ResolvedSymbol(c, 1);
    hide ResolvedSymbol;
    assert Mentioned(c, [{1}, {}]);
    hide Mentioned;
    MatchesFrom(c, MODULES_ON_T, [{1}, {}]);
    assert 0 in [0, 1] && 1 in [0, 1];
  }

  lemma ModulesOnTUnordered(lib: Lib)
    ensures Unordered(ModulesOnTristate(lib))
  {
    forall levels ensures !WellFormed(ModulesOnTristate(lib).(levels := levels)) {
      var c := ModulesOnTristate(lib).(levels := levels);
      if WellFormed(c) {
        ItemWellFormed(c, 0);
        ItemWellFormed(c, 1);
        ModulesRise(c, lib);
      }
    }
  }

  lemma ModulesRise(c: Config, lib: Lib)
    requires c == ModulesOnTristate(lib).(levels := c.levels)
    ensures |c.items| == 2
    ensures WellFormedItem(c, 0) ==> TriLevel(c, 1) < VisLevel(c, 0) < TriLevel(c, 0)
    ensures WellFormedItem(c, 1) ==> TriLevel(c, 0) < VisLevel(c, 1) < TriLevel(c, 1)
  {
    FirstPrompt(c, 0);
  }

  lemma MissedModules(lib: Lib)
    ensures Missed(ModulesOnTristate(lib), MODULES_ON_T, [0, 1])
  {
    ModulesOnTMatches(lib);
    ModulesOnTUnordered(lib);
    assert MODULES_ON_T.deps[1][0] == 0;
    PassesLayered(MODULES_ON_T, [1, 0], [0, 1]);
  }

  // ---------------------------------------------------------------------
  // A false alarm
  // ---------------------------------------------------------------------

  /** A string symbol S (1) with a default on condition S, which always counts as n there. */
  function StringOnItself(lib: Lib): Config {
    Config([Modules([]), Symbol("S", String, [], [Default(Val(Operand.Const(Tristate, 0, "x")), The(1))], [], N, N, Y, None, true, false)],
           0, lib, [])
  }

  const STRING_ON_ITSELF := DepGraph.Graph([[], [1]], [false, false], [None, None], [[], []])

  lemma OneDefault(d: Default)
    ensures DefaultsItems([d]) == ExprItems(d.value) + ExprItems(d.cond)
  {
    assert [d][0] == d;
  }

  lemma StringMatches(lib: Lib)
    ensures var c := StringOnItself(lib); Resolved(c) && Matches(c, STRING_ON_ITSELF) && AllRoots(c, STRING_ON_ITSELF, [0, 1])
  {
    var c := StringOnItself(lib);
    OneDefault(c.items[1].defaults[0]);
    ModulesItems();
    assert ResolvedSymbol(c, 0) && ResolvedSymbol(c, 1);
    hide ResolvedSymbol;
    assert Mentioned(c, [{}, {1}]);
    hide Mentioned;
    MatchesFrom(c, STRING_ON_ITSELF, [{}, {1}]);
    assert 0 in [0, 1] && 1 in [0, 1];
  }

  lemma StringFails()
    requires DepGraph.Proper(STRING_ON_ITSELF) && DepGraph.Roots(STRING_ON_ITSELF, [0, 1])
    ensures !Passes(STRING_ON_ITSELF, [0, 1])
  {
    var g := STRING_ON_ITSELF;
    assert DepGraph.Fresh(g) == [0, 0];
    assert DepGraph.VisitSym(g, [0, 0], 0, false) == (DepGraph.Clear, [2, 0]) by {
      assert [0, 0][0 := 1] == [1, 0] && [1, 0][0 := 2] == [2, 0];
      assert DepGraph.VisitDeps(g, [1, 0], 0, 0) == (DepGraph.Clear, [1, 0]);
    }
    assert !DepGraph.VisitSym(g, [2, 0], 1, false).0.Clear? by {
      assert [2, 0][1 := 1] == [2, 1];
      assert DepGraph.VisitSym(g, [2, 1], 1, false).0.Partial?;
      assert DepGraph.VisitDeps(g, [2, 1], 1, 0).0.Partial?;
    }
    hide DepGraph.VisitSym;
    assert !DepGraph.VisitAll(g, [2, 0], [0, 1], 1).0.Clear?;
  }

  lemma StringOrdered(lib: Lib)
    ensures WellFormed(StringOnItself(lib).(levels := [Levels(0, 1, 0, 2, 1), Levels(0, 0, 0, 1, 0)]))
  {
    var c := StringOnItself(lib).(levels := [Levels(0, 1, 0, 2, 1), Levels(0, 0, 0, 1, 0)]);
    assert WellFormedItem(c, 0);
    assert WellFormedItem(c, 1);
  }

  /** It could be evaluated, and is refused. */
  lemma FalseAlarm(lib: Lib)
    ensures var c := StringOnItself(lib);
      && Resolved(c) && Matches(c, STRING_ON_ITSELF) && AllRoots(c, STRING_ON_ITSELF, [0, 1]) && !Passes(STRING_ON_ITSELF, [0, 1])
      && exists levels :: WellFormed(c.(levels := levels))
  {
    StringMatches(lib);
    StringOrdered(lib);
    StringFails();
  }
}
