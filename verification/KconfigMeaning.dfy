/**
What the values mean to a user of a configuration: which assignments take
effect, when m is possible, what a select guarantees and what a range does.
*/
module KconfigMeaning {
  import opened Options
  import opened KconfigModel
  import opened KconfigSemantics
  import opened KconfigValues

  /** What the rules of an item look at, under the values v. */
  function ViewOf(c: Config, v: Env, i: Id): View
    requires i < |c.items|
  {
    View(v, Readable(c, i))
  }

  /** The values obey the rules. */
  ghost predicate Obeys(c: Config, u: User, v: Env, i: Id)
    requires i < |c.items|
  {
    var w := ViewOf(c, v, i);
    && i in v.vis && i in v.tri && i in v.str && i in v.asg
    && Visibility(i, c, w) == Some(v.vis[i]) && TriValue(i, c, u, w) == Some(v.tri[i])
    && StrValue(i, c, u, w) == Some(v.str[i]) && Assignable(i, c, w) == Some(v.asg[i])
    && w.Vis(i) == Some(v.vis[i])
  }

  lemma ValuesObey(c: Config, us: Users, i: Id)
    requires WellFormed(c) && ValidUsers(c, us) && i < |c.items|
    ensures |us| == |c.items| && Obeys(c, us[i], Values(c, us), i)
  {
    assert |us| == |c.items|;
    hide Visibility, TriValue, StrValue, Assignable, Selection, WellFormed, ValidUsers, Values;
    ValuesExistUniquely(c, us);
    var v := Values(c, us);
    assert TotalAt(c, v, i) && JustifiedAt(c, UserOf(us, i), v, i);
  }

  // -- m ----------------------------------------------------------------------

  /** Bool items are never m, and neither is anything when MODULES is n. */
  lemma NeverM(c: Config, us: Users, i: Id)
    requires WellFormed(c) && ValidUsers(c, us) && i < |c.items|
    requires IsBoolTri(c.items[i].typ)
    ensures var v := Values(c, us);
      && i in v.tri && c.modules in v.tri
      && (c.items[i].typ.Bool? || v.tri[c.modules].0 == 0 ==> v.tri[i].0 != 1)
  {
    var v := Values(c, us);
    ValuesObey(c, us, i);
    ValuesObey(c, us, c.modules);
    hide Values, WellFormed, ValidUsers, ExprValue, Assignable, StrValue, BaseTri;
    if c.items[i].typ.Bool? || v.tri[c.modules].0 == 0 {
      BoolNeverM(c, us[i], v, i);
    }
  }

  lemma BoolNeverM(c: Config, u: User, v: Env, i: Id)
    requires i < |c.items| && IsBoolTri(c.items[i].typ) && Obeys(c, u, v, i)
    requires c.items[i].typ.Bool? || (c.modules in v.tri && v.tri[c.modules].0 == 0)
    ensures v.tri[i].0 != 1
  {
    hide ExprValue, Assignable, StrValue, BaseTri, WithSelect, PromptValue, HiddenByChoice, Readable;
    var w := ViewOf(c, v, i);
    assert c.modules in Readable(c, i) by { ModulesReadable(c, i); }
    assert TypeOf(i, c, w).Some? ==> TypeOf(i, c, w) == Some(Bool);
  }

  lemma ModulesReadable(c: Config, i: Id)
    requires i < |c.items|
    ensures c.modules in Readable(c, i)
  {}

  // -- selects -----------------------------------------------------------------

  /** Outside choices a symbol is at least what selects it, whatever the user says. */
  lemma SelectGuarantees(c: Config, us: Users, i: Id)
    requires WellFormed(c) && ValidUsers(c, us) && i < |c.items|
    requires c.items[i].Symbol? && c.items[i].choice.None? && IsBoolTri(c.items[i].typ)
    ensures var v := Values(c, us);
      var rev := ExprValue(c.items[i].revDep, c, ViewOf(c, v, i));
      && rev.Some? && i in v.tri && v.tri[i].0 >= rev.value
  {
    ValuesObey(c, us, i);
    hide Values, WellFormed, ValidUsers, Obeys;
    SelectedAtLeast(c, us[i], Values(c, us), i);
  }

  lemma SelectedAtLeast(c: Config, u: User, v: Env, i: Id)
    requires i < |c.items| && c.items[i].Symbol? && c.items[i].choice.None? && IsBoolTri(c.items[i].typ) && Obeys(c, u, v, i)
    ensures var rev := ExprValue(c.items[i].revDep, c, ViewOf(c, v, i));
      rev.Some? && v.tri[i].0 >= rev.value
  {
    hide ExprValue, Assignable, StrValue, Visibility, BaseTri, TypeOf, Readable;
  }

  // -- ranges ------------------------------------------------------------------

  /** str() and hex() render numbers that int() reads back, and the empty string is no number. */
  ghost predicate LibOk(lib: Lib) {
    && (forall n: int, base: nat :: lib.parseInt(lib.render(n, base), base) == Some(n))
    && (forall base: nat :: lib.parseInt("", base) == None)
  }

  lemma RenderReads(lib: Lib, n: int, base: nat)
    requires LibOk(lib)
    ensures lib.parseInt(lib.render(n, base), base) == Some(n)
  {}

  /** A string as a number; what does not parse counts as zero. */
  function NumberOf(c: Config, t: Type, s: string): int {
    c.lib.parseInt(s, Base(t)).GetOr(0)
  }

  /** The value of a number with an active range lies in it, wherever the value comes from, unless the range is empty. */
  lemma NumberInRange(c: Config, us: Users, i: Id)
    requires WellFormed(c) && ValidUsers(c, us) && LibOk(c.lib) && i < |c.items|
    requires c.items[i].Symbol? && (c.items[i].typ.Int? || c.items[i].typ.Hex?)
    ensures var v := Values(c, us);
      var range := ActiveRange(c.items[i].typ, c.items[i].ranges, 0, c, ViewOf(c, v, i));
      && range.Some? && i in v.str
      && (range.value.Some? && range.value.value.0 <= range.value.value.1 ==>
            InRange(range.value, NumberOf(c, c.items[i].typ, v.str[i].0)))
  {
    ValuesObey(c, us, i);
    hide Values, WellFormed, ValidUsers, Obeys;
    NumberClamped(c, us[i], Values(c, us), i);
  }

  lemma NumberClamped(c: Config, u: User, v: Env, i: Id)
    requires i < |c.items| && Obeys(c, u, v, i) && LibOk(c.lib)
    requires c.items[i].Symbol? && (c.items[i].typ.Int? || c.items[i].typ.Hex?)
    ensures var range := ActiveRange(c.items[i].typ, c.items[i].ranges, 0, c, ViewOf(c, v, i));
      && range.Some?
      && (range.value.Some? && range.value.value.0 <= range.value.value.1 ==>
            InRange(range.value, NumberOf(c, c.items[i].typ, v.str[i].0)))
  {
    hide ExprValue, Assignable, TriValue, Visibility, ActiveRange, DefaultStr, Readable, Clamp, LibOk;
    var d, w := c.items[i], ViewOf(c, v, i);
    var range := ActiveRange(d.typ, d.ranges, 0, c, w);
    if range.Some? {
      var default := DefaultStr(d, c, w);
      if default.Some? {
        ClampInRange(c, d.typ, range.value, default.value.GetOr(""));
      }
    }
  }

  lemma ClampInRange(c: Config, t: Type, range: Option<(int, int)>, s: string)
    requires LibOk(c.lib)
    ensures range.Some? && range.value.0 <= range.value.1 ==> InRange(range, NumberOf(c, t, Clamp(t, range, s, c.lib)))
  {
    if range.Some? {
      RenderReads(c.lib, range.value.0, Base(t));
      RenderReads(c.lib, range.value.1, Base(t));
    }
  }

  // -- assignable values -----------------------------------------------------------

  /** The values below a level. */
  function Cut(c: Config, v: Env, level: nat): Env {
    Env(map j | j in v.vis && VisLevel(c, j) < level :: v.vis[j],
        map j | j in v.tri && TriLevel(c, j) < level :: v.tri[j],
        map j | j in v.str && StrLevel(c, j) < level :: v.str[j],
        map j | j in v.sel && SelLevel(c, j) < level :: v.sel[j],
        map[])
  }

  lemma CutCovers(c: Config, v: Env, level: nat, r: set<Id>, lower: nat)
    requires lower <= level
    ensures Covers(c, v, Cut(c, v, level), r, lower)
  {
    hide VisLevel, TriLevel, StrLevel, SelLevel;
  }

  /** One item's values below a level stay justified. */
  lemma CutJustifiedAt(c: Config, u: User, v: Env, level: nat, j: Id)
    requires WellFormed(c) && j < |c.items| && ValidSelection(c, j, u) && JustifiedAt(c, u, v, j)
    ensures JustifiedAt(c, u, Cut(c, v, level), j)
  {
    hide Visibility, TriValue, StrValue, Selection, Assignable, Readable, WellFormed, Covers, VisLevel, TriLevel, StrLevel, SelLevel,
      ValidSelection;
    var f, r := Cut(c, v, level), Readable(c, j);
    if j in f.vis {
      CutCovers(c, v, level, r, VisLevel(c, j));
      VisibilityStable(j, c, v, f);
    }
    if j in f.tri {
      JustifiedNotSeen(c, u, v, j);
      CutCovers(c, v, level, r, TriLevel(c, j));
      TriValueStable(j, c, u, v, f);
    }
    if j in f.str {
      CutCovers(c, v, level, r, StrLevel(c, j));
      StrValueStable(j, c, u, v, f);
    }
    if j in f.sel {
      CutCovers(c, v, level, r, SelLevel(c, j));
      SelectionStable(j, c, u, v, f);
    }
  }

  /** Below its own value, an item's settings play no role. */
  lemma OwnUserIrrelevant(c: Config, u: User, u': User, f: Env, i: Id)
    requires i < |c.items| && JustifiedAt(c, u, f, i) && i !in f.str && i !in f.sel
    requires c.items[i].Choice? || IsBoolTri(c.items[i].typ) ==> i !in f.tri
    ensures JustifiedAt(c, u', f, i)
  {
    hide Visibility, Readable, Assignable, StrValue, Selection;
  }

  lemma CutBelowOwn(c: Config, v: Env, i: Id)
    requires WellFormed(c) && i < |c.items| && (i in v.sel ==> IsChoice(c, i))
    ensures var f := Cut(c, v, ValueLevel(c, i));
      && i !in f.str && i !in f.sel && (c.items[i].Choice? || IsBoolTri(c.items[i].typ) ==> i !in f.tri)
  {
    hide WellFormed;
    if c.items[i].Choice? || IsBoolTri(c.items[i].typ) {
      LogicalFacts(c, i);
    }
  }

  /** A change of one item's settings leaves the values below its own as they are. */
  lemma BelowChange(c: Config, us: Users, us': Users, i: Id)
    requires WellFormed(c) && ValidUsers(c, us) && ValidUsers(c, us') && i < |c.items|
    requires forall j: Id :: j < |us| && j != i ==> us'[j] == us[j]
    ensures Within(Cut(c, Values(c, us), ValueLevel(c, i)), Values(c, us'))
  {
    var v := Values(c, us);
    var f := Cut(c, v, ValueLevel(c, i));
    forall j: Id ensures JustifiedAt(c, UserOf(us', j), f, j) {
      CutJustified(c, us, us', i, j);
    }
    hide Values, WellFormed, ValidUsers, JustifiedAt, Cut;
    ValuesExistUniquely(c, us');
  }

  lemma CutJustified(c: Config, us: Users, us': Users, i: Id, j: Id)
    requires WellFormed(c) && ValidUsers(c, us) && |us'| == |us| && i < |c.items|
    requires forall k: Id :: k < |us| && k != i ==> us'[k] == us[k]
    ensures JustifiedAt(c, UserOf(us', j), Cut(c, Values(c, us), ValueLevel(c, i)), j)
  {
    var v, level := Values(c, us), ValueLevel(c, i);
    assert |us| == |c.items| && (j < |us| ==> ValidSelection(c, j, us[j]));
    hide Values, WellFormed, JustifiedAt, ValidUsers, ValueLevel, ValidSelection, Cut;
    ValuesJustified(c, us, j);
    if j < |c.items| {
      CutJustifiedAt(c, us[j], v, level, j);
      if j == i {
        OwnSelection(c, us[i], v, i);
        CutBelowOwn(c, v, i);
        OwnUserIrrelevant(c, us[i], us'[i], Cut(c, v, level), i);
      }
    } else {
      NothingOutside(c, us, v, level, j);
    }
  }

  lemma OwnSelection(c: Config, u: User, v: Env, i: Id)
    requires JustifiedAt(c, u, v, i)
    ensures i in v.sel ==> IsChoice(c, i)
  {}

  lemma NothingOutside(c: Config, us: Users, v: Env, level: nat, j: Id)
    requires j >= |c.items| && JustifiedAt(c, UserOf(us, j), v, j)
    ensures forall u :: JustifiedAt(c, u, Cut(c, v, level), j)
  {}

  lemma ValuesJustified(c: Config, us: Users, j: Id)
    requires WellFormed(c) && ValidUsers(c, us)
    ensures JustifiedAt(c, UserOf(us, j), Values(c, us), j)
  {
    hide Values, WellFormed, ValidUsers, JustifiedAt;
    ValuesExistUniquely(c, us);
  }

  /** The value after a change is what its rule computes from the values before. */
  lemma ValueAfterChange(c: Config, us: Users, us': Users, i: Id)
    requires WellFormed(c) && ValidUsers(c, us) && ValidUsers(c, us') && i < |c.items|
    requires forall j: Id :: j < |us| && j != i ==> us'[j] == us[j]
    ensures |us'| == |c.items| && i in Values(c, us').tri && i in Values(c, us').str
    ensures TriValue(i, c, us'[i], ViewOf(c, Values(c, us), i)) == Some(Values(c, us').tri[i])
    ensures c.items[i].Symbol? && !IsBoolTri(c.items[i].typ) ==>
              StrValue(i, c, us'[i], ViewOf(c, Values(c, us), i)) == Some(Values(c, us').str[i])
    ensures c.items[i].Choice? || IsBoolTri(c.items[i].typ) ==> Values(c, us').str[i].0 == TriToStr(Values(c, us').tri[i].0)
  {
    ValuesObey(c, us', i);
    BelowChange(c, us, us', i);
    ValuesJustified(c, us, i);
    var v, w, level := Values(c, us), Values(c, us'), ValueLevel(c, i);
    CompleteBelow(c, us, level);
    var f, r := Cut(c, v, level), Readable(c, i);
    CutNotSeen(c, us[i], v, level, i);
    hide Values, WellFormed, ValidUsers, TriValue, Visibility, Assignable, Readable, Covers, Complete, TextStr, NumberStr, JustifiedAt,
      NotSeen, Cut;
    CutCovers(c, v, level, r, level);
    WithinIsCovered(c, f, w, r, level);
    if c.items[i].Choice? || IsBoolTri(c.items[i].typ) {
      TriAfterChange(c, us'[i], v, f, w, i);
    } else {
      StrAfterChange(c, us'[i], v, f, w, i);
    }
  }

  lemma CutNotSeen(c: Config, u: User, v: Env, level: nat, i: Id)
    requires JustifiedAt(c, u, v, i)
    ensures NotSeen(c, v, i) && NotSeen(c, Cut(c, v, level), i)
  {
    hide NeverShown, JustifiedAt;
    JustifiedNotSeen(c, u, v, i);
  }

  lemma TriAfterChange(c: Config, u: User, v: Env, f: Env, w: Env, i: Id)
    requires WellFormed(c) && i < |c.items| && Obeys(c, u, w, i) && Complete(c, v, TriLevel(c, i))
    requires Covers(c, v, f, Readable(c, i), TriLevel(c, i)) && Covers(c, f, w, Readable(c, i), TriLevel(c, i))
    requires NotSeen(c, v, i) && NotSeen(c, f, i)
    ensures TriValue(i, c, u, ViewOf(c, v, i)) == Some(w.tri[i])
  {
    hide WellFormed, TriValue, Visibility, StrValue, Assignable, Readable, Covers, Complete, NotSeen;
    TriValueStable(i, c, u, v, f);
    TriValueStable(i, c, u, f, w);
  }

  lemma StrAfterChange(c: Config, u: User, v: Env, f: Env, w: Env, i: Id)
    requires WellFormed(c) && i < |c.items| && Obeys(c, u, w, i) && Complete(c, v, StrLevel(c, i))
    requires Covers(c, v, f, Readable(c, i), StrLevel(c, i)) && Covers(c, f, w, Readable(c, i), StrLevel(c, i))
    requires c.items[i].Symbol? && !IsBoolTri(c.items[i].typ)
    ensures StrValue(i, c, u, ViewOf(c, v, i)) == Some(w.str[i]) && TriValue(i, c, u, ViewOf(c, v, i)) == Some(w.tri[i])
  {
    hide WellFormed, Visibility, Assignable, Readable, Covers, Complete, TextStr, NumberStr;
    if !c.items[i].typ.Unknown? {
      TextStable(i, c, u, v, f);
      TextStable(i, c, u, f, w);
    }
  }

  lemma WithinIsCovered(c: Config, f: Env, w: Env, r: set<Id>, level: nat)
    requires Within(f, w)
    ensures Covers(c, f, w, r, level)
  {
    forall i: Id | i in r ensures CoversAt(c, f, w, level, i) {
      assert WithinAt(f, w, i);
    }
  }

  lemma CompleteBelow(c: Config, us: Users, level: nat)
    requires WellFormed(c) && ValidUsers(c, us)
    ensures Complete(c, Values(c, us), level)
  {
    hide Values, WellFormed, ValidUsers, TriLevel, VisLevel, StrLevel, SelLevel;
    ValuesExistUniquely(c, us);
    var v := Values(c, us);
    forall j: Id | j < |c.items| ensures j in v.vis && j in v.tri && j in v.str && (IsChoice(c, j) ==> j in v.sel) {
      assert TotalAt(c, v, j);
    }
  }

  /** The one case the assignable values of a symbol get wrong. */
  predicate Misjudged(c: Config, v: Env, i: Id)
    requires i < |c.items|
  {
    var w := ViewOf(c, v, i);
    && c.items[i].Symbol? && i in v.vis && v.vis[i] == 1
    && ExprValue(c.items[i].revDep, c, w) == Some(1) && ExprValue(c.items[i].weakRevDep, c, w) == Some(2)
  }

  /**
  The assignable values of a choice, or of a symbol outside choices, are exactly
  the user values that a visible item then has, unless an m-visible symbol is
  selected to m and implied to y. Then m is offered, but any assignment gives y.
  */
  lemma AssignableExact(c: Config, us: Users, i: Id, t: Tri)
    requires WellFormed(c) && ValidUsers(c, us) && i < |c.items|
    requires c.items[i].Choice? || c.items[i].choice.None?
    requires ValidFor(c.lib, c.items[i].typ, UTri(t))
    ensures |us| == |c.items|
    ensures var v := Values(c, us);
      var w := Values(c, us[i := us[i].(value := Some(UTri(t)))]);
      && i in v.asg && i in v.vis && i in w.tri
      && (!Misjudged(c, v, i) ==> (t in v.asg[i] <==> v.vis[i] != 0 && w.tri[i].0 == t))
      && (Misjudged(c, v, i) ==> v.asg[i] == [1] && w.tri[i].0 == 2)
  {
    var us' := us[i := us[i].(value := Some(UTri(t)))];
    StillValid(c, us, i, t);
    ValuesObey(c, us, i);
    ValueAfterChange(c, us, us', i);
    var v := Values(c, us);
    hide Values, WellFormed, ValidUsers, StrValue;
    if c.items[i].Choice? {
      ChoiceCases(c, v, us[i], us'[i], i, t);
    } else {
      SymbolCases(c, v, us[i], us'[i], i, t);
    }
  }

  lemma StillValid(c: Config, us: Users, i: Id, t: Tri)
    requires ValidUsers(c, us) && i < |c.items| && ValidFor(c.lib, c.items[i].typ, UTri(t))
    ensures |us| == |c.items| && ValidUsers(c, us[i := us[i].(value := Some(UTri(t)))])
  {}

  lemma ChoiceCases(c: Config, v: Env, u: User, u': User, i: Id, t: Tri)
    requires i < |c.items| && c.items[i].Choice? && Obeys(c, u, v, i) && UserTri(u') == Some(t)
    requires ValidFor(c.lib, c.items[i].typ, UTri(t)) && TriValue(i, c, u', ViewOf(c, v, i)).Some?
    ensures t in v.asg[i] <==> v.vis[i] != 0 && TriValue(i, c, u', ViewOf(c, v, i)).value.0 == t
  {
    hide ExprValue, StrValue, PromptValue, HiddenByChoice, Readable;
  }

  lemma SymbolCases(c: Config, v: Env, u: User, u': User, i: Id, t: Tri)
    requires i < |c.items| && c.items[i].Symbol? && c.items[i].choice.None? && Obeys(c, u, v, i) && UserTri(u') == Some(t)
    requires ValidFor(c.lib, c.items[i].typ, UTri(t)) && TriValue(i, c, u', ViewOf(c, v, i)).Some?
    ensures var x := TriValue(i, c, u', ViewOf(c, v, i)).value.0;
      && (!Misjudged(c, v, i) ==> (t in v.asg[i] <==> v.vis[i] != 0 && x == t))
      && (Misjudged(c, v, i) ==> v.asg[i] == [1] && x == 2)
  {
    hide ExprValue, StrValue, PromptValue, HiddenByChoice, Readable;
  }

  /** A tristate symbol with an m prompt, selected to m and implied to y, in a configuration with modules. */
  function Example(lib: Lib): Config {
    var y, m, n := Val(Operand.Const(Tristate, 2, "y")), Val(Operand.Const(Tristate, 1, "m")), Val(Operand.Const(Tristate, 0, "n"));
    Config([Symbol("MODULES", Bool, [], [Default(y, y)], [], n, n, y, None, true, false),
            Symbol("A", Tristate, [m], [], [], m, y, y, None, true, false)],
           0, lib, [Levels(0, 1, 0, 2, 1), Levels(2, 3, 0, 4, 3)])
  }

  /** The misjudged case exists: A offers only m, and any assignment, m included, makes it y. */
  lemma MisjudgedExample(lib: Lib, t: Tri)
    ensures var c, us := Example(lib), [User(None, None), User(None, None)];
      && WellFormed(c) && ValidUsers(c, us)
      && var v, w := Values(c, us), Values(c, us[1 := User(Some(UTri(t)), None)]);
         1 in v.asg && v.asg[1] == [1] && 1 in w.tri && w.tri[1].0 == 2
  {
    var c, us := Example(lib), [User(None, None), User(None, None)];
    ExampleWellFormed(lib);
    ValuesObey(c, us, 0);
    ValuesObey(c, us, 1);
    var v := Values(c, us);
    hide Values, WellFormed, ValidUsers;
    ExampleModules(lib, v);
    ExampleMisjudged(lib, v);
    AssignableExact(c, us, 1, t);
  }

  lemma ExampleWellFormed(lib: Lib)
    ensures var c, us := Example(lib), [User(None, None), User(None, None)];
      WellFormed(c) && ValidUsers(c, us) && ValidFor(lib, Tristate, UTri(0))
  {
    var c := Example(lib);
    assert WellFormedItem(c, 0);
    assert WellFormedItem(c, 1);
  }

  lemma ExampleModules(lib: Lib, v: Env)
    requires Obeys(Example(lib), User(None, None), v, 0)
    ensures v.tri[0].0 == 2
  {
    var c := Example(lib);
    var w := ViewOf(c, v, 0);
    assert PromptValue([], 0, c, w) == Some(0);
    assert ActiveDefault(c.items[0].defaults, 0, c, w).Some?;
  }

  lemma ExampleMisjudged(lib: Lib, v: Env)
    requires Obeys(Example(lib), User(None, None), v, 1) && 0 in v.tri && v.tri[0].0 == 2
    ensures Misjudged(Example(lib), v, 1)
  {
    var c := Example(lib);
    var w := ViewOf(c, v, 1);
    hide TriValue, StrValue, Assignable;
    assert 0 in Readable(c, 1) by { ModulesReadable(c, 1); }
    assert PromptValue(c.items[1].prompts, 1, c, w) == Some(1) by {
      assert PromptValue(c.items[1].prompts, 0, c, w) == Some(0);
    }
  }
}
