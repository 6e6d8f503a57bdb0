/**
What assignments do to values: offered values take effect, resetting undoes
them, and setting a choice symbol to y selects it.
*/
module KconfigOperations {
  import opened Options
  import opened KconfigModel
  import opened KconfigSemantics
  import opened KconfigValues
  import opened KconfigSettings
  import opened KconfigChoice
  import opened KconfigMeaning

  /** What is assignable is valid for the type. */
  lemma AssignableIsValid(c: Config, us: Users, i: Id, t: Tri)
    requires WellFormed(c) && ValidUsers(c, us) && i < |c.items| && c.items[i].Symbol? && c.items[i].choice.None?
    requires i in Values(c, us).asg && t in Values(c, us).asg[i]
    ensures ValidFor(c.lib, c.items[i].typ, UTri(t))
  {
    ValuesObey(c, us, i);
    hide Values, WellFormed, ValidUsers, Obeys;
    OfferedIsValid(c, us, Values(c, us), i, t);
  }

  lemma OfferedIsValid(c: Config, us: Users, v: Env, i: Id, t: Tri)
    requires i < |c.items| && i < |us| && c.items[i].Symbol? && c.items[i].choice.None? && Obeys(c, us[i], v, i)
    requires t in v.asg[i]
    ensures ValidFor(c.lib, c.items[i].typ, UTri(t))
  {
    hide ExprValue, StrValue, PromptValue, HiddenByChoice, Readable, TriValue;
  }

  /** Assigning an assignable value succeeds and gives the symbol that value. */
  lemma AssignmentTakesEffect(c: Config, s: UserState, i: Id, t: Tri)
    requires WellFormed(c) && ValidState(c, s) && i < |c.items| && c.items[i].Symbol? && c.items[i].choice.None?
    requires i in Values(c, s.us).asg && t in Values(c, s.us).asg[i] && !Misjudged(c, Values(c, s.us), i)
    ensures var (s1, ok) := SetSymbol(c, s, i, UTri(t));
      && ok && ValidState(c, s1) && i in Values(c, s1.us).tri && Values(c, s1.us).tri[i].0 == t
  {
    AssignableIsValid(c, s.us, i, t);
    PlainAssignment(c, s, i, t);
    hide WellFormed, ValidUsers, Values, SetSymbol, Misjudged;
    AssignableExact(c, s.us, i, t);
  }

  /** A valid assignment outside choices stores the value, if it is not there already. */
  lemma PlainAssignment(c: Config, s: UserState, i: Id, t: Tri)
    requires WellFormed(c) && ValidState(c, s) && i < |c.items| && c.items[i].Symbol? && c.items[i].choice.None?
    requires ValidFor(c.lib, c.items[i].typ, UTri(t))
    ensures |s.us| == |c.items|
    ensures var (s1, ok) := SetSymbol(c, s, i, UTri(t));
      ok && ValidState(c, s1) && s1.us == s.us[i := s.us[i].(value := Some(UTri(t)))]
  {
    ChangesKeepValid(c, s, i, UTri(t));
    assert |s.us| == |c.items|;
    hide WellFormed, ValidUsers;
    assert s.us[i].value == Some(UTri(t)) ==> s.us[i := s.us[i].(value := Some(UTri(t)))] == s.us;
  }

  /**
  Assigning a valid text succeeds. A visible string symbol then has it as its
  value, and an int or hex symbol exactly if the number is in the active range.
  */
  lemma TextTakesEffect(c: Config, s: UserState, i: Id, text: string)
    requires WellFormed(c) && ValidState(c, s) && LibOk(c.lib) && i < |c.items| && c.items[i].Symbol?
    requires ValidFor(c.lib, c.items[i].typ, UStr(text))
    requires i in Values(c, s.us).vis && Values(c, s.us).vis[i] != 0
    ensures var (s1, ok) := SetSymbol(c, s, i, UStr(text));
      var d, v, w := c.items[i], Values(c, s.us), Values(c, s1.us);
      && ok && i in w.str
      && (d.typ.String? ==> w.str[i].0 == text)
      && (!d.typ.String? ==>
            var range := ActiveRange(d.typ, d.ranges, 0, c, ViewOf(c, v, i));
            && range.Some?
            && (InRange(range.value, NumberOf(c, d.typ, text)) ==> w.str[i].0 == text)
            && (range.value.Some? && range.value.value.0 <= range.value.value.1 && w.str[i].0 == text ==>
                  InRange(range.value, NumberOf(c, d.typ, text))))
  {
    ChangesKeepValid(c, s, i, UStr(text));
    var us' := SetSymbol(c, s, i, UStr(text)).0.us;
    assert |s.us| == |c.items| && UserStr(us'[i]) == Some(text) && SetSymbol(c, s, i, UStr(text)).1;
    assert forall j: Id :: j < |s.us| && j != i ==> us'[j] == s.us[j];
    hide WellFormed, ValidUsers, Values, SetSymbol;
    ValueAfterChange(c, s.us, us', i);
    ValuesObey(c, s.us, i);
    hide Obeys;
    TextRule(c, s.us[i], us'[i], Values(c, s.us), i, text);
  }

  lemma TextRule(c: Config, u: User, u': User, v: Env, i: Id, text: string)
    requires LibOk(c.lib) && i < |c.items| && c.items[i].Symbol? && Obeys(c, u, v, i) && UserStr(u') == Some(text) && v.vis[i] != 0
    requires ValidFor(c.lib, c.items[i].typ, UStr(text))
    requires StrValue(i, c, u', ViewOf(c, v, i)).Some?
    ensures var d := c.items[i];
      var x := StrValue(i, c, u', ViewOf(c, v, i)).value.0;
      && (d.typ.String? ==> x == text)
      && (!d.typ.String? ==>
            var range := ActiveRange(d.typ, d.ranges, 0, c, ViewOf(c, v, i));
            && range.Some?
            && (InRange(range.value, NumberOf(c, d.typ, text)) ==> x == text)
            && (range.value.Some? && range.value.value.0 <= range.value.value.1 && x == text ==>
                  InRange(range.value, NumberOf(c, d.typ, text))))
  {
    hide ExprValue, Assignable, TriValue, Visibility, ActiveRange, DefaultStr, Readable, Clamp;
    var d, w := c.items[i], ViewOf(c, v, i);
    var range, default := ActiveRange(d.typ, d.ranges, 0, c, w), DefaultStr(d, c, w);
    if !d.typ.String? && default.Some? && range.Some? {
      ClampInRange(c, d.typ, range.value, default.value.GetOr(""));
    }
  }

  /** Resetting a symbol that had no user value undoes any assignment to it, inside choices up to the selection. */
  lemma UnsetUndoes(c: Config, s: UserState, i: Id, value: UserValue)
    requires WellFormed(c) && ValidState(c, s) && i < |c.items| && c.items[i].Symbol? && s.us[i].value.None?
    ensures |s.us| == |c.items|
    ensures var s1 := SetSymbol(c, s, i, value).0;
      && |s1.us| == |s.us|
      && (forall j: Id :: j < |s.us| && c.items[i].choice != Some(j) ==> UnsetSymbol(s1, i).us[j] == s.us[j])
      && (forall j: Id :: j < |s.us| ==> UnsetSymbol(s1, i).us[j].value == s.us[j].value)
  {
    assert WellFormedItem(c, i);
  }

  // -- selecting in a choice --------------------------------------------------------

  /** The mode of a choice does not depend on what is selected in it. */
  lemma ModeIgnoresSelection(c: Config, u: User, u': User, f: Env, ch: Id)
    requires IsChoice(c, ch) && JustifiedAt(c, u, f, ch) && u'.value == u.value && ch !in f.sel
    ensures JustifiedAt(c, u', f, ch)
  {
    hide Visibility, Assignable, Readable, Selection;
  }

  /** The settings after choosing i in its choice. */
  function Chosen(us: Users, i: Id, ch: Id): Users
    requires i < |us| && ch < |us|
  {
    PutSelection(PutValue(us, i, Some(UTri(2))), ch, Some(i))
  }

  predicate InChoice(c: Config, i: Id, ch: Id) {
    i < |c.items| && c.items[i].Symbol? && c.items[i].choice == Some(ch) && IsChoice(c, ch) && IsBoolTri(c.items[i].typ)
  }

  /** Mode, visibility of a symbol, selection, value of a symbol. */
  lemma ChoiceLevels(c: Config, i: Id, ch: Id)
    requires WellFormed(c) && InChoice(c, i, ch)
    ensures TriLevel(c, ch) < SelLevel(c, ch) && VisLevel(c, i) < SelLevel(c, ch)
    ensures SelLevel(c, ch) < TriLevel(c, i) && TriLevel(c, i) < StrLevel(c, i)
  {
    assert WellFormedItem(c, i) && WellFormedItem(c, ch);
  }

  lemma CutSurvivesChoosing(c: Config, us: Users, i: Id, ch: Id, j: Id)
    requires WellFormed(c) && ValidUsers(c, us) && InChoice(c, i, ch)
    ensures |us| == |c.items|
    ensures JustifiedAt(c, UserOf(Chosen(us, i, ch), j), Cut(c, Values(c, us), SelLevel(c, ch)), j)
  {
    assert |us| == |c.items| && (j < |us| ==> ValidSelection(c, j, us[j]));
    var v, level := Values(c, us), SelLevel(c, ch);
    var f := Cut(c, v, level);
    hide Values, WellFormed, ValidUsers, JustifiedAt, Cut, ValidSelection, SelLevel;
    ValuesJustified(c, us, j);
    if j < |c.items| {
      CutJustifiedAt(c, us[j], v, level, j);
      if j == i {
        CutLacks(c, us[i], v, i, ch, i);
        OwnUserIrrelevant(c, us[i], Chosen(us, i, ch)[i], f, i);
      } else if j == ch {
        CutLacks(c, us[ch], v, i, ch, ch);
        ModeIgnoresSelection(c, us[ch], Chosen(us, i, ch)[ch], f, ch);
      }
    } else {
      NothingOutside(c, us, v, level, j);
    }
  }

  /** The selection and what comes after it lie above the cut. */
  lemma CutLacks(c: Config, u: User, v: Env, i: Id, ch: Id, j: Id)
    requires WellFormed(c) && InChoice(c, i, ch)
    requires (j == i || j == ch) && JustifiedAt(c, u, v, j)
    ensures var f := Cut(c, v, SelLevel(c, ch));
      j !in f.sel && (j == i ==> i !in f.tri && i !in f.str)
  {
    ChoiceLevels(c, i, ch);
    assert j in v.sel ==> IsChoice(c, j);
    hide WellFormed, JustifiedAt;
  }

  /**
  Setting a visible symbol of a y-mode choice to y makes it the selection: it
  becomes y, all others n, and the mode stays.
  */
  lemma SelectingTakesEffect(c: Config, s: UserState, i: Id, ch: Id)
    requires WellFormed(c) && ValidState(c, s) && LogicalChoice(c, ch)
    requires i < |c.items| && c.items[i].Symbol? && c.items[i].choice == Some(ch) && i in c.items[ch].syms
    requires var v := Values(c, s.us); ch in v.tri && v.tri[ch].0 == 2 && i in v.vis && v.vis[i] != 0
    ensures var (s1, ok) := SetSymbol(c, s, i, UTri(2));
      var w := Values(c, s1.us);
      && ok && ValidState(c, s1) && ch in w.tri && w.tri[ch].0 == 2 && ch in w.sel && w.sel[ch] == Some(i)
      && forall m :: m in c.items[ch].syms ==> m in w.tri && w.tri[m].0 == if m == i then 2 else 0
  {
    ChangesKeepValid(c, s, i, UTri(2));
    assert SetSymbol(c, s, i, UTri(2)) == (UserState(Chosen(s.us, i, ch), s.touched + {i, ch}), true) by {
      assert IsBoolTri(c.items[i].typ);
    }
    var us1 := Chosen(s.us, i, ch);
    SelectionAfter(c, s.us, i, ch);
    hide WellFormed, ValidUsers, Values, SetSymbol;
    ChoiceExclusive(c, us1, ch);
  }

  lemma SelectionAfter(c: Config, us: Users, i: Id, ch: Id)
    requires WellFormed(c) && ValidUsers(c, us) && IsChoice(c, ch) && i in c.items[ch].syms
    requires i < |c.items| && c.items[i].Symbol? && c.items[i].choice == Some(ch)
    requires |us| == |c.items| && ValidUsers(c, Chosen(us, i, ch))
    requires var v := Values(c, us); ch in v.tri && v.tri[ch].0 == 2 && i in v.vis && v.vis[i] != 0
    ensures var w := Values(c, Chosen(us, i, ch));
      ch in w.tri && w.tri[ch].0 == 2 && ch in w.sel && w.sel[ch] == Some(i)
  {
    var us1 := Chosen(us, i, ch);
    ChosenKeepsBelow(c, us, i, ch);
    var w := Values(c, us1);
    assert i in Readable(c, ch);
    hide WellFormed, ValidUsers, Values, Visibility, TriValue, StrValue, Assignable, Readable;
    ValuesExistUniquely(c, us1);
    assert TotalAt(c, w, ch) && JustifiedAt(c, UserOf(us1, ch), w, ch);
    assert us1[ch].selection == Some(i);
  }

  /** The visibility of the chosen symbol and the mode are as they were. */
  lemma ChosenKeepsBelow(c: Config, us: Users, i: Id, ch: Id)
    requires WellFormed(c) && ValidUsers(c, us) && IsChoice(c, ch)
    requires i < |c.items| && c.items[i].Symbol? && c.items[i].choice == Some(ch)
    requires |us| == |c.items| && ValidUsers(c, Chosen(us, i, ch))
    requires ch in Values(c, us).tri && i in Values(c, us).vis
    ensures var v, w := Values(c, us), Values(c, Chosen(us, i, ch));
      ch in w.tri && w.tri[ch] == v.tri[ch] && i in w.vis && w.vis[i] == v.vis[i]
  {
    assert ValidValue(c, i, Chosen(us, i, ch)[i]) && InChoice(c, i, ch);
    hide WellFormed, ValidUsers, Values, Cut, JustifiedAt, SelLevel, Chosen;
    var v, us1 := Values(c, us), Chosen(us, i, ch);
    var f := Cut(c, v, SelLevel(c, ch));
    CutHasBoth(c, v, i, ch);
    forall j: Id ensures JustifiedAt(c, UserOf(us1, j), f, j) {
      CutSurvivesChoosing(c, us, i, ch, j);
    }
    ValuesExistUniquely(c, us1);
    assert Justified(c, us1, f) && Within(f, Values(c, us1));
    assert WithinAt(f, Values(c, us1), ch) && WithinAt(f, Values(c, us1), i);
  }

  lemma CutHasBoth(c: Config, v: Env, i: Id, ch: Id)
    requires WellFormed(c) && InChoice(c, i, ch)
    requires ch in v.tri && i in v.vis
    ensures var f := Cut(c, v, SelLevel(c, ch));
      ch in f.tri && f.tri[ch] == v.tri[ch] && i in f.vis && f.vis[i] == v.vis[i]
  {
    ChoiceLevels(c, i, ch);
    hide WellFormed;
  }
}
