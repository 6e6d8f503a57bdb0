/**
What every value is: the visibility, the mode and selection of a choice, and what a
symbol is worth with and without the user, in terms of the first default or range
that counts.
*/
module KconfigRules {
  import opened Options
  import opened KconfigModel
  import opened KconfigSemantics
  import opened KconfigValues
  import opened KconfigMeaning

  // ---------------------------------------------------------------------
  // Visibility
  // ---------------------------------------------------------------------

  /** The value of an expression among the properties of item i. */
  function At(c: Config, v: Env, i: Id, e: Expr): Option<Tri>
    requires i < |c.items|
  {
    ExprValue(e, c, ViewOf(c, v, i))
  }

  /** t is the largest of the prompt conditions, n without prompts. */
  ghost predicate Largest(c: Config, v: Env, i: Id, t: Tri)
    requires i < |c.items|
  {
    var es := c.items[i].prompts;
    && (forall k :: 0 <= k < |es| ==> At(c, v, i, es[k]).Some? && At(c, v, i, es[k]).value <= t)
    && (t != 0 ==> exists k :: 0 <= k < |es| && At(c, v, i, es[k]) == Some(t))
  }

  /** The mode of the choice of i is known to be t. */
  predicate ModeIs(c: Config, v: Env, i: Id, t: Tri)
    requires i < |c.items|
  {
    var d := c.items[i];
    d.Symbol? && d.choice.Some? && d.choice.value in v.tri && v.tri[d.choice.value].0 == t
  }

  predicate ModulesOn(c: Config, v: Env) {
    c.modules in v.tri && v.tri[c.modules].0 != 0
  }

  /** Tristate symbols and choices that can be m now. */
  predicate CanBeM(c: Config, v: Env, i: Id)
    requires i < |c.items|
  {
    c.items[i].typ.Tristate? && ModulesOn(c, v) && !ModeIs(c, v, i, 2)
  }

  /** The mode of its choice hides a symbol whose prompts come to t. */
  predicate Hidden(c: Config, v: Env, i: Id, t: Tri)
    requires i < |c.items|
  {
    var d := c.items[i];
    && d.Symbol? && d.choice.Some? && d.choice.value < |c.items|
    && if d.typ.Tristate? then t == 1 && ModeIs(c, v, i, 2)
       else c.items[d.choice.value].typ.Tristate? && !ModeIs(c, v, i, 2)
  }

  /** The visibility of an item whose prompts come to t. */
  function Shown(c: Config, v: Env, i: Id, t: Tri): Tri
    requires i < |c.items|
  {
    if t == 0 || Hidden(c, v, i, t) then 0 else if t == 1 && !CanBeM(c, v, i) then 2 else t
  }

  lemma {:induction false} PromptsLargest(c: Config, v: Env, i: Id, k: nat)
    requires i < |c.items| && k <= |c.items[i].prompts| && PromptValue(c.items[i].prompts, k, c, ViewOf(c, v, i)).Some?
    ensures var t, es := PromptValue(c.items[i].prompts, k, c, ViewOf(c, v, i)).value, c.items[i].prompts;
      && (forall j :: 0 <= j < k ==> At(c, v, i, es[j]).Some? && At(c, v, i, es[j]).value <= t)
      && (t != 0 ==> exists j :: 0 <= j < k && At(c, v, i, es[j]) == Some(t))
  {
    hide ExprValue;
    if k > 0 {
      PromptsLargest(c, v, i, k - 1);
      var es := c.items[i].prompts;
      var t := PromptValue(es, k, c, ViewOf(c, v, i)).value;
      assert At(c, v, i, es[k - 1]).Some?;
      if t != 0 && At(c, v, i, es[k - 1]) != Some(t) {
        assert PromptValue(es, k - 1, c, ViewOf(c, v, i)) == Some(t);
      }
    }
  }

  lemma TypeRule(c: Config, v: Env, i: Id)
    requires i < |c.items|
    ensures var t := TypeOf(i, c, ViewOf(c, v, i));
      t.Some? ==> (t.value.Tristate? <==> CanBeM(c, v, i)) && (t.value.Bool? <==> IsBoolTri(c.items[i].typ) && !CanBeM(c, v, i))
  {
    hide Readable;
  }

  lemma HiddenRule(c: Config, v: Env, i: Id, t: Tri)
    requires i < |c.items| && (c.items[i].Symbol? && c.items[i].choice.Some? ==> c.items[i].choice.value < |c.items|)
    ensures var h := HiddenByChoice(c.items[i], t, c, ViewOf(c, v, i)); h.Some? ==> (h.value <==> Hidden(c, v, i, t))
  {
    hide Readable;
  }

  lemma OwnChoice(c: Config, i: Id)
    requires WellFormed(c) && i < |c.items| && c.items[i].Symbol? && c.items[i].choice.Some?
    ensures c.items[i].choice.value < |c.items|
  {
    assert WellFormedItem(c, i);
  }

  lemma VisibilityRule(c: Config, u: User, v: Env, i: Id)
    requires i < |c.items| && Obeys(c, u, v, i)
    requires c.items[i].Symbol? && c.items[i].choice.Some? ==> c.items[i].choice.value < |c.items|
    ensures exists t: Tri :: Largest(c, v, i, t) && v.vis[i] == Shown(c, v, i, t)
  {
    var es, w := c.items[i].prompts, ViewOf(c, v, i);
    hide ExprValue, PromptValue, HiddenByChoice, TypeOf, TriValue, StrValue, Assignable, Readable, Hidden, CanBeM;
    var t := PromptValue(es, |es|, c, w).value;
    PromptsLargest(c, v, i, |es|);
    assert Largest(c, v, i, t);
    hide Largest;
    HiddenRule(c, v, i, t);
    TypeRule(c, v, i);
  }

  /**
  An item is as visible as its most visible prompt; m counts as y where nothing can
  be m, and a choice hides its bool symbols below y mode and m prompts in y mode.
  */
  lemma VisibilityMeans(c: Config, us: Users, i: Id)
    requires WellFormed(c) && ValidUsers(c, us) && i < |c.items|
    ensures var v := Values(c, us);
      && i in v.vis
      && exists t: Tri :: Largest(c, v, i, t) && v.vis[i] == Shown(c, v, i, t)
  {
    ValuesObey(c, us, i);
    if c.items[i].Symbol? && c.items[i].choice.Some? { OwnChoice(c, i); }
    hide WellFormed, ValidUsers, Values, Obeys, Hidden, CanBeM, Largest;
    VisibilityRule(c, us[i], Values(c, us), i);
  }

  // ---------------------------------------------------------------------
  // The mode of a choice
  // ---------------------------------------------------------------------

  /** a, but at least low and at most high, if these exclude each other high. */
  function Between(low: Tri, a: Tri, high: Tri): Tri {
    if high <= low || high <= a then high else if a <= low then low else a
  }

  lemma ModeRule(c: Config, u: User, v: Env, ch: Id)
    requires IsChoice(c, ch) && Obeys(c, u, v, ch)
    ensures var least: Tri := if c.items[ch].optional then 0 else 1;
      var t := Between(least, UserTri(u).GetOr(0), v.vis[ch]);
      v.tri[ch].0 == if t == 1 && IsBoolTri(c.items[ch].typ) && !CanBeM(c, v, ch) then 2 else t
  {
    hide TypeOf, Visibility, StrValue, Assignable, Readable, CanBeM;
    TypeRule(c, v, ch);
  }

  /**
  The mode of a choice is what the user asked for, within its visibility; one that
  is not optional is at least m, and m counts as y where it cannot be m.
  */
  lemma ModeMeans(c: Config, us: Users, ch: Id)
    requires WellFormed(c) && ValidUsers(c, us) && IsChoice(c, ch)
    ensures |us| == |c.items|
    ensures var v := Values(c, us);
      && ch in v.tri && ch in v.vis
      && var least: Tri := if c.items[ch].optional then 0 else 1;
        var t := Between(least, UserTri(us[ch]).GetOr(0), v.vis[ch]);
        v.tri[ch].0 == if t == 1 && IsBoolTri(c.items[ch].typ) && !CanBeM(c, v, ch) then 2 else t
  {
    ValuesObey(c, us, ch);
    hide WellFormed, ValidUsers, Values, Obeys, CanBeM;
    ModeRule(c, us[ch], Values(c, us), ch);
  }

  // ---------------------------------------------------------------------
  // The selection of a choice
  // ---------------------------------------------------------------------

  predicate Seen(v: Env, s: Id) {
    s in v.vis && v.vis[s] != 0
  }

  /** Default k of the choice has its condition met and a visible symbol. */
  predicate Applies(c: Config, v: Env, ch: Id, k: nat)
    requires IsChoice(c, ch) && k < |c.items[ch].choiceDefaults|
  {
    var d := c.items[ch].choiceDefaults[k];
    At(c, v, ch, d.cond).GetOr(0) != 0 && Seen(v, d.sym)
  }

  /** The selection the user did not make: the first default that applies, otherwise the first visible symbol. */
  ghost predicate DefaultChosen(c: Config, v: Env, ch: Id, sel: Option<Id>)
    requires IsChoice(c, ch)
  {
    var ds, syms := c.items[ch].choiceDefaults, c.items[ch].syms;
    && (forall k :: 0 <= k < |ds| && Applies(c, v, ch, k) && (forall j :: 0 <= j < k ==> !Applies(c, v, ch, j)) ==>
          sel == Some(ds[k].sym))
    && ((forall k :: 0 <= k < |ds| ==> !Applies(c, v, ch, k)) ==>
          && (forall k :: 0 <= k < |syms| && Seen(v, syms[k]) && (forall j :: 0 <= j < k ==> !Seen(v, syms[j])) ==>
                sel == Some(syms[k]))
          && ((forall k :: 0 <= k < |syms| ==> !Seen(v, syms[k])) ==> sel == None))
  }

  lemma {:induction false} DefaultSelectionFirst(c: Config, v: Env, ch: Id, k: nat)
    requires IsChoice(c, ch) && k <= |c.items[ch].choiceDefaults|
    requires DefaultSelection(c.items[ch].choiceDefaults, k, c, ViewOf(c, v, ch)).Some?
    requires forall j :: 0 <= j < |c.items[ch].choiceDefaults| ==> c.items[ch].choiceDefaults[j].sym in Readable(c, ch)
    ensures var r, ds := DefaultSelection(c.items[ch].choiceDefaults, k, c, ViewOf(c, v, ch)).value, c.items[ch].choiceDefaults;
      if r.None? then forall j :: k <= j < |ds| ==> !Applies(c, v, ch, j)
      else exists j :: k <= j < |ds| && r == Some(ds[j].sym) && Applies(c, v, ch, j) && forall m :: k <= m < j ==> !Applies(c, v, ch, m)
    decreases |c.items[ch].choiceDefaults| - k
  {
    hide ExprValue, Readable;
    var ds := c.items[ch].choiceDefaults;
    if k < |ds| && !Applies(c, v, ch, k) {
      DefaultSelectionFirst(c, v, ch, k + 1);
      var r := DefaultSelection(ds, k, c, ViewOf(c, v, ch)).value;
      if r.Some? {
        var j :| k + 1 <= j < |ds| && r == Some(ds[j].sym) && Applies(c, v, ch, j) && forall m :: k + 1 <= m < j ==> !Applies(c, v, ch, m);
        assert forall m :: k <= m < j ==> !Applies(c, v, ch, m);
      }
    }
  }

  lemma {:induction false} FirstVisibleFirst(c: Config, v: Env, ch: Id, k: nat)
    requires IsChoice(c, ch) && k <= |c.items[ch].syms| && FirstVisible(c.items[ch].syms, k, ViewOf(c, v, ch)).Some?
    requires forall s :: s in c.items[ch].syms ==> s in Readable(c, ch)
    ensures var r, syms := FirstVisible(c.items[ch].syms, k, ViewOf(c, v, ch)).value, c.items[ch].syms;
      if r.None? then forall j :: k <= j < |syms| ==> !Seen(v, syms[j])
      else exists j :: k <= j < |syms| && r == Some(syms[j]) && Seen(v, syms[j]) && forall m :: k <= m < j ==> !Seen(v, syms[m])
    decreases |c.items[ch].syms| - k
  {
    hide Readable;
    var syms := c.items[ch].syms;
    if k < |syms| && !Seen(v, syms[k]) {
      FirstVisibleFirst(c, v, ch, k + 1);
      var r := FirstVisible(syms, k, ViewOf(c, v, ch)).value;
      if r.Some? {
        var j :| k + 1 <= j < |syms| && r == Some(syms[j]) && Seen(v, syms[j]) && forall m :: k + 1 <= m < j ==> !Seen(v, syms[m]);
        assert forall m :: k <= m < j ==> !Seen(v, syms[m]);
      }
    }
  }

  lemma ChoiceReads(c: Config, ch: Id)
    requires WellFormed(c) && IsChoice(c, ch)
    ensures ch in Readable(c, ch)
    ensures forall s :: s in c.items[ch].syms ==> s in Readable(c, ch)
    ensures forall j :: 0 <= j < |c.items[ch].choiceDefaults| ==> c.items[ch].choiceDefaults[j].sym in Readable(c, ch)
  {
    assert WellFormedItem(c, ch);
  }

  lemma DefaultChosenRule(c: Config, v: Env, ch: Id, sel: Option<Id>)
    requires WellFormed(c) && IsChoice(c, ch)
    requires SelectionFromDefaults(c.items[ch], c, ViewOf(c, v, ch)) == Some(sel)
    ensures DefaultChosen(c, v, ch, sel)
  {
    ChoiceReads(c, ch);
    hide WellFormed, Readable, DefaultSelection, FirstVisible, Applies, Seen;
    var ds, syms, w := c.items[ch].choiceDefaults, c.items[ch].syms, ViewOf(c, v, ch);
    DefaultSelectionFirst(c, v, ch, 0);
    var r := DefaultSelection(ds, 0, c, w).value;
    if r.Some? {
      var j :| 0 <= j < |ds| && r == Some(ds[j].sym) && Applies(c, v, ch, j) && forall m :: 0 <= m < j ==> !Applies(c, v, ch, m);
      forall k | 0 <= k < |ds| && Applies(c, v, ch, k) && (forall m :: 0 <= m < k ==> !Applies(c, v, ch, m)) ensures k == j {
        assert !(k < j) && !(j < k);
      }
    } else {
      FirstVisibleFirst(c, v, ch, 0);
      if sel.Some? {
        var j :| 0 <= j < |syms| && sel == Some(syms[j]) && Seen(v, syms[j]) && forall m :: 0 <= m < j ==> !Seen(v, syms[m]);
        forall k | 0 <= k < |syms| && Seen(v, syms[k]) && (forall m :: 0 <= m < k ==> !Seen(v, syms[m])) ensures k == j {
          assert !(k < j) && !(j < k);
        }
      }
    }
  }

  lemma SelectionRule(c: Config, u: User, v: Env, ch: Id)
    requires WellFormed(c) && IsChoice(c, ch) && ValidSelection(c, ch, u)
    requires ch in v.tri && ch in v.sel && Selection(ch, c, u, ViewOf(c, v, ch)) == Some(v.sel[ch])
    ensures if v.tri[ch].0 != 2 then v.sel[ch] == None
            else if u.selection.Some? && Seen(v, u.selection.value) then v.sel[ch] == u.selection
            else DefaultChosen(c, v, ch, v.sel[ch])
  {
    ChoiceReads(c, ch);
    var w := ViewOf(c, v, ch);
    assert u.selection.Some? ==> u.selection.value in Readable(c, ch);
    hide WellFormed, Readable, SelectionFromDefaults, DefaultChosen;
    if v.tri[ch].0 == 2 && !(u.selection.Some? && Seen(v, u.selection.value)) {
      DefaultChosenRule(c, v, ch, v.sel[ch]);
    }
  }

  /**
  A choice in y mode selects what the user selected if that is visible, otherwise the
  symbol of its first default whose condition is met and whose symbol is visible,
  otherwise its first visible symbol. In other modes it selects nothing.
  */
  lemma SelectionMeans(c: Config, us: Users, ch: Id)
    requires WellFormed(c) && ValidUsers(c, us) && IsChoice(c, ch)
    ensures |us| == |c.items|
    ensures var v := Values(c, us);
      && ch in v.tri && ch in v.sel
      && if v.tri[ch].0 != 2 then v.sel[ch] == None
         else if us[ch].selection.Some? && Seen(v, us[ch].selection.value) then v.sel[ch] == us[ch].selection
         else DefaultChosen(c, v, ch, v.sel[ch])
  {
    assert |us| == |c.items| && ValidSelection(c, ch, us[ch]);
    var v := Values(c, us);
    hide WellFormed, ValidUsers, Values, Seen, DefaultChosen, Visibility, TriValue, StrValue, Selection, Assignable, ValidSelection, Readable;
    ValuesExistUniquely(c, us);
    assert TotalAt(c, v, ch) && JustifiedAt(c, UserOf(us, ch), v, ch);
    SelectionRule(c, us[ch], v, ch);
  }

  // ---------------------------------------------------------------------
  // The default that counts
  // ---------------------------------------------------------------------

  /** Default k of symbol i is the first whose condition is not n. */
  ghost predicate Counts(c: Config, v: Env, i: Id, k: nat)
    requires i < |c.items| && c.items[i].Symbol?
  {
    var ds := c.items[i].defaults;
    && k < |ds| && At(c, v, i, ds[k].cond).GetOr(0) != 0
    && forall j :: 0 <= j < k ==> At(c, v, i, ds[j].cond) == Some(0)
  }

  /** All defaults of symbol i have condition n. */
  ghost predicate NoneCounts(c: Config, v: Env, i: Id)
    requires i < |c.items| && c.items[i].Symbol?
  {
    forall k :: 0 <= k < |c.items[i].defaults| ==> At(c, v, i, c.items[i].defaults[k].cond) == Some(0)
  }

  lemma {:induction false} ActiveFirst(c: Config, v: Env, i: Id, k: nat)
    requires i < |c.items| && c.items[i].Symbol? && k <= |c.items[i].defaults|
    requires ActiveDefault(c.items[i].defaults, k, c, ViewOf(c, v, i)).Some?
    requires forall j :: 0 <= j < k ==> At(c, v, i, c.items[i].defaults[j].cond) == Some(0)
    ensures var r, ds := ActiveDefault(c.items[i].defaults, k, c, ViewOf(c, v, i)).value, c.items[i].defaults;
      if r.None? then NoneCounts(c, v, i)
      else exists j: nat :: Counts(c, v, i, j) && r == Some((ds[j].value, At(c, v, i, ds[j].cond).GetOr(0)))
    decreases |c.items[i].defaults| - k
  {
    hide ExprValue;
    var ds := c.items[i].defaults;
    if k < |ds| {
      if At(c, v, i, ds[k].cond) == Some(0) {
        ActiveFirst(c, v, i, k + 1);
      } else {
        assert Counts(c, v, i, k);
      }
    }
  }

  lemma CountsOnce(c: Config, v: Env, i: Id, j: nat, k: nat)
    requires i < |c.items| && c.items[i].Symbol? && Counts(c, v, i, j) && Counts(c, v, i, k)
    ensures j == k
  {
    hide At;
    assert !(k < j) && !(j < k);
  }

  lemma NeverBoth(c: Config, v: Env, i: Id, k: nat)
    requires i < |c.items| && c.items[i].Symbol? && Counts(c, v, i, k)
    ensures !NoneCounts(c, v, i)
  {
    hide At;
  }

  // ---------------------------------------------------------------------
  // Bool and tristate symbols outside choices
  // ---------------------------------------------------------------------

  /** What the defaults alone come to. */
  ghost predicate FromDefaults(c: Config, v: Env, i: Id, t: Tri)
    requires i < |c.items| && c.items[i].Symbol?
  {
    var ds := c.items[i].defaults;
    && (NoneCounts(c, v, i) ==> t == 0)
    && forall k: nat :: Counts(c, v, i, k) ==>
         var value, cond := At(c, v, i, ds[k].value), At(c, v, i, ds[k].cond);
         value.Some? && cond.Some? && t <= value.value && t <= cond.value && (t == value.value || t == cond.value)
  }

  /** How far implies raise a symbol: not at all unless the direct dependencies are met. */
  function Implied(c: Config, v: Env, i: Id): Tri
    requires i < |c.items| && c.items[i].Symbol?
  {
    if At(c, v, i, c.items[i].directDep).GetOr(0) == 0 then 0 else At(c, v, i, c.items[i].weakRevDep).GetOr(0)
  }

  function Selected(c: Config, v: Env, i: Id): Tri
    requires i < |c.items| && c.items[i].Symbol?
  {
    At(c, v, i, c.items[i].revDep).GetOr(0)
  }

  lemma DefaultTriRule(c: Config, v: Env, i: Id, write: bool)
    requires i < |c.items| && c.items[i].Symbol? && DefaultTri(c.items[i], write, c, ViewOf(c, v, i)).Some?
    ensures var r := DefaultTri(c.items[i], write, c, ViewOf(c, v, i)).value;
      FromDefaults(c, v, i, r.0) && (r.1 <==> write || r.0 != 0)
  {
    var d, w := c.items[i], ViewOf(c, v, i);
    hide ExprValue, ActiveDefault, NoneCounts, Counts;
    var r := DefaultTri(d, write, c, w).value;
    ActiveFirst(c, v, i, 0);
    var a := ActiveDefault(d.defaults, 0, c, w).value;
    if a.Some? {
      var j: nat :| Counts(c, v, i, j) && a == Some((d.defaults[j].value, At(c, v, i, d.defaults[j].cond).GetOr(0)));
      CondKnown(c, v, i, j);
      forall k: nat | Counts(c, v, i, k) ensures k == j {
        CountsOnce(c, v, i, j, k);
      }
      NeverBoth(c, v, i, j);
    } else {
      forall k: nat ensures !Counts(c, v, i, k) {
        if Counts(c, v, i, k) { NeverBoth(c, v, i, k); }
      }
    }
  }

  lemma CondKnown(c: Config, v: Env, i: Id, k: nat)
    requires i < |c.items| && c.items[i].Symbol? && Counts(c, v, i, k)
    ensures At(c, v, i, c.items[i].defaults[k].cond).Some?
  {
    hide ExprValue;
  }

  /** The largest of three. */
  function Most(a: Tri, b: Tri, d: Tri): Tri {
    if a >= b && a >= d then a else if b >= d then b else d
  }

  /** The user's value where there is one and the symbol is visible. */
  predicate UserDecides(c: Config, u: User, v: Env, i: Id) {
    i in v.vis && v.vis[i] != 0 && UserTri(u).Some?
  }

  ghost predicate Worth(c: Config, u: User, v: Env, i: Id, base: Tri)
    requires i < |c.items| && c.items[i].Symbol? && i in v.vis && i in v.tri
  {
    var rev, weak := Selected(c, v, i), At(c, v, i, c.items[i].weakRevDep).GetOr(0);
    var raised := if UserDecides(c, u, v, i) then Most(base, rev, 0) else Most(base, rev, Implied(c, v, i));
    && (if UserDecides(c, u, v, i) then base == Between(0, UserTri(u).value, v.vis[i]) else FromDefaults(c, v, i, base))
    && v.tri[i].0 == (if raised == 1 && (!CanBeM(c, v, i) || weak == 2) then 2 else raised)
    && (v.tri[i].1 <==> v.vis[i] != 0 || base != 0 || rev != 0 || Implied(c, v, i) != 0)
  }

  lemma TriRule(c: Config, u: User, v: Env, i: Id)
    requires i < |c.items| && c.items[i].Symbol? && c.items[i].choice.None? && IsBoolTri(c.items[i].typ) && Obeys(c, u, v, i)
    ensures exists base: Tri :: Worth(c, u, v, i, base)
  {
    hide PlainTri, Visibility, StrValue, Assignable, Readable, Worth;
    assert PlainTri(i, c, u, v.vis[i], ViewOf(c, v, i)) == Some(v.tri[i]);
    if UserDecides(c, u, v, i) {
      UserWorth(c, u, v, i);
    } else {
      DefaultWorth(c, u, v, i);
    }
  }

  lemma UserWorth(c: Config, u: User, v: Env, i: Id)
    requires i < |c.items| && c.items[i].Symbol? && IsBoolTri(c.items[i].typ) && i in v.tri && UserDecides(c, u, v, i)
    requires PlainTri(i, c, u, v.vis[i], ViewOf(c, v, i)) == Some(v.tri[i])
    ensures Worth(c, u, v, i, Between(0, UserTri(u).value, v.vis[i]))
  {
    hide ExprValue, TypeOf, Readable, DefaultTri, FromDefaults, CanBeM;
    TypeRule(c, v, i);
  }

  lemma DefaultWorth(c: Config, u: User, v: Env, i: Id)
    requires i < |c.items| && c.items[i].Symbol? && IsBoolTri(c.items[i].typ) && i in v.tri && i in v.vis && !UserDecides(c, u, v, i)
    requires PlainTri(i, c, u, v.vis[i], ViewOf(c, v, i)) == Some(v.tri[i])
    ensures exists base: Tri :: Worth(c, u, v, i, base)
  {
    hide ExprValue, TypeOf, Readable, DefaultTri, FromDefaults, CanBeM;
    TypeRule(c, v, i);
    DefaultTriRule(c, v, i, v.vis[i] != 0);
    assert Worth(c, u, v, i, DefaultTri(c.items[i], v.vis[i] != 0, c, ViewOf(c, v, i)).value.0);
  }

  /**
  A bool or tristate symbol outside choices has the user's value, cut to its
  visibility, if it is visible. Otherwise it is the lesser of the first default that
  counts and its condition, raised by implies where the direct dependencies are
  met. Selects raise both, and m becomes y where it cannot be m or is implied to y.
  It is written if it is visible or anything but the user makes it more than n.
  */
  lemma TriMeans(c: Config, us: Users, i: Id)
    requires WellFormed(c) && ValidUsers(c, us) && i < |c.items|
    requires c.items[i].Symbol? && c.items[i].choice.None? && IsBoolTri(c.items[i].typ)
    ensures |us| == |c.items| && i in Values(c, us).tri && i in Values(c, us).vis
    ensures exists base: Tri :: Worth(c, us[i], Values(c, us), i, base)
  {
    ValuesObey(c, us, i);
    hide WellFormed, ValidUsers, Values, Obeys, Worth;
    TriRule(c, us[i], Values(c, us), i);
  }

  // ---------------------------------------------------------------------
  // Bool and tristate symbols in choices
  // ---------------------------------------------------------------------

  lemma MemberRule(c: Config, u: User, v: Env, i: Id, ch: Id)
    requires i < |c.items| && c.items[i].Symbol? && c.items[i].choice == Some(ch) && IsBoolTri(c.items[i].typ) && Obeys(c, u, v, i)
    requires ch in v.sel
    ensures v.tri[i].0 == 2 <==> v.vis[i] == 2 && v.sel[ch] == Some(i)
    ensures v.tri[i].0 == 1 <==> v.vis[i] == 1 && UserTri(u).GetOr(0) != 0
    ensures v.tri[i].1 <==> v.vis[i] != 0
  {
    hide Visibility, StrValue, Assignable, Readable;
  }

  /** A choice symbol is y exactly where it is selected, m where the user wants it and it can be no more, and written where it is visible. */
  lemma MemberMeans(c: Config, us: Users, i: Id, ch: Id)
    requires WellFormed(c) && ValidUsers(c, us) && i < |c.items|
    requires c.items[i].Symbol? && c.items[i].choice == Some(ch) && IsBoolTri(c.items[i].typ)
    ensures |us| == |c.items| && i in Values(c, us).tri && i in Values(c, us).vis && ch in Values(c, us).sel
    ensures var v := Values(c, us);
      && (v.tri[i].0 == 2 <==> v.vis[i] == 2 && v.sel[ch] == Some(i))
      && (v.tri[i].0 == 1 <==> v.vis[i] == 1 && UserTri(us[i]).GetOr(0) != 0)
      && (v.tri[i].1 <==> v.vis[i] != 0)
  {
    assert WellFormedItem(c, i) && IsChoice(c, ch);
    ValuesObey(c, us, i);
    ValuesExistUniquely(c, us);
    hide WellFormed, ValidUsers, Values, Obeys;
    assert TotalAt(c, Values(c, us), ch);
    MemberRule(c, us[i], Values(c, us), i, ch);
  }

  // ---------------------------------------------------------------------
  // Strings and numbers
  // ---------------------------------------------------------------------

  /** The string an operand has. */
  function TextOf(v: Env, o: Operand): Option<string> {
    match o
    case Const(_, _, s) => Some(s)
    case Item(j) => if j in v.str then Some(v.str[j].0) else None
  }

  /** The text of the default that counts; None where there is none. */
  ghost predicate DefaultText(c: Config, v: Env, i: Id, text: Option<string>)
    requires i < |c.items| && c.items[i].Symbol?
  {
    var ds := c.items[i].defaults;
    && (NoneCounts(c, v, i) ==> text == None)
    && forall k: nat :: Counts(c, v, i, k) ==> ds[k].value.Val? && text.Some? && text == TextOf(v, ds[k].value.operand)
  }

  lemma DefaultTextRule(c: Config, v: Env, i: Id)
    requires WellFormed(c) && i < |c.items| && c.items[i].Symbol? && !IsBoolTri(c.items[i].typ) && !c.items[i].typ.Unknown?
    requires DefaultStr(c.items[i], c, ViewOf(c, v, i)).Some?
    ensures DefaultText(c, v, i, DefaultStr(c.items[i], c, ViewOf(c, v, i)).value)
  {
    var d, w := c.items[i], ViewOf(c, v, i);
    ActiveFirst(c, v, i, 0);
    hide ExprValue, ActiveDefault, NoneCounts, Counts, WellFormed;
    var a := ActiveDefault(d.defaults, 0, c, w).value;
    if a.Some? {
      var j: nat :| Counts(c, v, i, j) && a == Some((d.defaults[j].value, At(c, v, i, d.defaults[j].cond).GetOr(0)));
      CountsInside(c, v, i, j);
      DefaultFacts(c, i, j);
      forall k: nat | Counts(c, v, i, k) ensures k == j {
        CountsOnce(c, v, i, j, k);
      }
      NeverBoth(c, v, i, j);
    } else {
      forall k: nat ensures !Counts(c, v, i, k) {
        if Counts(c, v, i, k) { NeverBoth(c, v, i, k); }
      }
    }
  }

  lemma CountsInside(c: Config, v: Env, i: Id, k: nat)
    requires i < |c.items| && c.items[i].Symbol? && Counts(c, v, i, k)
    ensures k < |c.items[i].defaults|
  {}

  /** Visible strings with a user value have that, others the text of their default or nothing; written if visible or by default. */
  ghost predicate StringWorth(c: Config, u: User, v: Env, i: Id, text: Option<string>)
    requires i < |c.items| && c.items[i].Symbol? && i in v.vis && i in v.str
  {
    && DefaultText(c, v, i, text)
    && if v.vis[i] != 0 && UserStr(u).Some? then v.str[i] == (UserStr(u).value, !c.items[i].special)
       else v.str[i] == (text.GetOr(""), (v.vis[i] != 0 || text.Some?) && !c.items[i].special)
  }

  /** Range k of symbol i is the first whose condition is not n. */
  ghost predicate Binds(c: Config, v: Env, i: Id, k: nat)
    requires i < |c.items| && c.items[i].Symbol?
  {
    var rs := c.items[i].ranges;
    && k < |rs| && At(c, v, i, rs[k].cond).GetOr(0) != 0
    && forall j :: 0 <= j < k ==> At(c, v, i, rs[j].cond) == Some(0)
  }

  /** Numbers are decimal or hexadecimal; what does not parse is zero. */
  function Number(c: Config, t: Type, s: string): int {
    c.lib.parseInt(s, if t.Hex? then 16 else 10).GetOr(0)
  }

  /** The bounds of the range that binds; None where there is none. */
  ghost predicate Bounds(c: Config, v: Env, i: Id, bounds: Option<(int, int)>)
    requires i < |c.items| && c.items[i].Symbol?
  {
    var t, rs := c.items[i].typ, c.items[i].ranges;
    && ((forall k :: 0 <= k < |rs| ==> At(c, v, i, rs[k].cond) == Some(0)) ==> bounds == None)
    && forall k: nat :: Binds(c, v, i, k) ==>
         bounds == Some((Number(c, t, TextOf(v, rs[k].low).GetOr("")), Number(c, t, TextOf(v, rs[k].high).GetOr(""))))
  }

  lemma {:induction false} RangeFirst(c: Config, v: Env, i: Id, k: nat)
    requires i < |c.items| && c.items[i].Symbol? && (c.items[i].typ.Int? || c.items[i].typ.Hex?) && k <= |c.items[i].ranges|
    requires ActiveRange(c.items[i].typ, c.items[i].ranges, k, c, ViewOf(c, v, i)).Some?
    requires forall j :: 0 <= j < k ==> At(c, v, i, c.items[i].ranges[j].cond) == Some(0)
    ensures var r, t, rs := ActiveRange(c.items[i].typ, c.items[i].ranges, k, c, ViewOf(c, v, i)).value, c.items[i].typ, c.items[i].ranges;
      if r.None? then forall j :: 0 <= j < |rs| ==> At(c, v, i, rs[j].cond) == Some(0)
      else exists j: nat :: Binds(c, v, i, j)
             && r == Some((Number(c, t, TextOf(v, rs[j].low).GetOr("")), Number(c, t, TextOf(v, rs[j].high).GetOr(""))))
    decreases |c.items[i].ranges| - k
  {
    hide ExprValue, Readable;
    var rs := c.items[i].ranges;
    if k < |rs| {
      if At(c, v, i, rs[k].cond) == Some(0) {
        hide Number, TextOf;
        RangeFirst(c, v, i, k + 1);
      } else {
        assert Binds(c, v, i, k);
        hide Binds, At;
        BoundsHere(c, v, i, k);
      }
    }
  }

  lemma BoundsHere(c: Config, v: Env, i: Id, k: nat)
    requires i < |c.items| && c.items[i].Symbol? && (c.items[i].typ.Int? || c.items[i].typ.Hex?) && k < |c.items[i].ranges|
    requires At(c, v, i, c.items[i].ranges[k].cond) != Some(0)
    ensures var r, t, x := ActiveRange(c.items[i].typ, c.items[i].ranges, k, c, ViewOf(c, v, i)), c.items[i].typ, c.items[i].ranges[k];
      r.Some? ==> r.value == Some((Number(c, t, TextOf(v, x.low).GetOr("")), Number(c, t, TextOf(v, x.high).GetOr(""))))
  {
    hide ExprValue, Readable;
  }

  lemma BindsOnce(c: Config, v: Env, i: Id, j: nat, k: nat)
    requires i < |c.items| && c.items[i].Symbol? && Binds(c, v, i, j) && Binds(c, v, i, k)
    ensures j == k
  {
    hide At;
    assert !(k < j) && !(j < k);
  }

  lemma BoundsRule(c: Config, v: Env, i: Id)
    requires i < |c.items| && c.items[i].Symbol? && (c.items[i].typ.Int? || c.items[i].typ.Hex?)
    requires ActiveRange(c.items[i].typ, c.items[i].ranges, 0, c, ViewOf(c, v, i)).Some?
    ensures Bounds(c, v, i, ActiveRange(c.items[i].typ, c.items[i].ranges, 0, c, ViewOf(c, v, i)).value)
  {
    RangeFirst(c, v, i, 0);
    hide ActiveRange, At, Number;
    var r, t, rs := ActiveRange(c.items[i].typ, c.items[i].ranges, 0, c, ViewOf(c, v, i)).value, c.items[i].typ, c.items[i].ranges;
    if r.Some? {
      var j: nat :| Binds(c, v, i, j)
        && r == Some((Number(c, t, TextOf(v, rs[j].low).GetOr("")), Number(c, t, TextOf(v, rs[j].high).GetOr(""))));
      forall k: nat | Binds(c, v, i, k) ensures k == j {
        BindsOnce(c, v, i, j, k);
      }
    }
  }

  predicate Inside(bounds: Option<(int, int)>, n: int) {
    bounds.Some? ==> bounds.value.0 <= n && n <= bounds.value.1
  }

  /** The user's number where there is one that is visible and in range. */
  predicate UserUsable(c: Config, u: User, v: Env, i: Id, bounds: Option<(int, int)>)
    requires i < |c.items| && i in v.vis
  {
    v.vis[i] != 0 && UserStr(u).Some? && UserStr(u).value != "" && Inside(bounds, Number(c, c.items[i].typ, UserStr(u).value))
  }

  /** Numbers: the user's text if usable, otherwise the default's text or nothing, replaced by the nearer bound if it lies outside the range. */
  ghost predicate NumberWorth(c: Config, u: User, v: Env, i: Id, text: Option<string>, bounds: Option<(int, int)>)
    requires i < |c.items| && c.items[i].Symbol? && i in v.vis && i in v.str
  {
    var d := c.items[i];
    var base := if d.typ.Hex? then 16 else 10;
    var n := if text.GetOr("") == "" then 0 else Number(c, d.typ, text.value);
    && DefaultText(c, v, i, text) && Bounds(c, v, i, bounds)
    && if UserUsable(c, u, v, i, bounds) then v.str[i] == (UserStr(u).value, !d.special)
       else
         && (v.str[i].1 <==> (v.vis[i] != 0 || text.Some?) && !d.special)
         && (Inside(bounds, n) ==> v.str[i].0 == text.GetOr(""))
         && (bounds.Some? && n < bounds.value.0 ==> v.str[i].0 == c.lib.render(bounds.value.0, base))
         && (bounds.Some? && bounds.value.0 <= n && bounds.value.1 < n ==> v.str[i].0 == c.lib.render(bounds.value.1, base))
  }

  lemma StringRule(c: Config, u: User, v: Env, i: Id)
    requires WellFormed(c) && i < |c.items| && c.items[i].Symbol? && c.items[i].typ.String? && Obeys(c, u, v, i)
    ensures DefaultStr(c.items[i], c, ViewOf(c, v, i)).Some? ==> StringWorth(c, u, v, i, DefaultStr(c.items[i], c, ViewOf(c, v, i)).value)
  {
    hide WellFormed, Visibility, TriValue, Assignable, Readable, DefaultStr, DefaultText;
    if DefaultStr(c.items[i], c, ViewOf(c, v, i)).Some? {
      DefaultTextRule(c, v, i);
    }
  }

  lemma NumberRule(c: Config, u: User, v: Env, i: Id)
    requires WellFormed(c) && i < |c.items| && c.items[i].Symbol? && (c.items[i].typ.Int? || c.items[i].typ.Hex?) && Obeys(c, u, v, i)
    ensures var text, bounds := DefaultStr(c.items[i], c, ViewOf(c, v, i)), ActiveRange(c.items[i].typ, c.items[i].ranges, 0, c, ViewOf(c, v, i));
      text.Some? && bounds.Some? ==> NumberWorth(c, u, v, i, text.value, bounds.value)
  {
    hide WellFormed, Visibility, TriValue, Assignable, Readable, DefaultStr, DefaultText, ActiveRange, Bounds;
    var text, bounds := DefaultStr(c.items[i], c, ViewOf(c, v, i)), ActiveRange(c.items[i].typ, c.items[i].ranges, 0, c, ViewOf(c, v, i));
    if text.Some? && bounds.Some? {
      DefaultTextRule(c, v, i);
      BoundsRule(c, v, i);
    }
  }

  /** Everything the rule of a text looks at has a value. */
  lemma TextsKnown(c: Config, us: Users, i: Id)
    requires WellFormed(c) && ValidUsers(c, us) && i < |c.items|
    requires c.items[i].Symbol? && !IsBoolTri(c.items[i].typ) && !c.items[i].typ.Unknown?
    ensures DefaultStr(c.items[i], c, ViewOf(c, Values(c, us), i)).Some?
    ensures c.items[i].typ.Int? || c.items[i].typ.Hex? ==>
      ActiveRange(c.items[i].typ, c.items[i].ranges, 0, c, ViewOf(c, Values(c, us), i)).Some?
  {
    var v := Values(c, us);
    CompleteBelow(c, us, StrLevel(c, i));
    hide WellFormed, ValidUsers, Values, Readable, Complete;
    var r := Readable(c, i);
    assert Covers(c, v, v, r, StrLevel(c, i)) by { SelfCovers(c, v, r, StrLevel(c, i)); }
    hide Covers;
    DefaultStrStable(i, c, v, v);
    if c.items[i].typ.Int? || c.items[i].typ.Hex? {
      ActiveRangeStable(i, c, v, v);
    }
  }

  lemma SelfCovers(c: Config, v: Env, r: set<Id>, level: nat)
    ensures Covers(c, v, v, r, level)
  {}

  /** What a string symbol is worth. */
  lemma StringMeans(c: Config, us: Users, i: Id)
    requires WellFormed(c) && ValidUsers(c, us) && i < |c.items| && c.items[i].Symbol? && c.items[i].typ.String?
    ensures |us| == |c.items| && i in Values(c, us).str && i in Values(c, us).vis
    ensures exists text :: StringWorth(c, us[i], Values(c, us), i, text)
  {
    ValuesObey(c, us, i);
    TextsKnown(c, us, i);
    hide WellFormed, ValidUsers, Values, Obeys, StringWorth, DefaultStr;
    StringRule(c, us[i], Values(c, us), i);
  }

  /** What an int or hex symbol is worth. */
  lemma NumberMeans(c: Config, us: Users, i: Id)
    requires WellFormed(c) && ValidUsers(c, us) && i < |c.items|
    requires c.items[i].Symbol? && (c.items[i].typ.Int? || c.items[i].typ.Hex?)
    ensures |us| == |c.items| && i in Values(c, us).str && i in Values(c, us).vis
    ensures exists text, bounds :: NumberWorth(c, us[i], Values(c, us), i, text, bounds)
  {
    ValuesObey(c, us, i);
    TextsKnown(c, us, i);
    hide WellFormed, ValidUsers, Values, Obeys, NumberWorth, DefaultStr, ActiveRange;
    NumberRule(c, us[i], Values(c, us), i);
  }

  lemma LetterRule(c: Config, u: User, v: Env, i: Id)
    requires i < |c.items| && Obeys(c, u, v, i)
    ensures c.items[i].Choice? || IsBoolTri(c.items[i].typ) ==> v.str[i] == (["n", "m", "y"][v.tri[i].0], false)
    ensures c.items[i].Symbol? && c.items[i].typ.Unknown? ==> v.str[i] == (c.items[i].name, false) && v.tri[i] == (0, false)
  {
    hide Visibility, TextStr, NumberStr, Assignable, Readable, Mode, PlainTri, ChoiceSymbolTri;
  }

  /** As text the three values are letters, and an undefined symbol is its own name. */
  lemma LetterMeans(c: Config, us: Users, i: Id)
    requires WellFormed(c) && ValidUsers(c, us) && i < |c.items|
    ensures var v := Values(c, us);
      && i in v.str && i in v.tri
      && (c.items[i].Choice? || IsBoolTri(c.items[i].typ) ==> v.str[i] == (["n", "m", "y"][v.tri[i].0], false))
      && (c.items[i].Symbol? && c.items[i].typ.Unknown? ==> v.str[i] == (c.items[i].name, false) && v.tri[i] == (0, false))
  {
    ValuesObey(c, us, i);
    hide WellFormed, ValidUsers, Values, Obeys;
    LetterRule(c, us[i], Values(c, us), i);
  }
}
