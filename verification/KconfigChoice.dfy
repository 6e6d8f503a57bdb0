/**
Choices select one symbol: what the modes of a choice mean for its symbols.
*/
module KconfigChoice {
  import opened KconfigModel
  import opened KconfigSemantics
  import opened KconfigValues
  import opened Options

  /** Every symbol of the choice is bool or tristate. */
  predicate LogicalChoice(c: Config, ch: Id) {
    IsChoice(c, ch) && forall s :: s in c.items[ch].syms ==> s < |c.items| && IsBoolTri(c.items[s].typ)
  }

  lemma {:induction false} DefaultSelectionIsMember(ds: seq<ChoiceDefault>, k: nat, c: Config, v: View)
    requires k <= |ds|
    ensures var r := DefaultSelection(ds, k, c, v);
            r.Some? && r.value.Some? ==>
              (exists j :: k <= j < |ds| && ds[j].sym == r.value.value) && v.Vis(r.value.value).GetOr(0) != 0
    decreases |ds| - k
  {
    if k < |ds| {
      DefaultSelectionIsMember(ds, k + 1, c, v);
    }
  }

  lemma {:induction false} FirstVisibleIsMember(syms: seq<Id>, k: nat, v: View)
    requires k <= |syms|
    ensures var r := FirstVisible(syms, k, v);
            r.Some? && r.value.Some? ==> r.value.value in syms && v.Vis(r.value.value).GetOr(0) != 0
    decreases |syms| - k
  {
    if k < |syms| {
      FirstVisibleIsMember(syms, k + 1, v);
    }
  }

  /** A selection is a visible symbol of a choice in y mode. */
  lemma SelectionIsVisible(c: Config, u: User, v: View, ch: Id)
    requires WellFormed(c) && IsChoice(c, ch) && ValidSelection(c, ch, u)
    ensures var r := Selection(ch, c, u, v);
            r.Some? && r.value.Some? ==>
              var x := r.value.value;
              x in c.items[ch].syms && v.Vis(x).GetOr(0) != 0 && v.Tri(Item(ch)) == Some(2)
  {
    var d := c.items[ch];
    assert WellFormedItem(c, ch);
    DefaultSelectionIsMember(d.choiceDefaults, 0, c, v);
    FirstVisibleIsMember(d.syms, 0, v);
  }

  /** In y mode visible choice symbols are fully visible. */
  lemma MemberVisibility(c: Config, us: Users, v: Env, ch: Id, s: Id)
    requires WellFormed(c) && ValidUsers(c, us) && LogicalChoice(c, ch) && s in c.items[ch].syms
    requires Justified(c, us, v) && TotalAt(c, v, s) && TotalAt(c, v, ch)
    ensures v.tri[ch].0 == 2 ==> v.vis[s] != 1
  {
    hide PromptValue, TriValue, StrValue, Selection, Assignable;
    assert WellFormedItem(c, ch) && WellFormedItem(c, s);
    assert JustifiedAt(c, UserOf(us, s), v, s);
  }

  /** The value of a choice symbol in terms of the selection. */
  lemma MemberValue(c: Config, us: Users, v: Env, ch: Id, s: Id)
    requires WellFormed(c) && ValidUsers(c, us) && LogicalChoice(c, ch) && s in c.items[ch].syms
    requires Justified(c, us, v) && TotalAt(c, v, s) && TotalAt(c, v, ch)
    ensures v.tri[s].0 == 2 <==> v.vis[s] == 2 && v.sel[ch] == Some(s)
    ensures v.vis[s] == 0 ==> v.tri[s].0 == 0
    ensures v.vis[s] == 2 ==> v.tri[s].0 != 1
  {
    hide Visibility, StrValue, Selection, Assignable, PlainTri, Mode;
    assert WellFormedItem(c, ch) && WellFormedItem(c, s);
    assert JustifiedAt(c, UserOf(us, s), v, s);
  }

  lemma {:induction false} FirstVisibleFinds(syms: seq<Id>, k: nat, v: View, s: Id)
    requires k <= |syms| && s in syms[k..] && FirstVisible(syms, k, v).Some? && v.Vis(s).GetOr(0) != 0
    ensures FirstVisible(syms, k, v).value.Some?
    decreases |syms| - k
  {
    if v.Vis(syms[k]) == Some(0) {
      assert s in syms[k + 1..];
      FirstVisibleFinds(syms, k + 1, v, s);
    }
  }

  /** A y-mode choice with a visible symbol has a selection. */
  lemma VisibleMeansSelected(c: Config, us: Users, v: Env, ch: Id, s: Id)
    requires WellFormed(c) && ValidUsers(c, us) && IsChoice(c, ch) && s in c.items[ch].syms
    requires Justified(c, us, v) && TotalAt(c, v, ch) && v.tri[ch].0 == 2 && s in v.vis && v.vis[s] != 0
    ensures v.sel[ch].Some?
  {
    hide Visibility, TriValue, StrValue, Assignable, DefaultSelection, WellFormed;
    assert JustifiedAt(c, UserOf(us, ch), v, ch);
    var w := View(v, Readable(c, ch));
    if FirstVisible(c.items[ch].syms, 0, w).Some? {
      FirstVisibleFinds(c.items[ch].syms, 0, w, s);
    }
  }

  /**
  In y mode exactly the selection is y and every other symbol is n, and there
  is a selection as soon as some symbol is visible; in the other modes no symbol is y.
  */
  lemma ChoiceExclusive(c: Config, us: Users, ch: Id)
    requires WellFormed(c) && ValidUsers(c, us) && LogicalChoice(c, ch)
    ensures var v := Values(c, us);
            ch in v.tri && ch in v.sel && forall s :: s in c.items[ch].syms ==> s in v.tri && s in v.vis
    ensures var v := Values(c, us);
            v.tri[ch].0 == 2 ==>
              && (forall s :: s in c.items[ch].syms ==> v.tri[s].0 == if v.sel[ch] == Some(s) then 2 else 0)
              && (v.sel[ch].Some? <==> exists s :: s in c.items[ch].syms && v.vis[s] != 0)
              && (v.sel[ch].Some? ==> v.sel[ch].value in c.items[ch].syms)
    ensures var v := Values(c, us);
            v.tri[ch].0 != 2 ==> v.sel[ch].None? && forall s :: s in c.items[ch].syms ==> v.tri[s].0 != 2
  {
    hide WellFormed, Values, Justified, Total, Selection, Readable, JustifiedAt;
    ValuesExistUniquely(c, us);
    var v := Values(c, us);
    ModeAndSelection(c, us, v, ch);
    forall s | s in c.items[ch].syms
      ensures s in v.tri && s in v.vis
      ensures v.tri[s].0 == 2 <==> v.vis[s] == 2 && v.sel[ch] == Some(s)
      ensures v.tri[ch].0 == 2 ==> v.tri[s].0 != 1 && v.vis[s] != 1
      ensures v.tri[ch].0 == 2 && v.vis[s] != 0 ==> v.sel[ch].Some?
    {
      MemberIsTotal(c, v, s);
      MemberVisibility(c, us, v, ch, s);
      MemberValue(c, us, v, ch, s);
      if v.tri[ch].0 == 2 && v.vis[s] != 0 {
        VisibleMeansSelected(c, us, v, ch, s);
      }
    }
  }

  lemma MemberIsTotal(c: Config, v: Env, s: Id)
    requires Total(c, v) && s < |c.items|
    ensures s in v.tri && s in v.vis && TotalAt(c, v, s)
  {
    assert TotalAt(c, v, s);
  }

  lemma WellFormedAt(c: Config, i: Id)
    requires WellFormed(c) && i < |c.items|
    ensures WellFormedItem(c, i)
  {}

  lemma ModeAndSelection(c: Config, us: Users, v: Env, ch: Id)
    requires WellFormed(c) && ValidUsers(c, us) && IsChoice(c, ch) && Total(c, v) && Justified(c, us, v)
    ensures ch in v.tri && ch in v.sel && TotalAt(c, v, ch)
    ensures forall s :: s in c.items[ch].syms ==> s < |c.items|
    ensures v.sel[ch].Some? ==>
              var x := v.sel[ch].value;
              v.tri[ch].0 == 2 && x in c.items[ch].syms && x in v.vis && v.vis[x] != 0
  {
    hide WellFormed, Selection, Visibility, TriValue, StrValue, Assignable;
    assert JustifiedAt(c, UserOf(us, ch), v, ch) && TotalAt(c, v, ch);
    assert WellFormedItem(c, ch) by { WellFormedAt(c, ch); }
    SelectionIsVisible(c, us[ch], View(v, Readable(c, ch)), ch);
  }
}
