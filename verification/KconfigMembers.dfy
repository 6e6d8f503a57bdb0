/**
What can be assigned to the symbols of a choice: what each assignment comes to,
and exactly when the assignable values of a symbol are the ones it can take.
*/
module KconfigMembers {
  import opened Options
  import opened KconfigModel
  import opened KconfigSemantics
  import opened KconfigValues
  import opened KconfigSettings
  import opened KconfigChoice
  import opened KconfigMeaning
  import opened KconfigOperations

  predicate Member(c: Config, i: Id, ch: Id) {
    && LogicalChoice(c, ch)
    && i < |c.items| && c.items[i].Symbol? && c.items[i].choice == Some(ch) && i in c.items[ch].syms
  }

  function SymbolExpr(c: Config, v: Env, i: Id, e: Expr): Option<Tri>
    requires i < |c.items|
  {
    ExprValue(e, c, ViewOf(c, v, i))
  }

  // -- the rules of a choice symbol ------------------------------------------

  ghost predicate HasValues(c: Config, v: Env, i: Id, ch: Id) {
    i in v.vis && i in v.tri && i in v.asg && ch in v.tri && ch in v.sel
  }

  /** What a choice symbol is worth, from its visibility, its user value and the selection. */
  function MemberTri(u: User, vis: Tri, selected: bool): Tri {
    if vis == 2 then (if selected then 2 else 0)
    else if vis == 1 && UserTri(u).GetOr(0) != 0 then 1
    else 0
  }

  /** What is offered for it. */
  function MemberOffers(vis: Tri, rev: Option<Tri>, weak: Option<Tri>): seq<Tri> {
    if vis == 0 then []
    else if vis == 2 then [2]
    else if rev == Some(0) then (if weak == Some(2) then [0, 2] else [0, 1])
    else if rev == Some(2) then [2]
    else [1]
  }

  lemma MemberRules(c: Config, us: Users, i: Id, ch: Id)
    requires WellFormed(c) && ValidUsers(c, us) && Member(c, i, ch)
    ensures |us| == |c.items|
    ensures var v := Values(c, us);
      && HasValues(c, v, i, ch) && (v.vis[i] == 1 ==> c.items[i].typ.Tristate?)
      && v.tri[i].0 == MemberTri(us[i], v.vis[i], v.sel[ch] == Some(i))
      && v.asg[i] == MemberOffers(v.vis[i], SymbolExpr(c, v, i, c.items[i].revDep), SymbolExpr(c, v, i, c.items[i].weakRevDep))
      && (v.tri[ch].0 == 2 ==> v.vis[i] != 1)
  {
    ValuesObey(c, us, i);
    ChoiceReadable(c, us[i], Values(c, us), i, ch);
    hide WellFormed, ValidUsers, Values, Obeys;
    ChoiceIsTotal(c, us, i, ch);
    OwnRules(c, us[i], Values(c, us), i, ch);
  }

  lemma ChoiceReadable(c: Config, u: User, v: Env, i: Id, ch: Id)
    requires WellFormed(c) && Member(c, i, ch) && Obeys(c, u, v, i)
    ensures v.vis[i] != 0 ==> ch in Readable(c, i)
  {
    assert IsBoolTri(c.items[i].typ);
    hide WellFormed, Visibility, TriValue, StrValue, Assignable, Readable, NeverShown;
    MemberFacts(c, i);
    if NeverShown(c.items[i]) {
      NeverVisible(i, c, ViewOf(c, v, i));
    }
  }

  lemma ChoiceIsTotal(c: Config, us: Users, i: Id, ch: Id)
    requires WellFormed(c) && ValidUsers(c, us) && Member(c, i, ch)
    ensures var v := Values(c, us); HasValues(c, v, i, ch) && (v.tri[ch].0 == 2 ==> v.vis[i] != 1)
  {
    hide WellFormed, ValidUsers, Values, Justified;
    ValuesExistUniquely(c, us);
    var v := Values(c, us);
    assert TotalAt(c, v, i) && TotalAt(c, v, ch);
    MemberVisibility(c, us, v, ch, i);
  }

  lemma OwnRules(c: Config, u: User, v: Env, i: Id, ch: Id)
    requires Member(c, i, ch) && HasValues(c, v, i, ch) && Obeys(c, u, v, i) && (v.vis[i] != 0 ==> ch in Readable(c, i))
    ensures v.vis[i] == 1 ==> c.items[i].typ.Tristate?
    ensures v.tri[i].0 == MemberTri(u, v.vis[i], v.sel[ch] == Some(i))
    ensures v.asg[i] == MemberOffers(v.vis[i], SymbolExpr(c, v, i, c.items[i].revDep), SymbolExpr(c, v, i, c.items[i].weakRevDep))
  {
    OwnVisibility(c, u, v, i, ch);
    OwnOffers(c, u, v, i, ch);
    assert IsBoolTri(c.items[i].typ);
    hide Visibility, StrValue, Assignable, MemberOffers, Readable;
  }

  lemma OwnVisibility(c: Config, u: User, v: Env, i: Id, ch: Id)
    requires Member(c, i, ch) && HasValues(c, v, i, ch) && Obeys(c, u, v, i) && (v.vis[i] != 0 ==> ch in Readable(c, i))
    ensures v.vis[i] == 1 ==> c.items[i].typ.Tristate?
  {
    hide PromptValue, HiddenByChoice, TriValue, StrValue, Assignable, Readable;
  }

  lemma OwnOffers(c: Config, u: User, v: Env, i: Id, ch: Id)
    requires Member(c, i, ch) && HasValues(c, v, i, ch) && Obeys(c, u, v, i) && (v.vis[i] != 0 ==> ch in Readable(c, i))
    ensures v.asg[i] == MemberOffers(v.vis[i], SymbolExpr(c, v, i, c.items[i].revDep), SymbolExpr(c, v, i, c.items[i].weakRevDep))
  {
    assert IsBoolTri(c.items[i].typ);
    hide SymbolAssignable, Visibility, TriValue, StrValue, Readable, ChoiceAssignable, MemberOffers;
    OffersFrom(c, ViewOf(c, v, i), i, v.vis[i]);
  }

  lemma OffersFrom(c: Config, w: View, i: Id, vis: Tri)
    requires i < |c.items| && c.items[i].Symbol? && IsBoolTri(c.items[i].typ) && c.items[i].choice.Some?
    requires w.Vis(i) == Some(vis) && SymbolAssignable(i, c, w).Some?
    ensures SymbolAssignable(i, c, w).value ==
      MemberOffers(vis, ExprValue(c.items[i].revDep, c, w), ExprValue(c.items[i].weakRevDep, c, w))
  {
    hide ExprValue, NoM;
  }

  // -- after an assignment ----------------------------------------------------

  /** The settings after assigning t. */
  function Assigned(c: Config, s: UserState, i: Id, t: Tri): Users
    requires WellFormed(c) && ValidState(c, s) && i < |c.items| && c.items[i].Symbol?
  {
    SetSymbol(c, s, i, UTri(t)).0.us
  }

  /** An assignment to a choice symbol always succeeds, and y is also a selection. */
  lemma AssignedIs(c: Config, s: UserState, i: Id, ch: Id, t: Tri)
    requires WellFormed(c) && ValidState(c, s) && Member(c, i, ch) && ValidFor(c.lib, c.items[i].typ, UTri(t))
    ensures SetSymbol(c, s, i, UTri(t)).1 && ValidUsers(c, Assigned(c, s, i, t)) && |s.us| == |c.items|
    ensures Assigned(c, s, i, t) == if t == 2 then Chosen(s.us, i, ch) else PutValue(s.us, i, Some(UTri(t)))
    ensures i < |Assigned(c, s, i, t)| && UserTri(Assigned(c, s, i, t)[i]) == Some(t)
  {
    ChangesKeepValid(c, s, i, UTri(t));
    assert IsBoolTri(c.items[i].typ) && |s.us| == |c.items|;
    hide WellFormed, ValidUsers;
  }

  /** An assignment keeps the visibility of the symbol and the mode; the selection changes for y alone. */
  lemma AfterAssignment(c: Config, s: UserState, i: Id, ch: Id, t: Tri)
    requires WellFormed(c) && ValidState(c, s) && Member(c, i, ch) && ValidFor(c.lib, c.items[i].typ, UTri(t))
    requires HasValues(c, Values(c, s.us), i, ch)
    ensures ValidUsers(c, Assigned(c, s, i, t))
    ensures var v, w := Values(c, s.us), Values(c, Assigned(c, s, i, t));
      && i in w.vis && w.vis[i] == v.vis[i]
      && (t == 2 ==> ch in w.tri && w.tri[ch] == v.tri[ch])
      && (t != 2 ==> ch in w.sel && w.sel[ch] == v.sel[ch])
  {
    hide WellFormed, ValidUsers, Values, SetSymbol, Assigned;
    AssignedIs(c, s, i, ch, t);
    if t == 2 {
      ChosenKeepsBelow(c, s.us, i, ch);
    } else {
      OtherKeepsBelow(c, s.us, Assigned(c, s, i, t), i, ch);
    }
  }

  lemma OtherKeepsBelow(c: Config, us: Users, us': Users, i: Id, ch: Id)
    requires WellFormed(c) && ValidUsers(c, us) && ValidUsers(c, us') && Member(c, i, ch) && HasValues(c, Values(c, us), i, ch)
    requires forall j: Id :: j < |us| && j != i ==> us'[j] == us[j]
    ensures var v, w := Values(c, us), Values(c, us');
      i in w.vis && w.vis[i] == v.vis[i] && ch in w.sel && w.sel[ch] == v.sel[ch]
  {
    hide WellFormed, ValidUsers, Values, Cut;
    CutKeepsOwn(c, Values(c, us), i, ch);
    BelowChange(c, us, us', i);
    var f, w := Cut(c, Values(c, us), TriLevel(c, i)), Values(c, us');
    assert WithinAt(f, w, i) && WithinAt(f, w, ch);
  }

  lemma CutKeepsOwn(c: Config, v: Env, i: Id, ch: Id)
    requires WellFormed(c) && Member(c, i, ch) && HasValues(c, v, i, ch)
    ensures var f := Cut(c, v, TriLevel(c, i));
      i in f.vis && f.vis[i] == v.vis[i] && ch in f.sel && f.sel[ch] == v.sel[ch]
  {
    assert IsBoolTri(c.items[i].typ);
    ChoiceLevels(c, i, ch);
    hide WellFormed;
  }

  /** The value of a visible choice symbol after assigning t to it. */
  lemma MemberAfter(c: Config, s: UserState, i: Id, ch: Id, t: Tri)
    requires WellFormed(c) && ValidState(c, s) && Member(c, i, ch) && ValidFor(c.lib, c.items[i].typ, UTri(t))
    ensures SetSymbol(c, s, i, UTri(t)).1
    ensures var v, w := Values(c, s.us), Values(c, Assigned(c, s, i, t));
      && HasValues(c, v, i, ch) && i in w.tri
      && (v.vis[i] == 0 ==> w.tri[i].0 == 0)
      && (v.vis[i] == 1 ==> w.tri[i].0 == if t == 0 then 0 else 1)
      && (v.vis[i] == 2 && t != 2 ==> w.tri[i].0 == if v.sel[ch] == Some(i) then 2 else 0)
      && (v.vis[i] == 2 && t == 2 ==> (w.tri[i].0 == 2 <==> v.tri[ch].0 == 2))
  {
    var us' := Assigned(c, s, i, t);
    hide WellFormed, ValidUsers, Values, SetSymbol, Member, Assigned;
    MemberRules(c, s.us, i, ch);
    AssignedIs(c, s, i, ch, t);
    AfterAssignment(c, s, i, ch, t);
    MemberRules(c, us', i, ch);
    if Values(c, s.us).vis[i] == 2 && t == 2 {
      ChoosingVisible(c, s, i, ch);
    }
  }

  lemma ChoosingVisible(c: Config, s: UserState, i: Id, ch: Id)
    requires WellFormed(c) && ValidState(c, s) && Member(c, i, ch)
    requires var v := Values(c, s.us); HasValues(c, v, i, ch) && v.vis[i] == 2
    ensures var v, w := Values(c, s.us), Values(c, Assigned(c, s, i, 2));
      i in w.tri && (w.tri[i].0 == 2 <==> v.tri[ch].0 == 2)
  {
    hide WellFormed, ValidUsers, Values, SetSymbol;
    assert IsBoolTri(c.items[i].typ);
    if Values(c, s.us).tri[ch].0 == 2 {
      SelectingTakesEffect(c, s, i, ch);
    } else {
      AssignedIs(c, s, i, ch, 2);
      AfterAssignment(c, s, i, ch, 2);
      ChoiceExclusive(c, Assigned(c, s, i, 2), ch);
    }
  }

  // -- what is offered ---------------------------------------------------------

  /** The assignable values are exactly the values an assignment gives. */
  ghost predicate OffersExactly(c: Config, s: UserState, i: Id)
    requires WellFormed(c) && ValidState(c, s) && i < |c.items| && c.items[i].Symbol?
    requires i in Values(c, s.us).asg && i in Values(c, s.us).vis
  {
    forall t: Tri :: ValidFor(c.lib, c.items[i].typ, UTri(t)) ==>
      (t in Values(c, s.us).asg[i] <==> Values(c, s.us).vis[i] != 0 && Becomes(c, s, i, t))
  }

  ghost predicate Becomes(c: Config, s: UserState, i: Id, t: Tri)
    requires WellFormed(c) && ValidState(c, s) && i < |c.items| && c.items[i].Symbol?
  {
    var w := Values(c, Assigned(c, s, i, t));
    i in w.tri && w.tri[i].0 == t
  }

  /** The same, value by value. */
  predicate Matches(asg: seq<Tri>, tristate: bool, n: bool, m: bool, y: bool) {
    (0 in asg <==> n) && (tristate ==> (1 in asg <==> m)) && (2 in asg <==> y)
  }

  lemma OffersValueByValue(c: Config, s: UserState, i: Id)
    requires WellFormed(c) && ValidState(c, s) && i < |c.items| && c.items[i].Symbol? && IsBoolTri(c.items[i].typ)
    requires i in Values(c, s.us).asg && i in Values(c, s.us).vis
    ensures OffersExactly(c, s, i) <==>
      var v := Values(c, s.us);
      var visible := v.vis[i] != 0;
      Matches(v.asg[i], c.items[i].typ.Tristate?, visible && Becomes(c, s, i, 0), visible && Becomes(c, s, i, 1),
              visible && Becomes(c, s, i, 2))
  {
    hide WellFormed, ValidState, Values, Becomes;
    var typ := c.items[i].typ;
    assert ValidFor(c.lib, typ, UTri(0)) && ValidFor(c.lib, typ, UTri(2)) && (ValidFor(c.lib, typ, UTri(1)) <==> typ.Tristate?);
  }

  lemma OfferCases(vis: Tri, rev: Option<Tri>, weak: Option<Tri>, mode: Tri, selected: bool, tristate: bool)
    requires vis == 1 ==> tristate
    ensures Matches(MemberOffers(vis, rev, weak), tristate, vis == 1 || (vis == 2 && !selected), vis == 1, vis == 2 && mode == 2) <==>
      vis == 0 || (vis == 1 && rev == Some(0) && weak != Some(2)) || (vis == 2 && mode == 2 && selected)
  {}

  /**
  For a choice symbol what is offered is exact where it is invisible, where it is
  the selection of a choice in y mode, and at m unless it is selected or implied
  to y. Elsewhere it is not: a symbol implied to y is offered y but becomes m, one
  that is selected is not offered the n it would take, and neither is one that
  is fully visible but not selected.
  */
  lemma MemberAssignable(c: Config, s: UserState, i: Id, ch: Id)
    requires WellFormed(c) && ValidState(c, s) && Member(c, i, ch)
    ensures var v := Values(c, s.us);
      && HasValues(c, v, i, ch)
      && (OffersExactly(c, s, i) <==>
            || v.vis[i] == 0
            || (v.vis[i] == 1 && SymbolExpr(c, v, i, c.items[i].revDep) == Some(0)
                && SymbolExpr(c, v, i, c.items[i].weakRevDep) != Some(2))
            || (v.vis[i] == 2 && v.tri[ch].0 == 2 && v.sel[ch] == Some(i)))
  {
    var v := Values(c, s.us);
    var typ := c.items[i].typ;
    assert IsBoolTri(typ);
    hide WellFormed, ValidState, Values, SetSymbol, Member, Assigned, SymbolExpr, OffersExactly, MemberTri, MemberOffers, Matches, Becomes;
    MemberRules(c, s.us, i, ch);
    OffersValueByValue(c, s, i);
    BecomesWhen(c, s, i, ch);
    var rev, weak := SymbolExpr(c, v, i, c.items[i].revDep), SymbolExpr(c, v, i, c.items[i].weakRevDep);
    OfferCases(v.vis[i], rev, weak, v.tri[ch].0, v.sel[ch] == Some(i), typ.Tristate?);
    MatchesSame(v.asg[i], typ.Tristate?, v.vis[i] != 0 && Becomes(c, s, i, 1), v.vis[i] == 1,
                v.vis[i] == 1 || (v.vis[i] == 2 && v.sel[ch] != Some(i)), v.vis[i] == 2 && v.tri[ch].0 == 2);
  }

  /** What m comes to only matters for tristate symbols. */
  lemma MatchesSame(asg: seq<Tri>, tristate: bool, m: bool, m': bool, n: bool, y: bool)
    requires tristate ==> m == m'
    ensures Matches(asg, tristate, n, m, y) == Matches(asg, tristate, n, m', y)
  {}

  /** Which values a visible choice symbol can take. */
  lemma BecomesWhen(c: Config, s: UserState, i: Id, ch: Id)
    requires WellFormed(c) && ValidState(c, s) && Member(c, i, ch)
    ensures var v := Values(c, s.us);
      && HasValues(c, v, i, ch)
      && (v.vis[i] != 0 && Becomes(c, s, i, 0) <==> v.vis[i] == 1 || (v.vis[i] == 2 && v.sel[ch] != Some(i)))
      && (c.items[i].typ.Tristate? ==> (v.vis[i] != 0 && Becomes(c, s, i, 1) <==> v.vis[i] == 1))
      && (v.vis[i] != 0 && Becomes(c, s, i, 2) <==> v.vis[i] == 2 && v.tri[ch].0 == 2)
  {
    var typ := c.items[i].typ;
    assert IsBoolTri(typ);
    hide WellFormed, ValidState, Values, SetSymbol, Member, Assigned;
    MemberAfter(c, s, i, ch, 0);
    MemberAfter(c, s, i, ch, 2);
    if typ.Tristate? {
      MemberAfter(c, s, i, ch, 1);
    }
  }
}
