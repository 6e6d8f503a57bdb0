/**
Lemmas for the caching evaluator: storing a computed value keeps the cache
sound, and what a rule computed earlier still holds after further reads.
*/
module KconfigGrowth {
  import opened Options
  import opened KconfigModel
  import opened KconfigSemantics
  import opened KconfigValues
  import opened KconfigInvalidation

  // ---------------------------------------------------------------------
  // Growing caches
  // ---------------------------------------------------------------------

  /** What is new at item `i` in `f` follows from `e` by the rules. */
  ghost predicate NewAt(c: Config, u: User, e: Env, f: Env, i: Id) {
    && (i in f.vis && i !in e.vis ==> i < |c.items| && Visibility(i, c, View(e, Readable(c, i))) == Some(f.vis[i]))
    && (i in f.tri && i !in e.tri ==> i < |c.items| && TriValue(i, c, u, View(e, Readable(c, i))) == Some(f.tri[i]))
    && (i in f.str && i !in e.str ==> i < |c.items| && StrValue(i, c, u, View(e, Readable(c, i))) == Some(f.str[i]))
    && (i in f.sel && i !in e.sel ==> IsChoice(c, i) && Selection(i, c, u, View(e, Readable(c, i))) == Some(f.sel[i]))
    && (i in f.asg && i !in e.asg ==> i < |c.items| && Assignable(i, c, View(e, Readable(c, i))) == Some(f.asg[i]))
  }

  lemma NewItemJustified(c: Config, u: User, e: Env, f: Env, i: Id)
    requires WellFormed(c) && i < |c.items| && ValidSelection(c, i, u) && JustifiedAt(c, u, e, i)
    requires Within(e, f) && NewAt(c, u, e, f, i)
    ensures JustifiedAt(c, u, f, i)
  {
    hide Visibility, TriValue, StrValue, Selection, Assignable, Readable, WellFormed, Covers, Within;
    hide VisLevel, TriLevel, StrLevel, SelLevel, AsgLevel;
    var r := Readable(c, i);
    forall level: nat ensures Covers(c, e, f, r, level) {
      WithinCovers(c, e, f, r, level);
    }
    assert WithinAt(e, f, i) by { assert forall j: Id :: WithinAt(e, f, j) by { WithinEverywhere(e, f); } }
    JustifiedNotSeen(c, u, e, i);
    VisibilityStable(i, c, e, f);
    TriValueStable(i, c, u, e, f);
    StrValueStable(i, c, u, e, f);
    if IsChoice(c, i) {
      SelectionStable(i, c, u, e, f);
    }
    AssignableStable(i, c, e, f);
  }

  lemma WithinEverywhere(e: Env, f: Env)
    requires Within(e, f)
    ensures forall j: Id :: WithinAt(e, f, j)
  {}

  lemma GrownJustified(c: Config, us: Users, e: Env, f: Env)
    requires WellFormed(c) && ValidUsers(c, us) && Justified(c, us, e) && Within(e, f)
    requires forall i: Id :: NewAt(c, UserOf(us, i), e, f, i)
    ensures Justified(c, us, f)
  {
    hide Visibility, TriValue, StrValue, Selection, Assignable, Readable, WellFormed, Within;
    forall i: Id ensures JustifiedAt(c, UserOf(us, i), f, i) {
      assert JustifiedAt(c, UserOf(us, i), e, i) && NewAt(c, UserOf(us, i), e, f, i);
      if i < |us| {
        NewItemJustified(c, us[i], e, f, i);
      }
    }
  }

  /** A sound set of cached values. */
  ghost predicate Sound(c: Config, us: Users, e: Env) {
    ValidUsers(c, us) && Justified(c, us, e) && Marked(c, e)
  }

  lemma VisStored(c: Config, us: Users, e: Env, i: Id, v: Tri)
    requires WellFormed(c) && |us| == |c.items| && Sound(c, us, e) && i < |us|
    requires Visibility(i, c, View(e, Readable(c, i))) == Some(v)
    ensures var f := e.(vis := e.vis[i := v]); Sound(c, us, f) && Within(e, f)
  {
    hide Visibility, TriValue, StrValue, Selection, Assignable, Readable, WellFormed;
    var f := e.(vis := e.vis[i := v]);
    assert forall j: Id :: MarkedAt(c, e, j) ==> MarkedAt(c, f, j);
    assert JustifiedAt(c, UserOf(us, i), e, i);
    GrownJustified(c, us, e, f);
  }

  lemma TriStored(c: Config, us: Users, e: Env, i: Id, v: (Tri, bool))
    requires WellFormed(c) && |us| == |c.items| && Sound(c, us, e) && i < |us|
    requires TriValue(i, c, us[i], View(e, Readable(c, i))) == Some(v)
    requires i in e.vis || ConstantTri(c, i)
    ensures var f := e.(tri := e.tri[i := v]); Sound(c, us, f) && Within(e, f)
  {
    hide Visibility, TriValue, StrValue, Selection, Assignable, Readable, WellFormed;
    var f := e.(tri := e.tri[i := v]);
    assert forall j: Id :: MarkedAt(c, e, j) ==> MarkedAt(c, f, j);
    assert JustifiedAt(c, UserOf(us, i), e, i);
    GrownJustified(c, us, e, f);
  }

  lemma StrStored(c: Config, us: Users, e: Env, i: Id, v: (string, bool))
    requires WellFormed(c) && |us| == |c.items| && Sound(c, us, e) && i < |us|
    requires StrValue(i, c, us[i], View(e, Readable(c, i))) == Some(v)
    requires i in e.vis || ConstantStr(c, i)
    ensures var f := e.(str := e.str[i := v]); Sound(c, us, f) && Within(e, f)
  {
    hide Visibility, TriValue, StrValue, Selection, Assignable, Readable, WellFormed;
    var f := e.(str := e.str[i := v]);
    assert forall j: Id :: MarkedAt(c, e, j) ==> MarkedAt(c, f, j);
    assert JustifiedAt(c, UserOf(us, i), e, i);
    GrownJustified(c, us, e, f);
  }

  lemma SelStored(c: Config, us: Users, e: Env, i: Id, v: Option<Id>)
    requires WellFormed(c) && |us| == |c.items| && Sound(c, us, e) && IsChoice(c, i)
    requires Selection(i, c, us[i], View(e, Readable(c, i))) == Some(v)
    requires i in e.vis
    ensures var f := e.(sel := e.sel[i := v]); Sound(c, us, f) && Within(e, f)
  {
    hide Visibility, TriValue, StrValue, Selection, Assignable, Readable, WellFormed;
    var f := e.(sel := e.sel[i := v]);
    assert forall j: Id :: MarkedAt(c, e, j) ==> MarkedAt(c, f, j);
    assert JustifiedAt(c, UserOf(us, i), e, i);
    GrownJustified(c, us, e, f);
  }

  lemma AsgStored(c: Config, us: Users, e: Env, i: Id, v: seq<Tri>)
    requires WellFormed(c) && |us| == |c.items| && Sound(c, us, e) && i < |us|
    requires Assignable(i, c, View(e, Readable(c, i))) == Some(v)
    requires i in e.vis || ConstantTri(c, i)
    ensures var f := e.(asg := e.asg[i := v]); Sound(c, us, f) && Within(e, f)
  {
    hide Visibility, TriValue, StrValue, Selection, Assignable, Readable, WellFormed;
    var f := e.(asg := e.asg[i := v]);
    assert forall j: Id :: MarkedAt(c, e, j) ==> MarkedAt(c, f, j);
    assert JustifiedAt(c, UserOf(us, i), e, i);
    GrownJustified(c, us, e, f);
  }

  // ---------------------------------------------------------------------
  // Reads survive later reads
  // ---------------------------------------------------------------------

  lemma WithinTrans(e: Env, f: Env, g: Env)
    requires Within(e, f) && Within(f, g)
    ensures Within(e, g)
  {
    forall i: Id ensures WithinAt(e, g, i) {
      assert WithinAt(e, f, i) && WithinAt(f, g, i);
    }
  }

  lemma WithinSelf(e: Env)
    ensures Within(e, e)
  {}

  lemma WithinItem(e: Env, f: Env, i: Id)
    requires Within(e, f)
    ensures WithinAt(e, f, i)
  {}

  lemma KeepPrompts(c: Config, i: Id, k: nat, e: Env, f: Env)
    requires WellFormed(c) && i < |c.items| && k <= |c.items[i].prompts| && Within(e, f)
    ensures var ps, r := c.items[i].prompts, Readable(c, i);
            PromptValue(ps, k, c, View(e, r)).Some? ==>
              PromptValue(ps, k, c, View(f, r)) == PromptValue(ps, k, c, View(e, r))
  {
    hide Within;
    assert WellFormedItem(c, i);
    WithinCovers(c, e, f, Readable(c, i), VisLevel(c, i));
    PromptValueStable(c.items[i].prompts, k, c, e, f, Readable(c, i), VisLevel(c, i));
  }

  lemma KeepHidden(c: Config, i: Id, vis: Tri, e: Env, f: Env)
    requires WellFormed(c) && i < |c.items| && ModeReadable(c.items[i]) && Within(e, f)
    ensures var d, r := c.items[i], Readable(c, i);
            HiddenByChoice(d, vis, c, View(e, r)).Some? ==>
              HiddenByChoice(d, vis, c, View(f, r)) == HiddenByChoice(d, vis, c, View(e, r))
  {
    hide Within, WellFormed;
    WithinCovers(c, e, f, Readable(c, i), VisLevel(c, i));
    HiddenStable(i, vis, c, e, f);
  }

  /** Item `i` may evaluate `x` at `level`. */
  predicate MayRead(c: Config, i: Id, x: Expr, level: nat)
    requires i < |c.items|
  {
    ExprBelow(c, x, level) && ExprItems(x) <= Readable(c, i)
  }

  lemma KeepExpr(x: Expr, c: Config, i: Id, e: Env, f: Env, level: nat)
    requires i < |c.items| && MayRead(c, i, x, level) && Within(e, f)
    requires ExprValue(x, c, View(e, Readable(c, i))).Some?
    ensures ExprValue(x, c, View(f, Readable(c, i))) == ExprValue(x, c, View(e, Readable(c, i)))
  {
    hide Within;
    WithinCovers(c, e, f, Readable(c, i), level);
    ExprStable(x, c, e, f, Readable(c, i), level);
  }

  lemma KeepOperand(o: Operand, c: Config, i: Id, e: Env, f: Env, level: nat)
    requires i < |c.items| && StrBelow(c, o, level) && OperandItems(o) <= Readable(c, i) && Within(e, f)
    ensures var r := Readable(c, i);
            && (View(e, r).Str(o).Some? ==> View(f, r).Str(o) == View(e, r).Str(o))
            && (SymToNum(o, c, View(e, r)).Some? ==> SymToNum(o, c, View(f, r)) == SymToNum(o, c, View(e, r)))
  {
    hide Within;
    WithinCovers(c, e, f, Readable(c, i), level);
    OperandStable(o, c, e, f, Readable(c, i), level);
  }

  lemma PromptReadable(c: Config, i: Id, k: nat)
    requires WellFormed(c) && i < |c.items| && k < |c.items[i].prompts|
    ensures MayRead(c, i, c.items[i].prompts[k], VisLevel(c, i))
  {
    assert WellFormedItem(c, i);
    var ps := c.items[i].prompts;
    assert ExprItems(ps[k]) <= ExprsItems(ps);
  }

  lemma PlainReadable(c: Config, i: Id)
    requires WellFormed(c) && i < |c.items| && UsesDefaults(c.items[i]) && IsBoolTri(c.items[i].typ)
    ensures VisLevel(c, i) < TriLevel(c, i)
    ensures MayRead(c, i, c.items[i].revDep, TriLevel(c, i))
    ensures MayRead(c, i, c.items[i].weakRevDep, TriLevel(c, i))
    ensures MayRead(c, i, c.items[i].directDep, TriLevel(c, i))
  {
    PlainFacts(c, i);
  }

  lemma SelectsReadable(c: Config, i: Id)
    requires WellFormed(c) && i < |c.items| && c.items[i].Symbol? && IsBoolTri(c.items[i].typ)
    ensures VisLevel(c, i) < AsgLevel(c, i)
    ensures MayRead(c, i, c.items[i].revDep, AsgLevel(c, i))
    ensures MayRead(c, i, c.items[i].weakRevDep, AsgLevel(c, i))
  {
    LogicalFacts(c, i);
  }

  lemma DefaultReadable(c: Config, i: Id, k: nat)
    requires WellFormed(c) && i < |c.items| && UsesDefaults(c.items[i]) && k < |c.items[i].defaults|
    ensures MayRead(c, i, c.items[i].defaults[k].cond, ValueLevel(c, i))
    ensures MayRead(c, i, c.items[i].defaults[k].value, ValueLevel(c, i))
    ensures !IsBoolTri(c.items[i].typ) ==>
              var v := c.items[i].defaults[k].value;
              v.Val? && StrBelow(c, v.operand, ValueLevel(c, i)) && OperandItems(v.operand) <= Readable(c, i)
  {
    DefaultFacts(c, i, k);
    DefaultItems(c.items[i].defaults, k);
  }

  // Defaults and ranges are searched in order; these say that the first `k` did not apply.

  ghost predicate Inactive(ds: seq<Default>, k: nat, c: Config, v: View)
    requires k <= |ds|
  {
    forall j :: 0 <= j < k ==> ExprValue(ds[j].cond, c, v) == Some(0)
  }

  lemma {:induction false} SkipInactive(ds: seq<Default>, k: nat, c: Config, v: View)
    requires k <= |ds| && Inactive(ds, k, c, v)
    ensures ActiveDefault(ds, 0, c, v) == ActiveDefault(ds, k, c, v)
  {
    if k > 0 {
      SkipInactive(ds, k - 1, c, v);
    }
  }

  lemma KeepInactive(c: Config, i: Id, k: nat, e: Env, f: Env)
    requires WellFormed(c) && i < |c.items| && UsesDefaults(c.items[i]) && k <= |c.items[i].defaults| && Within(e, f)
    requires Inactive(c.items[i].defaults, k, c, View(e, Readable(c, i)))
    ensures Inactive(c.items[i].defaults, k, c, View(f, Readable(c, i)))
  {
    hide WellFormed, Within, Readable, ExprValue;
    forall j | 0 <= j < k
      ensures ExprValue(c.items[i].defaults[j].cond, c, View(f, Readable(c, i))) == Some(0)
    {
      DefaultReadable(c, i, j);
      KeepExpr(c.items[i].defaults[j].cond, c, i, e, f, ValueLevel(c, i));
    }
  }

  lemma ActiveReadable(c: Config, i: Id, v: View)
    requires WellFormed(c) && i < |c.items| && UsesDefaults(c.items[i])
    ensures var a := ActiveDefault(c.items[i].defaults, 0, c, v);
            a.Some? && a.value.Some? ==>
              var x := a.value.value.0;
              && MayRead(c, i, x, ValueLevel(c, i))
              && (!IsBoolTri(c.items[i].typ) ==>
                    x.Val? && StrBelow(c, x.operand, ValueLevel(c, i)) && OperandItems(x.operand) <= Readable(c, i))
  {
    hide WellFormed, Readable, ExprValue, ActiveDefault;
    var ds := c.items[i].defaults;
    ActiveDefaultIsDefault(ds, 0, c, v);
    forall j | 0 <= j < |ds|
      ensures MayRead(c, i, ds[j].value, ValueLevel(c, i))
      ensures !IsBoolTri(c.items[i].typ) ==>
                ds[j].value.Val? && StrBelow(c, ds[j].value.operand, ValueLevel(c, i)) && OperandItems(ds[j].value.operand) <= Readable(c, i)
    {
      DefaultReadable(c, i, j);
    }
  }

  lemma KeepActive(c: Config, i: Id, e: Env, f: Env)
    requires WellFormed(c) && i < |c.items| && UsesDefaults(c.items[i]) && Within(e, f)
    ensures var ds, r := c.items[i].defaults, Readable(c, i);
            ActiveDefault(ds, 0, c, View(e, r)).Some? ==>
              ActiveDefault(ds, 0, c, View(f, r)) == ActiveDefault(ds, 0, c, View(e, r))
  {
    hide WellFormed, Within, Readable, ActiveDefault;
    WithinCovers(c, e, f, Readable(c, i), ValueLevel(c, i));
    ActiveDefaultStable(i, 0, c, e, f);
  }

  lemma KeepDefaultTri(c: Config, i: Id, write: bool, e: Env, f: Env)
    requires WellFormed(c) && i < |c.items| && UsesDefaults(c.items[i]) && Within(e, f)
    ensures var d, r := c.items[i], Readable(c, i);
            DefaultTri(d, write, c, View(e, r)).Some? ==>
              DefaultTri(d, write, c, View(f, r)) == DefaultTri(d, write, c, View(e, r))
  {
    hide WellFormed, Within, Readable, ActiveDefault, ExprValue, ExprBelow;
    KeepActive(c, i, e, f);
    var r := Readable(c, i);
    var a := ActiveDefault(c.items[i].defaults, 0, c, View(e, r));
    ActiveReadable(c, i, View(e, r));
    if a.Some? && a.value.Some? && ExprValue(a.value.value.0, c, View(e, r)).Some? {
      KeepExpr(a.value.value.0, c, i, e, f, ValueLevel(c, i));
    }
  }

  lemma KeepBaseTri(c: Config, i: Id, u: User, vis: Tri, e: Env, f: Env)
    requires WellFormed(c) && i < |c.items| && UsesDefaults(c.items[i]) && IsBoolTri(c.items[i].typ) && Within(e, f)
    ensures var d, r := c.items[i], Readable(c, i);
            BaseTri(d, u, vis, c, View(e, r)).Some? ==>
              BaseTri(d, u, vis, c, View(f, r)) == BaseTri(d, u, vis, c, View(e, r))
  {
    hide WellFormed, Within, Readable, BaseTri;
    WithinCovers(c, e, f, Readable(c, i), TriLevel(c, i));
    BaseTriStable(i, u, vis, c, e, f);
  }

  lemma KeepType(c: Config, i: Id, e: Env, f: Env)
    requires WellFormed(c) && i < |c.items| && ModeReadable(c.items[i]) && Within(e, f)
    ensures var r := Readable(c, i);
            TypeOf(i, c, View(e, r)).Some? ==> TypeOf(i, c, View(f, r)) == TypeOf(i, c, View(e, r))
  {
    hide WellFormed, Within, Readable, TypeOf;
    WithinCovers(c, e, f, Readable(c, i), VisLevel(c, i));
    TypeStable(i, c, e, f, VisLevel(c, i));
  }

  ghost predicate UnselectedAt(d: ChoiceDefault, c: Config, v: View) {
    ExprValue(d.cond, c, v) == Some(0) || (ExprValue(d.cond, c, v).Some? && v.Vis(d.sym) == Some(0))
  }

  ghost predicate Unselected(ds: seq<ChoiceDefault>, k: nat, c: Config, v: View)
    requires k <= |ds|
  {
    forall j :: 0 <= j < k ==> UnselectedAt(ds[j], c, v)
  }

  lemma {:induction false} SkipUnselected(ds: seq<ChoiceDefault>, k: nat, c: Config, v: View)
    requires k <= |ds| && Unselected(ds, k, c, v)
    ensures DefaultSelection(ds, 0, c, v) == DefaultSelection(ds, k, c, v)
  {
    if k > 0 {
      SkipUnselected(ds, k - 1, c, v);
      assert UnselectedAt(ds[k - 1], c, v);
    }
  }

  lemma KeepUnselected(c: Config, i: Id, k: nat, e: Env, f: Env)
    requires WellFormed(c) && IsChoice(c, i) && k <= |c.items[i].choiceDefaults| && Within(e, f)
    requires Unselected(c.items[i].choiceDefaults, k, c, View(e, Readable(c, i)))
    ensures Unselected(c.items[i].choiceDefaults, k, c, View(f, Readable(c, i)))
  {
    hide WellFormed, Within, Readable, ExprValue;
    var ds := c.items[i].choiceDefaults;
    forall j | 0 <= j < k ensures UnselectedAt(ds[j], c, View(f, Readable(c, i))) {
      assert UnselectedAt(ds[j], c, View(e, Readable(c, i)));
      ChoiceDefaultFacts(c, i, j);
      KeepExpr(ds[j].cond, c, i, e, f, SelLevel(c, i));
      WithinItem(e, f, ds[j].sym);
    }
  }

  lemma SelectionCases(i: Id, c: Config, u: User, v: View)
    requires IsChoice(c, i) && v.Tri(Item(i)).Some?
    ensures v.Tri(Item(i)) != Some(2) ==> Selection(i, c, u, v) == Some(None)
    ensures v.Tri(Item(i)) == Some(2) && u.selection.Some? && v.Vis(u.selection.value).GetOr(0) != 0 ==>
              Selection(i, c, u, v) == Some(u.selection)
    ensures v.Tri(Item(i)) == Some(2) && (u.selection.None? || v.Vis(u.selection.value) == Some(0)) ==>
              Selection(i, c, u, v) == SelectionFromDefaults(c.items[i], c, v)
  {
    hide SelectionFromDefaults;
  }

  lemma AssignableCases(i: Id, c: Config, v: View, vis: Tri)
    requires i < |c.items| && c.items[i].Symbol? && IsBoolTri(c.items[i].typ) && v.Vis(i) == Some(vis)
    ensures vis == 0 ==> SymbolAssignable(i, c, v) == Some([])
    ensures var d := c.items[i];
            var rev := ExprValue(d.revDep, c, v);
            vis == 2 && rev.Some? ==>
              if d.choice.Some? || rev.value == 2 then SymbolAssignable(i, c, v) == Some([2])
              else NoM(i, c, v).Some? ==>
                SymbolAssignable(i, c, v) ==
                Some(if rev.value == 0 then (if NoM(i, c, v).value then [0, 2] else [0, 1, 2])
                     else if NoM(i, c, v).value then [2] else [1, 2])
    ensures var d := c.items[i];
            var rev := ExprValue(d.revDep, c, v);
            vis == 1 && rev.Some? ==>
              if rev.value == 0 then
                var weak := ExprValue(d.weakRevDep, c, v);
                weak.Some? ==> SymbolAssignable(i, c, v) == Some(if weak.value != 2 then [0, 1] else [0, 2])
              else SymbolAssignable(i, c, v) == Some(if rev.value == 2 then [2] else [1])
  {
    hide ExprValue, NoM;
  }

  lemma BoolStr(c: Config, u: User, v: View, i: Id)
    requires i < |c.items| && IsBoolTri(c.items[i].typ) && v.Tri(Item(i)).Some?
    ensures StrValue(i, c, u, v) == Some((TriToStr(v.Tri(Item(i)).value), false))
  {}

  lemma NothingUnselected(ds: seq<ChoiceDefault>, c: Config, v: View)
    ensures Unselected(ds, 0, c, v)
  {}

  lemma OneMoreUnselected(ds: seq<ChoiceDefault>, k: nat, c: Config, v: View)
    requires k < |ds| && Unselected(ds, k, c, v) && UnselectedAt(ds[k], c, v)
    ensures Unselected(ds, k + 1, c, v)
  {
    hide UnselectedAt;
  }

  lemma KeepDefaultSelection(c: Config, i: Id, e: Env, f: Env)
    requires WellFormed(c) && IsChoice(c, i) && Within(e, f)
    ensures var ds, r := c.items[i].choiceDefaults, Readable(c, i);
            DefaultSelection(ds, 0, c, View(e, r)).Some? ==>
              DefaultSelection(ds, 0, c, View(f, r)) == DefaultSelection(ds, 0, c, View(e, r))
  {
    hide WellFormed, Within, Readable, DefaultSelection;
    WithinCovers(c, e, f, Readable(c, i), SelLevel(c, i));
    DefaultSelectionStable(i, 0, c, e, f);
  }

  ghost predicate Invisible(syms: seq<Id>, k: nat, v: View)
    requires k <= |syms|
  {
    forall j :: 0 <= j < k ==> v.Vis(syms[j]) == Some(0)
  }

  lemma {:induction false} SkipInvisible(syms: seq<Id>, k: nat, v: View)
    requires k <= |syms| && Invisible(syms, k, v)
    ensures FirstVisible(syms, 0, v) == FirstVisible(syms, k, v)
  {
    if k > 0 {
      SkipInvisible(syms, k - 1, v);
    }
  }

  lemma KeepInvisible(syms: seq<Id>, k: nat, r: set<Id>, e: Env, f: Env)
    requires k <= |syms| && Within(e, f) && Invisible(syms, k, View(e, r))
    ensures Invisible(syms, k, View(f, r))
  {
    hide Within;
    forall j | 0 <= j < k ensures View(f, r).Vis(syms[j]) == Some(0) {
      WithinItem(e, f, syms[j]);
    }
  }

  ghost predicate NoRange(rs: seq<Range>, k: nat, c: Config, v: View)
    requires k <= |rs|
  {
    forall j :: 0 <= j < k ==> ExprValue(rs[j].cond, c, v) == Some(0)
  }

  lemma {:induction false} SkipNoRange(t: Type, rs: seq<Range>, k: nat, c: Config, v: View)
    requires k <= |rs| && NoRange(rs, k, c, v)
    ensures ActiveRange(t, rs, 0, c, v) == ActiveRange(t, rs, k, c, v)
  {
    if k > 0 {
      SkipNoRange(t, rs, k - 1, c, v);
    }
  }

  lemma RangeReadable(c: Config, i: Id, k: nat)
    requires WellFormed(c) && i < |c.items| && IsNumber(c.items[i]) && k < |c.items[i].ranges|
    ensures var x := c.items[i].ranges[k];
            && MayRead(c, i, x.cond, StrLevel(c, i))
            && StrBelow(c, x.low, StrLevel(c, i)) && OperandItems(x.low) <= Readable(c, i)
            && StrBelow(c, x.high, StrLevel(c, i)) && OperandItems(x.high) <= Readable(c, i)
  {
    RangeFacts(c, i, k);
    RangeItems(c.items[i].ranges, k);
  }

  lemma KeepNoRange(c: Config, i: Id, k: nat, e: Env, f: Env)
    requires WellFormed(c) && i < |c.items| && IsNumber(c.items[i]) && k <= |c.items[i].ranges| && Within(e, f)
    requires NoRange(c.items[i].ranges, k, c, View(e, Readable(c, i)))
    ensures NoRange(c.items[i].ranges, k, c, View(f, Readable(c, i)))
  {
    hide WellFormed, Within, Readable, ExprValue;
    forall j | 0 <= j < k ensures ExprValue(c.items[i].ranges[j].cond, c, View(f, Readable(c, i))) == Some(0) {
      RangeReadable(c, i, j);
      KeepExpr(c.items[i].ranges[j].cond, c, i, e, f, StrLevel(c, i));
    }
  }

  lemma KeepRange(c: Config, i: Id, e: Env, f: Env)
    requires WellFormed(c) && i < |c.items| && IsNumber(c.items[i]) && Within(e, f)
    ensures var t, rs, r := c.items[i].typ, c.items[i].ranges, Readable(c, i);
            ActiveRange(t, rs, 0, c, View(e, r)).Some? ==>
              ActiveRange(t, rs, 0, c, View(f, r)) == ActiveRange(t, rs, 0, c, View(e, r))
  {
    hide WellFormed, Within, Readable, ActiveRange;
    WithinCovers(c, e, f, Readable(c, i), StrLevel(c, i));
    ActiveRangeStable(i, c, e, f);
  }

  /** MODULES and the choice come before what looks at them. */
  lemma ModeFacts(c: Config, i: Id)
    requires WellFormed(c) && i < |c.items|
    ensures c.items[i].typ.Tristate? ==>
              c.modules < |c.items| && c.modules in Readable(c, i) && TriLevel(c, c.modules) < VisLevel(c, i)
    ensures c.items[i].Symbol? && c.items[i].choice.Some? ==>
              IsChoice(c, c.items[i].choice.value) && (NeverShown(c.items[i]) || ModeReadable(c.items[i]))
    ensures LooksAtMode(c, c.items[i]) ==> TriLevel(c, c.items[i].choice.value) < VisLevel(c, i)
    ensures ModeReadable(c.items[i]) && c.items[i].Symbol? && c.items[i].choice.Some? ==> c.items[i].choice.value in Readable(c, i)
  {
    assert WellFormedItem(c, i);
  }

  /** A symbol with a prompt that is not n reads the mode of its choice. */
  lemma VisibleReadsMode(c: Config, i: Id, v: View, vis: Tri)
    requires WellFormed(c) && i < |c.items| && PromptValue(c.items[i].prompts, |c.items[i].prompts|, c, v) == Some(vis)
    ensures vis != 0 ==> ModeReadable(c.items[i])
  {
    if NeverShown(c.items[i]) {
      NeverPrompted(c.items[i], |c.items[i].prompts|, c, v);
    } else {
      ShownReadsMode(c, i);
    }
  }

  lemma OwnReadable(c: Config, i: Id)
    requires i < |c.items|
    ensures i in Readable(c, i)
  {}

  lemma ChoiceMemberFacts(c: Config, i: Id, s: Id)
    requires WellFormed(c) && IsChoice(c, i) && s in c.items[i].syms
    ensures s < |c.items| && s in Readable(c, i) && VisLevel(c, s) < SelLevel(c, i)
  {
    assert WellFormedItem(c, i);
    assert WellFormedItem(c, s);
  }

  // ---------------------------------------------------------------------
  // User changes
  // ---------------------------------------------------------------------

  /** Only defined symbols accept values. */
  lemma ValidIsLive(c: Config, i: Id, v: UserValue)
    requires WellFormed(c) && i < |c.items| && ValidFor(c.lib, c.items[i].typ, v)
    ensures Live(c, i)
  {
    assert WellFormedItem(c, i);
  }

  /** A choice symbol may read its choice. */
  lemma ChoiceFacts(c: Config, i: Id)
    requires WellFormed(c) && i < |c.items| && c.items[i].Symbol? && c.items[i].choice.Some?
    ensures var ch := c.items[i].choice.value;
            IsChoice(c, ch) && Live(c, ch) && (NeverShown(c.items[i]) || ch in Readable(c, i)) && ch != i
  {
    assert WellFormedItem(c, i);
  }

  /** Only defined symbols hold values. */
  lemma StoredIsLive(c: Config, us: Users, i: Id)
    requires WellFormed(c) && ValidUsers(c, us) && i < |us| && us[i].value.Some?
    ensures Live(c, i)
  {
    assert ValidValue(c, i, us[i]);
    ValidIsLive(c, i, us[i].value.value);
  }
}
