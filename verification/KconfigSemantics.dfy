/**
The cache-free meaning of a configuration: the unique assignment of values in
which every value is what its rule computes from the other values. It exists
for every well-formed configuration, and every set of known values in which
each entry is justified by other entries is part of it.
*/
module KconfigSemantics {
  import opened Options
  import opened KconfigModel

  // ---------------------------------------------------------------------
  // Evaluation order and well-formedness
  // ---------------------------------------------------------------------

  function VisLevel(c: Config, i: Id): nat {
    if i < |c.levels| then c.levels[i].vis else 0
  }

  function TriLevel(c: Config, i: Id): nat {
    if i < |c.levels| then c.levels[i].tri else 0
  }

  function SelLevel(c: Config, i: Id): nat {
    if i < |c.levels| then c.levels[i].sel else 0
  }

  function StrLevel(c: Config, i: Id): nat {
    if i < |c.levels| then c.levels[i].str else 0
  }

  function AsgLevel(c: Config, i: Id): nat {
    if i < |c.levels| then c.levels[i].asg else 0
  }

  predicate IsChoice(c: Config, i: Id) {
    i < |c.items| && c.items[i].Choice?
  }

  predicate TriBelow(c: Config, o: Operand, level: nat) {
    o.Item? ==> o.id < |c.items| && TriLevel(c, o.id) < level
  }

  predicate StrBelow(c: Config, o: Operand, level: nat) {
    o.Item? ==> o.id < |c.items| && c.items[o.id].Symbol? && TriLevel(c, o.id) < level && StrLevel(c, o.id) < level
  }

  predicate ExprBelow(c: Config, e: Expr, level: nat) {
    match e
    case Val(o) => TriBelow(c, o, level)
    case And(l, r) => ExprBelow(c, l, level) && ExprBelow(c, r, level)
    case Or(l, r) => ExprBelow(c, l, level) && ExprBelow(c, r, level)
    case Not(x) => ExprBelow(c, x, level)
    case Compare(_, a, b) => StrBelow(c, a, level) && StrBelow(c, b, level)
  }

  predicate ExprsBelow(c: Config, es: seq<Expr>, level: nat) {
    forall k :: 0 <= k < |es| ==> ExprBelow(c, es[k], level)
  }

  predicate DefaultBelow(c: Config, t: Type, d: Default, level: nat) {
    && ExprBelow(c, d.cond, level)
    && ExprBelow(c, d.value, level)
    && (!IsBoolTri(t) ==> d.value.Val? && StrBelow(c, d.value.operand, level))
  }

  predicate RangeBelow(c: Config, r: Range, level: nat) {
    StrBelow(c, r.low, level) && StrBelow(c, r.high, level) && ExprBelow(c, r.cond, level)
  }

  /** No prompt can ever be anything but n. */
  predicate NeverShown(d: Def) {
    forall k :: 0 <= k < |d.prompts| ==> d.prompts[k] == N
  }

  /** The choice is among the items the symbol is a dependent of, if it can be visible at all. */
  predicate ModeReadable(d: Def) {
    d.Symbol? && d.choice.Some? ==> d.choice.value in PropertyItems(d)
  }

  /** The visibility of symbol `d` looks at the mode of its choice. */
  predicate LooksAtMode(c: Config, d: Def) {
    d.Symbol? && d.choice.Some? && (d.typ.Tristate? || OrigType(c, Item(d.choice.value)).Tristate?)
  }

  predicate DefaultsBelow(c: Config, d: Def, level: nat)
    requires d.Symbol?
  {
    forall k :: 0 <= k < |d.defaults| ==> DefaultBelow(c, d.typ, d.defaults[k], level)
  }

  /** The levels of a bool or tristate symbol: in a choice the selection decides, otherwise defaults, implies and selects. */
  predicate LogicalBelow(c: Config, i: Id)
    requires i < |c.items| && c.items[i].Symbol?
  {
    var d := c.items[i];
    && VisLevel(c, i) < TriLevel(c, i) < StrLevel(c, i) && VisLevel(c, i) < AsgLevel(c, i)
    && ExprBelow(c, d.revDep, AsgLevel(c, i)) && ExprBelow(c, d.weakRevDep, AsgLevel(c, i))
    && (if d.choice.Some? then SelLevel(c, d.choice.value) < TriLevel(c, i)
        else
          && DefaultsBelow(c, d, TriLevel(c, i)) && ExprBelow(c, d.revDep, TriLevel(c, i))
          && ExprBelow(c, d.weakRevDep, TriLevel(c, i)) && ExprBelow(c, d.directDep, TriLevel(c, i)))
  }

  /** The levels of a string, int or hex symbol. */
  predicate TextBelow(c: Config, i: Id)
    requires i < |c.items| && c.items[i].Symbol?
  {
    var d := c.items[i];
    && VisLevel(c, i) < StrLevel(c, i) && DefaultsBelow(c, d, StrLevel(c, i))
    && (!d.typ.String? ==> forall k :: 0 <= k < |d.ranges| ==> RangeBelow(c, d.ranges[k], StrLevel(c, i)))
  }

  predicate WellFormedSymbol(c: Config, i: Id)
    requires i < |c.items| && c.items[i].Symbol?
  {
    var d := c.items[i];
    && ExprsBelow(c, d.prompts, VisLevel(c, i))
    && (LooksAtMode(c, d) ==> TriLevel(c, d.choice.value) < VisLevel(c, i))
    && (IsBoolTri(d.typ) ==> LogicalBelow(c, i))
    && (!IsBoolTri(d.typ) && !d.typ.Unknown? ==> TextBelow(c, i))
    && (d.choice.Some? ==>
          && IsChoice(c, d.choice.value) && i in c.items[d.choice.value].syms
          && (NeverShown(d) || ModeReadable(d)))
    && (!d.defined ==> d.typ.Unknown? && d.prompts == [] && d.choice.None?)
  }

  predicate WellFormedChoice(c: Config, i: Id)
    requires i < |c.items| && c.items[i].Choice?
  {
    var d := c.items[i];
    && ExprsBelow(c, d.prompts, VisLevel(c, i))
    && VisLevel(c, i) < TriLevel(c, i) && TriLevel(c, i) < SelLevel(c, i) && TriLevel(c, i) < StrLevel(c, i)
    && VisLevel(c, i) < AsgLevel(c, i)
    && (forall k :: 0 <= k < |d.choiceDefaults| ==>
          ExprBelow(c, d.choiceDefaults[k].cond, SelLevel(c, i)) && d.choiceDefaults[k].sym in d.syms)
    && (forall s :: s in d.syms ==>
          s < |c.items| && c.items[s].Symbol? && c.items[s].choice == Some(i) && VisLevel(c, s) < SelLevel(c, i))
  }

  predicate WellFormedItem(c: Config, i: Id)
    requires i < |c.items|
  {
    && (if c.items[i].Symbol? then WellFormedSymbol(c, i) else WellFormedChoice(c, i))
    && (c.items[i].typ.Tristate? ==> TriLevel(c, c.modules) < VisLevel(c, i))
  }

  /**
  Every value only looks at values of lower level, a choice symbol belongs to its
  choice only and depends on it unless it is never shown, choice defaults name
  symbols of the choice, and MODULES is not itself tristate.
  */
  predicate WellFormed(c: Config) {
    && |c.levels| == |c.items|
    && c.modules < |c.items| && c.items[c.modules].Symbol? && !c.items[c.modules].typ.Tristate?
    && forall i :: 0 <= i < |c.items| ==> WellFormedItem(c, i)
  }

  // ---------------------------------------------------------------------
  // Rules only read below their level
  // ---------------------------------------------------------------------

  ghost predicate CoversAt(c: Config, v: Env, w: Env, level: nat, i: Id) {
    && (i in v.vis && VisLevel(c, i) < level ==> i in w.vis && w.vis[i] == v.vis[i])
    && (i in v.tri && TriLevel(c, i) < level ==> i in w.tri && w.tri[i] == v.tri[i])
    && (i in v.str && StrLevel(c, i) < level ==> i in w.str && w.str[i] == v.str[i])
    && (i in v.sel && SelLevel(c, i) < level ==> i in w.sel && w.sel[i] == v.sel[i])
  }

  /** `w` has every value below `level` that `v` has for readable items. */
  ghost predicate Covers(c: Config, v: Env, w: Env, readable: set<Id>, level: nat) {
    forall i: Id :: i in readable ==> CoversAt(c, v, w, level, i)
  }

  /** `v` has every value below `level`. */
  ghost predicate Complete(c: Config, v: Env, level: nat) {
    forall i: Id :: i < |c.items| ==>
      && (VisLevel(c, i) < level ==> i in v.vis)
      && (TriLevel(c, i) < level ==> i in v.tri)
      && (StrLevel(c, i) < level ==> i in v.str)
      && (SelLevel(c, i) < level && IsChoice(c, i) ==> i in v.sel)
  }

  // Each lemma below says of one rule: a covering view gives the same result,
  // and a complete view gives some result.

  ghost predicate Same<T(!new)>(complete: bool, before: Option<T>, after: Option<T>) {
    (before.Some? ==> after == before) && (complete ==> before.Some?)
  }

  lemma OperandStable(o: Operand, c: Config, v: Env, w: Env, r: set<Id>, level: nat)
    requires StrBelow(c, o, level) && OperandItems(o) <= r && Covers(c, v, w, r, level)
    ensures Same(Complete(c, v, level), View(v, r).Str(o), View(w, r).Str(o))
    ensures Same(Complete(c, v, level), SymToNum(o, c, View(v, r)), SymToNum(o, c, View(w, r)))
  {
    assert o.Item? ==> o.id in OperandItems(o);
  }

  lemma ComparisonStable(a: Operand, b: Operand, c: Config, v: Env, w: Env, r: set<Id>, level: nat)
    requires StrBelow(c, a, level) && StrBelow(c, b, level)
    requires OperandItems(a) <= r && OperandItems(b) <= r
    requires Covers(c, v, w, r, level)
    ensures Same(Complete(c, v, level), Comparison(a, b, c, View(v, r)), Comparison(a, b, c, View(w, r)))
  {
    OperandStable(a, c, v, w, r, level);
    OperandStable(b, c, v, w, r, level);
    var vv, ww := View(v, r), View(w, r);
    assert Same(Complete(c, v, level), CompareAsStrings(a, b, c, vv), CompareAsStrings(a, b, c, ww));
  }

  lemma {:induction false} ExprStable(e: Expr, c: Config, v: Env, w: Env, r: set<Id>, level: nat)
    requires ExprBelow(c, e, level) && ExprItems(e) <= r && Covers(c, v, w, r, level)
    ensures Same(Complete(c, v, level), ExprValue(e, c, View(v, r)), ExprValue(e, c, View(w, r)))
  {
    match e
    case Val(o) =>
      assert o.Item? ==> o.id in OperandItems(o);
    case And(x, y) =>
      ExprStable(x, c, v, w, r, level);
      ExprStable(y, c, v, w, r, level);
    case Or(x, y) =>
      ExprStable(x, c, v, w, r, level);
      ExprStable(y, c, v, w, r, level);
    case Not(x) =>
      ExprStable(x, c, v, w, r, level);
    case Compare(_, a, b) =>
      ComparisonStable(a, b, c, v, w, r, level);
  }

  lemma {:induction false} PromptValueStable(es: seq<Expr>, k: nat, c: Config, v: Env, w: Env, r: set<Id>, level: nat)
    requires k <= |es| && ExprsBelow(c, es, level) && ExprsItems(es) <= r && Covers(c, v, w, r, level)
    ensures Same(Complete(c, v, level), PromptValue(es, k, c, View(v, r)), PromptValue(es, k, c, View(w, r)))
  {
    if k > 0 {
      PromptValueStable(es, k - 1, c, v, w, r, level);
      assert ExprItems(es[k - 1]) <= ExprsItems(es);
      ExprStable(es[k - 1], c, v, w, r, level);
    }
  }

  lemma TypeStable(i: Id, c: Config, v: Env, w: Env, level: nat)
    requires WellFormed(c) && i < |c.items| && ModeReadable(c.items[i])
    requires VisLevel(c, i) <= level
    requires Covers(c, v, w, Readable(c, i), level)
    ensures var r := Readable(c, i);
            Same(Complete(c, v, level), TypeOf(i, c, View(v, r)), TypeOf(i, c, View(w, r)))
  {
    assert WellFormedItem(c, i);
  }

  lemma HiddenStable(i: Id, vis: Tri, c: Config, v: Env, w: Env)
    requires WellFormed(c) && i < |c.items| && ModeReadable(c.items[i]) && Covers(c, v, w, Readable(c, i), VisLevel(c, i))
    ensures var r := Readable(c, i);
            Same(Complete(c, v, VisLevel(c, i)), HiddenByChoice(c.items[i], vis, c, View(v, r)),
                 HiddenByChoice(c.items[i], vis, c, View(w, r)))
  {
    assert WellFormedItem(c, i);
  }

  lemma PromoteStable(i: Id, vis: Tri, c: Config, v: Env, w: Env)
    requires WellFormed(c) && i < |c.items| && ModeReadable(c.items[i]) && Covers(c, v, w, Readable(c, i), VisLevel(c, i))
    ensures var r := Readable(c, i);
            Same(Complete(c, v, VisLevel(c, i)), Promote(i, vis, c, View(v, r)), Promote(i, vis, c, View(w, r)))
  {
    TypeStable(i, c, v, w, VisLevel(c, i));
  }

  lemma {:induction false} NeverPrompted(d: Def, k: nat, c: Config, v: View)
    requires NeverShown(d) && k <= |d.prompts|
    ensures PromptValue(d.prompts, k, c, v) == Some(0)
  {
    if k > 0 {
      NeverPrompted(d, k - 1, c, v);
    }
  }

  lemma NeverVisible(i: Id, c: Config, v: View)
    requires i < |c.items| && NeverShown(c.items[i])
    ensures Visibility(i, c, v) == Some(0)
  {
    NeverPrompted(c.items[i], |c.items[i].prompts|, c, v);
  }

  lemma ShownReadsMode(c: Config, i: Id)
    requires WellFormed(c) && i < |c.items| && !NeverShown(c.items[i])
    ensures ModeReadable(c.items[i])
  {
    assert WellFormedItem(c, i);
  }

  lemma VisibilityStable(i: Id, c: Config, v: Env, w: Env)
    requires WellFormed(c) && i < |c.items| && Covers(c, v, w, Readable(c, i), VisLevel(c, i))
    ensures var r := Readable(c, i);
            Same(Complete(c, v, VisLevel(c, i)), Visibility(i, c, View(v, r)), Visibility(i, c, View(w, r)))
  {
    var d, r, level := c.items[i], Readable(c, i), VisLevel(c, i);
    if NeverShown(d) {
      NeverVisible(i, c, View(v, r));
      NeverVisible(i, c, View(w, r));
    } else {
      ShownReadsMode(c, i);
      assert WellFormedItem(c, i) && ExprsItems(d.prompts) <= r;
      PromptValueStable(d.prompts, |d.prompts|, c, v, w, r, level);
      var vis := PromptValue(d.prompts, |d.prompts|, c, View(v, r));
      if vis.Some? {
        HiddenStable(i, vis.value, c, v, w);
        PromoteStable(i, vis.value, c, v, w);
      }
    }
  }

  lemma ModeStable(i: Id, c: Config, u: User, v: Env, w: Env)
    requires WellFormed(c) && IsChoice(c, i) && Covers(c, v, w, Readable(c, i), TriLevel(c, i))
    ensures var r := Readable(c, i);
            Same(Complete(c, v, TriLevel(c, i)), Mode(i, c, u, View(v, r)), Mode(i, c, u, View(w, r)))
  {
    LogicalFacts(c, i);
    TypeStable(i, c, v, w, TriLevel(c, i));
  }

  lemma ChoiceDefaultFacts(c: Config, i: Id, k: nat)
    requires WellFormed(c) && IsChoice(c, i) && k < |c.items[i].choiceDefaults|
    ensures var x := c.items[i].choiceDefaults[k];
            && ExprBelow(c, x.cond, SelLevel(c, i)) && ExprItems(x.cond) <= Readable(c, i)
            && x.sym in Readable(c, i) && x.sym < |c.items| && VisLevel(c, x.sym) < SelLevel(c, i)
  {
    assert WellFormedItem(c, i);
    var d := c.items[i];
    var x := d.choiceDefaults[k];
    assert x.sym in d.syms && WellFormedItem(c, x.sym);
    assert ExprItems(x.cond) <= ChoiceDefaultsItems(d.choiceDefaults);
  }

  lemma {:induction false} DefaultSelectionStable(i: Id, k: nat, c: Config, v: Env, w: Env)
    requires WellFormed(c) && IsChoice(c, i) && Covers(c, v, w, Readable(c, i), SelLevel(c, i))
    requires k <= |c.items[i].choiceDefaults|
    ensures var r, ds := Readable(c, i), c.items[i].choiceDefaults;
            Same(Complete(c, v, SelLevel(c, i)), DefaultSelection(ds, k, c, View(v, r)), DefaultSelection(ds, k, c, View(w, r)))
    decreases |c.items[i].choiceDefaults| - k
  {
    var ds, r, complete := c.items[i].choiceDefaults, Readable(c, i), Complete(c, v, SelLevel(c, i));
    if k < |ds| {
      DefaultSelectionStable(i, k + 1, c, v, w);
      ChoiceDefaultFacts(c, i, k);
      ExprStable(ds[k].cond, c, v, w, r, SelLevel(c, i));
      assert Same(complete, View(v, r).Vis(ds[k].sym), View(w, r).Vis(ds[k].sym));
      assert Same(complete, ExprValue(ds[k].cond, c, View(v, r)), ExprValue(ds[k].cond, c, View(w, r)));
    }
  }

  lemma ChoiceSymFacts(c: Config, i: Id, k: nat)
    requires WellFormed(c) && IsChoice(c, i) && k < |c.items[i].syms|
    ensures var s := c.items[i].syms[k];
            s in Readable(c, i) && s < |c.items| && VisLevel(c, s) < SelLevel(c, i)
  {
    assert WellFormedItem(c, i);
    var s := c.items[i].syms[k];
    assert s in c.items[i].syms && WellFormedItem(c, s);
  }

  lemma {:induction false} FirstVisibleStable(i: Id, k: nat, c: Config, v: Env, w: Env)
    requires WellFormed(c) && IsChoice(c, i) && Covers(c, v, w, Readable(c, i), SelLevel(c, i))
    requires k <= |c.items[i].syms|
    ensures var r, syms := Readable(c, i), c.items[i].syms;
            Same(Complete(c, v, SelLevel(c, i)), FirstVisible(syms, k, View(v, r)), FirstVisible(syms, k, View(w, r)))
    decreases |c.items[i].syms| - k
  {
    hide WellFormed;
    var syms, r, complete := c.items[i].syms, Readable(c, i), Complete(c, v, SelLevel(c, i));
    if k < |syms| {
      FirstVisibleStable(i, k + 1, c, v, w);
      ChoiceSymFacts(c, i, k);
      assert Same(complete, View(v, r).Vis(syms[k]), View(w, r).Vis(syms[k]));
    }
  }

  lemma DefaultItems(ds: seq<Default>, k: nat)
    requires k < |ds|
    ensures ExprItems(ds[k].cond) <= DefaultsItems(ds) && ExprItems(ds[k].value) <= DefaultsItems(ds)
  {
    assert forall i :: i in ExprItems(ds[k].cond) || i in ExprItems(ds[k].value) ==>
        i in ExprItems(ds[k].value) + ExprItems(ds[k].cond);
  }

  lemma RangeItems(rs: seq<Range>, k: nat)
    requires k < |rs|
    ensures OperandItems(rs[k].low) <= RangesItems(rs) && OperandItems(rs[k].high) <= RangesItems(rs)
    ensures ExprItems(rs[k].cond) <= RangesItems(rs)
  {
    var all := OperandItems(rs[k].low) + OperandItems(rs[k].high) + ExprItems(rs[k].cond);
    assert forall i :: i in all ==> i in RangesItems(rs);
  }

  /** The user selection is one of the symbols of the choice. */
  predicate ValidSelection(c: Config, i: Id, u: User) {
    IsChoice(c, i) && u.selection.Some? ==> u.selection.value in c.items[i].syms
  }

  lemma SelectionStable(i: Id, c: Config, u: User, v: Env, w: Env)
    requires WellFormed(c) && IsChoice(c, i) && Covers(c, v, w, Readable(c, i), SelLevel(c, i))
    requires ValidSelection(c, i, u)
    ensures var r := Readable(c, i);
            Same(Complete(c, v, SelLevel(c, i)), Selection(i, c, u, View(v, r)), Selection(i, c, u, View(w, r)))
  {
    assert WellFormedItem(c, i);
    DefaultSelectionStable(i, 0, c, v, w);
    FirstVisibleStable(i, 0, c, v, w);
    if u.selection.Some? {
      assert WellFormedItem(c, u.selection.value);
    }
  }

  /** The level at which a symbol with defaults looks at them. */
  function ValueLevel(c: Config, i: Id): nat
    requires i < |c.items|
  {
    if c.items[i].Choice? || IsBoolTri(c.items[i].typ) then TriLevel(c, i) else StrLevel(c, i)
  }

  /** The defaults of bool and tristate choice symbols play no role. */
  predicate UsesDefaults(d: Def) {
    d.Symbol? && !d.typ.Unknown? && (IsBoolTri(d.typ) ==> d.choice.None?)
  }

  lemma DefaultFacts(c: Config, i: Id, k: nat)
    requires WellFormed(c) && i < |c.items| && UsesDefaults(c.items[i]) && k < |c.items[i].defaults|
    ensures DefaultBelow(c, c.items[i].typ, c.items[i].defaults[k], ValueLevel(c, i))
  {
    assert WellFormedItem(c, i);
  }

  lemma PlainFacts(c: Config, i: Id)
    requires WellFormed(c) && i < |c.items| && UsesDefaults(c.items[i]) && IsBoolTri(c.items[i].typ)
    ensures var d, level := c.items[i], TriLevel(c, i);
      && VisLevel(c, i) < level && ExprBelow(c, d.revDep, level) && ExprBelow(c, d.weakRevDep, level) && ExprBelow(c, d.directDep, level)
  {
    assert WellFormedItem(c, i);
  }

  lemma {:induction false} ActiveDefaultStable(i: Id, k: nat, c: Config, v: Env, w: Env)
    requires WellFormed(c) && i < |c.items| && UsesDefaults(c.items[i])
    requires k <= |c.items[i].defaults| && Covers(c, v, w, Readable(c, i), ValueLevel(c, i))
    ensures var r, ds := Readable(c, i), c.items[i].defaults;
            Same(Complete(c, v, ValueLevel(c, i)), ActiveDefault(ds, k, c, View(v, r)), ActiveDefault(ds, k, c, View(w, r)))
    decreases |c.items[i].defaults| - k
  {
    hide WellFormed;
    var ds := c.items[i].defaults;
    if k < |ds| {
      DefaultFacts(c, i, k);
      ActiveDefaultStable(i, k + 1, c, v, w);
      DefaultItems(ds, k);
      ExprStable(ds[k].cond, c, v, w, Readable(c, i), ValueLevel(c, i));
    }
  }

  /** The active default is one of the defaults. */
  lemma {:induction false} ActiveDefaultIsDefault(ds: seq<Default>, k: nat, c: Config, v: View)
    requires k <= |ds|
    ensures var a := ActiveDefault(ds, k, c, v);
            a.Some? && a.value.Some? ==> exists j :: 0 <= j < |ds| && ds[j].value == a.value.value.0
    decreases |ds| - k
  {
    if k < |ds| {
      ActiveDefaultIsDefault(ds, k + 1, c, v);
    }
  }

  lemma ActiveValueStable(i: Id, c: Config, v: Env, w: Env)
    requires WellFormed(c) && i < |c.items| && UsesDefaults(c.items[i]) && Covers(c, v, w, Readable(c, i), ValueLevel(c, i))
    ensures var r, ds := Readable(c, i), c.items[i].defaults;
            var a := ActiveDefault(ds, 0, c, View(v, r));
            a.Some? && a.value.Some? ==>
              var x := a.value.value.0;
              && Same(Complete(c, v, ValueLevel(c, i)), ExprValue(x, c, View(v, r)), ExprValue(x, c, View(w, r)))
              && (!IsBoolTri(c.items[i].typ) ==>
                    x.Val? && Same(Complete(c, v, ValueLevel(c, i)), View(v, r).Str(x.operand), View(w, r).Str(x.operand)))
  {
    hide WellFormed;
    var r, ds := Readable(c, i), c.items[i].defaults;
    var a := ActiveDefault(ds, 0, c, View(v, r));
    ActiveDefaultIsDefault(ds, 0, c, View(v, r));
    if a.Some? && a.value.Some? {
      var j :| 0 <= j < |ds| && ds[j].value == a.value.value.0;
      DefaultFacts(c, i, j);
      DefaultItems(ds, j);
      ExprStable(ds[j].value, c, v, w, r, ValueLevel(c, i));
      if !IsBoolTri(c.items[i].typ) {
        OperandStable(ds[j].value.operand, c, v, w, r, ValueLevel(c, i));
      }
    }
  }

  lemma DefaultTriStable(i: Id, vis: Tri, c: Config, v: Env, w: Env)
    requires WellFormed(c) && i < |c.items| && UsesDefaults(c.items[i]) && IsBoolTri(c.items[i].typ)
    requires Covers(c, v, w, Readable(c, i), TriLevel(c, i))
    ensures var d, r := c.items[i], Readable(c, i);
            Same(Complete(c, v, TriLevel(c, i)), DefaultTri(d, vis != 0, c, View(v, r)), DefaultTri(d, vis != 0, c, View(w, r)))
  {
    hide WellFormed, ActiveDefault, ExprValue, Readable;
    ActiveDefaultStable(i, 0, c, v, w);
    ActiveValueStable(i, c, v, w);
  }

  lemma BaseTriStable(i: Id, u: User, vis: Tri, c: Config, v: Env, w: Env)
    requires WellFormed(c) && i < |c.items| && UsesDefaults(c.items[i]) && IsBoolTri(c.items[i].typ)
    requires Covers(c, v, w, Readable(c, i), TriLevel(c, i))
    ensures var d, r := c.items[i], Readable(c, i);
            Same(Complete(c, v, TriLevel(c, i)), BaseTri(d, u, vis, c, View(v, r)), BaseTri(d, u, vis, c, View(w, r)))
  {
    hide WellFormed;
    PlainFacts(c, i);
    var d, r, level := c.items[i], Readable(c, i), TriLevel(c, i);
    DefaultTriStable(i, vis, c, v, w);
    hide DefaultTri, ExprValue, ExprItems, ExprBelow, Readable;
    ExprStable(d.weakRevDep, c, v, w, r, level);
    ExprStable(d.directDep, c, v, w, r, level);
  }

  lemma PlainTriStable(i: Id, c: Config, u: User, vis: Tri, v: Env, w: Env)
    requires WellFormed(c) && i < |c.items| && UsesDefaults(c.items[i]) && IsBoolTri(c.items[i].typ)
    requires Covers(c, v, w, Readable(c, i), TriLevel(c, i))
    ensures var r := Readable(c, i);
            Same(Complete(c, v, TriLevel(c, i)), PlainTri(i, c, u, vis, View(v, r)), PlainTri(i, c, u, vis, View(w, r)))
  {
    hide WellFormed;
    PlainFacts(c, i);
    var d, r, level := c.items[i], Readable(c, i), TriLevel(c, i);
    BaseTriStable(i, u, vis, c, v, w);
    ExprStable(d.revDep, c, v, w, r, level);
    ExprStable(d.weakRevDep, c, v, w, r, level);
    TypeStable(i, c, v, w, level);
    var base := BaseTri(d, u, vis, c, View(v, r));
    if base.Some? {
      var sel := WithSelect(d, base.value, c, View(v, r));
      if sel.Some? {
        assert WithSelect(d, base.value, c, View(w, r)) == sel;
        assert Same(Complete(c, v, level), PromoteValue(i, sel.value.0, c, View(v, r)), PromoteValue(i, sel.value.0, c, View(w, r)));
      }
    }
  }

  /** A symbol that is never shown is not visible. */
  ghost predicate NotSeen(c: Config, v: Env, i: Id) {
    i < |c.items| && NeverShown(c.items[i]) && i in v.vis ==> v.vis[i] == 0
  }

  lemma MemberFacts(c: Config, i: Id)
    requires WellFormed(c) && i < |c.items| && c.items[i].Symbol? && c.items[i].choice.Some? && IsBoolTri(c.items[i].typ)
    ensures IsChoice(c, c.items[i].choice.value) && SelLevel(c, c.items[i].choice.value) < TriLevel(c, i) && VisLevel(c, i) < TriLevel(c, i)
    ensures !NeverShown(c.items[i]) ==> c.items[i].choice.value in Readable(c, i)
  {
    assert WellFormedItem(c, i);
  }

  lemma MemberTriStable(i: Id, c: Config, u: User, v: Env, w: Env)
    requires WellFormed(c) && i < |c.items| && c.items[i].Symbol? && c.items[i].choice.Some? && IsBoolTri(c.items[i].typ)
    requires Covers(c, v, w, Readable(c, i), TriLevel(c, i)) && NotSeen(c, v, i)
    ensures var r := Readable(c, i);
            Same(Complete(c, v, TriLevel(c, i)), TriValue(i, c, u, View(v, r)), TriValue(i, c, u, View(w, r)))
  {
    hide WellFormed;
    MemberFacts(c, i);
  }

  lemma TriValueStable(i: Id, c: Config, u: User, v: Env, w: Env)
    requires WellFormed(c) && i < |c.items| && Covers(c, v, w, Readable(c, i), TriLevel(c, i)) && NotSeen(c, v, i)
    ensures var r := Readable(c, i);
            Same(Complete(c, v, TriLevel(c, i)), TriValue(i, c, u, View(v, r)), TriValue(i, c, u, View(w, r)))
  {
    hide WellFormed, NotSeen;
    if c.items[i].Choice? {
      ModeStable(i, c, u, v, w);
    } else if IsBoolTri(c.items[i].typ) {
      if c.items[i].choice.Some? {
        MemberTriStable(i, c, u, v, w);
      } else {
        PlainFacts(c, i);
        var vis := View(v, Readable(c, i)).Vis(i);
        if vis.Some? {
          PlainTriStable(i, c, u, vis.value, v, w);
        }
      }
    }
  }

  ghost predicate SameRange(x: Range, c: Config, v: View, w: View, complete: bool) {
    && Same(complete, ExprValue(x.cond, c, v), ExprValue(x.cond, c, w))
    && Same(complete, v.Str(x.low), w.Str(x.low))
    && Same(complete, v.Str(x.high), w.Str(x.high))
  }

  predicate IsNumber(d: Def) {
    d.Symbol? && (d.typ.Int? || d.typ.Hex?)
  }

  lemma RangeFacts(c: Config, i: Id, k: nat)
    requires WellFormed(c) && i < |c.items| && IsNumber(c.items[i]) && k < |c.items[i].ranges|
    ensures RangeBelow(c, c.items[i].ranges[k], StrLevel(c, i))
  {
    assert WellFormedItem(c, i);
  }

  lemma RangeStable(i: Id, k: nat, c: Config, v: Env, w: Env)
    requires WellFormed(c) && i < |c.items| && IsNumber(c.items[i])
    requires k < |c.items[i].ranges| && Covers(c, v, w, Readable(c, i), StrLevel(c, i))
    ensures var r := Readable(c, i);
            SameRange(c.items[i].ranges[k], c, View(v, r), View(w, r), Complete(c, v, StrLevel(c, i)))
  {
    hide WellFormed;
    var rs := c.items[i].ranges;
    RangeFacts(c, i, k);
    RangeItems(rs, k);
    ExprStable(rs[k].cond, c, v, w, Readable(c, i), StrLevel(c, i));
    OperandStable(rs[k].low, c, v, w, Readable(c, i), StrLevel(c, i));
    OperandStable(rs[k].high, c, v, w, Readable(c, i), StrLevel(c, i));
  }

  lemma {:induction false} SameActiveRange(t: Type, rs: seq<Range>, k: nat, c: Config, v: View, w: View, complete: bool)
    requires k <= |rs| && forall j :: k <= j < |rs| ==> SameRange(rs[j], c, v, w, complete)
    ensures Same(complete, ActiveRange(t, rs, k, c, v), ActiveRange(t, rs, k, c, w))
    decreases |rs| - k
  {
    if k < |rs| {
      assert SameRange(rs[k], c, v, w, complete);
      SameActiveRange(t, rs, k + 1, c, v, w, complete);
    }
  }

  lemma ActiveRangeStable(i: Id, c: Config, v: Env, w: Env)
    requires WellFormed(c) && i < |c.items| && IsNumber(c.items[i]) && Covers(c, v, w, Readable(c, i), StrLevel(c, i))
    ensures var r, t, rs := Readable(c, i), c.items[i].typ, c.items[i].ranges;
            Same(Complete(c, v, StrLevel(c, i)), ActiveRange(t, rs, 0, c, View(v, r)), ActiveRange(t, rs, 0, c, View(w, r)))
  {
    hide WellFormed;
    var rs, complete := c.items[i].ranges, Complete(c, v, StrLevel(c, i));
    var vv, ww := View(v, Readable(c, i)), View(w, Readable(c, i));
    forall k | 0 <= k < |rs| ensures SameRange(rs[k], c, vv, ww, complete) {
      RangeStable(i, k, c, v, w);
    }
    SameActiveRange(c.items[i].typ, rs, 0, c, vv, ww, complete);
  }

  lemma DefaultStrStable(i: Id, c: Config, v: Env, w: Env)
    requires WellFormed(c) && i < |c.items| && UsesDefaults(c.items[i]) && !IsBoolTri(c.items[i].typ)
    requires Covers(c, v, w, Readable(c, i), StrLevel(c, i))
    ensures var d, r := c.items[i], Readable(c, i);
            Same(Complete(c, v, StrLevel(c, i)), DefaultStr(d, c, View(v, r)), DefaultStr(d, c, View(w, r)))
  {
    ActiveDefaultStable(i, 0, c, v, w);
    ActiveValueStable(i, c, v, w);
  }

  lemma TextFacts(c: Config, i: Id)
    requires WellFormed(c) && i < |c.items| && c.items[i].Symbol? && !IsBoolTri(c.items[i].typ) && !c.items[i].typ.Unknown?
    ensures VisLevel(c, i) < StrLevel(c, i)
  {
    assert WellFormedItem(c, i);
  }

  lemma TextStable(i: Id, c: Config, u: User, v: Env, w: Env)
    requires WellFormed(c) && i < |c.items| && c.items[i].Symbol? && !IsBoolTri(c.items[i].typ) && !c.items[i].typ.Unknown?
    requires Covers(c, v, w, Readable(c, i), StrLevel(c, i))
    ensures var r := Readable(c, i);
            Same(Complete(c, v, StrLevel(c, i)), StrValue(i, c, u, View(v, r)), StrValue(i, c, u, View(w, r)))
  {
    hide WellFormed;
    TextFacts(c, i);
    var d, r, complete := c.items[i], Readable(c, i), Complete(c, v, StrLevel(c, i));
    DefaultStrStable(i, c, v, w);
    if IsNumber(d) {
      ActiveRangeStable(i, c, v, w);
    }
    var vis := View(v, r).Vis(i);
    if vis.Some? {
      assert d.typ.String? ==> Same(complete, TextStr(d, c, u, vis.value, View(v, r)), TextStr(d, c, u, vis.value, View(w, r)));
      assert IsNumber(d) ==> Same(complete, NumberStr(d, c, u, vis.value, View(v, r)), NumberStr(d, c, u, vis.value, View(w, r)));
    }
  }

  lemma LogicalFacts(c: Config, i: Id)
    requires WellFormed(c) && i < |c.items| && (c.items[i].Choice? || IsBoolTri(c.items[i].typ))
    ensures VisLevel(c, i) < TriLevel(c, i) < StrLevel(c, i) && VisLevel(c, i) < AsgLevel(c, i)
    ensures c.items[i].Choice? ==> TriLevel(c, i) < SelLevel(c, i)
    ensures c.items[i].Symbol? ==> ExprBelow(c, c.items[i].revDep, AsgLevel(c, i)) && ExprBelow(c, c.items[i].weakRevDep, AsgLevel(c, i))
  {
    assert WellFormedItem(c, i);
  }

  lemma StrValueStable(i: Id, c: Config, u: User, v: Env, w: Env)
    requires WellFormed(c) && i < |c.items| && Covers(c, v, w, Readable(c, i), StrLevel(c, i))
    ensures var r := Readable(c, i);
            Same(Complete(c, v, StrLevel(c, i)), StrValue(i, c, u, View(v, r)), StrValue(i, c, u, View(w, r)))
  {
    hide WellFormed;
    if c.items[i].Choice? || IsBoolTri(c.items[i].typ) {
      LogicalFacts(c, i);
    } else if !c.items[i].typ.Unknown? {
      TextStable(i, c, u, v, w);
    }
  }

  lemma SameSymbolAssignable(i: Id, c: Config, v: View, w: View, complete: bool)
    requires i < |c.items| && c.items[i].Symbol?
    requires Same(complete, v.Vis(i), w.Vis(i))
    requires c.items[i].choice.None? ==> Same(complete, TypeOf(i, c, v), TypeOf(i, c, w))
    requires Same(complete, ExprValue(c.items[i].revDep, c, v), ExprValue(c.items[i].revDep, c, w))
    requires Same(complete, ExprValue(c.items[i].weakRevDep, c, v), ExprValue(c.items[i].weakRevDep, c, w))
    ensures Same(complete, SymbolAssignable(i, c, v), SymbolAssignable(i, c, w))
  {
    assert c.items[i].choice.None? ==> Same(complete, NoM(i, c, v), NoM(i, c, w));
  }

  lemma SymbolAssignableStable(i: Id, c: Config, v: Env, w: Env)
    requires WellFormed(c) && i < |c.items| && c.items[i].Symbol? && IsBoolTri(c.items[i].typ)
    requires Covers(c, v, w, Readable(c, i), AsgLevel(c, i))
    ensures var r := Readable(c, i);
            Same(Complete(c, v, AsgLevel(c, i)), SymbolAssignable(i, c, View(v, r)), SymbolAssignable(i, c, View(w, r)))
  {
    hide WellFormed;
    LogicalFacts(c, i);
    var d, r, complete := c.items[i], Readable(c, i), Complete(c, v, AsgLevel(c, i));
    assert Same(complete, View(v, r).Vis(i), View(w, r).Vis(i));
    if d.choice.None? {
      TypeStable(i, c, v, w, AsgLevel(c, i));
    }
    ExprStable(d.revDep, c, v, w, r, AsgLevel(c, i));
    ExprStable(d.weakRevDep, c, v, w, r, AsgLevel(c, i));
    SameSymbolAssignable(i, c, View(v, r), View(w, r), complete);
  }

  lemma AssignableStable(i: Id, c: Config, v: Env, w: Env)
    requires WellFormed(c) && i < |c.items| && Covers(c, v, w, Readable(c, i), AsgLevel(c, i))
    ensures var r := Readable(c, i);
            Same(Complete(c, v, AsgLevel(c, i)), Assignable(i, c, View(v, r)), Assignable(i, c, View(w, r)))
  {
    hide WellFormed;
    if c.items[i].Choice? {
      LogicalFacts(c, i);
      TypeStable(i, c, v, w, AsgLevel(c, i));
    } else if IsBoolTri(c.items[i].typ) {
      SymbolAssignableStable(i, c, v, w);
    }
  }
}
