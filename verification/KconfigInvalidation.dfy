/**
Why the pruned invalidation walk is enough: what survives it is still justified
after the user's change.
*/
module KconfigInvalidation {
  import opened Options
  import opened KconfigModel
  import opened KconfigSemantics
  import opened KconfigValues

  /** Values that never change and are computed without looking at the visibility. */
  predicate ConstantTri(c: Config, i: Id) {
    i < |c.items| && c.items[i].Symbol? && !IsBoolTri(c.items[i].typ)
  }

  predicate ConstantStr(c: Config, i: Id) {
    i < |c.items| && c.items[i].Symbol? && c.items[i].typ.Unknown?
  }

  /** Without a cached visibility an item has only constant values cached. */
  ghost predicate MarkedAt(c: Config, e: Env, i: Id) {
    i !in e.vis ==>
      && (i in e.tri ==> ConstantTri(c, i))
      && (i in e.str ==> ConstantStr(c, i))
      && i !in e.sel
      && (i in e.asg ==> ConstantTri(c, i))
  }

  ghost predicate Marked(c: Config, e: Env) {
    forall i: Id :: MarkedAt(c, e, i)
  }

  ghost predicate KeptAt(e: Env, f: Env, i: Id) {
    WithinAt(e, f, i) && WithinAt(f, e, i)
  }

  ghost predicate DroppedAt(f: Env, i: Id) {
    i !in f.vis && i !in f.tri && i !in f.str && i !in f.sel && i !in f.asg
  }

  /** If `j` lost its values, no live item that may read `j` kept its visibility. */
  ghost predicate ClosedAt(c: Config, e: Env, f: Env, j: Id) {
    || KeptAt(e, f, j)
    || (forall z: Id :: z in f.vis ==> !Live(c, z) || j !in Readable(c, z))
  }

  /** What an invalidation walk leaves: items keep all or nothing, and losses reach every reader. */
  ghost predicate Invalidated(c: Config, e: Env, f: Env) {
    forall j: Id :: (KeptAt(e, f, j) || DroppedAt(f, j)) && (forall z: Id :: z in f.vis ==> z < |c.items|) && ClosedAt(c, e, f, j)
  }

  lemma ConstantValues(c: Config, u: User, v: View, i: Id)
    requires ConstantTri(c, i)
    ensures TriValue(i, c, u, v) == Some((0, false)) && Assignable(i, c, v) == Some([])
    ensures ConstantStr(c, i) ==> StrValue(i, c, u, v) == Some((c.items[i].name, false))
  {}

  lemma UndefinedVisibility(c: Config, v: View, i: Id)
    requires WellFormed(c) && i < |c.items| && !Live(c, i)
    ensures ConstantStr(c, i) && Visibility(i, c, v) == Some(0)
  {
    assert WellFormedItem(c, i);
  }

  /** A live item whose readable items all kept their values keeps justified values. */
  lemma UntouchedJustified(c: Config, u: User, e: Env, f: Env, i: Id)
    requires WellFormed(c) && i < |c.items| && ValidSelection(c, i, u)
    requires JustifiedAt(c, u, e, i) && KeptAt(e, f, i)
    requires forall j: Id :: j in Readable(c, i) ==> KeptAt(e, f, j)
    ensures JustifiedAt(c, u, f, i)
  {
    hide Visibility, TriValue, StrValue, Selection, Assignable, Readable, WellFormed, Covers;
    hide VisLevel, TriLevel, StrLevel, SelLevel, AsgLevel;
    forall level: nat ensures Covers(c, e, f, Readable(c, i), level) {
      KeptCovers(c, e, f, Readable(c, i), level);
    }
    JustifiedNotSeen(c, u, e, i);
    VisibilityStable(i, c, e, f);
    TriValueStable(i, c, u, e, f);
    StrValueStable(i, c, u, e, f);
    if i in e.sel {
      SelectionStable(i, c, u, e, f);
    }
    AssignableStable(i, c, e, f);
  }

  lemma KeptCovers(c: Config, e: Env, f: Env, r: set<Id>, level: nat)
    requires forall j: Id :: j in r ==> KeptAt(e, f, j)
    ensures Covers(c, e, f, r, level)
  {
    hide VisLevel, TriLevel, StrLevel, SelLevel, AsgLevel;
    forall i: Id | i in r ensures CoversAt(c, e, f, level, i) {
      assert KeptAt(e, f, i);
    }
  }

  /** Constant values are justified whatever the environment and the user. */
  lemma ConstantJustified(c: Config, u: User, u': User, e: Env, f: Env, i: Id)
    requires WellFormed(c) && i < |c.items| && JustifiedAt(c, u, e, i) && WithinAt(f, e, i) && MarkedAt(c, f, i)
    requires i in f.vis ==> !Live(c, i)
    requires IsChoice(c, i) ==> i !in f.sel
    ensures JustifiedAt(c, u', f, i)
  {
    hide TriValue, StrValue, Selection, Assignable, Readable, WellFormed, Visibility;
    var r := Readable(c, i);
    if i in f.vis {
      UndefinedVisibility(c, View(e, r), i);
      UndefinedVisibility(c, View(f, r), i);
    }
    if ConstantTri(c, i) {
      ConstantValues(c, u, View(e, r), i);
      ConstantValues(c, u', View(f, r), i);
    }
  }

  lemma ItemSurvives(c: Config, us: Users, us': Users, e: Env, f: Env, i: Id)
    requires WellFormed(c) && ValidUsers(c, us) && i < |us|
    requires Justified(c, us, e) && Marked(c, e) && Invalidated(c, e, f)
    requires Live(c, i) && i in f.vis ==> UserOf(us', i) == us[i]
    ensures JustifiedAt(c, UserOf(us', i), f, i) && MarkedAt(c, f, i)
  {
    hide TriValue, StrValue, Selection, Assignable, WellFormed, Visibility, Readable, JustifiedAt;
    assert JustifiedAt(c, UserOf(us, i), e, i) && MarkedAt(c, e, i);
    assert KeptAt(e, f, i) || DroppedAt(f, i);
    if i in f.vis && Live(c, i) {
      forall j: Id | j in Readable(c, i) ensures KeptAt(e, f, j) {
        assert ClosedAt(c, e, f, j);
      }
      UntouchedJustified(c, us[i], e, f, i);
    } else {
      if i in e.sel {
        SelNeedsChoice(c, us[i], e, i);
      }
      ConstantJustified(c, us[i], UserOf(us', i), e, f, i);
    }
  }

  lemma SelNeedsChoice(c: Config, u: User, e: Env, i: Id)
    requires JustifiedAt(c, u, e, i) && i in e.sel
    ensures IsChoice(c, i) && Live(c, i)
  {}

  /**
  After an invalidation walk every remaining value is justified under the new
  user settings, provided no item with a remaining visibility had its settings changed.
  */
  lemma SurvivorsJustified(c: Config, us: Users, us': Users, e: Env, f: Env)
    requires WellFormed(c) && ValidUsers(c, us) && |us'| == |us|
    requires Justified(c, us, e) && Marked(c, e) && Invalidated(c, e, f)
    requires forall i: Id :: i < |us| && us'[i] != us[i] ==> !Live(c, i) || i !in f.vis
    ensures Justified(c, us', f) && Marked(c, f)
  {
    hide JustifiedAt, MarkedAt, WellFormed, Readable, KeptAt, DroppedAt;
    forall i: Id ensures JustifiedAt(c, UserOf(us', i), f, i) && MarkedAt(c, f, i) {
      if i < |us| {
        ItemSurvives(c, us, us', e, f, i);
      } else {
        OutOfRange(c, us, e, f, i, UserOf(us', i));
      }
    }
  }

  lemma OutOfRange(c: Config, us: Users, e: Env, f: Env, i: Id, u: User)
    requires |us| == |c.items| && i >= |us| && Justified(c, us, e) && Invalidated(c, e, f)
    ensures JustifiedAt(c, u, f, i) && MarkedAt(c, f, i)
  {
    assert JustifiedAt(c, UserOf(us, i), e, i);
    assert KeptAt(e, f, i) || DroppedAt(f, i);
  }

  /** A user value has no effect on a symbol that is never shown, one without prompts for instance. */
  lemma PromptlessIgnoresUser(c: Config, us: Users, us': Users, e: Env)
    requires WellFormed(c) && |us| == |us'| == |c.items| && Justified(c, us, e)
    requires forall i: Id :: i < |us| && us'[i] != us[i] ==> c.items[i].Symbol? && NeverShown(c.items[i])
    ensures Justified(c, us', e)
  {
    hide JustifiedAt, WellFormed, NeverShown;
    forall i: Id ensures JustifiedAt(c, UserOf(us', i), e, i) {
      assert JustifiedAt(c, UserOf(us, i), e, i);
      if i < |us| && us'[i] != us[i] {
        PromptlessItem(c, us[i], us'[i], e, i);
      }
    }
  }

  lemma PromptlessItem(c: Config, u: User, u': User, e: Env, i: Id)
    requires i < |c.items| && c.items[i].Symbol? && NeverShown(c.items[i]) && JustifiedAt(c, u, e, i)
    ensures JustifiedAt(c, u', e, i)
  {
    var v := View(e, Readable(c, i));
    JustifiedNotSeen(c, u, e, i);
    assert v.Vis(i).GetOr(0) == 0;
    hide Readable, Visibility, ExprValue, ActiveDefault, ActiveRange;
    assert TriValue(i, c, u, v) == TriValue(i, c, u', v);
    assert StrValue(i, c, u, v) == StrValue(i, c, u', v);
  }

  // ---------------------------------------------------------------------
  // The walk
  // ---------------------------------------------------------------------

  function Dropped(e: Env, s: set<Id>): Env {
    Env(e.vis - s, e.tri - s, e.str - s, e.sel - s, e.asg - s)
  }

  function LiveBelow(c: Config, n: nat): set<Id> {
    set i | 0 <= i < n && Live(c, i)
  }

  ghost predicate InRangeKeys(c: Config, e: Env) {
    forall z: Id :: z in e.vis ==> z < |c.items|
  }

  /** No live item that may read `i` has a visibility. */
  ghost predicate Unread(c: Config, f: Env, i: Id) {
    forall z: Id :: z in f.vis ==> !Live(c, z) || i !in Readable(c, z)
  }

  lemma DroppedNothing(e: Env)
    ensures Dropped(e, {}) == e
  {
    assert e.vis - {} == e.vis && e.tri - {} == e.tri && e.str - {} == e.str;
    assert e.sel - {} == e.sel && e.asg - {} == e.asg;
  }

  lemma DroppedMore(e: Env, s: set<Id>, k: Id)
    ensures Dropped(Dropped(e, s), {k}) == Dropped(e, s + {k})
  {
    assert e.vis - s - {k} == e.vis - (s + {k}) && e.tri - s - {k} == e.tri - (s + {k});
    assert e.str - s - {k} == e.str - (s + {k}) && e.sel - s - {k} == e.sel - (s + {k});
    assert e.asg - s - {k} == e.asg - (s + {k});
  }

  /** Clearing every live item is an invalidation walk from anywhere. */
  lemma AllInvalidated(c: Config, e: Env, i: Id)
    requires InRangeKeys(c, e) && Live(c, i)
    ensures var f := Dropped(e, LiveBelow(c, |c.items|));
            Invalidated(c, e, f) && DroppedAt(f, i) && Unread(c, f, i)
  {
    hide Readable;
    var f := Dropped(e, LiveBelow(c, |c.items|));
    forall j: Id ensures (KeptAt(e, f, j) || DroppedAt(f, j)) && ClosedAt(c, e, f, j) {
      if Live(c, j) {
        assert j in LiveBelow(c, |c.items|);
      }
    }
  }

  /** Midway through the walk from `i`, with `todo` of its dependents left. */
  ghost predicate Partial(c: Config, e: Env, f: Env, i: Id, todo: set<Id>) {
    && InRangeKeys(c, f)
    && (forall j: Id :: KeptAt(e, f, j) || DroppedAt(f, j))
    && (forall j: Id :: j == i || ClosedAt(c, e, f, j))
    && DroppedAt(f, i)
    && (forall z :: z in Dependents(c, i) - todo ==> z !in f.vis)
  }

  lemma StartPartial(c: Config, e: Env, i: Id)
    requires InRangeKeys(c, e)
    ensures Partial(c, e, Dropped(e, {i}), i, Dependents(c, i))
  {
    hide Dependents;
    var f := Dropped(e, {i});
    forall j: Id ensures (KeptAt(e, f, j) || DroppedAt(f, j)) && (j == i || ClosedAt(c, e, f, j)) {
      assert j != i ==> KeptAt(e, f, j);
    }
  }

  lemma SkipPartial(c: Config, e: Env, f: Env, i: Id, todo: set<Id>, d: Id)
    requires Partial(c, e, f, i, todo) && d !in f.vis
    ensures Partial(c, e, f, i, todo - {d})
  {
    hide Dependents, KeptAt, DroppedAt, ClosedAt, InRangeKeys;
  }

  lemma KeysShrink(c: Config, f: Env, g: Env)
    requires Invalidated(c, f, g)
    ensures g.vis.Keys <= f.vis.Keys
  {
    hide ClosedAt;
    forall z | z in g.vis ensures z in f.vis {
      assert KeptAt(f, g, z) || DroppedAt(g, z);
    }
  }

  lemma StepPartial(c: Config, e: Env, f: Env, g: Env, i: Id, todo: set<Id>, d: Id)
    requires Partial(c, e, f, i, todo) && Invalidated(c, f, g) && DroppedAt(g, d)
    ensures Partial(c, e, g, i, todo - {d})
  {
    hide Dependents, Readable;
    KeysShrink(c, f, g);
    forall j: Id ensures (KeptAt(e, g, j) || DroppedAt(g, j)) && (j == i || ClosedAt(c, e, g, j)) {
      assert KeptAt(e, f, j) || DroppedAt(f, j);
      assert KeptAt(f, g, j) || DroppedAt(g, j);
      assert ClosedAt(c, f, g, j);
      assert j == i || ClosedAt(c, e, f, j);
    }
    assert KeptAt(f, g, i) || DroppedAt(g, i);
  }

  lemma FinishPartial(c: Config, e: Env, f: Env, i: Id)
    requires Partial(c, e, f, i, {}) && i != c.modules
    ensures Invalidated(c, e, f) && DroppedAt(f, i) && Unread(c, f, i)
  {
    forall z: Id | z in f.vis ensures !Live(c, z) || i !in Readable(c, z) {
      assert z in Dependents(c, i) ==> z in Dependents(c, i) - {};
    }
    forall j: Id ensures (KeptAt(e, f, j) || DroppedAt(f, j)) && ClosedAt(c, e, f, j) {
      assert KeptAt(e, f, j) || DroppedAt(f, j);
      assert j == i || ClosedAt(c, e, f, j);
    }
  }

  lemma DependentLive(c: Config, i: Id, d: Id)
    requires d in Dependents(c, i)
    ensures d < |c.items| && Live(c, d)
  {}

  /** The walk terminates: the set of visible items other than the current one shrinks. */
  lemma ShrinkingKeys(now: set<Id>, before: set<Id>, i: Id, d: Id)
    requires now <= before - {i} && d in now
    ensures |now - {d}| < |before - {i}|
  {
    Smaller(now - {d}, before - {i}, d);
  }

  lemma Smaller(a: set<Id>, b: set<Id>, d: Id)
    requires a <= b && d in b && d !in a
    ensures |a| < |b|
  {
    NotLarger(a, b - {d});
  }

  lemma {:induction false} NotLarger(a: set<Id>, b: set<Id>)
    requires a <= b
    ensures |a| <= |b|
  {
    if a != {} {
      var x :| x in a;
      NotLarger(a - {x}, b - {x});
    }
  }
}
