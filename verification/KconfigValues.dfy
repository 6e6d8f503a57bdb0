/**
Existence and uniqueness of the values of a configuration.
*/
module KconfigValues {
  import opened Options
  import opened KconfigModel
  import opened KconfigSemantics

  type Users = seq<User>

  /** A stored user value is valid for the type of its item. */
  predicate ValidValue(c: Config, i: Id, u: User) {
    i < |c.items| && u.value.Some? ==> ValidFor(c.lib, c.items[i].typ, u.value.value)
  }

  predicate ValidUsers(c: Config, us: Users) {
    && |us| == |c.items|
    && (forall i :: 0 <= i < |us| ==> ValidSelection(c, i, us[i]))
    && (forall i :: 0 <= i < |us| ==> ValidValue(c, i, us[i]))
  }

  // ---------------------------------------------------------------------
  // Justified values
  // ---------------------------------------------------------------------

  /** The known values of item `i` are what its rules compute from the known values they may read. */
  ghost predicate JustifiedAt(c: Config, u: User, e: Env, i: Id) {
    && (i in e.vis || i in e.tri || i in e.str || i in e.sel || i in e.asg ==> i < |c.items|)
    && (i in e.vis ==> Visibility(i, c, View(e, Readable(c, i))) == Some(e.vis[i]))
    && (i in e.tri ==> TriValue(i, c, u, View(e, Readable(c, i))) == Some(e.tri[i]))
    && (i in e.str ==> StrValue(i, c, u, View(e, Readable(c, i))) == Some(e.str[i]))
    && (i in e.sel ==> IsChoice(c, i) && Selection(i, c, u, View(e, Readable(c, i))) == Some(e.sel[i]))
    && (i in e.asg ==> Assignable(i, c, View(e, Readable(c, i))) == Some(e.asg[i]))
  }

  function UserOf(us: Users, i: Id): User {
    if i < |us| then us[i] else User(None, None)
  }

  ghost predicate Justified(c: Config, us: Users, e: Env) {
    forall i: Id :: JustifiedAt(c, UserOf(us, i), e, i)
  }

  ghost predicate TotalAt(c: Config, e: Env, i: Id) {
    i in e.vis && i in e.tri && i in e.str && i in e.asg && (IsChoice(c, i) ==> i in e.sel)
  }

  /** Every item has every kind of value. */
  ghost predicate Total(c: Config, e: Env) {
    forall i: Id :: i < |c.items| ==> TotalAt(c, e, i)
  }

  ghost predicate WithinAt(e: Env, s: Env, i: Id) {
    && (i in e.vis ==> i in s.vis && s.vis[i] == e.vis[i])
    && (i in e.tri ==> i in s.tri && s.tri[i] == e.tri[i])
    && (i in e.str ==> i in s.str && s.str[i] == e.str[i])
    && (i in e.sel ==> i in s.sel && s.sel[i] == e.sel[i])
    && (i in e.asg ==> i in s.asg && s.asg[i] == e.asg[i])
  }

  /** `e` holds nothing but values of `s`. */
  ghost predicate Within(e: Env, s: Env) {
    forall i: Id :: WithinAt(e, s, i)
  }

  // ---------------------------------------------------------------------
  // Uniqueness
  // ---------------------------------------------------------------------

  /** Below `level`, `s` has all the values of `e`. */
  ghost predicate AgreeBelow(c: Config, e: Env, s: Env, level: nat) {
    forall i: Id :: CoversAt(c, e, s, level, i)
  }

  lemma AgreeCovers(c: Config, e: Env, s: Env, level: nat, r: set<Id>, lower: nat)
    requires AgreeBelow(c, e, s, level) && lower <= level
    ensures Covers(c, e, s, r, lower)
  {
    hide VisLevel, TriLevel, StrLevel, SelLevel;
    forall i: Id | i in r ensures CoversAt(c, e, s, lower, i) {
      assert CoversAt(c, e, s, level, i);
    }
  }

  lemma JustifiedNotSeen(c: Config, u: User, e: Env, i: Id)
    requires JustifiedAt(c, u, e, i)
    ensures NotSeen(c, e, i)
  {
    hide Visibility, TriValue, StrValue, Selection, Assignable, Readable;
    if i < |c.items| && NeverShown(c.items[i]) && i in e.vis {
      NeverVisible(i, c, View(e, Readable(c, i)));
    }
  }

  /** A value known on both sides and read at or below an agreed level is the same on both. */
  lemma ItemAgrees(c: Config, us: Users, e: Env, s: Env, level: nat, i: Id)
    requires WellFormed(c) && ValidUsers(c, us) && i < |us| && AgreeBelow(c, e, s, level)
    requires JustifiedAt(c, us[i], e, i) && JustifiedAt(c, us[i], s, i) && TotalAt(c, s, i)
    ensures CoversAt(c, e, s, level + 1, i)
  {
    hide Visibility, TriValue, StrValue, Selection, Assignable, Readable, WellFormed, Covers, AgreeBelow;
    hide VisLevel, TriLevel, StrLevel, SelLevel;
    var r := Readable(c, i);
    if VisLevel(c, i) <= level {
      AgreeCovers(c, e, s, level, r, VisLevel(c, i));
      VisibilityStable(i, c, e, s);
    }
    if TriLevel(c, i) <= level {
      JustifiedNotSeen(c, us[i], e, i);
      AgreeCovers(c, e, s, level, r, TriLevel(c, i));
      TriValueStable(i, c, us[i], e, s);
    }
    if StrLevel(c, i) <= level {
      AgreeCovers(c, e, s, level, r, StrLevel(c, i));
      StrValueStable(i, c, us[i], e, s);
    }
    if SelLevel(c, i) <= level && i in e.sel {
      AgreeCovers(c, e, s, level, r, SelLevel(c, i));
      SelectionStable(i, c, us[i], e, s);
    }
  }

  lemma {:induction false} JustifiedAgree(c: Config, us: Users, e: Env, s: Env, level: nat)
    requires WellFormed(c) && ValidUsers(c, us)
    requires Justified(c, us, e) && Justified(c, us, s) && Total(c, s)
    ensures AgreeBelow(c, e, s, level)
  {
    hide Visibility, TriValue, StrValue, Selection, Assignable, Readable, WellFormed;
    forall i: Id ensures CoversAt(c, e, s, level, i) {
      if level > 0 {
        JustifiedAgree(c, us, e, s, level - 1);
        assert JustifiedAt(c, UserOf(us, i), e, i) && JustifiedAt(c, UserOf(us, i), s, i);
        if i < |us| {
          assert TotalAt(c, s, i);
          ItemAgrees(c, us, e, s, level - 1, i);
        }
      }
    }
  }

  /** A level above all those of an item. */
  function Above(c: Config, i: Id): nat {
    VisLevel(c, i) + TriLevel(c, i) + SelLevel(c, i) + StrLevel(c, i) + AsgLevel(c, i) + 1
  }

  /** Justified values are values of any total justified assignment. */
  lemma JustifiedWithin(c: Config, us: Users, e: Env, s: Env)
    requires WellFormed(c) && ValidUsers(c, us)
    requires Justified(c, us, e) && Justified(c, us, s) && Total(c, s)
    ensures Within(e, s)
  {
    hide Visibility, TriValue, StrValue, Selection, Assignable, Readable, WellFormed, Covers;
    forall i: Id ensures WithinAt(e, s, i) {
      assert JustifiedAt(c, UserOf(us, i), e, i) && JustifiedAt(c, UserOf(us, i), s, i);
      if i < |us| {
        assert TotalAt(c, s, i);
        JustifiedAgree(c, us, e, s, Above(c, i));
        assert CoversAt(c, e, s, Above(c, i), i);
        AgreeCovers(c, e, s, Above(c, i), Readable(c, i), AsgLevel(c, i));
        AssignableStable(i, c, e, s);
      }
    }
  }

  // ---------------------------------------------------------------------
  // Existence
  // ---------------------------------------------------------------------

  function NextVis(c: Config, e: Env, level: nat): map<Id, Tri> {
    map i: Id | 0 <= i < |c.items| && VisLevel(c, i) < level ::
      if i in e.vis then e.vis[i] else Visibility(i, c, View(e, Readable(c, i))).GetOr(0)
  }

  function NextTri(c: Config, us: Users, e: Env, level: nat): map<Id, (Tri, bool)> {
    map i: Id | 0 <= i < |c.items| && TriLevel(c, i) < level ::
      if i in e.tri then e.tri[i] else TriValue(i, c, UserOf(us, i), View(e, Readable(c, i))).GetOr((0, false))
  }

  function NextStr(c: Config, us: Users, e: Env, level: nat): map<Id, (string, bool)> {
    map i: Id | 0 <= i < |c.items| && StrLevel(c, i) < level ::
      if i in e.str then e.str[i] else StrValue(i, c, UserOf(us, i), View(e, Readable(c, i))).GetOr(("", false))
  }

  function NextSel(c: Config, us: Users, e: Env, level: nat): map<Id, Option<Id>> {
    map i: Id | 0 <= i < |c.items| && c.items[i].Choice? && SelLevel(c, i) < level ::
      if i in e.sel then e.sel[i] else Selection(i, c, UserOf(us, i), View(e, Readable(c, i))).GetOr(None)
  }

  function NextAsg(c: Config, e: Env, level: nat): map<Id, seq<Tri>> {
    map i: Id | 0 <= i < |c.items| && AsgLevel(c, i) < level ::
      if i in e.asg then e.asg[i] else Assignable(i, c, View(e, Readable(c, i))).GetOr([])
  }

  function Next(c: Config, us: Users, e: Env, level: nat): Env {
    Env(NextVis(c, e, level), NextTri(c, us, e, level), NextStr(c, us, e, level), NextSel(c, us, e, level), NextAsg(c, e, level))
  }

  /** The values below `level`, each computed by its rule from the values below its own level. */
  function At(c: Config, us: Users, level: nat): Env {
    if level == 0 then Env(map[], map[], map[], map[], map[]) else
      Next(c, us, At(c, us, level - 1), level)
  }

  ghost predicate Domain(c: Config, e: Env, level: nat) {
    forall i: Id ::
      && (i in e.vis <==> i < |c.items| && VisLevel(c, i) < level)
      && (i in e.tri <==> i < |c.items| && TriLevel(c, i) < level)
      && (i in e.str <==> i < |c.items| && StrLevel(c, i) < level)
      && (i in e.sel <==> IsChoice(c, i) && SelLevel(c, i) < level)
      && (i in e.asg <==> i < |c.items| && AsgLevel(c, i) < level)
  }

  lemma AtDomain(c: Config, us: Users, level: nat)
    ensures Domain(c, At(c, us, level), level)
  {
    hide Visibility, TriValue, StrValue, Selection, Assignable, Readable;
  }

  lemma DomainComplete(c: Config, e: Env, level: nat, lower: nat)
    requires Domain(c, e, level) && lower <= level
    ensures Complete(c, e, lower)
  {
    hide VisLevel, TriLevel, StrLevel, SelLevel, AsgLevel;
  }

  lemma WithinCovers(c: Config, e: Env, s: Env, r: set<Id>, level: nat)
    requires Within(e, s)
    ensures Covers(c, e, s, r, level)
  {
    hide VisLevel, TriLevel, StrLevel, SelLevel, AsgLevel;
    forall i: Id | i in r ensures CoversAt(c, e, s, level, i) {
      assert WithinAt(e, s, i);
    }
  }

  /** What the values of item `i` are in the environment one level up. */
  ghost predicate StepAt(c: Config, u: User, e: Env, s: Env, i: Id) {
    && WithinAt(e, s, i)
    && (i in s.vis && i !in e.vis ==> i < |c.items| && s.vis[i] == Visibility(i, c, View(e, Readable(c, i))).GetOr(0))
    && (i in s.tri && i !in e.tri ==> i < |c.items| && s.tri[i] == TriValue(i, c, u, View(e, Readable(c, i))).GetOr((0, false)))
    && (i in s.str && i !in e.str ==> i < |c.items| && s.str[i] == StrValue(i, c, u, View(e, Readable(c, i))).GetOr(("", false)))
    && (i in s.sel && i !in e.sel ==> IsChoice(c, i) && s.sel[i] == Selection(i, c, u, View(e, Readable(c, i))).GetOr(None))
    && (i in s.asg && i !in e.asg ==> i < |c.items| && s.asg[i] == Assignable(i, c, View(e, Readable(c, i))).GetOr([]))
  }

  lemma NextStep(c: Config, us: Users, e: Env, level: nat, i: Id)
    requires Domain(c, e, level)
    ensures StepAt(c, UserOf(us, i), e, Next(c, us, e, level + 1), i)
  {
    hide Visibility, TriValue, StrValue, Selection, Assignable, Readable;
    hide VisLevel, TriLevel, StrLevel, SelLevel, AsgLevel;
  }

  lemma NextGrows(c: Config, us: Users, e: Env, level: nat)
    requires Domain(c, e, level)
    ensures Within(e, Next(c, us, e, level + 1))
  {
    hide Next, WithinAt, Domain;
    var s := Next(c, us, e, level + 1);
    forall i: Id ensures WithinAt(e, s, i) {
      NextStep(c, us, e, level, i);
      assert StepAt(c, UserOf(us, i), e, s, i);
    }
  }

  lemma StepKnown(c: Config, e: Env, s: Env, r: set<Id>, level: nat, own: nat)
    requires Domain(c, e, level) && Within(e, s) && own <= level
    ensures Covers(c, e, s, r, own) && Complete(c, e, own)
  {
    hide Covers, Complete, Domain, Within;
    WithinCovers(c, e, s, r, own);
    DomainComplete(c, e, level, own);
  }

  lemma ItemJustified(c: Config, us: Users, e: Env, s: Env, level: nat, i: Id)
    requires WellFormed(c) && ValidUsers(c, us) && i < |us|
    requires Domain(c, e, level) && Domain(c, s, level + 1)
    requires JustifiedAt(c, us[i], e, i) && Within(e, s) && StepAt(c, us[i], e, s, i)
    ensures JustifiedAt(c, us[i], s, i)
  {
    hide Visibility, TriValue, StrValue, Selection, Assignable, Readable, WellFormed, Within, Domain, StepAt;
    ReadsJustified(c, us, e, s, level, i);
    ChoicesJustified(c, us, e, s, level, i);
  }

  lemma ReadsJustified(c: Config, us: Users, e: Env, s: Env, level: nat, i: Id)
    requires WellFormed(c) && ValidUsers(c, us) && i < |us|
    requires Domain(c, e, level) && Domain(c, s, level + 1)
    requires JustifiedAt(c, us[i], e, i) && Within(e, s) && StepAt(c, us[i], e, s, i)
    ensures i in s.vis ==> i < |c.items| && Visibility(i, c, View(s, Readable(c, i))) == Some(s.vis[i])
    ensures i in s.tri ==> i < |c.items| && TriValue(i, c, us[i], View(s, Readable(c, i))) == Some(s.tri[i])
    ensures i in s.str ==> i < |c.items| && StrValue(i, c, us[i], View(s, Readable(c, i))) == Some(s.str[i])
  {
    hide Visibility, TriValue, StrValue, Selection, Assignable, Readable, WellFormed, Covers, Complete, Within;
    hide VisLevel, TriLevel, StrLevel, SelLevel, AsgLevel;
    var r := Readable(c, i);
    if i in s.vis {
      StepKnown(c, e, s, r, level, VisLevel(c, i));
      VisibilityStable(i, c, e, s);
    }
    if i in s.tri {
      JustifiedNotSeen(c, us[i], e, i);
      StepKnown(c, e, s, r, level, TriLevel(c, i));
      TriValueStable(i, c, us[i], e, s);
    }
    if i in s.str {
      StepKnown(c, e, s, r, level, StrLevel(c, i));
      StrValueStable(i, c, us[i], e, s);
    }
  }

  lemma ChoicesJustified(c: Config, us: Users, e: Env, s: Env, level: nat, i: Id)
    requires WellFormed(c) && ValidUsers(c, us) && i < |us|
    requires Domain(c, e, level) && Domain(c, s, level + 1)
    requires JustifiedAt(c, us[i], e, i) && Within(e, s) && StepAt(c, us[i], e, s, i)
    ensures i in s.sel ==> IsChoice(c, i) && Selection(i, c, us[i], View(s, Readable(c, i))) == Some(s.sel[i])
    ensures i in s.asg ==> i < |c.items| && Assignable(i, c, View(s, Readable(c, i))) == Some(s.asg[i])
  {
    hide Visibility, TriValue, StrValue, Selection, Assignable, Readable, WellFormed, Covers, Complete, Within;
    hide VisLevel, TriLevel, StrLevel, SelLevel, AsgLevel;
    var r := Readable(c, i);
    if i in s.sel {
      StepKnown(c, e, s, r, level, SelLevel(c, i));
      SelectionStable(i, c, us[i], e, s);
    }
    if i in s.asg {
      StepKnown(c, e, s, r, level, AsgLevel(c, i));
      AssignableStable(i, c, e, s);
    }
  }

  lemma {:induction false} AtJustified(c: Config, us: Users, level: nat)
    requires WellFormed(c) && ValidUsers(c, us)
    ensures Justified(c, us, At(c, us, level))
  {
    hide Visibility, TriValue, StrValue, Selection, Assignable, Readable, WellFormed, StepAt, Within, Domain, Next;
    if level > 0 {
      var e, s := At(c, us, level - 1), At(c, us, level);
      AtJustified(c, us, level - 1);
      AtDomain(c, us, level - 1);
      AtDomain(c, us, level);
      NextGrows(c, us, e, level - 1);
      forall i: Id ensures JustifiedAt(c, UserOf(us, i), s, i) {
        assert JustifiedAt(c, UserOf(us, i), e, i);
        NextStep(c, us, e, level - 1, i);
        if i < |us| {
          ItemJustified(c, us, e, s, level - 1, i);
        } else {
          OutsideDomain(c, s, level, i);
        }
      }
    }
  }

  lemma OutsideDomain(c: Config, e: Env, level: nat, i: Id)
    requires Domain(c, e, level) && i >= |c.items|
    ensures i !in e.vis && i !in e.tri && i !in e.str && i !in e.sel && i !in e.asg
  {
    hide VisLevel, TriLevel, StrLevel, SelLevel, AsgLevel;
  }

  /** A level above all those of the first k items. */
  function Top(c: Config, k: nat): nat {
    if k == 0 then 0 else Top(c, k - 1) + Above(c, k - 1)
  }

  lemma {:induction false} TopIsAbove(c: Config, k: nat, i: Id)
    requires i < k
    ensures Above(c, i) <= Top(c, k)
  {
    hide Above;
    if i < k - 1 {
      TopIsAbove(c, k - 1, i);
    }
  }

  /** The values of a configuration under the user's settings. */
  function Values(c: Config, us: Users): Env {
    At(c, us, Top(c, |c.items|))
  }

  /**
  The values are a total assignment satisfying every rule, and the only one:
  whatever is justified agrees with them.
  */
  lemma ValuesExistUniquely(c: Config, us: Users)
    requires WellFormed(c) && ValidUsers(c, us)
    ensures Total(c, Values(c, us)) && Justified(c, us, Values(c, us))
    ensures forall e :: Justified(c, us, e) ==> Within(e, Values(c, us))
  {
    hide Visibility, TriValue, StrValue, Selection, Assignable, Readable, WellFormedItem, Within, JustifiedAt, At;
    var top := Top(c, |c.items|);
    AtDomain(c, us, top);
    AtJustified(c, us, top);
    forall i: Id | i < |c.items| ensures TotalAt(c, Values(c, us), i) {
      TopIsAbove(c, |c.items|, i);
    }
    forall e | Justified(c, us, e) ensures Within(e, Values(c, us)) {
      JustifiedWithin(c, us, e, Values(c, us));
    }
  }
}
