/**
What a passed dependency-loop check says of the symbols: finishing times that
decrease from every symbol to its dependents.
*/
module DepSound {
  import opened DepGraph
  import opened DepLoops
  import opened Options

  /** Symbols the check does not start from are in no choice and depend on nothing. */
  predicate RootsCover(g: Graph, roots: seq<Id>)
    requires Proper(g)
  {
    forall x :: 0 <= x < |g.deps| && !g.isChoice[x] && x !in roots ==>
      g.choice[x].None? && forall y, k :: 0 <= y < |g.deps| && !g.isChoice[y] && 0 <= k < |g.deps[y]| ==> g.deps[y][k] != x
  }

  // ---------------------------------------------------------------------
  // Finishing times
  // ---------------------------------------------------------------------

  /** Dependent `d` of `x` finished before `x`, with all its symbols when it is a choice. */
  ghost predicate Before(g: Graph, v: Marks, t: seq<nat>, d: Id, x: Id)
    requires Proper(g) && |t| == |v| == |g.deps| && d < |v| && x < |v|
  {
    && v[d] == 2 && t[d] < t[x]
    && (g.isChoice[d] ==> forall j :: 0 <= j < |g.syms[d]| ==> v[g.syms[d][j]] == 2 && t[g.syms[d][j]] < t[x])
  }

  /** Every finished item has a time before `now`, later than those of its dependents. */
  ghost predicate Timed(g: Graph, v: Marks, t: seq<nat>, now: nat)
    requires Proper(g) && |t| == |v| == |g.deps|
  {
    && (forall x :: 0 <= x < |v| ==> t[x] <= now)
    && (forall x :: 0 <= x < |v| && v[x] == 2 ==> t[x] < now)
    && (forall x, k :: 0 <= x < |v| && v[x] == 2 && !g.isChoice[x] && 0 <= k < |g.deps[x]| ==> Before(g, v, t, g.deps[x][k], x))
  }

  /** The symbols of a finished choice are finished, except for `pending`. */
  ghost predicate GroupsDone(g: Graph, v: Marks, pending: Option<Id>)
    requires Proper(g) && |v| == |g.deps|
  {
    forall c, j :: 0 <= c < |v| && v[c] == 2 && g.isChoice[c] && 0 <= j < |g.syms[c]| ==>
      v[g.syms[c][j]] == 2 || pending == Some(g.syms[c][j])
  }

  /** `t` is a record of the finished items, `u` extends it. */
  ghost predicate Extends(v: Marks, t: seq<nat>, u: seq<nat>)
    requires |v| == |t|
  {
    |u| == |t| && forall x :: 0 <= x < |v| && v[x] == 2 ==> u[x] == t[x]
  }

  /** Finishing `x` at time `now`. */
  lemma Finish(g: Graph, v: Marks, t: seq<nat>, now: nat, x: Id)
    requires Proper(g) && |t| == |v| == |g.deps| && x < |v| && v[x] != 2 && Timed(g, v, t, now)
    requires !g.isChoice[x] ==> forall k :: 0 <= k < |g.deps[x]| ==> v[g.deps[x][k]] == 2
    requires !g.isChoice[x] ==> forall k, j :: 0 <= k < |g.deps[x]| && g.isChoice[g.deps[x][k]] && 0 <= j < |g.syms[g.deps[x][k]]| ==>
               v[g.syms[g.deps[x][k]][j]] == 2
    ensures Timed(g, v[x := 2], t[x := now], now + 1)
  {
    var w, u := v[x := 2], t[x := now];
    forall y, k | 0 <= y < |w| && w[y] == 2 && !g.isChoice[y] && 0 <= k < |g.deps[y]|
      ensures Before(g, w, u, g.deps[y][k], y)
    {
      if y != x {
        assert Before(g, v, t, g.deps[y][k], y);
      }
    }
  }

  lemma {:induction false} SymTimed(g: Graph, v: Marks, x: Id, ignoreChoice: bool, t: seq<nat>, now: nat)
    returns (t': seq<nat>, now': nat)
    requires Proper(g) && |t| == |v| == |g.deps| && x < |v| && !g.isChoice[x] && Marked(v)
    requires VisitSym(g, v, x, ignoreChoice).0.Clear? && Timed(g, v, t, now) && GroupsDone(g, v, None)
    ensures var w := VisitSym(g, v, x, ignoreChoice).1;
            Extends(v, t, t') && Timed(g, w, t', now') && GroupsDone(g, w, None)
    decreases White(v), 0, 0
  {
    t', now' := t, now;
    if v[x] == 0 {
      hide Timed, GroupsDone, White, VisitDeps, VisitChoice, Extends, DepsDone;
      MarkWhite(v, x, 1);
      GreyTimed(g, v, t, now, x);
      var w := VisitDeps(g, v[x := 1], x, 0).1;
      DepsReport(g, v[x := 1], x, 0);
      GrowsWhite(v[x := 1], w);
      t', now' := DepsTimed(g, v[x := 1], x, 0, t, now);
      FinishedDeps(g, w, x);
      if g.choice[x].Some? && !ignoreChoice {
        var c := g.choice[x].value;
        ChoiceReport(g, w, c, Some(x));
        var w1 := VisitChoice(g, w, c, Some(x)).1;
        var t1, now1 := t', now';
        t', now' := ChoiceTimed(g, w, c, Some(x), t1, now1);
        StillDone(g, w, w1, x);
        StillExtends(v[x := 1], w, t, t1, t');
        w := w1;
      } else {
        PendingNone(g, w, x);
      }
      t', now' := FinishSym(g, v, w, t, t', now', x);
    }
  }

  /** All dependents of x are finished, with all symbols of dependent choices. */
  ghost predicate DepsDone(g: Graph, w: Marks, x: Id)
    requires Proper(g) && |w| == |g.deps| && x < |w|
  {
    forall k :: 0 <= k < |g.deps[x]| ==>
      var d := g.deps[x][k];
      w[d] == 2 && (g.isChoice[d] ==> forall j :: 0 <= j < |g.syms[d]| ==> w[g.syms[d][j]] == 2)
  }

  lemma FinishedDeps(g: Graph, w: Marks, x: Id)
    requires Proper(g) && |w| == |g.deps| && x < |w| && GroupsDone(g, w, None)
    requires forall k :: 0 <= k < |g.deps[x]| ==> w[g.deps[x][k]] == 2
    ensures DepsDone(g, w, x)
  {}

  lemma StillDone(g: Graph, v: Marks, w: Marks, x: Id)
    requires Proper(g) && |v| == |g.deps| && x < |v| && DepsDone(g, v, x) && Settled(v, w)
    ensures DepsDone(g, w, x)
  {}

  lemma StillExtends(v: Marks, w: Marks, t: seq<nat>, t1: seq<nat>, t2: seq<nat>)
    requires |v| == |t| == |w| && Settled(v, w) && Extends(v, t, t1) && Extends(w, t1, t2)
    ensures Extends(v, t, t2)
  {}

  lemma PendingNone(g: Graph, w: Marks, x: Id)
    requires Proper(g) && |w| == |g.deps| && GroupsDone(g, w, None)
    ensures GroupsDone(g, w, Some(x))
  {}

  /** The last step for a symbol whose dependents have all been finished. */
  lemma FinishSym(g: Graph, v: Marks, w: Marks, t: seq<nat>, t1: seq<nat>, now: nat, x: Id) returns (t': seq<nat>, now': nat)
    requires Proper(g) && |t| == |t1| == |w| == |v| == |g.deps| && x < |v| && !g.isChoice[x] && v[x] == 0 && w[x] == 1
    requires Timed(g, w, t1, now) && Extends(v[x := 1], t, t1) && GroupsDone(g, w, Some(x)) && DepsDone(g, w, x)
    ensures Extends(v, t, t') && Timed(g, w[x := 2], t', now') && GroupsDone(g, w[x := 2], None)
  {
    t', now' := t1[x := now], now + 1;
    assert Extends(v, t, t');
    hide Extends;
    assert GroupsDone(g, w[x := 2], None);
    hide GroupsDone;
    Finish(g, w, t1, now, x);
  }

  lemma GreyTimed(g: Graph, v: Marks, t: seq<nat>, now: nat, x: Id)
    requires Proper(g) && |t| == |v| == |g.deps| && x < |v| && v[x] == 0 && Timed(g, v, t, now) && GroupsDone(g, v, None)
    ensures Timed(g, v[x := 1], t, now) && GroupsDone(g, v[x := 1], None)
  {
    var w := v[x := 1];
    forall y, k | 0 <= y < |w| && w[y] == 2 && !g.isChoice[y] && 0 <= k < |g.deps[y]|
      ensures Before(g, w, t, g.deps[y][k], y)
    {
      assert Before(g, v, t, g.deps[y][k], y);
    }
  }

  lemma {:induction false} DepsTimed(g: Graph, v: Marks, x: Id, k: nat, t: seq<nat>, now: nat)
    returns (t': seq<nat>, now': nat)
    requires Proper(g) && |t| == |v| == |g.deps| && x < |v| && !g.isChoice[x] && k <= |g.deps[x]| && Marked(v)
    requires VisitDeps(g, v, x, k).0.Clear? && Timed(g, v, t, now) && GroupsDone(g, v, None)
    ensures var w := VisitDeps(g, v, x, k).1;
            Extends(v, t, t') && Timed(g, w, t', now') && GroupsDone(g, w, None)
    decreases White(v), 1, |g.deps[x]| - k
  {
    t', now' := t, now;
    if k < |g.deps[x]| {
      var d := g.deps[x][k];
      var w;
      if g.isChoice[d] {
        ChoiceReport(g, v, d, None);
        w := VisitChoice(g, v, d, None).1;
        t', now' := ChoiceTimed(g, v, d, None, t, now);
      } else {
        SymReport(g, v, d, false);
        w := VisitSym(g, v, d, false).1;
        t', now' := SymTimed(g, v, d, false, t, now);
      }
      GrowsWhite(v, w);
      var t1 := t';
      t', now' := DepsTimed(g, w, x, k + 1, t1, now');
    }
  }

  lemma {:induction false} ChoiceTimed(g: Graph, v: Marks, c: Id, skip: Option<Id>, t: seq<nat>, now: nat)
    returns (t': seq<nat>, now': nat)
    requires Proper(g) && |t| == |v| == |g.deps| && c < |v| && g.isChoice[c] && Marked(v)
    requires VisitChoice(g, v, c, skip).0.Clear? && Timed(g, v, t, now) && GroupsDone(g, v, None)
    ensures var w := VisitChoice(g, v, c, skip).1;
            Extends(v, t, t') && Timed(g, w, t', now') && GroupsDone(g, w, skip)
    decreases White(v), 0, 0
  {
    t', now' := t, now;
    if v[c] == 0 {
      MarkWhite(v, c, 1);
      var w := VisitMembers(g, v[c := 1], c, skip, 0).1;
      MembersReport(g, v[c := 1], c, skip, 0);
      GreyTimed(g, v, t, now, c);
      t', now' := MembersTimed(g, v[c := 1], c, skip, 0, t, now);
      Finish(g, w, t', now', c);
      t', now' := t'[c := now'], now' + 1;
    }
  }

  lemma {:induction false} MembersTimed(g: Graph, v: Marks, c: Id, skip: Option<Id>, k: nat, t: seq<nat>, now: nat)
    returns (t': seq<nat>, now': nat)
    requires Proper(g) && |t| == |v| == |g.deps| && c < |v| && g.isChoice[c] && k <= |g.syms[c]| && Marked(v)
    requires VisitMembers(g, v, c, skip, k).0.Clear? && Timed(g, v, t, now) && GroupsDone(g, v, None)
    ensures var w := VisitMembers(g, v, c, skip, k).1;
            Extends(v, t, t') && Timed(g, w, t', now') && GroupsDone(g, w, None)
    decreases White(v), 1, |g.syms[c]| - k
  {
    t', now' := t, now;
    if k < |g.syms[c]| {
      var m := g.syms[c][k];
      if skip == Some(m) {
        t', now' := MembersTimed(g, v, c, skip, k + 1, t, now);
      } else {
        SymReport(g, v, m, true);
        var w := VisitSym(g, v, m, true).1;
        GrowsWhite(v, w);
        t', now' := SymTimed(g, v, m, true, t, now);
        var t1 := t';
        t', now' := MembersTimed(g, w, c, skip, k + 1, t1, now');
      }
    }
  }

  lemma {:induction false} AllTimed(g: Graph, v: Marks, roots: seq<Id>, k: nat, t: seq<nat>, now: nat)
    returns (t': seq<nat>, now': nat)
    requires Proper(g) && |t| == |v| == |g.deps| && k <= |roots| && Roots(g, roots) && Marked(v) && NoGrey(v)
    requires VisitAll(g, v, roots, k).0.Clear? && Timed(g, v, t, now) && GroupsDone(g, v, None)
    ensures var w := VisitAll(g, v, roots, k).1;
            |t'| == |v| && Timed(g, w, t', now') && GroupsDone(g, w, None)
    decreases |roots| - k
  {
    t', now' := t, now;
    if k < |roots| {
      SymReport(g, v, roots[k], false);
      t', now' := SymTimed(g, v, roots[k], false, t, now);
      var t1 := t';
      t', now' := AllTimed(g, VisitSym(g, v, roots[k], false).1, roots, k + 1, t1, now');
    }
  }

  // ---------------------------------------------------------------------
  // Acyclicity
  // ---------------------------------------------------------------------

  /** Every dependent of a symbol has a smaller number, and so have all symbols of a dependent choice. */
  ghost predicate Descending(g: Graph, u: seq<nat>)
    requires Proper(g)
  {
    && |u| == |g.deps|
    && forall x, k :: 0 <= x < |u| && !g.isChoice[x] && 0 <= k < |g.deps[x]| ==>
         var d := g.deps[x][k];
         && u[d] < u[x]
         && (g.isChoice[d] ==> forall j :: 0 <= j < |g.syms[d]| ==> u[g.syms[d][j]] < u[x])
  }

  /** Items that were not visited come after (symbols) or before (choices) all others. */
  function Number(g: Graph, v: Marks, t: seq<nat>, now: nat, x: Id): nat
    requires Proper(g) && |t| == |v| == |g.deps| && x < |t|
  {
    if v[x] == 2 then t[x] else if g.isChoice[x] then 0 else now + 1
  }

  lemma DependentBelow(g: Graph, roots: seq<Id>, v: Marks, t: seq<nat>, now: nat, x: Id, k: nat)
    requires Proper(g) && RootsCover(g, roots) && |t| == |v| == |g.deps| && Timed(g, v, t, now)
    requires forall y :: 0 <= y < |v| && !g.isChoice[y] && y in roots ==> v[y] == 2
    requires x < |v| && !g.isChoice[x] && k < |g.deps[x]|
    ensures var d := g.deps[x][k];
      && Number(g, v, t, now, d) < Number(g, v, t, now, x)
      && (g.isChoice[d] ==> forall j :: 0 <= j < |g.syms[d]| ==> Number(g, v, t, now, g.syms[d][j]) < Number(g, v, t, now, x))
  {
    var d := g.deps[x][k];
    if v[x] == 2 {
      assert Before(g, v, t, d, x);
    } else {
      assert g.isChoice[d] || d in roots;
      if g.isChoice[d] {
        forall j | 0 <= j < |g.syms[d]| ensures v[g.syms[d][j]] == 2 {
          assert g.choice[g.syms[d][j]] == Some(d);
        }
      }
    }
  }

  /** If the check passes for all symbols, the graph from symbols to their dependents is acyclic. */
  lemma PassedMeansAcyclic(g: Graph, roots: seq<Id>) returns (u: seq<nat>)
    requires Proper(g) && Roots(g, roots) && RootsCover(g, roots)
    requires VisitAll(g, Fresh(g), roots, 0).0.Clear?
    ensures Descending(g, u)
  {
    var v0 := Fresh(g);
    AllReport(g, v0, roots, 0);
    var v := VisitAll(g, v0, roots, 0).1;
    var t, now := AllTimed(g, v0, roots, 0, seq(|g.deps|, i => 0), 0);
    u := seq(|t|, x requires 0 <= x < |t| => Number(g, v, t, now, x));
    hide Timed, Number, GroupsDone;
    forall x, k | 0 <= x < |u| && !g.isChoice[x] && 0 <= k < |g.deps[x]|
      ensures u[g.deps[x][k]] < u[x]
      ensures g.isChoice[g.deps[x][k]] ==> forall j :: 0 <= j < |g.syms[g.deps[x][k]]| ==> u[g.syms[g.deps[x][k]][j]] < u[x]
    {
      DependentBelow(g, roots, v, t, now, x, k);
    }
  }
}
