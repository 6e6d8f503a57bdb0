/**
What the dependency-loop check finds and what it misses.
*/
module DepLoops {
  import opened DepGraph
  import opened Options

  // ---------------------------------------------------------------------
  // Reports are genuine
  // ---------------------------------------------------------------------

  /** The search goes from `a` to `b`: `b` depends on `a`, or one is a choice and the other its symbol. */
  predicate Follows(g: Graph, a: Id, b: Id)
    requires Proper(g)
  {
    a < |g.deps| && (if g.isChoice[a] then b in g.syms[a] else b in g.deps[a] || g.choice[a] == Some(b))
  }

  /** Each element depends on the next one. */
  predicate Chain(g: Graph, l: seq<Id>)
    requires Proper(g)
  {
    l != [] && forall j :: 0 <= j < |l| - 1 ==> Follows(g, l[j + 1], l[j])
  }

  /** A loop in "depends on" order, the last element depending on the first again. */
  predicate Cycle(g: Graph, l: seq<Id>)
    requires Proper(g)
  {
    Chain(g, l) && Follows(g, l[0], l[|l| - 1])
  }

  predicate Marked(v: Marks) {
    forall i :: 0 <= i < |v| ==> v[i] <= 2
  }

  /** Nothing is left on the path, and finished items stay finished. */
  ghost predicate Settled(v: Marks, w: Marks) {
    |v| == |w| && Marked(w) && forall i :: 0 <= i < |v| ==> (w[i] == 1 <==> v[i] == 1) && (v[i] == 2 ==> w[i] == 2)
  }

  /** A report of part of a loop: it starts at an item on the path and ends at `last`. */
  ghost predicate PartOf(g: Graph, v: Marks, l: seq<Id>, last: Id)
    requires Proper(g)
  {
    Chain(g, l) && l[|l| - 1] == last && l[0] < |v| && v[l[0]] == 1
  }

  lemma FoundLoopGenuine(g: Graph, v: Marks, o: Outcome, x: Id)
    requires Proper(g) && |v| == |g.deps| && x < |v| && v[x] == 0 && !o.Clear?
    requires o.Partial? ==> exists last :: PartOf(g, v[x := 1], o.loop, last) && Follows(g, x, last)
    requires o.Raised? ==> Cycle(g, o.loop)
    ensures var r := FoundLoop(o, x);
            (r.Partial? && PartOf(g, v, r.loop, x)) || (r.Raised? && Cycle(g, r.loop))
  {}

  lemma {:induction false} SymReport(g: Graph, v: Marks, x: Id, ignoreChoice: bool)
    requires Proper(g) && |v| == |g.deps| && x < |v| && !g.isChoice[x] && Marked(v)
    ensures var (o, w) := VisitSym(g, v, x, ignoreChoice);
            && (o.Clear? ==> Settled(v, w) && w[x] == 2)
            && (o.Partial? ==> PartOf(g, v, o.loop, x))
            && (o.Raised? ==> Cycle(g, o.loop))
    decreases White(v), 0, 0
  {
    if v[x] == 0 {
      MarkWhite(v, x, 1);
      var (o, w) := VisitDeps(g, v[x := 1], x, 0);
      DepsReport(g, v[x := 1], x, 0);
      GrowsWhite(v[x := 1], w);
      if !o.Clear? {
        FoundLoopGenuine(g, v, o, x);
      } else if g.choice[x].Some? && !ignoreChoice {
        var c := g.choice[x].value;
        ChoiceReport(g, w, c, Some(x));
        var (o', w') := VisitChoice(g, w, c, Some(x));
        if !o'.Clear? {
          assert o'.Partial? ==> PartOf(g, v[x := 1], o'.loop, c) && Follows(g, x, c);
          FoundLoopGenuine(g, v, o', x);
        }
      }
    }
  }

  lemma {:induction false} DepsReport(g: Graph, v: Marks, x: Id, k: nat)
    requires Proper(g) && |v| == |g.deps| && x < |v| && !g.isChoice[x] && k <= |g.deps[x]| && Marked(v)
    ensures var (o, w) := VisitDeps(g, v, x, k);
            && (o.Clear? ==> Settled(v, w) && forall j :: k <= j < |g.deps[x]| ==> w[g.deps[x][j]] == 2)
            && (o.Partial? ==> exists last :: PartOf(g, v, o.loop, last) && Follows(g, x, last))
            && (o.Raised? ==> Cycle(g, o.loop))
    decreases White(v), 1, |g.deps[x]| - k
  {
    if k < |g.deps[x]| {
      var d := g.deps[x][k];
      var (o, w) := if g.isChoice[d] then VisitChoice(g, v, d, None) else VisitSym(g, v, d, false);
      if g.isChoice[d] {
        ChoiceReport(g, v, d, None);
      } else {
        SymReport(g, v, d, false);
      }
      GrowsWhite(v, w);
      if o.Clear? {
        DepsReport(g, w, x, k + 1);
        var (o', w') := VisitDeps(g, w, x, k + 1);
        if o'.Partial? {
          var last :| PartOf(g, w, o'.loop, last) && Follows(g, x, last);
          assert PartOf(g, v, o'.loop, last);
        }
      } else if o.Partial? {
        assert PartOf(g, v, o.loop, d) && Follows(g, x, d);
      }
    }
  }

  lemma {:induction false} ChoiceReport(g: Graph, v: Marks, c: Id, skip: Option<Id>)
    requires Proper(g) && |v| == |g.deps| && c < |v| && g.isChoice[c] && Marked(v)
    ensures var (o, w) := VisitChoice(g, v, c, skip);
            && (o.Clear? ==> Settled(v, w) && w[c] == 2)
            && (o.Partial? ==> PartOf(g, v, o.loop, c))
            && (o.Raised? ==> Cycle(g, o.loop))
    decreases White(v), 0, 0
  {
    if v[c] == 0 {
      MarkWhite(v, c, 1);
      var (o, w) := VisitMembers(g, v[c := 1], c, skip, 0);
      MembersReport(g, v[c := 1], c, skip, 0);
      if !o.Clear? {
        FoundLoopGenuine(g, v, o, c);
      }
    }
  }

  lemma {:induction false} MembersReport(g: Graph, v: Marks, c: Id, skip: Option<Id>, k: nat)
    requires Proper(g) && |v| == |g.deps| && c < |v| && g.isChoice[c] && k <= |g.syms[c]| && Marked(v)
    ensures var (o, w) := VisitMembers(g, v, c, skip, k);
            && (o.Clear? ==>
                  && Settled(v, w)
                  && forall j :: k <= j < |g.syms[c]| && skip != Some(g.syms[c][j]) ==> w[g.syms[c][j]] == 2)
            && (o.Partial? ==> exists last :: PartOf(g, v, o.loop, last) && Follows(g, c, last))
            && (o.Raised? ==> Cycle(g, o.loop))
    decreases White(v), 1, |g.syms[c]| - k
  {
    if k < |g.syms[c]| {
      var m := g.syms[c][k];
      if skip == Some(m) {
        MembersReport(g, v, c, skip, k + 1);
      } else {
        var (o, w) := VisitSym(g, v, m, true);
        SymReport(g, v, m, true);
        GrowsWhite(v, w);
        if o.Clear? {
          MembersReport(g, w, c, skip, k + 1);
          var (o', w') := VisitMembers(g, w, c, skip, k + 1);
          if o'.Partial? {
            var last :| PartOf(g, w, o'.loop, last) && Follows(g, c, last);
            assert PartOf(g, v, o'.loop, last);
          }
        } else if o.Partial? {
          assert PartOf(g, v, o.loop, m) && Follows(g, c, m);
        }
      }
    }
  }

  ghost predicate NoGrey(v: Marks) {
    forall i :: 0 <= i < |v| ==> v[i] != 1
  }

  /** The check of all symbols ends with every symbol finished, or raises a genuine loop. */
  lemma {:induction false} AllReport(g: Graph, v: Marks, roots: seq<Id>, k: nat)
    requires Proper(g) && |v| == |g.deps| && k <= |roots| && Roots(g, roots) && Marked(v) && NoGrey(v)
    ensures var (o, w) := VisitAll(g, v, roots, k);
            && !o.Partial?
            && (o.Raised? ==> Cycle(g, o.loop))
            && (o.Clear? ==> Settled(v, w) && forall j :: k <= j < |roots| ==> w[roots[j]] == 2)
    decreases |roots| - k
  {
    if k < |roots| {
      SymReport(g, v, roots[k], false);
      var (o, w) := VisitSym(g, v, roots[k], false);
      if o.Clear? {
        AllReport(g, w, roots, k + 1);
      }
    }
  }

  // ---------------------------------------------------------------------
  // No false alarms
  // ---------------------------------------------------------------------

  /** Dependents of symbols come later, a choice and its symbols together. */
  predicate Layered(g: Graph, rank: seq<nat>)
    requires Proper(g)
  {
    && |rank| == |g.deps|
    && (forall x, k :: 0 <= x < |rank| && !g.isChoice[x] && 0 <= k < |g.deps[x]| ==> rank[x] < rank[g.deps[x][k]])
    && (forall x :: 0 <= x < |rank| && g.choice[x].Some? ==> rank[x] == rank[g.choice[x].value])
  }

  /** Everything on the path comes before `x`; `also` may share its rank. */
  ghost predicate PathBefore(rank: seq<nat>, v: Marks, x: Id, also: set<Id>)
    requires |v| == |rank| && x < |v|
  {
    forall y :: 0 <= y < |v| && v[y] == 1 ==> rank[y] < rank[x] || (y in also && rank[y] == rank[x])
  }

  lemma {:induction false} SymClear(g: Graph, rank: seq<nat>, v: Marks, x: Id, ignoreChoice: bool, also: set<Id>)
    requires Proper(g) && Layered(g, rank) && |v| == |g.deps| && x < |v| && !g.isChoice[x] && Marked(v)
    requires PathBefore(rank, v, x, also) && x !in also && (!ignoreChoice ==> also == {})
    ensures VisitSym(g, v, x, ignoreChoice).0.Clear?
    decreases White(v), 0, 0
  {
    if v[x] == 0 {
      MarkWhite(v, x, 1);
      DepsClear(g, rank, v[x := 1], x, 0);
      DepsReport(g, v[x := 1], x, 0);
      var (o, w) := VisitDeps(g, v[x := 1], x, 0);
      GrowsWhite(v[x := 1], w);
      if g.choice[x].Some? && !ignoreChoice {
        ChoiceClear(g, rank, w, g.choice[x].value, Some(x));
      }
    }
  }

  lemma {:induction false} DepsClear(g: Graph, rank: seq<nat>, v: Marks, x: Id, k: nat)
    requires Proper(g) && Layered(g, rank) && |v| == |g.deps| && x < |v| && !g.isChoice[x] && k <= |g.deps[x]| && Marked(v)
    requires forall y :: 0 <= y < |v| && v[y] == 1 ==> rank[y] <= rank[x]
    ensures VisitDeps(g, v, x, k).0.Clear?
    decreases White(v), 1, |g.deps[x]| - k
  {
    if k < |g.deps[x]| {
      var d := g.deps[x][k];
      assert PathBefore(rank, v, d, {});
      var (o, w) := if g.isChoice[d] then VisitChoice(g, v, d, None) else VisitSym(g, v, d, false);
      if g.isChoice[d] {
        ChoiceClear(g, rank, v, d, None);
        ChoiceReport(g, v, d, None);
      } else {
        SymClear(g, rank, v, d, false, {});
        SymReport(g, v, d, false);
      }
      GrowsWhite(v, w);
      DepsClear(g, rank, w, x, k + 1);
    }
  }

  lemma {:induction false} ChoiceClear(g: Graph, rank: seq<nat>, v: Marks, c: Id, skip: Option<Id>)
    requires Proper(g) && Layered(g, rank) && |v| == |g.deps| && c < |v| && g.isChoice[c] && Marked(v)
    requires PathBefore(rank, v, c, if skip.Some? then {skip.value} else {})
    requires skip.Some? ==> skip.value < |v| && !g.isChoice[skip.value]
    ensures VisitChoice(g, v, c, skip).0.Clear?
    decreases White(v), 0, 0
  {
    if v[c] == 0 {
      MarkWhite(v, c, 1);
      MembersClear(g, rank, v[c := 1], c, skip, 0);
    }
  }

  lemma {:induction false} MembersClear(g: Graph, rank: seq<nat>, v: Marks, c: Id, skip: Option<Id>, k: nat)
    requires Proper(g) && Layered(g, rank) && |v| == |g.deps| && c < |v| && g.isChoice[c] && k <= |g.syms[c]| && Marked(v)
    requires PathBefore(rank, v, c, {c} + if skip.Some? then {skip.value} else {})
    ensures VisitMembers(g, v, c, skip, k).0.Clear?
    decreases White(v), 1, |g.syms[c]| - k
  {
    if k < |g.syms[c]| {
      var m := g.syms[c][k];
      if skip == Some(m) {
        MembersClear(g, rank, v, c, skip, k + 1);
      } else {
        var also := {c} + if skip.Some? then {skip.value} else {};
        assert g.choice[m] == Some(c);
        SymClear(g, rank, v, m, true, also);
        SymReport(g, v, m, true);
        var (o, w) := VisitSym(g, v, m, true);
        GrowsWhite(v, w);
        MembersClear(g, rank, w, c, skip, k + 1);
      }
    }
  }

  /** A graph whose symbols can be put in order passes the check. */
  lemma {:induction false} NoFalseAlarm(g: Graph, rank: seq<nat>, v: Marks, roots: seq<Id>, k: nat)
    requires Proper(g) && Layered(g, rank) && |v| == |g.deps| && k <= |roots| && Roots(g, roots) && Marked(v) && NoGrey(v)
    ensures VisitAll(g, v, roots, k).0.Clear?
    decreases |roots| - k
  {
    if k < |roots| {
      SymClear(g, rank, v, roots[k], false, {});
      SymReport(g, v, roots[k], false);
      var (o, w) := VisitSym(g, v, roots[k], false);
      NoFalseAlarm(g, rank, w, roots, k + 1);
    }
  }
}
