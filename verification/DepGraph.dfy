/**
The dependency-loop check: a depth-first search over symbols and choices with
three marks (0 unvisited, 1 on the current path, 2 finished).
*/
module DepGraph {
  import opened Options

  type Id = nat

  /**
  `deps` lists the items that depend on a symbol, `choice` the choice a symbol
  is in, and `syms` the symbols of a choice.
  */
  datatype Graph = Graph(deps: seq<seq<Id>>, isChoice: seq<bool>, choice: seq<Option<Id>>, syms: seq<seq<Id>>)

  predicate Proper(g: Graph) {
    var n := |g.deps|;
    && |g.isChoice| == n && |g.choice| == n && |g.syms| == n
    && (forall x, k :: 0 <= x < n && 0 <= k < |g.deps[x]| ==> g.deps[x][k] < n)
    && (forall x :: 0 <= x < n && g.choice[x].Some? ==>
          var c := g.choice[x].value;
          !g.isChoice[x] && c < n && g.isChoice[c] && x in g.syms[c])
    && (forall c, k :: 0 <= c < n && g.isChoice[c] && 0 <= k < |g.syms[c]| ==>
          g.syms[c][k] < n && g.choice[g.syms[c][k]] == Some(c))
  }

  type Marks = seq<nat>

  /** What a visit reports: nothing, part of a loop on the way back, or the KconfigError with the whole loop. */
  datatype Outcome = Clear | Partial(loop: seq<Id>) | Raised(loop: seq<Id>)

  /** _found_dep_loop() */
  function FoundLoop(o: Outcome, cur: Id): Outcome {
    if !o.Partial? || o.loop == [] then o
    else if cur == o.loop[0] then Raised(o.loop)
    else Partial(o.loop + [cur])
  }

  /** The number of unvisited items. */
  function White(v: Marks): nat {
    if v == [] then 0 else (if v[0] == 0 then 1 else 0) + White(v[1..])
  }

  /** Visited items stay visited. */
  ghost predicate Grows(v: Marks, w: Marks) {
    |v| == |w| && forall i :: 0 <= i < |v| && v[i] != 0 ==> w[i] != 0
  }

  lemma {:induction false} GrowsWhite(v: Marks, w: Marks)
    requires Grows(v, w)
    ensures White(w) <= White(v)
  {
    if v != [] {
      forall i | 0 <= i < |v[1..]| && v[1..][i] != 0 ensures w[1..][i] != 0 {
        assert v[i + 1] != 0;
      }
      GrowsWhite(v[1..], w[1..]);
    }
  }

  lemma {:induction false} MarkWhite(v: Marks, x: Id, m: nat)
    requires x < |v| && m != 0 && v[x] == 0
    ensures White(v[x := m]) < White(v)
  {
    if x == 0 {
      assert v[x := m][1..] == v[1..];
    } else {
      assert v[x := m][1..] == v[1..][x - 1 := m];
      MarkWhite(v[1..], x - 1, m);
    }
  }

  /** _check_dep_loop_sym() */
  function VisitSym(g: Graph, v: Marks, x: Id, ignoreChoice: bool): (r: (Outcome, Marks))
    requires Proper(g) && |v| == |g.deps| && x < |v| && !g.isChoice[x]
    ensures Grows(v, r.1)
    decreases White(v), 0, 0
  {
    if v[x] == 0 then
      MarkWhite(v, x, 1);
      var (o, w) := VisitDeps(g, v[x := 1], x, 0);
      GrowsWhite(v[x := 1], w);
      if !o.Clear? then (FoundLoop(o, x), w)
      else if g.choice[x].Some? && !ignoreChoice then
        var (o', w') := VisitChoice(g, w, g.choice[x].value, Some(x));
        if !o'.Clear? then (FoundLoop(o', x), w') else (Clear, w'[x := 2])
      else (Clear, w[x := 2])
    else if v[x] == 2 then (Clear, v)
    else (Partial([x]), v)
  }

  /** The loop over the dependents of symbol `x`, from index `k` on */
  function VisitDeps(g: Graph, v: Marks, x: Id, k: nat): (r: (Outcome, Marks))
    requires Proper(g) && |v| == |g.deps| && x < |v| && !g.isChoice[x] && k <= |g.deps[x]|
    ensures Grows(v, r.1)
    decreases White(v), 1, |g.deps[x]| - k
  {
    if k == |g.deps[x]| then (Clear, v) else
      var d := g.deps[x][k];
      var (o, w) := if g.isChoice[d] then VisitChoice(g, v, d, None) else VisitSym(g, v, d, false);
      GrowsWhite(v, w);
      if !o.Clear? then (o, w) else VisitDeps(g, w, x, k + 1)
  }

  /** _check_dep_loop_choice() */
  function VisitChoice(g: Graph, v: Marks, c: Id, skip: Option<Id>): (r: (Outcome, Marks))
    requires Proper(g) && |v| == |g.deps| && c < |v| && g.isChoice[c]
    ensures Grows(v, r.1)
    decreases White(v), 0, 0
  {
    if v[c] == 0 then
      MarkWhite(v, c, 1);
      var (o, w) := VisitMembers(g, v[c := 1], c, skip, 0);
      if !o.Clear? then (FoundLoop(o, c), w) else (Clear, w[c := 2])
    else if v[c] == 2 then (Clear, v)
    else (Partial([c]), v)
  }

  /** The loop over the symbols of choice `c`, from index `k` on */
  function VisitMembers(g: Graph, v: Marks, c: Id, skip: Option<Id>, k: nat): (r: (Outcome, Marks))
    requires Proper(g) && |v| == |g.deps| && c < |v| && g.isChoice[c] && k <= |g.syms[c]|
    ensures Grows(v, r.1)
    decreases White(v), 1, |g.syms[c]| - k
  {
    if k == |g.syms[c]| then (Clear, v)
    else if skip == Some(g.syms[c][k]) then VisitMembers(g, v, c, skip, k + 1)
    else
      var (o, w) := VisitSym(g, v, g.syms[c][k], true);
      GrowsWhite(v, w);
      if !o.Clear? then (o, w) else VisitMembers(g, w, c, skip, k + 1)
  }

  predicate Roots(g: Graph, roots: seq<Id>)
    requires Proper(g)
  {
    forall j :: 0 <= j < |roots| ==> roots[j] < |g.deps| && !g.isChoice[roots[j]]
  }

  /** The check of all symbols in `roots` from index `k` on, in Kconfig.__init__() */
  function VisitAll(g: Graph, v: Marks, roots: seq<Id>, k: nat): (r: (Outcome, Marks))
    requires Proper(g) && |v| == |g.deps| && k <= |roots| && Roots(g, roots)
    ensures Grows(v, r.1)
    decreases |roots| - k
  {
    if k == |roots| then (Clear, v) else
      var (o, w) := VisitSym(g, v, roots[k], false);
      if !o.Clear? then (o, w) else VisitAll(g, w, roots, k + 1)
  }

  function Fresh(g: Graph): Marks {
    seq(|g.deps|, i => 0)
  }
}
