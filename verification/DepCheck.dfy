/**
The dependency-loop check as it runs, marking items in place.
*/
module DepCheck {
  import opened DepGraph
  import opened DepLoops
  import opened DepSound
  import opened Options

  class LoopChecker {
    const g: Graph
    const visited: array<nat>

    ghost predicate Valid()
      reads visited
    {
      Proper(g) && visited.Length == |g.deps| && Marked(visited[..])
    }

    constructor (graph: Graph)
      requires Proper(graph)
      ensures g == graph && Valid() && visited[..] == Fresh(graph) && fresh(visited)
    {
      g := graph;
      visited := new nat[|graph.deps|](_ => 0);
      new;
      assert visited[..] == Fresh(graph);
    }

    /** _check_dep_loop_sym() */
    method CheckSym(x: Id, ignoreChoice: bool) returns (o: Outcome)
      requires Proper(g) && visited.Length == |g.deps| && x < visited.Length && !g.isChoice[x]
      modifies visited
      ensures (o, visited[..]) == VisitSym(g, old(visited[..]), x, ignoreChoice)
      decreases White(visited[..]), 0, 0
    {
      if visited[x] == 0 {
        ghost var v := visited[..];
        MarkWhite(v, x, 1);
        visited[x] := 1;
        ghost var v1 := visited[..];
        assert v1 == v[x := 1];
        var k := 0;
        while k < |g.deps[x]|
          invariant 0 <= k <= |g.deps[x]|
          invariant VisitDeps(g, visited[..], x, k) == VisitDeps(g, v1, x, 0)
          invariant White(visited[..]) <= White(v1)
        {
          var d := g.deps[x][k];
          ghost var w := visited[..];
          if g.isChoice[d] {
            o := CheckChoice(d, None);
          } else {
            o := CheckSym(d, false);
          }
          if !o.Clear? {
            return FoundLoop(o, x);
          }
          GrowsWhite(w, visited[..]);
          k := k + 1;
        }
        if g.choice[x].Some? && !ignoreChoice {
          o := CheckChoice(g.choice[x].value, Some(x));
          if !o.Clear? {
            return FoundLoop(o, x);
          }
        }
        ghost var w := visited[..];
        visited[x] := 2;
        assert visited[..] == w[x := 2];
        o := Clear;
      } else if visited[x] == 2 {
        o := Clear;
      } else {
        o := Partial([x]);
      }
    }

    /** _check_dep_loop_choice() */
    method CheckChoice(c: Id, skip: Option<Id>) returns (o: Outcome)
      requires Proper(g) && visited.Length == |g.deps| && c < visited.Length && g.isChoice[c]
      modifies visited
      ensures (o, visited[..]) == VisitChoice(g, old(visited[..]), c, skip)
      decreases White(visited[..]), 0, 0
    {
      if visited[c] == 0 {
        ghost var v := visited[..];
        MarkWhite(v, c, 1);
        visited[c] := 1;
        ghost var v1 := visited[..];
        assert v1 == v[c := 1];
        var k := 0;
        while k < |g.syms[c]|
          invariant 0 <= k <= |g.syms[c]|
          invariant VisitMembers(g, visited[..], c, skip, k) == VisitMembers(g, v1, c, skip, 0)
          invariant White(visited[..]) <= White(v1)
        {
          var m := g.syms[c][k];
          if skip != Some(m) {
            ghost var w := visited[..];
            o := CheckSym(m, true);
            if !o.Clear? {
              return FoundLoop(o, c);
            }
            GrowsWhite(w, visited[..]);
          }
          k := k + 1;
        }
        ghost var w := visited[..];
        visited[c] := 2;
        assert visited[..] == w[c := 2];
        o := Clear;
      } else if visited[c] == 2 {
        o := Clear;
      } else {
        o := Partial([c]);
      }
    }

    /**
    The check of all defined symbols. It ends, and either raises a loop in which
    each item depends on the next, or every symbol it starts from is finished and
    the graph from symbols to dependents is acyclic. It never rejects a graph whose
    dependents can be put after the symbols they depend on, choices with their symbols.
    */
    method CheckAll(roots: seq<Id>) returns (o: Outcome)
      requires Valid() && Roots(g, roots) && visited[..] == Fresh(g)
      modifies visited
      ensures (o, visited[..]) == VisitAll(g, Fresh(g), roots, 0)
      ensures o.Clear? || (o.Raised? && Cycle(g, o.loop))
      ensures o.Clear? ==> forall j :: 0 <= j < |roots| ==> visited[roots[j]] == 2
      ensures (exists rank :: Layered(g, rank)) ==> o.Clear?
      ensures RootsCover(g, roots) && o.Clear? ==> exists u :: Descending(g, u)
    {
      hide Layered, Cycle, RootsCover, Descending;
      AllReport(g, Fresh(g), roots, 0);
      if rank :| Layered(g, rank) {
        NoFalseAlarm(g, rank, Fresh(g), roots, 0);
      }
      if RootsCover(g, roots) {
        if VisitAll(g, Fresh(g), roots, 0).0.Clear? {
          var u := PassedMeansAcyclic(g, roots);
        }
      }
      var k := 0;
      while k < |roots|
        invariant 0 <= k <= |roots|
        invariant VisitAll(g, visited[..], roots, k) == VisitAll(g, Fresh(g), roots, 0)
      {
        o := CheckSym(roots[k], false);
        if !o.Clear? {
          return;
        }
        k := k + 1;
      }
      o := Clear;
    }
  }
}
