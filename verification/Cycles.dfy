/**
A finite set of edges can be numbered upwards along every edge exactly if no walk
along them comes back to its start.
*/
module Cycles {

  predicate Walk<T(==)>(edges: set<(T, T)>, l: seq<T>) {
    l != [] && forall j :: 0 <= j < |l| - 1 ==> (l[j], l[j + 1]) in edges
  }

  predicate Cycle<T(==)>(edges: set<(T, T)>, l: seq<T>) {
    Walk(edges, l) && |l| >= 2 && l[|l| - 1] == l[0]
  }

  predicate Numbered<T(==)>(edges: set<(T, T)>, number: map<T, nat>) {
    forall e :: e in edges ==> e.0 in number && e.1 in number && number[e.0] < number[e.1]
  }

  // -- a numbering excludes cycles -------------------------------------------

  lemma {:induction false} Rises<T>(edges: set<(T, T)>, number: map<T, nat>, l: seq<T>, j: nat)
    requires Numbered(edges, number) && Walk(edges, l) && 1 <= j < |l|
    ensures l[0] in number && l[j] in number && number[l[0]] < number[l[j]]
  {
    assert (l[j - 1], l[j - 1 + 1]) in edges;
    if j > 1 {
      Rises(edges, number, l, j - 1);
    }
  }

  // -- and without cycles there is one -----------------------------------------

  ghost predicate Before<T(!new)>(edges: set<(T, T)>, a: T, b: T) {
    exists l :: Leads(edges, a, b, l)
  }

  predicate Leads<T(==)>(edges: set<(T, T)>, a: T, b: T, l: seq<T>) {
    Walk(edges, l) && |l| >= 2 && l[0] == a && l[|l| - 1] == b
  }

  lemma EdgeLeads<T(!new)>(edges: set<(T, T)>, a: T, b: T)
    requires (a, b) in edges
    ensures Before(edges, a, b)
  {
    assert Leads(edges, a, b, [a, b]);
  }

  lemma BeforeOn<T(!new)>(edges: set<(T, T)>, x: T, a: T, b: T)
    requires Before(edges, x, a) && (a, b) in edges
    ensures Before(edges, x, b)
  {
    var l :| Leads(edges, x, a, l);
    var m := l + [b];
    forall j | 0 <= j < |m| - 1 ensures (m[j], m[j + 1]) in edges {
      assert j < |l| - 1 ==> (l[j], l[j + 1]) in edges;
    }
    assert Leads(edges, x, b, m);
  }

  ghost function Sources<T(!new)>(edges: set<(T, T)>, b: T): set<T> {
    set e | e in edges && Before(edges, e.0, b) :: e.0
  }

  lemma Smaller<T>(a: set<T>, b: set<T>, x: T)
    requires a <= b && x in b && x !in a
    ensures |a| < |b|
  {
    assert |b - a| == |b| - |a|;
    assert x in b - a;
  }

  lemma SourcesGrow<T(!new)>(edges: set<(T, T)>, a: T, b: T)
    requires (a, b) in edges && !exists l :: Cycle(edges, l)
    ensures |Sources(edges, a)| < |Sources(edges, b)|
  {
    hide Before;
    EdgeLeads(edges, a, b);
    forall x | x in Sources(edges, a) ensures x in Sources(edges, b) {
      BeforeOn(edges, x, a, b);
    }
    assert (a, b).0 in Sources(edges, b);
    NotBeforeSelf(edges, a);
    Smaller(Sources(edges, a), Sources(edges, b), a);
  }

  lemma NotBeforeSelf<T(!new)>(edges: set<(T, T)>, a: T)
    requires !exists l :: Cycle(edges, l)
    ensures !Before(edges, a, a)
  {
    forall l ensures !Leads(edges, a, a, l) {
      assert Leads(edges, a, a, l) ==> Cycle(edges, l);
    }
  }

  ghost function Ends<T>(edges: set<(T, T)>): set<T> {
    (set e | e in edges :: e.0) + (set e | e in edges :: e.1)
  }

  /** A numbering exists if and only if there is no cycle. */
  lemma NumberingExists<T(!new)>(edges: set<(T, T)>)
    ensures (exists number :: Numbered(edges, number)) <==> !exists l :: Cycle(edges, l)
  {
    if number :| Numbered(edges, number) {
      forall l ensures !Cycle(edges, l) {
        if Cycle(edges, l) {
          Rises(edges, number, l, |l| - 1);
        }
      }
    }
    if !exists l :: Cycle(edges, l) {
      var number: map<T, nat> := map x | x in Ends(edges) :: |Sources(edges, x)|;
      forall e | e in edges ensures e.0 in number && e.1 in number && number[e.0] < number[e.1] {
        SourcesGrow(edges, e.0, e.1);
      }
      assert Numbered(edges, number);
    }
  }

  // -- turning a cycle -------------------------------------------------------------

  /** The same cycle from its j-th element on. */
  function Turned<T>(l: seq<T>, j: nat): seq<T>
    requires j < |l|
  {
    l[j..|l| - 1] + l[..j + 1]
  }

  lemma TurnedCycle<T>(edges: set<(T, T)>, l: seq<T>, j: nat)
    requires Cycle(edges, l) && j < |l| - 1
    ensures Cycle(edges, Turned(l, j)) && Turned(l, j)[0] == l[j] && Turned(l, j)[1] == l[j + 1]
  {
    var n, m := |l| - 1, Turned(l, j);
    forall k | 0 <= k < |m| - 1 ensures (m[k], m[k + 1]) in edges {
      if k < n - j - 1 {
        assert (l[j + k], l[j + k + 1]) in edges;
      } else if k == n - j - 1 {
        assert (l[n - 1], l[n - 1 + 1]) in edges;
      } else {
        var i := k - (n - j);
        assert (l[i], l[i + 1]) in edges;
      }
    }
  }
}
