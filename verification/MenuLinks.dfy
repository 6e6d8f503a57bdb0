/**
The menu tree in memory: nodes linked by `next`, `list` and `parent`, re-linked
in place while the tree is finalized, and walked without a stack.
*/
module MenuLinks {
  import opened Options
  import opened MenuTree
  import opened MenuOrder
  import opened MenuMeaning

  type Link = Option<NodeId>

  datatype Links = Links(next: seq<Link>, list: seq<Link>, parent: seq<Link>)

  predicate Within(l: Links, i: NodeId) {
    i < |l.next| == |l.list| == |l.parent|
  }

  /** From `first` to `end`, the links spell out the forest, with parent `up`. */
  predicate Chain(l: Links, first: Link, f: seq<Tree>, up: Link, end: Link)
    decreases Size(f)
  {
    if f == [] then first == end
    else
      && first == Some(f[0].id) && Within(l, f[0].id) && l.parent[f[0].id] == up
      && Chain(l, l.list[f[0].id], f[0].children, Some(f[0].id), None)
      && Chain(l, l.next[f[0].id], f[1..], up, end)
  }

  /** The links of the given nodes are the same. */
  ghost predicate SameLinks(l: Links, m: Links, ids: seq<NodeId>) {
    && |m.next| == |l.next| && |m.list| == |l.list| && |m.parent| == |l.parent|
    && forall i: NodeId :: i in ids && Within(l, i) ==>
         m.next[i] == l.next[i] && m.list[i] == l.list[i] && m.parent[i] == l.parent[i]
  }

  /** Only the links of the given nodes may differ. */
  ghost predicate OtherLinks(l: Links, m: Links, ids: seq<NodeId>) {
    && |m.next| == |l.next| && |m.list| == |l.list| && |m.parent| == |l.parent|
    && forall i: NodeId :: i !in ids && Within(l, i) ==>
         m.next[i] == l.next[i] && m.list[i] == l.list[i] && m.parent[i] == l.parent[i]
  }

  lemma {:induction false} ChainFrame(l: Links, m: Links, first: Link, f: seq<Tree>, up: Link, end: Link)
    requires Chain(l, first, f, up, end) && SameLinks(l, m, Preorder(f))
    ensures Chain(m, first, f, up, end)
    decreases Size(f)
  {
    if f != [] {
      var i := f[0].id;
      assert i in Preorder(f);
      ChainFrame(l, m, l.list[i], f[0].children, Some(i), None);
      ChainFrame(l, m, l.next[i], f[1..], up, end);
    }
  }

  lemma {:induction false} ChainConcat(l: Links, first: Link, f: seq<Tree>, mid: Link, g: seq<Tree>, up: Link, end: Link)
    requires Chain(l, first, f, up, mid) && Chain(l, mid, g, up, end)
    ensures Chain(l, first, f + g, up, end)
    decreases |f|
  {
    if f == [] {
      assert f + g == g;
    } else {
      assert (f + g)[0] == f[0] && (f + g)[1..] == f[1..] + g;
      ChainConcat(l, l.next[f[0].id], f[1..], mid, g, up, end);
    }
  }

  lemma {:induction false} ChainSplit(l: Links, first: Link, f: seq<Tree>, g: seq<Tree>, up: Link, end: Link) returns (mid: Link)
    requires Chain(l, first, f + g, up, end)
    ensures Chain(l, first, f, up, mid) && Chain(l, mid, g, up, end)
    decreases |f|
  {
    if f == [] {
      assert f + g == g;
      mid := first;
    } else {
      assert (f + g)[0] == f[0] && (f + g)[1..] == f[1..] + g;
      mid := ChainSplit(l, l.next[f[0].id], f[1..], g, up, end);
    }
  }

  lemma {:induction false} ChainEnd(l: Links, first: Link, f: seq<Tree>, up: Link, end: Link)
    requires Chain(l, first, f, up, end) && f != []
    ensures Within(l, f[|f| - 1].id) && l.next[f[|f| - 1].id] == end && first == Some(f[0].id)
    decreases |f|
  {
    if |f| > 1 {
      ChainEnd(l, l.next[f[0].id], f[1..], up, end);
    }
  }

  /** Only the parent of a node has changed. */
  predicate Moved(l: Links, m: Links, i: NodeId) {
    Within(l, i) && Within(m, i) && m.next[i] == l.next[i] && m.list[i] == l.list[i]
  }

  /** Giving the roots a new parent. */
  lemma {:induction false} ChainReparent(l: Links, m: Links, first: Link, f: seq<Tree>, up: Link, up1: Link, end: Link)
    requires Chain(l, first, f, up, end) && SameLinks(l, m, Inner(f))
    requires forall k :: 0 <= k < |f| && Within(l, f[k].id) ==> Moved(l, m, f[k].id) && m.parent[f[k].id] == up1
    ensures Chain(m, first, f, up1, end)
    decreases |f|
  {
    if f != [] {
      var i := f[0].id;
      ChainFrame(l, m, l.list[i], f[0].children, Some(i), None);
      assert forall k :: 0 <= k < |f[1..]| ==> f[1..][k] == f[k + 1];
      assert Within(l, f[0].id);
      ChainReparent(l, m, l.next[i], f[1..], up, up1, end);
    }
  }

  /** Leading the last root elsewhere. */
  lemma {:induction false} ChainRedirect(l: Links, m: Links, first: Link, f: seq<Tree>, up: Link, end: Link, end1: Link)
    requires f != [] && Distinct(f) && Chain(l, first, f, up, end) && Within(l, f[|f| - 1].id)
    requires m == l.(next := l.next[f[|f| - 1].id := end1])
    ensures Chain(m, first, f, up, end1)
    decreases |f|
  {
    var i := f[0].id;
    LastApart(f);
    hide Preorder, Distinct;
    ChainFrame(l, m, l.list[i], f[0].children, Some(i), None);
    if |f| > 1 {
      ChainRedirect(l, m, l.next[i], f[1..], up, end, end1);
    }
  }

  /** The last root is neither below the first nor the first of several. */
  lemma LastApart(f: seq<Tree>)
    requires f != [] && Distinct(f)
    ensures f[|f| - 1].id !in Preorder(f[0].children) && Distinct(f[0].children)
    ensures |f| > 1 ==> Distinct(f[1..]) && f[|f| - 1] == f[1..][|f[1..]| - 1] && f[|f| - 1].id != f[0].id
  {
    var t := f[0];
    assert f == [t] + f[1..];
    DistinctParts([t], f[1..]);
    DistinctTree(t);
    PreorderOne(t);
    RootNotInner(f, |f| - 1);
    if |f| > 1 {
      RootNotInner(f[1..], |f| - 2);
      assert f[|f| - 1].id in Preorder(f[1..]) && t.id in Preorder([t]);
    }
  }

  /** What the inner loop of _flatten() has done to the first k children. */
  ghost predicate Reparented(l: Links, m: Links, f: seq<Tree>, k: nat, up: Link) {
    && k <= |f| && m.next == l.next && m.list == l.list && |m.parent| == |l.parent|
    && (forall j :: 0 <= j < k ==> Within(l, f[j].id) && m.parent[f[j].id] == up)
    && (forall i: NodeId :: i < |l.parent| && (forall j :: 0 <= j < k ==> f[j].id != i) ==> m.parent[i] == l.parent[i])
  }

  lemma ReparentedChain(l: Links, m: Links, first: Link, f: seq<Tree>, up: Link, up1: Link)
    requires Distinct(f) && Chain(l, first, f, up, None) && Reparented(l, m, f, |f|, up1)
    ensures Chain(m, first, f, up1, None)
    ensures OtherLinks(l, m, Preorder(f))
  {
    forall k | 0 <= k < |f| ensures f[k].id !in Inner(f) && f[k].id in Preorder(f) {
      RootNotInner(f, k);
    }
    ChainReparent(l, m, first, f, up, up1, None);
  }

  /** The assignments of _flatten() after that loop. */
  predicate Spliced(m: Links, r: Links, i: NodeId, last: NodeId) {
    && Within(m, i) && Within(m, last)
    && r == Links(m.next[last := m.next[i]][i := m.list[i]], m.list[i := None], m.parent)
  }

  lemma SplicedSame(l: Links, m: Links, r: Links, f: seq<Tree>, up: Link, i: NodeId, last: NodeId, others: seq<NodeId>)
    requires Reparented(l, m, f, |f|, up) && Spliced(m, r, i, last)
    requires i !in others && last !in others && forall j :: 0 <= j < |f| ==> f[j].id !in others
    ensures SameLinks(l, r, others)
  {}

  lemma SplicedOther(l: Links, m: Links, r: Links, f: seq<Tree>, up: Link, i: NodeId, last: NodeId, ids: seq<NodeId>)
    requires Reparented(l, m, f, |f|, up) && Spliced(m, r, i, last)
    requires i in ids && last in ids && forall j :: 0 <= j < |f| ==> f[j].id in ids
    ensures OtherLinks(l, r, ids)
  {}

  lemma SplicedChildren(m: Links, r: Links, first: Link, f: seq<Tree>, up: Link, i: NodeId)
    requires f != [] && Distinct(f) && Chain(m, first, f, up, None) && i !in Preorder(f)
    requires Spliced(m, r, i, f[|f| - 1].id) && f[|f| - 1].id in Preorder(f)
    ensures Chain(r, first, f, up, m.next[i])
  {
    var last := f[|f| - 1].id;
    var q := m.(next := m.next[last := m.next[i]]);
    ChainRedirect(m, q, first, f, up, None, m.next[i]);
    hide Chain;
    ChainFrame(q, r, first, f, up, m.next[i]);
  }

  /** Dissolving a node: its children follow it on its level. */
  lemma Dissolved(l: Links, m: Links, r: Links, t: Tree, rest: seq<Tree>, up: Link)
    requires t.children != [] && Distinct([t] + rest) && Chain(l, Some(t.id), [t] + rest, up, None)
    requires Reparented(l, m, t.children, |t.children|, up) && Spliced(m, r, t.id, t.children[|t.children| - 1].id)
    ensures Within(r, t.id) && r.list[t.id] == None && r.parent[t.id] == up
    ensures Chain(r, r.next[t.id], t.children + rest, up, None)
    ensures OtherLinks(l, r, [t.id] + Preorder(t.children))
  {
    var f, i := t.children, t.id;
    var last := f[|f| - 1].id;
    assert ([t] + rest)[1..] == rest;
    DissolvedIds(t, rest);
    assert Chain(l, l.list[i], f, Some(i), None) && Chain(l, l.next[i], rest, up, None);
    hide Preorder, Inner, Distinct, Chain;
    ReparentedChain(l, m, l.list[i], f, Some(i), up);
    SplicedChildren(m, r, l.list[i], f, up, i);
    SplicedSame(l, m, r, f, up, i, last, Preorder(rest));
    SplicedOther(l, m, r, f, up, i, last, [i] + Preorder(f));
    assert m.parent[i] == l.parent[i] && m.next[i] == l.next[i] && m.list[i] == l.list[i];
    ChainFrame(l, r, l.next[i], rest, up, None);
    ChainConcat(r, l.list[i], f, m.next[i], rest, up, None);
  }

  lemma DissolvedIds(t: Tree, rest: seq<Tree>)
    requires t.children != [] && Distinct([t] + rest)
    ensures Distinct(t.children) && t.id !in Preorder(t.children) && t.id !in Preorder(rest)
    ensures t.children[|t.children| - 1].id in Preorder(t.children)
    ensures forall x :: x in Preorder(t.children) ==> x !in Preorder(rest)
    ensures forall j :: 0 <= j < |t.children| ==> t.children[j].id in Preorder(t.children)
  {
    var f := t.children;
    DistinctParts([t], rest);
    DistinctTree(t);
    PreorderOne(t);
    hide Preorder, Inner, Distinct;
    assert t.id in Preorder([t]);
    assert forall x :: x in Preorder(f) ==> x in Preorder([t]);
    forall j | 0 <= j < |f| ensures f[j].id in Preorder(f) {
      RootNotInner(f, j);
    }
  }

  /** A level that begins with a node finished in itself. */
  lemma ChainSnoc(l: Links, first: Link, done: seq<Tree>, t: Tree, rest: seq<Tree>, up: Link, end: Link)
    requires Chain(l, first, done, up, Some(t.id)) && Chain(l, Some(t.id), [t] + rest, up, end)
    ensures Within(l, t.id) && Chain(l, first, done + [t], up, l.next[t.id]) && Chain(l, l.next[t.id], rest, up, end)
  {
    assert ([t] + rest)[1..] == rest;
    assert [t][1..] == [];
    assert Chain(l, l.next[t.id], [], up, l.next[t.id]);
    assert Chain(l, Some(t.id), [t], up, l.next[t.id]);
    ChainConcat(l, first, done, Some(t.id), [t], up, l.next[t.id]);
  }

  lemma ChildChain(l: Links, t: Tree, rest: seq<Tree>, up: Link)
    requires Distinct([t] + rest) && Chain(l, Some(t.id), [t] + rest, up, None)
    ensures Within(l, t.id) && l.parent[t.id] == up && Chain(l, l.list[t.id], t.children, Some(t.id), None) && Distinct(t.children)
    ensures l.list[t.id].Some? <==> t.children != []
  {
    assert ([t] + rest)[0] == t;
    DistinctParts([t], rest);
    DistinctTree(t);
  }

  /** The loop of _flatten(): `done` is behind it, `todo` begins at the current node. */
  ghost predicate Flattening(l: Links, m: Links, s: State, start: Link, f: seq<Tree>,
                             done: seq<Tree>, node: Link, todo: seq<Tree>, up: Link) {
    && Distinct(f) && Chain(m, start, done, up, node) && Chain(m, node, todo, up, None)
    && done + MenuTree.Flatten(s, todo) == MenuTree.Flatten(s, f)
    && Preorder(done + todo) == Preorder(f) && OtherLinks(l, m, Preorder(f))
  }

  lemma FlattenBegins(l: Links, s: State, start: Link, f: seq<Tree>, up: Link)
    requires Distinct(f) && Chain(l, start, f, up, None)
    ensures Flattening(l, l, s, start, f, [], start, f, up)
  {
    assert [] + f == f;
  }

  lemma FlattenNext(l: Links, m: Links, s: State, start: Link, f: seq<Tree>, done: seq<Tree>, node: Link, todo: seq<Tree>, up: Link)
    returns (t: Tree, rest: seq<Tree>)
    requires Flattening(l, m, s, start, f, done, node, todo, up) && node.Some?
    ensures todo == [t] + rest && t.id == node.value && Within(m, t.id)
    ensures Distinct(done + todo) && Distinct(todo)
    ensures m.list[t.id].Some? <==> t.children != []
  {
    t, rest := todo[0], todo[1..];
    assert todo == [t] + rest;
    SameDistinct(f, done + todo);
    DistinctParts(done, todo);
    ChildChain(m, t, rest, up);
  }

  lemma FlattenEnds(l: Links, m: Links, s: State, start: Link, f: seq<Tree>, done: seq<Tree>, todo: seq<Tree>, up: Link)
    requires Flattening(l, m, s, start, f, done, None, todo, up)
    ensures Chain(m, start, MenuTree.Flatten(s, f), up, None) && OtherLinks(l, m, Preorder(f))
  {
    assert todo == [];
    assert done + [] == done;
  }

  lemma ReparentedShape(l: Links, m: Links, f: seq<Tree>, up: Link)
    requires Reparented(l, m, f, |f|, up)
    ensures m.next == l.next && m.list == l.list && |m.parent| == |l.parent|
  {}

  lemma SameDistinct(f: seq<Tree>, g: seq<Tree>)
    requires Distinct(f) && Preorder(f) == Preorder(g)
    ensures Distinct(g)
  {}

  /** One round of _flatten() that leaves the node as it is. */
  lemma KeepOne(l: Links, m: Links, s: State, start: Link, f: seq<Tree>, done: seq<Tree>, t: Tree, rest: seq<Tree>, up: Link)
    requires Flattening(l, m, s, start, f, done, Some(t.id), [t] + rest, up) && !Dissolves(s, t)
    ensures Within(m, t.id) && Flattening(l, m, s, start, f, done + [t], m.next[t.id], rest, up)
    ensures Size(rest) < Size([t] + rest)
  {
    hide Preorder, Distinct, MenuTree.Flatten, OtherLinks, Chain, Dissolves, Size;
    KeptLevel(s, done, t, rest);
    ChainSnoc(m, start, done, t, rest, up, None);
  }

  lemma KeptLevel(s: State, done: seq<Tree>, t: Tree, rest: seq<Tree>)
    requires !Dissolves(s, t)
    ensures done + [t] + MenuTree.Flatten(s, rest) == done + MenuTree.Flatten(s, [t] + rest)
    ensures done + ([t] + rest) == done + [t] + rest && Size(rest) < Size([t] + rest)
  {
    assert ([t] + rest)[1..] == rest;
    assert MenuTree.Flatten(s, [t] + rest) == [t] + MenuTree.Flatten(s, rest);
    hide MenuTree.Flatten;
  }

  /** One round that dissolves it. */
  lemma FlattenOne(l: Links, m: Links, r: Links, s: State, start: Link, f: seq<Tree>, done: seq<Tree>, t: Tree, rest: seq<Tree>, up: Link)
    requires Flattening(l, m, s, start, f, done, Some(t.id), [t] + rest, up) && Dissolves(s, t)
    requires Distinct(done + ([t] + rest))
    requires Within(r, t.id) && r.list[t.id] == None && r.parent[t.id] == up
    requires Chain(r, r.next[t.id], t.children + rest, up, None) && OtherLinks(m, r, [t.id] + Preorder(t.children))
    ensures Flattening(l, r, s, start, f, done + [Tree(t.id, [])], r.next[t.id], t.children + rest, up)
    ensures Size(t.children + rest) < Size([t] + rest)
  {
    hide MenuTree.Flatten, OtherLinks, SameLinks, Chain, Preorder, Distinct, Dissolves, Size;
    DissolvedOrder(done, t, rest);
    DissolvedFrame(l, m, r, f, done, t, rest);
    LeafChain(m, r, start, done, Tree(t.id, []), up);
    DissolvedLevel(s, done, t, rest);
  }

  lemma DissolvedLevel(s: State, done: seq<Tree>, t: Tree, rest: seq<Tree>)
    requires Dissolves(s, t)
    ensures done + [Tree(t.id, [])] + MenuTree.Flatten(s, t.children + rest) == done + MenuTree.Flatten(s, [t] + rest)
    ensures Size(t.children + rest) < Size([t] + rest)
  {
    assert ([t] + rest)[1..] == rest;
    SizeConcat(t.children, rest);
    var g := MenuTree.Flatten(s, t.children + rest);
    assert MenuTree.Flatten(s, [t] + rest) == [Tree(t.id, [])] + g;
    hide MenuTree.Flatten;
    assert done + [Tree(t.id, [])] + g == done + ([Tree(t.id, [])] + g);
  }

  lemma DissolvedFrame(l: Links, m: Links, r: Links, f: seq<Tree>, done: seq<Tree>, t: Tree, rest: seq<Tree>)
    requires Distinct(done + ([t] + rest)) && Preorder(done + ([t] + rest)) == Preorder(f)
    requires OtherLinks(l, m, Preorder(f)) && OtherLinks(m, r, [t.id] + Preorder(t.children))
    ensures SameLinks(m, r, Preorder(done)) && OtherLinks(l, r, Preorder(f))
  {
    var ids := [t.id] + Preorder(t.children);
    DistinctParts(done, [t] + rest);
    PreorderConcat(done, [t] + rest);
    PreorderCons(t, rest);
    hide Preorder, Distinct;
    assert forall x :: x in ids ==> x in Preorder([t] + rest);
    OtherIsSame(m, r, ids, Preorder(done));
    OtherTrans(l, m, r, ids, Preorder(f));
  }

  lemma DissolvedOrder(done: seq<Tree>, t: Tree, rest: seq<Tree>)
    ensures Preorder(done + [Tree(t.id, [])] + (t.children + rest)) == Preorder(done + ([t] + rest))
  {
    var leaf := Tree(t.id, []);
    PreorderConcat(done, [t] + rest);
    PreorderCons(t, rest);
    PreorderConcat(done + [leaf], t.children + rest);
    PreorderConcat(done, [leaf]);
    PreorderConcat(t.children, rest);
    PreorderOne(leaf);
    hide Preorder;
    assert Preorder(leaf.children) == [];
  }

  lemma OtherIsSame(l: Links, r: Links, ids: seq<NodeId>, others: seq<NodeId>)
    requires OtherLinks(l, r, ids) && forall x :: x in others ==> x !in ids
    ensures SameLinks(l, r, others)
  {}

  lemma OtherTrans(l: Links, m: Links, r: Links, ids: seq<NodeId>, all: seq<NodeId>)
    requires OtherLinks(l, m, all) && OtherLinks(m, r, ids) && forall x :: x in ids ==> x in all
    ensures OtherLinks(l, r, all)
  {}

  lemma LeafChain(l: Links, r: Links, first: Link, done: seq<Tree>, leaf: Tree, up: Link)
    requires Chain(l, first, done, up, Some(leaf.id)) && SameLinks(l, r, Preorder(done))
    requires leaf.children == [] && Within(r, leaf.id) && r.list[leaf.id] == None && r.parent[leaf.id] == up
    ensures Chain(r, first, done + [leaf], up, r.next[leaf.id])
  {
    ChainFrame(l, r, first, done, up, Some(leaf.id));
    assert [leaf][1..] == [];
    assert Chain(r, r.next[leaf.id], [], up, r.next[leaf.id]);
    assert Chain(r, None, [], Some(leaf.id), None);
    assert Chain(r, Some(leaf.id), [leaf], up, r.next[leaf.id]);
    ChainConcat(r, first, done, Some(leaf.id), [leaf], up, r.next[leaf.id]);
  }
}
