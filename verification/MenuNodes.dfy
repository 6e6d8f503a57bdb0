/**
The nodes of the menu tree as the program holds them, finalized by re-linking
them in place, and the walk over the finished tree that needs no stack.
*/
module MenuNodes {
  import opened Options
  import opened KconfigModel
  import opened MenuTree
  import opened MenuOrder
  import opened MenuMeaning
  import opened MenuIds
  import opened MenuLinks

  class MenuNodes {
    const kind: seq<NodeItem>
    var props: seq<Props>
    var items: seq<ItemProps>
    var next: seq<Link>
    var list: seq<Link>
    var parent: seq<Link>
    ghost var log: seq<NodeId>

    function L(): Links
      reads this`next, this`list, this`parent
    {
      Links(next, list, parent)
    }

    ghost function Value(): State
      reads this`props, this`items, this`log
    {
      State(kind, props, items, log)
    }

    ghost predicate Sized()
      reads this`props, this`next, this`list, this`parent
    {
      |kind| == |props| == |next| == |list| == |parent|
    }

    /** The inner loop of _flatten(): moves the children up and returns the last one. */
    method Reparent(first: Link, ghost f: seq<Tree>, ghost old_: Link, up: Link) returns (last: NodeId)
      requires f != [] && Distinct(f) && Chain(L(), first, f, old_, None)
      modifies this`parent
      ensures last == f[|f| - 1].id && Within(old(L()), last)
      ensures Reparented(old(L()), L(), f, |f|, up)
    {
      ghost var l := L();
      last := first.value;
      ghost var k := 0;
      ghost var todo := f;
      while true
        invariant k < |f| && last == f[k].id && todo == f[k..]
        invariant Chain(l, Some(last), todo, old_, None)
        invariant Reparented(l, L(), f, k, up)
        decreases |f| - k
      {
        parent := parent[last := up];
        assert forall i: NodeId :: i != last && i < |parent| && (forall j :: 0 <= j < k ==> f[j].id != i) ==> parent[i] == l.parent[i];
        assert Reparented(l, L(), f, k + 1, up);
        if next[last].None? {
          assert Chain(l, None, todo[1..], old_, None);
          break;
        }
        last := next[last].value;
        k := k + 1;
        todo := todo[1..];
      }
    }

    /** The body of _flatten() for a node that is dissolved. */
    method Dissolve(n: NodeId, ghost t: Tree, ghost rest: seq<Tree>, ghost up: Link)
      requires Sized() && t.id == n && t.children != [] && Distinct([t] + rest)
      requires Chain(L(), Some(n), [t] + rest, up, None)
      modifies this`next, this`list, this`parent
      ensures Sized() && list[n] == None && parent[n] == up
      ensures Chain(L(), next[n], t.children + rest, up, None)
      ensures OtherLinks(old(L()), L(), [n] + Preorder(t.children))
    {
      ghost var l := L();
      ChildChain(l, t, rest, up);
      hide Chain, Distinct, Preorder, OtherLinks;
      var last := Reparent(list[n], t.children, Some(n), parent[n]);
      ghost var m := L();
      ReparentedShape(l, m, t.children, up);
      next := next[last := next[n]];
      next := next[n := list[n]];
      list := list[n := None];
      Dissolved(l, m, L(), t, rest, up);
    }

    /** _flatten() */
    method Flatten(start: Link, ghost f: seq<Tree>, ghost up: Link)
      requires Sized() && Distinct(f) && Chain(L(), start, f, up, None)
      modifies this`next, this`list, this`parent
      ensures Sized() && Chain(L(), start, MenuTree.Flatten(Value(), f), up, None)
      ensures OtherLinks(old(L()), L(), Preorder(f))
    {
      hide Preorder, Distinct, MenuTree.Flatten, OtherLinks, Chain;
      ghost var l, s := L(), Value();
      var node := start;
      ghost var done, todo: seq<Tree> := [], f;
      FlattenBegins(l, s, start, f, up);
      while node.Some?
        invariant Sized() && Value() == s
        invariant Flattening(l, L(), s, start, f, done, node, todo, up)
        decreases Size(todo)
      {
        var n := node.value;
        ghost var l0 := L();
        ghost var t, rest := FlattenNext(l, l0, s, start, f, done, node, todo, up);
        if list[n].Some? && props[n].prompt.None? && !kind[n].ChoiceNode? {
          Dissolve(n, t, rest, up);
          FlattenOne(l, l0, L(), s, start, f, done, t, rest, up);
          done, todo := done + [Tree(n, [])], t.children + rest;
        } else {
          KeepOne(l, l0, s, start, f, done, t, rest, up);
          done, todo := done + [t], rest;
        }
        node := next[node.value];
      }
      FlattenEnds(l, L(), s, start, f, done, todo, up);
    }

    /** The search for the next node that is no `if`. */
    method SkipIfs(from: Link, ghost f: seq<Tree>, ghost up: Link) returns (to: Link, ghost g: seq<Tree>)
      requires Sized() && Chain(L(), from, f, up, None)
      ensures Chain(L(), to, g, up, None)
      ensures RemoveIfs(Value(), g) == RemoveIfs(Value(), f) && (g == [] || !IsIf(Value(), g[0].id))
      ensures |g| <= |f| && g == f[|f| - |g|..]
    {
      to, g := from, f;
      while to.Some? && kind[to.value].IF?
        invariant Chain(L(), to, g, up, None) && RemoveIfs(Value(), g) == RemoveIfs(Value(), f)
        invariant |g| <= |f| && g == f[|f| - |g|..]
        decreases |g|
      {
        to, g := next[to.value], g[1..];
      }
    }

    /** _remove_ifs() */
    method RemoveIfNodes(node: NodeId, ghost f: seq<Tree>)
      requires Sized() && Within(L(), node) && Chain(L(), list[node], f, Some(node), None)
      requires Distinct(f) && node !in Preorder(f)
      modifies this`next, this`list
      ensures Sized() && Chain(L(), list[node], RemoveIfs(Value(), f), Some(node), None)
      ensures OtherLinks(old(L()), L(), [node] + Preorder(f)) && next[node] == old(next[node])
    {
      hide Preorder, Distinct, RemoveIfs, OtherLinks;
      ghost var l, s := L(), Value();
      ghost var done, todo: seq<Tree>, skipped: seq<Tree>;
      var cur;
      cur, todo := SkipIfs(list[node], f, Some(node));
      list := list[node := cur];
      done := [];
      RemovingBegins(l, L(), s, node, f, cur, todo);
      while cur.Some?
        invariant Sized() && Value() == s && Within(L(), node)
        invariant Removing(l, L(), s, node, f, done, cur, todo)
        decreases |todo|
      {
        var c := cur.value;
        ghost var t, rest, m := todo[0], todo[1..], L();
        assert todo == [t] + rest;
        var after;
        after, skipped := SkipIfs(next[c], rest, Some(node));
        next := next[c := after];
        RemovingNext(l, m, L(), s, node, f, done, t, rest, after, skipped);
        done, todo, cur := done + [t], skipped, after;
      }
      assert todo == [] && done + [] == done;
      RemoveNothing(s);
      RemovingEnds(l, L(), s, node, f, done, todo);
    }

    /** _propagate_deps(); the children are those of t. */
    method PropagateDeps(node: NodeId, vis: Expr, ghost t: Tree)
      requires Sized() && Within(L(), node) && t.id == node && Chain(L(), list[node], t.children, Some(node), None)
      modifies this`props
      ensures Sized()
      ensures Value() == Propagate(old(Value()), t.children, BaseDep(kind[node], old(props)[node]), vis)
    {
      hide Pushed;
      var base := if kind[node].ChoiceNode? then Val(Operand.Item(kind[node].choice)) else props[node].dep;
      var cur: Link := list[node];
      ghost var todo := t.children;
      while cur.Some?
        invariant Sized() && Chain(L(), cur, todo, Some(node), None)
        invariant Propagate(Value(), todo, base, vis) == Propagate(old(Value()), t.children, base, vis)
        decreases |todo|
      {
        PushInto(cur.value, base, vis);
        cur, todo := next[cur.value], todo[1..];
      }
    }

    /** The body of its loop. */
    method PushInto(cur: NodeId, base: Expr, vis: Expr)
      requires Sized() && cur < |props|
      modifies this`props
      ensures props == old(props)[cur := Pushed(kind[cur], old(props)[cur], base, vis)]
    {
      hide MakeAnd, WithConds, WithRangeConds, WithSelectConds;
      var p := props[cur];
      var dep := MakeAnd(p.dep, base);
      p := p.(dep := dep);
      if HasItem(kind[cur]) {
        if p.prompt.Some? {
          p := p.(prompt := Some(MakeAnd(p.prompt.value, MakeAnd(vis, dep))));
        }
        p := p.(defaults := WithConds(p.defaults, dep), ranges := WithRangeConds(p.ranges, dep));
        p := p.(selects := WithSelectConds(p.selects, dep), implies := WithSelectConds(p.implies, dep));
      } else if p.prompt.Some? {
        p := p.(prompt := Some(MakeAnd(p.prompt.value, dep)));
      }
      props := props[cur := p];
    }

    /** _add_props_to_sym() */
    method AddPropsToSym(node: NodeId, sym: Id)
      requires node < |props|
      modifies this`items
      ensures items == AddProps(old(items), sym, props[node])
    {
      var p := props[node];
      if sym < |items| {
        items := items[sym := AddOwn(items[sym], p)];
      }
      AddReverse(sym, p.selects, false);
      AddReverse(sym, p.implies, true);
    }

    /** The loop over selects or implies. */
    method AddReverse(sym: Id, ss: seq<Select>, weak: bool)
      modifies this`items
      ensures items == AddRevDeps(old(items), sym, ss, weak)
    {
      var k := 0;
      while k < |ss|
        invariant 0 <= k <= |ss| && items == AddRevDeps(old(items), sym, ss[..k], weak)
      {
        assert ss[..k + 1][..k] == ss[..k];
        items := AddRevDep(items, sym, ss[k], weak);
        k := k + 1;
      }
      assert ss[..k] == ss;
    }

    /** _finalize_choice(), after adding the node's own properties; the children are those of t. */
    method FinalizeChoiceNode(node: NodeId, ghost t: Tree)
      requires Sized() && Within(L(), node) && t.id == node && Chain(L(), list[node], t.children, Some(node), None)
      modifies this`items
      ensures Value() == FinalizeChoice(old(Value()), t)
    {
      if !kind[node].ChoiceNode? || kind[node].choice >= |items| {
        return;
      }
      var choice := kind[node].choice;
      var p := props[node];
      items := items[choice := items[choice].(directDep := MakeOr(items[choice].directDep, p.dep),
                                              defaults := items[choice].defaults + p.defaults)];
      ghost var s := Value();
      var cur: Link := list[node];
      ghost var todo := t.children;
      while cur.Some?
        invariant Chain(L(), cur, todo, Some(node), None) && |items| == |s.items|
        invariant AddMembers(Value(), choice, todo) == AddMembers(s, choice, t.children)
        decreases |todo|
      {
        if kind[cur.value].SymbolNode? && kind[cur.value].sym < |items| {
          var sym := kind[cur.value].sym;
          items := items[sym := items[sym].(choice := Some(choice))];
          items := items[choice := items[choice].(syms := items[choice].syms + [sym])];
        }
        cur, todo := next[cur.value], todo[1..];
      }
      SetTypes(choice);
    }

    /** The second half of _finalize_choice(). */
    method SetTypes(choice: Id)
      requires choice < |items|
      modifies this`items
      ensures items == InferTypes(old(items), choice)
    {
      ghost var was := items;
      var syms := items[choice].syms;
      var k := 0;
      if items[choice].typ.Unknown? {
        while k < |syms| && (syms[k] >= |items| || items[syms[k]].typ.Unknown?)
          invariant k <= |syms| && FirstType(items, syms[k..]) == FirstType(items, syms)
        {
          assert syms[k..][1..] == syms[k + 1..];
          k := k + 1;
        }
        if k < |syms| {
          items := items[choice := items[choice].(typ := items[syms[k]].typ)];
        }
      }
      ghost var typed := items;
      k := 0;
      TypedNone(typed, typed[choice].typ);
      while k < |syms|
        invariant k <= |syms| && items == Typed(typed, syms[..k], typed[choice].typ)
      {
        TypedMore(typed, syms, k, choice);
        if syms[k] < |items| && items[syms[k]].typ.Unknown? {
          items := items[syms[k] := items[syms[k]].(typ := items[choice].typ)];
        }
        k := k + 1;
      }
      assert syms[..k] == syms;
    }

    /** The end of the loop of node_iter(): a node of a symbol visited before is skipped. */
    method Yield(node: NodeId, unique: bool, order: seq<NodeId>, visited: set<Id>, ghost walked: seq<NodeId>)
      returns (order1: seq<NodeId>, visited1: set<Id>)
      requires node < |kind| && order == (if unique then FirstNodes(kind, walked) else walked)
      requires unique ==> visited == SymbolsOf(kind, walked)
      ensures order1 == if unique then FirstNodes(kind, walked + [node]) else walked + [node]
      ensures unique ==> visited1 == SymbolsOf(kind, walked + [node])
    {
      hide FirstNodes;
      OneMoreNode(kind, walked, node);
      order1, visited1 := order, visited;
      if unique && kind[node].SymbolNode? {
        if kind[node].sym in visited {
          return;
        }
        visited1 := visited + {kind[node].sym};
      }
      order1 := order + [node];
    }

    /** The jump to the next node, at the start of the loop of node_iter(). */
    method Successor(start: NodeId, ghost kids: seq<Tree>, ghost path: seq<Step>)
      returns (succ: Link, ghost kids1: seq<Tree>, ghost path1: seq<Step>)
      requires Sized() && OnPath(L(), start, kids, path) && Within(L(), start)
      ensures succ.None? ==> Left(kids, path) == []
      ensures succ.Some? ==>
        && OnPath(L(), succ.value, kids1, path1) && Within(L(), succ.value)
        && Left(kids, path) == [succ.value] + Left(kids1, path1)
        && Size(kids1) + PendingSize(path1) < Size(kids) + PendingSize(path)
    {
      hide Preorder, Chain, OnPath;
      ghost var l := L();
      var node := start;
      path1, kids1 := path, kids;
      if list[node].Some? {
        path1, kids1 := StepDown(l, node, kids, path);
        succ := list[node];
        return;
      }
      NoChildren(l, node, kids, path);
      while next[node].None? && parent[node].Some?
        invariant OnWay(l, node, path1) && Within(l, node)
        invariant Pending(path1) == Pending(path) && PendingSize(path1) == PendingSize(path)
        decreases |path1|
      {
        path1 := StepUp(l, node, path1);
        node := parent[node].value;
      }
      succ := next[node];
      if succ.None? {
        PathEnds(l, node, path1);
      } else {
        path1, kids1 := StepOn(l, node, path1);
      }
    }

    /** node_iter(): the nodes below the top node t, in the order they are yielded. */
    method NodeIter(top: NodeId, unique: bool, ghost t: Tree) returns (order: seq<NodeId>)
      requires Sized() && t.id == top && Chain(L(), Some(top), [t], None, None)
      ensures order == if unique then FirstNodes(kind, Preorder(t.children)) else Preorder(t.children)
    {
      hide Preorder, Chain, OnPath, FirstNodes, SymbolsOf, Left;
      var node := top;
      ghost var path, kids := [Step(top, [])], t.children;
      order := [];
      var visited: set<Id> := {};
      ghost var walked: seq<NodeId> := [];
      PathBegins(L(), t);
      NoFirstNodes(kind);
      while true
        invariant OnPath(L(), node, kids, path) && Within(L(), node)
        invariant walked + Left(kids, path) == Preorder(t.children)
        invariant order == if unique then FirstNodes(kind, walked) else walked
        invariant unique ==> visited == SymbolsOf(kind, walked)
        decreases Size(kids) + PendingSize(path)
      {
        var succ;
        succ, kids, path := Successor(node, kids, path);
        if succ.None? {
          assert walked + [] == walked;
          return;
        }
        node := succ.value;
        order, visited := Yield(node, unique, order, visited, walked);
        OneFurther(walked, node, Left(kids, path));
        walked := walked + [node];
      }
    }

    /** The final steps for a level: flattening, then removing `if` nodes. */
    method FinishLevel(node: NodeId, ghost t: Tree, ghost rest: seq<Tree>, ghost up: Link)
      requires Sized() && t.id == node && Distinct([t] + rest) && Chain(L(), Some(node), [t] + rest, up, None)
      modifies this`next, this`list, this`parent
      ensures Sized() && Chain(L(), Some(node), [Level(Value(), t)] + rest, up, None)
      ensures OtherLinks(old(L()), L(), Preorder([t]))
    {
      hide Preorder, Distinct, Chain, Level, OtherLinks, MenuTree.Flatten, RemoveIfs;
      ghost var l, s, kids := L(), Value(), t.children;
      LevelBegins(l, t, rest, up);
      if list[node].Some? {
        Flatten(list[node], kids, Some(node));
        ghost var m := L();
        LevelFlattened(l, m, s, t, rest, up);
        RemoveIfNodes(node, MenuTree.Flatten(s, kids));
        LevelEnds(l, m, L(), s, t, rest, up);
      } else {
        LevelSame(l, s, t);
      }
    }

    /** The loop of _finalize_node() that finds the siblings for an implicit menu. */
    method AbsorbSiblings(node: NodeId, vis: Expr, ghost t: Tree, ghost rest: seq<Tree>, ghost up: Link)
      returns (cur: NodeId, ghost kids: seq<Tree>, ghost todo: seq<Tree>)
      requires Sized() && t.id == node && Within(L(), node) && kind[node].SymbolNode?
      requires Parsed(Value(), rest) && Distinct([t] + rest) && Chain(L(), Some(node), [t] + rest, up, None)
      modifies this
      ensures Sized() && (kids, todo, Value()) == Absorb(node, rest, old(Value()), vis)
      ensures Absorbing(old(L()), L(), old(Value()), Value(), t, rest, vis, up, kids, cur, todo)
      decreases 1 + Size(t.children) + Size(rest), 0
    {
      hide Preorder, Distinct, Chain, OtherLinks, Parsed, Absorb, Absorbing, MenuTree.FinalizeNode, DependsOn;
      ghost var l, s := L(), Value();
      cur, kids, todo := node, [], rest;
      AbsorbingBegins(l, s, t, rest, vis, up);
      while true
        invariant Sized() && Within(L(), cur)
        invariant Absorbing(l, L(), s, Value(), t, rest, vis, up, kids, cur, todo)
        decreases Size(todo)
      {
        ghost var m, q := L(), Value();
        AbsorbingHere(l, m, s, q, t, rest, vis, up, kids, cur, todo);
        if next[cur].None? || !DependsOn(ConditionOf(next[cur].value), kind[node].sym) {
          AbsorbingEnds(l, m, s, q, t, rest, vis, up, kids, cur, todo);
          break;
        }
        var c := next[cur].value;
        ghost var d := FinalizeNode(c, vis, todo[0], todo[1..], up);
        AbsorbedOne(l, m, L(), s, q, t, rest, vis, up, kids, cur, todo, d);
        cur := c;
        parent := parent[cur := Some(node)];
        kids, todo := kids + [d.node], d.rest;
      }
    }

    /** A symbol's node. */
    method FinalizeSymbol(node: NodeId, vis: Expr, ghost t: Tree, ghost rest: seq<Tree>, ghost up: Link) returns (ghost d: Done)
      requires Sized() && t.id == node && Within(L(), node) && kind[node].SymbolNode? && t.children == []
      requires Parsed(Value(), rest) && Distinct([t] + rest) && Chain(L(), Some(node), [t] + rest, up, None)
      modifies this
      ensures Sized() && d == MenuTree.FinalizeNode(t, rest, old(Value()), vis) && Value() == d.s
      ensures Chain(L(), Some(node), [d.node] + d.rest, up, None) && OtherLinks(old(L()), L(), Preorder([t] + rest))
      decreases 1 + Size(t.children) + Size(rest), 1
    {
      hide Preorder, Distinct, Chain, OtherLinks, Parsed, Absorb, Level, AddProps, Absorbing;
      ghost var l, s := L(), Value();
      ChildChain(l, t, rest, up);
      log := log + [node];
      AddPropsToSym(node, kind[node].sym);
      ghost var s1 := Value();
      SameParsedProps(s, s1, rest);
      var cur;
      ghost var kids, rest1;
      cur, kids, rest1 := AbsorbSiblings(node, vis, t, rest, up);
      ghost var m := L();
      AbsorbedIn(l, m, s1, Value(), t, rest, vis, up, kids, cur, rest1);
      if cur != node {
        list := list[node := next[node]];
        next := next[node := next[cur]];
        next := next[cur := None];
      }
      ghost var t1 := if kids == [] then t else Tree(node, kids);
      ghost var q := L();
      Tilted(l, m, q, s1, Value(), t, rest, vis, up, kids, cur, rest1, t1);
      FinishLevel(node, t1, rest1, up);
      d := Done(Level(Value(), t1), rest1, Value());
      OtherThen(l, q, L(), Preorder([t1]), Preorder([t] + rest));
    }

    /** The loop over the children of a menu, choice or `if`. */
    method FinalizeChildren(node: NodeId, vis: Expr, ghost f: seq<Tree>) returns (ghost done: seq<Tree>)
      requires Sized() && Within(L(), node) && Parsed(Value(), f) && Distinct(f) && node !in Preorder(f)
      requires Chain(L(), list[node], f, Some(node), None)
      modifies this
      ensures Sized() && (done, Value()) == FinalizeAll(f, old(Value()), vis)
      ensures Within(L(), node) && Chain(L(), list[node], done, Some(node), None) && OtherLinks(old(L()), L(), Preorder(f))
      decreases Size(f), 3
    {
      hide Preorder, Distinct, Chain, OtherLinks, Parsed, FinalizeAll, Finalizing, MenuTree.FinalizeNode;
      ghost var l, s := L(), Value();
      var cur: Link := list[node];
      ghost var todo := f;
      done := [];
      FinalizingBegins(l, s, node, f, vis);
      while cur.Some?
        invariant Sized() && Within(L(), node)
        invariant Finalizing(l, L(), s, Value(), node, f, vis, done, cur, todo)
        decreases Size(todo)
      {
        ghost var m, q := L(), Value();
        FinalizingHere(l, m, s, q, node, f, vis, done, cur, todo);
        ghost var d := FinalizeNode(cur.value, vis, todo[0], todo[1..], Some(node));
        FinalizedOne(l, m, L(), s, q, node, f, vis, done, cur, todo, d);
        cur := next[cur.value];
        done, todo := done + [d.node], d.rest;
      }
      FinalizingEnds(l, L(), s, Value(), node, f, vis, done, todo);
    }

    /** A menu, choice or `if` with children. */
    method FinalizeMenu(node: NodeId, vis: Expr, ghost t: Tree, ghost rest: seq<Tree>, ghost up: Link) returns (ghost d: Done)
      requires Sized() && t.id == node && Within(L(), node) && !kind[node].SymbolNode? && t.children != []
      requires Parsed(Value(), t.children) && Distinct([t] + rest) && Chain(L(), Some(node), [t] + rest, up, None)
      modifies this
      ensures Sized() && d == MenuTree.FinalizeNode(t, rest, old(Value()), vis) && Value() == d.s
      ensures Chain(L(), Some(node), [d.node] + d.rest, up, None) && OtherLinks(old(L()), L(), Preorder([t] + rest))
      decreases 1 + Size(t.children) + Size(rest), 1
    {
      hide Preorder, Distinct, Chain, OtherLinks, Parsed, FinalizeAll, Level, Propagate, FinalizeChoice;
      ghost var l, s := L(), Value();
      log := log + [node];
      MenuIdsOf(l, t, rest, up);
      var inner := if kind[node].MENU? then MakeAnd(vis, props[node].visibility) else vis;
      PropagateDeps(node, inner, t);
      ghost var s1 := Value();
      SameParsedProps(s, s1, t.children);
      ghost var kids := FinalizeChildren(node, inner, t.children);
      ghost var m, s2, t1 := L(), Value(), Tree(node, kids);
      AllIds(t.children, s1, inner);
      MenuChain(l, m, t, kids, rest, up);
      FinishLevel(node, t1, rest, up);
      ghost var t2 := Level(s2, t1);
      LevelId(s2, t1);
      HeadChain(L(), t2, rest, up, None);
      MenuFrame(l, m, L(), t, t1, rest);
      FinalizeChoiceNode(node, t2);
      d := Done(t2, rest, Value());
    }

    /** _finalize_node(): the node is the first of [t] + rest on its level. */
    method FinalizeNode(node: NodeId, vis: Expr, ghost t: Tree, ghost rest: seq<Tree>, ghost up: Link) returns (ghost d: Done)
      requires Sized() && t.id == node && Parsed(Value(), [t] + rest) && Distinct([t] + rest)
      requires Chain(L(), Some(node), [t] + rest, up, None)
      modifies this
      ensures Sized() && d == MenuTree.FinalizeNode(t, rest, old(Value()), vis) && Value() == d.s
      ensures Chain(L(), Some(node), [d.node] + d.rest, up, None) && OtherLinks(old(L()), L(), Preorder([t] + rest))
      decreases 1 + Size(t.children) + Size(rest), 2
    {
      hide Preorder, Distinct, Chain, OtherLinks, Parsed, FinalizeChoice;
      ParsedParts(Value(), t, rest);
      ChildChain(L(), t, rest, up);
      if kind[node].SymbolNode? {
        d := FinalizeSymbol(node, vis, t, rest, up);
      } else if list[node].Some? {
        d := FinalizeMenu(node, vis, t, rest, up);
      } else {
        ghost var l := L();
        log := log + [node];
        FinalizeChoiceNode(node, t);
        d := Done(t, rest, Value());
        OtherNone(l, Preorder([t] + rest));
      }
    }

    /** The expression an implicit menu dependency is looked for in. */
    function ConditionOf(i: NodeId): Expr
      requires i < |props|
      reads this`props
    {
      if props[i].prompt.Some? then props[i].prompt.value else props[i].dep
    }
  }

  // -- removing `if` nodes ------------------------------------------------------------

  /** The loop of _remove_ifs(): `done` is behind it, `todo` begins at the current node. */
  ghost predicate Removing(l: Links, m: Links, s: State, node: NodeId, f: seq<Tree>, done: seq<Tree>, cur: Link, todo: seq<Tree>) {
    && Within(m, node) && m.parent == l.parent && Within(l, node) && m.next[node] == l.next[node]
    && Chain(m, m.list[node], done, Some(node), cur) && Chain(m, cur, todo, Some(node), None)
    && done + RemoveIfs(s, todo) == RemoveIfs(s, f) && (todo == [] || !IsIf(s, todo[0].id))
    && Distinct(f) && node !in Preorder(f) && Fewer(f, done + todo) && OtherLinks(l, m, [node] + Preorder(f))
  }

  lemma RemoveNothing(s: State)
    ensures RemoveIfs(s, []) == []
  {}

  lemma {:induction false} SuffixFewer(f: seq<Tree>, g: seq<Tree>)
    requires |g| <= |f| && g == f[|f| - |g|..]
    ensures Fewer(f, g)
  {
    assert f == f[..|f| - |g|] + g;
    PreorderConcat(f[..|f| - |g|], g);
  }

  lemma RemovingBegins(l: Links, m: Links, s: State, node: NodeId, f: seq<Tree>, cur: Link, todo: seq<Tree>)
    requires Within(l, node) && Chain(l, l.list[node], f, Some(node), None) && Distinct(f) && node !in Preorder(f)
    requires Chain(l, cur, todo, Some(node), None) && RemoveIfs(s, todo) == RemoveIfs(s, f)
    requires (todo == [] || !IsIf(s, todo[0].id)) && |todo| <= |f| && todo == f[|f| - |todo|..]
    requires m == l.(list := l.list[node := cur])
    ensures Removing(l, m, s, node, f, [], cur, todo)
  {
    hide Preorder, Distinct, RemoveIfs, Fewer;
    SuffixFewer(f, todo);
    FewerDistinct(f, todo);
    assert [] + todo == todo && [] + RemoveIfs(s, todo) == RemoveIfs(s, todo);
    assert Chain(m, cur, [], Some(node), cur);
    hide Chain;
    ChainFrame(l, m, cur, todo, Some(node), None);
  }

  lemma RemovingNext(l: Links, m: Links, r: Links, s: State, node: NodeId, f: seq<Tree>, done: seq<Tree>, t: Tree, rest: seq<Tree>,
                     after: Link, skipped: seq<Tree>)
    requires Removing(l, m, s, node, f, done, Some(t.id), [t] + rest) && Within(m, t.id)
    requires Chain(m, after, skipped, Some(node), None) && RemoveIfs(s, skipped) == RemoveIfs(s, rest)
    requires (skipped == [] || !IsIf(s, skipped[0].id)) && |skipped| <= |rest| && skipped == rest[|rest| - |skipped|..]
    requires r == m.(next := m.next[t.id := after])
    ensures Removing(l, r, s, node, f, done + [t], after, skipped)
  {
    hide Preorder, Distinct, RemoveIfs, Chain, Fewer, OtherLinks, SameLinks, IsIf;
    assert ([t] + rest)[0] == t;
    RemovingOrder(s, f, done, t, rest, skipped);
    RemovingIds(f, done, t, rest, skipped);
    HeadChain(m, t, rest, Some(node), None);
    assert t.id != node;
    NextFrame(l, m, r, t.id, after, [node] + Preorder(f), Preorder(done), Preorder(skipped));
    RelinkedTree(m, r, t, node, after);
    ChainFrame(m, r, m.list[node], done, Some(node), Some(t.id));
    ChainFrame(m, r, after, skipped, Some(node), None);
    ChainConcat(r, m.list[node], done, Some(t.id), [t], Some(node), after);
  }

  lemma HeadChain(m: Links, t: Tree, rest: seq<Tree>, up: Link, end: Link)
    requires Chain(m, Some(t.id), [t] + rest, up, end)
    ensures Within(m, t.id) && m.parent[t.id] == up && Chain(m, m.list[t.id], t.children, Some(t.id), None)
  {
    assert ([t] + rest)[0] == t;
  }

  /** One `next` link has changed. */
  lemma NextFrame(l: Links, m: Links, r: Links, c: NodeId, after: Link, ids: seq<NodeId>, a: seq<NodeId>, b: seq<NodeId>)
    requires Within(m, c) && r == m.(next := m.next[c := after]) && OtherLinks(l, m, ids)
    requires c in ids && c !in a && c !in b
    ensures OtherLinks(l, r, ids) && SameLinks(m, r, a) && SameLinks(m, r, b)
    ensures forall i: NodeId :: Within(m, i) && i != c ==> r.next[i] == m.next[i]
  {}

  lemma RelinkedTree(m: Links, r: Links, t: Tree, node: NodeId, after: Link)
    requires Within(m, t.id) && r == m.(next := m.next[t.id := after]) && m.parent[t.id] == Some(node)
    requires Chain(m, m.list[t.id], t.children, Some(t.id), None) && t.id !in Preorder(t.children)
    ensures Chain(r, Some(t.id), [t], Some(node), after)
  {
    ChainFrame(m, r, m.list[t.id], t.children, Some(t.id), None);
    assert [t][1..] == [];
    assert Chain(r, after, [], Some(node), after);
  }

  lemma RemovingOrder(s: State, f: seq<Tree>, done: seq<Tree>, t: Tree, rest: seq<Tree>, skipped: seq<Tree>)
    requires done + RemoveIfs(s, [t] + rest) == RemoveIfs(s, f) && RemoveIfs(s, skipped) == RemoveIfs(s, rest) && !IsIf(s, t.id)
    ensures done + [t] + RemoveIfs(s, skipped) == RemoveIfs(s, f)
  {
    assert ([t] + rest)[1..] == rest;
  }

  lemma RemovingIds(f: seq<Tree>, done: seq<Tree>, t: Tree, rest: seq<Tree>, skipped: seq<Tree>)
    requires Distinct(f) && Fewer(f, done + ([t] + rest)) && |skipped| <= |rest| && skipped == rest[|rest| - |skipped|..]
    ensures Fewer(f, done + [t] + skipped)
    ensures t.id !in Preorder(done) && t.id !in Preorder(t.children) && t.id !in Preorder(skipped) && t.id in Preorder(f)
  {
    hide Fewer, Distinct;
    SuffixFewer(rest, skipped);
    FewerSame(done + [t]);
    FewerConcat(done + [t], done + [t], rest, skipped);
    assert done + ([t] + rest) == done + [t] + rest;
    FewerTrans(f, done + [t] + rest, done + [t] + skipped);
    FewerDistinct(f, done + [t] + skipped);
    DistinctParts(done + [t], skipped);
    DistinctParts(done, [t]);
    DistinctTree(t);
    PreorderConcat(done + [t], skipped);
    PreorderConcat(done, [t]);
    PreorderOne(t);
    hide Preorder;
    assert t.id in Preorder([t]);
  }

  lemma RemovingEnds(l: Links, m: Links, s: State, node: NodeId, f: seq<Tree>, done: seq<Tree>, todo: seq<Tree>)
    requires Removing(l, m, s, node, f, done, None, todo) && todo == []
    ensures Chain(m, m.list[node], RemoveIfs(s, f), Some(node), None)
    ensures OtherLinks(l, m, [node] + Preorder(f)) && m.next[node] == l.next[node]
  {
    assert done + [] == done;
  }

  // -- one level ------------------------------------------------------------------------

  lemma OtherNone(l: Links, ids: seq<NodeId>)
    ensures OtherLinks(l, l, ids)
  {}

  lemma OtherThen(l: Links, m: Links, r: Links, ids: seq<NodeId>, all: seq<NodeId>)
    requires OtherLinks(l, m, all) && OtherLinks(m, r, ids) && forall x :: x in ids ==> x in all
    ensures OtherLinks(l, r, all)
  {}

  lemma OtherMore(l: Links, m: Links, ids: seq<NodeId>, all: seq<NodeId>)
    requires OtherLinks(l, m, ids) && forall x :: x in ids ==> x in all
    ensures OtherLinks(l, m, all)
  {}

  lemma LevelBegins(l: Links, t: Tree, rest: seq<Tree>, up: Link)
    requires Distinct([t] + rest) && Chain(l, Some(t.id), [t] + rest, up, None)
    ensures Within(l, t.id) && Chain(l, l.list[t.id], t.children, Some(t.id), None) && Distinct(t.children)
    ensures l.list[t.id].Some? <==> t.children != []
  {
    ChildChain(l, t, rest, up);
  }

  /** A node and its level, put together again after its children have changed. */
  lemma Rebuilt(l: Links, r: Links, t: Tree, t1: Tree, rest: seq<Tree>, up: Link)
    requires Distinct([t] + rest) && Chain(l, Some(t.id), [t] + rest, up, None) && t1.id == t.id
    requires OtherLinks(l, r, [t.id] + Preorder(t.children)) && Within(r, t.id)
    requires r.parent[t.id] == l.parent[t.id] && r.next[t.id] == l.next[t.id]
    requires Chain(r, r.list[t.id], t1.children, Some(t.id), None)
    ensures Chain(r, Some(t.id), [t1] + rest, up, None)
  {
    assert ([t] + rest)[1..] == rest && ([t1] + rest)[1..] == rest;
    DistinctParts([t], rest);
    PreorderOne(t);
    hide Preorder, Distinct;
    assert forall x :: x in [t.id] + Preorder(t.children) ==> x in Preorder([t]);
    OtherIsSame(l, r, [t.id] + Preorder(t.children), Preorder(rest));
    ChainFrame(l, r, l.next[t.id], rest, up, None);
  }

  lemma OwnLinks(l: Links, m: Links, i: NodeId, ids: seq<NodeId>)
    requires OtherLinks(l, m, ids) && i !in ids && Within(l, i)
    ensures Within(m, i) && m.next[i] == l.next[i] && m.list[i] == l.list[i] && m.parent[i] == l.parent[i]
  {}

  lemma LevelFlattened(l: Links, m: Links, s: State, t: Tree, rest: seq<Tree>, up: Link)
    requires Distinct([t] + rest) && Within(l, t.id) && OtherLinks(l, m, Preorder(t.children))
    ensures t.id !in Preorder(MenuTree.Flatten(s, t.children)) && Distinct(MenuTree.Flatten(s, t.children))
    ensures Within(m, t.id) && m.next[t.id] == l.next[t.id] && m.list[t.id] == l.list[t.id] && m.parent[t.id] == l.parent[t.id]
  {
    DistinctParts([t], rest);
    DistinctTree(t);
    FlattenIds(s, t.children);
    OwnLinks(l, m, t.id, Preorder(t.children));
  }

  lemma LevelEnds(l: Links, m: Links, r: Links, s: State, t: Tree, rest: seq<Tree>, up: Link)
    requires Distinct([t] + rest) && Chain(l, Some(t.id), [t] + rest, up, None) && t.children != []
    requires OtherLinks(l, m, Preorder(t.children)) && Within(m, t.id) && m.next[t.id] == l.next[t.id] && m.parent[t.id] == l.parent[t.id]
    requires OtherLinks(m, r, [t.id] + Preorder(MenuTree.Flatten(s, t.children))) && r.next[t.id] == m.next[t.id] && r.parent == m.parent
    requires Within(r, t.id)
    requires Chain(r, r.list[t.id], RemoveIfs(s, MenuTree.Flatten(s, t.children)), Some(t.id), None)
    ensures Chain(r, Some(t.id), [Level(s, t)] + rest, up, None)
    ensures OtherLinks(l, r, Preorder([t]))
  {
    FlattenIds(s, t.children);
    PreorderOne(t);
    hide Preorder, Distinct, Chain, MenuTree.Flatten, RemoveIfs;
    var ids := [t.id] + Preorder(t.children);
    assert forall x :: x in Preorder(t.children) ==> x in ids;
    OtherMore(l, m, Preorder(t.children), ids);
    OtherThen(l, m, r, ids, ids);
    Rebuilt(l, r, t, Level(s, t), rest, up);
  }

  lemma LevelSame(l: Links, s: State, t: Tree)
    requires t.children == []
    ensures Level(s, t) == t && OtherLinks(l, l, Preorder([t]))
  {}

  // -- absorbing siblings --------------------------------------------------------------------

  /** The node to the left of what is left: the symbol's own, or its last child so far. */
  function LastOf(t: Tree, kids: seq<Tree>): NodeId {
    if kids == [] then t.id else kids[|kids| - 1].id
  }

  /** The loop that absorbs siblings: `kids` hang on the symbol's node, `todo` comes after them. */
  ghost predicate Absorbing(l: Links, m: Links, s: State, r: State, t: Tree, rest: seq<Tree>, vis: Expr, up: Link,
                            kids: seq<Tree>, cur: NodeId, todo: seq<Tree>) {
    && AbsorbLinks(l, m, t, rest, up, kids, cur, todo) && AbsorbValue(s, r, t, rest, vis, kids, todo)
  }

  ghost predicate AbsorbLinks(l: Links, m: Links, t: Tree, rest: seq<Tree>, up: Link, kids: seq<Tree>, cur: NodeId, todo: seq<Tree>) {
    && Within(m, t.id) && Within(l, t.id) && m.parent[t.id] == up && m.list[t.id] == l.list[t.id]
    && cur == LastOf(t, kids) && Within(m, cur)
    && Chain(m, m.next[t.id], kids, Some(t.id), m.next[cur]) && Chain(m, m.next[cur], todo, up, None)
    && Distinct(rest) && t.id !in Preorder(rest) && OtherLinks(l, m, Preorder(rest))
  }

  ghost predicate AbsorbValue(s: State, r: State, t: Tree, rest: seq<Tree>, vis: Expr, kids: seq<Tree>, todo: seq<Tree>) {
    && Fewer(rest, kids + todo) && Parsed(r, todo)
    && var (ks, rs, q) := Absorb(t.id, todo, r, vis);
       Absorb(t.id, rest, s, vis) == (kids + ks, rs, q)
  }

  lemma AbsorbingBegins(l: Links, s: State, t: Tree, rest: seq<Tree>, vis: Expr, up: Link)
    requires Parsed(s, rest) && Distinct([t] + rest) && Chain(l, Some(t.id), [t] + rest, up, None)
    ensures Within(l, t.id) && Absorbing(l, l, s, s, t, rest, vis, up, [], t.id, rest)
  {
    ChildChain(l, t, rest, up);
    assert ([t] + rest)[1..] == rest;
    DistinctParts([t], rest);
    PreorderOne(t);
    assert t.id in Preorder([t]);
    hide Preorder, Fewer, Absorb;
    assert [] + rest == rest;
    FewerSame(rest);
    var (ks, rs, q) := Absorb(t.id, rest, s, vis);
    assert [] + ks == ks;
  }

  lemma AbsorbingHere(l: Links, m: Links, s: State, q: State, t: Tree, rest: seq<Tree>, vis: Expr, up: Link,
                      kids: seq<Tree>, cur: NodeId, todo: seq<Tree>)
    requires Absorbing(l, m, s, q, t, rest, vis, up, kids, cur, todo)
    ensures Within(m, cur) && (m.next[cur].Some? <==> todo != []) && Parsed(q, todo) && Distinct(todo)
    ensures todo != [] ==> todo == [todo[0]] + todo[1..] && m.next[cur] == Some(todo[0].id) && Known(q, todo[0].id)
    ensures Chain(m, m.next[cur], todo, up, None)
  {
    hide Preorder, Distinct, Fewer, Absorb;
    FewerDistinct(rest, kids + todo);
    DistinctParts(kids, todo);
    if todo != [] {
      assert todo == [todo[0]] + todo[1..];
    }
  }

  lemma AbsorbingEnds(l: Links, m: Links, s: State, q: State, t: Tree, rest: seq<Tree>, vis: Expr, up: Link,
                      kids: seq<Tree>, cur: NodeId, todo: seq<Tree>)
    requires Absorbing(l, m, s, q, t, rest, vis, up, kids, cur, todo)
    requires todo == [] || !AutoMenuDep(q, t.id, todo[0].id)
    ensures (kids, todo, q) == Absorb(t.id, rest, s, vis)
  {
    hide Preorder, Distinct, Fewer, Parsed, AbsorbLinks;
    assert kids + [] == kids;
  }

  lemma AbsorbedOne(l: Links, m: Links, m1: Links, s: State, q: State, t: Tree, rest: seq<Tree>, vis: Expr, up: Link,
                    kids: seq<Tree>, cur: NodeId, todo: seq<Tree>, d: Done)
    requires Absorbing(l, m, s, q, t, rest, vis, up, kids, cur, todo) && todo != [] && AutoMenuDep(q, t.id, todo[0].id)
    requires d == MenuTree.FinalizeNode(todo[0], todo[1..], q, vis)
    requires Chain(m1, Some(todo[0].id), [d.node] + d.rest, up, None) && OtherLinks(m, m1, Preorder(todo))
    ensures Within(m1, todo[0].id) && Size(d.rest) < Size(todo)
    ensures Absorbing(l, m1.(parent := m1.parent[todo[0].id := Some(t.id)]), s, d.s, t, rest, vis, up, kids + [d.node], todo[0].id, d.rest)
  {
    hide Preorder, Distinct, Fewer, Absorb, Chain, Parsed, OtherLinks, MenuTree.FinalizeNode, AutoMenuDep;
    AbsorbedValue(s, q, t, rest, vis, kids, todo, d);
    HeadChain(m1, d.node, d.rest, up, None);
    hide AbsorbLinks, AbsorbValue;
    AbsorbedLinks(l, m, m1, t, rest, up, kids, cur, todo, d.node, d.rest);
  }

  lemma AbsorbedValue(s: State, q: State, t: Tree, rest: seq<Tree>, vis: Expr, kids: seq<Tree>, todo: seq<Tree>, d: Done)
    requires AbsorbValue(s, q, t, rest, vis, kids, todo) && todo != [] && AutoMenuDep(q, t.id, todo[0].id) && Distinct(rest)
    requires d == MenuTree.FinalizeNode(todo[0], todo[1..], q, vis)
    ensures AbsorbValue(s, d.s, t, rest, vis, kids + [d.node], d.rest)
    ensures Fewer(todo, [d.node] + d.rest) && Distinct([d.node] + d.rest) && Size(d.rest) < Size(todo)
    ensures d.node.id == todo[0].id
  {
    hide Preorder, Distinct, Fewer, Parsed;
    assert todo == [todo[0]] + todo[1..];
    FewerDistinct(rest, kids + todo);
    DistinctParts(kids, todo);
    NodeIds(todo[0], todo[1..], q, vis);
    FewerDistinct(todo, [d.node] + d.rest);
    NodePushes(todo[0], todo[1..], q, vis);
    RestParsed(q, todo, d.rest, d.s, vis);
    NodeKeepsId(todo[0], todo[1..], q, vis);
    FewerSame(kids);
    FewerConcat(kids, kids, todo, [d.node] + d.rest);
    assert kids + [d.node] + d.rest == kids + ([d.node] + d.rest);
    FewerTrans(rest, kids + todo, kids + [d.node] + d.rest);
    hide MenuTree.FinalizeNode;
    var (ks, rs, q1) := Absorb(t.id, d.rest, d.s, vis);
    assert Absorb(t.id, todo, q, vis) == ([d.node] + ks, rs, q1);
    assert kids + ([d.node] + ks) == kids + [d.node] + ks;
  }

  lemma NodeKeepsId(t: Tree, rest: seq<Tree>, s: State, vis: Expr)
    ensures MenuTree.FinalizeNode(t, rest, s, vis).node.id == t.id
  {}

  lemma AbsorbedLinks(l: Links, m: Links, m1: Links, t: Tree, rest: seq<Tree>, up: Link,
                      kids: seq<Tree>, cur: NodeId, todo: seq<Tree>, node: Tree, after: seq<Tree>)
    requires AbsorbLinks(l, m, t, rest, up, kids, cur, todo) && todo != [] && Fewer(rest, kids + todo)
    requires Fewer(todo, [node] + after) && Distinct([node] + after) && node.id == todo[0].id
    requires Chain(m1, Some(node.id), [node] + after, up, None) && OtherLinks(m, m1, Preorder(todo))
    ensures Within(m1, node.id)
    ensures AbsorbLinks(l, m1.(parent := m1.parent[node.id := Some(t.id)]), t, rest, up, kids + [node], node.id, after)
  {
    var c := node.id;
    var r := m1.(parent := m1.parent[c := Some(t.id)]);
    assert m.next[cur] == Some(c);
    hide Preorder, Distinct, Chain, Fewer;
    HeadChain(m1, node, after, up, None);
    AbsorbedIds(t, rest, kids, todo, node, after);
    RestChain(m1, node, after, up);
    ReparentFrame(l, m, m1, r, t.id, c, Preorder(todo), Preorder(rest), Preorder(kids), Preorder(after), Preorder(node.children));
    hide OtherLinks, SameLinks;
    ChainFrame(m, r, m.next[t.id], kids, Some(t.id), m.next[cur]);
    ChainFrame(m1, r, m1.next[c], after, up, None);
    OneChain(m1, r, node, t.id);
    ChainConcat(r, m.next[t.id], kids, Some(c), [node], Some(t.id), r.next[c]);
    assert (kids + [node])[|kids + [node]| - 1] == node;
  }

  lemma RestChain(m: Links, t: Tree, rest: seq<Tree>, up: Link)
    requires Chain(m, Some(t.id), [t] + rest, up, None) && Within(m, t.id)
    ensures Chain(m, m.next[t.id], rest, up, None)
  {
    assert ([t] + rest)[1..] == rest;
  }

  /** A later part of the level has changed, and then the parent of its first node. */
  lemma ReparentFrame(l: Links, m: Links, m1: Links, r: Links, i: NodeId, c: NodeId, todo: seq<NodeId>, all: seq<NodeId>,
                      kids: seq<NodeId>, after: seq<NodeId>, below: seq<NodeId>)
    requires OtherLinks(l, m, all) && OtherLinks(m, m1, todo) && Within(m1, c) && Within(m, i)
    requires r == m1.(parent := m1.parent[c := Some(i)])
    requires (forall x :: x in todo ==> x in all) && i !in todo && c in todo
    requires (forall x :: x in kids ==> x !in todo) && c !in after && c !in below
    ensures OtherLinks(l, r, all) && SameLinks(m, r, kids) && SameLinks(m1, r, after) && SameLinks(m1, r, below)
    ensures Within(r, i) && r.next[i] == m.next[i] && r.list[i] == m.list[i] && r.parent[i] == m.parent[i]
    ensures Within(r, c) && r.parent[c] == Some(i) && r.next[c] == m1.next[c] && r.list[c] == m1.list[c]
  {}

  lemma OneChain(m: Links, r: Links, node: Tree, i: NodeId)
    requires Within(m, node.id) && Within(r, node.id) && r.parent[node.id] == Some(i) && r.list[node.id] == m.list[node.id]
    requires Chain(m, m.list[node.id], node.children, Some(node.id), None) && SameLinks(m, r, Preorder(node.children))
    ensures Chain(r, Some(node.id), [node], Some(i), r.next[node.id])
  {
    ChainFrame(m, r, m.list[node.id], node.children, Some(node.id), None);
    assert [node][1..] == [];
    assert Chain(r, r.next[node.id], [], Some(i), r.next[node.id]);
  }

  lemma AbsorbedIds(t: Tree, rest: seq<Tree>, kids: seq<Tree>, todo: seq<Tree>, node: Tree, after: seq<Tree>)
    requires Distinct(rest) && t.id !in Preorder(rest) && Fewer(rest, kids + todo)
    requires Fewer(todo, [node] + after) && Distinct([node] + after) && todo != [] && node.id == todo[0].id
    ensures forall x :: x in Preorder(todo) ==> x in Preorder(rest)
    ensures t.id !in Preorder(todo) && node.id in Preorder(todo)
    ensures forall x :: x in Preorder(kids) ==> x !in Preorder(todo)
    ensures node.id !in Preorder(after) && node.id !in Preorder(node.children)
  {
    hide Fewer, Distinct, Preorder;
    assert todo == [todo[0]] + todo[1..];
    PreorderCons(todo[0], todo[1..]);
    PreorderOne(node);
    assert todo[0].id in Preorder(todo);
    FewerDistinct(rest, kids + todo);
    DistinctParts(kids, todo);
    PreorderConcat(kids, todo);
    DistinctParts([node], after);
    DistinctTree(node);
    assert node.id in Preorder([node]);
  }

  /** What is left of the loop: where the children of the symbol's node begin and end. */
  lemma AbsorbedIn(l: Links, m: Links, s: State, r: State, t: Tree, rest: seq<Tree>, vis: Expr, up: Link,
                   kids: seq<Tree>, cur: NodeId, todo: seq<Tree>)
    requires Absorbing(l, m, s, r, t, rest, vis, up, kids, cur, todo)
    ensures Within(m, t.id) && Within(m, cur) && (cur == t.id <==> kids == [])
  {
    if kids != [] {
      FewerDistinct(rest, kids + todo);
      PreorderConcat(kids, todo);
      DistinctParts(kids, todo);
      RootNotInner(kids, |kids| - 1);
      hide Preorder;
      assert cur in Preorder(kids + todo);
    }
  }

  /** Tilting the absorbed siblings up above the symbol's node. */
  lemma Tilted(l: Links, m: Links, q: Links, s: State, r: State, t: Tree, rest: seq<Tree>, vis: Expr, up: Link,
               kids: seq<Tree>, cur: NodeId, todo: seq<Tree>, t1: Tree)
    requires Absorbing(l, m, s, r, t, rest, vis, up, kids, cur, todo) && t.children == [] && l.list[t.id] == None
    requires t1 == if kids == [] then t else Tree(t.id, kids)
    requires Within(m, t.id) && Within(m, cur)
    requires q == if cur == t.id then m
                  else Links(m.next[t.id := m.next[cur]][cur := None], m.list[t.id := m.next[t.id]], m.parent)
    ensures Chain(q, Some(t.id), [t1] + todo, up, None) && Distinct([t1] + todo)
    ensures OtherLinks(l, q, Preorder([t] + rest))
    ensures forall x :: x in Preorder([t1]) ==> x in Preorder([t] + rest)
  {
    AbsorbedIn(l, m, s, r, t, rest, vis, up, kids, cur, todo);
    TiltedIds(t, rest, kids, todo, t1);
    assert ([t1] + todo)[1..] == todo;
    if kids == [] {
      OtherMore(l, m, Preorder(rest), Preorder([t] + rest));
    } else {
      TiltedLinks(l, m, q, t, rest, up, kids, cur, todo);
    }
  }

  lemma TiltedIds(t: Tree, rest: seq<Tree>, kids: seq<Tree>, todo: seq<Tree>, t1: Tree)
    requires Distinct(rest) && t.id !in Preorder(rest) && Fewer(rest, kids + todo) && t.children == []
    requires t1 == if kids == [] then t else Tree(t.id, kids)
    ensures Distinct([t1] + todo) && Preorder([t] + rest) == [t.id] + Preorder(rest)
    ensures forall x :: x in Preorder([t1]) ==> x in Preorder([t] + rest)
  {
    PreorderCons(t, rest);
    PreorderOne(t1);
    EmptyPreorder();
    hide Fewer, Preorder, Distinct;
    NodeFewer(t, kids, rest, todo);
    assert Tree(t.id, kids) == t1;
    DistinctCons(t.id, rest, [t] + rest);
    FewerDistinct([t] + rest, [t1] + todo);
    DistinctParts([t1], todo);
    PreorderConcat([t1], todo);
  }

  lemma DistinctCons(i: NodeId, f: seq<Tree>, g: seq<Tree>)
    requires Distinct(f) && i !in Preorder(f) && Preorder(g) == [i] + Preorder(f)
    ensures Distinct(g)
  {}

  lemma TiltedLinks(l: Links, m: Links, q: Links, t: Tree, rest: seq<Tree>, up: Link, kids: seq<Tree>, cur: NodeId, todo: seq<Tree>)
    requires AbsorbLinks(l, m, t, rest, up, kids, cur, todo) && kids != [] && Fewer(rest, kids + todo) && t.children == []
    requires cur != t.id && q == Links(m.next[t.id := m.next[cur]][cur := None], m.list[t.id := m.next[t.id]], m.parent)
    ensures Chain(q, Some(t.id), [Tree(t.id, kids)] + todo, up, None)
    ensures OtherLinks(l, q, Preorder([t] + rest))
  {
    hide Preorder, Distinct, Fewer, Chain;
    TiltIds(t, rest, kids, todo);
    var n := m.(next := m.next[cur := None]);
    ChainRedirect(m, n, m.next[t.id], kids, Some(t.id), m.next[cur], None);
    TiltFrame(l, m, n, q, t.id, cur, Preorder(kids), Preorder(todo), Preorder(rest), Preorder([t] + rest));
    hide OtherLinks, SameLinks;
    ChainFrame(n, q, m.next[t.id], kids, Some(t.id), None);
    ChainFrame(m, q, m.next[cur], todo, up, None);
    WholeChain(q, Tree(t.id, kids), todo, up);
  }

  lemma WholeChain(q: Links, t: Tree, rest: seq<Tree>, up: Link)
    requires Within(q, t.id) && q.parent[t.id] == up && Chain(q, q.list[t.id], t.children, Some(t.id), None)
    requires Chain(q, q.next[t.id], rest, up, None)
    ensures Chain(q, Some(t.id), [t] + rest, up, None)
  {
    assert ([t] + rest)[1..] == rest;
  }

  lemma TiltFrame(l: Links, m: Links, n: Links, q: Links, i: NodeId, cur: NodeId, kids: seq<NodeId>, todo: seq<NodeId>,
                  rest: seq<NodeId>, all: seq<NodeId>)
    requires Within(m, i) && Within(m, cur) && i != cur && n == m.(next := m.next[cur := None])
    requires q == Links(m.next[i := m.next[cur]][cur := None], m.list[i := m.next[i]], m.parent)
    requires OtherLinks(l, m, rest) && i !in kids && i !in todo && cur !in todo && cur in rest && i in all
    requires forall x :: x in rest ==> x in all
    ensures SameLinks(n, q, kids) && SameLinks(m, q, todo) && OtherLinks(l, q, all)
    ensures Within(q, i) && q.parent[i] == m.parent[i] && q.list[i] == m.next[i] && q.next[i] == m.next[cur]
  {}

  lemma TiltIds(t: Tree, rest: seq<Tree>, kids: seq<Tree>, todo: seq<Tree>)
    requires Distinct(rest) && t.id !in Preorder(rest) && Fewer(rest, kids + todo) && kids != []
    ensures Distinct(kids) && t.id !in Preorder(kids) && t.id !in Preorder(todo)
    ensures kids[|kids| - 1].id !in Preorder(todo) && kids[|kids| - 1].id in Preorder(rest)
    ensures t.id in Preorder([t] + rest) && forall x :: x in Preorder(rest) ==> x in Preorder([t] + rest)
  {
    PreorderCons(t, rest);
    hide Preorder, Distinct, Fewer;
    FewerDistinct(rest, kids + todo);
    PreorderConcat(kids, todo);
    DistinctParts(kids, todo);
    RootNotInner(kids, |kids| - 1);
    var last := kids[|kids| - 1].id;
    assert last in Preorder(kids) && last in Preorder(kids + todo);
  }

  lemma SameParsedProps(s: State, r: State, f: seq<Tree>)
    requires Parsed(s, f) && r.kind == s.kind && |r.props| == |s.props|
    ensures Parsed(r, f)
  {
    PushedParsed(s, r, f);
  }

  // -- finalizing children -------------------------------------------------------------------------

  ghost predicate Finalizing(l: Links, m: Links, s: State, r: State, node: NodeId, f: seq<Tree>, vis: Expr,
                             done: seq<Tree>, cur: Link, todo: seq<Tree>) {
    && FinalizeLinks(l, m, node, f, done, cur, todo) && FinalizeValue(s, r, f, vis, done, todo)
  }

  ghost predicate FinalizeLinks(l: Links, m: Links, node: NodeId, f: seq<Tree>, done: seq<Tree>, cur: Link, todo: seq<Tree>) {
    && Within(m, node) && Chain(m, m.list[node], done, Some(node), cur) && Chain(m, cur, todo, Some(node), None)
    && Distinct(f) && node !in Preorder(f) && OtherLinks(l, m, Preorder(f))
  }

  ghost predicate FinalizeValue(s: State, r: State, f: seq<Tree>, vis: Expr, done: seq<Tree>, todo: seq<Tree>) {
    && Fewer(f, done + todo) && Parsed(r, todo)
    && var (ts, q) := FinalizeAll(todo, r, vis);
       FinalizeAll(f, s, vis) == (done + ts, q)
  }

  lemma FinalizingBegins(l: Links, s: State, node: NodeId, f: seq<Tree>, vis: Expr)
    requires Within(l, node) && Parsed(s, f) && Distinct(f) && node !in Preorder(f) && Chain(l, l.list[node], f, Some(node), None)
    ensures Finalizing(l, l, s, s, node, f, vis, [], l.list[node], f)
  {
    assert [] + f == f;
    FewerSame(f);
    var (ts, q) := FinalizeAll(f, s, vis);
    assert [] + ts == ts;
  }

  lemma FinalizingHere(l: Links, m: Links, s: State, q: State, node: NodeId, f: seq<Tree>, vis: Expr,
                       done: seq<Tree>, cur: Link, todo: seq<Tree>)
    requires Finalizing(l, m, s, q, node, f, vis, done, cur, todo) && cur.Some?
    ensures todo != [] && todo == [todo[0]] + todo[1..] && cur == Some(todo[0].id)
    ensures Parsed(q, todo) && Distinct(todo) && Chain(m, cur, todo, Some(node), None)
  {
    FewerDistinct(f, done + todo);
    DistinctParts(done, todo);
  }

  lemma FinalizedOne(l: Links, m: Links, m1: Links, s: State, q: State, node: NodeId, f: seq<Tree>, vis: Expr,
                     done: seq<Tree>, cur: Link, todo: seq<Tree>, d: Done)
    requires Finalizing(l, m, s, q, node, f, vis, done, cur, todo) && cur.Some? && todo != []
    requires d == MenuTree.FinalizeNode(todo[0], todo[1..], q, vis)
    requires Chain(m1, cur, [d.node] + d.rest, Some(node), None) && OtherLinks(m, m1, Preorder(todo))
    ensures Within(m1, cur.value) && Within(m1, node) && Size(d.rest) < Size(todo)
    ensures Finalizing(l, m1, s, d.s, node, f, vis, done + [d.node], m1.next[cur.value], d.rest)
  {
    FinalizedValue(s, q, f, vis, done, todo, d);
    FewerDistinct(f, done + todo);
    PreorderConcat(done, todo);
    DistinctParts(done, todo);
    hide Preorder, Distinct, Fewer;
    assert cur == Some(todo[0].id);
    OwnLinks(m, m1, node, Preorder(todo));
    OtherThen(l, m, m1, Preorder(todo), Preorder(f));
    OtherIsSame(m, m1, Preorder(todo), Preorder(done));
    hide Chain;
    ChainFrame(m, m1, m.list[node], done, Some(node), cur);
    ChainSnoc(m1, m1.list[node], done, d.node, d.rest, Some(node), None);
  }

  lemma FinalizedValue(s: State, q: State, f: seq<Tree>, vis: Expr, done: seq<Tree>, todo: seq<Tree>, d: Done)
    requires FinalizeValue(s, q, f, vis, done, todo) && todo != [] && Distinct(f)
    requires d == MenuTree.FinalizeNode(todo[0], todo[1..], q, vis)
    ensures FinalizeValue(s, d.s, f, vis, done + [d.node], d.rest)
    ensures Size(d.rest) < Size(todo) && d.node.id == todo[0].id
  {
    hide Preorder, Distinct, Fewer, Parsed;
    assert todo == [todo[0]] + todo[1..];
    FewerDistinct(f, done + todo);
    DistinctParts(done, todo);
    NodeIds(todo[0], todo[1..], q, vis);
    NodePushes(todo[0], todo[1..], q, vis);
    RestParsed(q, todo, d.rest, d.s, vis);
    NodeKeepsId(todo[0], todo[1..], q, vis);
    FewerSame(done);
    FewerConcat(done, done, todo, [d.node] + d.rest);
    assert done + [d.node] + d.rest == done + ([d.node] + d.rest);
    FewerTrans(f, done + todo, done + [d.node] + d.rest);
    hide MenuTree.FinalizeNode;
    var (ts, q1) := FinalizeAll(d.rest, d.s, vis);
    assert FinalizeAll(todo, q, vis) == ([d.node] + ts, q1);
    assert done + ([d.node] + ts) == done + [d.node] + ts;
  }

  lemma FinalizingEnds(l: Links, m: Links, s: State, r: State, node: NodeId, f: seq<Tree>, vis: Expr, done: seq<Tree>, todo: seq<Tree>)
    requires Finalizing(l, m, s, r, node, f, vis, done, None, todo)
    ensures (done, r) == FinalizeAll(f, s, vis)
    ensures Within(m, node) && Chain(m, m.list[node], done, Some(node), None) && OtherLinks(l, m, Preorder(f))
  {
    assert todo == [];
    assert done + [] == done;
  }

  lemma MenuIdsOf(l: Links, t: Tree, rest: seq<Tree>, up: Link)
    requires Distinct([t] + rest) && Chain(l, Some(t.id), [t] + rest, up, None)
    ensures Distinct(t.children) && t.id !in Preorder(t.children)
    ensures Within(l, t.id) && Chain(l, l.list[t.id], t.children, Some(t.id), None)
  {
    DistinctParts([t], rest);
    DistinctTree(t);
    ChildChain(l, t, rest, up);
  }

  lemma MenuChain(l: Links, m: Links, t: Tree, kids: seq<Tree>, rest: seq<Tree>, up: Link)
    requires Distinct([t] + rest) && Chain(l, Some(t.id), [t] + rest, up, None) && Fewer(t.children, kids)
    requires OtherLinks(l, m, Preorder(t.children)) && Within(m, t.id) && Chain(m, m.list[t.id], kids, Some(t.id), None)
    ensures Chain(m, Some(t.id), [Tree(t.id, kids)] + rest, up, None) && Distinct([Tree(t.id, kids)] + rest)
    ensures forall x :: x in Preorder([Tree(t.id, kids)]) ==> x in Preorder([t])
  {
    MenuIdsOf(l, t, rest, up);
    OwnLinks(l, m, t.id, Preorder(t.children));
    OtherMore(l, m, Preorder(t.children), [t.id] + Preorder(t.children));
    Rebuilt(l, m, t, Tree(t.id, kids), rest, up);
    FewerSame(rest);
    FewerConcat(t.children, kids, rest, rest);
    NodeFewer(t, kids, rest, rest);
    FewerDistinct([t] + rest, [Tree(t.id, kids)] + rest);
    FewerDistinct(t.children, kids);
    PreorderOne(t);
    PreorderOne(Tree(t.id, kids));
  }

  lemma MenuFrame(l: Links, m: Links, r: Links, t: Tree, t1: Tree, rest: seq<Tree>)
    requires OtherLinks(l, m, Preorder(t.children)) && OtherLinks(m, r, Preorder([t1]))
    requires forall x :: x in Preorder([t1]) ==> x in Preorder([t])
    ensures OtherLinks(l, r, Preorder([t] + rest))
  {
    PreorderCons(t, rest);
    PreorderOne(t);
    hide Preorder;
    OtherMore(l, m, Preorder(t.children), Preorder([t] + rest));
    OtherThen(l, m, r, Preorder([t1]), Preorder([t] + rest));
  }

  // -- types of a choice -----------------------------------------------------------------

  lemma TypedNone(items: seq<ItemProps>, t: Type)
    ensures Typed(items, [], t) == items
  {}

  lemma TypedMore(items: seq<ItemProps>, syms: seq<Id>, k: nat, choice: Id)
    requires k < |syms| && choice < |items|
    ensures var t := items[choice].typ;
      var r := Typed(items, syms[..k], t);
      && r[choice].typ == t
      && Typed(items, syms[..k + 1], t) ==
           if syms[k] < |r| && r[syms[k]].typ.Unknown? then r[syms[k] := r[syms[k]].(typ := t)] else r
  {
    assert syms[..k + 1] == syms[..k] + [syms[k]];
  }

  // -- each symbol once -----------------------------------------------------------------

  function SymbolsOf(kind: seq<NodeItem>, order: seq<NodeId>): set<Id> {
    set i | i in order && i < |kind| && kind[i].SymbolNode? :: kind[i].sym
  }

  /** Whether an earlier node is of the same symbol. */
  predicate Repeats(kind: seq<NodeItem>, before: seq<NodeId>, i: NodeId) {
    i < |kind| && kind[i].SymbolNode? && kind[i].sym in SymbolsOf(kind, before)
  }

  /** The nodes without those that repeat a symbol. */
  function FirstNodes(kind: seq<NodeItem>, order: seq<NodeId>): seq<NodeId> {
    if order == [] then []
    else
      var before, i := order[..|order| - 1], order[|order| - 1];
      FirstNodes(kind, before) + if Repeats(kind, before, i) then [] else [i]
  }

  lemma NoFirstNodes(kind: seq<NodeItem>)
    ensures FirstNodes(kind, []) == [] && SymbolsOf(kind, []) == {}
  {}

  lemma OneMoreNode(kind: seq<NodeItem>, before: seq<NodeId>, i: NodeId)
    ensures FirstNodes(kind, before + [i]) == FirstNodes(kind, before) + if Repeats(kind, before, i) then [] else [i]
    ensures SymbolsOf(kind, before + [i]) ==
      SymbolsOf(kind, before) + if i < |kind| && kind[i].SymbolNode? then {kind[i].sym} else {}
  {
    assert (before + [i])[..|before|] == before;
  }

  /** All nodes but those of symbols are kept, and of the nodes of a symbol exactly one. */
  lemma {:induction false} SymbolsOnce(kind: seq<NodeItem>, order: seq<NodeId>)
    ensures var r := FirstNodes(kind, order);
      && SymbolsOf(kind, r) == SymbolsOf(kind, order)
      && (forall i :: i in order && !(i < |kind| && kind[i].SymbolNode?) ==> i in r)
      && (forall i :: i in r ==> i in order)
      && (forall a, b :: 0 <= a < b < |r| ==> !Repeats(kind, [r[a]], r[b]))
  {
    if order != [] {
      var before, i := order[..|order| - 1], order[|order| - 1];
      SymbolsOnce(kind, before);
      assert order == before + [i];
      OneMoreNode(kind, before, i);
      var q := FirstNodes(kind, before);
      OneMoreNode(kind, q, i);
      hide FirstNodes;
      forall a | 0 <= a < |q| && !Repeats(kind, before, i) ensures !Repeats(kind, [q[a]], i) {
        assert q[a] in q;
      }
    }
  }

  // -- walking without a stack --------------------------------------------------------

  /** A node on the way down to the current one, and what follows it on its level. */
  datatype Step = Step(id: NodeId, rest: seq<Tree>)

  function UpOf(path: seq<Step>): Link {
    if |path| < 2 then None else Some(path[|path| - 2].id)
  }

  /** The path leads to the node, the links agree with it, and nothing follows the top. */
  predicate OnWay(l: Links, node: NodeId, path: seq<Step>)
    decreases |path|
  {
    && path != [] && path[|path| - 1].id == node && Within(l, node)
    && l.parent[node] == UpOf(path) && Chain(l, l.next[node], path[|path| - 1].rest, UpOf(path), None)
    && (if |path| == 1 then path[0].rest == [] else OnWay(l, path[|path| - 2].id, path[..|path| - 1]))
  }

  /** And the children of the node are still to come. */
  predicate OnPath(l: Links, node: NodeId, kids: seq<Tree>, path: seq<Step>) {
    OnWay(l, node, path) && Chain(l, l.list[node], kids, Some(node), None)
  }

  /** What comes after the subtree of the current node. */
  function Pending(path: seq<Step>): seq<NodeId> {
    if path == [] then [] else Preorder(path[|path| - 1].rest) + Pending(path[..|path| - 1])
  }

  function PendingSize(path: seq<Step>): nat {
    if path == [] then 0 else Size(path[|path| - 1].rest) + PendingSize(path[..|path| - 1])
  }

  /** What is left to walk, below the current node and after it. */
  function Left(kids: seq<Tree>, path: seq<Step>): seq<NodeId> {
    Preorder(kids) + Pending(path)
  }

  lemma OneFurther(walked: seq<NodeId>, i: NodeId, left: seq<NodeId>)
    ensures walked + [i] + left == walked + ([i] + left)
  {}

  lemma PathBegins(l: Links, t: Tree)
    requires Chain(l, Some(t.id), [t], None, None)
    ensures OnPath(l, t.id, t.children, [Step(t.id, [])]) && Within(l, t.id)
    ensures [] + Left(t.children, [Step(t.id, [])]) == Preorder(t.children)
  {
    assert [t][1..] == [];
    assert [Step(t.id, [])][..0] == [];
    EmptyPreorder();
    assert Pending([Step(t.id, [])]) == [];
    assert Left(t.children, [Step(t.id, [])]) == Preorder(t.children);
  }

  /** To the first child. */
  lemma StepDown(l: Links, node: NodeId, kids: seq<Tree>, path: seq<Step>) returns (path1: seq<Step>, kids1: seq<Tree>)
    requires OnPath(l, node, kids, path) && l.list[node].Some?
    ensures var next := l.list[node].value;
      && OnPath(l, next, kids1, path1) && Within(l, next)
      && [next] + Preorder(kids1) + Pending(path1) == Preorder(kids) + Pending(path)
      && Size(kids1) + PendingSize(path1) < Size(kids) + PendingSize(path)
  {
    var c := kids[0];
    path1, kids1 := path + [Step(c.id, kids[1..])], c.children;
    assert path1[..|path1| - 1] == path;
    assert Pending(path1) == Preorder(kids[1..]) + Pending(path);
  }

  lemma NoChildren(l: Links, node: NodeId, kids: seq<Tree>, path: seq<Step>)
    requires OnPath(l, node, kids, path) && l.list[node].None?
    ensures kids == [] && Preorder(kids) == [] && OnWay(l, node, path)
  {}

  /** From a node with nothing after it to its parent. */
  lemma StepUp(l: Links, node: NodeId, path: seq<Step>) returns (path1: seq<Step>)
    requires OnWay(l, node, path) && l.next[node].None? && l.parent[node].Some?
    ensures var up := l.parent[node].value;
      && OnWay(l, up, path1) && Within(l, up)
      && Pending(path1) == Pending(path) && PendingSize(path1) == PendingSize(path) && |path1| < |path|
  {
    path1 := path[..|path| - 1];
    assert path[|path| - 1].rest == [];
    EmptyPreorder();
  }

  /** To the next node on the level. */
  lemma StepOn(l: Links, node: NodeId, path: seq<Step>) returns (path1: seq<Step>, kids1: seq<Tree>)
    requires OnWay(l, node, path) && l.next[node].Some?
    ensures var next := l.next[node].value;
      && OnPath(l, next, kids1, path1) && Within(l, next)
      && [next] + Preorder(kids1) + Pending(path1) == Pending(path)
      && Size(kids1) + PendingSize(path1) < PendingSize(path)
  {
    var rest := path[|path| - 1].rest;
    var init := path[..|path| - 1];
    path1, kids1 := init + [Step(rest[0].id, rest[1..])], rest[0].children;
    assert path1[..|path1| - 1] == init;
    assert UpOf(path1) == UpOf(path);
    assert |path| > 1 ==> path1[|path1| - 2] == path[|path| - 2];
    assert Pending(path1) == Preorder(rest[1..]) + Pending(init);
  }

  lemma PathEnds(l: Links, node: NodeId, path: seq<Step>)
    requires OnWay(l, node, path) && l.next[node].None? && l.parent[node].None?
    ensures Pending(path) == []
  {
    assert |path| == 1 && path[..0] == [];
    EmptyPreorder();
  }
}
