/**
  The circular link check of a test tree and its repair loop
  (core/codegen/codegen_tree.c).
 */
module CircularLinks {
  import opened Graphs
  import opened TestTree

  ghost function Entered(u: Universe): set<nat>
    reads u.objs`enter
  {
    set o | o in u.objs && o.enter > 0 :: o.key
  }

  ghost function NotEntered(u: Universe): set<nat>
    reads u.objs`enter
  {
    set o | o in u.objs && o.enter == 0 :: o.key
  }

  /** The objects met on a path, deepest first: what the check leaves on the stack. */
  ghost function Unwound(u: Universe, p: seq<nat>): (s: seq<TreeObject>)
    requires forall i :: 0 <= i < |p| ==> p[i] in u.at
    ensures |s| == |p|
    ensures forall i :: 0 <= i < |p| ==> s[i] == u.at[p[|p| - 1 - i]]
  {
    if p == [] then [] else Unwound(u, p[1..]) + [u.at[p[0]]]
  }

  /** `g` and `e` are the link graph and the entered objects when the method is called. */
  method ObjectCircular(tree: Tree, o: TreeObject?, ghost u: Universe, ghost g: Graph, ghost e: set<nat>)
    returns (ret: bool, ghost path: seq<nat>)
    requires ClosedUnder(u) && g == LinkGraph(u) && e == Entered(u)
    requires o != null ==> o in u.objs
    modifies u.objs`enter, tree`stack
    ensures forall x :: x in u.objs ==> x.enter == old(x.enter)
    ensures ret <==> o != null && Hits(g, o.key, e)
    ensures !ret ==> tree.stack == old(tree.stack)
    ensures ret ==>
              && FirstHit(g, o.key, e, path)
              && tree.stack == old(tree.stack) + Unwound(u, path[1..])
    decreases |NotEntered(u)|, 0
  {
    hide IsPath, Hits, FirstHit, LinkGraph, ClosedUnder, SlotsOf, Children, Closed;
    ret, path := false, [];
    if o == null {
      return;
    }
    NodeOf(u, g, o);
    if o.enter > 0 {
      HitsNow(g, o.key, e);
      return true, [o.key];
    }
    HitsStep(g, o.key, e);
    o.enter := o.enter + 1;
    if o.kind == Seq {
      EnterDecreases(u, o, old(NotEntered(u)));
      assert Entered(u) == e + {o.key};
      ret, path := SeqCircular(tree, o, u, g, e + {o.key});
    }
    if ret {
      FirstHitExtend(g, o.key, path[0], e, path);
      path := [o.key] + path;
    }
    o.enter := o.enter - 1;
  }

  /** An object as a node of the link graph. */
  lemma NodeOf(u: Universe, g: Graph, o: TreeObject)
    requires ClosedUnder(u) && g == LinkGraph(u) && o in u.objs
    ensures WellKeyed(u) && Closed(g) && o.key in g && u.at[o.key] == o && (o.kind == Case ==> g[o.key] == {})
  {
    LinkGraphClosed(u);
  }

  lemma EnterDecreases(u: Universe, o: TreeObject, before: set<nat>)
    requires WellKeyed(u) && o in u.objs && o.enter > 0 && o.key in before
    requires NotEntered(u) <= before
    ensures |NotEntered(u)| < |before|
  {
    assert NotEntered(u) <= before - {o.key};
    CardinalityMonotone(NotEntered(u), before - {o.key});
  }

  lemma CardinalityMonotone<T>(a: set<T>, b: set<T>)
    requires a <= b
    ensures |a| <= |b|
  {
    assert b == a + (b - a);
  }

  method SeqCircular(tree: Tree, o: TreeObject, ghost u: Universe, ghost g: Graph, ghost e: set<nat>)
    returns (ret: bool, ghost path: seq<nat>)
    requires ClosedUnder(u) && g == LinkGraph(u) && e == Entered(u)
    requires o in u.objs && o.kind == Seq
    modifies u.objs`enter, tree`stack
    ensures forall x :: x in u.objs ==> x.enter == old(x.enter)
    ensures ret <==> exists c :: c in g[o.key] && Hits(g, c, e)
    ensures !ret ==> tree.stack == old(tree.stack)
    ensures ret ==>
              && |path| > 0 && path[0] in g[o.key]
              && FirstHit(g, path[0], e, path)
              && tree.stack == old(tree.stack) + Unwound(u, path)
    decreases |NotEntered(u)|, 2
  {
    var i := 0;
    while i < |o.nodes|
      invariant 0 <= i <= |o.nodes|
      invariant forall x :: x in u.objs ==> x.enter == old(x.enter)
      invariant tree.stack == old(tree.stack)
      invariant forall j :: 0 <= j < i && o.nodes[j] != null && o.nodes[j].obj != null ==> !Hits(g, o.nodes[j].obj.key, e)
    {
      assert Entered(u) == e && NotEntered(u) == old(NotEntered(u));
      if o.nodes[i] != null {
        var slot: TreeItem := o.nodes[i];
        assert slot in SlotsOf(o);
      }
      ret, path := ItemCircular(tree, o.nodes[i], u, g, e);
      if ret {
        assert o.nodes[i].obj.key in Children(u, o);
        return;
      }
      i := i + 1;
    }
    forall c | c in g[o.key]
      ensures !Hits(g, c, e)
    {
      var s :| s in SlotsOf(o) && s.obj != null && s.obj.key == c;
      var j :| 0 <= j < |o.nodes| && o.nodes[j] == s;
    }
    ret, path := false, [];
  }

  method ItemCircular(tree: Tree, item: TreeItem?, ghost u: Universe, ghost g: Graph, ghost e: set<nat>)
    returns (ret: bool, ghost path: seq<nat>)
    requires ClosedUnder(u) && g == LinkGraph(u) && e == Entered(u)
    requires item != null && item.obj != null ==> item.obj in u.objs
    modifies u.objs`enter, tree`stack
    ensures forall x :: x in u.objs ==> x.enter == old(x.enter)
    ensures ret <==> item != null && item.obj != null && Hits(g, item.obj.key, e)
    ensures !ret ==> tree.stack == old(tree.stack)
    ensures ret ==>
              && FirstHit(g, item.obj.key, e, path)
              && tree.stack == old(tree.stack) + Unwound(u, path)
    decreases |NotEntered(u)|, 1
  {
    ret, path := false, [];
    if item == null {
      return;
    }
    ret, path := ObjectCircular(tree, item.obj, u, g, e);
    if ret {
      tree.stack := tree.stack + [item.obj];
    }
  }

  method ObjectUnlink(o: TreeObject, target: TreeObject)
    modifies o`nodes
    ensures |o.nodes| == |old(o.nodes)|
    ensures forall i :: 0 <= i < |o.nodes| ==>
              o.nodes[i] == if o.kind == Seq && old(o.nodes)[i] != null
                && old(o.nodes)[i].obj == target then null else old(o.nodes)[i]
  {
    if o.kind == Seq {
      var i := 0;
      while i < |o.nodes|
        invariant 0 <= i <= |o.nodes| == |old(o.nodes)|
        invariant forall j :: i <= j < |o.nodes| ==> o.nodes[j] == old(o.nodes)[j]
        invariant forall j :: 0 <= j < i ==>
                    o.nodes[j] == if old(o.nodes)[j] != null
                      && old(o.nodes)[j].obj == target then null else old(o.nodes)[j]
      {
        if o.nodes[i] != null {
          if o.nodes[i].obj == target {
            o.nodes := o.nodes[i := null];
          }
        }
        i := i + 1;
      }
    }
  }

  /** The objects that some child slots lead to, by key. */
  ghost function KeysOf(u: Universe, nodes: seq<TreeItem?>): set<nat>
    reads u.slots`obj
  {
    set s: TreeItem | s in nodes && s in u.slots && s.obj != null :: s.obj.key
  }

  lemma ChildrenAre(u: Universe, o: TreeObject)
    ensures Children(u, o) == KeysOf(u, o.nodes)
  {
  }

  lemma KeysWithout(u: Universe, target: TreeObject, before: seq<TreeItem?>, after: seq<TreeItem?>)
    requires WellKeyed(u) && target in u.objs && |after| == |before|
    requires forall s :: s in u.slots && s.obj != null ==> s.obj in u.objs
    requires forall i :: 0 <= i < |after| ==>
               after[i] == if before[i] != null && before[i].obj == target then null else before[i]
    ensures KeysOf(u, after) == KeysOf(u, before) - {target.key}
  {
    forall c | c in KeysOf(u, before) && c != target.key ensures c in KeysOf(u, after) {
      var s: TreeItem :| s in before && s in u.slots && s.obj != null && s.obj.key == c;
      var i :| 0 <= i < |before| && before[i] == s;
      assert after[i] == s;
    }
    forall c | c in KeysOf(u, after) ensures c in KeysOf(u, before) && c != target.key {
      var s: TreeItem :| s in after && s in u.slots && s.obj != null && s.obj.key == c;
      var i :| 0 <= i < |after| && after[i] == s;
    }
  }

  lemma LinksCut(u: Universe, g: Graph, o: TreeObject, b: nat)
    requires WellKeyed(u) && o in u.objs && g.Keys == LinkGraph(u).Keys && o.key in g
    requires forall k :: k in g && k != o.key ==> LinkGraph(u)[k] == g[k]
    requires Children(u, o) == g[o.key] - {b}
    ensures LinkGraph(u) == Cut(g, o.key, b)
  {
  }

  /** Unlinking drops exactly one edge of the link graph. */
  method KillLink(o: TreeObject, target: TreeObject, ghost u: Universe, ghost g: Graph)
    requires ClosedUnder(u) && g == LinkGraph(u) && o in u.objs && target in u.objs && o.kind == Seq
    modifies o`nodes
    ensures ClosedUnder(u) && LinkGraph(u) == Cut(g, o.key, target.key)
  {
    hide Cut, KeysOf;
    ghost var before := o.nodes;
    ChildrenAre(u, o);
    assert g[o.key] == KeysOf(u, before);
    ObjectUnlink(o, target);
    assert forall x :: x in u.objs ==> SlotsOf(x) <= old(SlotsOf(x));
    ChildrenAre(u, o);
    KeysWithout(u, target, before, o.nodes);
    LinksCut(u, g, o, target.key);
  }

  ghost predicate SameReach(g0: Graph, g: Graph, r: nat) {
    forall x :: Reaches(g, r, x) <==> Reaches(g0, r, x)
  }

  /** What a sequence of cuts has made of the link graph `g0`: only edges closing a cycle are gone. */
  ghost predicate Repaired(g0: Graph, g: Graph, r: nat, cuts: seq<(nat, nat)>) {
    && Subgraph(g, g0)
    && SameReach(g0, g, r)
    && |Edges(g)| == |Edges(g0)| - |cuts|
    && (forall e :: e in Edges(g) <==> e in Edges(g0) && e !in cuts)
    && (forall c :: c in cuts ==> c in Edges(g0) && Reaches(g0, c.1, c.0))
  }

  /** Each cut is reported by one error naming the sequence and the node it links to. */
  ghost predicate Reported(u: Universe, cuts: seq<(nat, nat)>, reports: seq<TreeError>) {
    && |reports| == |cuts|
    && (forall i :: 0 <= i < |cuts| ==>
          && cuts[i].0 in u.at && cuts[i].1 in u.at
          && reports[i] == CircularLink(u.at[cuts[i].0].name, u.at[cuts[i].1].name))
  }

  lemma RepairStart(u: Universe, g0: Graph, r: nat)
    ensures Repaired(g0, g0, r, []) && Reported(u, [], [])
  {
  }

  lemma ReportStep(u: Universe, cuts: seq<(nat, nat)>, reports: seq<TreeError>, a: nat, b: nat)
    requires Reported(u, cuts, reports) && a in u.at && b in u.at
    ensures Reported(u, cuts + [(a, b)], reports + [CircularLink(u.at[a].name, u.at[b].name)])
  {
  }

  lemma RepairStep(g0: Graph, g: Graph, r: nat, cuts: seq<(nat, nat)>, h: seq<nat>)
    requires Repaired(g0, g, r, cuts)
    requires FirstHit(g, r, {}, h) && |h| >= 2
    ensures Repaired(g0, Cut(g, h[|h| - 2], Last(h)), r, cuts + [(h[|h| - 2], Last(h))])
    ensures |Edges(Cut(g, h[|h| - 2], Last(h)))| < |Edges(g)|
  {
    var a, b := h[|h| - 2], Last(h);
    assert SameReach(g0, Cut(g, a, b), r) by {
      forall x
        ensures Reaches(Cut(g, a, b), r, x) <==> Reaches(g0, r, x)
      {
        CutKeepsReachable(g, r, h, x);
      }
    }
    CutEdgeOnCycle(g, r, h);
    RepairStepEdges(g0, g, r, cuts, a, b);
  }

  lemma RepairStepEdges(g0: Graph, g: Graph, r: nat, cuts: seq<(nat, nat)>, a: nat, b: nat)
    requires Repaired(g0, g, r, cuts) && a in g && b in g[a] && Reaches(g, b, a)
    requires SameReach(g0, Cut(g, a, b), r)
    ensures Repaired(g0, Cut(g, a, b), r, cuts + [(a, b)])
  {
    CutEdges(g, a, b);
    SubgraphReaches(g, g0, b, a);
  }

  /** The check pushes the node met twice, and then the sequence that links to it. */
  lemma SecondOnStack(u: Universe, g: Graph, r: nat, h: seq<nat>)
    requires ClosedUnder(u) && g == LinkGraph(u) && FirstHit(g, r, {}, h)
    ensures |h| >= 2 && h[|h| - 2] in u.at && Last(h) in u.at
    ensures u.at[Last(h)] in u.objs && u.at[h[|h| - 2]] in u.objs
    ensures Unwound(u, h)[0] == u.at[Last(h)] && Unwound(u, h)[1] == u.at[h[|h| - 2]]
    ensures Last(h) in g[h[|h| - 2]] && u.at[h[|h| - 2]].kind == Seq
  {
    assert h[|h| - 2] in g;
    assert SlotsOf(u.at[h[|h| - 2]]) != {};
  }

  method Search(tree: Tree, ghost u: Universe, ghost g: Graph, ghost r: nat) returns (ret: bool, ghost h: seq<nat>)
    requires ClosedUnder(u) && Entered(u) == {} && g == LinkGraph(u)
    requires tree.head != null && tree.head.obj != null ==> tree.head.obj in u.objs && tree.head.obj.key == r
    modifies u.objs`enter, tree`stack
    ensures ClosedUnder(u) && Entered(u) == {} && LinkGraph(u) == g
    ensures ret <==> tree.head != null && tree.head.obj != null && CycleReachable(g, r)
    ensures ret ==>
              && FirstHit(g, r, {}, h) && |h| >= 2 && h[|h| - 2] in u.at && Last(h) in u.at
              && |tree.stack| >= 2 && tree.stack[0] == u.at[Last(h)] && tree.stack[1] == u.at[h[|h| - 2]]
              && tree.stack[1] in u.objs && tree.stack[0] in u.objs && tree.stack[1].kind == Seq
  {
    hide Hit, Hits, FirstHit, CycleReachable, IsPath, Reaches, LinkGraph, ClosedUnder, Closed, Unwound;
    tree.stack := [];
    ret, h := ItemCircular(tree, tree.head, u, g, {});
    assert Entered(u) == {} && LinkGraph(u) == g;
    HitsIsCycle(g, r);
    if ret {
      SecondOnStack(u, g, r, h);
    }
  }

  /** One round: search, and kill the link that closes the cycle found. */
  method CheckRound(tree: Tree, ghost u: Universe, ghost g: Graph, ghost r: nat) returns (ret: bool, ghost h: seq<nat>)
    requires ClosedUnder(u) && Entered(u) == {} && g == LinkGraph(u)
    requires tree.head != null && tree.head.obj != null ==> tree.head.obj in u.objs && tree.head.obj.key == r
    modifies u.objs`enter, u.objs`nodes, tree`stack, tree`errors
    ensures ClosedUnder(u) && Entered(u) == {}
    ensures ret <==> tree.head != null && tree.head.obj != null && CycleReachable(g, r)
    ensures !ret ==> LinkGraph(u) == g && tree.errors == old(tree.errors) && forall x :: x in u.objs ==> x.nodes == old(x.nodes)
    ensures ret ==>
              && FirstHit(g, r, {}, h) && |h| >= 2 && h[|h| - 2] in u.at && Last(h) in u.at && h[|h| - 2] in g
              && LinkGraph(u) == Cut(g, h[|h| - 2], Last(h))
              && tree.errors == old(tree.errors) + [CircularLink(u.at[h[|h| - 2]].name, u.at[Last(h)].name)]
  {
    hide FirstHit, CycleReachable, Cut, Children;
    ret, h := Search(tree, u, g, r);
    if ret {
      var o, target := tree.stack[1], tree.stack[0];
      tree.errors := tree.errors + [CircularLink(o.name, target.name)];
      KillLink(o, target, u, g);
    }
  }

  /** When no node is linked to twice, one cut is enough: it drops the only link to the root. */
  lemma OneCut(g: Graph, r: nat, h: seq<nat>)
    requires InDegreeOne(g) && FirstHit(g, r, {}, h) && |h| >= 2
    ensures Last(h) == r
    ensures !CycleReachable(Cut(g, h[|h| - 2], r), r)
  {
    FirstHitIsRoot(g, r, h);
    CutEdgeOnCycle(g, r, h);
    CycleIsRootLink(Cut(g, h[|h| - 2], r), r);
  }

  method CheckCircular(tree: Tree, ghost u: Universe) returns (ghost cuts: seq<(nat, nat)>)
    requires ClosedUnder(u) && Entered(u) == {}
    requires tree.head != null && tree.head.obj != null ==> tree.head.obj in u.objs
    modifies u.objs`enter, u.objs`nodes, tree`stack, tree`errors
    ensures ClosedUnder(u) && Entered(u) == {}
    ensures old(tree.errors) <= tree.errors && Reported(u, cuts, tree.errors[|old(tree.errors)|..])
    ensures tree.head == null || tree.head.obj == null ==> cuts == []
    ensures tree.head != null && tree.head.obj != null ==>
              && !CycleReachable(LinkGraph(u), tree.head.obj.key)
              && Repaired(old(LinkGraph(u)), LinkGraph(u), tree.head.obj.key, cuts)
    ensures cuts == [] ==> forall x :: x in u.objs ==> x.nodes == old(x.nodes)
    ensures cuts != [] ==> tree.head != null && tree.head.obj != null && CycleReachable(old(LinkGraph(u)), tree.head.obj.key)
    ensures tree.head != null && tree.head.obj != null && InDegreeOne(old(LinkGraph(u))) ==>
              |cuts| <= 1 && (cuts != [] ==> cuts[0].1 == tree.head.obj.key)
  {
    hide FirstHit, CycleReachable, Children, SlotsOf, ClosedUnder, Cut, Edges, Repaired, Reported, InDegreeOne;
    ghost var g0, g, n := LinkGraph(u), LinkGraph(u), |tree.errors|;
    ghost var rooted := tree.head != null && tree.head.obj != null;
    ghost var r := if rooted then tree.head.obj.key else 0;
    cuts := [];
    RepairStart(u, g0, r);
    assert tree.errors[n..] == [];
    var ret := true;
    while ret
      invariant ClosedUnder(u) && Entered(u) == {} && g == LinkGraph(u)
      invariant old(tree.errors) <= tree.errors && Reported(u, cuts, tree.errors[n..])
      invariant !rooted ==> cuts == []
      invariant Repaired(g0, g, r, cuts)
      invariant rooted && !ret ==> !CycleReachable(g, r)
      invariant cuts == [] ==> forall x :: x in u.objs ==> x.nodes == old(x.nodes)
      invariant InDegreeOne(g0) ==>
                  |cuts| <= 1 && (cuts != [] ==> cuts[0].1 == r && !CycleReachable(g, r))
      invariant if cuts == [] then g == g0 else CycleReachable(g0, r)
      decreases ret, |Edges(g)|
    {
      ghost var h, before;
      before := tree.errors;
      ret, h := CheckRound(tree, u, g, r);
      if ret {
        RepairStep(g0, g, r, cuts, h);
        if InDegreeOne(g0) {
          OneCut(g, r, h);
        }
        ReportStep(u, cuts, before[n..], h[|h| - 2], Last(h));
        assert tree.errors[n..] == before[n..] + [tree.errors[|before|]];
        g, cuts := Cut(g, h[|h| - 2], Last(h)), cuts + [(h[|h| - 2], Last(h))];
      }
    }
  }
}
