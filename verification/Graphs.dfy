/**
  Finite directed graphs on node keys, as the link checks of a test tree see them:
  paths, reachability, cycles, and what cutting one edge does to them.
 */
module Graphs {

  type Graph = map<nat, set<nat>>

  ghost predicate Closed(g: Graph) {
    forall v, c :: v in g && c in g[v] ==> c in g
  }

  ghost predicate IsPath(g: Graph, p: seq<nat>) {
    && |p| > 0
    && (forall i :: 0 <= i < |p| ==> p[i] in g)
    && (forall i, j :: 0 <= i && j == i + 1 < |p| ==> p[j] in g[p[i]])
  }

  function Last(p: seq<nat>): nat
    requires |p| > 0
  {
    p[|p| - 1]
  }

  function Front(p: seq<nat>): seq<nat>
    requires |p| > 0
  {
    p[..|p| - 1]
  }

  ghost predicate Distinct<T>(p: seq<T>) {
    forall i, j :: 0 <= i < j < |p| ==> p[i] != p[j]
  }

  /** `x` can be reached from `r`. */
  ghost predicate Reaches(g: Graph, r: nat, x: nat) {
    exists p :: IsPath(g, p) && p[0] == r && Last(p) == x
  }

  /** Some node reachable from `r` lies on a cycle. */
  ghost predicate CycleReachable(g: Graph, r: nat) {
    exists x, q :: Reaches(g, r, x) && OnCycle(g, x, q)
  }

  ghost predicate OnCycle(g: Graph, x: nat, q: seq<nat>) {
    IsPath(g, q) && |q| >= 2 && q[0] == x && Last(q) == x
  }

  /** A path from `o` runs into one of the nodes `entered`, or into itself. */
  ghost predicate Hits(g: Graph, o: nat, entered: set<nat>) {
    exists p :: Hit(g, o, entered, p)
  }

  ghost predicate Hit(g: Graph, o: nat, entered: set<nat>, p: seq<nat>) {
    IsPath(g, p) && p[0] == o && (Last(p) in entered || Last(p) in Front(p))
  }

  /** A hit found by depth first search: nothing is met twice before the last node. */
  ghost predicate FirstHit(g: Graph, o: nat, entered: set<nat>, p: seq<nat>) {
    && Hit(g, o, entered, p)
    && Distinct(Front(p))
    && (forall i :: 0 <= i < |p| - 1 ==> p[i] !in entered)
  }

  lemma PathPrefix(g: Graph, p: seq<nat>, n: nat)
    requires IsPath(g, p) && 0 < n <= |p|
    ensures IsPath(g, p[..n]) && p[..n][0] == p[0] && Last(p[..n]) == p[n - 1]
  {
    var q := p[..n];
  }

  lemma PathSuffix(g: Graph, p: seq<nat>, n: nat)
    requires IsPath(g, p) && n < |p|
    ensures IsPath(g, p[n..]) && p[n..][0] == p[n] && Last(p[n..]) == Last(p)
  {
    var q := p[n..];
    assert forall i :: 0 <= i < |q| ==> q[i] == p[n + i];
  }

  /** Two paths sharing the joining node make one path. */
  lemma PathJoin(g: Graph, p: seq<nat>, q: seq<nat>)
    requires IsPath(g, p) && IsPath(g, q) && Last(p) == q[0]
    ensures IsPath(g, p + q[1..])
    ensures (p + q[1..])[0] == p[0] && Last(p + q[1..]) == Last(q)
  {
    var r := p + q[1..];
    forall i, j | 0 <= i && j == i + 1 < |r|
      ensures r[j] in g[r[i]]
    {
      if j < |p| {
        assert r[j] == p[j] && r[i] == p[i];
      } else {
        assert r[j] == q[j - |p| + 1] && r[i] == q[i - |p| + 1];
      }
    }
  }

  /** The search unfolds one level: the children of `o` are searched with `o` entered. */
  lemma HitsStep(g: Graph, o: nat, entered: set<nat>)
    requires Closed(g) && o in g && o !in entered
    ensures Hits(g, o, entered) <==> exists c :: c in g[o] && Hits(g, c, entered + {o})
  {
    if Hits(g, o, entered) {
      var p :| Hit(g, o, entered, p);
      assert |p| >= 2;
      var q := p[1..];
      PathSuffix(g, p, 1);
      assert forall i :: 0 < i < |p| - 1 ==> p[i] == Front(q)[i - 1];
      assert Hit(g, p[1], entered + {o}, q);
    }
    forall c | c in g[o] && Hits(g, c, entered + {o})
      ensures Hits(g, o, entered)
    {
      var q :| Hit(g, c, entered + {o}, q);
      HitExtend(g, o, c, entered, q);
    }
  }

  lemma HitsNow(g: Graph, o: nat, entered: set<nat>)
    requires o in g && o in entered
    ensures Hits(g, o, entered) && FirstHit(g, o, entered, [o])
  {
    assert Hit(g, o, entered, [o]);
  }

  lemma HitExtend(g: Graph, o: nat, c: nat, entered: set<nat>, q: seq<nat>)
    requires o in g && o !in entered && c in g[o] && Hit(g, c, entered + {o}, q)
    ensures Hit(g, o, entered, [o] + q)
  {
    var p := [o] + q;
    assert IsPath(g, [o, c]);
    PathJoin(g, [o, c], q);
    assert p == [o, c] + q[1..];
    assert Front(p) == [o] + Front(q);
  }

  lemma FirstHitExtend(g: Graph, o: nat, c: nat, entered: set<nat>, q: seq<nat>)
    requires o in g && o !in entered && c in g[o] && FirstHit(g, c, entered + {o}, q)
    ensures FirstHit(g, o, entered, [o] + q)
  {
    HitExtend(g, o, c, entered, q);
    assert Front([o] + q) == [o] + Front(q);
  }

  /** Starting with nothing entered, a hit is exactly a reachable cycle. */
  lemma HitsIsCycle(g: Graph, r: nat)
    ensures Hits(g, r, {}) <==> CycleReachable(g, r)
  {
    if Hits(g, r, {}) {
      var p :| Hit(g, r, {}, p);
      var k :| 0 <= k < |p| - 1 && p[k] == Last(p);
      PathPrefix(g, p, k + 1);
      PathSuffix(g, p, k);
      assert Reaches(g, r, p[k]) && OnCycle(g, p[k], p[k..]);
    }
    if CycleReachable(g, r) {
      var x, q :| Reaches(g, r, x) && OnCycle(g, x, q);
      var p :| IsPath(g, p) && p[0] == r && Last(p) == x;
      PathJoin(g, p, q);
      var t := p + q[1..];
      assert t[|p| - 1] == x && t[|p| - 1] in Front(t);
      assert Hit(g, r, {}, t);
    }
  }

  // ----- cutting the edge that closes a cycle -----

  function Cut(g: Graph, u: nat, v: nat): Graph
    requires u in g
  {
    g[u := g[u] - {v}]
  }

  function Edges(g: Graph): set<(nat, nat)> {
    set v, c | v in g && c in g[v] :: (v, c)
  }

  lemma CutEdges(g: Graph, u: nat, v: nat)
    requires u in g && v in g[u]
    ensures Edges(Cut(g, u, v)) == Edges(g) - {(u, v)} && (u, v) in Edges(g)
    ensures |Edges(Cut(g, u, v))| == |Edges(g)| - 1
  {
    forall e
      ensures e in Edges(Cut(g, u, v)) <==> e in Edges(g) - {(u, v)}
    {
    }
  }

  lemma PathInCut(g: Graph, u: nat, v: nat, p: seq<nat>)
    requires u in g && IsPath(g, p)
    requires forall i, j :: 0 <= i && j == i + 1 < |p| ==> !(p[i] == u && p[j] == v)
    ensures IsPath(Cut(g, u, v), p)
  {
  }

  lemma PathOutOfCut(g: Graph, u: nat, v: nat, p: seq<nat>)
    requires u in g && IsPath(Cut(g, u, v), p)
    ensures IsPath(g, p)
  {
  }

  /** Cutting the edge by which a search runs back into its own path loses no node. */
  lemma {:induction false} CutKeepsReachable(g: Graph, r: nat, h: seq<nat>, x: nat)
    requires FirstHit(g, r, {}, h) && |h| >= 2
    ensures Reaches(g, r, x) <==> Reaches(Cut(g, h[|h| - 2], Last(h)), r, x)
  {
    var u, v := h[|h| - 2], Last(h);
    var g' := Cut(g, u, v);
    if Reaches(g, r, x) {
      var p :| IsPath(g, p) && p[0] == r && Last(p) == x;
      ReachAfterCut(g, r, h, p);
    }
    if Reaches(g', r, x) {
      var p :| IsPath(g', p) && p[0] == r && Last(p) == x;
      PathOutOfCut(g, u, v, p);
    }
  }

  lemma {:induction false} ReachAfterCut(g: Graph, r: nat, h: seq<nat>, p: seq<nat>)
    requires FirstHit(g, r, {}, h) && |h| >= 2 && IsPath(g, p) && p[0] == r
    ensures Reaches(Cut(g, h[|h| - 2], Last(h)), r, Last(p))
  {
    var u, v := h[|h| - 2], Last(h);
    var g' := Cut(g, u, v);
    if |p| == 1 {
      assert IsPath(g', p);
    } else {
      var n := |p| - 1;
      var q := p[..n];
      PathPrefix(g, p, n);
      ReachAfterCut(g, r, h, q);
      if p[n - 1] == u && p[n] == v {
        // v was on the search path already: take that way instead
        var k :| 0 <= k < |h| - 1 && h[k] == v;
        PathPrefix(g, h, k + 1);
        var s := h[..k + 1];
        assert forall i :: 0 <= i < |s| ==> s[i] == Front(h)[i];
        PathInCut(g, u, v, s);
      } else {
        var w :| IsPath(g', w) && w[0] == r && Last(w) == Last(q);
        assert IsPath(g', [p[n - 1], p[n]]);
        PathJoin(g', w, [p[n - 1], p[n]]);
      }
    }
  }

  /** The edge cut closes a cycle. */
  lemma CutEdgeOnCycle(g: Graph, r: nat, h: seq<nat>)
    requires FirstHit(g, r, {}, h) && |h| >= 2
    ensures Last(h) in g[h[|h| - 2]] && Reaches(g, Last(h), h[|h| - 2])
  {
    var k :| 0 <= k < |h| - 1 && h[k] == Last(h);
    PathPrefix(g, h, |h| - 1);
    var f := h[..|h| - 1];
    PathSuffix(g, f, k);
    assert f[k..][0] == Last(h) && Last(f[k..]) == h[|h| - 2];
  }

  ghost predicate Subgraph(g: Graph, g0: Graph) {
    g.Keys == g0.Keys && forall v :: v in g ==> g[v] <= g0[v]
  }

  lemma SubgraphReaches(g: Graph, g0: Graph, a: nat, b: nat)
    requires Subgraph(g, g0) && Reaches(g, a, b)
    ensures Reaches(g0, a, b)
  {
    var p :| IsPath(g, p) && p[0] == a && Last(p) == b;
    assert IsPath(g0, p);
  }

  // ----- graphs in which no node is linked to from two nodes -----

  ghost predicate InDegreeOne(g: Graph) {
    forall x, y, c :: x in g && y in g && c in g[x] && c in g[y] ==> x == y
  }

  /** When no node is linked to twice, a path can only run back into its first node. */
  lemma {:induction false} RunsBackToStart(g: Graph, p: seq<nat>, k: nat)
    requires InDegreeOne(g) && IsPath(g, p) && k < |p| - 1 && p[k] == Last(p)
    ensures exists i :: 0 <= i < |p| - 1 && p[0] in g[p[i]]
  {
    if k > 0 {
      PathPrefix(g, p, |p| - 1);
      RunsBackToStart(g, Front(p), k - 1);
      var i :| 0 <= i < |Front(p)| - 1 && Front(p)[0] in g[Front(p)[i]];
      assert p[0] in g[p[i]];
    } else {
      assert p[0] in g[p[|p| - 2]];
    }
  }

  /** Then a cycle can be reached from `r` exactly when a node reachable from `r` links to `r`. */
  lemma CycleIsRootLink(g: Graph, r: nat)
    requires InDegreeOne(g)
    ensures CycleReachable(g, r) <==> exists x :: x in g && Reaches(g, r, x) && r in g[x] && r in g
  {
    if CycleReachable(g, r) {
      HitsIsCycle(g, r);
      var p :| Hit(g, r, {}, p);
      var k :| 0 <= k < |p| - 1 && p[k] == Last(p);
      RunsBackToStart(g, p, k);
      var i :| 0 <= i < |p| - 1 && p[0] in g[p[i]];
      PathPrefix(g, p, i + 1);
      assert Reaches(g, r, p[i]);
    }
    if x :| x in g && Reaches(g, r, x) && r in g[x] && r in g {
      var p :| IsPath(g, p) && p[0] == r && Last(p) == x;
      assert IsPath(g, [x, r]);
      PathJoin(g, p, [x, r]);
      assert OnCycle(g, r, p + [x, r][1..]);
      assert IsPath(g, [r]);
      assert Reaches(g, r, r);
    }
  }

  lemma SamePredecessor(g: Graph, p: seq<nat>, k: nat)
    requires InDegreeOne(g) && IsPath(g, p) && 0 < k < |p| - 1 && p[k] == Last(p)
    ensures p[k - 1] == p[|p| - 2]
  {
  }

  /** Then a depth first search from `r` runs back into `r` itself. */
  lemma {:induction false} FirstHitIsRoot(g: Graph, r: nat, h: seq<nat>)
    requires InDegreeOne(g) && FirstHit(g, r, {}, h)
    ensures Last(h) == r
  {
    var k :| 0 <= k < |h| - 1 && h[k] == Last(h);
    assert forall i :: 0 <= i < |Front(h)| ==> Front(h)[i] == h[i];
    if k > 0 {
      SamePredecessor(g, h, k);
    }
  }
}
