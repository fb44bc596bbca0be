/**
  From links to a tree: when no node is linked to twice and nothing links to the root,
  the part below the root is a tree in which every node occurs once.
 */
module Unfolding {
  import opened Graphs
  import opened Shapes

  /** No node is linked to twice, and nothing links to the root. */
  ghost predicate Treelike(f: Links, root: nat) {
    && root in f
    && (forall x, i :: x in f && 0 <= i < |f[x]| ==> f[x][i] in f && f[x][i] != root)
    && (forall x, i, y, j :: x in f && y in f && 0 <= i < |f[x]| && 0 <= j < |f[y]| && f[x][i] == f[y][j] ==> x == y && i == j)
  }

  ghost predicate Chain(f: Links, root: nat, p: seq<nat>) {
    && |p| > 0 && p[0] == root
    && (forall i :: 0 <= i < |p| ==> p[i] in f)
    && (forall i, j :: 0 <= i && j == i + 1 < |p| ==> p[j] in f[p[i]])
  }

  /** There is only one way down from the root to a node. */
  lemma {:induction false} ChainUnique(f: Links, root: nat, p: seq<nat>, q: seq<nat>)
    requires Treelike(f, root) && Chain(f, root, p) && Chain(f, root, q) && Last(p) == Last(q)
    ensures p == q && |p| == |q|
  {
    LinkedNotRoot(f, root, p);
    LinkedNotRoot(f, root, q);
    if |p| > 1 && |q| > 1 {
      var a, b := p[|p| - 2], q[|q| - 2];
      var i :| 0 <= i < |f[a]| && f[a][i] == Last(p);
      var j :| 0 <= j < |f[b]| && f[b][j] == Last(q);
      ChainUnique(f, root, Front(p), Front(q));
      assert p == Front(p) + [Last(p)] && q == Front(q) + [Last(q)];
    }
  }

  lemma LinkedNotRoot(f: Links, root: nat, p: seq<nat>)
    requires Treelike(f, root) && Chain(f, root, p)
    ensures |p| > 1 ==> Last(p) != root
  {
    if |p| > 1 {
      assert Last(p) in f[p[|p| - 2]];
    }
  }

  lemma SameStep(p: seq<nat>, a: nat, b: nat, q: seq<nat>)
    requires p + [a] <= q && p + [b] <= q
    ensures a == b
  {
    assert q[|p|] == (p + [a])[|p|] == (p + [b])[|p|];
  }

  lemma {:induction false} ChainDistinct(f: Links, root: nat, p: seq<nat>)
    requires Treelike(f, root) && Chain(f, root, p)
    ensures Distinct(p) && |p| <= |f|
  {
    forall i, j | 0 <= i < j < |p|
      ensures p[i] != p[j]
    {
      if p[i] == p[j] {
        ChainUnique(f, root, p[..i + 1], p[..j + 1]);
      }
    }
    DistinctCount(p, f.Keys);
  }

  lemma {:induction false} DistinctCount(p: seq<nat>, s: set<nat>)
    requires Distinct(p) && forall x :: x in p ==> x in s
    ensures |p| <= |s|
  {
    if p != [] {
      assert p == Front(p) + [Last(p)];
      DistinctCount(Front(p), s - {Last(p)});
    }
  }

  /** The tree below the last node of a chain. */
  function Unfold(f: Links, root: nat, p: seq<nat>): (t: Node)
    requires Treelike(f, root) && Chain(f, root, p)
    ensures t.key == Last(p)
    decreases |f| - |p|, 1
  {
    ChainDistinct(f, root, p);
    Node(Last(p), UnfoldAll(f, root, p, 0))
  }

  function UnfoldAll(f: Links, root: nat, p: seq<nat>, i: nat): (ts: seq<Node>)
    requires Treelike(f, root) && Chain(f, root, p) && i <= |f[Last(p)]| && |p| <= |f|
    ensures Keys(ts) == f[Last(p)][i..]
    decreases |f| - |p|, 0, |f[Last(p)]| - i
  {
    if i == |f[Last(p)]| then [] else
      var q := p + [f[Last(p)][i]];
      ChainDistinct(f, root, q);
      [Unfold(f, root, q)] + UnfoldAll(f, root, p, i + 1)
  }

  lemma {:induction false} UnfoldUnfolds(f: Links, root: nat, p: seq<nat>)
    requires Treelike(f, root) && Chain(f, root, p)
    ensures Unfolds(f, Unfold(f, root, p))
    decreases |f| - |p|, 1
  {
    ChainDistinct(f, root, p);
    UnfoldAllUnfolds(f, root, p, 0);
  }

  lemma {:induction false} UnfoldAllUnfolds(f: Links, root: nat, p: seq<nat>, i: nat)
    requires Treelike(f, root) && Chain(f, root, p) && i <= |f[Last(p)]| && |p| <= |f|
    ensures forall k :: k in UnfoldAll(f, root, p, i) ==> Unfolds(f, k)
    decreases |f| - |p|, 0, |f[Last(p)]| - i
  {
    if i < |f[Last(p)]| {
      var q := p + [f[Last(p)][i]];
      ChainDistinct(f, root, q);
      UnfoldUnfolds(f, root, q);
      UnfoldAllUnfolds(f, root, p, i + 1);
    }
  }

  /** Every node of the unfolded tree is reached by a chain through the node unfolded. */
  lemma {:induction false} UnfoldChains(f: Links, root: nat, p: seq<nat>, x: nat)
    requires Treelike(f, root) && Chain(f, root, p)
    requires x in Preorder(Unfold(f, root, p))
    ensures exists q :: Chain(f, root, q) && p <= q && Last(q) == x
    decreases |f| - |p|, 1
  {
    ChainDistinct(f, root, p);
    if x != Last(p) {
      UnfoldAllChains(f, root, p, 0, x);
    }
  }

  lemma {:induction false} UnfoldAllChains(f: Links, root: nat, p: seq<nat>, i: nat, x: nat)
    requires Treelike(f, root) && Chain(f, root, p) && i <= |f[Last(p)]| && |p| <= |f|
    requires x in PreorderAll(UnfoldAll(f, root, p, i))
    ensures exists q, j :: Chain(f, root, q) && i <= j < |f[Last(p)]| && p + [f[Last(p)][j]] <= q && Last(q) == x
    decreases |f| - |p|, 0, |f[Last(p)]| - i
  {
    var q := p + [f[Last(p)][i]];
    ChainDistinct(f, root, q);
    if x in Preorder(Unfold(f, root, q)) {
      UnfoldChains(f, root, q, x);
    } else {
      UnfoldAllChains(f, root, p, i + 1, x);
    }
  }

  /** No node occurs twice in the unfolded tree. */
  lemma {:induction false} UnfoldDistinct(f: Links, root: nat, p: seq<nat>)
    requires Treelike(f, root) && Chain(f, root, p)
    ensures Distinct(Preorder(Unfold(f, root, p)))
    decreases |f| - |p|, 1
  {
    ChainDistinct(f, root, p);
    UnfoldAllDistinct(f, root, p, 0);
    var ts := UnfoldAll(f, root, p, 0);
    if Last(p) in PreorderAll(ts) {
      UnfoldAllChains(f, root, p, 0, Last(p));
      var q, j :| Chain(f, root, q) && 0 <= j < |f[Last(p)]| && p + [f[Last(p)][j]] <= q && Last(q) == Last(p);
      ChainUnique(f, root, p, q);
    }
    DistinctConcat([Last(p)], PreorderAll(ts));
  }

  lemma {:induction false} UnfoldAllDistinct(f: Links, root: nat, p: seq<nat>, i: nat)
    requires Treelike(f, root) && Chain(f, root, p) && i <= |f[Last(p)]| && |p| <= |f|
    ensures Distinct(PreorderAll(UnfoldAll(f, root, p, i)))
    decreases |f| - |p|, 0, |f[Last(p)]| - i
  {
    if i < |f[Last(p)]| {
      var q := p + [f[Last(p)][i]];
      ChainDistinct(f, root, q);
      UnfoldDistinct(f, root, q);
      UnfoldAllDistinct(f, root, p, i + 1);
      var a, b := Preorder(Unfold(f, root, q)), PreorderAll(UnfoldAll(f, root, p, i + 1));
      forall x | x in a
        ensures x !in b
      {
        if x in b {
          UnfoldChains(f, root, q, x);
          UnfoldAllChains(f, root, p, i + 1, x);
          var q1 :| Chain(f, root, q1) && q <= q1 && Last(q1) == x;
          var q2, j :| Chain(f, root, q2) && i + 1 <= j < |f[Last(p)]| && p + [f[Last(p)][j]] <= q2 && Last(q2) == x;
          ChainUnique(f, root, q1, q2);
          SameStep(p, f[Last(p)][i], f[Last(p)][j], q1);
        }
      }
      DistinctConcat(a, b);
    }
  }
}
