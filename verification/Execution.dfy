/**
  The threading of a linked tree, and the step from one executed test case to the next
  (core/codegen/codegen_tree.c).
 */
module Execution {
  import opened Graphs
  import opened Shapes
  import opened TestTree
  import opened LinkPhase
  import opened CircularLinks
  import opened Unfolding
  import opened TreeLoad

  /** The object pointer that stands for a node. */
  ghost predicate Denotes(u: Universe, o: TreeObject?, n: Option<Node>) {
    match n
    case None => o == null
    case Some(t) => t.key in u.at && o == u.at[t.key]
  }

  ghost predicate ThreadedAt(u: Universe, k: nat, j: Jump)
    reads u.objs`endJump, u.objs`breakJump
  {
    && k in u.at && u.at[k] in u.objs
    && Denotes(u, u.at[k].endJump, j.end)
    && Denotes(u, u.at[k].breakJump, j.brk)
  }

  ghost predicate Threaded(u: Universe, jumps: map<nat, Jump>)
    reads u.objs`endJump, u.objs`breakJump
  {
    forall k :: k in jumps ==> ThreadedAt(u, k, jumps[k])
  }

  // ----- jumps of one sibling among many -----

  function NextSibling(ts: seq<Node>, i: nat, end: Option<Node>): Option<Node>
    requires i < |ts|
  {
    if i + 1 < |ts| then Some(ts[i + 1]) else end
  }

  lemma {:induction false} SiblingJumps(ts: seq<Node>, end: Option<Node>, i: nat)
    requires Distinct(PreorderAll(ts)) && i < |ts|
    ensures Distinct(Preorder(ts[i]))
    ensures forall k :: k in Preorder(ts[i]) ==>
              && k in PreorderAll(ts)
              && k in JumpsAll(ts, end) && k in Jumps(ts[i], NextSibling(ts, i, end), end)
              && JumpsAll(ts, end)[k] == Jumps(ts[i], NextSibling(ts, i, end), end)[k]
  {
    DistinctParts(Preorder(ts[0]), PreorderAll(ts[1..]));
    JumpKeys(ts[i], NextSibling(ts, i, end), end);
    JumpKeysAll(ts[1..], end);
    if i > 0 {
      SiblingJumps(ts[1..], end, i - 1);
      assert ts[1..][i - 1] == ts[i];
      assert NextSibling(ts[1..], i - 1, end) == NextSibling(ts, i, end);
    }
  }

  lemma {:induction false} SiblingsApart(ts: seq<Node>, i: nat, j: nat)
    requires Distinct(PreorderAll(ts)) && i < j < |ts|
    ensures forall k :: k in Preorder(ts[i]) ==> k !in Preorder(ts[j])
  {
    DistinctParts(Preorder(ts[0]), PreorderAll(ts[1..]));
    if i > 0 {
      SiblingsApart(ts[1..], i - 1, j - 1);
    } else {
      SiblingJumps(ts[1..], None, j - 1);
    }
  }

  lemma {:induction false} PreorderSibling(ts: seq<Node>, k: nat) returns (i: nat)
    requires k in PreorderAll(ts)
    ensures i < |ts| && k in Preorder(ts[i])
  {
    if k in Preorder(ts[0]) {
      i := 0;
    } else {
      i := PreorderSibling(ts[1..], k);
      i := i + 1;
    }
  }

  // ----- threading -----

  ghost predicate TreeOf(u: Universe, f: Links, o: TreeObject, t: Node)
    reads u.objs`nodes, u.slots`obj
  {
    Realizes(u, f) && Unfolds(f, t) && Distinct(Preorder(t)) && o in u.objs && o.key == t.key
  }

  method ObjectLinkSeq(o: TreeObject, endJump: TreeObject?, breakJump: TreeObject?,
                       ghost u: Universe, ghost f: Links, ghost t: Node, ghost end: Option<Node>,
                         ghost brk: Option<Node>)
    requires TreeOf(u, f, o, t) && Denotes(u, endJump, end) && Denotes(u, breakJump, brk)
    modifies u.objs`endJump, u.objs`breakJump
    ensures Threaded(u, Jumps(t, end, brk))
    ensures forall x :: x in u.objs && x.key !in Preorder(t) ==>
              x.endJump == old(x.endJump) && x.breakJump == old(x.breakJump)
    decreases t, 1
  {
    hide Distinct, Unfolds;
    KidsDistinct(t);
    RootApart(t);
    JumpKeysAll(t.kids, end);
    ChildCount(u, f, o, t);
    o.endJump := endJump;
    o.breakJump := breakJump;
    if o.kind == Seq {
      SeqLinkSeq(o, endJump, u, f, t, end);
    } else {
      assert t.kids == [];
    }
  }

  lemma ChildNode(u: Universe, f: Links, o: TreeObject, t: Node, i: nat)
    requires TreeOf(u, f, o, t) && i < |t.kids|
    ensures WellKeyed(u) && |o.nodes| == |t.kids| && o.nodes[i] != null && o.nodes[i].obj != null
    ensures t.kids[i].key in u.at && o.nodes[i].obj == u.at[t.kids[i].key]
    ensures TreeOf(u, f, o.nodes[i].obj, t.kids[i])
  {
    DistinctParts([t.key], PreorderAll(t.kids));
    SiblingJumps(t.kids, None, i);
    assert o.nodes[i].obj == u.at[f[o.key][i]];
  }

  lemma ChildCount(u: Universe, f: Links, o: TreeObject, t: Node)
    requires TreeOf(u, f, o, t)
    ensures |o.nodes| == |t.kids| && (o.kind == Case <==> t.kids == [])
  {
  }

  lemma RootApart(t: Node)
    requires Distinct(Preorder(t))
    ensures t.key !in PreorderAll(t.kids)
  {
    DistinctParts([t.key], PreorderAll(t.kids));
  }

  /** The siblings before sibling `i` are threaded. */
  ghost predicate SiblingsThreaded(u: Universe, ts: seq<Node>, end: Option<Node>, i: nat)
    reads u.objs`endJump, u.objs`breakJump
    requires i <= |ts|
  {
    forall j, k :: 0 <= j < i && k in Preorder(ts[j]) ==> k in JumpsAll(ts, end) && ThreadedAt(u, k, JumpsAll(ts, end)[k])
  }

  method SiblingLinkSeq(o: TreeObject, endJump: TreeObject?, i: nat,
                        ghost u: Universe, ghost f: Links, ghost t: Node, ghost end: Option<Node>)
    requires TreeOf(u, f, o, t) && Denotes(u, endJump, end) && i < |o.nodes| == |t.kids|
    requires SiblingsThreaded(u, t.kids, end, i)
    modifies u.objs`endJump, u.objs`breakJump
    ensures SiblingsThreaded(u, t.kids, end, i + 1)
    ensures forall x :: x in u.objs && x.key !in PreorderAll(t.kids) ==>
              x.endJump == old(x.endJump) && x.breakJump == old(x.breakJump)
    decreases t, 0, 0
  {
    hide Preorder, PreorderAll, Jumps, JumpsAll, Distinct, Realizes, Unfolds;
    ghost var ts := t.kids;
    KidsDistinct(t);
    SiblingJumps(ts, end, i);
    ChildNode(u, f, o, t, i);
    if i + 1 < |ts| {
      ChildNode(u, f, o, t, i + 1);
    }
    var ej := if i < |o.nodes| - 1 then o.nodes[i + 1].obj else endJump;
    hide TreeOf, Denotes;
    ObjectLinkSeq(o.nodes[i].obj, ej, endJump, u, f, ts[i], NextSibling(ts, i, end), end);
    hide Threaded;
    forall j, k | 0 <= j < i + 1 && k in Preorder(ts[j])
      ensures k in JumpsAll(ts, end) && ThreadedAt(u, k, JumpsAll(ts, end)[k])
    {
      if j < i {
        SiblingsApart(ts, j, i);
        assert old(ThreadedAt(u, k, JumpsAll(ts, end)[k]));
      } else {
        ThreadedKey(u, Jumps(ts[i], NextSibling(ts, i, end), end), k);
      }
    }
  }

  lemma ThreadedKey(u: Universe, jumps: map<nat, Jump>, k: nat)
    requires Threaded(u, jumps) && k in jumps
    ensures ThreadedAt(u, k, jumps[k])
  {
  }

  lemma KidsDistinct(t: Node)
    requires Distinct(Preorder(t))
    ensures Distinct(PreorderAll(t.kids))
  {
    DistinctParts([t.key], PreorderAll(t.kids));
  }

  method SeqLinkSeq(o: TreeObject, endJump: TreeObject?, ghost u: Universe, ghost f: Links, ghost t: Node,
                    ghost end: Option<Node>)
    requires TreeOf(u, f, o, t) && Denotes(u, endJump, end)
    modifies u.objs`endJump, u.objs`breakJump
    ensures Threaded(u, JumpsAll(t.kids, end))
    ensures forall x :: x in u.objs && x.key !in PreorderAll(t.kids) ==>
              x.endJump == old(x.endJump) && x.breakJump == old(x.breakJump)
    decreases t, 0, 1
  {
    hide Preorder, PreorderAll, JumpsAll, Distinct, Unfolds;
    ChildCount(u, f, o, t);
    var i := 0;
    while i < |o.nodes|
      invariant 0 <= i <= |o.nodes| == |t.kids| && TreeOf(u, f, o, t)
      invariant SiblingsThreaded(u, t.kids, end, i)
      invariant forall x :: x in u.objs && x.key !in PreorderAll(t.kids) ==>
                  x.endJump == old(x.endJump) && x.breakJump == old(x.breakJump)
    {
      SiblingLinkSeq(o, endJump, i, u, f, t, end);
      i := i + 1;
    }
    forall k | k in JumpsAll(t.kids, end)
      ensures ThreadedAt(u, k, JumpsAll(t.kids, end)[k])
    {
      JumpKeysAll(t.kids, end);
      var j := PreorderSibling(t.kids, k);
    }
  }

  /** Jumps only lead to nodes of the tree. */
  lemma {:induction false} JumpsUnfold(f: Links, t: Node, end: Option<Node>, brk: Option<Node>)
    requires Unfolds(f, t)
    requires (end.Some? ==> Unfolds(f, end.value)) && (brk.Some? ==> Unfolds(f, brk.value))
    ensures forall k :: k in Jumps(t, end, brk) ==> JumpUnfolds(f, Jumps(t, end, brk)[k])
  {
    JumpsAllUnfold(f, t.kids, end);
  }

  ghost predicate JumpUnfolds(f: Links, j: Jump) {
    (j.end.Some? ==> Unfolds(f, j.end.value)) && (j.brk.Some? ==> Unfolds(f, j.brk.value))
  }

  lemma {:induction false} JumpsAllUnfold(f: Links, ts: seq<Node>, end: Option<Node>)
    requires forall t :: t in ts ==> Unfolds(f, t)
    requires end.Some? ==> Unfolds(f, end.value)
    ensures forall k :: k in JumpsAll(ts, end) ==> JumpUnfolds(f, JumpsAll(ts, end)[k])
  {
    if ts != [] {
      JumpsUnfold(f, ts[0], if |ts| > 1 then Some(ts[1]) else end, end);
      JumpsAllUnfold(f, ts[1..], end);
    }
  }

  // ----- from one test case to the next -----

  /** Seek the first test case at or below a node. */
  method Seek(branch: TreeObject?, ghost u: Universe, ghost f: Links, ghost n: Option<Node>) returns (next: TreeObject?)
    requires Realizes(u, f) && Denotes(u, branch, n) && (n.Some? ==> Unfolds(f, n.value))
    ensures next != null ==> next in u.objs && next.kind == Case
    ensures match Landing(n)
            case None => next == null
            case Some(k) => k in u.at && next == u.at[k]
  {
    next := branch;
    ghost var m := match n case None => Node(0, []) case Some(d) => d;
    while next != null && next.kind == Seq
      invariant n == None <==> next == null
      invariant n.Some? ==> Denotes(u, next, Some(m)) && Unfolds(f, m) && Landing(Some(m)) == Landing(n)
      decreases m
    {
      assert f[next.key] == Keys(m.kids);
      next := next.nodes[0].obj;
      m := m.kids[0];
    }
    if next != null {
      assert f[next.key] == Keys(m.kids);
    }
  }

  /** A tree with root `o`, linked, threaded and ready for execution. */
  ghost predicate Ready(u: Universe, f: Links, o: TreeObject, t: Node)
    reads u.objs`nodes, u.slots`obj, u.objs`endJump, u.objs`breakJump
  {
    TreeOf(u, f, o, t) && Threaded(u, Jumps(t, None, None))
  }

  /** Test case `x` is a child of `s`, whose test cases take the places from `lo` on. */
  ghost predicate HeldBy(t: Node, s: Node, lo: nat, x: nat) {
    && SubNode(t, s) && (exists k :: k in s.kids && k.key == x)
    && lo + |Leaves(s)| <= |Leaves(t)| && Leaves(t)[lo..lo + |Leaves(s)|] == Leaves(s)
  }

  /** The test case at a place of the execution order; none beyond the last one. */
  ghost predicate IsAt(u: Universe, t: Node, place: nat, o: TreeObject?) {
    if place < |Leaves(t)| then Leaves(t)[place] in u.at && o == u.at[Leaves(t)[place]] else o == null
  }

  /** A failure of a case that breaks leads to the first test case after all those of the sequence that holds it. */
  ghost predicate IsAfterHolder(u: Universe, t: Node, x: nat, o: TreeObject?) {
    if t.kids == [] then o == null
    else exists s, lo: nat :: HeldBy(t, s, lo, x) && IsAt(u, t, lo + |Leaves(s)|, o)
  }

  lemma {:induction false} KeyOfKid(ts: seq<Node>, x: nat)
    requires x in Keys(ts)
    ensures exists k :: k in ts && k.key == x
  {
    if ts[0].key == x {
      assert ts[0] in ts;
    } else {
      KeyOfKid(ts[1..], x);
      var k :| k in ts[1..] && k.key == x;
      assert k in ts;
    }
  }

  /** Where the two jumps of a test case lead. */
  lemma JumpsLead(u: Universe, t: Node, i: nat, o: TreeObject?)
    requires Distinct(Preorder(t)) && i < |Leaves(t)|
    ensures Leaves(t)[i] in Jumps(t, None, None)
    ensures var end := Landing(Jumps(t, None, None)[Leaves(t)[i]].end);
            (if end == None then o == null else end.value in u.at && o == u.at[end.value]) ==> IsAt(u, t, i + 1, o)
    ensures var brk := Landing(Jumps(t, None, None)[Leaves(t)[i]].brk);
            (if brk == None then o == null else brk.value in u.at && o == u.at[brk.value])
            ==> IsAfterHolder(u, t, Leaves(t)[i], o)
  {
    hide Distinct, Preorder, Jumps;
    EndLanding(t, None, None, i);
    if t.kids == [] {
      OnlyLeaf(t);
    } else {
      var s, lo := BreakLanding(t, None, None, i);
      KeyOfKid(s.kids, Leaves(t)[i]);
      assert HeldBy(t, s, lo, Leaves(t)[i]);
    }
  }

  /** The place that a break leads to is the one after all the test cases of the holder. */
  lemma BreakPlace(t: Node, i: nat)
    requires Distinct(Preorder(t)) && i < |Leaves(t)| && t.kids != []
    ensures exists s, lo: nat :: HeldBy(t, s, lo, Leaves(t)[i]) && NextPlace(t, i, Break) == lo + |Leaves(s)|
  {
    hide Preorder, Jumps, Leaves, SubNode;
    var s, lo := BreakLanding(t, None, None, i);
    KeyOfKid(s.kids, Leaves(t)[i]);
    LeavesDistinct(t);
    assert HeldBy(t, s, lo, Leaves(t)[i]);
    var j, k := NextPlace(t, i, Break), lo + |Leaves(s)|;
    assert After(Leaves(t), j, None) == After(Leaves(t), k, None);
  }

  lemma OnlyLeaf(t: Node)
    requires t.kids == []
    ensures Leaves(t) == [t.key] && t.key in Jumps(t, None, None) && Jumps(t, None, None)[t.key] == Jump(None, None)
  {
  }

  method ObjectExecuted(tobject: TreeObject?, verdict: Verdict, criticity: int,
                        ghost u: Universe, ghost f: Links, ghost root: TreeObject, ghost t: Node)
    returns (branch: TreeObject?)
    requires Ready(u, f, root, t)
    requires tobject != null && tobject.kind == Case ==> tobject in u.objs && tobject.key in Jumps(t, None, None)
    modifies (if tobject == null then {} else {tobject})`verdict
    modifies (if tobject == null then {} else {tobject})`verdictCriticity
    ensures tobject == null || tobject.kind != Case ==> branch == null
    ensures tobject != null && tobject.kind == Case ==>
              && tobject.verdict == verdict
              && tobject.verdictCriticity == (if criticity < 0 then tobject.criticity else criticity)
              && match Next(t, tobject.key, OutcomeOf(verdict, tobject.breakIfFailed, tobject.abortIfFailed))
                 case None => branch == null
                 case Some(k) => k in u.at && branch == u.at[k] && branch.kind == Case
    ensures forall i :: tobject != null && tobject.kind == Case && 0 <= i < |Leaves(t)| && Leaves(t)[i] == tobject.key ==>
              if (verdict == Failed || verdict == Inconclusive) && tobject.abortIfFailed then branch == null
              else if (verdict == Failed || verdict == Inconclusive) && tobject.breakIfFailed
              then IsAfterHolder(u, t, tobject.key, branch)
              else IsAt(u, t, i + 1, branch)
    ensures tobject != null && tobject.kind != Case ==>
              tobject.verdict == old(tobject.verdict) && tobject.verdictCriticity == old(tobject.verdictCriticity)
  {
    if tobject == null || tobject.kind != Case {
      return null;
    }
    hide Ready, IsAt, IsAfterHolder, Next;
    tobject.verdictCriticity := if criticity < 0 then tobject.criticity else criticity;
    tobject.verdict := verdict;
    branch := BranchOf(tobject, verdict, u, f, root, t);
  }

  lemma ObjectOfKey(u: Universe, f: Links, o: TreeObject)
    requires Realizes(u, f) && o in u.objs
    ensures o.key in u.at && u.at[o.key] == o
  {
  }

  /** The test case that a verdict leads to. */
  method BranchOf(tobject: TreeObject, verdict: Verdict, ghost u: Universe, ghost f: Links, ghost root: TreeObject, ghost t: Node)
    returns (branch: TreeObject?)
    requires Ready(u, f, root, t) && tobject.kind == Case && tobject in u.objs && tobject.key in Jumps(t, None, None)
    ensures match Next(t, tobject.key, OutcomeOf(verdict, tobject.breakIfFailed, tobject.abortIfFailed))
            case None => branch == null
            case Some(k) => k in u.at && branch == u.at[k] && branch.kind == Case
    ensures forall i :: 0 <= i < |Leaves(t)| && Leaves(t)[i] == tobject.key ==>
              if (verdict == Failed || verdict == Inconclusive) && tobject.abortIfFailed then branch == null
              else if (verdict == Failed || verdict == Inconclusive) && tobject.breakIfFailed
              then IsAfterHolder(u, t, tobject.key, branch)
              else IsAt(u, t, i + 1, branch)
  {
    hide Unfolds, Realizes, Jumps, Distinct, Preorder, IsAt, IsAfterHolder;
    ObjectOfKey(u, f, tobject);
    ghost var jump := Jumps(t, None, None)[tobject.key];
    JumpsUnfold(f, t, None, None);
    assert ThreadedAt(u, tobject.key, jump);
    branch := tobject.endJump;
    ghost var n := jump.end;
    if verdict == Failed || verdict == Inconclusive {
      if tobject.abortIfFailed {
        branch, n := null, None;
      } else if tobject.breakIfFailed {
        branch, n := tobject.breakJump, jump.brk;
      }
    }
    branch := Seek(branch, u, f, n);
    forall i | 0 <= i < |Leaves(t)| && Leaves(t)[i] == tobject.key
      ensures if (verdict == Failed || verdict == Inconclusive) && tobject.abortIfFailed then branch == null
              else if (verdict == Failed || verdict == Inconclusive) && tobject.breakIfFailed
              then IsAfterHolder(u, t, tobject.key, branch)
              else IsAt(u, t, i + 1, branch)
    {
      JumpsLead(u, t, i, branch);
    }
  }

  // ----- loading -----

  /** Every object knows the sequence that holds it; the root is held by none. */
  ghost predicate Family(u: Universe, f: Links, root: TreeObject)
    reads u.objs`parentSeq
  {
    && WellKeyed(u) && f.Keys == u.at.Keys && root in u.objs && root.parentSeq == null
    && (forall o, c :: o in u.objs && c in f[o.key] ==> c in u.at && u.at[c].parentSeq == o)
  }

  /** The objects of the table are those of the tree, all of them can be reached, and no key is 0. */
  ghost predicate WholeTable(table: seq<TreeObject>, u: Universe, t: Node) {
    && (forall o :: o in u.objs ==> o in table)
    && (forall o :: o in table ==> o in u.objs && o.key != 0 && o.key in Preorder(t))
  }

  /** What a slot links to knows its holder. */
  /** The sequence that holds a test case in the tree is its parent. */
  lemma HolderIsParent(u: Universe, f: Links, root: TreeObject, t: Node, s: Node, lo: nat, x: nat)
    requires Family(u, f, root) && Unfolds(f, t) && HeldBy(t, s, lo, x)
    ensures s.key in u.at && x in u.at && u.at[x].parentSeq == u.at[s.key]
  {
    hide Leaves;
    SubNodeUnfolds(f, t, s);
    var k :| k in s.kids && k.key == x;
    var i :| 0 <= i < |s.kids| && s.kids[i] == k;
    assert f[s.key][i] == x;
    assert u.at[s.key] in u.objs;
  }

  lemma {:induction false} SubNodeUnfolds(f: Links, t: Node, s: Node)
    requires Unfolds(f, t) && SubNode(t, s)
    ensures Unfolds(f, s)
  {
    if s != t {
      var k :| k in t.kids && SubNode(k, s);
      SubNodeUnfolds(f, k, s);
    }
  }

  lemma LinkParent(sc: Scan, u: Universe, a: int, c: nat)
    requires ValidScan(sc) && |sc.objs| == |sc.items| == |sc.slots| && u == UniverseOf(sc) && Linked(sc)
             && WellReferred(sc)
    requires 0 <= a < |sc.objs| && c in LinksOf(sc)[sc.objs[a].key]
    ensures c in u.at && u.at[c].parentSeq == sc.objs[a]
  {
    hide ValidScan, WellReferred, Linked, TargetKeys, LinksOf, UniverseOf;
    UniverseIs(sc, u);
    var i :| 0 <= i < |LinksOf(sc)[sc.objs[a].key]| && LinksOf(sc)[sc.objs[a].key][i] == c;
    LinkTarget(sc, a, i);
    AllFirst(sc, a, i);
    SlotObject(sc, a, i);
    var o := sc.objs[Target(sc, a, i)];
    assert o in u.objs && o.key == c;
  }

  lemma LinkedFamily(sc: Scan, u: Universe, h: nat)
    requires ValidScan(sc) && |sc.objs| == |sc.items| == |sc.slots| && u == UniverseOf(sc) && Linked(sc)
             && WellReferred(sc)
    requires h < |sc.items| && sc.head == sc.items[h]
    ensures Family(u, LinksOf(sc), sc.objs[h])
  {
    hide ValidScan, WellReferred, Linked, TargetKeys, LinksOf, UniverseOf;
    UniverseIs(sc, u);
    forall o, c | o in u.objs && c in LinksOf(sc)[o.key]
      ensures c in u.at && u.at[c].parentSeq == o
    {
      var a :| 0 <= a < |sc.objs| && sc.objs[a] == o;
      LinkParent(sc, u, a, c);
    }
    RootUnreferred(sc, h);
    LinkedKeys(sc, u);
  }

  lemma LinkedKeys(sc: Scan, u: Universe)
    requires ValidScan(sc) && |sc.objs| == |sc.items| == |sc.slots| && u == UniverseOf(sc) && WellReferred(sc)
    ensures LinksOf(sc).Keys == u.at.Keys
  {
    hide ValidScan, WellReferred, TargetKeys, UniverseOf, LinksOf;
    UniverseIs(sc, u);
  }

  lemma RootUnreferred(sc: Scan, h: nat)
    requires ValidScan(sc) && |sc.objs| == |sc.items| == |sc.slots| && Linked(sc) && WellReferred(sc)
    requires h < |sc.items| && sc.head == sc.items[h]
    ensures sc.objs[h].parentSeq == null
  {
    assert !Referred(sc, h, |sc.items|, 0);
  }

  /** The tree that the links of a sound tree unfold to. */
  lemma SoundTree(tree: Tree, sc: Scan, u: Universe) returns (t: Node)
    requires Table(tree, sc) && |sc.objs| == |sc.items| == |sc.slots|
    requires ValidScan(sc) && u == UniverseOf(sc) && Linked(sc) && Sound(sc)
    ensures WellReferred(sc) && tree.head == sc.head
    ensures sc.head != null && sc.head.obj != null && sc.head.obj in u.objs
    ensures Treelike(LinksOf(sc), sc.head.obj.key)
    ensures TreeOf(u, LinksOf(sc), sc.head.obj, t)
    ensures Family(u, LinksOf(sc), sc.head.obj)
  {
    hide WellReferred, Linked, LinksOf, Realizes, Family, Treelike;
    var f := LinksOf(sc);
    var h :| 0 <= h < |sc.items| && sc.items[h] == sc.head;
    LinkedRealizes(sc, u);
    LinksTreelike(sc, h);
    LinkedFamily(sc, u, h);
    t := TreeUnfolded(f, sc.objs[h].key);
  }

  lemma TreeUnfolded(f: Links, r: nat) returns (t: Node)
    requires Treelike(f, r)
    ensures t.key == r && Unfolds(f, t) && Distinct(Preorder(t))
  {
    assert Chain(f, r, [r]);
    UnfoldUnfolds(f, r, [r]);
    UnfoldDistinct(f, r, [r]);
    t := Unfold(f, r, [r]);
  }

  /** The threading of a whole tree. */
  method Thread(root: TreeObject, ghost u: Universe, ghost f: Links, ghost t: Node)
    requires TreeOf(u, f, root, t) && Family(u, f, root)
    modifies u.objs`endJump, u.objs`breakJump
    ensures Ready(u, f, root, t) && Family(u, f, root)
  {
    hide Unfolds, Distinct, Jumps;
    ObjectLinkSeq(root, null, null, u, f, t, None, None);
  }

  /**
    The loading of a scanned tree. It succeeds exactly when the tree is sound, and then the objects
    below the root form a tree, threaded for execution.
   */
  method LoadTree(tree: Tree, ghost sc: Scan, ghost u: Universe) returns (ok: bool, ghost t: Node)
    requires Table(tree, sc) && |sc.objs| == |sc.items| == |sc.slots| && ValidScan(sc) && u == UniverseOf(sc)
    requires Unlinked(tree, sc) && tree.errors == [] && Entered(u) == {}
    modifies tree`errors, tree`stack, sc.items`links, AllSlots(sc)`obj, sc.objs`parentSeq, u.objs`enter, u.objs`nodes
    modifies u.objs`endJump, u.objs`breakJump
    ensures ok <==> Sound(sc)
    ensures ok <==> tree.errors == []
    ensures ok ==>
              && tree.head != null && tree.head.obj != null
              && Treelike(LinksOf(sc), tree.head.obj.key)
              && Ready(u, LinksOf(sc), tree.head.obj, t)
              && Family(u, LinksOf(sc), tree.head.obj)
              && Table(tree, sc) && Linked(sc)
  {
    hide *;
    t := Node(0, []);
    ghost var cuts := TreeLink(tree, sc, u);
    if tree.errors != [] {
      return false, t;
    }
    t := SoundTree(tree, sc, u);
    Thread(tree.head.obj, u, LinksOf(sc), t);
    ok := true;
  }
}
