/**
  Linking a whole scanned tree: when it reports an error, and what a tree that is linked
  without error looks like (core/codegen/codegen_tree.c).
 */
module TreeLoad {
  import opened Graphs
  import opened Shapes
  import opened TestTree
  import opened LinkPhase
  import opened CircularLinks
  import opened Unfolding

  /** Every case has a script, and its preconditions name test cases. */
  ghost predicate CasesInOrder(sc: Scan)
    requires |sc.objs| == |sc.items|
  {
    forall a :: 0 <= a < |sc.objs| && sc.objs[a].kind == Case ==>
      && sc.objs[a].hasScript
      && forall k :: 0 <= k < |sc.objs[a].preconds| ==> NamesCase(sc, sc.objs[a].preconds[k].name)
  }

  /** Every reference stands for an item of its own, which is not the root, and the cases are in order. */
  ghost predicate WellReferred(sc: Scan)
    requires |sc.objs| == |sc.items| == |sc.slots|
  {
    && CasesInOrder(sc)
    && (forall a, i :: SlotAt(sc, a, i) ==> Target(sc, a, i) != -1 && sc.items[Target(sc, a, i)] != sc.head)
    && (forall a, i, b, j :: SlotAt(sc, a, i) && SlotAt(sc, b, j) && Target(sc, a, i) == Target(sc, b, j) ==> a == b && i == j)
  }

  lemma {:induction false} LinkErrorsNone(sc: Scan, a: nat, i: nat)
    requires |sc.objs| == |sc.items| == |sc.slots| && a <= |sc.slots|
             && (i > 0 ==> a < |sc.slots| && i <= |sc.slots[a]|)
    ensures LinkErrors(sc, a, i) == [] <==>
              && (forall x :: 0 <= x < a ==> CaseErrors(sc, sc.objs[x]) == [])
              && (forall b, j :: SlotAt(sc, b, j) && Before(b, j, a, i) ==> SlotErrors(sc, b, j) == [])
    decreases a, i
  {
    hide SlotErrors, CaseErrors;
    if i > 0 {
      LinkErrorsNone(sc, a, i - 1);
      assert SlotAt(sc, a, i - 1) && Before(a, i - 1, a, i);
      assert forall b, j :: SlotAt(sc, b,
             j) ==> (Before(b, j, a, i) <==> Before(b, j, a, i - 1) || (b == a && j == i - 1));
      assert LinkErrors(sc, a, i) == [] <==> LinkErrors(sc, a, i - 1) == [] && SlotErrors(sc, a, i - 1) == [];
    } else if a > 0 {
      LinkErrorsNone(sc, a - 1, |sc.slots[a - 1]|);
      assert forall b, j :: SlotAt(sc, b, j) ==> (Before(b, j, a, 0) <==> Before(b, j, a - 1, |sc.slots[a - 1]|));
      assert LinkErrors(sc, a, i) == [] <==> LinkErrors(sc, a - 1, |sc.slots[a - 1]|) == [] && CaseErrors(sc, sc.objs[a - 1]) == [];
    }
  }

  lemma {:induction false} PrecondErrorsNone(sc: Scan, o: TreeObject, n: nat)
    requires |sc.objs| == |sc.items| && n <= |o.preconds|
    ensures PrecondErrors(sc, o, n) == [] <==> forall k :: 0 <= k < n ==> NamesCase(sc, o.preconds[k].name)
  {
    hide NamesCase;
    if n > 0 {
      PrecondErrorsNone(sc, o, n - 1);
    }
  }

  lemma CaseErrorsNone(sc: Scan)
    requires |sc.objs| == |sc.items|
    ensures (forall a :: 0 <= a < |sc.objs| ==> CaseErrors(sc, sc.objs[a]) == []) <==> CasesInOrder(sc)
  {
    hide PrecondErrors, NamesCase;
    forall a | 0 <= a < |sc.objs|
      ensures CaseErrors(sc, sc.objs[a]) == [] <==>
                (sc.objs[a].kind == Case ==>
                   && sc.objs[a].hasScript
                   && forall k :: 0 <= k < |sc.objs[a].preconds| ==> NamesCase(sc, sc.objs[a].preconds[k].name))
    {
      PrecondErrorsNone(sc, sc.objs[a], |sc.objs[a].preconds|);
    }
  }

  lemma SlotErrorsNone(sc: Scan, a: int, i: int)
    requires SlotAt(sc, a, i)
    ensures SlotErrors(sc, a, i) == [] <==> First(sc, a, i) && sc.items[Target(sc, a, i)] != sc.head
  {
  }

  lemma FirstsDiffer(sc: Scan, a: int, i: int, b: int, j: int)
    requires SlotAt(sc, a, i) && SlotAt(sc, b, j) && First(sc, a, i) && First(sc, b, j)
    requires Target(sc, a, i) == Target(sc, b, j)
    ensures a == b && i == j
  {
    assert !Before(a, i, b, j) && !Before(b, j, a, i);
  }

  /** The linking phase reports nothing exactly when the tree is well referred. */
  lemma NoLinkErrors(sc: Scan)
    requires |sc.objs| == |sc.items| == |sc.slots|
    ensures LinkErrors(sc, |sc.items|, 0) == [] <==> WellReferred(sc)
  {
    hide SlotErrors, LinkErrors, CaseErrors, CasesInOrder;
    CaseErrorsNone(sc);
    LinkErrorsNone(sc, |sc.items|, 0);
    if LinkErrors(sc, |sc.items|, 0) == [] {
      forall a, i | SlotAt(sc, a, i)
        ensures First(sc, a, i) && sc.items[Target(sc, a, i)] != sc.head
      {
        assert Before(a, i, |sc.items|, 0);
        SlotErrorsNone(sc, a, i);
      }
      forall a, i, b, j | SlotAt(sc, a, i) && SlotAt(sc, b, j) && Target(sc, a, i) == Target(sc, b, j)
        ensures a == b && i == j
      {
        FirstsDiffer(sc, a, i, b, j);
      }
    }
    if WellReferred(sc) {
      forall a, i | SlotAt(sc, a, i)
        ensures SlotErrors(sc, a, i) == []
      {
        SlotErrorsNone(sc, a, i);
      }
    }
  }

  // ----- the links of a well referred tree -----

  ghost function UniverseOf(sc: Scan): (u: Universe)
    requires ValidScan(sc)
    ensures WellKeyed(u)
    ensures u.objs == (set o | o in sc.objs) && u.slots == AllSlots(sc)
  {
    Universe(set o | o in sc.objs, map o | o in sc.objs :: o.key := o, AllSlots(sc))
  }

  ghost function TargetKeys(sc: Scan, a: int, n: nat): (r: seq<nat>)
    requires |sc.objs| == |sc.items| == |sc.slots| && WellReferred(sc)
    requires 0 <= a < |sc.slots| && n <= |sc.slots[a]|
    ensures |r| == n
    ensures forall i :: 0 <= i < n ==> SlotAt(sc, a, i) && r[i] == sc.objs[Target(sc, a, i)].key
  {
    if n == 0 then [] else
      assert SlotAt(sc, a, n - 1);
      TargetKeys(sc, a, n - 1) + [sc.objs[Target(sc, a, n - 1)].key]
  }

  /** The ordered links that a well referred tree declares. */
  ghost function LinksOf(sc: Scan): (f: Links)
    requires ValidScan(sc) && WellReferred(sc)
    ensures forall a :: 0 <= a < |sc.objs| ==> sc.objs[a].key in f && f[sc.objs[a].key] == TargetKeys(sc, a, |sc.slots[a]|)
    ensures forall k :: k in f ==> exists a :: 0 <= a < |sc.objs| && sc.objs[a].key == k
  {
    map a | 0 <= a < |sc.objs| :: sc.objs[a].key := TargetKeys(sc, a, |sc.slots[a]|)
  }

  lemma LinksTreelike(sc: Scan, h: nat)
    requires ValidScan(sc) && WellReferred(sc) && h < |sc.items| == |sc.objs| && sc.head == sc.items[h]
    ensures Treelike(LinksOf(sc), sc.objs[h].key)
  {
    hide WellReferred, TargetKeys, ValidScan, SlotAt, LinksOf;
    var f := LinksOf(sc);
    forall x, i | x in f && 0 <= i < |f[x]|
      ensures f[x][i] in f && f[x][i] != sc.objs[h].key
    {
      var a :| 0 <= a < |sc.objs| && sc.objs[a].key == x;
      LinkTarget(sc, a, i);
      DifferentKeys(sc, h, Target(sc, a, i));
    }
    forall x, i, y, j | x in f && y in f && 0 <= i < |f[x]| && 0 <= j < |f[y]| && f[x][i] == f[y][j]
      ensures x == y && i == j
    {
      var a :| 0 <= a < |sc.objs| && sc.objs[a].key == x;
      var b :| 0 <= b < |sc.objs| && sc.objs[b].key == y;
      LinkTarget(sc, a, i);
      LinkTarget(sc, b, j);
      DifferentKeys(sc, Target(sc, a, i), Target(sc, b, j));
      OwnTarget(sc, a, i, b, j);
    }
  }

  lemma LinkTarget(sc: Scan, a: int, i: int)
    requires ValidScan(sc) && WellReferred(sc) && 0 <= a < |sc.objs| && 0 <= i < |LinksOf(sc)[sc.objs[a].key]|
    ensures SlotAt(sc, a, i) && 0 <= Target(sc, a, i) < |sc.objs| == |sc.items| && sc.items[Target(sc, a, i)] != sc.head
    ensures LinksOf(sc)[sc.objs[a].key][i] == sc.objs[Target(sc, a, i)].key
  {
    assert SlotAt(sc, a, i);
  }

  lemma DifferentKeys(sc: Scan, a: int, b: int)
    requires ValidScan(sc) && 0 <= a < |sc.objs| && 0 <= b < |sc.objs|
    ensures sc.objs[a].key == sc.objs[b].key ==> a == b
  {
  }

  lemma OwnTarget(sc: Scan, a: int, i: int, b: int, j: int)
    requires ValidScan(sc) && WellReferred(sc) && SlotAt(sc, a, i) && SlotAt(sc, b, j)
    ensures Target(sc, a, i) == Target(sc, b, j) ==> a == b && i == j
  {
  }

  /** The objects hold exactly the links `f`. */
  ghost predicate Realizes(u: Universe, f: Links)
    reads u.objs`nodes, u.slots`obj
  {
    && WellKeyed(u) && f.Keys == u.at.Keys
    && (forall o :: o in u.objs ==> (o.kind == Case <==> f[o.key] == []))
    && (forall o :: o in u.objs ==> |o.nodes| == |f[o.key]|)
    && (forall o, i :: o in u.objs && 0 <= i < |o.nodes| ==>
          && o.nodes[i] != null && f[o.key][i] in u.at && o.nodes[i] in u.slots
          && o.nodes[i].obj == u.at[f[o.key][i]])
  }

  // ----- what the linking phase leaves -----

  ghost predicate Linked(sc: Scan)
    requires |sc.objs| == |sc.items| == |sc.slots|
    reads sc.items`links, sc.objs`parentSeq, AllSlots(sc)`obj
  {
    LinkedUpTo(sc, |sc.items|, 0)
  }

  /** The object slot `i` of object `a` has been linked to. */
  lemma SlotObject(sc: Scan, a: int, i: int)
    requires ValidScan(sc) && |sc.objs| == |sc.items| == |sc.slots| && Linked(sc) && SlotAt(sc, a, i)
    ensures sc.slots[a][i] in AllSlots(sc)
    ensures sc.slots[a][i].obj == if First(sc, a, i) then sc.objs[Target(sc, a, i)] else null
    ensures First(sc, a, i) ==>
              0 <= Target(sc, a, i) < |sc.objs| && sc.objs[Target(sc, a, i)].parentSeq == sc.objs[a]
  {
    assert Before(a, i, |sc.items|, 0);
  }

  /** Where a child slot of an object of the table comes from. */
  lemma SlotOrigin(sc: Scan, o: TreeObject, s: TreeItem) returns (a: int, i: int)
    requires ValidScan(sc) && |sc.objs| == |sc.items| == |sc.slots|
    requires forall x :: 0 <= x < |sc.objs| ==> sc.objs[x].nodes == sc.slots[x]
    requires o in sc.objs && s in SlotsOf(o)
    ensures SlotAt(sc, a, i) && sc.objs[a] == o && sc.slots[a][i] == s
  {
    a :| 0 <= a < |sc.objs| && sc.objs[a] == o;
    i :| 0 <= i < |o.nodes| && o.nodes[i] == s;
  }

  lemma UniverseIs(sc: Scan, u: Universe)
    requires ValidScan(sc) && |sc.objs| == |sc.items| == |sc.slots| && u == UniverseOf(sc)
    ensures WellKeyed(u) && u.slots == AllSlots(sc)
    ensures forall o :: o in u.objs <==> o in sc.objs
  {
  }

  lemma LinkedClosed(sc: Scan, u: Universe)
    requires ValidScan(sc) && |sc.objs| == |sc.items| == |sc.slots| && u == UniverseOf(sc) && Linked(sc)
    requires forall x :: 0 <= x < |sc.objs| ==> sc.objs[x].nodes == sc.slots[x]
    ensures ClosedUnder(u)
  {
    hide Linked;
    UniverseIs(sc, u);
    forall o, s | o in u.objs && s in SlotsOf(o)
      ensures s in u.slots && (s.obj != null ==> s.obj in u.objs)
    {
      var a, i := SlotOrigin(sc, o, s);
      SlotObject(sc, a, i);
    }
    forall s | s in u.slots && s.obj != null
      ensures s.obj in u.objs
    {
      var a, i :| SlotAt(sc, a, i) && sc.slots[a][i] == s;
      SlotObject(sc, a, i);
    }
    forall o | o in u.objs && o.kind == Case
      ensures o.nodes == []
    {
      var a :| 0 <= a < |sc.objs| && sc.objs[a] == o;
    }
  }

  /** With errors or without, no object ends up linked from two sequences. */
  lemma LinkedOnce(sc: Scan, u: Universe)
    requires ValidScan(sc) && |sc.objs| == |sc.items| == |sc.slots| && u == UniverseOf(sc) && Linked(sc)
    requires forall x :: 0 <= x < |sc.objs| ==> sc.objs[x].nodes == sc.slots[x]
    ensures InDegreeOne(LinkGraph(u))
  {
    hide Linked, First, ValidScan;
    forall x, y, c | x in u.at && y in u.at && x in LinkGraph(u) && y in LinkGraph(u) && c in LinkGraph(u)[x]
      && c in LinkGraph(u)[y]
      ensures x == y
    {
      var s :| s in SlotsOf(u.at[x]) && s.obj != null && s.obj.key == c;
      var t :| t in SlotsOf(u.at[y]) && t.obj != null && t.obj.key == c;
      var a, i := SlotOrigin(sc, u.at[x], s);
      var b, j := SlotOrigin(sc, u.at[y], t);
      SlotObject(sc, a, i);
      SlotObject(sc, b, j);
      DifferentKeys(sc, Target(sc, a, i), Target(sc, b, j));
      FirstsDiffer(sc, a, i, b, j);
    }
  }

  lemma LinkedRealizes(sc: Scan, u: Universe)
    requires ValidScan(sc) && |sc.objs| == |sc.items| == |sc.slots| && u == UniverseOf(sc) && Linked(sc)
             && WellReferred(sc)
    requires forall x :: 0 <= x < |sc.objs| ==> sc.objs[x].nodes == sc.slots[x]
    ensures Realizes(u, LinksOf(sc))
  {
    hide Linked, First, WellReferred, ValidScan, TargetKeys, LinksOf, UniverseOf;
    forall o | o in u.objs
      ensures |o.nodes| == |LinksOf(sc)[o.key]| && (o.kind == Case <==> LinksOf(sc)[o.key] == [])
      ensures forall i :: 0 <= i < |o.nodes| ==>
                o.nodes[i] != null && LinksOf(sc)[o.key][i] in u.at && o.nodes[i].obj == u.at[LinksOf(sc)[o.key][i]]
    {
      var a :| 0 <= a < |sc.objs| && sc.objs[a] == o;
      LinkCount(sc, a);
      forall i | 0 <= i < |o.nodes|
        ensures o.nodes[i] != null && LinksOf(sc)[o.key][i] in u.at && o.nodes[i].obj == u.at[LinksOf(sc)[o.key][i]]
      {
        SlotObject(sc, a, i);
        AllFirst(sc, a, i);
        LinkTarget(sc, a, i);
        assert sc.objs[Target(sc, a, i)] in u.objs;
      }
    }
    assert LinksOf(sc).Keys == u.at.Keys;
  }

  lemma LinkCount(sc: Scan, a: int)
    requires ValidScan(sc) && WellReferred(sc) && 0 <= a < |sc.objs|
    ensures sc.objs[a].key in LinksOf(sc) && |LinksOf(sc)[sc.objs[a].key]| == |sc.slots[a]|
    ensures sc.objs[a].kind == Case <==> LinksOf(sc)[sc.objs[a].key] == []
  {
  }

  lemma AllFirst(sc: Scan, a: int, i: int)
    requires |sc.objs| == |sc.items| == |sc.slots| && WellReferred(sc) && SlotAt(sc, a, i)
    ensures First(sc, a, i)
  {
  }

  lemma RealizedLink(u: Universe, f: Links, x: nat, c: nat)
    requires Realizes(u, f) && x in LinkGraph(u) && c in LinkGraph(u)[x]
    ensures x in f && exists i :: 0 <= i < |f[x]| && f[x][i] == c
  {
    var s :| s in SlotsOf(u.at[x]) && s.obj != null && s.obj.key == c;
    var i :| 0 <= i < |u.at[x].nodes| && u.at[x].nodes[i] == s;
    assert f[x][i] == c;
  }

  /** A tree linked without error has no cycle that could be reached from its root. */
  lemma RealizedAcyclic(u: Universe, f: Links, r: nat)
    requires Realizes(u, f) && Treelike(f, r) && InDegreeOne(LinkGraph(u))
    ensures !CycleReachable(LinkGraph(u), r)
  {
    var g := LinkGraph(u);
    CycleIsRootLink(g, r);
    forall x, c | x in g && c in g[x]
      ensures c != r
    {
      RealizedLink(u, f, x, c);
    }
  }

  // ----- the whole linking of a tree -----

  ghost function LostErrors(sc: Scan, n: nat): seq<TreeError>
    requires |sc.objs| == |sc.items| == |sc.slots| && n <= |sc.items|
  {
    if n == 0 then [] else
      var item := sc.items[n - 1];
      LostErrors(sc, n - 1)
      + if !Referred(sc, n - 1, |sc.items|, 0) && item.lineno > 0 && item != sc.head
        then [LinkedFromNowhere(item.name)] else []
  }

  method CheckLost(tree: Tree, ghost sc: Scan)
    requires Table(tree, sc) && |sc.objs| == |sc.items| == |sc.slots| && Linked(sc)
    modifies tree`errors
    ensures tree.errors == old(tree.errors) + LostErrors(sc, |sc.items|)
  {
    hide SlotsDone, ParentsDone, OrphansKept, Referred, ValidScan;
    var i := 0;
    while i < |tree.items|
      invariant 0 <= i <= |sc.items| && Table(tree, sc)
      invariant tree.errors == old(tree.errors) + LostErrors(sc, i)
    {
      var item := tree.items[i];
      if item.links == 0 && item.lineno > 0 && item != tree.head {
        tree.errors := tree.errors + [LinkedFromNowhere(item.name)];
      }
      i := i + 1;
    }
  }

  /** A tree is sound when it is well referred and rooted, and no item of the tree file is lost. */
  ghost predicate Sound(sc: Scan)
    requires |sc.objs| == |sc.items| == |sc.slots|
  {
    WellReferred(sc) && NoneLost(sc, |sc.items|) && sc.head != null
  }

  ghost predicate NoneLost(sc: Scan, n: nat)
    requires n <= |sc.items|
  {
    forall x :: 0 <= x < n && sc.items[x].lineno > 0 && sc.items[x] != sc.head ==> Referred(sc, x, |sc.items|, 0)
  }

  lemma {:induction false} NoLostErrors(sc: Scan, n: nat)
    requires |sc.objs| == |sc.items| == |sc.slots| && n <= |sc.items|
    ensures LostErrors(sc, n) == [] <==> NoneLost(sc, n)
  {
    hide Referred;
    if n > 0 {
      NoLostErrors(sc, n - 1);
    }
  }

  lemma ReportCount(u: Universe, cuts: seq<(nat, nat)>, reports: seq<TreeError>)
    requires Reported(u, cuts, reports)
    ensures |reports| == |cuts|
  {
  }

  lemma LinkedFacts(sc: Scan, u: Universe)
    requires ValidScan(sc) && |sc.objs| == |sc.items| == |sc.slots| && u == UniverseOf(sc) && Linked(sc)
    requires forall x :: 0 <= x < |sc.objs| ==> sc.items[x].obj == sc.objs[x] && sc.objs[x].nodes == sc.slots[x]
    ensures ClosedUnder(u) && InDegreeOne(LinkGraph(u))
    ensures sc.head != null ==> sc.head.obj != null && sc.head.obj in u.objs
    ensures WellReferred(sc) && sc.head != null ==> !CycleReachable(LinkGraph(u), sc.head.obj.key)
  {
    hide WellReferred, Linked;
    LinkedClosed(sc, u);
    LinkedOnce(sc, u);
    if sc.head != null {
      var h :| 0 <= h < |sc.items| && sc.items[h] == sc.head;
      if WellReferred(sc) {
        LinksTreelike(sc, h);
        LinkedRealizes(sc, u);
        RealizedAcyclic(u, LinksOf(sc), sc.objs[h].key);
      }
    }
  }

  /** The errors reported before the check for circular links. */
  ghost function TableErrors(sc: Scan): seq<TreeError>
    requires |sc.objs| == |sc.items| == |sc.slots|
  {
    LinkErrors(sc, |sc.items|, 0) + LostErrors(sc, |sc.items|) + if sc.head == null then [NoTreeNode] else []
  }

  /** None of these errors exactly for a sound tree. */
  lemma NoTableErrors(sc: Scan)
    requires |sc.objs| == |sc.items| == |sc.slots|
    ensures TableErrors(sc) == [] <==> Sound(sc)
  {
    hide WellReferred, NoneLost, LostErrors, LinkErrors;
    NoLinkErrors(sc);
    NoLostErrors(sc, |sc.items|);
  }

  /** The linking phase up to the check for circular links. */
  method LinkTable(tree: Tree, ghost sc: Scan)
    requires Table(tree, sc) && |sc.objs| == |sc.items| == |sc.slots| && Unlinked(tree, sc) && tree.errors == []
    modifies tree`errors, sc.items`links, AllSlots(sc)`obj, sc.objs`parentSeq
    ensures Table(tree, sc) && Linked(sc) && tree.errors == TableErrors(sc)
  {
    hide LinkErrors, LostErrors, LinkedUpTo, ValidScan, Unlinked;
    LinkAll(tree, sc);
    CheckLost(tree, sc);
    if tree.head == null {
      tree.errors := tree.errors + [NoTreeNode];
    }
  }

  /** Before the check for circular links: the errors so far, and what the links are like. */
  method LinkFirst(tree: Tree, ghost sc: Scan, ghost u: Universe)
    requires Table(tree, sc) && |sc.objs| == |sc.items| == |sc.slots| && u == UniverseOf(sc)
    requires Unlinked(tree, sc) && tree.errors == [] && Entered(u) == {}
    modifies tree`errors, sc.items`links, AllSlots(sc)`obj, sc.objs`parentSeq
    ensures Table(tree, sc) && Linked(sc) && tree.errors == TableErrors(sc) && (TableErrors(sc) == [] <==> Sound(sc))
    ensures tree.items == sc.items && tree.head == sc.head && Entered(u) == {}
    ensures ClosedUnder(u) && InDegreeOne(LinkGraph(u))
    ensures sc.head != null ==> sc.head.obj != null && sc.head.obj in u.objs
    ensures WellReferred(sc) && sc.head != null ==> !CycleReachable(LinkGraph(u), sc.head.obj.key)
    ensures forall x :: x in sc.objs ==> x in u.objs
  {
    hide WellReferred, NoneLost, TableErrors, LinkedUpTo, InDegreeOne, CycleReachable, ClosedUnder, ValidScan;
    hide LinkGraph, Entered, Unlinked, UniverseOf, Sound;
    LinkTable(tree, sc);
    LinkedFacts(sc, u);
    NoTableErrors(sc);
    UniverseIs(sc, u);
  }

  method TreeLink(tree: Tree, ghost sc: Scan, ghost u: Universe) returns (ghost cuts: seq<(nat, nat)>)
    requires Table(tree, sc) && |sc.objs| == |sc.items| == |sc.slots| && u == UniverseOf(sc)
    requires Unlinked(tree, sc) && tree.errors == [] && Entered(u) == {}
    modifies tree`errors, tree`stack, sc.items`links, AllSlots(sc)`obj, sc.objs`parentSeq, u.objs`enter, u.objs`nodes
    ensures tree.items == sc.items && tree.head == sc.head
    ensures TableErrors(sc) <= tree.errors && Reported(u, cuts, tree.errors[|TableErrors(sc)|..])
    ensures |cuts| <= 1 && (WellReferred(sc) ==> cuts == [])
    ensures tree.head != null && tree.head.obj != null ==> !CycleReachable(LinkGraph(u), tree.head.obj.key)
    ensures tree.errors == [] <==> Sound(sc)
    ensures tree.errors == [] ==> Table(tree, sc) && Linked(sc)
  {
    hide *;
    LinkFirst(tree, sc, u);
    SoundIsWellReferred(sc);
    cuts := CheckCircular(tree, u);
    ReportCount(u, cuts, tree.errors[|TableErrors(sc)|..]);
  }

  lemma SoundIsWellReferred(sc: Scan)
    requires |sc.objs| == |sc.items| == |sc.slots|
    ensures Sound(sc) ==> WellReferred(sc) && sc.head != null
  {
  }
}
