/**
  The flags of a loaded tree: its table has the shape that saving and loading its flags relies on.
 */
module FlagsTree {
  import opened TestTree
  import opened LinkPhase
  import opened TreeLoad
  import opened Flags
  import opened FlagsFile

  /** The scanner puts every sequence in the table before the objects that it refers to. */
  ghost predicate ScannedInOrder(sc: Scan) {
    forall a, i :: SlotAt(sc, a, i) ==> a < Target(sc, a, i)
  }

  /** The place of the object whose slot refers to item `x`; -1 when there is none. */
  ghost function Holder(sc: Scan, x: int): int {
    if exists a, i :: SlotAt(sc, a, i) && Target(sc, a, i) == x
    then var a, i :| SlotAt(sc, a, i) && Target(sc, a, i) == x; a
    else -1
  }

  ghost function KidsOf(sc: Scan, a: nat): seq<nat>
    requires ScannedInOrder(sc) && a < |sc.slots|
  {
    seq(|sc.slots[a]|, i requires 0 <= i < |sc.slots[a]| => assert SlotAt(sc, a, i); Target(sc, a, i))
  }

  ghost function ShapeOf(sc: Scan): Shape
    requires ScannedInOrder(sc) && |sc.objs| == |sc.slots|
  {
    var n := |sc.objs|;
    Shape(seq(n, a requires 0 <= a < n => sc.objs[a].name),
          seq(n, a requires 0 <= a < n => sc.objs[a].kind),
          seq(n, a requires 0 <= a < n => KidsOf(sc, a)),
          seq(n, a requires 0 <= a < n => Holder(sc, a)))
  }

  lemma HolderIs(sc: Scan, a: int, i: int)
    requires |sc.objs| == |sc.items| == |sc.slots| && WellReferred(sc) && SlotAt(sc, a, i)
    ensures Holder(sc, Target(sc, a, i)) == a
  {
  }

  lemma HolderRefers(sc: Scan, x: int) returns (i: int)
    requires Holder(sc, x) >= 0
    ensures SlotAt(sc, Holder(sc, x), i) && Target(sc, Holder(sc, x), i) == x
  {
    var a, j :| SlotAt(sc, a, j) && Target(sc, a, j) == x;
    i :| SlotAt(sc, Holder(sc, x), i) && Target(sc, Holder(sc, x), i) == x;
  }

  lemma HolderBound(sc: Scan, x: int)
    ensures -1 <= Holder(sc, x) < |sc.slots|
  {
  }

  lemma ShapeIsValid(sc: Scan)
    requires ValidScan(sc) && |sc.objs| == |sc.items| == |sc.slots| && WellReferred(sc) && ScannedInOrder(sc)
    ensures ValidShape(ShapeOf(sc))
  {
    hide WellReferred, Holder;
    var sh := ShapeOf(sc);
    forall j | 0 <= j < |sh.parents| ensures -1 <= sh.parents[j] < j
      && (sh.parents[j] >= 0 ==> j in sh.kids[sh.parents[j]]) {
      HolderBound(sc, j);
      if Holder(sc, j) >= 0 {
        var i := HolderRefers(sc, j);
        assert KidsOf(sc, Holder(sc, j))[i] == j;
      }
    }
    forall i, j | 0 <= i < |sh.kids| && j in sh.kids[i] ensures j < |sh.parents| && sh.parents[j] == i {
      var k :| 0 <= k < |sh.kids[i]| && sh.kids[i][k] == j;
      assert SlotAt(sc, i, k);
      HolderIs(sc, i, k);
    }
  }

  /** The table of a loaded tree, as long as the scanner kept to its order. */
  lemma LoadedTreeIsShaped(tree: Tree, sc: Scan)
    requires Table(tree, sc) && |sc.objs| == |sc.items| == |sc.slots| && Linked(sc) && WellReferred(sc)
             && ScannedInOrder(sc)
    ensures TableOf(tree, ShapeOf(sc), Items(sc.items, sc.objs, AllSlots(sc)))
  {
    hide Linked, WellReferred, First, Holder, ValidShape;
    ShapeIsValid(sc);
    var sh := ShapeOf(sc);
    ShapeFacts(sh);
    forall a, i | 0 <= a < |sc.objs| && 0 <= i < |sc.objs[a].nodes|
      ensures sc.slots[a][i] in AllSlots(sc) && 0 <= sh.kids[a][i] < |sc.objs|
              && sc.slots[a][i].obj == sc.objs[sh.kids[a][i]]
    {
      assert SlotAt(sc, a, i);
      AllFirst(sc, a, i);
      SlotObject(sc, a, i);
    }
    forall x | 0 <= x < |sc.objs|
      ensures sc.objs[x].parentSeq == if sh.parents[x] < 0 then null else sc.objs[sh.parents[x]]
    {
      if Holder(sc, x) >= 0 {
        var i := HolderRefers(sc, x);
        AllFirst(sc, Holder(sc, x), i);
        SlotObject(sc, Holder(sc, x), i);
      } else {
        Unheld(sc, x);
      }
    }
  }

  lemma Unheld(sc: Scan, x: int)
    requires |sc.objs| == |sc.items| == |sc.slots| && Linked(sc) && 0 <= x < |sc.objs| && Holder(sc, x) < 0
    ensures sc.objs[x].parentSeq == null
  {
    assert !Referred(sc, x, |sc.items|, 0);
  }
}
