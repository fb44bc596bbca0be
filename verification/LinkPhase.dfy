/**
  The linking of a scanned test tree: every child slot is resolved by name against the item
  table and lost nodes are reported (core/codegen/codegen_tree.c).
 */
module LinkPhase {
  import opened TestTree

  /** What the scanner hands over: item `a` of the table holds `objs[a]`, whose child slots are `slots[a]`. */
  datatype Scan = Scan(items: seq<TreeItem>, head: TreeItem?, objs: seq<TreeObject>, slots: seq<seq<TreeItem>>)

  ghost predicate ValidScan(sc: Scan) {
    && |sc.objs| == |sc.items| == |sc.slots|
    && (forall a :: 0 <= a < |sc.items| ==> sc.objs[a].name == sc.items[a].name)
    && (forall a, b :: 0 <= a < b < |sc.items| ==> sc.items[a] != sc.items[b] && sc.objs[a].key != sc.objs[b].key)
    && (forall a :: 0 <= a < |sc.items| ==> (sc.objs[a].kind == Case <==> sc.slots[a] == []))
    && (forall a, i :: 0 <= a < |sc.items| && 0 <= i < |sc.slots[a]| ==> sc.slots[a][i] !in sc.items)
    && (forall a, i, b, j ::
          (0 <= a < |sc.items| && 0 <= b < |sc.items| && 0 <= i < |sc.slots[a]| && 0 <= j < |sc.slots[b]|
           && sc.slots[a][i] == sc.slots[b][j]) ==> a == b && i == j)
    && (sc.head != null ==> sc.head in sc.items)
  }

  ghost function AllSlots(sc: Scan): set<TreeItem> {
    set a, i | 0 <= a < |sc.slots| && 0 <= i < |sc.slots[a]| :: sc.slots[a][i]
  }

  /** The item table and the child slots are as scanned. */
  ghost predicate Table(tree: Tree, sc: Scan)
    reads tree`items, tree`head, sc.items`obj, sc.objs`nodes
  {
    && ValidScan(sc)
    && tree.items == sc.items && tree.head == sc.head
    && (forall a :: 0 <= a < |sc.items| ==> sc.items[a].obj == sc.objs[a] && sc.objs[a].nodes == sc.slots[a])
  }

  ghost predicate Unlinked(tree: Tree, sc: Scan)
    requires |sc.objs| == |sc.items| == |sc.slots|
    reads tree, sc.items, sc.objs, AllSlots(sc)
  {
    forall a :: 0 <= a < |sc.items| ==>
      && sc.items[a].links == 0
      && sc.objs[a].parentSeq == null
      && forall i :: 0 <= i < |sc.slots[a]| ==> sc.slots[a][i].obj == null
  }

  // ----- what a reference by name stands for -----

  /** The place of the first item of a given name; -1 when there is none. */
  ghost function PlaceOf(items: seq<TreeItem>, name: string): (r: int)
    ensures r == -1 || (0 <= r < |items| && items[r].name == name)
    ensures forall a :: 0 <= a < |items| && (r == -1 || a < r) ==> items[a].name != name
  {
    assert forall a :: 0 <= a < |items| ==> Names(items)[a] == items[a].name;
    IndexOf(Names(items), name)
  }

  ghost predicate SlotAt(sc: Scan, a: int, i: int) {
    0 <= a < |sc.slots| && 0 <= i < |sc.slots[a]|
  }

  ghost function Target(sc: Scan, a: int, i: int): int
    requires SlotAt(sc, a, i)
  {
    PlaceOf(sc.items, sc.slots[a][i].name)
  }

  ghost predicate Before(a: int, i: int, b: int, j: int) {
    a < b || (a == b && i < j)
  }

  /** Slot `i` of object `a` is the first to refer to its target. */
  ghost predicate First(sc: Scan, a: int, i: int)
    requires SlotAt(sc, a, i)
  {
    && Target(sc, a, i) != -1
    && forall b, j :: SlotAt(sc, b, j) && Before(b, j, a, i) ==> Target(sc, b, j) != Target(sc, a, i)
  }

  /** Some slot before slot `i` of object `a` refers to item `x`. */
  ghost predicate Referred(sc: Scan, x: int, a: int, i: int) {
    exists b, j :: SlotAt(sc, b, j) && Before(b, j, a, i) && Target(sc, b, j) == x
  }

  /** The errors slot `i` of object `a` gives rise to. */
  ghost function SlotErrors(sc: Scan, a: int, i: int): seq<TreeError>
    requires SlotAt(sc, a, i)
  {
    var t := Target(sc, a, i);
    if t == -1 then [Unresolved(sc.slots[a][i].name)]
    else (if First(sc, a, i) then [] else [MultipleReference(sc.items[t].name)])
         + (if sc.items[t] == sc.head then [TargetIsRoot(sc.slots[a][i].name)] else [])
  }

  /** The first item of that name is a test case. */
  ghost predicate NamesCase(sc: Scan, name: string)
    requires |sc.objs| == |sc.items|
  {
    var t := PlaceOf(sc.items, name);
    t != -1 && sc.objs[t].kind == Case
  }

  /** The errors of the first `n` preconditions of an object. */
  ghost function PrecondErrors(sc: Scan, o: TreeObject, n: nat): seq<TreeError>
    requires |sc.objs| == |sc.items| && n <= |o.preconds|
  {
    if n == 0 then [] else
      PrecondErrors(sc, o, n - 1)
      + if NamesCase(sc, o.preconds[n - 1].name) then [] else [NotACase(o.name, o.preconds[n - 1].name)]
  }

  ghost function CaseErrors(sc: Scan, o: TreeObject): seq<TreeError>
    requires |sc.objs| == |sc.items|
  {
    if o.kind == Seq then [] else
      (if o.hasScript then [] else [MissingScript(o.name)]) + PrecondErrors(sc, o, |o.preconds|)
  }

  /** The errors of the objects before `a`, and of the first `i` slots of object `a`. */
  ghost function LinkErrors(sc: Scan, a: nat, i: nat): seq<TreeError>
    requires |sc.objs| == |sc.items| == |sc.slots| && a <= |sc.slots|
             && (i > 0 ==> a < |sc.slots| && i <= |sc.slots[a]|)
    decreases a, i
  {
    if i > 0 then LinkErrors(sc, a, i - 1) + SlotErrors(sc, a, i - 1)
    else if a > 0 then LinkErrors(sc, a - 1, |sc.slots[a - 1]|) + CaseErrors(sc, sc.objs[a - 1])
    else []
  }

  // ----- the links made when the slots before slot `i` of object `a` are done -----

  ghost predicate SlotsDone(sc: Scan, a: int, i: int)
    requires |sc.objs| == |sc.items| == |sc.slots|
    reads AllSlots(sc)`obj
  {
    forall b, j :: SlotAt(sc, b, j) ==>
      sc.slots[b][j].obj == if Before(b, j, a, i) && First(sc, b, j) then sc.objs[Target(sc, b, j)] else null
  }

  ghost predicate ParentsDone(sc: Scan, a: int, i: int)
    requires |sc.objs| == |sc.items| == |sc.slots|
    reads sc.objs`parentSeq
  {
    forall b, j :: SlotAt(sc, b, j) && Before(b, j, a, i) && First(sc, b, j) ==>
      sc.objs[Target(sc, b, j)].parentSeq == sc.objs[b]
  }

  ghost predicate OrphansKept(sc: Scan, a: int, i: int)
    requires |sc.objs| == |sc.items| == |sc.slots|
    reads sc.objs`parentSeq
  {
    forall x :: 0 <= x < |sc.objs| && !Referred(sc, x, a, i) ==> sc.objs[x].parentSeq == null
  }

  ghost predicate CountsDone(sc: Scan, a: int, i: int)
    requires |sc.objs| == |sc.items| == |sc.slots|
    reads sc.items`links
  {
    forall x :: 0 <= x < |sc.items| ==> sc.items[x].links == if Referred(sc, x, a, i) then 1 else 0
  }

  ghost predicate LinkedUpTo(sc: Scan, a: int, i: int)
    requires |sc.objs| == |sc.items| == |sc.slots|
    reads sc.items`links, sc.objs`parentSeq, AllSlots(sc)`obj
  {
    SlotsDone(sc, a, i) && CountsDone(sc, a, i) && ParentsDone(sc, a, i) && OrphansKept(sc, a, i)
  }

  lemma FirstIsUnreferred(sc: Scan, a: int, i: int)
    requires SlotAt(sc, a, i)
    ensures First(sc, a, i) <==> Target(sc, a, i) != -1 && !Referred(sc, Target(sc, a, i), a, i)
    ensures forall b, j :: SlotAt(sc, b, j) && Before(b, j, a, i) ==> Referred(sc, Target(sc, b, j), a, i)
    ensures forall b, j :: SlotAt(sc, b, j) && First(sc, b, j) ==> Target(sc, b, j) != -1
  {
  }

  lemma ReferredStep(sc: Scan, x: int, a: int, i: int)
    requires SlotAt(sc, a, i)
    ensures Referred(sc, x, a, i + 1) <==> Referred(sc, x, a, i) || Target(sc, a, i) == x
  {
    if Target(sc, a, i) == x {
      assert SlotAt(sc, a, i) && Before(a, i, a, i + 1);
    }
    if Referred(sc, x, a, i) {
      var b, j :| SlotAt(sc, b, j) && Before(b, j, a, i) && Target(sc, b, j) == x;
      assert Before(b, j, a, i + 1);
    }
  }

  // ----- the linking methods -----

  method TreeRetrieve(tree: Tree, name: string) returns (item: TreeItem?)
    ensures var t := PlaceOf(tree.items, name); item == if t == -1 then null else tree.items[t]
  {
    item := null;
    var i := 0;
    while i < |tree.items| && item == null
      invariant 0 <= i <= |tree.items|
      invariant item == null ==> forall a :: 0 <= a < i ==> tree.items[a].name != name
      invariant item != null ==>
                  i > 0 && item == tree.items[i - 1] && item.name == name
                    && forall a :: 0 <= a < i - 1 ==> tree.items[a].name != name
    {
      item := tree.items[i];
      if item.name != name {
        item := null;
      }
      i := i + 1;
    }
  }

  method ItemLink(tree: Tree, item: TreeItem)
    modifies tree.items`links, item`obj, tree`errors
    ensures var t := PlaceOf(tree.items, item.name);
            && (forall x :: x in tree.items && (t != -1 ==> x != tree.items[t]) ==> x.links == old(x.links))
            && (t == -1 ==>
                  && item.obj == old(item.obj)
                  && tree.errors == old(tree.errors) + [Unresolved(item.name)])
            && (t != -1 ==>
                  var target := tree.items[t];
                  && target.links == (if old(target.links) == 0 then 1 else old(target.links))
                  && item.obj == (if old(target.links) == 0 then old(target.obj) else old(item.obj))
                  && tree.errors == old(tree.errors)
                                    + ((if old(target.links) == 0 then [] else [MultipleReference(target.name)])
                                       + (if target == tree.head then [TargetIsRoot(item.name)] else [])))
  {
    var target := TreeRetrieve(tree, item.name);
    if target != null {
      if target.links == 0 {
        item.obj := target.obj;
        target.links := target.links + 1;
      } else {
        tree.errors := tree.errors + [MultipleReference(target.name)];
      }
      if target == tree.head {
        tree.errors := tree.errors + [TargetIsRoot(item.name)];
      }
    } else {
      tree.errors := tree.errors + [Unresolved(item.name)];
    }
  }

  /** What is written for one slot is shared with no other slot and no other item. */
  lemma SlotApart(sc: Scan, a: int, i: int)
    requires ValidScan(sc) && SlotAt(sc, a, i)
    ensures sc.slots[a][i] in AllSlots(sc) && sc.slots[a][i] !in sc.items
    ensures forall b, j :: SlotAt(sc, b, j) && (b != a || j != i) ==> sc.slots[b][j] != sc.slots[a][i]
    ensures Target(sc, a, i) != -1 ==>
              forall x :: 0 <= x < |sc.items| && x != Target(sc, a, i) ==>
                sc.items[x] != sc.items[Target(sc, a, i)] && sc.objs[x] != sc.objs[Target(sc, a, i)]
    ensures |sc.items| == |sc.objs| == |sc.slots|
  {
  }

  /** The link made for one slot of a sequence. */
  method SlotLink(tree: Tree, o: TreeObject, i: nat, ghost sc: Scan, ghost a: nat)
    requires Table(tree, sc) && a < |sc.items| == |sc.objs| == |sc.slots| && o == sc.objs[a] && i < |o.nodes|
    requires SlotsDone(sc, a, i) && CountsDone(sc, a, i)
    modifies tree`errors, sc.items`links, AllSlots(sc)`obj
    ensures Table(tree, sc)
    ensures SlotsDone(sc, a, i + 1) && CountsDone(sc, a, i + 1)
    ensures SlotAt(sc, a, i) && o.nodes[i] == sc.slots[a][i]
    ensures o.nodes[i].obj == if First(sc, a, i) then sc.objs[Target(sc, a, i)] else null
    ensures tree.errors == old(tree.errors) + SlotErrors(sc, a, i)
  {
    hide Referred, First, ValidScan;
    SlotApart(sc, a, i);
    FirstIsUnreferred(sc, a, i);
    forall x
      ensures Referred(sc, x, a, i + 1) <==> Referred(sc, x, a, i) || Target(sc, a, i) == x
    {
      ReferredStep(sc, x, a, i);
    }
    ItemLink(tree, o.nodes[i]);
  }

  /** The parent of the object just linked. */
  method SetParent(o: TreeObject, i: nat, ghost sc: Scan, ghost a: nat)
    requires ValidScan(sc) && a < |sc.items| == |sc.objs| == |sc.slots| && o == sc.objs[a] && i < |o.nodes|
    requires SlotAt(sc, a, i) && o.nodes[i] == sc.slots[a][i]
    requires sc.slots[a][i].obj == if First(sc, a, i) then sc.objs[Target(sc, a, i)] else null
    requires ParentsDone(sc, a, i) && OrphansKept(sc, a, i)
    modifies sc.objs`parentSeq
    ensures ParentsDone(sc, a, i + 1) && OrphansKept(sc, a, i + 1)
  {
    hide Referred, First, ValidScan;
    SlotApart(sc, a, i);
    FirstIsUnreferred(sc, a, i);
    forall x
      ensures Referred(sc, x, a, i + 1) <==> Referred(sc, x, a, i) || Target(sc, a, i) == x
    {
      ReferredStep(sc, x, a, i);
    }
    if o.nodes[i].obj != null {
      o.nodes[i].obj.parentSeq := o;
    }
  }

  method SeqLink(tree: Tree, o: TreeObject, ghost sc: Scan, ghost a: nat)
    requires Table(tree, sc) && a < |sc.items| == |sc.objs| == |sc.slots|
    requires o == sc.objs[a] && o.kind == Seq && LinkedUpTo(sc, a, 0) && tree.errors == LinkErrors(sc, a, 0)
    modifies tree`errors, sc.items`links, AllSlots(sc)`obj, sc.objs`parentSeq
    ensures Table(tree, sc) && LinkedUpTo(sc, a, |sc.slots[a]|) && tree.errors == LinkErrors(sc, a, |sc.slots[a]|)
  {
    hide First, SlotErrors, ValidScan, SlotsDone, CountsDone, ParentsDone, OrphansKept, Referred, PlaceOf, CaseErrors;
    var i := 0;
    while i < |o.nodes|
      invariant 0 <= i <= |sc.slots[a]|
      invariant Table(tree, sc) && LinkedUpTo(sc, a, i) && tree.errors == LinkErrors(sc, a, i)
    {
      NodeLink(tree, o, i, sc, a);
      i := i + 1;
    }
    assert i == |sc.slots[a]|;
  }

  /** One slot of a sequence: the link, and the parent of what is linked. */
  method NodeLink(tree: Tree, o: TreeObject, i: nat, ghost sc: Scan, ghost a: nat)
    requires Table(tree, sc) && a < |sc.items| == |sc.objs| == |sc.slots| && o == sc.objs[a] && i < |o.nodes|
    requires o.kind == Seq && LinkedUpTo(sc, a, i) && tree.errors == LinkErrors(sc, a, i)
    modifies tree`errors, sc.items`links, AllSlots(sc)`obj, sc.objs`parentSeq
    ensures Table(tree, sc) && LinkedUpTo(sc, a, i + 1) && tree.errors == LinkErrors(sc, a, i + 1)
  {
    hide First, SlotErrors, ValidScan, SlotsDone, CountsDone, ParentsDone, OrphansKept, Referred, PlaceOf, CaseErrors;
    SlotLink(tree, o, i, sc, a);
    SetParent(o, i, sc, a);
  }

  /** Every precondition must name a test case. */
  method PrecondLink(tree: Tree, o: TreeObject, ghost sc: Scan)
    requires Table(tree, sc) && |sc.items| == |sc.objs|
    modifies tree`errors
    ensures tree.errors == old(tree.errors) + PrecondErrors(sc, o, |o.preconds|)
  {
    hide ValidScan;
    var n := 0;
    while n < |o.preconds|
      invariant 0 <= n <= |o.preconds|
      invariant tree.errors == old(tree.errors) + PrecondErrors(sc, o, n)
    {
      var target := TreeRetrieve(tree, o.preconds[n].name);
      if target == null || target.obj.kind != Case {
        tree.errors := tree.errors + [NotACase(o.name, o.preconds[n].name)];
      }
      n := n + 1;
    }
  }

  method CaseLink(tree: Tree, o: TreeObject, ghost sc: Scan)
    requires Table(tree, sc) && |sc.items| == |sc.objs| && o.kind == Case
    modifies tree`errors
    ensures tree.errors == old(tree.errors) + CaseErrors(sc, o)
  {
    hide ValidScan, PrecondErrors;
    if !o.hasScript {
      tree.errors := tree.errors + [MissingScript(o.name)];
    }
    PrecondLink(tree, o, sc);
  }

  method ObjectLink(tree: Tree, o: TreeObject, ghost sc: Scan, ghost a: nat)
    requires Table(tree, sc) && a < |sc.items| == |sc.objs| == |sc.slots|
    requires o == sc.objs[a] && LinkedUpTo(sc, a, 0) && tree.errors == LinkErrors(sc, a, 0)
    modifies tree`errors, sc.items`links, AllSlots(sc)`obj, sc.objs`parentSeq
    ensures Table(tree, sc) && LinkedUpTo(sc, a + 1, 0) && tree.errors == LinkErrors(sc, a + 1, 0)
  {
    hide First, SlotErrors, LinkedUpTo, SlotAt;
    match o.kind {
      case Case =>
        CaseLink(tree, o, sc);
      case Seq =>
        SeqLink(tree, o, sc, a);
    }
    ObjectDone(sc, a);
  }

  lemma ObjectDone(sc: Scan, a: nat)
    requires a < |sc.items| == |sc.objs| == |sc.slots| && LinkedUpTo(sc, a, |sc.slots[a]|)
    ensures LinkedUpTo(sc, a + 1, 0)
  {
    assert forall b, j :: SlotAt(sc, b, j) ==> (Before(b, j, a, |sc.slots[a]|) <==> Before(b, j, a + 1, 0));
    assert forall x :: Referred(sc, x, a, |sc.slots[a]|) <==> Referred(sc, x, a + 1, 0);
  }

  lemma NothingLinked(tree: Tree, sc: Scan)
    requires |sc.items| == |sc.objs| == |sc.slots| && Unlinked(tree, sc)
    ensures LinkedUpTo(sc, 0, 0) && LinkErrors(sc, 0, 0) == []
  {
  }

  method LinkAll(tree: Tree, ghost sc: Scan)
    requires Table(tree, sc) && |sc.items| == |sc.objs| == |sc.slots| && Unlinked(tree, sc) && tree.errors == []
    modifies tree`errors, sc.items`links, AllSlots(sc)`obj, sc.objs`parentSeq
    ensures Table(tree, sc) && LinkedUpTo(sc, |sc.items|, 0) && tree.errors == LinkErrors(sc, |sc.items|, 0)
  {
    hide ValidScan, Unlinked, LinkedUpTo, LinkErrors;
    NothingLinked(tree, sc);
    var a := 0;
    while a < |tree.items|
      invariant 0 <= a <= |sc.items|
      invariant Table(tree, sc) && LinkedUpTo(sc, a, 0) && tree.errors == LinkErrors(sc, a, 0)
    {
      ObjectLink(tree, tree.items[a].obj, sc, a);
      a := a + 1;
    }
  }
}
