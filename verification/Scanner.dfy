/**
  The scanning of the tree files (core/codegen/codegen_tree_scan.c): every directory becomes a
  sequence, every script a test case, and both are added to the item table as they are met.
 */
module Scanner {
  import opened Shapes
  import opened TestTree
  import opened TreeLines
  import opened SuiteText
  import opened LinkPhase

  /** For each slot of each sequence, the place of the item that was made with it. */
  type Made = seq<seq<nat>>

  ghost predicate MadeAt(made: Made, a: int, i: int) {
    0 <= a < |made| && 0 <= i < |made[a]|
  }

  // ----- what has been scanned so far -----

  ghost predicate SameSizes(sc: Scan, made: Made) {
    && |sc.items| == |sc.objs| == |sc.slots| == |made|
    && forall a :: 0 <= a < |made| ==> |made[a]| == |sc.slots[a]|
  }

  ghost predicate Distinguished(sc: Scan, keys: nat)
    requires |sc.items| == |sc.objs| == |sc.slots|
  {
    && (forall a :: 0 <= a < |sc.items| ==> sc.objs[a].name == sc.items[a].name && 0 < sc.objs[a].key < keys)
    && (forall a :: 0 <= a < |sc.items| && sc.objs[a].kind == Case ==> sc.objs[a].hasScript)
    && (forall a, b :: 0 <= a < b < |sc.items| ==> sc.items[a] != sc.items[b] && sc.objs[a].key != sc.objs[b].key)
    && (forall a, i :: SlotAt(sc, a, i) ==> sc.objs[a].kind == Seq && sc.slots[a][i] !in sc.items)
    && (forall a, i, b, j :: SlotAt(sc, a, i) && SlotAt(sc, b, j) && sc.slots[a][i] == sc.slots[b][j] ==> a == b && i == j)
  }

  /** Every slot has the name of an item that comes later in the table, and no two slots have the same one. */
  ghost predicate Matched(sc: Scan, made: Made)
    requires SameSizes(sc, made)
  {
    && (forall a, i :: MadeAt(made, a, i) ==> a < made[a][i] < |sc.items| && sc.items[made[a][i]].name == sc.slots[a][i].name)
    && (forall a, i, b, j :: MadeAt(made, a, i) && MadeAt(made, b, j) && made[a][i] == made[b][j] ==> a == b && i == j)
  }

  ghost predicate WellScanned(sc: Scan, made: Made, keys: nat) {
    SameSizes(sc, made) && Distinguished(sc, keys) && Matched(sc, made) && keys > 0
  }

  /** The items hold the objects scanned, and nothing is linked yet. */
  ghost predicate Filled(sc: Scan)
    reads sc.items`obj, sc.items`links, sc.objs`nodes, sc.objs`parentSeq, sc.objs`enter, AllSlots(sc)`obj
    reads sc.objs`forceSkip, sc.objs`breakpoint
  {
    && |sc.items| == |sc.objs| == |sc.slots|
    && (forall a :: 0 <= a < |sc.objs| ==> !sc.objs[a].forceSkip && sc.objs[a].breakpoint == 0)
    && (forall a :: 0 <= a < |sc.items| ==> sc.items[a].obj == sc.objs[a] && sc.items[a].links == 0)
    && (forall a :: 0 <= a < |sc.objs| ==>
          sc.objs[a].nodes == sc.slots[a] && sc.objs[a].parentSeq == null && sc.objs[a].enter == 0)
    && (forall s :: s in AllSlots(sc) ==> s.obj == null)
  }

  /** The tree holds what has been scanned. */
  ghost predicate Held(tree: Tree, sc: Scan)
    reads tree`items, tree`head, sc.items`obj, sc.items`links, sc.objs`nodes, sc.objs`parentSeq, sc.objs`enter,
          AllSlots(sc)`obj
    reads sc.objs`forceSkip, sc.objs`breakpoint
  {
    tree.items == sc.items && tree.head == sc.head && Filled(sc)
  }

  /** What was there before item `n` is still there. */
  ghost predicate Extends(sc0: Scan, made0: Made, sc: Scan, made: Made) {
    && SameSizes(sc0, made0) && SameSizes(sc, made)
    && sc0.items <= sc.items && sc0.objs <= sc.objs && sc0.slots <= sc.slots && made0 <= made
  }

  ghost predicate Has(made: Made, n: nat, x: nat) {
    exists a, i :: n <= a && MadeAt(made, a, i) && made[a][i] == x
  }

  // ----- adding an item, and a slot -----

  ghost function Add(sc: Scan, item: TreeItem, o: TreeObject): Scan {
    Scan(sc.items + [item], if sc.head == null then item else sc.head, sc.objs + [o], sc.slots + [[]])
  }

  ghost function Feed(sc: Scan, n: nat, s: TreeItem): Scan
    requires n < |sc.slots|
  {
    sc.(slots := sc.slots[n := sc.slots[n] + [s]])
  }

  ghost function Mark(made: Made, n: nat, x: nat): Made
    requires n < |made|
  {
    made[n := made[n] + [x]]
  }

  lemma SlotIn(sc: Scan, a: int, i: int)
    requires SlotAt(sc, a, i)
    ensures sc.slots[a][i] in AllSlots(sc)
  {
  }

  lemma InSlot(sc: Scan, s: TreeItem) returns (a: int, i: int)
    requires s in AllSlots(sc)
    ensures SlotAt(sc, a, i) && sc.slots[a][i] == s
  {
    a, i :| 0 <= a < |sc.slots| && 0 <= i < |sc.slots[a]| && sc.slots[a][i] == s;
  }

  lemma AddScanned(sc: Scan, made: Made, keys: nat, item: TreeItem, o: TreeObject)
    requires WellScanned(sc, made, keys) && o.name == item.name && o.key == keys && o.hasScript
    requires item !in sc.items && item !in AllSlots(sc)
    ensures WellScanned(Add(sc, item, o), made + [[]], keys + 1)
    ensures Extends(sc, made, Add(sc, item, o), made + [[]])
    ensures AllSlots(Add(sc, item, o)) == AllSlots(sc)
  {
    var sc', made' := Add(sc, item, o), made + [[]];
    assert forall a, i :: SlotAt(sc', a, i) <==> SlotAt(sc, a, i);
    assert forall a, i :: SlotAt(sc, a, i) ==> sc'.slots[a][i] == sc.slots[a][i];
    assert forall a, i :: MadeAt(made', a, i) <==> MadeAt(made, a, i);
    forall a, i | SlotAt(sc', a, i) ensures sc'.slots[a][i] !in sc'.items {
      SlotIn(sc, a, i);
    }
    forall s | s in AllSlots(sc') ensures s in AllSlots(sc) {
      var a, i := InSlot(sc', s);
      SlotIn(sc, a, i);
    }
    forall s | s in AllSlots(sc) ensures s in AllSlots(sc') {
      var a, i := InSlot(sc, s);
      SlotIn(sc', a, i);
    }
  }

  lemma FedSlots(sc: Scan, n: nat, s: TreeItem)
    requires n < |sc.slots|
    ensures forall a, i :: SlotAt(Feed(sc, n, s), a, i) <==> SlotAt(sc, a, i) || (a == n && i == |sc.slots[n]|)
    ensures forall a, i :: SlotAt(sc, a, i) ==> Feed(sc, n, s).slots[a][i] == sc.slots[a][i]
    ensures Feed(sc, n, s).slots[n][|sc.slots[n]|] == s
    ensures AllSlots(Feed(sc, n, s)) == AllSlots(sc) + {s}
  {
    var sc' := Feed(sc, n, s);
    forall t | t in AllSlots(sc') ensures t in AllSlots(sc) + {s} {
      var a, i := InSlot(sc', t);
      if !(a == n && i == |sc.slots[n]|) {
        SlotIn(sc, a, i);
      }
    }
    forall t | t in AllSlots(sc) + {s} ensures t in AllSlots(sc') {
      if t in AllSlots(sc) {
        var a, i := InSlot(sc, t);
        SlotIn(sc', a, i);
      } else {
        SlotIn(sc', n, |sc.slots[n]|);
      }
    }
  }

  lemma FedDistinguished(sc: Scan, keys: nat, n: nat, s: TreeItem)
    requires |sc.items| == |sc.objs| == |sc.slots| && Distinguished(sc, keys) && n < |sc.items|
             && sc.objs[n].kind == Seq
    requires s !in sc.items && s !in AllSlots(sc)
    ensures Distinguished(Feed(sc, n, s), keys)
  {
    hide AllSlots, Feed, SlotAt;
    FedSlots(sc, n, s);
    FedSizes(sc, n, s);
    var sc' := Feed(sc, n, s);
    forall a, i | SlotAt(sc, a, i) ensures sc.slots[a][i] != s {
      SlotIn(sc, a, i);
    }
  }

  lemma FedSizes(sc: Scan, n: nat, s: TreeItem)
    requires |sc.items| == |sc.objs| == |sc.slots| && n < |sc.slots|
    ensures var sc' := Feed(sc, n, s); sc'.items == sc.items && sc'.objs == sc.objs && |sc'.slots| == |sc.slots|
    ensures SlotAt(Feed(sc, n, s), n, |sc.slots[n]|)
    ensures forall a, i :: SlotAt(sc, a, i) ==> 0 <= a < |sc.slots| && 0 <= i < |sc.slots[a]|
    ensures forall a, i :: SlotAt(Feed(sc, n, s), a, i) ==> 0 <= a < |sc.slots| && 0 <= i < |Feed(sc, n, s).slots[a]|
  {
  }

  lemma MarkedMade(made: Made, n: nat, x: nat)
    requires n < |made|
    ensures forall a, i :: MadeAt(Mark(made, n, x), a, i) <==> MadeAt(made, a, i) || (a == n && i == |made[n]|)
    ensures forall a, i :: MadeAt(made, a, i) ==> Mark(made, n, x)[a][i] == made[a][i]
    ensures Mark(made, n, x)[n][|made[n]|] == x && |Mark(made, n, x)| == |made|
  {
  }

  lemma FedMatched(sc: Scan, made: Made, n: nat, s: TreeItem, x: nat)
    requires SameSizes(sc, made) && Matched(sc, made) && n < x < |sc.items|
    requires s.name == sc.items[x].name && !Has(made, 0, x)
    ensures SameSizes(Feed(sc, n, s), Mark(made, n, x)) && Matched(Feed(sc, n, s), Mark(made, n, x))
  {
    FedSlots(sc, n, s);
    MarkedMade(made, n, x);
    hide AllSlots;
    var sc', made' := Feed(sc, n, s), Mark(made, n, x);
    forall a, i | MadeAt(made', a, i)
      ensures a < made'[a][i] < |sc'.items| && sc'.items[made'[a][i]].name == sc'.slots[a][i].name
    {
      if MadeAt(made, a, i) {
        assert SlotAt(sc, a, i);
      }
    }
    forall a, i | MadeAt(made, a, i) ensures made[a][i] != x {
    }
  }

  /** A slot is fed to sequence `n`, for item `x` of the same name, which no slot was made with. */
  lemma FeedScanned(sc: Scan, made: Made, keys: nat, n: nat, s: TreeItem, x: nat)
    requires WellScanned(sc, made, keys) && n < x < |sc.items| && sc.objs[n].kind == Seq
    requires s !in sc.items && s !in AllSlots(sc) && s.name == sc.items[x].name && !Has(made, 0, x)
    ensures WellScanned(Feed(sc, n, s), Mark(made, n, x), keys)
    ensures AllSlots(Feed(sc, n, s)) == AllSlots(sc) + {s}
  {
    hide Matched, Distinguished, AllSlots, Has;
    FedDistinguished(sc, keys, n, s);
    FedMatched(sc, made, n, s, x);
    FedSlots(sc, n, s);
  }

  // ----- the table -----

  function InfoIn(o: TreeObject): CaseInfo {
    CaseInfo(o.preconds, o.breakIfFailed, o.abortIfFailed, o.criticity)
  }

  /** The item table scanned. */
  ghost function Rows(sc: Scan): (r: seq<Row>)
    requires |sc.items| == |sc.objs| == |sc.slots|
    ensures |r| == |sc.items|
  {
    seq(|sc.items|, a requires 0 <= a < |sc.items| => Row(sc.items[a].name, sc.objs[a].kind, Names(sc.slots[a]),
      InfoIn(sc.objs[a])))
  }

  /** Some more slots in line `n` of the table. */
  ghost function MoreSlots(rows: seq<Row>, n: nat, names: seq<string>): (r: seq<Row>)
    requires n < |rows|
    ensures |r| == |rows|
  {
    rows[n := rows[n].(slots := rows[n].slots + names)]
  }

  lemma AddRow(sc: Scan, item: TreeItem, o: TreeObject)
    requires |sc.items| == |sc.objs| == |sc.slots|
    ensures Rows(Add(sc, item, o)) == Rows(sc) + [Row(item.name, o.kind, [], InfoIn(o))]
  {
    assert Names([]) == [];
  }

  lemma FeedRow(sc: Scan, n: nat, s: TreeItem)
    requires |sc.items| == |sc.objs| == |sc.slots| && n < |sc.slots|
    ensures Rows(Feed(sc, n, s)) == MoreSlots(Rows(sc), n, [s.name])
  {
    assert Names(sc.slots[n] + [s]) == Names(sc.slots[n]) + [s.name];
  }

  lemma NoMoreSlots(rows: seq<Row>, n: nat)
    requires n < |rows|
    ensures MoreSlots(rows, n, []) + [] == rows
  {
    assert rows[n].slots + [] == rows[n].slots;
  }

  lemma MoreInTurn(rows: seq<Row>, n: nat, a: seq<string>, l: seq<Row>, b: seq<string>, m: seq<Row>)
    requires n < |rows|
    ensures n < |MoreSlots(rows, n, a) + l|
    ensures MoreSlots(MoreSlots(rows, n, a) + l, n, b) + m == MoreSlots(rows, n, a + b) + (l + m)
  {
    assert rows[n].slots + a + b == rows[n].slots + (a + b);
  }

  lemma MoreLast(rows: seq<Row>, row: Row, a: seq<string>)
    ensures MoreSlots(rows + [row], |rows|, a) == rows + [row.(slots := row.slots + a)]
  {
  }

  // ----- what has been added -----

  ghost function NewItems(sc: Scan, sc': Scan): seq<TreeItem> {
    if |sc.items| <= |sc'.items| then sc'.items[|sc.items|..] else []
  }

  ghost function NewObjs(sc: Scan, sc': Scan): seq<TreeObject> {
    if |sc.objs| <= |sc'.objs| then sc'.objs[|sc.objs|..] else []
  }

  ghost function NewSlots(sc: Scan, sc': Scan): set<TreeItem> {
    AllSlots(sc') - AllSlots(sc)
  }

  lemma NewlyAdded(sc: Scan, n: nat, s: TreeItem, item: TreeItem, o: TreeObject)
    requires n < |sc.slots|
    ensures var sc' := Feed(Add(sc, item, o), n, s);
            NewItems(sc, sc') == [item] && NewObjs(sc, sc') == [o] && NewSlots(sc, sc') <= {s}
  {
    SameSlots(sc, item, o);
    FedSlots(Add(sc, item, o), n, s);
  }

  lemma NewlyFed(sc: Scan, sc1: Scan, n: nat, s: TreeItem)
    requires n < |sc1.slots|
    ensures var sc' := Feed(sc1, n, s);
            && NewItems(sc, sc') == NewItems(sc, sc1) && NewObjs(sc, sc') == NewObjs(sc, sc1)
            && NewSlots(sc, sc') <= NewSlots(sc, sc1) + {s}
  {
    FedSlots(sc1, n, s);
  }

  lemma NewlyOpened(sc: Scan, item: TreeItem, o: TreeObject)
    ensures var sc' := Add(sc, item, o); NewItems(sc, sc') == [item] && NewObjs(sc, sc') == [o] && NewSlots(sc, sc') == {}
  {
    SameSlots(sc, item, o);
  }

  lemma NothingNew(sc: Scan)
    ensures NewItems(sc, sc) == [] && NewObjs(sc, sc) == [] && NewSlots(sc, sc) == {}
  {
  }

  lemma AddedInTurn(sc: Scan, sc1: Scan, sc2: Scan)
    requires sc.items <= sc1.items <= sc2.items && sc.objs <= sc1.objs <= sc2.objs
    ensures NewItems(sc, sc2) == NewItems(sc, sc1) + NewItems(sc1, sc2)
    ensures NewObjs(sc, sc2) == NewObjs(sc, sc1) + NewObjs(sc1, sc2)
    ensures NewSlots(sc, sc2) <= NewSlots(sc, sc1) + NewSlots(sc1, sc2)
  {
    hide AllSlots;
  }

  // ----- adding to the tree -----

  /** A new object, with its item in the table. */
  method AddItem(tree: Tree, kind: Kind, name: string, info: CaseInfo, lineno: int, ghost sc: Scan)
    returns (item: TreeItem, o: TreeObject)
    requires Held(tree, sc)
    modifies tree`items, tree`head, tree`keycount
    ensures fresh(item) && item.name == name && fresh(o) && o.kind == kind && o.name == name && o.hasScript
            && InfoIn(o) == info
    ensures o.key == old(tree.keycount) && tree.keycount == old(tree.keycount) + 1
    ensures Held(tree, Add(sc, item, o))
  {
    ghost var slots := AllSlots(sc);
    o := new TreeObject(kind, tree.keycount, name, true, info.preconds, info.breakIfFailed, info.abortIfFailed,
                        info.criticity, []);
    tree.keycount := tree.keycount + 1;
    item := new TreeItem(name, lineno, o);
    assert item !in slots;
    SameSlots(sc, item, o);
    tree.items := tree.items + [item];
    if tree.head == null {
      tree.head := item;
    }
  }

  lemma SameSlots(sc: Scan, item: TreeItem, o: TreeObject)
    ensures AllSlots(Add(sc, item, o)) == AllSlots(sc)
  {
    var sc' := Add(sc, item, o);
    forall s | s in AllSlots(sc') ensures s in AllSlots(sc) {
      var a, i := InSlot(sc', s);
      SlotIn(sc, a, i);
    }
    forall s | s in AllSlots(sc) ensures s in AllSlots(sc') {
      var a, i := InSlot(sc, s);
      SlotIn(sc', a, i);
    }
  }

  /** Add a slot to a sequence. */
  method SeqFeed(o: TreeObject, name: string, lineno: int, ghost tree: Tree, ghost sc: Scan, ghost n: nat) returns (slot: TreeItem)
    requires Held(tree, sc) && n < |sc.objs| && o == sc.objs[n] && forall b :: 0 <= b < |sc.objs| && b != n ==> sc.objs[b] != o
    modifies o`nodes
    ensures fresh(slot) && slot.name == name && Held(tree, Feed(sc, n, slot))
  {
    ghost var slots := AllSlots(sc);
    slot := new TreeItem(name, lineno, null);
    assert slot !in slots;
    FedSlots(sc, n, slot);
    o.nodes := o.nodes + [slot];
  }

  /** Take an item off the table: those after it move one place down. */
  method TreeRemove(tree: Tree, item: TreeItem)
    requires forall i, j :: 0 <= i < j < |tree.items| ==> tree.items[i] != tree.items[j]
    modifies tree`items
    ensures item !in old(tree.items) ==> tree.items == old(tree.items)
    ensures forall k :: 0 <= k < |old(tree.items)| && old(tree.items)[k] == item ==>
              tree.items == old(tree.items)[..k] + old(tree.items)[k + 1..]
  {
    ghost var was := tree.items;
    var offset := -1;
    var i := 0;
    while i < |tree.items|
      invariant 0 <= i <= |tree.items| == |was| && -1 <= offset < i
      invariant offset == -1 ==> tree.items == was && item !in was[..i]
      invariant offset >= 0 ==> was[offset] == item && tree.items[..i - 1] == was[..offset] + was[offset + 1..i]
      invariant forall j :: i <= j < |was| ==> tree.items[j] == was[j]
    {
      if tree.items[i] == item {
        offset := i;
        assert was[offset + 1..i + 1] == [] && tree.items[..i] == was[..offset];
      } else if offset >= 0 {
        ghost var front := tree.items[..i - 1];
        tree.items := tree.items[i - 1 := tree.items[i]];
        assert tree.items[..i] == front + [was[i]] && was[offset + 1..i + 1] == was[offset + 1..i] + [was[i]];
      }
      i := i + 1;
    }
    if offset >= 0 {
      tree.items := tree.items[..|tree.items| - 1];
    }
  }

  // ----- scanning -----

  /** The state while sequence `n` is scanned: what comes after it is complete, and no slot was made for it yet. */
  ghost predicate Open(sc0: Scan, made0: Made, sc: Scan, made: Made, n: nat) {
    && Extends(sc0, made0, sc, made) && n == |sc0.items| < |sc.items| && sc.objs[n].kind == Seq
    && (forall a :: n < a < |sc.objs| && sc.objs[a].kind == Seq ==> sc.slots[a] != [])
    && (forall x :: n < x < |sc.items| ==> Has(made, n, x))
    && !Has(made, 0, n)
  }

  /** A sequence without slots has no items after it. */
  lemma NothingAfter(sc0: Scan, made0: Made, sc: Scan, made: Made, n: nat, keys: nat)
    requires Open(sc0, made0, sc, made, n) && WellScanned(sc, made, keys) && sc.slots[n] == []
    ensures |sc.items| == n + 1
  {
    if |sc.items| > n + 1 {
      MadeByOwn(sc, made, n);
    }
  }

  lemma MadeByOwn(sc: Scan, made: Made, n: nat)
    requires SameSizes(sc, made) && Matched(sc, made) && Has(made, n, n + 1)
    ensures n < |sc.slots| && sc.slots[n] != []
  {
    var a, i := HasAt(made, n, n + 1);
  }

  lemma HasAt(made: Made, n: nat, x: nat) returns (a: int, i: int)
    requires Has(made, n, x)
    ensures n <= a && MadeAt(made, a, i) && made[a][i] == x
  {
    a, i :| n <= a && MadeAt(made, a, i) && made[a][i] == x;
  }

  lemma ObjectsApart(sc: Scan, made: Made, keys: nat, n: nat)
    requires WellScanned(sc, made, keys) && n < |sc.objs|
    ensures forall b :: 0 <= b < |sc.objs| && b != n ==> sc.objs[b] != sc.objs[n]
  {
    assert forall b :: 0 <= b < |sc.objs| && b != n ==> sc.objs[b].key != sc.objs[n].key;
  }

  /** A new sequence is opened. */
  lemma Opened(sc: Scan, made: Made, keys: nat, item: TreeItem, o: TreeObject)
    requires WellScanned(sc, made, keys) && o.kind == Seq
    ensures Open(sc, made, Add(sc, item, o), made + [[]], |sc.items|)
  {
    var made' := made + [[]];
    assert forall a, i :: MadeAt(made', a, i) ==> MadeAt(made, a, i) && made'[a][i] == made[a][i];
  }

  /** A script or a directory has been scanned and fed to the open sequence `n`. */
  lemma FedOpen(sc0: Scan, made0: Made, sc: Scan, made: Made, sc1: Scan, made1: Made, n: nat, s: TreeItem, x: nat)
    requires Open(sc0, made0, sc, made, n) && Extends(sc, made, sc1, made1) && x == |sc.items| < |sc1.items|
    requires forall a :: x <= a < |sc1.objs| && sc1.objs[a].kind == Seq ==> sc1.slots[a] != []
    requires forall y :: x < y < |sc1.items| ==> Has(made1, x, y)
    requires n < |made1| && SameSizes(Feed(sc1, n, s), Mark(made1, n, x)) && !Has(made1, 0, n)
    ensures Open(sc0, made0, Feed(sc1, n, s), Mark(made1, n, x), n)
  {
    var sc', made' := Feed(sc1, n, s), Mark(made1, n, x);
    MarkedMade(made1, n, x);
    forall y | n < y < |sc'.items| ensures Has(made', n, y) {
      if y < x {
        var a, i := HasAt(made, n, y);
        assert MadeAt(made1, a, i) && made'[a][i] == y;
      } else if y == x {
        assert MadeAt(made', n, |made1[n]|) && made'[n][|made1[n]|] == x;
      } else {
        var a, i := HasAt(made1, x, y);
        assert MadeAt(made', a, i) && made'[a][i] == y;
      }
    }
    NotMarked(made1, n, x, n);
  }

  lemma NotMarked(made: Made, n: nat, x: nat, y: nat)
    requires n < |made| && x != y
    ensures Has(Mark(made, n, x), 0, y) ==> Has(made, 0, y)
  {
    if Has(Mark(made, n, x), 0, y) {
      MarkHas(made, n, x, y);
    }
  }

  lemma MarkHas(made: Made, n: nat, x: nat, y: nat)
    requires n < |made| && x != y && Has(Mark(made, n, x), 0, y)
    ensures Has(made, 0, y)
  {
    var a, i := HasAt(Mark(made, n, x), 0, y);
    MarkedMade(made, n, x);
    assert MadeAt(made, a, i) && made[a][i] == y;
  }

  lemma MoreKeys(sc: Scan, made: Made, keys: nat, keys': nat)
    requires WellScanned(sc, made, keys) && keys <= keys'
    ensures WellScanned(sc, made, keys')
  {
  }

  /** Slots made later are for later items. */
  lemma NotMadeLater(sc: Scan, made: Made, sc1: Scan, made1: Made, keys: nat, n: nat)
    requires Extends(sc, made, sc1, made1) && WellScanned(sc1, made1, keys) && n < |sc.items| && !Has(made, 0, n)
    ensures !Has(made1, 0, n)
  {
    if Has(made1, 0, n) {
      StillMade(sc, made, sc1, made1, keys, n);
    }
  }

  lemma StillMade(sc: Scan, made: Made, sc1: Scan, made1: Made, keys: nat, n: nat)
    requires Extends(sc, made, sc1, made1) && WellScanned(sc1, made1, keys) && n < |sc.items| && Has(made1, 0, n)
    ensures Has(made, 0, n)
  {
    var a, i := HasAt(made1, 0, n);
    assert a < n;
    assert made[a] == made1[a];
    assert MadeAt(made, a, i) && made[a][i] == n;
  }

  lemma Unmade(sc: Scan, made: Made, keys: nat)
    requires WellScanned(sc, made, keys)
    ensures !Has(made + [[]], 0, |sc.items|)
  {
    var made' := made + [[]];
    forall a, i | MadeAt(made', a, i) ensures made'[a][i] != |sc.items| {
      assert MadeAt(made, a, i);
    }
  }

  lemma AddFeed(sc: Scan, n: nat, s: TreeItem, item: TreeItem, o: TreeObject)
    requires n < |sc.slots|
    ensures Add(Feed(sc, n, s), item, o) == Feed(Add(sc, item, o), n, s)
  {
  }

  /** Item `n` and what was there before it. */
  ghost predicate Kept(sc: Scan, sc': Scan, n: nat) {
    && n < |sc.items| && n < |sc'.items| && n < |sc.objs| && n < |sc'.objs|
    && sc'.items[n] == sc.items[n] && sc'.objs[n] == sc.objs[n] && sc'.head == sc.head
    && sc.items <= sc'.items && sc.objs <= sc'.objs
  }

  method ScanDirective(tree: Tree, name: string, info: CaseInfo, d: Directive) returns (next: CaseInfo)
    modifies tree`errors
    ensures next == Obey(info, d) && tree.errors == old(tree.errors) + DirectiveErrors(name, info, d)
  {
    next := info;
    match d {
      case Precondition(None) =>
        next := info.(preconds := []);
        tree.errors := tree.errors + [PrecondSyntax(name)];
      case Precondition(Some(list)) => next := info.(preconds := info.preconds + list);
      case Criticity(Missing) => tree.errors := tree.errors + [MissingCriticity(name)];
      case Criticity(Unknown) =>
        tree.errors := tree.errors + [if info.criticity != 0 then MultipleCriticity(name) else UnknownCriticity(name)];
      case Criticity(Known(level)) =>
        if info.criticity == 0 {
          next := info.(criticity := level);
        } else {
          tree.errors := tree.errors + [MultipleCriticity(name)];
        }
      case BreakIfFailed => next := info.(breakIfFailed := true);
      case AbortIfFailed => next := info.(abortIfFailed := true);
      case Note =>
    }
  }

  /** The directives of a script, one by one. */
  method ScanDirectives(tree: Tree, name: string, ds: seq<Directive>) returns (info: CaseInfo)
    modifies tree`errors
    ensures info == InfoOf(ds) && Told(ds, info) && tree.errors == old(tree.errors) + ScriptErrors(name, ds)
  {
    NoDirectives(name, ds);
    InfoTold(ds);
    hide *;
    info := NO_INFO;
    var i := 0;
    while i < |ds|
      invariant 0 <= i <= |ds| && info == InfoOf(ds[..i])
      invariant tree.errors == old(tree.errors) + ScriptErrors(name, ds[..i])
    {
      DirectiveNext(name, ds, i);
      info := ScanDirective(tree, name, info, ds[i]);
      i := i + 1;
    }
    assert ds[..i] == ds;
  }

  /** A script must have a package, and its directives be proper. */
  method ReadScript(tree: Tree, name: string, packaged: bool, ds: seq<Directive>, ghost sc: Scan)
    returns (info: CaseInfo)
    requires Held(tree, sc)
    modifies tree`errors
    ensures Held(tree, sc) && info == InfoOf(ds)
    ensures tree.errors == old(tree.errors) + LineErrors(Script(name, packaged, ds), false)
  {
    hide InfoOf, ScriptErrors, Told;
    if !packaged {
      tree.errors := tree.errors + [NoPackage(name)];
    }
    info := ScanDirectives(tree, name, ds);
  }

  /** A slot, and a test case of its name. */
  method AddScript(tree: Tree, o: TreeObject, name: string, info: CaseInfo, lineno: int, ghost sc0: Scan,
                   ghost made0: Made,
                    ghost sc: Scan, ghost made: Made, ghost n: nat)
    returns (ghost sc': Scan, ghost made': Made)
    requires Held(tree, sc) && WellScanned(sc, made, tree.keycount) && Open(sc0, made0, sc, made, n)
    requires o == sc.objs[n] && sc.head != null
    modifies tree`items, tree`head, tree`keycount, o`nodes
    ensures Held(tree, sc') && WellScanned(sc', made', tree.keycount) && Open(sc0, made0, sc', made', n)
            && Kept(sc, sc', n)
    ensures tree.keycount >= old(tree.keycount) && fresh(NewItems(sc, sc')) && fresh(NewObjs(sc, sc'))
            && fresh(NewSlots(sc, sc'))
    ensures Listed(sc, sc', n, [name], [Row(name, Case, [], info)])
  {
    hide Held, WellScanned, Open, Has, NewItems, NewObjs, NewSlots, Rows, MoreSlots;
    ghost var slots, keys := AllSlots(sc), tree.keycount;
    OpenSizes(sc0, made0, sc, made, n);
    ObjectsApart(sc, made, keys, n);
    var slot := SeqFeed(o, name, lineno, tree, sc, n);
    var item, obj := AddItem(tree, Case, name, info, lineno, Feed(sc, n, slot));
    AddFeed(sc, n, slot, item, obj);
    ghost var sc1, made1 := Add(sc, item, obj), made + [[]];
    AddScanned(sc, made, keys, item, obj);
    Unmade(sc, made, keys);
    FeedScanned(sc1, made1, tree.keycount, n, slot, |sc.items|);
    NotMadeLater(sc, made, sc1, made1, tree.keycount, n);
    ScannedSizes(Feed(sc1, n, slot), Mark(made1, n, |sc.items|), tree.keycount);
    FedOpen(sc0, made0, sc, made, sc1, made1, n, slot, |sc.items|);
    sc', made' := Feed(sc1, n, slot), Mark(made1, n, |sc.items|);
    NewlyAdded(sc, n, slot, item, obj);
    ScriptRow(sc, n, slot, item, obj);
  }

  /** A script: a slot of its name, and a test case with what its directives set. */
  method ScanScript(tree: Tree, o: TreeObject, name: string, packaged: bool, ds: seq<Directive>, lineno: int,
                    ghost sc0: Scan, ghost made0: Made, ghost sc: Scan, ghost made: Made, ghost n: nat)
    returns (ghost sc': Scan, ghost made': Made)
    requires Held(tree, sc) && WellScanned(sc, made, tree.keycount) && Open(sc0, made0, sc, made, n)
    requires o == sc.objs[n] && sc.head != null
    modifies tree`items, tree`head, tree`keycount, tree`errors, o`nodes
    ensures Held(tree, sc') && WellScanned(sc', made', tree.keycount) && Open(sc0, made0, sc', made', n)
            && Kept(sc, sc', n)
    ensures tree.keycount >= old(tree.keycount) && fresh(NewItems(sc, sc')) && fresh(NewObjs(sc, sc'))
            && fresh(NewSlots(sc, sc'))
    ensures Listed(sc, sc', n, [name], [Row(name, Case, [], InfoOf(ds))])
    ensures tree.errors == old(tree.errors) + LineErrors(Script(name, packaged, ds), false)
  {
    hide *;
    var info := ReadScript(tree, name, packaged, ds, sc);
    sc', made' := AddScript(tree, o, name, info, lineno, sc0, made0, sc, made, n);
  }

  /** Line `n` of the table has some more slots, and lines follow that were not there before. */
  ghost predicate Listed(sc: Scan, sc': Scan, n: nat, names: seq<string>, rows: seq<Row>) {
    && |sc.items| == |sc.objs| == |sc.slots| && |sc'.items| == |sc'.objs| == |sc'.slots| && n < |sc.items|
    && Rows(sc') == MoreSlots(Rows(sc), n, names) + rows
  }

  lemma ScriptRow(sc: Scan, n: nat, s: TreeItem, item: TreeItem, o: TreeObject)
    requires |sc.items| == |sc.objs| == |sc.slots| && n < |sc.slots|
    ensures Listed(sc, Feed(Add(sc, item, o), n, s), n, [s.name], [Row(item.name, o.kind, [], InfoIn(o))])
  {
    AddRow(sc, item, o);
    FeedRow(Add(sc, item, o), n, s);
  }

  lemma BranchRow(sc: Scan, sc1: Scan, n: nat, s: TreeItem, rows: seq<Row>)
    requires |sc.items| == |sc.objs| == |sc.slots| && |sc1.items| == |sc1.objs| == |sc1.slots| && n < |sc.slots|
    requires Rows(sc1) == Rows(sc) + rows
    ensures Listed(sc, Feed(sc1, n, s), n, [s.name], rows)
  {
    FeedRow(sc1, n, s);
  }

  lemma SameRows(sc: Scan, n: nat)
    requires |sc.items| == |sc.objs| == |sc.slots| && n < |sc.slots|
    ensures Listed(sc, sc, n, [], [])
  {
    NoMoreSlots(Rows(sc), n);
  }

  lemma ListedInTurn(sc: Scan, sc1: Scan, sc2: Scan, n: nat, a: seq<string>, l: seq<Row>, b: seq<string>, m: seq<Row>)
    requires Listed(sc, sc1, n, a, l) && Listed(sc1, sc2, n, b, m)
    ensures Listed(sc, sc2, n, a + b, l + m)
  {
    MoreInTurn(Rows(sc), n, a, l, b, m);
  }

  lemma OpenSizes(sc0: Scan, made0: Made, sc: Scan, made: Made, n: nat)
    requires Open(sc0, made0, sc, made, n)
    ensures |sc.items| == |sc.objs| == |sc.slots| == |made| && n < |sc.items| && sc.objs[n].kind == Seq
            && !Has(made, 0, n)
  {
  }

  lemma ScannedSizes(sc: Scan, made: Made, keys: nat)
    requires WellScanned(sc, made, keys)
    ensures SameSizes(sc, made)
  {
  }

  /** A file has been scanned: its sequence is the item after the `n` there were. */
  ghost predicate FileScanned(sc: Scan, made: Made, sc': Scan, made': Made, name: string) {
    var n := |sc.items|;
    && Open(sc, made, sc', made', n) && sc'.slots[n] != [] && sc'.items[n].name == name
    && sc'.head == if sc.head == null then sc'.items[n] else sc.head
  }

  /** A directory: its own file, and a slot for the sequence; nothing when that one is empty. */
  method ScanBranch(tree: Tree, o: TreeObject, name: string, lines: seq<Line>, lineno: int, ghost sc0: Scan,
                    ghost made0: Made,
                    ghost sc: Scan, ghost made: Made, ghost n: nat)
    returns (ghost sc': Scan, ghost made': Made)
    requires Held(tree, sc) && WellScanned(sc, made, tree.keycount) && Open(sc0, made0, sc, made, n)
    requires o == sc.objs[n] && sc.head != null
    modifies tree`items, tree`head, tree`keycount, tree`errors, tree`system, o`nodes
    ensures Held(tree, sc') && WellScanned(sc', made', tree.keycount) && Open(sc0, made0, sc', made', n)
            && Kept(sc, sc', n)
    ensures tree.keycount >= old(tree.keycount) && fresh(NewItems(sc, sc')) && fresh(NewObjs(sc, sc'))
            && fresh(NewSlots(sc, sc'))
    ensures Listed(sc, sc', n, FedLine(Branch(name, lines)), ListLine(Branch(name, lines)))
    ensures tree.errors == old(tree.errors) + FileErrors(lines, false) && tree.system == old(tree.system)
    decreases lines, 2
  {
    hide Held, WellScanned, Open, Has, NewItems, NewObjs, NewSlots, Rows, MoreSlots, ListLines, FedLines;
    OpenSizes(sc0, made0, sc, made, n);
    var ok;
    ghost var sc1, made1;
    ok, sc1, made1 := ScanFile(tree, name, lines, sc, made);
    if !ok {
      NothingNew(sc);
      SameRows(sc, n);
      return sc, made;
    }
    FileSizes(sc, made, sc1, made1, name);
    ghost var slots := AllSlots(sc1);
    ObjectsApart(sc1, made1, tree.keycount, n);
    var slot := SeqFeed(o, name, lineno, tree, sc1, n);
    FeedScanned(sc1, made1, tree.keycount, n, slot, |sc.items|);
    NotMadeLater(sc, made, sc1, made1, tree.keycount, n);
    ScannedSizes(Feed(sc1, n, slot), Mark(made1, n, |sc.items|), tree.keycount);
    FedOpen(sc0, made0, sc, made, sc1, made1, n, slot, |sc.items|);
    sc', made' := Feed(sc1, n, slot), Mark(made1, n, |sc.items|);
    NewlyFed(sc, sc1, n, slot);
    BranchRow(sc, sc1, n, slot, FileTable(name, lines));
  }

  lemma FileSizes(sc: Scan, made: Made, sc1: Scan, made1: Made, name: string)
    requires FileScanned(sc, made, sc1, made1, name)
    ensures |sc1.items| == |sc1.objs| == |sc1.slots| == |made1| && |sc.items| < |sc1.items|
    ensures Extends(sc, made, sc1, made1) && sc1.items[|sc.items|].name == name && !Has(made1, 0, |sc.items|)
    ensures forall a :: |sc.items| <= a < |sc1.objs| && sc1.objs[a].kind == Seq ==> sc1.slots[a] != []
    ensures forall y :: |sc.items| < y < |sc1.items| ==> Has(made1, |sc.items|, y)
  {
  }

  lemma LineWithoutItem(sc0: Scan, made0: Made, sc: Scan, made: Made, n: nat)
    requires Open(sc0, made0, sc, made, n)
    ensures NewItems(sc, sc) == [] && NewObjs(sc, sc) == [] && NewSlots(sc, sc) == {}
    ensures Kept(sc, sc, n) && Listed(sc, sc, n, [], [])
  {
    SameRows(sc, n);
  }

  /** A line of the file of the open sequence `n`, whose item is `current`. */
  method ScanLine(tree: Tree, current: TreeItem, o: TreeObject, line: Line, lineno: int, ghost sc0: Scan,
                  ghost made0: Made,
                  ghost sc: Scan, ghost made: Made, ghost n: nat)
    returns (ghost sc': Scan, ghost made': Made)
    requires Held(tree, sc) && WellScanned(sc, made, tree.keycount) && Open(sc0, made0, sc, made, n)
    requires n < |sc.objs| && o == sc.objs[n] && sc.head != null
    modifies tree`items, tree`head, tree`keycount, tree`errors, tree`system, o`nodes
    ensures Held(tree, sc') && WellScanned(sc', made', tree.keycount) && Open(sc0, made0, sc', made', n)
            && Kept(sc, sc', n)
    ensures tree.keycount >= old(tree.keycount)
    ensures fresh(NewItems(sc, sc')) && fresh(NewObjs(sc, sc')) && fresh(NewSlots(sc, sc'))
    ensures Listed(sc, sc', n, FedLine(line), ListLine(line))
    ensures tree.errors == old(tree.errors) + LineErrors(line, current == sc.head && old(tree.system) != None)
    ensures tree.system == if current == sc.head && old(tree.system) == None
            && line.System? then Some(line.name) else old(tree.system)
    decreases line, 0
  {
    hide Held, WellScanned, Open, NewItems, NewObjs, NewSlots, Listed, ListLines;
    HeldSame(tree, sc);
    match line {
      case Script(name, packaged, ds) =>
        sc', made' := ScanScript(tree, o, name, packaged, ds, lineno, sc0, made0, sc, made, n);
      case Branch(name, lines) => sc', made' := ScanBranch(tree, o, name, lines, lineno, sc0, made0, sc, made, n);
      case Lost(name) =>
        tree.errors := tree.errors + [NoScriptFile(name)] + [NoValidObject(name)];
        sc', made' := sc, made;
        LineWithoutItem(sc0, made0, sc, made, n);
      case System(name) =>
        if current == tree.head {
          if tree.system != None {
            tree.errors := tree.errors + [MultipleSystem(name)];
          } else {
            tree.system := Some(name);
          }
        }
        sc', made' := sc, made;
        LineWithoutItem(sc0, made0, sc, made, n);
      case Other =>
        sc', made' := sc, made;
        LineWithoutItem(sc0, made0, sc, made, n);
    }
  }

  /** The lines of the file of the open sequence `n`. */
  method ScanLines(tree: Tree, current: TreeItem, o: TreeObject, lines: seq<Line>, ghost sc0: Scan, ghost made0: Made,
                   ghost sc: Scan, ghost made: Made, ghost n: nat)
    returns (ghost sc': Scan, ghost made': Made)
    requires Held(tree, sc) && WellScanned(sc, made, tree.keycount) && Open(sc0, made0, sc, made, n)
    requires n < |sc.objs| && n < |sc.items| && o == sc.objs[n] && sc.head != null
    requires current == sc.head ==> tree.system == None
    modifies tree`items, tree`head, tree`keycount, tree`errors, tree`system, o`nodes
    ensures Held(tree, sc') && WellScanned(sc', made', tree.keycount) && Open(sc0, made0, sc', made', n)
            && Kept(sc, sc', n)
    ensures tree.keycount >= old(tree.keycount)
    ensures fresh(NewItems(sc, sc')) && fresh(NewObjs(sc, sc')) && fresh(NewSlots(sc, sc'))
    ensures Listed(sc, sc', n, FedLines(lines), ListLines(lines))
    ensures tree.errors == old(tree.errors) + FileErrors(lines, current == sc.head)
    ensures tree.system == if current == sc.head then SystemOf(lines) else old(tree.system)
    decreases lines, 0
  {
    hide Held, WellScanned, Open, NewItems, NewObjs, NewSlots, Listed, ListLines, FedLines, Kept, FileErrors,
         LineErrors, SystemOf;
    NoLines(lines);
    LineWithoutItem(sc0, made0, sc, made, n);
    sc', made' := sc, made;
    var i := 0;
    while i < |lines|
      invariant 0 <= i <= |lines| && tree.keycount >= old(tree.keycount)
      invariant Held(tree, sc') && WellScanned(sc', made', tree.keycount) && Open(sc0, made0, sc', made', n)
      invariant Kept(sc, sc', n) && Listed(sc, sc', n, FedLines(lines[..i]), ListLines(lines[..i]))
      invariant fresh(NewItems(sc, sc')) && fresh(NewObjs(sc, sc')) && fresh(NewSlots(sc, sc'))
      invariant n < |sc'.objs| && o == sc'.objs[n]
      invariant sc'.head == sc.head && tree.errors == old(tree.errors) + FileErrors(lines[..i], current == sc.head)
      invariant tree.system == if current == sc.head then SystemOf(lines[..i]) else old(tree.system)
    {
      ghost var before := sc';
      sc', made' := ScanLine(tree, current, o, lines[i], i + 1, sc0, made0, sc', made', n);
      KeptInTurn(sc, before, sc', n);
      AddedInTurn(sc, before, sc');
      ListedInTurn(sc, before, sc', n, FedLines(lines[..i]), ListLines(lines[..i]), FedLine(lines[i]),
        ListLine(lines[i]));
      NextLine(lines, i);
      i := i + 1;
    }
    assert lines[..i] == lines;
  }

  lemma KeptInTurn(sc: Scan, sc1: Scan, sc2: Scan, n: nat)
    requires Kept(sc, sc1, n) && Kept(sc1, sc2, n)
    ensures Kept(sc, sc2, n) && sc.items <= sc1.items <= sc2.items && sc.objs <= sc1.objs <= sc2.objs
    ensures sc1.head == sc.head && sc2.head == sc.head
    ensures n < |sc2.objs| && n < |sc2.items| && sc2.objs[n] == sc.objs[n] == sc1.objs[n]
  {
  }

  lemma NoLines(lines: seq<Line>)
    ensures FedLines(lines[..0]) == [] && ListLines(lines[..0]) == []
    ensures SystemOf(lines[..0]) == None && forall root :: FileErrors(lines[..0], root) == []
  {
  }

  lemma NextLine(lines: seq<Line>, i: nat)
    requires i < |lines|
    ensures FedLines(lines[..i + 1]) == FedLines(lines[..i]) + FedLine(lines[i])
    ensures ListLines(lines[..i + 1]) == ListLines(lines[..i]) + ListLine(lines[i])
    ensures SystemOf(lines[..i + 1]) ==
              if SystemOf(lines[..i]) == None && lines[i].System? then Some(lines[i].name) else SystemOf(lines[..i])
    ensures forall root :: FileErrors(lines[..i + 1], root) ==
                             FileErrors(lines[..i], root) + LineErrors(lines[i], root && SystemOf(lines[..i]) != None)
  {
    assert lines[..i + 1][..i] == lines[..i];
  }

  /** Scan a tree file into a new sequence; an empty one is taken off again. */
  method ScanFile(tree: Tree, name: string, lines: seq<Line>, ghost sc: Scan, ghost made: Made)
    returns (ok: bool, ghost sc': Scan, ghost made': Made)
    requires Held(tree, sc) && WellScanned(sc, made, tree.keycount) && (sc.head == null ==> tree.system == None)
    modifies tree`items, tree`head, tree`keycount, tree`errors, tree`system
    ensures tree.keycount >= old(tree.keycount)
    ensures !ok && sc.head != null ==> Held(tree, sc) && WellScanned(sc, made, tree.keycount)
    ensures ok ==> Held(tree, sc') && WellScanned(sc', made', tree.keycount) && FileScanned(sc, made, sc', made', name)
    ensures ok ==> fresh(NewItems(sc, sc')) && fresh(NewObjs(sc, sc')) && fresh(NewSlots(sc, sc'))
    ensures |sc.items| == |sc.objs| == |sc.slots| && (ok <==> ListLines(lines) != [])
    ensures ok ==> |sc'.items| == |sc'.objs| == |sc'.slots|
    ensures ok ==> Rows(sc') == Rows(sc) + FileTable(name, lines)
    ensures tree.errors == old(tree.errors) + FileErrors(lines, sc.head == null)
    ensures tree.system == if sc.head == null then SystemOf(lines) else old(tree.system)
    decreases lines, 1
  {
    hide Held, Filled, WellScanned, Open, Has, NewItems, NewObjs, NewSlots, Rows, MoreSlots, ListLines, FedLines;
    hide FileErrors, SystemOf, Listed, Matched, Distinguished;
    ScannedSizes(sc, made, tree.keycount);
    ghost var n, keys, slots := |sc.items|, tree.keycount, AllSlots(sc);
    var item, obj := AddItem(tree, Seq, name, NO_INFO, 0, sc);
    AddScanned(sc, made, keys, item, obj);
    Opened(sc, made, keys, item, obj);
    NewlyOpened(sc, item, obj);
    OpenSizes(sc, made, Add(sc, item, obj), made + [[]], n);
    sc', made' := ScanLines(tree, item, obj, lines, sc, made, Add(sc, item, obj), made + [[]], n);
    AddedInTurn(sc, Add(sc, item, obj), sc');
    FileRows(sc, item, obj, sc', name, FedLines(lines), ListLines(lines));
    OpenSizes(sc, made, sc', made', n);
    HeldNodes(tree, sc', n);
    ok := true;
    if obj.nodes == [] {
      NothingAfter(sc, made, sc', made', n, tree.keycount);
      LastItem(sc, made, sc', made', n);
      ItemsApart(sc', made', tree.keycount);
      TreeRemove(tree, item);
      MoreKeys(sc, made, keys, tree.keycount);
      HeldAgain(tree, sc);
      ok := false;
    } else {
      SomethingAfter(sc', made', n, tree.keycount);
    }
  }

  lemma FileRows(sc: Scan, item: TreeItem, o: TreeObject, sc': Scan, name: string, names: seq<string>, rows: seq<Row>)
    requires |sc.items| == |sc.objs| == |sc.slots| && item.name == name && o.kind == Seq && InfoIn(o) == NO_INFO
    requires Listed(Add(sc, item, o), sc', |sc.items|, names, rows)
    ensures Rows(sc') == Rows(sc) + ([Row(name, Seq, names, NO_INFO)] + rows)
  {
    AddRow(sc, item, o);
    MoreLast(Rows(sc), Row(name, Seq, [], NO_INFO), names);
    assert [] + names == names;
  }

  lemma SomethingAfter(sc: Scan, made: Made, n: nat, keys: nat)
    requires WellScanned(sc, made, keys) && n < |sc.slots| && sc.slots[n] != []
    ensures |sc.items| > n + 1
  {
    assert MadeAt(made, n, 0);
  }

  lemma HeldSame(tree: Tree, sc: Scan)
    requires Held(tree, sc)
    ensures tree.items == sc.items && tree.head == sc.head
  {
  }

  lemma ItemsApart(sc: Scan, made: Made, keys: nat)
    requires WellScanned(sc, made, keys)
    ensures forall i, j :: 0 <= i < j < |sc.items| ==> sc.items[i] != sc.items[j]
  {
  }

  lemma HeldNodes(tree: Tree, sc: Scan, n: nat)
    requires Held(tree, sc) && n < |sc.objs| == |sc.slots|
    ensures sc.objs[n].nodes == sc.slots[n] && Filled(sc) && tree.items == sc.items && tree.head == sc.head
  {
  }

  lemma HeldAgain(tree: Tree, sc: Scan)
    requires Filled(sc) && tree.items == sc.items
    ensures tree.head == sc.head ==> Held(tree, sc)
  {
  }

  /** What was there before a last item `n`. */
  lemma LastItem(sc: Scan, made: Made, sc': Scan, made': Made, n: nat)
    requires Open(sc, made, sc', made', n) && |sc'.items| == n + 1 && Filled(sc')
    ensures Filled(sc) && sc'.items[..n] == sc.items && sc'.items[n + 1..] == []
  {
    forall s | s in AllSlots(sc) ensures s.obj == null {
      var a, i := InSlot(sc, s);
      SlotIn(sc', a, i);
    }
  }

  // ----- a whole tree -----

  const NOTHING := Scan([], null, [], [])

  lemma NothingScanned(tree: Tree)
    requires tree.items == [] && tree.head == null
    ensures Held(tree, NOTHING) && WellScanned(NOTHING, [], 1)
  {
    assert AllSlots(NOTHING) == {};
  }

  /** What is left is fit for linking: no item, object or slot twice, and no empty sequence. */
  lemma RootScanned(tree: Tree, sc: Scan, made: Made, name: string)
    requires Held(tree, sc) && WellScanned(sc, made, tree.keycount) && FileScanned(NOTHING, [], sc, made, name)
    ensures ValidScan(sc) && |sc.objs| == |sc.items| == |sc.slots| && Table(tree, sc) && Unlinked(tree, sc)
    ensures forall o :: o in sc.objs ==> o.enter == 0 && !o.forceSkip && o.breakpoint == 0
    ensures sc.items != [] && sc.head == sc.items[0]
  {
    forall a | 0 <= a < |sc.items| ensures sc.objs[a].kind == Case <==> sc.slots[a] == [] {
      if sc.slots[a] != [] {
        assert SlotAt(sc, a, 0);
      }
    }
    forall a, i | SlotAt(sc, a, i) ensures sc.slots[a][i].obj == null {
      SlotIn(sc, a, i);
    }
  }

  lemma AllNew(sc: Scan)
    ensures NewItems(NOTHING, sc) == sc.items && NewObjs(NOTHING, sc) == sc.objs
            && NewSlots(NOTHING, sc) == AllSlots(sc)
  {
    assert AllSlots(NOTHING) == {};
  }

  /** Scan a tree from its root file; there is no tree when it is empty. */
  method ScanRoot(name: string, lines: seq<Line>) returns (tree: Tree, ok: bool, ghost sc: Scan, ghost made: Made)
    ensures fresh(tree) && tree.errors == FileErrors(lines, true) && tree.system == SystemOf(lines)
    ensures ok <==> ListLines(lines) != []
    ensures ok ==> fresh(sc.items) && fresh(sc.objs) && fresh(AllSlots(sc))
    ensures ok ==> |sc.items| == |sc.objs| == |sc.slots| && Rows(sc) == FileTable(name, lines)
    ensures ok ==>
              && ValidScan(sc) && |sc.objs| == |sc.items| == |sc.slots| && Table(tree, sc) && Unlinked(tree, sc)
              && (forall o :: o in sc.objs ==> o.enter == 0 && !o.forceSkip && o.breakpoint == 0)
              && sc.items != [] && sc.head == sc.items[0]
              && WellScanned(sc, made, tree.keycount) && FileScanned(NOTHING, [], sc, made, name)
  {
    hide Held, WellScanned, FileScanned, Table, Unlinked, ValidScan, NewItems, NewObjs, NewSlots;
    tree := new Tree([], null);
    NothingScanned(tree);
    ok, sc, made := ScanFile(tree, name, lines, NOTHING, []);
    if ok {
      RootScanned(tree, sc, made, name);
      AllNew(sc);
      assert Rows(NOTHING) == [];
    }
  }
}
