/**
  Loading a tree from its files: scanning, linking, threading and flags (core/codegen/codegen_tree.c).
 */
module TreeFile {
  import opened Shapes
  import opened TestTree
  import opened TreeLines
  import opened SuiteText
  import opened LinkPhase
  import opened CircularLinks
  import opened TreeLoad
  import opened Execution
  import opened Scanner
  import opened Flags
  import opened FlagsFile
  import opened FlagsTree

  /** The first item of a name, when the reference is in order, is the one that was made with the slot. */
  lemma TargetIsMade(sc: Scan, made: Made, keys: nat, name: string, a: int, i: int)
    requires |sc.objs| == |sc.items| == |sc.slots| && WellReferred(sc) && SlotAt(sc, a, i)
    requires WellScanned(sc, made, keys) && FileScanned(NOTHING, [], sc, made, name) && MadeAt(made, a, i)
    requires sc.items != [] && sc.head == sc.items[0]
    ensures Target(sc, a, i) == made[a][i]
  {
    var t := Target(sc, a, i);
    assert 0 < t;
    var b, j := HasAt(made, 0, t);
    assert SlotAt(sc, b, j) && sc.slots[b][j].name == sc.slots[a][i].name;
    assert Target(sc, b, j) == t;
  }

  /** In a tree without link errors, every sequence comes before what it refers to. */
  lemma ScanIsInOrder(sc: Scan, made: Made, keys: nat, name: string)
    requires |sc.objs| == |sc.items| == |sc.slots| && WellReferred(sc)
    requires WellScanned(sc, made, keys) && FileScanned(NOTHING, [], sc, made, name)
    requires sc.items != [] && sc.head == sc.items[0]
    ensures ScannedInOrder(sc)
  {
    hide WellReferred, FileScanned;
    forall a, i | SlotAt(sc, a, i) ensures a < Target(sc, a, i) {
      assert MadeAt(made, a, i);
      TargetIsMade(sc, made, keys, name, a, i);
    }
  }

  lemma CasesTable(sc: Scan, made: Made, keys: nat)
    requires |sc.objs| == |sc.items| == |sc.slots| && WellScanned(sc, made, keys)
    requires forall x, y :: 0 <= x < y < |sc.items| ==> sc.items[x].name != sc.items[y].name
    ensures CasesInOrder(sc) <==> CasesNamed(Rows(sc))
  {
    hide WellScanned;
    CasesHaveScripts(sc, made, keys);
    forall name ensures NamesCase(sc, name) <==> HasCase(Rows(sc), name) {
      if HasCase(Rows(sc), name) {
        var y :| 0 <= y < |Rows(sc)| && Rows(sc)[y].kind == Case && Rows(sc)[y].name == name;
        assert sc.items[y].name == name;
      }
      if NamesCase(sc, name) {
        var y := PlaceOf(sc.items, name);
        assert Rows(sc)[y].kind == Case && Rows(sc)[y].name == name;
      }
    }
    hide NamesCase, HasCase;
    assert forall a :: 0 <= a < |sc.objs| ==> Rows(sc)[a].kind == sc.objs[a].kind && Rows(sc)[a].info.preconds == sc.objs[a].preconds;
  }

  lemma CasesHaveScripts(sc: Scan, made: Made, keys: nat)
    requires |sc.objs| == |sc.items| == |sc.slots| && WellScanned(sc, made, keys)
    ensures forall a :: 0 <= a < |sc.objs| && sc.objs[a].kind == Case ==> sc.objs[a].hasScript
  {
  }

  /** In a tree without link errors no two items have the same name. */
  lemma SoundNames(sc: Scan, made: Made, keys: nat, name: string)
    requires |sc.objs| == |sc.items| == |sc.slots| && WellReferred(sc)
    requires WellScanned(sc, made, keys) && FileScanned(NOTHING, [], sc, made, name)
    requires sc.items != [] && sc.head == sc.items[0]
    ensures forall x, y :: 0 <= x < y < |sc.items| ==> sc.items[x].name != sc.items[y].name
  {
    hide WellReferred;
    forall x, y | 0 <= x < y < |sc.items| ensures sc.items[x].name != sc.items[y].name {
      var b, j := HasAt(made, 0, y);
      assert SlotAt(sc, b, j) && sc.slots[b][j].name == sc.items[y].name;
      TargetIsMade(sc, made, keys, name, b, j);
    }
  }

  /** With names of their own, references stand for the items that were made with them. */
  lemma NamedIsMade(sc: Scan, made: Made, keys: nat, name: string)
    requires |sc.objs| == |sc.items| == |sc.slots| && WellScanned(sc, made, keys)
             && FileScanned(NOTHING, [], sc, made, name)
    requires sc.items != [] && sc.head == sc.items[0]
    requires forall x, y :: 0 <= x < y < |sc.items| ==> sc.items[x].name != sc.items[y].name
    ensures forall a, i :: SlotAt(sc, a, i) ==> MadeAt(made, a, i) && Target(sc, a, i) == made[a][i] > 0
    ensures CasesInOrder(sc) ==> WellReferred(sc)
    ensures NoneLost(sc, |sc.items|)
  {
    hide CasesInOrder;
    forall a, i | SlotAt(sc, a, i) ensures MadeAt(made, a, i) && Target(sc, a, i) == made[a][i] > 0 {
      assert MadeAt(made, a, i);
    }
    assert forall a, i :: SlotAt(sc, a, i) ==> sc.items[Target(sc, a, i)] != sc.items[0];
    forall x | 0 < x < |sc.items| ensures Referred(sc, x, |sc.items|, 0) {
      var b, j := HasAt(made, 0, x);
      assert SlotAt(sc, b, j) && Before(b, j, |sc.items|, 0) && Target(sc, b, j) == x;
    }
  }

  lemma ReferredCases(sc: Scan)
    requires |sc.objs| == |sc.items| == |sc.slots| && WellReferred(sc)
    ensures CasesInOrder(sc)
  {
  }

  /** What scanning a root file leaves is sound exactly when the table is proper. */
  lemma SoundTable(sc: Scan, made: Made, keys: nat, name: string)
    requires |sc.objs| == |sc.items| == |sc.slots| && WellScanned(sc, made, keys)
             && FileScanned(NOTHING, [], sc, made, name)
    requires sc.items != [] && sc.head == sc.items[0]
    ensures Sound(sc) <==> ProperTable(Rows(sc))
  {
    hide CasesNamed, WellScanned, FileScanned, WellReferred, CasesInOrder, NoneLost;
    assert forall x :: 0 <= x < |sc.items| ==> Rows(sc)[x].name == sc.items[x].name;
    if Sound(sc) {
      SoundIsWellReferred(sc);
      SoundNames(sc, made, keys, name);
      ReferredCases(sc);
      CasesTable(sc, made, keys);
    }
    if ProperTable(Rows(sc)) {
      CasesTable(sc, made, keys);
      NamedIsMade(sc, made, keys, name);
    }
  }

  /** Below an object of a tree is also what it links to. */
  lemma {:induction false} LinkedBelow(f: Links, t: Node, k: nat, c: nat)
    requires Unfolds(f, t) && k in Preorder(t) && k in f && c in f[k]
    ensures c in Preorder(t)
  {
    if k == t.key {
      var i :| 0 <= i < |f[k]| && f[k][i] == c;
      RootsInPreorder(t.kids, i);
    } else {
      LinkedBelowAll(f, t.kids, k, c);
    }
  }

  lemma {:induction false} LinkedBelowAll(f: Links, ts: seq<Node>, k: nat, c: nat)
    requires (forall t :: t in ts ==> Unfolds(f, t)) && k in PreorderAll(ts) && k in f && c in f[k]
    ensures c in PreorderAll(ts)
  {
    if k in Preorder(ts[0]) {
      LinkedBelow(f, ts[0], k, c);
    } else {
      LinkedBelowAll(f, ts[1..], k, c);
    }
  }

  lemma {:induction false} RootsInPreorder(ts: seq<Node>, i: nat)
    requires i < |ts|
    ensures i < |Keys(ts)| && Keys(ts)[i] in PreorderAll(ts)
  {
    if i > 0 {
      RootsInPreorder(ts[1..], i - 1);
    }
  }

  /** Every item but the first is referred to by an item before it. */
  lemma MadeIsReferred(sc: Scan, made: Made, keys: nat, name: string, x: nat) returns (a: int, i: int)
    requires |sc.objs| == |sc.items| == |sc.slots| && WellReferred(sc) && 0 < x < |sc.items|
    requires WellScanned(sc, made, keys) && FileScanned(NOTHING, [], sc, made, name)
    requires sc.items != [] && sc.head == sc.items[0]
    ensures SlotAt(sc, a, i) && a < x && Target(sc, a, i) == x
  {
    hide WellReferred;
    a, i := HasAt(made, 0, x);
    assert SlotAt(sc, a, i);
    TargetIsMade(sc, made, keys, name, a, i);
  }

  /** All objects of the table can be reached from the root. */
  lemma {:induction false} ItemReached(sc: Scan, made: Made, keys: nat, name: string, t: Node, x: nat)
    requires |sc.objs| == |sc.items| == |sc.slots| && ValidScan(sc) && WellReferred(sc) && x < |sc.items|
    requires WellScanned(sc, made, keys) && FileScanned(NOTHING, [], sc, made, name)
    requires sc.items != [] && sc.head == sc.items[0] && Unfolds(LinksOf(sc), t) && t.key == sc.objs[0].key
    ensures sc.objs[x].key in Preorder(t)
    decreases x
  {
    hide WellReferred, ValidScan, WellScanned, FileScanned, Unfolds, LinksOf;
    if x > 0 {
      var a, i := MadeIsReferred(sc, made, keys, name, x);
      ItemReached(sc, made, keys, name, t, a);
      LinkCount(sc, a);
      LinkTarget(sc, a, i);
      LinkedBelow(LinksOf(sc), t, sc.objs[a].key, sc.objs[x].key);
    }
  }

  lemma AllHeld(sc: Scan, made: Made, keys: nat, name: string)
    requires |sc.objs| == |sc.items| == |sc.slots| && WellReferred(sc) && ScannedInOrder(sc)
    requires WellScanned(sc, made, keys) && FileScanned(NOTHING, [], sc, made, name)
    requires sc.items != [] && sc.head == sc.items[0]
    ensures OneRoot(ShapeOf(sc))
  {
    hide WellReferred, WellScanned, FileScanned;
    forall x | 0 < x < |sc.objs| ensures Holder(sc, x) >= 0 {
      var a, i := MadeIsReferred(sc, made, keys, name, x);
      HolderIs(sc, a, i);
    }
  }

  lemma AllReached(sc: Scan, made: Made, keys: nat, name: string, t: Node)
    requires |sc.objs| == |sc.items| == |sc.slots| && ValidScan(sc) && WellReferred(sc)
    requires WellScanned(sc, made, keys) && FileScanned(NOTHING, [], sc, made, name)
    requires sc.items != [] && sc.head == sc.items[0] && Unfolds(LinksOf(sc), t) && t.key == sc.objs[0].key
    ensures WholeTable(sc.objs, UniverseOf(sc), t)
  {
    hide *;
    forall x | 0 <= x < |sc.objs| ensures sc.objs[x].key in Preorder(t) {
      ItemReached(sc, made, keys, name, t, x);
    }
    KeysPositive(sc, made, keys);
    WholeScan(sc, t);
  }

  lemma KeysPositive(sc: Scan, made: Made, keys: nat)
    requires |sc.objs| == |sc.items| == |sc.slots| && WellScanned(sc, made, keys)
    ensures forall x :: 0 <= x < |sc.objs| ==> sc.objs[x].key != 0
  {
  }

  lemma WholeScan(sc: Scan, t: Node)
    requires ValidScan(sc) && forall x :: 0 <= x < |sc.objs| ==> sc.objs[x].key != 0 && sc.objs[x].key in Preorder(t)
    ensures WholeTable(sc.objs, UniverseOf(sc), t)
  {
    hide ValidScan, Preorder;
  }

  lemma TreeTop(tree: Tree, sc: Scan, u: Universe, f: Links, t: Node)
    requires Table(tree, sc) && |sc.objs| == |sc.items| && sc.items != [] && sc.head == sc.items[0]
    requires tree.head != null && tree.head.obj != null && Ready(u, f, tree.head.obj, t)
    ensures Unfolds(f, t) && t.key == sc.objs[0].key
    ensures tree.head == sc.head && sc.head in sc.items && sc.head.obj != null && sc.head.obj in sc.objs
  {
  }

  lemma NoneEntered(sc: Scan)
    requires ValidScan(sc) && forall o :: o in sc.objs ==> o.enter == 0
    ensures Entered(UniverseOf(sc)) == {}
  {
  }

  lemma NewFlags(objs: seq<TreeObject>)
    requires forall o :: o in objs ==> !o.forceSkip && o.breakpoint == 0
    ensures MarksOf(objs) == NewMarks(|objs|)
  {
    hide MarksOf;
  }

  lemma ShapeSize(sc: Scan)
    requires ScannedInOrder(sc) && |sc.objs| == |sc.slots|
    ensures |ShapeOf(sc).kinds| == |sc.objs|
  {
  }

  /** The objects scanned form a tree below the root, which holds all of them and is threaded for execution. */
  ghost predicate TreeReady(tree: Tree, sc: Scan, t: Node)
    requires |sc.objs| == |sc.items| == |sc.slots|
    reads tree`head, sc.items`obj, sc.objs`nodes, sc.objs`parentSeq, sc.objs`endJump, sc.objs`breakJump,
          AllSlots(sc)`obj
  {
    && ValidScan(sc) && WellReferred(sc) && tree.head == sc.head && sc.head in sc.items && sc.head.obj in sc.objs
    && Ready(UniverseOf(sc), LinksOf(sc), sc.head.obj, t)
    && Family(UniverseOf(sc), LinksOf(sc), sc.head.obj)
    && WholeTable(sc.objs, UniverseOf(sc), t)
  }

  /** The table has the shape that saving and loading flags rely on. */
  ghost predicate Flaggable(tree: Tree, sc: Scan)
    reads tree`items, sc.items`obj, AllSlots(sc)`obj, sc.objs`nodes, sc.objs`parentSeq
  {
    && |sc.objs| == |sc.slots| && ScannedInOrder(sc) && OneRoot(ShapeOf(sc))
    && TableOf(tree, ShapeOf(sc), Items(sc.items, sc.objs, AllSlots(sc)))
    && |ShapeOf(sc).kinds| == |sc.objs|
  }

  /** The flags are those of the flags file. */
  ghost predicate FlagsLoaded(sc: Scan, flags: Option<string>)
    reads sc.objs`forceSkip, sc.objs`breakpoint
  {
    && |sc.objs| == |sc.slots| && ScannedInOrder(sc) && |ShapeOf(sc).kinds| == |sc.objs|
    && MarksOf(sc.objs) == if flags == None
       then NewMarks(|sc.objs|) else LoadText(ShapeOf(sc), flags.value, NewMarks(|sc.objs|))
  }

  lemma TreeIsReady(tree: Tree, sc: Scan, t: Node)
    requires ValidScan(sc) && |sc.objs| == |sc.items| == |sc.slots| && WellReferred(sc)
    requires tree.head == sc.head && sc.head in sc.items && sc.head.obj != null && sc.head.obj in sc.objs
    requires Ready(UniverseOf(sc), LinksOf(sc), tree.head.obj, t) && Family(UniverseOf(sc), LinksOf(sc), tree.head.obj)
    requires WholeTable(sc.objs, UniverseOf(sc), t)
    ensures TreeReady(tree, sc, t)
  {
    hide ValidScan, WellReferred, UniverseOf, LinksOf, Ready, Family, WholeTable;
  }

  /** Link and thread a tree just scanned. */
  method LinkScanned(tree: Tree, name: string, ghost sc: Scan, ghost made: Made) returns (ok: bool, ghost t: Node)
    requires ValidScan(sc) && |sc.objs| == |sc.items| == |sc.slots| && Table(tree, sc) && Unlinked(tree, sc)
             && tree.errors == []
    requires forall o :: o in sc.objs ==> o.enter == 0
    requires sc.items != [] && sc.head == sc.items[0]
    requires WellScanned(sc, made, tree.keycount) && FileScanned(NOTHING, [], sc, made, name)
    modifies tree`errors, tree`stack, sc.items`links, AllSlots(sc)`obj
    modifies sc.objs`parentSeq, sc.objs`enter, sc.objs`nodes, sc.objs`endJump, sc.objs`breakJump
    ensures (ok <==> Sound(sc)) && (ok <==> tree.errors == [])
    ensures ok ==> TreeReady(tree, sc, t) && Flaggable(tree, sc)
  {
    hide *;
    ghost var u, keys := UniverseOf(sc), tree.keycount;
    NoneEntered(sc);
    UniverseIs(sc, u);
    ok, t := LoadTree(tree, sc, u);
    if ok {
      SoundIsWellReferred(sc);
      ScanIsInOrder(sc, made, keys, name);
      TreeTop(tree, sc, u, LinksOf(sc), t);
      AllReached(sc, made, keys, name, t);
      LoadedTreeIsShaped(tree, sc);
      AllHeld(sc, made, keys, name);
      ShapeSize(sc);
      TreeIsFlaggable(tree, sc);
      TreeIsReady(tree, sc, t);
    }
  }

  /** Loading the flags changes nothing else of a tree. */
  method LoadFlagsOnly(tree: Tree, flags: Option<string>, ghost sh: Shape, ghost items: Items,
                       ghost u: Universe, ghost f: Links, ghost root: TreeObject, ghost t: Node)
    requires Ready(u, f, root, t) && Family(u, f, root)
    requires TableOf(tree, sh, items) && |items.objs| == |sh.kinds|
    modifies items.objs`forceSkip, items.objs`breakpoint
    ensures Ready(u, f, root, t) && Family(u, f, root) && TableOf(tree, sh, items)
    ensures MarksOf(items.objs) == if flags == None
            then old(MarksOf(items.objs)) else LoadText(sh, flags.value, old(MarksOf(items.objs)))
  {
    hide *;
    LoadFlags(tree, flags, sh, items);
  }

  method LoadFlagsLast(tree: Tree, flags: Option<string>, ghost sc: Scan, ghost t: Node)
    requires |sc.objs| == |sc.items| == |sc.slots| && TreeReady(tree, sc, t) && Flaggable(tree, sc)
    requires MarksOf(sc.objs) == NewMarks(|sc.objs|)
    modifies sc.objs`forceSkip, sc.objs`breakpoint
    ensures TreeReady(tree, sc, t) && Flaggable(tree, sc) && FlagsLoaded(sc, flags)
  {
    hide *;
    ReadyParts(tree, sc, t);
    FlaggableParts(tree, sc);
    LoadFlagsOnly(tree, flags, ShapeOf(sc), Items(sc.items, sc.objs, AllSlots(sc)), UniverseOf(sc), LinksOf(sc),
      sc.head.obj, t);
    TreeIsReady(tree, sc, t);
    TreeIsFlaggable(tree, sc);
    FlagsAreLoaded(sc, flags);
  }

  lemma FlaggableParts(tree: Tree, sc: Scan)
    requires Flaggable(tree, sc)
    ensures |sc.objs| == |sc.slots| && ScannedInOrder(sc) && OneRoot(ShapeOf(sc)) && |ShapeOf(sc).kinds| == |sc.objs|
    ensures TableOf(tree, ShapeOf(sc), Items(sc.items, sc.objs, AllSlots(sc)))
  {
  }

  lemma TreeIsFlaggable(tree: Tree, sc: Scan)
    requires |sc.objs| == |sc.slots| && ScannedInOrder(sc) && OneRoot(ShapeOf(sc)) && |ShapeOf(sc).kinds| == |sc.objs|
    requires TableOf(tree, ShapeOf(sc), Items(sc.items, sc.objs, AllSlots(sc)))
    ensures Flaggable(tree, sc)
  {
    hide TableOf, ShapeOf, OneRoot;
  }

  lemma ReadyParts(tree: Tree, sc: Scan, t: Node)
    requires |sc.objs| == |sc.items| == |sc.slots| && TreeReady(tree, sc, t)
    ensures ValidScan(sc) && WellReferred(sc) && tree.head == sc.head && sc.head in sc.items && sc.head.obj != null
            && sc.head.obj in sc.objs
    ensures Ready(UniverseOf(sc), LinksOf(sc), sc.head.obj, t)
    ensures Family(UniverseOf(sc), LinksOf(sc), sc.head.obj)
    ensures WholeTable(sc.objs, UniverseOf(sc), t)
  {
  }

  lemma FlagsAreLoaded(sc: Scan, flags: Option<string>)
    requires |sc.objs| == |sc.slots| && ScannedInOrder(sc) && |ShapeOf(sc).kinds| == |sc.objs|
    requires MarksOf(sc.objs) == if flags == None
             then NewMarks(|sc.objs|) else LoadText(ShapeOf(sc), flags.value, NewMarks(|sc.objs|))
    ensures FlagsLoaded(sc, flags)
  {
    hide MarksOf, LoadText, ShapeOf;
  }

  /** Link and thread a tree just scanned, and load its flags. */
  method LoadScanned(tree: Tree, name: string, flags: Option<string>, ghost sc: Scan, ghost made: Made)
    returns (ok: bool, ghost t: Node)
    requires ValidScan(sc) && |sc.objs| == |sc.items| == |sc.slots| && Table(tree, sc) && Unlinked(tree, sc)
             && tree.errors == []
    requires forall o :: o in sc.objs ==> o.enter == 0 && !o.forceSkip && o.breakpoint == 0
    requires sc.items != [] && sc.head == sc.items[0]
    requires WellScanned(sc, made, tree.keycount) && FileScanned(NOTHING, [], sc, made, name)
    modifies tree`errors, tree`stack, sc.items`links, AllSlots(sc)`obj, sc.objs
    ensures (ok <==> Sound(sc)) && (ok <==> tree.errors == [])
    ensures ok ==> TreeReady(tree, sc, t) && Flaggable(tree, sc) && FlagsLoaded(sc, flags)
  {
    hide *;
    NewFlags(sc.objs);
    ok, t := LinkScanned(tree, name, sc, made);
    if ok {
      LoadFlagsLast(tree, flags, sc, t);
    }
  }

  /**
    Load a tree from its files and its flags. The item table is the one that the files describe. Loading
    succeeds if and only if the files are proper and hold a script, the names are all different, and all
    preconditions of all scripts name scripts; the objects then form a tree below the root, threaded for
    execution, with the flags of the flags file.
   */
  method LoadFile(name: string, lines: seq<Line>, flags: Option<string>)
    returns (tree: Tree, ok: bool, ghost sc: Scan, ghost t: Node)
    ensures fresh(tree) && tree.system == SystemOf(lines)
    ensures ok <==> Scripts(lines) != [] && ProperFiles(lines) && WellNamedFiles(name, lines)
    ensures Scripts(lines) != [] ==>
              && ValidScan(sc) && |sc.objs| == |sc.items| == |sc.slots| && Rows(sc) == FileTable(name, lines)
              && (ok <==> tree.errors == []) && (!ProperFiles(lines) ==> tree.errors == FileErrors(lines, true))
    ensures ok ==> Sound(sc) && TreeReady(tree, sc, t) && Flaggable(tree, sc) && FlagsLoaded(sc, flags)
  {
    hide *;
    ghost var made;
    TableIs(name, lines);
    tree, ok, sc, made := ScanRoot(name, lines);
    t := Node(0, []);
    if !ok {
      return;
    }
    NoFileErrors(lines);
    if tree.errors != [] {
      ok := false;
      return;
    }
    TableIsProper(name, lines);
    SoundTable(sc, made, tree.keycount, name);
    ok, t := LoadScanned(tree, name, flags, sc, made);
  }

  // ----- saving the flags of a tree, and loading it again -----

  /** The names of a table that keep their flags: plain ones, and a root's that stands for all. */
  predicate KeepsFlags(rows: seq<Row>) {
    && (forall x :: 0 < x < |rows| ==> Plain(rows[x].name))
    && (rows != [] ==> Plain(rows[0].name) || ('\n' !in rows[0].name && HasStar(SavedNames(rows[0].name))))
  }

  lemma ShapeNames(sc: Scan)
    requires ValidScan(sc) && |sc.objs| == |sc.items| == |sc.slots| && ScannedInOrder(sc)
    ensures |ShapeOf(sc).names| == |Rows(sc)|
            && forall x :: 0 <= x < |Rows(sc)| ==> ShapeOf(sc).names[x] == Rows(sc)[x].name
  {
  }

  lemma LoadedNames(sc: Scan)
    requires ValidScan(sc) && |sc.objs| == |sc.items| == |sc.slots| && ScannedInOrder(sc) && OneRoot(ShapeOf(sc))
    requires ProperTable(Rows(sc)) && KeepsFlags(Rows(sc))
    ensures WellNamed(ShapeOf(sc))
  {
    hide ValidScan, ShapeOf, Plain, HasStar, Rows, CasesNamed;
    ShapeNames(sc);
  }

  /** Two trees from the same files have tables of the same shape. */
  lemma SameShape(sc: Scan, sc': Scan)
    requires ValidScan(sc) && |sc.objs| == |sc.items| == |sc.slots| && ScannedInOrder(sc) && WellReferred(sc)
    requires ValidScan(sc') && |sc'.objs| == |sc'.items| == |sc'.slots| && ScannedInOrder(sc') && WellReferred(sc')
    requires Rows(sc) == Rows(sc')
    ensures ShapeOf(sc) == ShapeOf(sc')
  {
    hide WellReferred, Holder, ValidScan;
    SameTargets(sc, sc');
    forall x | 0 <= x < |sc.objs| ensures Holder(sc, x) == Holder(sc', x) {
      SameHolder(sc, sc', x);
      SameHolder(sc', sc, x);
    }
    forall a | 0 <= a < |sc.objs|
      ensures sc.objs[a].name == sc'.objs[a].name && sc.objs[a].kind == sc'.objs[a].kind
              && KidsOf(sc, a) == KidsOf(sc', a)
    {
      SameRow(sc, sc', a);
    }
  }

  lemma SameRow(sc: Scan, sc': Scan, a: int)
    requires ValidScan(sc) && |sc.objs| == |sc.items| == |sc.slots| && ScannedInOrder(sc)
    requires ValidScan(sc') && |sc'.objs| == |sc'.items| == |sc'.slots| && ScannedInOrder(sc')
    requires Rows(sc) == Rows(sc') && 0 <= a < |sc.objs|
    requires forall b, i :: SlotAt(sc, b, i) ==> SlotAt(sc', b, i) && Target(sc, b, i) == Target(sc', b, i)
    ensures |sc'.objs| == |sc.objs|
    ensures sc.objs[a].name == sc'.objs[a].name && sc.objs[a].kind == sc'.objs[a].kind
            && KidsOf(sc, a) == KidsOf(sc', a)
  {
    assert |Rows(sc)| == |sc.objs| && |Rows(sc')| == |sc'.objs|;
    assert Rows(sc)[a] == Rows(sc')[a];
    assert |sc.slots[a]| == |sc'.slots[a]| by { assert |Rows(sc)[a].slots| == |Rows(sc')[a].slots|; }
    assert forall i :: 0 <= i < |sc.slots[a]| ==> SlotAt(sc, a, i);
  }

  lemma SameTargets(sc: Scan, sc': Scan)
    requires |sc.objs| == |sc.items| == |sc.slots| && |sc'.objs| == |sc'.items| == |sc'.slots| && Rows(sc) == Rows(sc')
    ensures forall a, i :: SlotAt(sc, a, i) <==> SlotAt(sc', a, i)
    ensures forall a, i :: SlotAt(sc, a, i) ==> Target(sc, a, i) == Target(sc', a, i)
  {
    assert |Rows(sc)| == |sc.items| && |Rows(sc')| == |sc'.items|;
    forall a | 0 <= a < |sc.items| ensures sc.items[a].name == sc'.items[a].name
      && Names(sc.slots[a]) == Names(sc'.slots[a]) {
      assert Rows(sc)[a] == Rows(sc')[a];
    }
    assert Names(sc.items) == Names(sc'.items);
    forall a, i ensures SlotAt(sc, a, i) <==> SlotAt(sc', a, i) {
      assert 0 <= a < |sc.items| ==> |Names(sc.slots[a])| == |Names(sc'.slots[a])|;
    }
    forall a, i | SlotAt(sc, a, i) ensures Target(sc, a, i) == Target(sc', a, i) {
      assert Names(sc.slots[a])[i] == Names(sc'.slots[a])[i];
    }
  }

  lemma SameHolder(sc: Scan, sc': Scan, x: int)
    requires |sc.objs| == |sc.items| == |sc.slots| && |sc'.objs| == |sc'.items| == |sc'.slots| && WellReferred(sc')
    requires forall a, i :: SlotAt(sc, a, i) ==> SlotAt(sc', a, i) && Target(sc, a, i) == Target(sc', a, i)
    ensures Holder(sc, x) >= 0 ==> Holder(sc', x) == Holder(sc, x)
    ensures Holder(sc, x) < 0 ==> Holder(sc, x) == -1
  {
    hide WellReferred;
    if Holder(sc, x) >= 0 {
      var i := HolderRefers(sc, x);
      HolderIs(sc', Holder(sc, x), i);
    } else {
      HolderBound(sc, x);
    }
  }

  /** The file saved for the flags of a tree. */
  ghost predicate FileOf(sc: Scan, file: Option<string>)
    reads sc.objs`forceSkip, sc.objs`breakpoint
  {
    && |sc.objs| == |sc.slots| && ScannedInOrder(sc) && ValidShape(ShapeOf(sc))
    && |sc.objs| == |ShapeOf(sc).kinds| == |ShapeOf(sc).parents| == |ShapeOf(sc).names|
    && (forall j :: 0 <= j < |ShapeOf(sc).parents| ==> ShapeOf(sc).parents[j] < j)
    && var text := SavedText(ShapeOf(sc), MarksOf(sc.objs), |sc.objs|);
       file == if text == [] then None else Some(text)
  }

  method SaveTree(tree: Tree, ghost sc: Scan) returns (file: Option<string>)
    requires Flaggable(tree, sc)
    ensures FileOf(sc, file)
  {
    hide TableOf, ShapeOf, ValidShape, MarksOf, SavedText, OneRoot, ScannedInOrder;
    ShapeParts(tree, sc);
    file := SaveFlags(tree, ShapeOf(sc), Items(sc.items, sc.objs, AllSlots(sc)));
  }

  /** The flags of two trees, with breakpoints just set or not. */
  ghost predicate SameFlags(sc: Scan, sc': Scan)
    reads sc.objs`forceSkip, sc.objs`breakpoint, sc'.objs`forceSkip, sc'.objs`breakpoint
  {
    && |sc'.objs| == |sc.objs|
    && forall i :: 0 <= i < |sc.objs| ==>
         && sc'.objs[i].forceSkip == sc.objs[i].forceSkip
         && (sc.objs[i].kind == Case ==> sc'.objs[i].breakpoint == if sc.objs[i].breakpoint > 0 then 1 else 0)
  }

  /** The objects of two item tables have the same flags, with breakpoints just set or not. */
  ghost predicate SameItemFlags(items: seq<TreeItem>, items': seq<TreeItem>)
    reads items`obj, items'`obj
    reads set i | i in items && i.obj != null :: i.obj, set i | i in items' && i.obj != null :: i.obj
  {
    && |items'| == |items|
    && forall i :: 0 <= i < |items| ==>
         && items[i].obj != null && items'[i].obj != null
         && items'[i].obj.forceSkip == items[i].obj.forceSkip
         && (items[i].obj.kind == Case ==>
               items'[i].obj.breakpoint == if items[i].obj.breakpoint > 0 then 1 else 0)
  }

  lemma ItemFlags(tree: Tree, sc: Scan, copy: Tree, sc': Scan)
    requires |sc.objs| == |sc.items| && tree.items == sc.items && |sc'.objs| == |sc'.items| && copy.items == sc'.items
    requires forall i :: 0 <= i < |sc.items| ==> sc.items[i].obj == sc.objs[i]
    requires forall i :: 0 <= i < |sc'.items| ==> sc'.items[i].obj == sc'.objs[i]
    requires SameFlags(sc, sc')
    ensures SameItemFlags(tree.items, copy.items)
  {
  }

  lemma FlaggableItems(tree: Tree, sc: Scan)
    requires Flaggable(tree, sc)
    ensures tree.items == sc.items && |sc.objs| == |sc.items|
    ensures forall i :: 0 <= i < |sc.items| ==> sc.items[i].obj == sc.objs[i]
  {
  }

  /** Save the flags of a loaded tree, and load the tree again: whatever its flags were, they are restored. */
  method SaveAndReload(tree: Tree, name: string, lines: seq<Line>, ghost sc: Scan, ghost t: Node)
    returns (copy: Tree, ghost sc': Scan, ghost t': Node)
    requires |sc.objs| == |sc.items| == |sc.slots| && TreeReady(tree, sc, t) && Flaggable(tree, sc)
    requires Scripts(lines) != [] && ProperFiles(lines) && WellNamedFiles(name, lines)
    requires Rows(sc) == FileTable(name, lines) && KeepsFlags(Rows(sc))
    ensures SameItemFlags(tree.items, copy.items)
    ensures |sc'.objs| == |sc'.items| == |sc'.slots| && TreeReady(copy, sc', t')
  {
    hide *;
    TableIsProper(name, lines);
    BeforeReload(tree, sc, t);
    FlaggableItems(tree, sc);
    var file := SaveTree(tree, sc);
    var ok;
    copy, ok, sc', t' := LoadFile(name, lines, file);
    assert FileOf(sc, file);
    Reloaded(sc, copy, sc', t', file);
    FlaggableItems(copy, sc');
    ItemFlags(tree, sc, copy, sc');
  }

  lemma BeforeReload(tree: Tree, sc: Scan, t: Node)
    requires |sc.objs| == |sc.items| == |sc.slots| && TreeReady(tree, sc, t) && Flaggable(tree, sc)
    requires ProperTable(Rows(sc)) && KeepsFlags(Rows(sc))
    ensures ValidScan(sc) && WellReferred(sc) && ScannedInOrder(sc) && WellNamed(ShapeOf(sc))
  {
    hide *;
    ReadyParts(tree, sc, t);
    FlaggableParts(tree, sc);
    LoadedNames(sc);
  }

  lemma Reloaded(sc: Scan, copy: Tree, sc': Scan, t': Node, file: Option<string>)
    requires ValidScan(sc) && |sc.objs| == |sc.items| == |sc.slots| && WellReferred(sc) && ScannedInOrder(sc)
             && WellNamed(ShapeOf(sc))
    requires FileOf(sc, file)
    requires |sc'.objs| == |sc'.items| == |sc'.slots| && TreeReady(copy, sc', t') && Flaggable(copy, sc')
             && FlagsLoaded(sc', file)
    requires Rows(sc) == Rows(sc')
    ensures SameFlags(sc, sc')
  {
    hide *;
    ReadyParts(copy, sc', t');
    FlaggableParts(copy, sc');
    SameShape(sc, sc');
    SameFile(sc, sc', file);
  }

  lemma SameFile(sc: Scan, sc': Scan, file: Option<string>)
    requires FileOf(sc, file) && |sc.objs| == |sc.slots| && ScannedInOrder(sc) && WellNamed(ShapeOf(sc))
    requires |sc'.objs| == |sc'.slots| && ScannedInOrder(sc') && |ShapeOf(sc').kinds| == |sc'.objs|
    requires ShapeOf(sc') == ShapeOf(sc) && FlagsLoaded(sc', file)
    ensures SameFlags(sc, sc')
  {
    hide SavedText, LoadText, ShapeOf, WellNamed, ValidShape, ScannedInOrder;
    var sh, saved := ShapeOf(sc), MarksOf(sc.objs);
    RoundTrip(sh, saved);
    EmptyText(sh, NewMarks(|sc.objs|));
    KindsOf(sc);
    forall i | 0 <= i < |sc.objs| ensures MarkOf(sc'.objs[i]) == MarksOf(sc'.objs)[i]
      && MarkOf(sc.objs[i]) == saved[i] {
    }
  }

  lemma KindsOf(sc: Scan)
    requires |sc.objs| == |sc.slots| && ScannedInOrder(sc)
    ensures |ShapeOf(sc).kinds| == |sc.objs|
            && forall i :: 0 <= i < |sc.objs| ==> ShapeOf(sc).kinds[i] == sc.objs[i].kind
  {
  }

  lemma ShapeParts(tree: Tree, sc: Scan)
    requires Flaggable(tree, sc)
    ensures var sh := ShapeOf(sc);
            && ValidShape(sh) && |sc.objs| == |sh.kinds| == |sh.parents| == |sh.names|
            && forall j :: 0 <= j < |sh.parents| ==> sh.parents[j] < j
  {
  }
}
