/**
  Saving and loading the flags file of a test tree, on its objects (core/codegen/codegen_tree_init.c).
 */
module FlagsFile {
  import opened CText
  import opened Shapes
  import opened TestTree
  import LinkPhase
  import opened Expr
  import opened XmlText
  import opened Flags

  // ----- the objects of a tree -----

  /** A table of items, with their objects and the child slots of those. */
  datatype Items = Items(items: seq<TreeItem>, objs: seq<TreeObject>, slots: set<TreeItem>)

  /** The table has the shape `sh`. */
  ghost predicate Shaped(sh: Shape, t: Items)
    reads t.items`obj, t.slots`obj, t.objs`nodes, t.objs`parentSeq
  {
    && ValidShape(sh) && |t.items| == |t.objs| == |sh.names|
    && (forall i, j :: 0 <= i < j < |t.objs| ==> t.objs[i] != t.objs[j])
    && (forall i :: 0 <= i < |t.objs| ==>
          && t.items[i].obj == t.objs[i] && t.items[i].name == t.objs[i].name == sh.names[i]
          && t.objs[i].kind == sh.kinds[i] && |t.objs[i].nodes| == |sh.kids[i]|)
    && (forall i, k :: 0 <= i < |t.objs| && 0 <= k < |t.objs[i].nodes| ==>
          && t.objs[i].nodes[k] in t.slots && 0 <= sh.kids[i][k] < |t.objs|
          && t.objs[i].nodes[k].obj == t.objs[sh.kids[i][k]])
    && (forall i :: 0 <= i < |t.objs| ==>
          t.objs[i].parentSeq == if sh.parents[i] < 0 then null else t.objs[sh.parents[i]])
  }

  lemma ShapedNode(sh: Shape, t: Items, i: nat, k: nat)
    requires Shaped(sh, t) && i < |t.objs| && k < |t.objs[i].nodes|
    ensures |t.objs[i].nodes| == |sh.kids[i]| && i < sh.kids[i][k] < |t.objs| == |sh.kids|
    ensures t.objs[i].nodes[k] != null && t.objs[i].nodes[k].obj == t.objs[sh.kids[i][k]]
  {
    var c := sh.kids[i][k];
    assert c in sh.kids[i] && sh.parents[c] == i;
  }

  lemma ShapedSizes(sh: Shape, t: Items)
    requires Shaped(sh, t)
    ensures |t.items| == |t.objs| == |sh.names| == |sh.kinds| == |sh.kids| == |sh.parents| && ValidShape(sh)
    ensures forall i :: 0 <= i < |t.objs| ==> |t.objs[i].nodes| == |sh.kids[i]| && t.objs[i].kind == sh.kinds[i]
  {
  }

  function MarkOf(o: TreeObject): Mark
    reads o`forceSkip, o`breakpoint
  {
    Mark(o.forceSkip, o.breakpoint)
  }

  ghost function MarksOf(objs: seq<TreeObject>): (r: seq<Mark>)
    reads objs`forceSkip, objs`breakpoint
    ensures |r| == |objs|
    ensures forall i :: 0 <= i < |objs| ==> r[i] == MarkOf(objs[i])
  {
    if objs == [] then [] else MarksOf(objs[..|objs| - 1]) + [MarkOf(objs[|objs| - 1])]
  }

  // ----- applying a qualifier -----

  method LoadCase(o: TreeObject, q: Qualifier)
    requires o.kind == Case
    modifies o`forceSkip, o`breakpoint
    ensures MarkOf(o) == Touch(q, o.kind, old(MarkOf(o)))
  {
    match q {
      case Clear =>
        o.breakpoint := 0;
        o.forceSkip := false;
      case Breakpoint(on) => o.breakpoint := if on then 1 else 0;
      case ForceSkip(on) => o.forceSkip := on;
    }
  }

  /** Apply a qualifier to a sequence itself. */
  method LoadSeqItself(o: TreeObject, q: Qualifier)
    requires o.kind == Seq
    modifies o`forceSkip
    ensures MarkOf(o) == Touch(q, o.kind, old(MarkOf(o)))
  {
    match q {
      case Clear => o.forceSkip := false;
      case Breakpoint(_) =>
      case ForceSkip(on) => o.forceSkip := on;
    }
  }

  /** Object `j` is object `i`, or within one of its first `k` children. */
  ghost predicate Covered(sh: Shape, i: nat, k: nat, j: nat)
    requires i < |sh.kids| && k <= |sh.kids[i]|
  {
    j == i || exists l :: 0 <= l < k && Within(sh.parents, sh.kids[i][l], j)
  }

  lemma {:induction false} ChildWithin(sh: Shape, i: nat, j: nat)
    requires ValidShape(sh) && i < |sh.kids| && j < |sh.kids|
    ensures Covered(sh, i, |sh.kids[i]|, j) <==> Within(sh.parents, i, j)
    decreases j
  {
    if Within(sh.parents, i, j) && j != i {
      var p := sh.parents[j];
      if p == i {
        var l :| 0 <= l < |sh.kids[i]| && sh.kids[i][l] == j;
        assert Within(sh.parents, sh.kids[i][l], j);
      } else {
        ChildWithin(sh, i, p);
        var l :| 0 <= l < |sh.kids[i]| && Within(sh.parents, sh.kids[i][l], p);
        assert Within(sh.parents, sh.kids[i][l], j);
      }
    }
    if Covered(sh, i, |sh.kids[i]|, j) && j != i {
      var l :| 0 <= l < |sh.kids[i]| && Within(sh.parents, sh.kids[i][l], j);
      WithinTrans(sh, i, sh.kids[i][l], j);
    }
  }

  lemma {:induction false} WithinTrans(sh: Shape, i: nat, c: nat, j: nat)
    requires ValidShape(sh) && i < |sh.kids| && c in sh.kids[i] && Within(sh.parents, c, j) && j < |sh.kids|
    ensures Within(sh.parents, i, j)
    decreases j
  {
    if j != c {
      WithinTrans(sh, i, c, sh.parents[j]);
    } else {
      assert sh.parents[c] == i && Within(sh.parents, i, i);
    }
  }

  /** Apply a qualifier to the objects of a set. */
  ghost function TouchSet(sh: Shape, q: Qualifier, to: set<int>, ms: seq<Mark>): (r: seq<Mark>)
    requires |ms| == |sh.kinds|
    ensures |r| == |ms|
  {
    seq(|ms|, j requires 0 <= j < |ms| => if j in to then Touch(q, sh.kinds[j], ms[j]) else ms[j])
  }

  ghost function CoveredSet(sh: Shape, i: nat, k: nat): set<int>
    requires i < |sh.kids| && k <= |sh.kids[i]|
  {
    set j | 0 <= j < |sh.kinds| && Covered(sh, i, k, j)
  }

  lemma NothingCovered(sh: Shape, i: nat, q: Qualifier, ms: seq<Mark>)
    requires i < |sh.kids| == |sh.kinds| == |ms|
    ensures TouchSet(sh, q, CoveredSet(sh, i, 0), ms) == TouchSet(sh, q, {i}, ms)
  {
    assert CoveredSet(sh, i, 0) == {i};
  }

  lemma AllCovered(sh: Shape, i: nat, q: Qualifier, ms: seq<Mark>)
    requires ValidShape(sh) && i < |sh.kids| && |ms| == |sh.kinds|
    ensures TouchSet(sh, q, CoveredSet(sh, i, |sh.kids[i]|), ms) == TouchFrom(sh, i, q, ms)
  {
    forall j | 0 <= j < |ms| ensures Covered(sh, i, |sh.kids[i]|, j) <==> Within(sh.parents, i, j) {
      ChildWithin(sh, i, j);
    }
  }

  /** After one more child, the qualifier has been applied to the objects within it as well. */
  lemma CoveredNext(sh: Shape, i: nat, k: nat, q: Qualifier, ms: seq<Mark>)
    requires i < |sh.kids| && k < |sh.kids[i]| && |ms| == |sh.kinds|
    ensures TouchFrom(sh, sh.kids[i][k], q, TouchSet(sh, q, CoveredSet(sh, i, k), ms))
            == TouchSet(sh, q, CoveredSet(sh, i, k + 1), ms)
  {
    hide Within;
    forall j | 0 <= j < |ms|
      ensures Covered(sh, i, k + 1, j) <==> Covered(sh, i, k, j) || Within(sh.parents, sh.kids[i][k], j)
    {
    }
  }

  /** Apply a qualifier to an object and, if asked to, to all that it holds. */
  method LoadObject(o: TreeObject, q: Qualifier, recursive: bool, ghost i: nat, ghost sh: Shape, ghost t: Items)
    requires Shaped(sh, t) && i < |t.objs| == |sh.kinds| && o == t.objs[i]
    modifies t.objs`forceSkip, t.objs`breakpoint
    ensures MarksOf(t.objs) == if recursive then TouchFrom(sh, i, q, old(MarksOf(t.objs)))
                               else TouchSet(sh, q, {i}, old(MarksOf(t.objs)))
    decreases |t.objs| - i, 1
  {
    hide Shaped, ValidShape, Within, TouchFrom, Touch;
    ShapedSizes(sh, t);
    ghost var ms := MarksOf(t.objs);
    OthersApart(sh, t, i);
    if o.kind == Case {
      LoadCase(o, q);
      CaseWithin(sh, i, q, ms);
    } else {
      LoadSeqItself(o, q);
    }
    assert MarksOf(t.objs) == TouchSet(sh, q, {i}, ms);
    if o.kind == Seq && recursive {
      LoadNodes(o, q, i, sh, t, ms);
    }
  }

  lemma CaseWithin(sh: Shape, i: nat, q: Qualifier, ms: seq<Mark>)
    requires ValidShape(sh) && i < |sh.kinds| == |ms| && sh.kinds[i] == Case
    ensures TouchSet(sh, q, {i}, ms) == TouchFrom(sh, i, q, ms)
  {
    forall j | 0 <= j < |sh.kinds| ensures Within(sh.parents, i, j) <==> j in {i} {
      if Within(sh.parents, i, j) {
        WithinIsLater(sh, i, j);
      }
    }
  }

  method LoadNodes(o: TreeObject, q: Qualifier, ghost i: nat, ghost sh: Shape, ghost t: Items, ghost before: seq<Mark>)
    requires Shaped(sh, t) && i < |t.objs| == |sh.kinds| == |before| && o == t.objs[i]
    requires MarksOf(t.objs) == TouchSet(sh, q, {i}, before)
    modifies t.objs`forceSkip, t.objs`breakpoint
    ensures MarksOf(t.objs) == TouchFrom(sh, i, q, before)
    decreases |t.objs| - i, 0
  {
    hide *;
    ShapedSizes(sh, t);
    NothingCovered(sh, i, q, before);
    var k := 0;
    while k < |o.nodes|
      invariant 0 <= k <= |o.nodes| == |sh.kids[i]|
      invariant MarksOf(t.objs) == TouchSet(sh, q, CoveredSet(sh, i, k), before)
    {
      ShapedNode(sh, t, i, k);
      LoadObject(o.nodes[k].obj, q, true, sh.kids[i][k], sh, t);
      CoveredNext(sh, i, k, q, before);
      k := k + 1;
    }
    AllCovered(sh, i, q, before);
  }

  lemma OthersApart(sh: Shape, t: Items, i: nat)
    requires Shaped(sh, t) && i < |t.objs|
    ensures forall j :: 0 <= j < |t.objs| && j != i ==> t.objs[j] != t.objs[i]
  {
  }

  // ----- loading -----

  /** The tree has the table `t`. */
  ghost predicate TableOf(tree: Tree, sh: Shape, t: Items)
    reads tree`items, t.items`obj, t.slots`obj, t.objs`nodes, t.objs`parentSeq
  {
    tree.items == t.items && Shaped(sh, t)
  }

  lemma TableItem(tree: Tree, sh: Shape, t: Items, i: nat)
    requires TableOf(tree, sh, t) && i < |tree.items|
    ensures |tree.items| == |t.objs| == |sh.kinds| && tree.items[i].obj == t.objs[i] && Shaped(sh, t)
  {
  }

  lemma TableSizes(tree: Tree, sh: Shape, t: Items)
    requires TableOf(tree, sh, t)
    ensures |tree.items| == |t.objs| == |sh.kinds| && Shaped(sh, t)
  {
  }

  lemma TouchSetTwice(sh: Shape, q: Qualifier, a: set<int>, i: nat, recursive: bool, ms: seq<Mark>)
    returns (b: set<int>)
    requires |ms| == |sh.kinds| && i < |ms|
    ensures a <= b && i in b
    ensures TouchSet(sh, q, b, ms) ==
            if recursive then TouchFrom(sh, i, q, TouchSet(sh, q, a, ms))
               else TouchSet(sh, q, {i}, TouchSet(sh, q, a, ms))
  {
    hide Within, Touch;
    forall m, kind ensures Touch(q, kind, Touch(q, kind, m)) == Touch(q, kind, m) {
      TouchTwice(q, kind, m);
    }
    if recursive {
      b := a + set j | 0 <= j < |ms| && Within(sh.parents, i, j);
      assert Within(sh.parents, i, i) by { WithinItself(sh.parents, i); }
    } else {
      b := a + {i};
    }
  }

  lemma WithinItself(parents: seq<int>, i: int)
    ensures Within(parents, i, i)
  {
  }

  lemma TouchTwice(q: Qualifier, kind: Kind, m: Mark)
    ensures Touch(q, kind, Touch(q, kind, m)) == Touch(q, kind, m)
  {
  }

  lemma TouchNone(sh: Shape, q: Qualifier, ms: seq<Mark>)
    requires |ms| == |sh.kinds|
    ensures TouchSet(sh, q, {}, ms) == ms
  {
  }

  lemma TouchEvery(sh: Shape, q: Qualifier, to: set<int>, ms: seq<Mark>)
    requires |ms| == |sh.kinds| && forall j :: 0 <= j < |ms| ==> j in to
    ensures TouchSet(sh, q, to, ms) == TouchAll(sh, q, ms)
  {
  }

  /** Apply a qualifier to every object of the tree. */
  method LoadAllObjects(tree: Tree, q: Qualifier, recursive: bool, ghost sh: Shape, ghost t: Items)
    requires TableOf(tree, sh, t) && |t.objs| == |sh.kinds|
    modifies t.objs`forceSkip, t.objs`breakpoint
    ensures MarksOf(t.objs) == TouchAll(sh, q, old(MarksOf(t.objs)))
  {
    hide *;
    ghost var ms := MarksOf(t.objs);
    TableSizes(tree, sh, t);
    ghost var done: set<int> := {};
    TouchNone(sh, q, ms);
    var i := 0;
    while i < |tree.items|
      invariant 0 <= i <= |tree.items| && forall j :: 0 <= j < i ==> j in done
      invariant MarksOf(t.objs) == TouchSet(sh, q, done, ms)
    {
      TableItem(tree, sh, t, i);
      LoadObject(tree.items[i].obj, q, recursive, i, sh, t);
      done := TouchSetTwice(sh, q, done, i, recursive, ms);
      i := i + 1;
    }
    TouchEvery(sh, q, done, ms);
  }

  lemma {:induction false} SkipSpacesStops(s: string)
    ensures SkipSpaces(s) != [] ==> !Blank(SkipSpaces(s)[0])
  {
    if s != [] && Blank(s[0]) {
      SkipSpacesStops(s[1..]);
    }
  }

  /** Where the next word of a text starts, and what is left after a word. */
  lemma {:induction false} AfterWord(s: string)
    ensures var k := |Word(s)|; k <= |s| && s[..k] == Word(s)
    ensures var k := |Word(s)|; k < |s| ==> Blank(s[k]) && SkipSpaces(s[k..]) == SkipSpaces(s[k + 1..])
    ensures s != [] && !Blank(s[0]) ==> Word(s) != []
  {
    if s != [] && !Blank(s[0]) {
      AfterWord(s[1..]);
      var k := |Word(s[1..])|;
      assert s[..k + 1] == [s[0]] + s[1..][..k];
      assert s[k + 1..] == s[1..][k..];
    } else {
      assert s[0..] == s;
    }
  }

  /** Cut a text after its first word, which is given with the place of the next one. */
  method CutWord(buf: array<char>, i: nat, ghost n: nat) returns (word: string, next: nat)
    requires Expr.Text(buf, i, n)
    modifies buf
    ensures word == Word(old(buf[i..n]))
    ensures i <= next <= n && Expr.Text(buf, next, n) && buf[next..n] == SkipSpaces(old(buf[i..n])[|word|..])
  {
    ghost var s := buf[i..n];
    AfterWord(s);
    next := StrSkipChars(buf, i, n);
    word := buf[i..next];
    ghost var k := |word|;
    assert s[k..] == buf[next..n];
    if buf[next] != NUL {
      buf[next] := NUL;
      next := next + 1;
      assert s[k + 1..] == buf[next..n];
    }
    next := StrSkipSpaces(buf, next, n);
  }

  lemma ItemNames(tree: Tree, sh: Shape, t: Items)
    requires TableOf(tree, sh, t)
    ensures tree.items == t.items && |t.items| == |t.objs| && Names(tree.items) == sh.names
    ensures forall i :: 0 <= i < |t.items| ==> t.items[i].obj == t.objs[i]
  {
  }

  method LoadOne(tree: Tree, q: Qualifier, name: string, recursive: bool, ghost sh: Shape, ghost t: Items)
    returns (deeper: bool)
    requires TableOf(tree, sh, t) && |t.objs| == |sh.kinds|
    modifies t.objs`forceSkip, t.objs`breakpoint
    ensures MarksOf(t.objs) == LoadName(sh, q, name, old(MarksOf(t.objs)))
  {
    hide TableOf, ValidShape, TouchFrom, TouchAll, TouchSet, Shaped;
    deeper := recursive;
    ghost var ms := MarksOf(t.objs);
    TableSizes(tree, sh, t);
    ShapedSizes(sh, t);
    if name == "*" {
      LoadAllObjects(tree, q, recursive, sh, t);
    } else {
      ItemNames(tree, sh, t);
      var item := LinkPhase.TreeRetrieve(tree, name);
      ghost var i := IndexOf(sh.names, name);
      if item != null {
        if item.obj.kind == Seq {
          deeper := true;
        } else {
          CaseWithin(sh, i, q, ms);
        }
        LoadObject(item.obj, q, deeper, i, sh, t);
      }
    }
  }

  /** Apply a qualifier to the next name of a line. */
  method LoadNextName(tree: Tree, q: Qualifier, buf: array<char>, s1: nat, recursive: bool, ghost n: nat,
                      ghost sh: Shape, ghost t: Items)
    returns (s2: nat, deeper: bool)
    requires TableOf(tree, sh, t) && |t.objs| == |sh.kinds|
    requires Expr.Text(buf, s1, n) && s1 < n && !Blank(buf[s1])
    modifies buf, t.objs`forceSkip, t.objs`breakpoint
    ensures s1 < s2 <= n && Expr.Text(buf, s2, n) && (s2 < n ==> !Blank(buf[s2]))
    ensures LoadNames(sh, q, buf[s2..n], MarksOf(t.objs)) == LoadNames(sh, q, old(buf[s1..n]), old(MarksOf(t.objs)))
  {
    hide TableOf, LoadName, LoadNames, Word, SkipSpaces;
    ghost var s := buf[s1..n];
    AfterWord(s);
    SkipSpacesStops(s[|Word(s)|..]);
    WordShortens(s);
    NextName(sh, q, s, MarksOf(t.objs));
    var name;
    name, s2 := CutWord(buf, s1, n);
    deeper := LoadOne(tree, q, name, recursive, sh, t);
  }

  lemma NextName(sh: Shape, q: Qualifier, s: string, ms: seq<Mark>)
    requires |ms| == |sh.kinds| && Word(s) != []
    ensures LoadNames(sh, q, s, ms) == LoadNames(sh, q, SkipSpaces(s[|Word(s)|..]), LoadName(sh, q, Word(s), ms))
  {
  }

  lemma NoName(sh: Shape, q: Qualifier, ms: seq<Mark>)
    requires |ms| == |sh.kinds|
    ensures LoadNames(sh, q, [], ms) == ms
  {
  }

  /** Apply a qualifier to each of the names of a line. */
  method LoadNodeNames(tree: Tree, q: Qualifier, buf: array<char>, start: nat, ghost n: nat, ghost sh: Shape,
                       ghost t: Items)
    requires TableOf(tree, sh, t) && |t.objs| == |sh.kinds|
    requires Expr.Text(buf, start, n) && (start < n ==> !Blank(buf[start]))
    modifies buf, t.objs`forceSkip, t.objs`breakpoint
    ensures MarksOf(t.objs) == LoadNames(sh, q, old(buf[start..n]), old(MarksOf(t.objs)))
  {
    hide TableOf, LoadNames, MarksOf;
    ghost var goal := LoadNames(sh, q, buf[start..n], MarksOf(t.objs));
    var s2, recursive := start, false;
    while buf[s2] != NUL
      invariant start <= s2 <= n && Expr.Text(buf, s2, n) && (s2 < n ==> !Blank(buf[s2]))
      invariant LoadNames(sh, q, buf[s2..n], MarksOf(t.objs)) == goal
      decreases n - s2
    {
      s2, recursive := LoadNextName(tree, q, buf, s2, recursive, n, sh, t);
    }
    assert buf[s2..n] == [];
    NoName(sh, q, MarksOf(t.objs));
  }

  lemma WordShortens(s: string)
    requires Word(s) != []
    ensures |SkipSpaces(s[|Word(s)|..])| < |s|
  {
  }

  method StrChr(buf: array<char>, i: nat, c: char, ghost n: nat) returns (k: nat)
    requires Expr.Text(buf, i, n) && c != NUL
    ensures i <= k <= n && k - i == Find(buf[i..n], c)
  {
    ghost var s := buf[i..n];
    k := i;
    while buf[k] != NUL && buf[k] != c
      invariant i <= k <= n && c !in s[..k - i]
      decreases n - k
    {
      assert s[..k + 1 - i] == s[..k - i] + [s[k - i]];
      k := k + 1;
    }
    if k < n {
      FindAt(s, k - i, c);
    } else {
      assert s[..k - i] == s;
    }
  }

  /** Load a line, which is cut into words in place. */
  method LoadLineAt(tree: Tree, buf: array<char>, ghost n: nat, ghost sh: Shape, ghost t: Items)
    requires TableOf(tree, sh, t) && |t.objs| == |sh.kinds| && Expr.Text(buf, 0, n)
    modifies buf, t.objs`forceSkip, t.objs`breakpoint
    ensures MarksOf(t.objs) == LoadLine(sh, old(buf[..n]), old(MarksOf(t.objs)))
  {
    hide TableOf, LoadNames, QualifierOf, Upper, MarksOf, Word, SkipSpaces, LoadLine, Find, Blank;
    ghost var line, ms := buf[..n], MarksOf(t.objs);
    assert buf[0..n] == line;
    var k := StrChr(buf, 0, '#', n);
    buf[k] := NUL;
    assert buf[0..k] == line[..k];
    var s1 := StrSkipSpaces(buf, 0, k);
    ghost var s := buf[s1..k];
    LineParts(sh, line, ms);
    AfterWord(s);
    SkipSpacesStops(s[|Word(s)|..]);
    var word, s2 := CutWord(buf, s1, k);
    if word == [] {
      NoQualifier();
      return;
    }
    var q := QualifierOf(Upper(word));
    if q.Some? {
      LoadNodeNames(tree, q.value, buf, s2, k, sh, t);
    }
  }

  lemma LineParts(sh: Shape, line: string, ms: seq<Mark>)
    requires |ms| == |sh.kinds|
    ensures var s := SkipSpaces(line[..Find(line, '#')]);
            var q := QualifierOf(Upper(Word(s)));
            |Word(s)| <= |s| &&
            LoadLine(sh, line, ms) ==
            if q == None then ms else LoadNames(sh, q.value, SkipSpaces(s[|Word(s)|..]), ms)
  {
  }

  lemma NoQualifier()
    ensures QualifierOf(Upper([])) == None
  {
    assert Upper([]) == [];
  }

  method NewLine(line: string) returns (buf: array<char>)
    ensures fresh(buf) && buf.Length == |line| + 1 && buf[|line|] == NUL && buf[..|line|] == line
  {
    buf := new char[|line| + 1](i => if 0 <= i < |line| then line[i] else NUL);
    assert buf[..|line|] == line;
  }

  /** Load a flags file; the flags stay as they are when there is none. */
  method LoadFlags(tree: Tree, file: Option<string>, ghost sh: Shape, ghost t: Items)
    requires TableOf(tree, sh, t) && |t.objs| == |sh.kinds|
    modifies t.objs`forceSkip, t.objs`breakpoint
    ensures MarksOf(t.objs) == if file == None
            then old(MarksOf(t.objs)) else LoadText(sh, file.value, old(MarksOf(t.objs)))
  {
    hide TableOf, LoadLine, LoadText, Clean, MarksOf;
    if file == None {
      return;
    }
    var text := file.value;
    ghost var goal := LoadText(sh, text, MarksOf(t.objs));
    var i := 0;
    ghost var start := 0;
    var line := [];
    var finished := false;
    assert text[0..] == text && text[0..0] == [];
    CleanAll([]);
    while !finished
      invariant 0 <= start <= i <= |text| && '\n' !in text[start..i] && line == Clean(text[start..i])
      invariant if finished then MarksOf(t.objs) == goal else LoadText(sh, text[start..], MarksOf(t.objs)) == goal
      decreases !finished, |text| - i
    {
      ghost var ms := MarksOf(t.objs);
      ghost var here := i;
      var c;
      if i == |text| {
        c := '\n';
        finished := true;
      } else {
        c := text[i];
        i := i + 1;
      }
      if c == '\n' {
        TextAt(sh, text, start, here, ms);
        CleanHasNoNul(text[start..here]);
        LoadCleanLine(tree, line, sh, t);
        line := [];
        start := i;
        assert text[i..i] == [];
      } else {
        if c < ' ' || c >= '\U{80}' {
          c := ' ';
        }
        assert text[start..i] == text[start..here] + [text[here]];
        CleanNext(text[start..here], text[here]);
        line := line + [c];
      }
    }
  }

  method LoadCleanLine(tree: Tree, line: string, ghost sh: Shape, ghost t: Items)
    requires TableOf(tree, sh, t) && |t.objs| == |sh.kinds| && NUL !in line
    modifies t.objs`forceSkip, t.objs`breakpoint
    ensures MarksOf(t.objs) == LoadLine(sh, line, old(MarksOf(t.objs)))
  {
    hide TableOf, LoadLine, MarksOf;
    var buf := NewLine(line);
    assert forall j :: 0 <= j < |line| ==> buf[j] == line[j];
    LoadLineAt(tree, buf, |line|, sh, t);
  }

  lemma {:induction false} CleanHasNoNul(s: string)
    ensures NUL !in Clean(s)
  {
    if s != [] {
      CleanHasNoNul(s[1..]);
    }
  }

  lemma {:induction false} CleanNext(s: string, c: char)
    ensures Clean(s + [c]) == Clean(s) + [if c < ' ' || c >= '\U{80}' then ' ' else c]
  {
    if s == [] {
      assert [] + [c] == [c] && [c][1..] == [];
    } else {
      assert (s + [c])[1..] == s[1..] + [c];
      CleanNext(s[1..], c);
    }
  }

  lemma CleanAll(s: string)
    requires s == []
    ensures Clean(s) == []
  {
  }

  lemma LoadTextNext(sh: Shape, s: string, k: nat, ms: seq<Mark>)
    requires |ms| == |sh.kinds| && k == Find(s, '\n')
    ensures LoadText(sh, s, ms) ==
            var r := LoadLine(sh, Clean(s[..k]), ms);
            if k == |s| then r else LoadText(sh, s[k + 1..], r)
  {
    hide LoadLine, Clean, Find;
  }

  /** The line from `start` to `k` is the first of those left. */
  lemma TextAt(sh: Shape, text: string, start: nat, k: nat, ms: seq<Mark>)
    requires |ms| == |sh.kinds| && start <= k <= |text| && '\n' !in text[start..k] && (k < |text| ==> text[k] == '\n')
    ensures LoadText(sh, text[start..], ms) ==
            if k == |text| then LoadLine(sh, Clean(text[start..k]), ms)
            else LoadText(sh, text[k + 1..], LoadLine(sh, Clean(text[start..k]), ms))
  {
    hide LoadLine, Clean, LoadText, Find;
    var s := text[start..];
    LoadTextNext(sh, s, Find(s, '\n'), ms);
    assert s[..k - start] == text[start..k];
    if k < |text| {
      assert s[k - start + 1..] == text[k + 1..];
      FindAt(s, k - start, '\n');
    } else {
      assert s == text[start..k];
    }
  }

  // ----- saving -----

  /** What is saved of an object. */
  method SaveObject(o: TreeObject, ghost i: nat, ghost sh: Shape, ghost t: Items) returns (text: string)
    requires Shaped(sh, t) && i < |t.objs| == |sh.names| == |sh.kinds| == |sh.parents| && o == t.objs[i]
             && sh.parents[i] < i
    ensures text == Joined(SavedLines(sh, MarksOf(t.objs), i))
  {
    hide ValidShape;
    text := [];
    ghost var name := sh.names[i];
    ghost var lines: seq<string> := [];
    var skip := o.forceSkip;
    if o.kind == Case && o.breakpoint > 0 {
      text := text + "BREAKPOINT " + o.name + "\n";
      lines := ["BREAKPOINT " + name];
    }
    var parentSkip := o.parentSeq != null && o.parentSeq.forceSkip;
    JoinedOne(["BREAKPOINT " + name]);
    assert text == Joined(lines);
    ghost var lines2: seq<string> := [];
    if skip && !parentSkip {
      text := text + ("FORCE_SKIP " + o.name + "\n");
      lines2 := ["FORCE_SKIP " + name];
      JoinedOne(lines2);
    }
    if !skip && parentSkip {
      text := text + ("/FORCE_SKIP " + o.name + "\n");
      lines2 := ["/FORCE_SKIP " + name];
      JoinedOne(lines2);
    }
    JoinedAppend(lines, lines2);
    assert SavedLines(sh, MarksOf(t.objs), i) == lines + lines2;
    assert text == Joined(lines) + Joined(lines2);
  }

  lemma JoinedOne(lines: seq<string>)
    requires |lines| == 1
    ensures Joined(lines) == lines[0] + "\n"
  {
    assert lines[1..] == [];
  }

  /** Save the flags of a tree; no file is left when there is nothing to save. */
  method SaveFlags(tree: Tree, ghost sh: Shape, ghost t: Items) returns (file: Option<string>)
    requires TableOf(tree, sh, t) && |t.objs| == |sh.kinds| == |sh.parents| == |sh.names|
    requires forall j :: 0 <= j < |sh.parents| ==> sh.parents[j] < j
    ensures var text := SavedText(sh, MarksOf(t.objs), |t.objs|); file == if text == [] then None else Some(text)
  {
    hide SavedLines, ValidShape, Shaped, TableOf;
    TableSizes(tree, sh, t);
    var text := [];
    var i := 0;
    while i < |tree.items|
      invariant 0 <= i <= |tree.items|
      invariant text == SavedText(sh, MarksOf(t.objs), i)
    {
      TableItem(tree, sh, t, i);
      var s := SaveObject(tree.items[i].obj, i, sh, t);
      text := text + s;
      i := i + 1;
    }
    file := if text == [] then None else Some(text);
  }
}
