/**
  The flags file of a test tree (core/codegen/codegen_tree_init.c): skip flags and breakpoints are
  saved as the differences between an object and the sequence that holds it, and loaded again.
 */
module Flags {
  import opened CText
  import opened Shapes
  import opened TestTree
  import opened Expr
  import opened XmlText

  // ----- the item table, and the flags of its objects -----

  /** The items of a tree in the order of its table, with the places of the children and of the parent (-1 for none). */
  datatype Shape = Shape(names: seq<string>, kinds: seq<Kind>, kids: seq<seq<nat>>, parents: seq<int>)

  /** The scanner puts every sequence in the table before what it holds. */
  ghost predicate ValidShape(sh: Shape) {
    && |sh.names| == |sh.kinds| == |sh.kids| == |sh.parents|
    && (forall j :: 0 <= j < |sh.parents| ==> -1 <= sh.parents[j] < j)
    && (forall i, j :: 0 <= i < |sh.kids| && j in sh.kids[i] ==> j < |sh.parents| && sh.parents[j] == i)
    && (forall j :: 0 <= j < |sh.parents| && sh.parents[j] >= 0 ==> j in sh.kids[sh.parents[j]])
    && (forall i :: 0 <= i < |sh.kinds| && sh.kinds[i] == Case ==> sh.kids[i] == [])
  }

  /** Object `j` is object `i`, or held by it directly or not. */
  predicate Within(parents: seq<int>, i: int, j: int)
    decreases if j < 0 then 0 else j
  {
    j == i || (0 <= j < |parents| && 0 <= parents[j] < j && Within(parents, i, parents[j]))
  }

  datatype Mark = Mark(skip: bool, breakpoint: nat)

  datatype Qualifier = Clear | Breakpoint(on: bool) | ForceSkip(on: bool)

  /** What a qualifier does to an object. */
  function Touch(q: Qualifier, kind: Kind, m: Mark): (r: Mark)
  {
    match q
    case Clear => Mark(false, if kind == Case then 0 else m.breakpoint)
    case Breakpoint(on) => if kind == Case then Mark(m.skip, if on then 1 else 0) else m
    case ForceSkip(on) => Mark(on, m.breakpoint)
  }

  /** Apply a qualifier to an object and to all that it holds. */
  function TouchFrom(sh: Shape, i: int, q: Qualifier, ms: seq<Mark>): (r: seq<Mark>)
    requires |ms| == |sh.kinds|
    ensures |r| == |ms|
  {
    seq(|ms|, j requires 0 <= j < |ms| => if Within(sh.parents, i, j) then Touch(q, sh.kinds[j], ms[j]) else ms[j])
  }

  function TouchAll(sh: Shape, q: Qualifier, ms: seq<Mark>): (r: seq<Mark>)
    requires |ms| == |sh.kinds|
    ensures |r| == |ms|
  {
    seq(|ms|, j requires 0 <= j < |ms| => Touch(q, sh.kinds[j], ms[j]))
  }

  // ----- loading -----

  function QualifierOf(word: string): Option<Qualifier> {
    if word == "BREAKPOINT" then Some(Breakpoint(true))
    else if word == "/BREAKPOINT" then Some(Breakpoint(false))
    else if word == "FORCE_SKIP" then Some(ForceSkip(true))
    else if word == "/FORCE_SKIP" then Some(ForceSkip(false))
    else if word == "CLEAR" then Some(Clear)
    else None
  }

  function LoadName(sh: Shape, q: Qualifier, name: string, ms: seq<Mark>): (r: seq<Mark>)
    requires |ms| == |sh.kinds|
    ensures |r| == |ms|
  {
    if name == "*" then TouchAll(sh, q, ms)
    else if IndexOf(sh.names, name) != -1 then TouchFrom(sh, IndexOf(sh.names, name), q, ms)
    else ms
  }

  /** Apply a qualifier to each of the names of a text, which starts with the first one. */
  function LoadNames(sh: Shape, q: Qualifier, s: string, ms: seq<Mark>): (r: seq<Mark>)
    requires |ms| == |sh.kinds|
    ensures |r| == |ms|
    decreases |s|
  {
    var name := Word(s);
    if name == [] then ms else LoadNames(sh, q, SkipSpaces(s[|name|..]), LoadName(sh, q, name, ms))
  }

  function LoadLine(sh: Shape, line: string, ms: seq<Mark>): (r: seq<Mark>)
    requires |ms| == |sh.kinds|
    ensures |r| == |ms|
  {
    var s := SkipSpaces(line[..Find(line, '#')]);
    var word := Word(s);
    match QualifierOf(Upper(word))
    case None => ms
    case Some(q) => LoadNames(sh, q, SkipSpaces(s[|word|..]), ms)
  }

  function Clean(s: string): (r: string)
    ensures |r| == |s|
  {
    if s == [] then [] else [if s[0] < ' ' || s[0] >= '\U{80}' then ' ' else s[0]] + Clean(s[1..])
  }

  /** Load the lines of a file; what follows the last line end is a line too. */
  function LoadText(sh: Shape, text: string, ms: seq<Mark>): (r: seq<Mark>)
    requires |ms| == |sh.kinds|
    ensures |r| == |ms|
    decreases |text|
  {
    var k := Find(text, '\n');
    var r := LoadLine(sh, Clean(text[..k]), ms);
    if k == |text| then r else LoadText(sh, text[k + 1..], r)
  }

  // ----- saving -----

  function ParentSkip(sh: Shape, ms: seq<Mark>, i: nat): bool
    requires |ms| == |sh.parents| && i < |ms| && sh.parents[i] < i
  {
    sh.parents[i] >= 0 && ms[sh.parents[i]].skip
  }

  function SavedLines(sh: Shape, ms: seq<Mark>, i: nat): seq<string>
    requires |ms| == |sh.parents| == |sh.kinds| == |sh.names| && i < |ms| && sh.parents[i] < i
  {
    (if sh.kinds[i] == Case && ms[i].breakpoint > 0 then ["BREAKPOINT " + sh.names[i]] else [])
    + (if ms[i].skip && !ParentSkip(sh, ms, i) then ["FORCE_SKIP " + sh.names[i]] else [])
    + (if !ms[i].skip && ParentSkip(sh, ms, i) then ["/FORCE_SKIP " + sh.names[i]] else [])
  }

  /** The text of lines. */
  function Joined(lines: seq<string>): string {
    if lines == [] then [] else lines[0] + "\n" + Joined(lines[1..])
  }

  /** The file saved for the first `i` items. */
  function SavedText(sh: Shape, ms: seq<Mark>, i: nat): string
    requires |ms| == |sh.parents| == |sh.kinds| == |sh.names| && i <= |ms|
    requires forall j :: 0 <= j < |ms| ==> sh.parents[j] < j
  {
    if i == 0 then [] else SavedText(sh, ms, i - 1) + Joined(SavedLines(sh, ms, i - 1))
  }

  // ----- loading what was saved -----

  /** A name that stands for itself in the file. */
  predicate Plain(name: string) {
    name != [] && name != "*" && '#' !in name && forall i :: 0 <= i < |name| ==> !Blank(name[i])
  }

  /** Everything is held by the first item, directly or not. */
  predicate OneRoot(sh: Shape) {
    forall j :: 0 < j < |sh.parents| ==> sh.parents[j] >= 0
  }

  ghost predicate NamesApart(sh: Shape) {
    forall i, j :: 0 <= i < j < |sh.names| ==> sh.names[i] != sh.names[j]
  }

  /** The names in a line stand for all items, among others. */
  predicate HasStar(s: string)
    decreases |s|
  {
    var name := Word(s);
    name != [] && (name == "*" || HasStar(SkipSpaces(s[|name|..])))
  }

  /** What is read as names when a name is saved. */
  function SavedNames(name: string): string {
    SkipSpaces(Clean(name)[..Find(Clean(name), '#')])
  }

  /** The root may also have a name that stands for all items. */
  predicate RootNamed(sh: Shape)
    requires sh.names != []
  {
    Plain(sh.names[0]) || (OneRoot(sh) && '\n' !in sh.names[0] && HasStar(SavedNames(sh.names[0])))
  }

  ghost predicate WellNamed(sh: Shape) {
    && NamesApart(sh)
    && (forall i :: 0 < i < |sh.names| ==> Plain(sh.names[i]))
    && (sh.names != [] ==> RootNamed(sh))
  }

  lemma {:induction false} WordWhole(name: string)
    requires forall i :: 0 <= i < |name| ==> !Blank(name[i])
    ensures Word(name) == name
  {
    if name != [] {
      WordWhole(name[1..]);
    }
  }

  lemma {:induction false} WordBefore(word: string, rest: string)
    requires forall i :: 0 <= i < |word| ==> !Blank(word[i])
    requires rest != [] && Blank(rest[0])
    ensures Word(word + rest) == word
  {
    if word == [] {
      assert word + rest == rest;
    } else {
      assert (word + rest)[1..] == word[1..] + rest;
      WordBefore(word[1..], rest);
    }
  }

  lemma {:induction false} CleanPrintable(s: string)
    requires forall i :: 0 <= i < |s| ==> ' ' <= s[i] < '\U{80}'
    ensures Clean(s) == s
  {
    if s != [] {
      CleanPrintable(s[1..]);
    }
  }

  /** A word that can start a line. */
  predicate Keyword(word: string) {
    word in {"BREAKPOINT", "/BREAKPOINT", "FORCE_SKIP", "/FORCE_SKIP", "CLEAR"}
  }

  predicate KeywordChar(c: char) {
    c == '/' || c == '_' || 'A' <= c <= 'Z'
  }

  lemma KeywordIsPlain(word: string)
    requires Keyword(word)
    ensures word != [] && forall i :: 0 <= i < |word| ==> KeywordChar(word[i])
  {
  }

  lemma KeywordChars(word: string)
    requires Keyword(word)
    ensures word != [] && forall i :: 0 <= i < |word| ==> !Blank(word[i]) && word[i] != '#' && word[i] != '\n'
    ensures Upper(word) == word
  {
    hide Keyword;
    KeywordIsPlain(word);
    assert forall i :: 0 <= i < |word| ==> UpperChar(word[i]) == word[i];
  }

  lemma {:induction false} CleanInTurn(a: string, b: string)
    ensures Clean(a + b) == Clean(a) + Clean(b)
  {
    if a == [] {
      assert a + b == b;
    } else {
      assert (a + b)[1..] == a[1..] + b;
      CleanInTurn(a[1..], b);
    }
  }

  /** What a saved line is read as. */
  lemma SavedLineRead(sh: Shape, word: string, name: string, ms: seq<Mark>)
    requires Keyword(word) && |ms| == |sh.kinds|
    ensures LoadLine(sh, Clean(word + " " + name), ms) == LoadNames(sh, QualifierOf(word).value, SavedNames(name), ms)
  {
    hide LoadNames, Upper, Keyword, QualifierOf, Clean, Word;
    KeywordChars(word);
    var tail := Clean(name);
    var line := word + (" " + tail);
    assert Clean(word + " " + name) == line by {
      assert word + " " + name == word + (" " + name);
      CleanInTurn(word, " " + name);
      CleanInTurn(" ", name);
      CleanPrintable(word);
      CleanPrintable(" ");
    }
    var k := Find(tail, '#');
    FindLater(word + " ", tail, '#');
    assert line == word + " " + tail;
    var cut := " " + tail[..k];
    assert line[..Find(line, '#')] == word + cut;
    assert SkipSpaces(word + cut) == word + cut by { assert (word + cut)[0] == word[0]; }
    WordBefore(word, cut);
    assert (word + cut)[|word|..] == cut && cut[1..] == tail[..k];
    assert SkipSpaces(cut) == SavedNames(name);
    KnownWord(word);
  }

  lemma {:induction false} FindLater(a: string, b: string, c: char)
    requires c !in a
    ensures Find(a + b, c) == |a| + Find(b, c)
  {
    if a == [] {
      assert a + b == b;
    } else {
      assert (a + b)[1..] == a[1..] + b && (a + b)[0] == a[0];
      FindLater(a[1..], b, c);
    }
  }

  /** A saved line does what it says, to the object it names and to all that it holds. */
  lemma LoadSavedLine(sh: Shape, word: string, i: nat, ms: seq<Mark>)
    requires ValidShape(sh) && WellNamed(sh) && Keyword(word) && |ms| == |sh.kinds| && i < |sh.names|
    ensures var line := word + " " + sh.names[i];
            && '\n' !in line
            && LoadLine(sh, Clean(line), ms) == TouchFrom(sh, i, QualifierOf(word).value, ms)
  {
    hide TouchFrom, TouchAll, Upper, Keyword, QualifierOf, Clean, Word, OneRoot, NamesApart, LoadLine;
    KeywordChars(word);
    KnownWord(word);
    SavedLineRead(sh, word, sh.names[i], ms);
    if Plain(sh.names[i]) {
      LoadOneName(sh, QualifierOf(word).value, i, ms);
    } else {
      LoadStar(sh, QualifierOf(word).value, SavedNames(sh.names[i]), ms);
      AllWithinRoot(sh, QualifierOf(word).value, ms);
    }
  }

  lemma KnownWord(word: string)
    requires Keyword(word)
    ensures QualifierOf(word).Some?
  {
  }

  lemma LoadOneName(sh: Shape, q: Qualifier, i: nat, ms: seq<Mark>)
    requires NamesApart(sh) && |ms| == |sh.kinds| && i < |sh.names| && Plain(sh.names[i])
    ensures LoadNames(sh, q, SavedNames(sh.names[i]), ms) == TouchFrom(sh, i, q, ms)
  {
    hide TouchFrom, TouchAll;
    var name := sh.names[i];
    WordWhole(name);
    CleanPrintable(name);
    assert name[..|name|] == name && Find(name, '#') == |name| && SkipSpaces(name) == name;
    assert name[|name|..] == [];
    assert LoadNames(sh, q, [], LoadName(sh, q, name, ms)) == LoadName(sh, q, name, ms);
    assert IndexOf(sh.names, name) == i;
  }

  /** Touched with the same qualifier already, or not yet. */
  predicate Partly(sh: Shape, q: Qualifier, was: seq<Mark>, ms: seq<Mark>)
    requires |was| == |ms| == |sh.kinds|
  {
    forall j :: 0 <= j < |ms| ==> ms[j] == was[j] || ms[j] == Touch(q, sh.kinds[j], was[j])
  }

  lemma {:induction false} LoadStarFrom(sh: Shape, q: Qualifier, s: string, was: seq<Mark>, ms: seq<Mark>)
    requires |was| == |ms| == |sh.kinds| && Partly(sh, q, was, ms) && (HasStar(s) || ms == TouchAll(sh, q, was))
    ensures LoadNames(sh, q, s, ms) == TouchAll(sh, q, was)
    decreases |s|
  {
    hide Word, SkipSpaces;
    var name := Word(s);
    if name != [] {
      var next := LoadName(sh, q, name, ms);
      assert Partly(sh, q, was, next);
      if name == "*" || ms == TouchAll(sh, q, was) {
        assert next == TouchAll(sh, q, was);
      }
      LoadStarFrom(sh, q, SkipSpaces(s[|name|..]), was, next);
    }
  }

  lemma LoadStar(sh: Shape, q: Qualifier, s: string, ms: seq<Mark>)
    requires |ms| == |sh.kinds| && HasStar(s)
    ensures LoadNames(sh, q, s, ms) == TouchAll(sh, q, ms)
  {
    hide TouchAll, HasStar, LoadNames;
    LoadStarFrom(sh, q, s, ms, ms);
  }

  lemma {:induction false} WithinRoot(sh: Shape, j: nat)
    requires ValidShape(sh) && OneRoot(sh) && j < |sh.parents|
    ensures Within(sh.parents, 0, j)
    decreases j
  {
    if j > 0 {
      WithinRoot(sh, sh.parents[j]);
    }
  }

  lemma AllWithinRoot(sh: Shape, q: Qualifier, ms: seq<Mark>)
    requires ValidShape(sh) && OneRoot(sh) && |ms| == |sh.kinds|
    ensures TouchAll(sh, q, ms) == TouchFrom(sh, 0, q, ms)
  {
    hide Within;
    forall j | 0 <= j < |ms| ensures Within(sh.parents, 0, j) {
      WithinRoot(sh, j);
    }
  }

  lemma LoadFirst(sh: Shape, line: string, rest: string, ms: seq<Mark>)
    requires |ms| == |sh.kinds| && '\n' !in line
    ensures LoadText(sh, line + "\n" + rest, ms) == LoadText(sh, rest, LoadLine(sh, Clean(line), ms))
  {
    hide LoadLine, Clean;
    var text := line + "\n" + rest;
    assert text[..|line|] == line && text[|line| + 1..] == rest && text[|line|] == '\n';
    FindAt(text, |line|, '\n');
  }

  // ----- the lines of one item -----

  /** What loading the lines of item `i` makes of the flags. */
  function ItemLoaded(sh: Shape, saved: seq<Mark>, i: nat, ms: seq<Mark>): (r: seq<Mark>)
    requires |ms| == |saved| == |sh.parents| == |sh.kinds| && i < |ms| && sh.parents[i] < i
    ensures |r| == |ms|
  {
    var ms1 := if sh.kinds[i] == Case && saved[i].breakpoint > 0 then TouchFrom(sh, i, Breakpoint(true), ms) else ms;
    if saved[i].skip == ParentSkip(sh, saved, i) then ms1 else TouchFrom(sh, i, ForceSkip(saved[i].skip), ms1)
  }

  lemma ItemLines(sh: Shape, saved: seq<Mark>, i: nat, rest: string, ms: seq<Mark>)
    requires ValidShape(sh) && WellNamed(sh) && |ms| == |saved| == |sh.kinds| && i < |ms|
    ensures LoadText(sh, Joined(SavedLines(sh, saved, i)) + rest, ms)
            == LoadText(sh, rest, ItemLoaded(sh, saved, i, ms))
  {
    hide LoadText, LoadLine, Clean, TouchFrom, WellNamed, ValidShape;
    ShapeFacts(sh);
    var name := sh.names[i];
    var bp := if sh.kinds[i] == Case && saved[i].breakpoint > 0 then ["BREAKPOINT " + name] else [];
    var skip := if saved[i].skip && !ParentSkip(sh, saved, i) then ["FORCE_SKIP " + name]
                else if !saved[i].skip && ParentSkip(sh, saved, i) then ["/FORCE_SKIP " + name] else [];
    assert SavedLines(sh, saved, i) == bp + skip;
    assert "BREAKPOINT " == "BREAKPOINT" + " " && "FORCE_SKIP " == "FORCE_SKIP" + " "
           && "/FORCE_SKIP " == "/FORCE_SKIP" + " ";
    JoinedAppend(bp, skip);
    ConcatAssoc(Joined(bp), Joined(skip), rest);
    var ms1 := if bp == [] then ms else TouchFrom(sh, i, Breakpoint(true), ms);
    OneLineLoaded(sh, "BREAKPOINT", i, bp, Joined(skip) + rest, ms);
    if saved[i].skip {
      OneLineLoaded(sh, "FORCE_SKIP", i, skip, rest, ms1);
    } else {
      OneLineLoaded(sh, "/FORCE_SKIP", i, skip, rest, ms1);
    }
  }

  lemma ShapeFacts(sh: Shape)
    requires ValidShape(sh)
    ensures |sh.names| == |sh.kinds| == |sh.kids| == |sh.parents|
    ensures forall j :: 0 <= j < |sh.parents| ==> -1 <= sh.parents[j] < j
  {
  }

  lemma OneLineLoaded(sh: Shape, word: string, i: nat, lines: seq<string>, rest: string, ms: seq<Mark>)
    requires ValidShape(sh) && WellNamed(sh) && |ms| == |sh.kinds| && i < |sh.names| && Keyword(word)
    requires lines == [] || lines == [word + " " + sh.names[i]]
    ensures LoadText(sh, Joined(lines) + rest, ms)
            == LoadText(sh, rest, if lines == [] then ms else TouchFrom(sh, i, QualifierOf(word).value, ms))
  {
    hide LoadText, LoadLine, Clean, TouchFrom, WellNamed, ValidShape, QualifierOf;
    if lines == [] {
      assert Joined(lines) + rest == rest;
    } else {
      var line := word + " " + sh.names[i];
      LoadSavedLine(sh, word, i, ms);
      assert [line][1..] == [];
      assert Joined(lines) + rest == line + "\n" + rest;
      LoadFirst(sh, line, rest, ms);
    }
  }

  lemma {:induction false} JoinedAppend(a: seq<string>, b: seq<string>)
    ensures Joined(a + b) == Joined(a) + Joined(b)
  {
    if a == [] {
      assert a + b == b;
    } else {
      assert (a + b)[1..] == a[1..] + b;
      JoinedAppend(a[1..], b);
    }
  }

  // ----- the flags after each item -----

  /** The skip flag saved for the nearest of `j` and its holders among the first `i` items; false when there is none. */
  function Inherited(sh: Shape, saved: seq<Mark>, i: int, j: int): bool
    requires |saved| == |sh.parents| && j < |saved|
    decreases if j < 0 then 0 else j + 1
  {
    if j < 0 then false
    else if j < i then saved[j].skip
    else if sh.parents[j] < j then Inherited(sh, saved, i, sh.parents[j]) else false
  }

  /** The flags when the lines of the first `i` items have been loaded in a new tree. */
  function LoadedUpTo(sh: Shape, saved: seq<Mark>, i: nat): (r: seq<Mark>)
    requires |saved| == |sh.parents| == |sh.kinds|
    ensures |r| == |saved|
  {
    seq(|saved|, j requires 0 <= j < |saved| =>
      Mark(Inherited(sh, saved, i, j), if j < i && sh.kinds[j] == Case && saved[j].breakpoint > 0 then 1 else 0))
  }

  /** Nothing that an object holds comes before it in the table; and a case holds nothing. */
  lemma {:induction false} WithinIsLater(sh: Shape, i: nat, j: nat)
    requires ValidShape(sh) && i < |sh.kinds| && j < |sh.kinds| && Within(sh.parents, i, j)
    ensures i <= j && (sh.kinds[i] == Case ==> i == j)
    decreases j
  {
    if j != i {
      WithinIsLater(sh, i, sh.parents[j]);
      assert j in sh.kids[sh.parents[j]];
    }
  }

  /** Item `i` changes what the objects within it inherit, and nothing else. */
  lemma {:induction false} InheritedStep(sh: Shape, saved: seq<Mark>, i: nat, j: nat)
    requires ValidShape(sh) && |saved| == |sh.parents| && i < |saved| && j < |saved|
    ensures Within(sh.parents, i, j) ==> Inherited(sh, saved, i + 1, j) == saved[i].skip
    ensures Within(sh.parents, i, j) ==> Inherited(sh, saved, i, j) == ParentSkip(sh, saved, i)
    ensures !Within(sh.parents, i, j) ==> Inherited(sh, saved, i + 1, j) == Inherited(sh, saved, i, j)
    decreases j
  {
    if j > i && sh.parents[j] >= 0 {
      InheritedStep(sh, saved, i, sh.parents[j]);
    } else if Within(sh.parents, i, j) {
      WithinIsLater(sh, i, j);
    }
  }

  /** The lines of an item bring the flags up to it. */
  lemma ItemStep(sh: Shape, saved: seq<Mark>, i: nat)
    requires ValidShape(sh) && |saved| == |sh.parents| && i < |saved|
    ensures ItemLoaded(sh, saved, i, LoadedUpTo(sh, saved, i)) == LoadedUpTo(sh, saved, i + 1)
  {
    var before, after := LoadedUpTo(sh, saved, i), LoadedUpTo(sh, saved, i + 1);
    var loaded := ItemLoaded(sh, saved, i, before);
    forall j | 0 <= j < |saved| ensures loaded[j] == after[j] {
      InheritedStep(sh, saved, i, j);
      if Within(sh.parents, i, j) {
        WithinIsLater(sh, i, j);
      }
    }
  }

  lemma {:induction false} NothingInherited(sh: Shape, saved: seq<Mark>, j: int)
    requires |saved| == |sh.parents| && j < |saved|
    ensures !Inherited(sh, saved, 0, j)
    decreases if j < 0 then 0 else j + 1
  {
    if j >= 0 && sh.parents[j] < j {
      NothingInherited(sh, saved, sh.parents[j]);
    }
  }

  function NewMarks(n: nat): (r: seq<Mark>)
    ensures |r| == n
  {
    seq(n, j => Mark(false, 0))
  }

  lemma {:induction false} LoadPrefix(sh: Shape, saved: seq<Mark>, i: nat, rest: string)
    requires ValidShape(sh) && WellNamed(sh) && |saved| == |sh.parents| && i <= |saved|
    ensures LoadText(sh, SavedText(sh, saved, i) + rest, NewMarks(|saved|))
            == LoadText(sh, rest, LoadedUpTo(sh, saved, i))
    decreases i
  {
    hide LoadText, LoadedUpTo, ItemLoaded, SavedLines, WellNamed;
    if i == 0 {
      assert SavedText(sh, saved, 0) + rest == rest;
      NothingLoaded(sh, saved);
    } else {
      var lines := Joined(SavedLines(sh, saved, i - 1));
      ConcatAssoc(SavedText(sh, saved, i - 1), lines, rest);
      LoadPrefix(sh, saved, i - 1, lines + rest);
      ItemLines(sh, saved, i - 1, rest, LoadedUpTo(sh, saved, i - 1));
      ItemStep(sh, saved, i - 1);
    }
  }

  lemma NothingLoaded(sh: Shape, saved: seq<Mark>)
    requires ValidShape(sh) && |saved| == |sh.parents|
    ensures LoadedUpTo(sh, saved, 0) == NewMarks(|saved|)
  {
    forall j | 0 <= j < |saved| ensures LoadedUpTo(sh, saved, 0)[j] == NewMarks(|saved|)[j] {
      NothingInherited(sh, saved, j);
    }
  }

  /** The flags saved are those loaded into a new tree: every skip flag, and every breakpoint as set or not. */
  predicate Restored(sh: Shape, saved: seq<Mark>)
    requires ValidShape(sh) && |saved| == |sh.parents|
  {
    var loaded := LoadText(sh, SavedText(sh, saved, |saved|), NewMarks(|saved|));
    forall j :: 0 <= j < |saved| ==>
      && loaded[j].skip == saved[j].skip
      && (sh.kinds[j] == Case ==> loaded[j].breakpoint == if saved[j].breakpoint > 0 then 1 else 0)
  }

  lemma RoundTrip(sh: Shape, saved: seq<Mark>)
    requires ValidShape(sh) && WellNamed(sh) && |saved| == |sh.parents|
    ensures Restored(sh, saved)
  {
    hide LoadText, SavedText;
    var text := SavedText(sh, saved, |saved|);
    assert text + [] == text;
    LoadPrefix(sh, saved, |saved|, []);
    EmptyText(sh, LoadedUpTo(sh, saved, |saved|));
  }

  lemma EmptyText(sh: Shape, ms: seq<Mark>)
    requires |ms| == |sh.kinds|
    ensures LoadText(sh, [], ms) == ms
  {
    assert Clean([]) == [] && Upper([]) == [];
  }

  // ----- names that spoil the flags -----

  /** Item `i` and all within it are to be skipped, nothing else. */
  function SkipOnly(sh: Shape, i: nat): (r: seq<Mark>)
    ensures |r| == |sh.parents|
  {
    seq(|sh.parents|, j requires 0 <= j < |sh.parents| => Mark(Within(sh.parents, i, j), 0))
  }

  lemma SkipOnlyLines(sh: Shape, i: nat, j: nat)
    requires ValidShape(sh) && i < |sh.parents| && j < |sh.parents|
    ensures SavedLines(sh, SkipOnly(sh, i), j) == if i == j then ["FORCE_SKIP " + sh.names[i]] else []
  {
    if i == j && sh.parents[i] >= 0 {
      RootOutside(sh, i);
    }
  }

  /** Only one line is saved then. */
  lemma {:induction false} SkipOnlySaved(sh: Shape, i: nat, n: nat)
    requires ValidShape(sh) && i < |sh.parents| && n <= |sh.parents|
    ensures SavedText(sh, SkipOnly(sh, i), n) == if i < n then "FORCE_SKIP " + sh.names[i] + "\n" else []
  {
    hide SkipOnly, SavedLines;
    if n > 0 {
      SkipOnlySaved(sh, i, n - 1);
      SkipOnlyLines(sh, i, n - 1);
      var line := "FORCE_SKIP " + sh.names[i];
      assert [line][1..] == [] && Joined([line]) == line + "\n";
    }
  }

  lemma RootOutside(sh: Shape, i: nat)
    requires ValidShape(sh) && i < |sh.parents| && sh.parents[i] >= 0
    ensures !Within(sh.parents, i, sh.parents[i])
  {
    if Within(sh.parents, i, sh.parents[i]) {
      WithinIsLater(sh, i, sh.parents[i]);
    }
  }

  /** An object and the one that holds it have the same skip flag. */
  predicate SkipsAlike(sh: Shape, i: nat, ms: seq<Mark>)
    requires i < |ms| == |sh.parents| && 0 <= sh.parents[i] < i
  {
    ms[i].skip == ms[sh.parents[i]].skip
  }

  /** A word is not the name of an object whose name is not plain. */
  lemma WordIsPlain(s: string)
    requires '#' !in s && Word(s) != "*" && Word(s) != []
    ensures Plain(Word(s))
  {
    WordIsClean(s);
  }

  lemma {:induction false} WordIsClean(s: string)
    requires '#' !in s
    ensures '#' !in Word(s) && forall i :: 0 <= i < |Word(s)| ==> !Blank(Word(s)[i])
  {
    if s != [] && !Blank(s[0]) {
      WordIsClean(s[1..]);
    }
  }

  lemma NameKeepsAlike(sh: Shape, q: Qualifier, name: string, i: nat, ms: seq<Mark>)
    requires ValidShape(sh) && |ms| == |sh.parents| && i < |ms| && sh.parents[i] >= 0 && SkipsAlike(sh, i, ms)
    requires name == "*" || name != sh.names[i]
    ensures SkipsAlike(sh, i, LoadName(sh, q, name, ms))
  {
    var k := IndexOf(sh.names, name);
    if name != "*" && k != -1 {
      assert Within(sh.parents, k, i) <==> Within(sh.parents, k, sh.parents[i]);
    }
  }

  lemma {:induction false} NamesKeepAlike(sh: Shape, q: Qualifier, s: string, i: nat, ms: seq<Mark>)
    requires ValidShape(sh) && |ms| == |sh.parents| && i < |ms| && sh.parents[i] >= 0 && SkipsAlike(sh, i, ms)
    requires '#' !in s && !Plain(sh.names[i])
    ensures SkipsAlike(sh, i, LoadNames(sh, q, s, ms))
    decreases |s|
  {
    hide ValidShape, LoadName, Plain;
    ShapeFacts(sh);
    var name := Word(s);
    if name != [] {
      if name != "*" {
        WordIsPlain(s);
      }
      NameKeepsAlike(sh, q, name, i, ms);
      SkipIn(s[|name|..], '#');
      NamesKeepAlike(sh, q, SkipSpaces(s[|name|..]), i, LoadName(sh, q, name, ms));
    }
  }

  lemma {:induction false} SkipIn(s: string, c: char)
    requires c !in s
    ensures c !in SkipSpaces(s)
  {
    if s != [] {
      SkipIn(s[1..], c);
    }
  }

  lemma LineKeepsAlike(sh: Shape, line: string, i: nat, ms: seq<Mark>)
    requires ValidShape(sh) && |ms| == |sh.parents| && i < |ms| && sh.parents[i] >= 0 && SkipsAlike(sh, i, ms)
    requires !Plain(sh.names[i])
    ensures SkipsAlike(sh, i, LoadLine(sh, line, ms))
  {
    hide ValidShape, LoadNames, Plain, Word;
    ShapeFacts(sh);
    var cut := line[..Find(line, '#')];
    assert '#' !in cut;
    SkipIn(cut, '#');
    var s := SkipSpaces(cut);
    SkipIn(s[|Word(s)|..], '#');
    match QualifierOf(Upper(Word(s))) {
      case None =>
      case Some(q) => NamesKeepAlike(sh, q, SkipSpaces(s[|Word(s)|..]), i, ms);
    }
  }

  /** No file at all can give a flag of its own to an object that is held by another, when its name is not plain. */
  lemma {:induction false} TextKeepsAlike(sh: Shape, text: string, i: nat, ms: seq<Mark>)
    requires ValidShape(sh) && |ms| == |sh.parents| && i < |ms| && sh.parents[i] >= 0 && SkipsAlike(sh, i, ms)
    requires !Plain(sh.names[i])
    ensures SkipsAlike(sh, i, LoadText(sh, text, ms))
    decreases |text|
  {
    hide ValidShape, LoadLine, Plain, Clean;
    ShapeFacts(sh);
    var k := Find(text, '\n');
    LineKeepsAlike(sh, Clean(text[..k]), i, ms);
    if k < |text| {
      TextKeepsAlike(sh, text[k + 1..], i, LoadLine(sh, Clean(text[..k]), ms));
    }
  }

  /** The flags are lost of an object below the root whose name is not plain. */
  lemma NameSpoils(sh: Shape, i: nat)
    requires ValidShape(sh) && i < |sh.parents| && sh.parents[i] >= 0 && !Plain(sh.names[i])
    ensures !Restored(sh, SkipOnly(sh, i))
  {
    hide LoadText, SavedText, Plain;
    var saved := SkipOnly(sh, i);
    var text := SavedText(sh, saved, |saved|);
    RootOutside(sh, i);
    TextKeepsAlike(sh, text, i, NewMarks(|saved|));
    assert saved[i].skip && !saved[sh.parents[i]].skip;
  }

  lemma {:induction false} NamesKeepRoot(sh: Shape, q: Qualifier, s: string, ms: seq<Mark>)
    requires ValidShape(sh) && |ms| == |sh.parents| > 0 && '#' !in s && !Plain(sh.names[0]) && !HasStar(s)
    ensures LoadNames(sh, q, s, ms)[0] == ms[0]
    decreases |s|
  {
    hide ValidShape, Plain, TouchAll;
    ShapeFacts(sh);
    var name := Word(s);
    if name != [] {
      WordIsPlain(s);
      SkipIn(s[|name|..], '#');
      var next := LoadName(sh, q, name, ms);
      assert next[0] == ms[0];
      NamesKeepRoot(sh, q, SkipSpaces(s[|name|..]), next);
    }
  }

  /** So are those of a root whose name is neither plain nor stands for all. */
  lemma RootSpoils(sh: Shape)
    requires ValidShape(sh) && |sh.parents| > 0 && !Plain(sh.names[0]) && !HasStar(SavedNames(sh.names[0]))
             && '\n' !in sh.names[0]
    ensures !Restored(sh, SkipOnly(sh, 0))
  {
    hide LoadText, SavedText, Plain, LoadLine, LoadNames, HasStar, Clean, ValidShape, QualifierOf;
    ShapeFacts(sh);
    var saved, name := SkipOnly(sh, 0), sh.names[0];
    SkipOnlySaved(sh, 0, |saved|);
    var line := "FORCE_SKIP" + " " + name;
    assert "FORCE_SKIP " + name == line;
    assert '\n' !in line;
    LoadFirst(sh, line, [], NewMarks(|saved|));
    assert line + "\n" + [] == line + "\n";
    SavedLineRead(sh, "FORCE_SKIP", name, NewMarks(|saved|));
    EmptyText(sh, LoadLine(sh, Clean(line), NewMarks(|saved|)));
    NamesHaveNoHash(name);
    KnownWord("FORCE_SKIP");
    NamesKeepRoot(sh, QualifierOf("FORCE_SKIP").value, SavedNames(name), NewMarks(|saved|));
    assert saved[0].skip;
  }

  lemma NamesHaveNoHash(name: string)
    ensures '#' !in SavedNames(name)
  {
    SkipIn(Clean(name)[..Find(Clean(name), '#')], '#');
  }

  /**
    Whatever the flags, they are restored, if and only if the names of all objects but the root are plain,
    and the root's is too or stands for all.
   */
  lemma RestoredWhen(sh: Shape)
    requires ValidShape(sh) && NamesApart(sh) && OneRoot(sh) && (sh.names != [] ==> '\n' !in sh.names[0])
    ensures (forall saved :: |saved| == |sh.parents| ==> Restored(sh, saved)) <==> WellNamed(sh)
  {
    hide Restored, Plain, HasStar, NamesApart;
    if WellNamed(sh) {
      forall saved | |saved| == |sh.parents| ensures Restored(sh, saved) {
        RoundTrip(sh, saved);
      }
    } else {
      ShapeFacts(sh);
      var i := SpoiltName(sh);
      if i > 0 {
        NameSpoils(sh, i);
      } else {
        RootSpoils(sh);
      }
      assert |SkipOnly(sh, i)| == |sh.parents|;
    }
  }

  lemma SpoiltName(sh: Shape) returns (i: nat)
    requires NamesApart(sh) && OneRoot(sh) && !WellNamed(sh) && (sh.names != [] ==> '\n' !in sh.names[0])
    ensures i < |sh.names| && !Plain(sh.names[i]) && (i == 0 ==> !HasStar(SavedNames(sh.names[0])))
  {
    hide Plain, HasStar, NamesApart, OneRoot;
    if j :| 0 < j < |sh.names| && !Plain(sh.names[j]) {
      i := j;
    } else {
      i := 0;
    }
  }

  /** For instance, the skip flag of a test case with the name `a b` is lost. */
  lemma BlankSpoils(root: string)
    ensures var sh := Shape([root, "a b"], [Seq, Case], [[1], []], [-1, 0]);
            ValidShape(sh) && !Restored(sh, [Mark(false, 0), Mark(true, 0)])
  {
    var sh := Shape([root, "a b"], [Seq, Case], [[1], []], [-1, 0]);
    assert sh.names[1][1] == ' ';
    NameSpoils(sh, 1);
    assert SkipOnly(sh, 1) == [Mark(false, 0), Mark(true, 0)];
  }
}
