/**
  What each line of a flags file does to the flags, and to which objects (core/codegen/codegen_tree_init.c).
 */
module FlagLines {
  import opened CText
  import opened Shapes
  import opened TestTree
  import opened Expr
  import opened ExprMeaning
  import opened XmlText
  import opened Flags

  /** A name stands for the first item that has it and for all that this item holds, and `*` for all items. */
  ghost predicate Named(sh: Shape, name: string, j: nat) {
    name == "*" ||
    exists i :: 0 <= i < |sh.names| && sh.names[i] == name && (forall k :: 0 <= k < i ==> sh.names[k] != name)
                && Within(sh.parents, i, j)
  }

  /** The flags of the objects named are what the word says, and the others are as they were. */
  ghost predicate Done(sh: Shape, word: string, name: string, was: seq<Mark>, ms: seq<Mark>) {
    && |ms| == |was| == |sh.kinds|
    && forall j :: 0 <= j < |ms| ==>
         if Named(sh, name, j) then
           && ms[j].skip == (if word == "FORCE_SKIP" then true
                             else if word == "/FORCE_SKIP" || word == "CLEAR" then false else was[j].skip)
           && ms[j].breakpoint == (if sh.kinds[j] != Case then was[j].breakpoint
                                   else if word == "BREAKPOINT" then 1
                                   else if word == "/BREAKPOINT" || word == "CLEAR" then 0 else was[j].breakpoint)
         else
           ms[j] == was[j]
  }

  lemma TouchedAre(sh: Shape, word: string, name: string, ms: seq<Mark>)
    requires Keyword(word) && |ms| == |sh.kinds|
    ensures QualifierOf(word).Some? && Done(sh, word, name, ms, LoadName(sh, QualifierOf(word).value, name, ms))
  {
    hide Within, Touch;
    WordTouches(word);
    if name != "*" {
      NamedIs(sh, name);
    }
  }

  lemma WordTouches(word: string)
    requires Keyword(word)
    ensures QualifierOf(word).Some?
    ensures forall kind, m :: var r := Touch(QualifierOf(word).value, kind, m);
              && r.skip == (if word == "FORCE_SKIP" then true
                            else if word == "/FORCE_SKIP" || word == "CLEAR" then false else m.skip)
              && r.breakpoint == (if kind != Case then m.breakpoint
                                  else if word == "BREAKPOINT" then 1
                                  else if word == "/BREAKPOINT" || word == "CLEAR" then 0 else m.breakpoint)
  {
  }

  lemma NamedIs(sh: Shape, name: string)
    requires name != "*"
    ensures var i := IndexOf(sh.names, name);
            forall j: nat :: Named(sh, name, j) <==> i != -1 && Within(sh.parents, i, j)
  {
    hide Within;
  }

  /** Text of names only: words separated by blanks. */
  predicate NameText(s: string) {
    '\n' !in s && '#' !in s && forall i :: 0 <= i < |s| ==> ' ' <= s[i] < '\U{80}'
  }

  lemma {:induction false} NamesRead(sh: Shape, word: string, names: string, ms: seq<Mark>)
    requires Keyword(word) && |ms| == |sh.kinds| && NameText(names)
    ensures QualifierOf(word).Some?
    ensures LoadText(sh, word + " " + names + "\n", ms) == LoadNames(sh, QualifierOf(word).value, SkipSpaces(names), ms)
  {
    hide *;
    KnownWord(word);
    SavedLineRead(sh, word, names, ms);
    NamesSaved(names);
    LineIsOne(word, names);
    OnlyLine(sh, word + " " + names, ms);
  }

  lemma LineIsOne(word: string, names: string)
    requires Keyword(word) && NameText(names)
    ensures '\n' !in word + " " + names
  {
    hide Keyword;
    KeywordChars(word);
  }

  lemma NamesSaved(names: string)
    requires NameText(names)
    ensures SavedNames(names) == SkipSpaces(names)
  {
    hide Clean, SkipSpaces;
    CleanPrintable(names);
    NothingFound(names, '#');
  }

  lemma OnlyLine(sh: Shape, line: string, ms: seq<Mark>)
    requires |ms| == |sh.kinds| && '\n' !in line
    ensures LoadText(sh, line + "\n", ms) == LoadLine(sh, Clean(line), ms)
  {
    hide LoadText, LoadLine, Clean;
    assert line + "\n" == line + "\n" + [];
    LoadFirst(sh, line, [], ms);
    EmptyLine(sh, LoadLine(sh, Clean(line), ms));
  }

  lemma NothingFound(s: string, c: char)
    requires c !in s
    ensures s[..Find(s, c)] == s
  {
    assert s[..|s|] == s;
  }

  lemma EmptyLine(sh: Shape, ms: seq<Mark>)
    requires |ms| == |sh.kinds|
    ensures LoadText(sh, [], ms) == ms
  {
  }

  /** A line with one name does what its keyword says to what is named, and nothing else. */
  lemma {:induction false} LineDoes(sh: Shape, word: string, name: string, ms: seq<Mark>)
    requires |ms| == |sh.kinds| && word in {"BREAKPOINT", "/BREAKPOINT", "FORCE_SKIP", "/FORCE_SKIP", "CLEAR"}
    requires Flags.Plain(name) || name == "*"
    ensures Done(sh, word, name, ms, LoadText(sh, word + " " + name + "\n", ms))
  {
    hide LoadText, LoadName, QualifierOf, Done;
    NamesRead(sh, word, name, ms);
    NameFirst(sh, QualifierOf(word).value, name, [], ms);
    TouchedAre(sh, word, name, ms);
  }

  lemma NoNames(sh: Shape, q: Qualifier, ms: seq<Mark>)
    requires |ms| == |sh.kinds|
    ensures LoadNames(sh, q, [], ms) == ms
  {
  }

  /** A line with several names does as one line for each. */
  lemma {:induction false} NamesInTurn(sh: Shape, word: string, name: string, more: string, ms: seq<Mark>)
    requires |ms| == |sh.kinds| && word in {"BREAKPOINT", "/BREAKPOINT", "FORCE_SKIP", "/FORCE_SKIP", "CLEAR"}
    requires (Flags.Plain(name) || name == "*") && NameText(more)
    ensures LoadText(sh, word + " " + (name + " " + more) + "\n", ms)
            == LoadText(sh, word + " " + more + "\n", LoadText(sh, word + " " + name + "\n", ms))
  {
    hide LoadText, LoadName, LoadNames, QualifierOf, SkipSpaces;
    NamesAreText(name, more);
    NamesRead(sh, word, name + " " + more, ms);
    NamesRead(sh, word, name, ms);
    NamesRead(sh, word, more, LoadText(sh, word + " " + name + "\n", ms));
    var q := QualifierOf(word).value;
    NameFirst(sh, q, name, more, ms);
  }

  lemma NamesAreText(name: string, more: string)
    requires (Flags.Plain(name) || name == "*") && NameText(more)
    ensures NameText(name) && NameText(name + " " + more)
  {
  }

  lemma {:induction false} NameFirst(sh: Shape, q: Qualifier, name: string, more: string, ms: seq<Mark>)
    requires |ms| == |sh.kinds| && (Flags.Plain(name) || name == "*")
    ensures LoadNames(sh, q, SkipSpaces(name), ms) == LoadName(sh, q, name, ms)
    ensures LoadNames(sh, q, SkipSpaces(name + " " + more), ms)
            == LoadNames(sh, q, SkipSpaces(more), LoadName(sh, q, name, ms))
  {
    hide LoadName;
    var names := name + " " + more;
    WordWhole(name);
    assert SkipSpaces(name) == name && name[|name|..] == [];
    NoNames(sh, q, LoadName(sh, q, name, ms));
    assert names == name + (" " + more) && names[|name|..] == " " + more && (" " + more)[1..] == more;
    WordBefore(name, " " + more);
    assert SkipSpaces(names) == names by { assert names[0] == name[0]; }
  }

  /** The lines of a file do what each does, one after the other. */
  lemma {:induction false} LinesInTurn(sh: Shape, line: string, rest: string, ms: seq<Mark>)
    requires |ms| == |sh.kinds| && '\n' !in line
    ensures LoadText(sh, line + "\n" + rest, ms) == LoadText(sh, rest, LoadText(sh, line + "\n", ms))
  {
    hide LoadText, LoadLine, Clean;
    LoadFirst(sh, line, rest, ms);
    OnlyLine(sh, line, ms);
  }
  /** What follows a `#` is not read. */
  lemma {:induction false} CommentIgnored(sh: Shape, line: string, comment: string, ms: seq<Mark>)
    requires |ms| == |sh.kinds| && '#' !in line && '\n' !in line && '\n' !in comment
    ensures LoadText(sh, line + "#" + comment + "\n", ms) == LoadText(sh, line + "\n", ms)
  {
    hide LoadText, Clean, LoadNames, QualifierOf;
    OnlyLine(sh, line, ms);
    OnlyLine(sh, line + "#" + comment, ms);
    CleanInTurn(line, "#" + comment);
    CleanInTurn("#", comment);
    CleanPrintable("#");
    assert line + "#" + comment == line + ("#" + comment);
    var tail := "#" + Clean(comment);
    CleanHasNone(line);
    FindLater(Clean(line), tail, '#');
    NothingFound(Clean(line), '#');
    assert Find(tail, '#') == 0;
    assert (Clean(line) + tail)[..|Clean(line)|] == Clean(line);
  }

  lemma {:induction false} CleanHasNone(s: string)
    requires '#' !in s
    ensures '#' !in Clean(s)
  {
    if s != [] {
      CleanHasNone(s[1..]);
    }
  }
}
