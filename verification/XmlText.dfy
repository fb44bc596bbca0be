/**
  The text of an XML output file: what is written for each step of a run, when it is well formed,
  and what reading it back gives (core/output/output_xml.c, interface/useful/strxml.c).
 */
module XmlText {
  import opened CText
  import opened Shapes
  import opened Expr
  import opened ExprMeaning

  /** No channel; the channels that can be read back are 0 to 5. */
  const NONE := -1

  predicate Known(channel: int) {
    0 <= channel <= 5
  }

  function ChannelName(channel: int): string {
    if channel == 0 then "in"
    else if channel == 1 then "out"
    else if channel == 2 then "err"
    else if channel == 3 then "in_title"
    else if channel == 4 then "in_header"
    else if channel == 5 then "in_verdict"
    else "unknown"
  }

  function ChannelOf(name: string): int {
    if name == "in" then 0
    else if name == "out" then 1
    else if name == "err" then 2
    else if name == "in_title" then 3
    else if name == "in_header" then 4
    else if name == "in_verdict" then 5
    else NONE
  }

  // ----- escaping -----

  function EscapeChar(c: char): (r: string)
    ensures '<' !in r
    ensures c != '\n' <==> '\n' !in r
  {
    if c == '<' then "&lt;" else if c == '&' then "&amp;" else if c == '>' then "&gt;" else [c]
  }

  function Escape(s: string): string {
    if s == [] then [] else EscapeChar(s[0]) + Escape(s[1..])
  }

  predicate StartsWith(s: string, prefix: string) {
    |prefix| <= |s| && s[..|prefix|] == prefix
  }

  /** The character that a text starts with, read as XML, and what is left. */
  function Unquote(s: string): (r: (char, string))
    requires s != []
    ensures |r.1| < |s|
  {
    var t := s[1..];
    if s[0] != '&' then (s[0], t)
    else if StartsWith(t, "amp;") then ('&', t[4..])
    else if StartsWith(t, "lt;") then ('<', t[3..])
    else if StartsWith(t, "gt;") then ('>', t[3..])
    else if StartsWith(t, "apos;") then ('\'', t[5..])
    else if StartsWith(t, "quot;") then ('"', t[5..])
    else ('&', t)
  }

  function Unescape(s: string): string
    decreases |s|
  {
    if s == [] then [] else [Unquote(s).0] + Unescape(Unquote(s).1)
  }

  lemma {:induction false} EscapeRoundTrip(s: string)
    ensures Unescape(Escape(s)) == s
  {
    if s != [] {
      EscapeRoundTrip(s[1..]);
      UnquoteEscaped(s[0], Escape(s[1..]));
    }
  }

  lemma UnquoteEscaped(c: char, rest: string)
    ensures EscapeChar(c) + rest != [] && Unquote(EscapeChar(c) + rest) == (c, rest)
  {
    var s := EscapeChar(c) + rest;
    var e := EscapeChar(c)[1..];
    assert s[1..] == e + rest;
    assert s[1..][|e|..] == rest && s[1..][..|e|] == e;
    if c == '<' {
      assert e == "lt;";
      assert s[1] == 'l' && !StartsWith(s[1..], "amp;");
    } else if c == '>' {
      assert e == "gt;";
      assert s[1] == 'g' && !StartsWith(s[1..], "amp;") && !StartsWith(s[1..], "lt;");
    } else if c == '&' {
      assert e == "amp;";
    }
  }

  lemma {:induction false} EscapeAppend(a: string, b: string)
    ensures Escape(a + b) == Escape(a) + Escape(b)
  {
    if a == [] {
      assert a + b == b;
    } else {
      assert (a + b)[1..] == a[1..] + b;
      EscapeAppend(a[1..], b);
    }
  }

  lemma {:induction false} EscapeHasNoTag(s: string)
    ensures '<' !in Escape(s)
    ensures '\n' !in s ==> '\n' !in Escape(s)
  {
    if s != [] {
      EscapeHasNoTag(s[1..]);
    }
  }

  // ----- what is written -----

  datatype Tag = OutputTag | SeqTag | CaseTag

  function TagText(tag: Tag): string {
    match tag
    case OutputTag => "OUTPUT"
    case SeqTag => "SEQ"
    case CaseTag => "CASE"
  }

  datatype Field = Operated | Release | Validated | Verdict

  function FieldText(field: Field): string {
    match field
    case Operated => "OPERATOR"
    case Release => "RELEASE"
    case Validated => "VALIDATED"
    case Verdict => "VERDICT"
  }

  datatype Note = Description | Reference

  function NoteText(note: Note): string {
    match note
    case Description => "DESCRIPTION"
    case Reference => "REFERENCE"
  }

  /** A piece of the file; `depth` is its indentation. */
  datatype Token =
    | Header(line: string)
    | OpenResult
    | CloseResult
    | Begin(depth: nat, tag: Tag, name: string, attrs: string)
    | End(depth: nat, tag: Tag, comment: Option<string>)
    | Remark(depth: nat, note: Note, text: string)
    | Single(depth: nat, field: Field, attrs: string, value: string)
    | OpenStdio(depth: nat, channel: int)
    | CloseStdio(depth: nat)
    | Data(channel: int, text: string)

  function Indent(depth: nat): (r: string) {
    if depth == 0 then [] else "  " + Indent(depth - 1)
  }

  /** The text of a remark, indented at the start of each line. */
  function Cdata(depth: nat, s: string, start: bool): string
    decreases |s|
  {
    if s == [] then [] else (if start
       then Indent(depth) else []) + EscapeChar(s[0]) + Cdata(depth, s[1..], s[0] == '\n')
  }

  function BeginText(tag: Tag, name: string, attrs: string): string {
    "<" + (TagText(tag) + (" id=\"" + name + "\"" + attrs + ">"))
  }

  function EndText(tag: Tag, comment: Option<string>): string {
    "</" + TagText(tag) + ">" + if comment == None then [] else "  <!-- " + comment.value + " -->"
  }

  function SingleText(field: Field, attrs: string, value: string): string {
    "<" + (FieldText(field) + (attrs + ">" + value + "</" + FieldText(field) + ">"))
  }

  function StdioText(channel: int): string {
    "<STDIO channel=\"" + ChannelName(channel) + "\">"
  }

  function Depth(t: Token): nat {
    match t
    case Header(_) => 0
    case OpenResult => 0
    case CloseResult => 0
    case Data(_, _) => 0
    case _ => t.depth
  }

  /** The tag of a token that takes just one line. */
  function Markup(t: Token): string
    requires !t.Remark? && !t.Data?
  {
    match t
    case Header(line) => "<" + line
    case OpenResult => "<RESULT>"
    case CloseResult => "</RESULT>"
    case Begin(_, tag, name, attrs) => BeginText(tag, name, attrs)
    case End(_, tag, comment) => EndText(tag, comment)
    case Single(_, field, attrs, value) => SingleText(field, attrs, value)
    case OpenStdio(_, channel) => StdioText(channel)
    case CloseStdio(_) => "</STDIO>"
  }

  function TokenText(t: Token): string {
    match t
    case Data(_, text) => Escape(text) + "\n"
    case Remark(depth, note, text) =>
      (Indent(depth) + ("<" + NoteText(note) + ">")) + "\n"
      + (Cdata(depth + 1, text, true) + "\n"
      + ((Indent(depth) + ("</" + NoteText(note) + ">")) + "\n"))
    case _ => Indent(Depth(t)) + Markup(t) + "\n"
  }

  /** The text of a file. */
  function Render(ts: seq<Token>): string {
    if ts == [] then [] else Render(ts[..|ts| - 1]) + TokenText(ts[|ts| - 1])
  }

  // ----- well-formed documents -----

  datatype Elem = Object(tag: Tag, name: string) | Stdio(channel: int)

  /** Where a file is: before its root element, inside it with some elements open, after it. */
  datatype Place = Prologue | Inside(open: seq<Elem>) | Over | Broken

  function Top(open: seq<Elem>): Elem
    requires open != []
  {
    open[|open| - 1]
  }

  /** Inside an object: neither directly in the root element, nor in a STDIO section. */
  predicate InObject(p: Place) {
    p.Inside? && p.open != [] && Top(p.open).Object?
  }

  predicate InStdio(p: Place) {
    p.Inside? && p.open != [] && Top(p.open).Stdio?
  }

  /**
    Each closing tag must match the element open last, a case holds no other object, a STDIO section
    holds nothing but the text of its channel, and the indentation must be the number of open elements.
   */
  function Advance(t: Token, p: Place): Place {
    match t
    case Header(_) => if p == Prologue then p else Broken
    case OpenResult => if p == Prologue then Inside([]) else Broken
    case CloseResult => if p == Inside([]) then Over else Broken
    case Begin(depth, tag, name, _) =>
      if p.Inside? && depth == |p.open|
         && (if tag == OutputTag then p.open == [] else InObject(p) && Top(p.open).tag != CaseTag)
      then Inside(p.open + [Object(tag, name)]) else Broken
    case End(depth, tag, comment) =>
      if InObject(p) && Top(p.open).tag == tag && (comment == None || comment == Some(Top(p.open).name))
         && depth == |p.open| - 1
      then Inside(p.open[..|p.open| - 1]) else Broken
    case Remark(depth, _, _) => if InObject(p) && depth == |p.open| then p else Broken
    case Single(depth, _, _, _) => if InObject(p) && depth == |p.open| then p else Broken
    case OpenStdio(depth, channel) =>
      if InObject(p) && depth == |p.open| then Inside(p.open + [Stdio(channel)]) else Broken
    case CloseStdio(depth) =>
      if InStdio(p) && depth == |p.open| - 1 then Inside(p.open[..|p.open| - 1]) else Broken
    case Data(channel, _) => if InStdio(p) && Top(p.open).channel == channel then p else Broken
  }

  function PlaceAfter(ts: seq<Token>, p: Place): Place {
    if ts == [] then p else Advance(ts[|ts| - 1], PlaceAfter(ts[..|ts| - 1], p))
  }

  // ----- what is read -----

  datatype Heed = Finish | Switch(channel: int) | Plain

  /** The first place of `c`; the length of the text when there is none. */
  function Find(s: string, c: char): (k: nat)
    ensures k <= |s|
    ensures k < |s| ==> s[k] == c
    ensures forall i :: 0 <= i < k ==> s[i] != c
  {
    if s == [] || s[0] == c then 0 else 1 + Find(s[1..], c)
  }

  /** The channel named by the attributes of a STDIO tag; without it, the channel stays the same. */
  function StdioChannel(s: string, channel: int): int {
    var t := SkipSpaces(s);
    if StartsWith(t, "channel=\"") then ChannelOf(t[9..][..Find(t[9..], '"')]) else channel
  }

  /** What a tag changes, from the text after its `<`. */
  function ReadTag(s: string, channel: int): Heed {
    if StartsWith(s, "/") then Switch(NONE)
    else if StartsWith(s, "CASE ") then Finish
    else if StartsWith(s, "STDIO ") then Switch(StdioChannel(s[6..], channel))
    else Switch(channel)
  }

  function ReadLine(line: string, channel: int): Heed {
    var s := SkipSpaces(line);
    if s != [] && s[0] == '<' then ReadTag(s[1..], channel) else Plain
  }

  /** What a line of text gives, when only those that start with `filter` are wanted. */
  function Given(channel: int, line: string, filter: Option<string>): seq<(int, string)> {
    if channel == NONE then []
    else if filter == None then [(channel, line)]
    else if StartsWith(line, filter.value) then [(channel, line[|filter.value|..])]
    else []
  }

  /** What is read from a text, up to the next case. A last line without end is not read. */
  function ReadText(text: string, channel: int, filter: Option<string>): seq<(int, string)>
    decreases |text|
  {
    var k := Find(text, '\n');
    if k == |text| then []
    else
      var line, rest := text[..k], text[k + 1..];
      match ReadLine(line, channel)
      case Finish => []
      case Switch(c) => ReadText(rest, c, filter)
      case Plain => Given(channel, Unescape(line), filter) + ReadText(rest, channel, filter)
  }

  // ----- reading back what was written -----

  /** The lines given by those written on a channel. */
  function GivenAll(channel: int, lines: seq<string>, filter: Option<string>): seq<(int, string)> {
    if lines == [] then [] else Given(channel, lines[0], filter) + GivenAll(channel, lines[1..], filter)
  }

  /** The channel of a STDIO section as the reader sees it. */
  function Heard(channel: int): int {
    if Known(channel) then channel else NONE
  }

  /** The lines of the texts written before the next case, each with its channel. */
  function Written(ts: seq<Token>, filter: Option<string>): seq<(int, string)> {
    if ts == [] then []
    else match ts[0]
      case Begin(_, tag, _, _) => if tag == CaseTag then [] else Written(ts[1..], filter)
      case Data(channel, text) => GivenAll(Heard(channel), Pieces(text, '\n'), filter) + Written(ts[1..], filter)
      case _ => Written(ts[1..], filter)
  }

  predicate OneLine(s: string) {
    '\n' !in s
  }

  /** Everything but the texts is on one line. */
  predicate Tame(t: Token) {
    match t
    case Header(line) => OneLine(line) && line != [] && line[0] in {'?', '!'}
    case Begin(_, _, name, attrs) => OneLine(name) && OneLine(attrs)
    case End(_, _, comment) => comment == None || OneLine(comment.value)
    case Single(_, _, attrs, value) => OneLine(attrs) && OneLine(value)
    case _ => true
  }

  /** The channel that the reader has in mind. */
  function ChannelAt(p: Place): int {
    if InStdio(p) then Heard(Top(p.open).channel) else NONE
  }

  lemma FindAt(s: string, k: nat, c: char)
    requires k < |s| && s[k] == c && c !in s[..k]
    ensures Find(s, c) == k
  {
    assert forall i :: 0 <= i < k ==> s[i] == s[..k][i];
  }

  lemma ReadOne(line: string, rest: string, channel: int, filter: Option<string>)
    requires OneLine(line)
    ensures ReadText(line + "\n" + rest, channel, filter) ==
            match ReadLine(line, channel)
            case Finish => []
            case Switch(c) => ReadText(rest, c, filter)
            case Plain => Given(channel, Unescape(line), filter) + ReadText(rest, channel, filter)
  {
    var text := line + "\n" + rest;
    assert text[..|line|] == line && text[|line| + 1..] == rest && text[|line|] == '\n';
    FindAt(text, |line|, '\n');
  }

  lemma {:induction false} SkipIndent(depth: nat, s: string)
    requires s != [] && s[0] == '<'
    ensures SkipSpaces(Indent(depth) + s) == s
  {
    if depth == 0 {
      assert Indent(0) + s == s;
    } else {
      SkipIndent(depth - 1, s);
      var t := Indent(depth - 1) + s;
      assert Indent(depth) + s == [' '] + ([' '] + t);
      assert ([' '] + ([' '] + t))[1..] == [' '] + t && ([' '] + t)[1..] == t;
    }
  }

  lemma {:induction false} IndentIsOneLine(depth: nat)
    ensures OneLine(Indent(depth)) && '<' !in Indent(depth)
  {
    if depth > 0 {
      IndentIsOneLine(depth - 1);
    }
  }

  lemma ReadIndented(depth: nat, s: string, channel: int)
    requires s != [] && s[0] == '<'
    ensures ReadLine(Indent(depth) + s, channel) == ReadTag(s[1..], channel)
  {
    SkipIndent(depth, s);
  }

  lemma {:induction false} SkipHasNoTag(s: string)
    requires '<' !in s
    ensures '<' !in SkipSpaces(s)
  {
    if s != [] {
      SkipHasNoTag(s[1..]);
    }
  }

  lemma TextIsPlain(line: string, channel: int)
    requires '<' !in line
    ensures ReadLine(line, channel) == Plain
  {
    SkipHasNoTag(line);
  }

  /** Text without tags is not heard outside the STDIO sections. */
  lemma {:induction false} NothingHeard(s: string, rest: string, filter: Option<string>)
    requires '<' !in s
    ensures ReadText(s + "\n" + rest, NONE, filter) == ReadText(rest, NONE, filter)
    decreases |s|
  {
    hide ReadText, Find;
    var k := Find(s, '\n');
    if k == |s| {
      TextIsPlain(s, NONE);
      ReadOne(s, rest, NONE, filter);
    } else {
      var line, more := s[..k], s[k + 1..];
      assert s == line + "\n" + more;
      TextIsPlain(line, NONE);
      assert s + "\n" + rest == line + "\n" + (more + "\n" + rest);
      ReadOne(line, more + "\n" + rest, NONE, filter);
      NothingHeard(more, rest, filter);
    }
  }

  lemma {:induction false} CdataHasNoTag(depth: nat, s: string, start: bool)
    ensures '<' !in Cdata(depth, s, start)
    decreases |s|
  {
    IndentIsOneLine(depth);
    if s != [] {
      CdataHasNoTag(depth, s[1..], s[0] == '\n');
    }
  }

  /** Each line of a text written on a channel is read on that channel, as it was. */
  lemma {:induction false} TextHeard(s: string, rest: string, channel: int, filter: Option<string>)
    ensures ReadText(Escape(s) + "\n" + rest, channel, filter)
            == GivenAll(channel, Pieces(s, '\n'), filter) + ReadText(rest, channel, filter)
    decreases |s|
  {
    hide ReadText, Pieces, Given, Escape;
    var k := Find(s, '\n');
    EscapeRoundTrip(s[..k]);
    EscapeHasNoTag(s[..k]);
    TextIsPlain(Escape(s[..k]), channel);
    var after := ReadText(rest, channel, filter);
    if k == |s| {
      assert s[..k] == s;
      ReadOne(Escape(s), rest, channel, filter);
      PiecesWhole(s, '\n');
      assert [s][1..] == [];
      assert Given(channel, s, filter) + [] == Given(channel, s, filter);
    } else {
      var line, more := s[..k], s[k + 1..];
      EscapeLine(s, k, rest);
      ReadOne(Escape(line), Escape(more) + "\n" + rest, channel, filter);
      TextHeard(more, rest, channel, filter);
      PiecesSplit(s, '\n', k);
      var ps := Pieces(more, '\n');
      assert ([line] + ps)[1..] == ps;
      ConcatAssoc(Given(channel, line, filter), GivenAll(channel, ps, filter), after);
    }
  }

  lemma EscapeLine(s: string, k: nat, rest: string)
    requires k < |s| && s[k] == '\n'
    ensures Escape(s) + "\n" + rest == Escape(s[..k]) + "\n" + (Escape(s[k + 1..]) + "\n" + rest)
  {
    hide Escape;
    var line, more := s[..k], s[k + 1..];
    assert s == line + (['\n'] + more);
    EscapeAppend(line, ['\n'] + more);
    EscapeAppend(['\n'], more);
    EscapeNewline();
    assert "\n" == ['\n'];
  }

  lemma EscapeNewline()
    ensures Escape(['\n']) == ['\n']
  {
    assert ['\n'][1..] == [];
  }

  lemma StartsAfter(s: string, a: string, b: string)
    requires s == a + b
    ensures StartsWith(s, a) && s[|a|..] == b
  {
  }

  lemma OtherWord(s: string, prefix: string, i: nat)
    requires i < |s| && i < |prefix| && s[i] != prefix[i]
    ensures !StartsWith(s, prefix)
  {
    assert |prefix| <= |s| ==> s[..|prefix|][i] == s[i];
  }

  /** What the tag of an element is for the reader. */
  lemma SlashRead(s: string, channel: int)
    requires s != [] && s[0] == '/'
    ensures ReadTag(s, channel) == Switch(NONE)
  {
  }

  lemma OtherRead(s: string, channel: int)
    requires s != [] && s[0] !in {'/', 'C', 'S'}
    ensures ReadTag(s, channel) == Switch(channel)
  {
  }

  lemma TagRead(tag: Tag, rest: string, channel: int)
    ensures ReadTag(TagText(tag) + (" " + rest), channel) == if tag == CaseTag then Finish else Switch(channel)
  {
    var s := TagText(tag) + (" " + rest);
    match tag {
      case CaseTag =>
        assert "CASE" + (" " + rest) == "CASE " + rest;
        StartsAfter(s, "CASE ", rest);
        OtherWord(s, "/", 0);
      case OutputTag => OtherRead(s, channel);
      case SeqTag =>
        assert s[0] == 'S' && s[1] == 'E';
        OtherWord(s, "CASE ", 0);
        OtherWord(s, "STDIO ", 1);
        OtherWord(s, "/", 0);
    }
  }

  lemma ChannelNames(channel: int)
    ensures '"' !in ChannelName(channel) && OneLine(ChannelName(channel))
    ensures ChannelOf(ChannelName(channel)) == Heard(channel)
  {
  }

  lemma StdioRead(channel: int, before: int)
    ensures ReadTag(StdioText(channel)[1..], before) == Switch(Heard(channel))
  {
    hide ChannelName, ChannelOf, StartsWith, Find;
    var name := ChannelName(channel);
    var s, t := StdioText(channel)[1..], "channel=\"" + (name + "\">");
    StartsAfter(StdioText(channel), "<", "STDIO " + t);
    StartsAfter("STDIO " + t, "STDIO ", t);
    OtherWord(s, "CASE ", 0);
    OtherWord(s, "/", 0);
    assert SkipSpaces(t) == t;
    StartsAfter(t, "channel=\"", name + "\">");
    QuotedName(channel);
  }

  lemma QuotedName(channel: int)
    ensures var t := ChannelName(channel) + "\">"; t[..Find(t, '"')] == ChannelName(channel)
    ensures ChannelOf(ChannelName(channel)) == Heard(channel)
  {
    hide ChannelName, ChannelOf;
    var name := ChannelName(channel);
    ChannelNames(channel);
    assert (name + "\">")[..|name|] == name;
    FindAt(name + "\">", |name|, '"');
  }

  lemma OneLineAppend(a: string, b: string)
    requires OneLine(a) && OneLine(b)
    ensures OneLine(a + b)
  {
  }

  lemma LiteralsAreOneLine(tag: Tag, field: Field)
    ensures OneLine("<") && OneLine("</") && OneLine(">") && OneLine(" id=\"") && OneLine("\"")
    ensures OneLine("  <!-- ") && OneLine(" -->") && OneLine("<STDIO channel=\"") && OneLine("\">")
    ensures OneLine(TagText(tag)) && OneLine(FieldText(field))
  {
  }

  lemma BeginIsOneLine(tag: Tag, name: string, attrs: string)
    requires OneLine(name) && OneLine(attrs)
    ensures OneLine(BeginText(tag, name, attrs))
  {
    hide OneLine, TagText;
    LiteralsAreOneLine(tag, Release);
    OneLineAppend(" id=\"", name);
    OneLineAppend(" id=\"" + name, "\"");
    OneLineAppend(" id=\"" + name + "\"", attrs);
    OneLineAppend(" id=\"" + name + "\"" + attrs, ">");
    OneLineAppend(TagText(tag), " id=\"" + name + "\"" + attrs + ">");
    OneLineAppend("<", TagText(tag) + (" id=\"" + name + "\"" + attrs + ">"));
  }

  lemma EndIsOneLine(tag: Tag, comment: Option<string>)
    requires comment == None || OneLine(comment.value)
    ensures OneLine(EndText(tag, comment))
  {
    hide OneLine, TagText;
    LiteralsAreOneLine(tag, Release);
    OneLineAppend("</", TagText(tag));
    OneLineAppend("</" + TagText(tag), ">");
    if comment == None {
      assert "</" + TagText(tag) + ">" + [] == "</" + TagText(tag) + ">";
    } else {
      OneLineAppend("  <!-- ", comment.value);
      OneLineAppend("  <!-- " + comment.value, " -->");
      OneLineAppend("</" + TagText(tag) + ">", "  <!-- " + comment.value + " -->");
    }
  }

  lemma SingleIsOneLine(field: Field, attrs: string, value: string)
    requires OneLine(attrs) && OneLine(value)
    ensures OneLine(SingleText(field, attrs, value))
  {
    hide OneLine, FieldText;
    LiteralsAreOneLine(CaseTag, field);
    var f := FieldText(field);
    OneLineAppend(attrs, ">");
    OneLineAppend(attrs + ">", value);
    OneLineAppend(attrs + ">" + value, "</");
    OneLineAppend(attrs + ">" + value + "</", f);
    OneLineAppend(attrs + ">" + value + "</" + f, ">");
    OneLineAppend(f, attrs + ">" + value + "</" + f + ">");
    OneLineAppend("<", f + (attrs + ">" + value + "</" + f + ">"));
  }

  lemma StdioIsOneLine(channel: int)
    ensures OneLine(StdioText(channel))
  {
    hide OneLine, ChannelName;
    LiteralsAreOneLine(CaseTag, Release);
    ChannelNames(channel);
    OneLineAppend("<STDIO channel=\"", ChannelName(channel));
    OneLineAppend("<STDIO channel=\"" + ChannelName(channel), "\">");
  }

  lemma MarkupIsOneLine(t: Token)
    requires !t.Remark? && !t.Data? && Tame(t)
    ensures OneLine(Markup(t))
  {
    hide BeginText, EndText, SingleText, StdioText;
    match t {
      case Header(line) =>
      case OpenResult =>
      case CloseResult =>
      case Begin(_, tag, name, attrs) => BeginIsOneLine(tag, name, attrs);
      case End(_, tag, comment) => EndIsOneLine(tag, comment);
      case Single(_, field, attrs, value) => SingleIsOneLine(field, attrs, value);
      case OpenStdio(_, channel) => StdioIsOneLine(channel);
      case CloseStdio(_) =>
    }
  }

  lemma BeginRead(tag: Tag, name: string, attrs: string, channel: int)
    ensures ReadTag(BeginText(tag, name, attrs)[1..], channel) == if tag == CaseTag then Finish else Switch(channel)
  {
    hide ReadTag, TagText;
    var rest := "id=\"" + name + "\"" + attrs + ">";
    assert " id=\"" + name + "\"" + attrs + ">" == " " + rest;
    StartsAfter(BeginText(tag, name, attrs), "<", TagText(tag) + (" " + rest));
    TagRead(tag, rest, channel);
  }

  lemma SingleRead(field: Field, attrs: string, value: string, channel: int)
    ensures ReadTag(SingleText(field, attrs, value)[1..], channel) == Switch(channel)
  {
    hide ReadTag;
    var s := attrs + ">" + value + "</" + FieldText(field) + ">";
    StartsAfter(SingleText(field, attrs, value), "<", FieldText(field) + s);
    assert (FieldText(field) + s)[0] == FieldText(field)[0];
    OtherRead(FieldText(field) + s, channel);
  }

  /** What a line of the file is for the reader. */
  lemma MarkupRead(t: Token, channel: int)
    requires !t.Remark? && !t.Data? && Tame(t)
    ensures Markup(t) != [] && Markup(t)[0] == '<' && ReadTag(Markup(t)[1..], channel) ==
            match t
            case Begin(_, tag, _, _) => if tag == CaseTag then Finish else Switch(channel)
            case OpenStdio(_, c) => Switch(Heard(c))
            case Header(_) => Switch(channel)
            case OpenResult => Switch(channel)
            case Single(_, _, _, _) => Switch(channel)
            case _ => Switch(NONE)
  {
    hide ReadTag;
    match t {
      case Header(line) => OtherRead(Markup(t)[1..], channel);
      case OpenResult => OtherRead(Markup(t)[1..], channel);
      case CloseResult => SlashRead(Markup(t)[1..], channel);
      case Begin(_, tag, name, attrs) => BeginRead(tag, name, attrs, channel);
      case End(_, tag, comment) => SlashRead(Markup(t)[1..], channel);
      case Single(_, field, attrs, value) => SingleRead(field, attrs, value, channel);
      case OpenStdio(_, c) => StdioRead(c, channel);
      case CloseStdio(_) => SlashRead(Markup(t)[1..], channel);
    }
  }

  lemma Rearranged<T>(a: seq<T>, b: seq<T>, c: seq<T>, d: seq<T>)
    ensures a + (b + c) + d == a + (b + (c + d))
  {
  }

  /** The three lines of a remark, the second of which may be several. */
  lemma RemarkLines(depth: nat, note: Note, text: string, rest: string)
    ensures TokenText(Remark(depth, note, text)) + rest ==
            Indent(depth) + ("<" + NoteText(note) + ">") + "\n"
            + (Cdata(depth + 1, text, true) + "\n" + (Indent(depth) + ("</" + NoteText(note) + ">") + "\n" + rest))
  {
    hide Indent, NoteText, Cdata;
    Rearranged(Indent(depth) + ("<" + NoteText(note) + ">") + "\n", Cdata(depth + 1, text, true) + "\n",
               Indent(depth) + ("</" + NoteText(note) + ">") + "\n", rest);
  }

  /** A remark is not heard. */
  lemma RemarkRead(depth: nat, note: Note, text: string, rest: string, filter: Option<string>)
    ensures ReadText(TokenText(Remark(depth, note, text)) + rest, NONE, filter) == ReadText(rest, NONE, filter)
  {
    hide *;
    var begin, end := "<" + NoteText(note) + ">", "</" + NoteText(note) + ">";
    var data, tail := Cdata(depth + 1, text, true), Indent(depth) + end + "\n" + rest;
    RemarkLines(depth, note, text, rest);
    TagLineRead(depth, begin, data + "\n" + tail, filter) by { NoteRead(note); }
    CdataHasNoTag(depth + 1, text, true);
    NothingHeard(data, tail, filter);
    TagLineRead(depth, end, rest, filter) by { NoteRead(note); }
  }

  /** A line that leaves the reader where it is. */
  lemma TagLineRead(depth: nat, tag: string, rest: string, filter: Option<string>)
    requires tag != [] && tag[0] == '<' && OneLine(tag) && ReadTag(tag[1..], NONE) == Switch(NONE)
    ensures ReadText(Indent(depth) + tag + "\n" + rest, NONE, filter) == ReadText(rest, NONE, filter)
  {
    hide ReadText, Indent, ReadTag, ReadLine;
    IndentIsOneLine(depth);
    ReadIndented(depth, tag, NONE);
    ReadOne(Indent(depth) + tag, rest, NONE, filter);
  }

  lemma NoteRead(note: Note)
    ensures OneLine("<" + NoteText(note) + ">") && OneLine("</" + NoteText(note) + ">")
    ensures ("<" + NoteText(note) + ">")[0] == '<' && ("</" + NoteText(note) + ">")[0] == '<'
    ensures ReadTag(("<" + NoteText(note) + ">")[1..], NONE) == Switch(NONE)
    ensures ReadTag(("</" + NoteText(note) + ">")[1..], NONE) == Switch(NONE)
  {
    hide ReadTag;
    OtherRead(("<" + NoteText(note) + ">")[1..], NONE);
    SlashRead(("</" + NoteText(note) + ">")[1..], NONE);
  }

  /** A STDIO section holds no element. */
  predicate Proper(p: Place) {
    p.Inside? ==> forall i :: 0 <= i < |p.open| - 1 ==> p.open[i].Object?
  }

  /** The channel that the reader has in mind is the right one after each token. */
  lemma PlaceRead(t: Token, p: Place)
    requires Proper(p) && Advance(t, p) != Broken && !t.Remark? && !t.Data?
    ensures match t
            case OpenStdio(_, c) => ChannelAt(Advance(t, p)) == Heard(c)
            case End(_, _, _) => ChannelAt(Advance(t, p)) == NONE
            case CloseStdio(_) => ChannelAt(Advance(t, p)) == NONE
            case CloseResult => ChannelAt(Advance(t, p)) == NONE
            case _ => ChannelAt(Advance(t, p)) == ChannelAt(p)
  {
  }

  /** What one more token gives to the reader. */
  lemma TokenRead(t: Token, rest: string, p: Place, filter: Option<string>)
    requires Proper(p) && Advance(t, p) != Broken && Tame(t)
    ensures ReadText(TokenText(t) + rest, ChannelAt(p), filter) ==
            if t.Begin? && t.tag == CaseTag then []
            else (if t.Data? then GivenAll(Heard(t.channel), Pieces(t.text, '\n'), filter) else [])
                 + ReadText(rest, ChannelAt(Advance(t, p)), filter)
  {
    hide ReadText, ReadTag, ReadLine, Markup, Tame, Escape, Pieces, Indent, Cdata;
    if t.Data? {
      TextHeard(t.text, rest, ChannelAt(p), filter);
    } else if t.Remark? {
      RemarkRead(t.depth, t.note, t.text, rest, filter);
    } else {
      MarkupRead(t, ChannelAt(p));
      MarkupIsOneLine(t);
      IndentIsOneLine(Depth(t));
      ReadIndented(Depth(t), Markup(t), ChannelAt(p));
      ReadOne(Indent(Depth(t)) + Markup(t), rest, ChannelAt(p), filter);
      PlaceRead(t, p);
      assert [] + ReadText(rest, ChannelAt(Advance(t, p)), filter) == ReadText(rest, ChannelAt(Advance(t, p)), filter);
    }
  }

  lemma {:induction false} RenderInTurn(a: seq<Token>, b: seq<Token>)
    ensures Render(a + b) == Render(a) + Render(b)
    decreases |b|
  {
    hide TokenText;
    if b == [] {
      assert a + b == a;
    } else {
      var c := b[..|b| - 1];
      assert (a + b)[..|a + b| - 1] == a + c;
      RenderInTurn(a, c);
      ConcatAssoc(Render(a), Render(c), TokenText(b[|b| - 1]));
    }
  }

  lemma {:induction false} PlaceInTurn(a: seq<Token>, b: seq<Token>, p: Place)
    ensures PlaceAfter(a + b, p) == PlaceAfter(b, PlaceAfter(a, p))
    decreases |b|
  {
    hide Advance;
    if b == [] {
      assert a + b == a;
    } else {
      assert (a + b)[..|a + b| - 1] == a + b[..|b| - 1];
      PlaceInTurn(a, b[..|b| - 1], p);
    }
  }

  lemma {:induction false} RenderFirst(ts: seq<Token>)
    requires ts != []
    ensures Render(ts) == TokenText(ts[0]) + Render(ts[1..])
  {
    hide TokenText;
    if |ts| > 1 {
      RenderFirst(ts[..|ts| - 1]);
      assert ts[..|ts| - 1][1..] == ts[1..][..|ts| - 2];
    }
  }

  lemma {:induction false} PlaceFirst(ts: seq<Token>, p: Place)
    requires ts != []
    ensures PlaceAfter(ts, p) == PlaceAfter(ts[1..], Advance(ts[0], p))
  {
    hide Advance;
    if |ts| > 1 {
      PlaceFirst(ts[..|ts| - 1], p);
      assert ts[..|ts| - 1][1..] == ts[1..][..|ts| - 2];
    }
  }

  lemma {:induction false} BrokenForEver(ts: seq<Token>)
    ensures PlaceAfter(ts, Broken) == Broken
  {
    if ts != [] {
      BrokenForEver(ts[..|ts| - 1]);
    }
  }

  lemma ProperAfter(t: Token, p: Place)
    requires Proper(p)
    ensures Proper(Advance(t, p))
  {
  }

  lemma NothingToRead(channel: int, filter: Option<string>)
    ensures ReadText([], channel, filter) == []
  {
  }

  /** Reading a well-formed file from any place gives what was written from there to the next case. */
  lemma {:induction false} ReadBack(ts: seq<Token>, p: Place, filter: Option<string>)
    requires Proper(p) && PlaceAfter(ts, p) != Broken && forall i :: 0 <= i < |ts| ==> Tame(ts[i])
    ensures ReadText(Render(ts), ChannelAt(p), filter) == Written(ts, filter)
    decreases |ts|
  {
    hide ReadText, TokenText, Advance, ChannelAt, Tame, Pieces;
    if ts == [] {
      NothingToRead(ChannelAt(p), filter);
    } else {
      RenderFirst(ts);
      PlaceFirst(ts, p);
      if Advance(ts[0], p) == Broken {
        BrokenForEver(ts[1..]);
      }
      ProperAfter(ts[0], p);
      TokenRead(ts[0], Render(ts[1..]), p, filter);
      ReadBack(ts[1..], Advance(ts[0], p), filter);
    }
  }
}
