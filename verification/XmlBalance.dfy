/**
  The tags of an XML output file, read from its characters: every end tag has the name of the start
  tag it closes (Element Type Match, section 3 of XML 1.0).
 */
module XmlBalance {
  import opened CText
  import opened Shapes
  import opened Flags
  import opened XmlText

  // ----- the elements that a text leaves open -----

  /** The open elements after one more tag, whose text stands between `<` and `>`; None when it does not match. */
  function TagStep(body: string, open: seq<string>): Option<seq<string>> {
    if body != [] && (body[0] == '?' || body[0] == '!') then Some(open)
    else if body != [] && body[0] == '/' then
      if open != [] && open[|open| - 1] == body[1..] then Some(open[..|open| - 1]) else None
    else Some(open + [Word(body)])
  }

  /** The names of the elements left open by a text, given those open before it. */
  function Tags(s: string, open: seq<string>): Option<seq<string>>
    decreases |s|
  {
    var k := Find(s, '<');
    if k == |s| then Some(open) else TagsWithin(s[k + 1..], open)
  }

  /** The same for a text that starts within a tag. */
  function TagsWithin(t: string, open: seq<string>): Option<seq<string>>
    decreases |t|
  {
    var e := Find(t, '>');
    if e == |t| then None
    else
      match TagStep(t[..e], open)
      case None => None
      case Some(next) => Tags(t[e + 1..], next)
  }

  /** A document: nothing is left open. */
  predicate Balanced(s: string) {
    Tags(s, []) == Some([])
  }

  lemma TagsSkip(a: string, rest: string, open: seq<string>)
    requires '<' !in a
    ensures Tags(a + rest, open) == Tags(rest, open)
  {
    hide TagStep, TagsWithin;
    var s, k := a + rest, Find(rest, '<');
    FindLater(a, rest, '<');
    if k < |rest| {
      assert s[|a| + k + 1..] == rest[k + 1..];
    }
  }

  /** What follows the first `>` of a text; nothing when there is none. */
  function Tail(s: string): (r: string) {
    if Find(s, '>') < |s| then s[Find(s, '>') + 1..] else []
  }

  lemma TailLater(a: string, b: string)
    requires '>' !in a
    ensures Tail(a + b) == Tail(b)
  {
    FindLater(a, b, '>');
    assert Find(b, '>') < |b| ==> (a + b)[|a| + Find(b, '>') + 1..] == b[Find(b, '>') + 1..];
  }

  lemma {:induction false} FindSame(a: string, b: string, c: char)
    requires c in a
    ensures Find(a + b, c) == Find(a, c) < |a|
  {
    assert (a + b)[0] == a[0] && (a + b)[1..] == a[1..] + b;
    if a[0] != c {
      FindSame(a[1..], b, c);
    }
  }

  lemma TailEarlier(a: string, b: string)
    requires '>' in a
    ensures Tail(a + b) == Tail(a) + b
  {
    hide Find;
    FindSame(a, b, '>');
    var k := Find(a, '>');
    assert (a + b)[k + 1..] == a[k + 1..] + b;
  }

  /** A tag is read up to the first `>`, whatever was meant to be its text. */
  lemma TagsCut(s: string, rest: string, open: seq<string>)
    requires '>' in s
    ensures Tags("<" + s + rest, open) ==
            match TagStep(s[..Find(s, '>')], open)
            case None => None
            case Some(next) => Tags(Tail(s) + rest, next)
  {
    hide TagStep;
    var t, k := s + rest, Find(s, '>');
    assert ("<" + s + rest)[0] == '<' && ("<" + s + rest)[1..] == t;
    FindSame(s, rest, '>');
    assert t[..k] == s[..k] && t[k + 1..] == s[k + 1..] + rest;
  }

  lemma TagsTag(body: string, rest: string, open: seq<string>)
    requires '>' !in body
    ensures Tags("<" + body + ">" + rest, open) ==
            match TagStep(body, open)
            case None => None
            case Some(next) => Tags(rest, next)
  {
    hide TagStep, Tags;
    FindLater(body, ">", '>');
    TailLater(body, ">");
    assert (body + ">")[..|body|] == body && Tail(">") == [];
    assert "<" + (body + ">") + rest == "<" + body + ">" + rest && [] + rest == rest;
    TagsCut(body + ">", rest, open);
  }

  /** What follows the first `<` of a text. */
  function FirstTag(s: string): (r: string)
    requires '<' in s
    ensures |r| < |s|
  {
    s[Find(s, '<') + 1..]
  }

  lemma TagsFirst(s: string, rest: string, open: seq<string>)
    requires '<' in s && '>' in FirstTag(s)
    ensures |Tail(FirstTag(s))| < |s|
    ensures Tags(s + rest, open) ==
            var t := FirstTag(s);
            match TagStep(t[..Find(t, '>')], open)
            case None => None
            case Some(next) => Tags(Tail(t) + rest, next)
  {
    hide Tags, TagStep;
    var k, t := Find(s, '<'), FirstTag(s);
    assert s + rest == s[..k] + ("<" + t + rest);
    TagsSkip(s[..k], "<" + t + rest, open);
    TagsCut(t, rest, open);
  }

  lemma TagsNone(s: string, open: seq<string>)
    requires '<' in s && '>' !in FirstTag(s)
    ensures Tags(s, open) == None
  {
    hide Tags;
    var k, t := Find(s, '<'), FirstTag(s);
    assert s == s[..k] + ("<" + t);
    TagsSkip(s[..k], "<" + t, open);
    Unfinished(t, open);
  }

  /** Two texts in turn, when the first one does not end within a tag. */
  lemma {:induction false} TagsInTurn(a: string, b: string, open: seq<string>)
    requires Tags(a, open).Some?
    ensures Tags(a + b, open) == Tags(b, Tags(a, open).value)
    decreases |a|
  {
    hide Tags, TagStep, Tail, FirstTag;
    assert a + [] == a;
    if '<' !in a {
      NoTags(a, open);
      TagsSkip(a, b, open);
    } else if '>' in FirstTag(a) {
      var t := FirstTag(a);
      TagsFirst(a, [], open);
      TagsFirst(a, b, open);
      assert Tail(t) + [] == Tail(t);
      match TagStep(t[..Find(t, '>')], open) {
        case None =>
        case Some(next) => TagsInTurn(Tail(t), b, next);
      }
    } else {
      TagsNone(a, open);
    }
  }

  /** A text without angle brackets at the end changes nothing. */
  lemma {:induction false} TagsPadded(a: string, pad: string, open: seq<string>)
    requires '<' !in pad && '>' !in pad
    ensures Tags(a + pad, open) == Tags(a, open)
    decreases |a|
  {
    hide Tags, TagStep, Tail, FirstTag;
    assert a + [] == a;
    if '<' !in a {
      NoTags(a, open);
      NoTags(a + pad, open);
    } else if '>' in FirstTag(a) {
      var t := FirstTag(a);
      TagsFirst(a, [], open);
      TagsFirst(a, pad, open);
      assert Tail(t) + [] == Tail(t);
      match TagStep(t[..Find(t, '>')], open) {
        case None =>
        case Some(next) => TagsPadded(Tail(t), pad, next);
      }
    } else {
      FirstPadded(a, pad);
      TagsNone(a, open);
      TagsNone(a + pad, open);
    }
  }

  lemma FirstPadded(a: string, pad: string)
    requires '<' in a
    ensures FirstTag(a + pad) == FirstTag(a) + pad
  {
    FindSame(a, pad, '<');
    assert (a + pad)[Find(a, '<') + 1..] == a[Find(a, '<') + 1..] + pad;
  }

  lemma NoTags(s: string, open: seq<string>)
    requires '<' !in s
    ensures Tags(s, open) == Some(open)
  {
    TagsSkip(s, [], open);
    assert s + [] == s;
  }

  lemma Unfinished(t: string, open: seq<string>)
    requires '>' !in t
    ensures Tags("<" + t, open) == None
  {
    assert ("<" + t)[1..] == t;
  }

  // ----- the tags of each token -----

  /** What names an element: letters only. */
  predicate Lettered(name: string) {
    name != [] && forall i :: 0 <= i < |name| ==> 'A' <= name[i] <= 'Z'
  }

  lemma NamesAreLettered(tag: Tag, field: Field, note: Note)
    ensures Lettered(TagText(tag)) && Lettered(FieldText(field)) && Lettered(NoteText(note))
  {
    hide Lettered, TagText, FieldText, NoteText;
    TagIsLettered(tag);
    FieldIsLettered(field);
    NoteIsLettered(note);
  }

  lemma TagIsLettered(tag: Tag)
    ensures Lettered(TagText(tag))
  {
  }

  lemma FieldIsLettered(field: Field)
    ensures Lettered(FieldText(field))
  {
  }

  lemma NoteIsLettered(note: Note)
    ensures Lettered(NoteText(note))
  {
  }

  lemma WordsAreLettered()
    ensures Lettered("RESULT") && Lettered("STDIO")
  {
  }

  /** The element that a tag starts, when its text goes on with `s`. */
  function NameWith(name: string, s: string): string {
    Word(name + s[..Find(s, '>')])
  }

  lemma NameCut(name: string, s: string, rest: string, open: seq<string>)
    requires Lettered(name) && '>' in s
    ensures Tags("<" + (name + s) + rest, open) == Tags(Tail(s) + rest, open + [NameWith(name, s)])
  {
    hide Tags, Word;
    FindLater(name, s, '>');
    TailLater(name, s);
    assert (name + s)[..|name| + Find(s, '>')] == name + s[..Find(s, '>')];
    assert (name + s[..Find(s, '>')])[0] == name[0];
    TagsCut(name + s, rest, open);
  }

  /** The name is read as it is when a blank or the end of the tag follows. */
  lemma NameRead(name: string, s: string)
    requires Lettered(name) && '>' in s && (s[0] == '>' || Blank(s[0]))
    ensures NameWith(name, s) == name
  {
    var attrs := s[..Find(s, '>')];
    if attrs == [] {
      assert name + attrs == name;
      WordWhole(name);
    } else {
      WordBefore(name, attrs);
    }
  }

  lemma StartTag(name: string, s: string, rest: string, open: seq<string>)
    requires Lettered(name) && '>' in s && (s[0] == '>' || Blank(s[0]))
    ensures Tags("<" + (name + s) + rest, open) == Tags(Tail(s) + rest, open + [name])
  {
    hide Tags, NameWith;
    NameCut(name, s, rest, open);
    NameRead(name, s);
  }

  lemma StartAlone(name: string, rest: string, open: seq<string>)
    requires Lettered(name)
    ensures Tags("<" + (name + ">") + rest, open) == Tags(rest, open + [name])
  {
    hide Tags;
    StartTag(name, ">", rest, open);
    assert Tail(">") == [] && [] + rest == rest;
  }

  lemma EndTag(name: string, rest: string, open: seq<string>)
    requires Lettered(name)
    ensures Tags("<" + ("/" + name) + ">" + rest, open + [name]) == Tags(rest, open)
  {
    hide Tags;
    var o := open + [name];
    TagsTag("/" + name, rest, o);
    assert ("/" + name)[1..] == name && o[..|o| - 1] == open;
  }

  /** A processing instruction, a document type or a comment. */
  lemma OtherTag(s: string, rest: string, open: seq<string>)
    requires '>' in s && s[0] in {'?', '!'}
    ensures Tags("<" + s + rest, open) == Tags(Tail(s) + rest, open)
  {
    hide Tags;
    TagsCut(s, rest, open);
  }

  // ----- the tags of a well-formed file -----

  function ElemName(e: Elem): string {
    match e
    case Object(tag, _) => TagText(tag)
    case Stdio(_) => "STDIO"
  }

  function ElemNames(open: seq<Elem>): (r: seq<string>)
    ensures |r| == |open|
  {
    if open == [] then [] else ElemNames(open[..|open| - 1]) + [ElemName(open[|open| - 1])]
  }

  /** The names of all the elements open at some place of a file. */
  function OpenNames(p: Place): seq<string> {
    if p.Inside? then ["RESULT"] + ElemNames(p.open) else []
  }

  /** A text that is read within a tag, up to the `>` that follows: it starts no tag after a `>` of its own. */
  predicate NoTagAfter(s: string) {
    '<' !in Tail(s)
  }

  /** Of what is written as it is, nothing can be taken for a tag. */
  predicate Neat(t: Token) {
    match t
    case Header(line) => '>' in line && line[0] in {'?', '!'} && NoTagAfter(line)
    case Begin(_, _, name, attrs) => NoTagAfter(name + "\"" + attrs)
    case End(_, _, comment) => comment == None || NoTagAfter(comment.value)
    case Single(_, _, attrs, value) =>
      (attrs == [] || Blank(attrs[0]) || attrs[0] == '>') && NoTagAfter(attrs + ">" + value)
    case _ => true
  }

  /** Whatever tags a text has, they leave open what was open before it. */
  predicate Neutral(s: string, open: seq<string>) {
    Tags(s, open) == Some(open)
  }

  /** What is read after the first `>` of a tag is as if it were not there; `open` is what is open before the token. */
  predicate Fair(t: Token, open: seq<string>) {
    match t
    case Header(line) => '>' in line && line[0] in {'?', '!'} && Neutral(Tail(line), open)
    case Begin(_, tag, name, attrs) => Neutral(Tail(name + "\"" + attrs + ">"), open + [TagText(tag)])
    case End(_, _, comment) => comment == None || open
      == [] || Neutral(Tail(comment.value + " -->"), open[..|open| - 1])
    case Single(_, field, attrs, value) =>
      var end := "<" + ("/" + FieldText(field)) + ">";
      Tags(Tail(attrs + ">") + value + end, open + [NameWith(FieldText(field), attrs + ">")]) == Some(open)
    case _ => true
  }

  lemma Pushed(open: seq<Elem>, e: Elem)
    ensures OpenNames(Inside(open + [e])) == OpenNames(Inside(open)) + [ElemName(e)]
  {
    assert (open + [e])[..|open|] == open;
    assert ["RESULT"] + (ElemNames(open) + [ElemName(e)]) == ["RESULT"] + ElemNames(open) + [ElemName(e)];
  }

  lemma Popped(open: seq<Elem>)
    requires open != []
    ensures OpenNames(Inside(open)) == OpenNames(Inside(open[..|open| - 1])) + [ElemName(open[|open| - 1])]
  {
    assert open[..|open| - 1] + [open[|open| - 1]] == open;
    Pushed(open[..|open| - 1], open[|open| - 1]);
  }

  lemma HeaderTags(line: string, rest: string, open: seq<string>)
    requires '>' in line && line[0] in {'?', '!'}
    ensures Tags("<" + line + rest, open) == Tags(Tail(line) + rest, open)
  {
    hide Tags;
    OtherTag(line, rest, open);
  }

  lemma BeginTags(tag: Tag, name: string, attrs: string, rest: string, open: seq<string>)
    ensures Tags(BeginText(tag, name, attrs) + rest, open)
            == Tags(Tail(name + "\"" + attrs + ">") + rest, open + [TagText(tag)])
  {
    hide Tags, TagText, Tail;
    NamesAreLettered(tag, Release, Reference);
    var own := name + "\"" + attrs + ">";
    var s := " id=\"" + own;
    assert BeginText(tag, name, attrs) + rest == "<" + (TagText(tag) + s) + rest by {
      assert " id=\"" + name + "\"" + attrs + ">" == s;
    }
    assert own[|own| - 1] == '>' && s[|s| - 1] == '>' && s[0] == ' ';
    StartTag(TagText(tag), s, rest, open);
    TailLater(" id=\"", own);
  }

  lemma EndAlone(tag: Tag, rest: string, open: seq<string>)
    ensures Tags(EndText(tag, None) + rest, open + [TagText(tag)]) == Tags(rest, open)
  {
    hide Tags, TagText, TagStep;
    NamesAreLettered(tag, Release, Reference);
    assert EndText(tag, None) + rest == "<" + ("/" + TagText(tag)) + ">" + rest;
    EndTag(TagText(tag), rest, open);
  }

  lemma EndTags(tag: Tag, comment: string, rest: string, open: seq<string>)
    ensures Tags(EndText(tag, Some(comment)) + rest, open + [TagText(tag)]) == Tags(Tail(comment + " -->") + rest, open)
  {
    hide Tags, TagText, TagStep, Tail;
    var s := "!-- " + (comment + " -->");
    var more := "<" + s + rest;
    EndIsCommented(tag, comment, rest);
    EndAlone(tag, "  " + more, open);
    TagsSkip("  ", more, open);
    assert s[0] == '!' && s[|s| - 1] == '>';
    OtherTag(s, rest, open);
    TailLater("!-- ", comment + " -->");
  }

  lemma EndIsCommented(tag: Tag, comment: string, rest: string)
    ensures EndText(tag, Some(comment)) + rest
            == EndText(tag, None) + ("  " + ("<" + ("!-- " + (comment + " -->")) + rest))
  {
    assert "  <!-- " == "  " + "<" + "!-- ";
  }

  lemma SingleTags(field: Field, attrs: string, value: string, rest: string, open: seq<string>)
    ensures var end := "<" + ("/" + FieldText(field)) + ">";
            Tags(SingleText(field, attrs, value) + rest, open)
            == Tags(Tail(attrs + ">") + value + end + rest, open + [NameWith(FieldText(field), attrs + ">")])
  {
    hide Tags, FieldText, Tail, NameWith;
    NamesAreLettered(CaseTag, field, Reference);
    var name := FieldText(field);
    var end := "<" + ("/" + name) + ">";
    assert "</" == "<" + "/";
    assert SingleText(field, attrs, value) + rest == "<" + (name + (attrs + ">")) + (value + end + rest);
    assert (attrs + ">")[|attrs|] == '>';
    NameCut(name, attrs + ">", value + end + rest, open);
    assert Tail(attrs + ">") + (value + end + rest) == Tail(attrs + ">") + value + end + rest;
  }

  /** A start tag with attributes that have no `>`. */
  lemma StartWith(name: string, attrs: string, rest: string, open: seq<string>)
    requires Lettered(name) && '>' !in attrs && attrs != [] && Blank(attrs[0])
    ensures Tags("<" + (name + (attrs + ">")) + rest, open) == Tags(rest, open + [name])
  {
    hide Tags, Tail, Lettered;
    assert (attrs + ">")[0] == attrs[0] && (attrs + ">")[|attrs|] == '>';
    StartTag(name, attrs + ">", rest, open);
    TailLater(attrs, ">");
    TailOfEnd();
    assert [] + rest == rest;
  }

  lemma TailOfEnd()
    ensures Tail(">") == []
  {
  }

  lemma StdioShape(channel: int)
    ensures StdioText(channel) == "<" + ("STDIO" + ((" channel=\"" + ChannelName(channel) + "\"") + ">"))
  {
    hide ChannelName;
    assert "<STDIO channel=\"" == "<" + ("STDIO" + " channel=\"") && "\">" == "\"" + ">";
  }

  lemma StdioTags(channel: int, rest: string, open: seq<string>)
    ensures Tags(StdioText(channel) + rest, open) == Tags(rest, open + ["STDIO"])
    ensures Tags("</STDIO>" + rest, open + ["STDIO"]) == Tags(rest, open)
  {
    hide Tags, TagStep, ChannelName, StdioText, Lettered;
    WordsAreLettered();
    ChannelIsBare(channel);
    StdioShape(channel);
    StartWith("STDIO", " channel=\"" + ChannelName(channel) + "\"", rest, open);
    EndShape();
    EndTag("STDIO", rest, open);
  }

  lemma EndShape()
    ensures "</STDIO>" == "<" + ("/" + "STDIO") + ">"
  {
  }

  lemma ChannelIsBare(channel: int)
    ensures '<' !in ChannelName(channel) && '>' !in ChannelName(channel)
  {
  }

  /** A line with a start tag or an end tag alone. */
  lemma TagLines(depth: nat, name: string, rest: string, open: seq<string>)
    requires Lettered(name)
    ensures Tags(Indent(depth) + ("<" + name + ">") + "\n" + rest, open) == Tags(rest, open + [name])
    ensures Tags(Indent(depth) + ("</" + name + ">") + "\n" + rest, open + [name]) == Tags(rest, open)
  {
    hide Tags, TagStep, Indent;
    IndentIsOneLine(depth);
    var i, more := Indent(depth), "\n" + rest;
    var start, end := "<" + (name + ">") + more, "<" + ("/" + name) + ">" + more;
    assert "</" == "<" + "/";
    assert i + ("<" + name + ">") + "\n" + rest == i + start;
    assert i + ("</" + name + ">") + "\n" + rest == i + end;
    TagsSkip(i, start, open);
    StartAlone(name, more, open);
    TagsSkip("\n", rest, open + [name]);
    TagsSkip(i, end, open + [name]);
    EndTag(name, more, open);
    TagsSkip("\n", rest, open);
  }

  lemma RemarkTags(depth: nat, note: Note, text: string, rest: string, open: seq<string>)
    ensures Tags(TokenText(Remark(depth, note, text)) + rest, open) == Tags(rest, open)
  {
    hide Tags, TagStep, NoteText, Indent, Cdata;
    NamesAreLettered(CaseTag, Release, note);
    CdataHasNoTag(depth + 1, text, true);
    var name := NoteText(note);
    var a := Indent(depth) + ("<" + name + ">") + "\n";
    var b := Cdata(depth + 1, text, true) + "\n";
    var c := Indent(depth) + ("</" + name + ">") + "\n";
    assert a + (b + c) + rest == a + (b + (c + rest));
    TagLines(depth, name, b + (c + rest), open);
    TagsSkip(b, c + rest, open + [name]);
    TagLines(depth, name, rest, open);
  }

  lemma ResultTags(rest: string, open: seq<string>)
    ensures Tags("<RESULT>" + rest, open) == Tags(rest, open + ["RESULT"])
    ensures Tags("</RESULT>" + rest, open + ["RESULT"]) == Tags(rest, open)
  {
    hide Tags, TagStep;
    WordsAreLettered();
    assert "<RESULT>" + rest == "<" + ("RESULT" + ">") + rest;
    StartAlone("RESULT", rest, open);
    assert "</RESULT>" + rest == "<" + ("/" + "RESULT") + ">" + rest;
    EndTag("RESULT", rest, open);
  }

  /** The text of a token opens and closes what the token does if and only if the strings in it are fair. */
  lemma TokenTags(t: Token, p: Place)
    requires Advance(t, p) != Broken && (t.Header? ==> '>' in t.line && t.line[0] in {'?', '!'})
    ensures Tags(TokenText(t), OpenNames(p)) == Some(OpenNames(Advance(t, p))) <==> Fair(t, OpenNames(p))
  {
    hide Tags, Indent, OpenNames, Escape, Cdata, BeginText, EndText, SingleText, StdioText, Fair, Markup;
    var open := OpenNames(p);
    match t {
      case Data(_, text) =>
        EscapeHasNoTag(text);
        assert TokenText(t) == (Escape(text) + "\n") + [];
        TagsSkip(Escape(text) + "\n", [], open);
        NothingTagged(open);
        AlwaysFair(t, open);
      case Remark(depth, note, text) =>
        RemarkTags(depth, note, text, [], open);
        assert TokenText(t) + [] == TokenText(t);
        NothingTagged(open);
        AlwaysFair(t, open);
      case _ =>
        IndentIsOneLine(Depth(t));
        assert TokenText(t) == Indent(Depth(t)) + (Markup(t) + "\n");
        TagsSkip(Indent(Depth(t)), Markup(t) + "\n", open);
        TagsPadded(Markup(t), "\n", open);
        MarkupTags(t, p);
    }
  }

  lemma AlwaysFair(t: Token, open: seq<string>)
    requires t.Data? || t.Remark?
    ensures Fair(t, open)
  {
  }

  lemma MarkupTags(t: Token, p: Place)
    requires Advance(t, p) != Broken && !t.Remark? && !t.Data?
             && (t.Header? ==> '>' in t.line && t.line[0] in {'?', '!'})
    ensures Tags(Markup(t), OpenNames(p)) == Some(OpenNames(Advance(t, p))) <==> Fair(t, OpenNames(p))
  {
    hide Tags, BeginText, EndText, SingleText, StdioText, ElemNames, Tail, NameWith;
    var open, markup := OpenNames(p), Markup(t);
    assert markup + [] == markup;
    match t {
      case Header(line) =>
        HeaderTags(line, [], open);
        assert Tail(line) + [] == Tail(line);
      case OpenResult =>
        ResultTags([], open);
        NoNames();
        NothingTagged(["RESULT"]);
      case CloseResult =>
        ResultTags([], []);
        NoNames();
        NothingTagged([]);
      case Begin(_, tag, name, attrs) =>
        BeginTags(tag, name, attrs, [], open);
        assert Tail(name + "\"" + attrs + ">") + [] == Tail(name + "\"" + attrs + ">");
        Pushed(p.open, Object(tag, name));
      case End(_, tag, comment) =>
        Popped(p.open);
        var left := OpenNames(Advance(t, p));
        assert open[..|open| - 1] == left;
        match comment {
          case None =>
            EndAlone(tag, [], left);
            NothingTagged(left);
          case Some(c) =>
            EndTags(tag, c, [], left);
            assert Tail(c + " -->") + [] == Tail(c + " -->");
        }
      case Single(_, field, attrs, value) =>
        SingleTags(field, attrs, value, [], open);
        var end := "<" + ("/" + FieldText(field)) + ">";
        assert Tail(attrs + ">") + value + end + [] == Tail(attrs + ">") + value + end;
      case OpenStdio(_, channel) =>
        StdioTags(channel, [], open);
        Pushed(p.open, Stdio(channel));
        NothingTagged(open + ["STDIO"]);
      case CloseStdio(_) =>
        Popped(p.open);
        StdioTags(0, [], OpenNames(Advance(t, p)));
        NothingTagged(OpenNames(Advance(t, p)));
    }
  }

  lemma NoNames()
    ensures OpenNames(Inside([])) == ["RESULT"] && [] + ["RESULT"] == ["RESULT"]
  {
  }

  lemma NothingTagged(open: seq<string>)
    ensures Tags([], open) == Some(open)
  {
  }

  /** Where nothing can be taken for a tag, the strings are fair wherever the token stands. */
  lemma NeatIsFair(t: Token, open: seq<string>)
    requires Neat(t)
    ensures Fair(t, open)
  {
    hide Tags, FieldText, NameWith;
    match t {
      case Header(line) => NoTags(Tail(line), open);
      case Begin(_, tag, name, attrs) =>
        TailPadded(name + "\"" + attrs, ">");
        NoTags(Tail(name + "\"" + attrs + ">"), open + [TagText(tag)]);
      case End(_, _, Some(comment)) =>
        if open != [] {
          TailPadded(comment, " -->");
          NoTags(Tail(comment + " -->"), open[..|open| - 1]);
        }
      case Single(_, field, attrs, value) => NeatSingle(field, attrs, value, open);
      case _ =>
    }
  }

  lemma TailPadded(s: string, pad: string)
    requires '<' !in Tail(s) && '<' !in pad
    ensures '<' !in Tail(s + pad)
  {
    hide Tail;
    if '>' in s {
      TailEarlier(s, pad);
    } else {
      TailLater(s, pad);
      TailIn(pad);
    }
  }

  lemma TailIn(s: string)
    requires '<' !in s
    ensures '<' !in Tail(s)
  {
  }

  lemma NeatSingle(field: Field, attrs: string, value: string, open: seq<string>)
    requires Neat(Single(0, field, attrs, value))
    ensures Fair(Single(0, field, attrs, value), open)
  {
    hide Tags, FieldText, NameWith, Tail;
    NamesAreLettered(CaseTag, field, Reference);
    var name := FieldText(field);
    assert (attrs + ">")[|attrs|] == '>' && (attrs != [] ==> (attrs + ">")[0] == attrs[0]);
    NameRead(name, attrs + ">");
    TailEarlier(attrs + ">", value);
    TagsSkip(Tail(attrs + ">") + value, "<" + ("/" + name) + ">", open + [name]);
    EndTag(name, [], open);
    assert "<" + ("/" + name) + ">" + [] == "<" + ("/" + name) + ">";
    NothingTagged(open);
  }

  // ----- a whole file -----

  /** After a number of tokens, the elements left open by the characters of the file are those of the place reached. */
  predicate InStep(ts: seq<Token>, n: nat)
    requires n <= |ts|
  {
    Tags(Render(ts[..n]), []) == Some(OpenNames(PlaceAfter(ts[..n], Prologue)))
  }

  lemma StepTags(ts: seq<Token>, n: nat)
    requires n < |ts| && InStep(ts, n) && PlaceAfter(ts[..n + 1], Prologue) != Broken
    requires ts[n].Header? ==> '>' in ts[n].line && ts[n].line[0] in {'?', '!'}
    ensures InStep(ts, n + 1) <==> Fair(ts[n], OpenNames(PlaceAfter(ts[..n], Prologue)))
  {
    hide Tags, TokenText, Advance, OpenNames, Fair;
    assert ts[..n + 1][..n] == ts[..n];
    var p := PlaceAfter(ts[..n], Prologue);
    TokenTags(ts[n], p);
    TagsInTurn(Render(ts[..n]), TokenText(ts[n]), []);
  }

  /**
    While a well-formed file is written, the elements left open by its characters are always those that
    should be if and only if each string written is fair where it stands.
   */
  lemma {:induction false} FileTags(ts: seq<Token>)
    requires PlaceAfter(ts, Prologue) != Broken
    requires forall i :: 0 <= i < |ts| && ts[i].Header? ==> '>' in ts[i].line && ts[i].line[0] in {'?', '!'}
    ensures (forall n :: 0 <= n <= |ts| ==> InStep(ts, n))
            <==> forall i :: 0 <= i < |ts| ==> Fair(ts[i], OpenNames(PlaceAfter(ts[..i], Prologue)))
  {
    hide Fair, OpenNames, InStep, Advance;
    NothingInStep(ts);
    if forall n :: 0 <= n <= |ts| ==> InStep(ts, n) {
      forall i | 0 <= i < |ts| ensures Fair(ts[i], OpenNames(PlaceAfter(ts[..i], Prologue))) {
        NeverBroken(ts, i + 1);
        StepTags(ts, i);
      }
    }
    if forall i :: 0 <= i < |ts| ==> Fair(ts[i], OpenNames(PlaceAfter(ts[..i], Prologue))) {
      forall n | 0 <= n <= |ts| ensures InStep(ts, n) {
        AllInStep(ts, n);
      }
    }
  }

  lemma {:induction false} AllInStep(ts: seq<Token>, n: nat)
    requires n <= |ts| && PlaceAfter(ts, Prologue) != Broken
    requires forall i :: 0 <= i < |ts| && ts[i].Header? ==> '>' in ts[i].line && ts[i].line[0] in {'?', '!'}
    requires forall i :: 0 <= i < |ts| ==> Fair(ts[i], OpenNames(PlaceAfter(ts[..i], Prologue)))
    ensures InStep(ts, n)
  {
    hide Fair, OpenNames, InStep, Advance;
    if n == 0 {
      NothingInStep(ts);
    } else {
      AllInStep(ts, n - 1);
      NeverBroken(ts, n);
      StepTags(ts, n - 1);
    }
  }

  lemma NothingInStep(ts: seq<Token>)
    ensures InStep(ts, 0)
  {
    NothingTagged([]);
  }

  lemma NeverBroken(ts: seq<Token>, n: nat)
    requires n <= |ts| && PlaceAfter(ts, Prologue) != Broken
    ensures PlaceAfter(ts[..n], Prologue) != Broken
  {
    if n < |ts| {
      if PlaceAfter(ts[..n], Prologue) == Broken {
        PlaceInTurn(ts[..n], ts[n..], Prologue);
        assert ts[..n] + ts[n..] == ts;
        BrokenForEver(ts[n..]);
      }
    } else {
      assert ts[..n] == ts;
    }
  }

  /** A file that has been closed is a balanced document when the strings in it are neat. */
  lemma ClosedIsBalanced(ts: seq<Token>)
    requires PlaceAfter(ts, Prologue) == Over && forall i :: 0 <= i < |ts| ==> Neat(ts[i])
    ensures Balanced(Render(ts))
  {
    hide Fair, InStep, Neat, Advance;
    HeadersNeat(ts);
    forall i | 0 <= i < |ts| ensures Fair(ts[i], OpenNames(PlaceAfter(ts[..i], Prologue))) {
      NeatIsFair(ts[i], OpenNames(PlaceAfter(ts[..i], Prologue)));
    }
    AllInStep(ts, |ts|);
    EndInStep(ts);
  }

  lemma HeadersNeat(ts: seq<Token>)
    requires forall i :: 0 <= i < |ts| ==> Neat(ts[i])
    ensures forall i :: 0 <= i < |ts| && ts[i].Header? ==> '>' in ts[i].line && ts[i].line[0] in {'?', '!'}
  {
  }

  lemma EndInStep(ts: seq<Token>)
    requires InStep(ts, |ts|) && PlaceAfter(ts, Prologue) == Over
    ensures Balanced(Render(ts))
  {
    assert ts[..|ts|] == ts;
  }

  // ----- strings that spoil a file, and strings that do not -----

  lemma SpoiltValue(x: string, y: string, name: string, open: seq<string>)
    requires '<' !in x && '>' !in y && '>' !in name && y != [] && y[0] !in {'?', '!', '/'}
    ensures Tags(x + "<" + y + ("<" + ("/" + name) + ">") + "\n", open) == Some(open + [Word(y + ("</" + name))])
  {
    hide Tags, TagStep, Word;
    var body := y + ("</" + name);
    assert x + "<" + y + ("<" + ("/" + name) + ">") + "\n" == x + ("<" + body + ">" + "\n") by {
      assert "</" == "<" + "/";
    }
    TagsSkip(x, "<" + body + ">" + "\n", open);
    TagsTag(body, "\n", open);
    StepIsStart(body, open);
    NoTags("\n", open + [Word(body)]);
  }

  /** A `<` in the text of a one-line element, with a letter after it: two elements are left open. */
  lemma SpoiltTitle(depth: nat, field: Field, x: string, y: string, open: seq<string>)
    requires '<' !in x && '>' !in y && y != [] && y[0] !in {'?', '!', '/'}
    ensures Tags(TokenText(Single(depth, field, [], x + "<" + y)), open)
            == Some(open + [FieldText(field)] + [Word(y + ("</" + FieldText(field)))])
  {
    hide Tags, Word, SingleText, Indent, NameWith, FieldText;
    var value, name := x + "<" + y, FieldText(field);
    IndentIsOneLine(depth);
    assert TokenText(Single(depth, field, [], value)) == Indent(depth) + (SingleText(field, [], value) + "\n");
    TagsSkip(Indent(depth), SingleText(field, [], value) + "\n", open);
    SingleTags(field, [], value, "\n", open);
    NamesAreLettered(CaseTag, field, Reference);
    assert [] + ">" == ">" && Tail(">") == [] && [] + value == value;
    NameRead(name, ">");
    SpoiltValue(x, y, name, open + [name]);
  }

  lemma StepIsStart(body: string, open: seq<string>)
    requires body != [] && body[0] !in {'?', '!', '/'}
    ensures TagStep(body, open) == Some(open + [Word(body)])
  {
  }

  /** With the operator name `a<b`, the end tag of the root matches nothing that is open. */
  lemma OperatorSpoils(before: string, after: string)
    requires Tags(before, []).Some?
    ensures Tags(before + TokenText(Single(1, Operated, [], "a<b")) + ("</OUTPUT>" + after), []) == None
  {
    hide Tags, TagStep, TokenText, Word;
    var title := TokenText(Single(1, Operated, [], "a<b"));
    var left := Tags(before, []).value + [FieldText(Operated)] + [Word("b" + ("</" + FieldText(Operated)))];
    assert "a<b" == "a" + "<" + "b";
    SpoiltTitle(1, Operated, "a", "b", Tags(before, []).value);
    TagsInTurn(before, title, []);
    TagsInTurn(before + title, "</OUTPUT>" + after, []);
    assert "</OUTPUT>" + after == "<" + "/OUTPUT" + ">" + after;
    TagsTag("/OUTPUT", after, left);
    WordStarts("b" + ("</" + FieldText(Operated)));
    RootUnmatched(left);
  }

  lemma WordStarts(s: string)
    requires s != [] && !Blank(s[0])
    ensures Word(s) != [] && Word(s)[0] == s[0]
  {
  }

  lemma RootUnmatched(open: seq<string>)
    requires open != [] && open[|open| - 1] != "OUTPUT"
    ensures TagStep("/OUTPUT", open) == None
  {
    assert "/OUTPUT"[1..] == "OUTPUT";
  }

  /** A `>` alone does no harm to a name, and neither does a `<` before it. */
  lemma LoneBracketIsNeat(depth: nat, tag: Tag, a: string, b: string)
    requires '>' !in a && '<' !in b
    ensures Neat(Begin(depth, tag, a + ">" + b, [])) && Neat(End(depth, tag, Some(a + ">" + b)))
  {
    var name := a + ">" + b;
    FindLater(a, ">" + b, '>');
    assert name == a + (">" + b) && (">" + b)[0] == '>';
    assert Tail(name) == b;
    TailEarlier(name, "\"");
    assert name + "\"" + [] == name + "\"";
  }
}
