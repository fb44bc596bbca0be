/**
  The XML output file of a run (core/output/output_xml.c). Elements are opened and closed as the run
  moves from a test case to another, so that the open ones are always the path to the current case.
 */
module XmlWriter {
  import opened TestTree
  import opened Shapes
  import opened Expr
  import opened XmlText

  // ----- the paths of a tree -----

  /** `up` gives the path from the root to each object of a tree. */
  ghost predicate Rooted(objs: set<TreeObject>, root: TreeObject, up: map<TreeObject, seq<TreeObject>>)
    reads objs`parentSeq
  {
    && up.Keys == objs && root in objs && root.kind == Seq && root.parentSeq == null
    && (forall o :: o in objs && o.parentSeq == null ==> o == root && up[o] == [o])
    && (forall o :: o in objs && o.parentSeq != null ==>
          o.parentSeq in objs && o.parentSeq.kind == Seq && up[o] == up[o.parentSeq] + [o])
  }

  ghost function Above(path: seq<TreeObject>): seq<TreeObject> {
    if path == [] then [] else path[..|path| - 1]
  }

  /** The length of the common beginning of two paths. */
  ghost function Common(p: seq<TreeObject>, q: seq<TreeObject>): (k: nat)
    ensures k <= |p| && k <= |q|
  {
    if p == [] || q == [] || p[0] != q[0] then 0 else 1 + Common(p[1..], q[1..])
  }

  lemma {:induction false} CommonIs(p: seq<TreeObject>, q: seq<TreeObject>, k: nat)
    requires k <= |p| && k <= |q| && p[..k] == q[..k]
    requires k < |p| && k < |q| ==> p[k] != q[k]
    ensures Common(p, q) == k
  {
    if k > 0 {
      assert p[0] == p[..k][0] && q[0] == q[..k][0];
      assert p[1..][..k - 1] == p[..k][1..] && q[1..][..k - 1] == q[..k][1..];
      CommonIs(p[1..], q[1..], k - 1);
    }
  }

  /** The path to an object goes through the paths to its ancestors. */
  lemma {:induction false} PathsAreNested(objs: set<TreeObject>, root: TreeObject, up: map<TreeObject, seq<TreeObject>>,
                                          o: TreeObject, i: nat)
    requires Rooted(objs, root, up) && o in objs && i < |up[o]|
    ensures up[o][i] in objs && up[up[o][i]] == up[o][..i + 1]
    decreases |up[o]|
  {
    if i < |up[o]| - 1 {
      PathsAreNested(objs, root, up, o.parentSeq, i);
      assert up[o.parentSeq][..i + 1] == up[o][..i + 1];
    } else {
      assert up[o][..i + 1] == up[o];
    }
  }

  /** Where the search for a common ancestor stands. */
  lemma ParentOnPath(objs: set<TreeObject>, root: TreeObject, up: map<TreeObject, seq<TreeObject>>, o: TreeObject,
                     i: nat)
    requires Rooted(objs, root, up) && o in objs && i < |up[o]|
    ensures up[o][i] in objs && up[o][i].parentSeq == if i == 0 then null else up[o][i - 1]
  {
    PathsAreNested(objs, root, up, o, i);
    var x := up[o][i];
    assert up[x] == up[o][..i + 1];
    if x.parentSeq == null {
      assert |up[x]| == 1;
    } else {
      assert |up[x.parentSeq]| == i;
      if i == 0 {
        PathNotEmpty(objs, root, up, x.parentSeq);
      } else {
        PathNotEmpty(objs, root, up, x.parentSeq);
        assert up[x][i - 1] == up[x.parentSeq][i - 1];
      }
    }
  }

  lemma PathNotEmpty(objs: set<TreeObject>, root: TreeObject, up: map<TreeObject, seq<TreeObject>>, o: TreeObject)
    requires Rooted(objs, root, up) && o in objs
    ensures o in up && |up[o]| > 0 && up[o][|up[o]| - 1] == o && up[o][0] == root
    decreases |up[o]|
  {
    if o.parentSeq != null {
      PathNotEmpty(objs, root, up, o.parentSeq);
    }
  }

  /** An object on two paths is at the same place on both, and so is all that precedes it. */
  lemma Meet(objs: set<TreeObject>, root: TreeObject, up: map<TreeObject, seq<TreeObject>>,
             o1: TreeObject, i: nat, o2: TreeObject, j: nat)
    requires Rooted(objs, root, up) && o1 in objs && o2 in objs && i < |up[o1]| && j < |up[o2]|
    requires up[o1][i] == up[o2][j]
    ensures i == j && up[o1][..i + 1] == up[o2][..i + 1]
  {
    PathsAreNested(objs, root, up, o1, i);
    PathsAreNested(objs, root, up, o2, j);
  }

  /** The lowest object that is properly above both `o1` and `o2`; null when there is none. */
  ghost function Ancestor(up: map<TreeObject, seq<TreeObject>>, o1: TreeObject, o2: TreeObject): TreeObject?
    requires o1 in up && o2 in up
  {
    var k := Common(Above(up[o1]), Above(up[o2]));
    if k == 0 then null else Above(up[o1])[k - 1]
  }

  lemma AncestorFound(objs: set<TreeObject>, root: TreeObject, up: map<TreeObject, seq<TreeObject>>,
                      o1: TreeObject, i: nat, o2: TreeObject, j: nat)
    requires Rooted(objs, root, up) && o1 in objs && o2 in objs && i < |up[o1]| - 1 && j < |up[o2]| - 1
    requires up[o1][i] == up[o2][j]
    requires forall k :: i < k < |up[o1]| - 1 ==> up[o1][k] !in Above(up[o2])
    ensures Ancestor(up, o1, o2) == up[o1][i]
  {
    Meet(objs, root, up, o1, i, o2, j);
    var p, q := Above(up[o1]), Above(up[o2]);
    assert p[..i + 1] == up[o1][..i + 1] && q[..i + 1] == up[o2][..i + 1];
    CommonIs(p, q, i + 1);
  }

  lemma NoAncestor(up: map<TreeObject, seq<TreeObject>>, o1: TreeObject, o2: TreeObject)
    requires o1 in up && o2 in up
    requires forall k :: 0 <= k < |up[o1]| - 1 ==> up[o1][k] !in Above(up[o2])
    ensures Ancestor(up, o1, o2) == null
  {
    CommonIs(Above(up[o1]), Above(up[o2]), 0);
  }

  method CommonAncestor(o1: TreeObject?, o2: TreeObject,
                        ghost objs: set<TreeObject>, ghost root: TreeObject, ghost up: map<TreeObject, seq<TreeObject>>)
    returns (anc: TreeObject?)
    requires Rooted(objs, root, up) && (o1 != null ==> o1 in objs) && o2 in objs
    ensures anc == if o1 == null then null else Ancestor(up, o1, o2)
  {
    hide Rooted, Ancestor;
    if o1 == null {
      return null;
    }
    PathNotEmpty(objs, root, up, o1);
    PathNotEmpty(objs, root, up, o2);
    ghost var p, q := up[o1], up[o2];
    var obj1: TreeObject? := o1;
    ghost var i := |p| - 1;
    while obj1 != null
      invariant -1 <= i < |p| && obj1 == if i < 0 then null else p[i]
      invariant forall k :: 0 <= k && i <= k < |p| - 1 ==> p[k] !in Above(q)
      invariant i >= 0
      decreases i
    {
      ParentOnPath(objs, root, up, o1, i);
      obj1 := obj1.parentSeq;
      i := i - 1;
      var cur: TreeObject? := o2;
      ghost var j := |q| - 1;
      while cur != null
        invariant -1 <= j < |q| && cur == if j < 0 then null else q[j]
        invariant i >= 0 ==> forall k :: 0 <= k && j <= k < |q| - 1 ==> q[k] != p[i]
        invariant i < 0 ==> j >= 0
        decreases j
      {
        ParentOnPath(objs, root, up, o2, j);
        cur := cur.parentSeq;
        j := j - 1;
        if cur == obj1 {
          if i >= 0 {
            AncestorFound(objs, root, up, o1, i, o2, j);
          } else {
            NoAncestor(up, o1, o2);
          }
          return cur;
        }
      }
    }
    return null;
  }

  // ----- the elements of a path -----

  function TagOf(o: TreeObject): Tag
    reads o`parentSeq
  {
    match o.kind
    case Case => CaseTag
    case Seq => if o.parentSeq == null then OutputTag else SeqTag
  }

  ghost function Elems(path: seq<TreeObject>): (r: seq<Elem>)
    reads path`parentSeq
    ensures |r| == |path|
  {
    if path == [] then [] else Elems(path[..|path| - 1]) + [Object(TagOf(path[|path| - 1]), path[|path| - 1].name)]
  }

  /** What is written of an object besides its name: its attributes, its comment and its reference. */
  datatype Info = Info(attrs: string, comment: Option<string>, reference: Option<string>)

  function Remarks(depth: nat, info: Info): seq<Token> {
    (if info.comment == None then [] else [Remark(depth, Description, info.comment.value)])
    + (if info.reference == None then [] else [Remark(depth, Reference, info.reference.value)])
  }

  ghost function Begun(depth: nat, o: TreeObject, info: Info): seq<Token>
    reads o`parentSeq
  {
    [Begin(depth, TagOf(o), o.name, info.attrs)] + Remarks(depth + 1, info)
  }

  ghost function Ended(depth: nat, o: TreeObject): Token
    reads o`parentSeq
  {
    End(depth, TagOf(o), Some(o.name))
  }

  /** Close the elements of a path down to the first `k`. */
  ghost function Closes(path: seq<TreeObject>, k: nat): seq<Token>
    reads path`parentSeq
  {
    if |path| <= k then [] else [Ended(|path| - 1, path[|path| - 1])] + Closes(path[..|path| - 1], k)
  }

  /** Open the elements of a path above the first `k`. */
  ghost function Opens(path: seq<TreeObject>, k: nat, infos: nat -> Info): seq<Token>
    reads path`parentSeq
  {
    if |path| <= k then []
    else Opens(path[..|path| - 1], k, infos) + Begun(|path| - 1, path[|path| - 1], infos(path[|path| - 1].key))
  }

  ghost function StdioClosed(channel: int, depth: nat): seq<Token> {
    if channel == NONE then [] else [CloseStdio(depth)]
  }

  ghost function Section(channel: int): seq<Elem> {
    if channel == NONE then [] else [Stdio(channel)]
  }

  /** The place in the file when the elements of a path are open, and the section of a channel if any. */
  ghost function Opened(path: seq<TreeObject>, channel: int): Place
    reads path`parentSeq
  {
    Inside(Elems(path) + Section(channel))
  }

  // ----- the file -----

  class Output {
    const name: Option<string>
    var isOpen: bool
    var text: string
    var indent: nat
    var channel: int
    var cur: TreeObject?
    ghost var log: seq<Token>

    constructor (name: Option<string>)
      ensures this.name == name && !isOpen && cur == null && channel == NONE
    {
      this.name, isOpen, text, indent, channel, cur, log := name, false, [], 0, NONE, null, [];
    }

    /** The text is that of the tokens, which are well formed so far, and the open elements are those of `path`. */
    ghost predicate At(path: seq<TreeObject>)
      reads this`isOpen, this`text, this`indent, this`channel, this`log, path`parentSeq
    {
      && isOpen && text == Render(log) && indent == |path|
      && PlaceAfter(log, Prologue) == Opened(path, channel)
    }

    /** The path to the current case, or just the root before the first one. */
    ghost function Path(root: TreeObject, up: map<TreeObject, seq<TreeObject>>): seq<TreeObject>
      reads this`cur
    {
      if cur == null || cur !in up then [root] else up[cur]
    }

    ghost predicate Valid(objs: set<TreeObject>, root: TreeObject, up: map<TreeObject, seq<TreeObject>>)
      reads this, objs`parentSeq
    {
      && Rooted(objs, root, up)
      && (cur != null ==> cur in objs && cur.kind == Case)
      && (isOpen ==> Elements(Path(root, up)) <= objs && At(Path(root, up)))
      && (!isOpen ==> cur == null && channel == NONE)
    }

    // ----- writing text -----

    method Print(s: string)
      modifies this`text
      ensures text == old(text) + s
    {
      text := text + s;
    }

    method Indentation()
      modifies this`text
      ensures text == old(text) + Indent(indent)
    {
      var i := 0;
      while i < indent
        invariant 0 <= i <= indent && text == old(text) + Indent(i)
      {
        IndentRight(i);
        Print("  ");
        i := i + 1;
      }
    }

    method CdataRaw(str: string)
      modifies this`text
      ensures text == old(text) + Escape(str)
    {
      var i := 0;
      while i < |str|
        invariant 0 <= i <= |str| && text == old(text) + Escape(str[..i])
      {
        EscapeNext(str, i);
        Print(EscapeChar(str[i]));
        i := i + 1;
      }
      assert str[..i] == str;
    }

    method CdataIndented(str: string)
      modifies this`text, this`indent
      ensures indent == old(indent) && text == old(text) + Cdata(indent + 1, str, true)
    {
      hide Cdata;
      ghost var t0 := text;
      indent := indent + 1;
      var c := '\n';
      var i := 0;
      while i < |str|
        invariant 0 <= i <= |str| && indent == old(indent) + 1
        invariant text + Cdata(indent, str[i..], c == '\n') == t0 + Cdata(indent, str[0..], true)
      {
        CdataNext(indent, str, i, c == '\n');
        ghost var t1 := text;
        if c == '\n' {
          Indentation();
        }
        ghost var start := if c == '\n' then Indent(indent) else [];
        c := str[i];
        Print(EscapeChar(c));
        assert text == t1 + start + EscapeChar(c);
        Regroup(t1, start, EscapeChar(c), Cdata(indent, str[i + 1..], c == '\n'));
        i := i + 1;
      }
      CdataEnd(indent, str, c == '\n');
      assert str[0..] == str;
      indent := indent - 1;
    }

    // ----- writing tokens -----

    method PutTag(markup: string)
      modifies this`text
      ensures text == old(text) + (Indent(indent) + markup + "\n")
    {
      hide Indent;
      Indentation();
      Print(markup);
      Print("\n");
    }

    method PutRemark(note: Note, str: string)
      modifies this`text, this`indent
      ensures indent == old(indent) && text == old(text) + TokenText(Remark(indent, note, str))
    {
      hide Indent, Cdata, NoteText;
      ghost var t0, opening, closing := text, "<" + NoteText(note) + ">", "</" + NoteText(note) + ">";
      PutTag("<" + NoteText(note) + ">");
      CdataIndented(str);
      Print("\n");
      PutTag("</" + NoteText(note) + ">");
      RemarkText(indent, note, str);
      Regroup(t0, Indent(indent) + opening + "\n", Cdata(indent + 1, str, true) + "\n",
        Indent(indent) + closing + "\n");
    }

    /** A token that takes one line. */
    method PutLine(markup: string, ghost t: Token)
      requires !t.Remark? && !t.Data? && markup == Markup(t) && indent == Depth(t)
      modifies this`text
      ensures text == old(text) + TokenText(t)
    {
      hide Indent, Markup;
      PutTag(markup);
    }

    /** Keep account of a token whose text has been written. */
    ghost method Record(t: Token)
      requires text == Render(log) + TokenText(t)
      modifies this`log
      ensures text == Render(log) && log == old(log) + [t]
      ensures PlaceAfter(log, Prologue) == Advance(t, PlaceAfter(old(log), Prologue))
    {
      assert (log + [t])[..|log|] == log;
      log := log + [t];
    }

    method WriteRemark(note: Note, str: string, ghost path: seq<TreeObject>)
      requires At(path) && path != [] && channel == NONE
      modifies this`text, this`indent, this`log
      ensures At(path) && log == old(log) + [Remark(|path|, note, str)]
    {
      hide TokenText, PlaceAfter, Render, Elems, Opened, Advance;
      PutRemark(note, str);
      Record(Remark(|path|, note, str));
      RemarkFits(path, note, str);
    }

    method StdioClose(ghost path: seq<TreeObject>)
      requires At(path)
      modifies this`text, this`channel, this`log
      ensures At(path) && channel == NONE && log == old(log) + StdioClosed(old(channel), |path|)
    {
      hide TokenText, PlaceAfter, Render, Elems, Opened, Advance;
      if channel == NONE {
        return;
      }
      PutLine("</STDIO>", CloseStdio(|path|));
      Record(CloseStdio(|path|));
      CloseStdioFits(path, channel);
      channel := NONE;
    }

    method SpeakIn(c: int, ghost path: seq<TreeObject>)
      requires At(path) && path != [] && c != NONE
      modifies this`text, this`channel, this`log
      ensures At(path) && channel == c && log == old(log) + Switched(old(channel), c, |path|)
    {
      hide TokenText, PlaceAfter, Render, Elems, Opened, Advance, StdioText, StdioClosed;
      if channel != c {
        StdioClose(path);
        channel := c;
        PutLine(StdioText(c), OpenStdio(|path|, c));
        Record(OpenStdio(|path|, c));
        OpenStdioFits(path, c);
      }
    }

    /** Write a text on a channel, in the section of that channel. */
    method WriteStdio(c: int, str: string, ghost objs: set<TreeObject>, ghost root: TreeObject,
                      ghost up: map<TreeObject, seq<TreeObject>>)
      returns (ret: int)
      requires Valid(objs, root, up) && c != NONE
      modifies this`text, this`channel, this`log
      ensures Valid(objs, root, up)
      ensures ret == if isOpen then 0 else -2
      ensures isOpen ==> channel == c && log == old(log) + Said(old(channel), c, str, |Path(root, up)|)
      ensures !isOpen ==> log == old(log)
    {
      hide Rooted, PlaceAfter, Render, Elems, Opened, Advance, Switched, Escape;
      if !isOpen {
        return -2;
      }
      ghost var path := Path(root, up);
      PathStarts(objs, root, up);
      SpeakIn(c, path);
      CdataRaw(str);
      Print("\n");
      Record(Data(c, str));
      DataFits(path, c, str);
      ret := 0;
    }

    /** A one-line element: the validation or the verdict of a test case, the operator or the release. */
    method WriteSingle(field: Field, attrs: string, value: string, ghost path: seq<TreeObject>)
      requires At(path) && path != [] && channel == NONE
      modifies this`text, this`log
      ensures At(path) && log == old(log) + [Single(|path|, field, attrs, value)]
    {
      hide TokenText, PlaceAfter, Render, Elems, Opened, Advance, SingleText;
      PutLine(SingleText(field, attrs, value), Single(|path|, field, attrs, value));
      Record(Single(|path|, field, attrs, value));
      SingleFits(path, field, attrs, value);
    }

    method WriteResult(field: Field, attrs: string, value: string,
                       ghost objs: set<TreeObject>, ghost root: TreeObject, ghost up: map<TreeObject, seq<TreeObject>>)
      returns (ret: int)
      requires Valid(objs, root, up)
      modifies this`text, this`channel, this`log
      ensures Valid(objs, root, up)
      ensures ret == if isOpen then 0 else -2
      ensures isOpen ==> channel == NONE && log == old(log) + Marked(old(channel), field, attrs, value, |Path(root, up)|)
      ensures !isOpen ==> log == old(log)
    {
      hide Rooted, PlaceAfter, Render, Elems, Opened, StdioClosed;
      if !isOpen {
        return -2;
      }
      ghost var path := Path(root, up);
      PathStarts(objs, root, up);
      StdioClose(path);
      WriteSingle(field, attrs, value, path);
      ret := 0;
    }

    lemma PathStarts(objs: set<TreeObject>, root: TreeObject, up: map<TreeObject, seq<TreeObject>>)
      requires Rooted(objs, root, up) && (cur != null ==> cur in objs)
      ensures Path(root, up) != [] && Path(root, up)[0] == root
    {
      hide Rooted;
      if cur != null {
        PathNotEmpty(objs, root, up, cur);
      }
    }

    method BeginElement(o: TreeObject, info: Info, ghost path: seq<TreeObject>)
      requires At(path) && channel == NONE && Fits(path, o)
      modifies this`text, this`indent, this`log
      ensures At(path + [o]) && log == old(log) + Begun(|path|, o, info)
    {
      hide TokenText, PlaceAfter, Render, Elems, Opened, Advance, BeginText, Fits, TagOf;
      ghost var t := Begin(|path|, TagOf(o), o.name, info.attrs);
      PutLine(BeginText(TagOf(o), o.name, info.attrs), t);
      indent := indent + 1;
      Record(t);
      BeginFits(path, o, info.attrs);
      BeginRemarks(info, path + [o]);
      ConcatAssoc(old(log), [t], Remarks(|path| + 1, info));
    }

    method BeginRemarks(info: Info, ghost path: seq<TreeObject>)
      requires At(path) && channel == NONE && path != []
      modifies this`text, this`indent, this`log
      ensures At(path) && log == old(log) + Remarks(|path|, info)
    {
      hide At;
      if info.comment.Some? {
        WriteRemark(Description, info.comment.value, path);
      }
      if info.reference.Some? {
        WriteRemark(Reference, info.reference.value, path);
      }
    }

    method EndElement(o: TreeObject, ghost path: seq<TreeObject>)
      requires At(path) && path != [] && path[|path| - 1] == o
      modifies this`text, this`indent, this`channel, this`log
      ensures At(path[..|path| - 1]) && channel == NONE
      ensures log == old(log) + StdioClosed(old(channel), |path|) + [Ended(|path| - 1, o)]
    {
      hide TokenText, PlaceAfter, Render, Elems, Opened, Advance, EndText, TagOf, StdioClosed;
      StdioClose(path);
      indent := indent - 1;
      PutLine(EndText(TagOf(o), Some(o.name)), Ended(|path| - 1, o));
      Record(Ended(|path| - 1, o));
      EndFits(path);
    }

    // ----- opening and closing the file -----

    /** A token written without indentation. */
    method PutRaw(markup: string, ghost t: Token)
      requires !t.Remark? && !t.Data? && markup == Markup(t) && Depth(t) == 0 && text == Render(log)
      modifies this`text, this`log
      ensures text == Render(log) && log == old(log) + [t]
      ensures PlaceAfter(log, Prologue) == Advance(t, PlaceAfter(old(log), Prologue))
    {
      hide Markup, Render, PlaceAfter, Advance;
      Print(markup);
      Print("\n");
      assert Indent(0) + Markup(t) == Markup(t);
      Record(t);
    }

    method PutPreamble(home: string)
      requires log == [] && text == []
      modifies this`text, this`log
      ensures text == Render(log) && log == Preamble(home) && PlaceAfter(log, Prologue) == Inside([])
    {
      hide Render, PlaceAfter;
      EmptyFile();
      PutRaw("<" + XmlLine(), Header(XmlLine()));
      PutRaw("<" + DoctypeLine(home), Header(DoctypeLine(home)));
      PutRaw("<" + StyleLine(home), Header(StyleLine(home)));
      PutRaw("<RESULT>", OpenResult);
    }

    /** Open the file, unless it has no name, is open already, or cannot be opened. */
    method OpenFile(info: Info, operator: Option<string>, release: Option<string>, home: string, opens: bool,
                    root: TreeObject,
                    ghost objs: set<TreeObject>, ghost up: map<TreeObject, seq<TreeObject>>)
      returns (ret: int)
      requires Valid(objs, root, up)
      modifies this
      ensures Valid(objs, root, up)
      ensures ret == if name == None then -2 else if old(isOpen) then -3 else if !opens then -4 else 0
      ensures isOpen <==> old(isOpen) || ret == 0
      ensures ret == 0 ==> cur == null && channel == NONE
                           && log == Preamble(home) + Begun(0, root, info) + Titles(operator, release)
      ensures ret != 0 ==> log == old(log) && text == old(text) && cur == old(cur) && channel == old(channel)
    {
      hide Rooted, Output.At, Preamble, Begun;
      if name == None {
        return -2;
      }
      if isOpen {
        return -3;
      }
      if !opens {
        return -4;
      }
      cur := null;
      StartFile(info, operator, release, home, root, objs, up);
      PathsIn(objs, root, up);
      ret := 0;
    }

    /** The header of the file, its root element and its titles. */
    method StartFile(info: Info, operator: Option<string>, release: Option<string>, home: string, root: TreeObject,
                     ghost objs: set<TreeObject>, ghost up: map<TreeObject, seq<TreeObject>>)
      requires Rooted(objs, root, up) && channel == NONE
      modifies this`isOpen, this`text, this`log, this`indent
      ensures isOpen && At([root]) && log == Preamble(home) + Begun(0, root, info) + Titles(operator, release)
    {
      hide Rooted, Render, PlaceAfter, Elems, Advance, Preamble, Begun;
      isOpen, text, log, indent := true, [], [], 0;
      PutPreamble(home);
      RootFits(objs, root, up);
      BeginElement(root, info, []);
      assert [] + [root] == [root];
      WriteTitles(operator, release, [root]);
    }

    method WriteTitles(operator: Option<string>, release: Option<string>, ghost path: seq<TreeObject>)
      requires At(path) && |path| == 1 && channel == NONE
      modifies this`text, this`log
      ensures At(path) && log == old(log) + Titles(operator, release)
    {
      hide At;
      if operator.Some? {
        WriteSingle(Operated, [], operator.value, path);
      }
      if release.Some? {
        WriteSingle(Release, [], release.value, path);
      }
    }

    /** Close all that is open. */
    method CloseFile(ghost objs: set<TreeObject>, ghost root: TreeObject, ghost up: map<TreeObject, seq<TreeObject>>)
      requires Valid(objs, root, up)
      modifies this
      ensures Valid(objs, root, up) && !isOpen
      ensures old(isOpen) ==> text == Render(log) && PlaceAfter(log, Prologue) == Over
      ensures old(isOpen) ==>
                log == old(log) + StdioClosed(old(channel), |old(Path(root, up))|)
                       + (if old(cur) == null
                         then [End(0, OutputTag, None)] else Closes(up[old(cur)], 0)) + [CloseResult]
      ensures !old(isOpen) ==> log == old(log) && text == old(text)
    {
      hide Rooted, Render, PlaceAfter, Elems, Closes, Advance;
      if !isOpen {
        return;
      }
      PathsIn(objs, root, up);
      ghost var path := Path(root, up);
      PathStarts(objs, root, up);
      StdioClose(path);
      if cur != null {
        EndAll(objs, root, up);
      } else {
        PutRaw("</OUTPUT>", End(0, OutputTag, None)) by { OutputEnd(); }
        RootEnds(objs, root, up);
      }
      NothingOpen();
      PutRaw("</RESULT>", CloseResult);
      isOpen := false;
    }

    method EndAll(ghost objs: set<TreeObject>, ghost root: TreeObject, ghost up: map<TreeObject, seq<TreeObject>>)
      requires Rooted(objs, root, up) && cur != null && cur in objs && At(up[cur]) && channel == NONE
      modifies this`text, this`indent, this`channel, this`log, this`cur
      ensures At([]) && channel == NONE && cur == null
      ensures log == old(log) + Closes(up[old(cur)], 0)
    {
      hide Rooted, At, Closes;
      ghost var o := cur;
      PathsIn(objs, root, up);
      ghost var p := up[o];
      PathNotEmpty(objs, root, up, o);
      ghost var j := |p|;
      assert p[..j] == p;
      while cur != null
        invariant 0 <= j <= |p| && cur == if j == 0 then null else p[j - 1]
        invariant At(p[..j]) && channel == NONE
        invariant log + Closes(p[..j], 0) == old(log) + Closes(p, 0)
        decreases j
      {
        ghost var l0 := log;
        ParentOnPath(objs, root, up, o, j - 1);
        assert p[..j][..j - 1] == p[..j - 1];
        EndElement(cur, p[..j]);
        ClosesNext(p, j, 0);
        ConcatAssoc(l0, [Ended(j - 1, p[j - 1])], Closes(p[..j - 1], 0));
        cur := cur.parentSeq;
        j := j - 1;
      }
      ClosesDone([], 0);
      assert log + [] == log && p[..0] == [];
    }

    // ----- moving to a test case -----

    /** Go up to the common ancestor. */
    method GoUp(first: TreeObject?, anc: TreeObject?, ghost o: TreeObject, ghost k: nat,
                ghost objs: set<TreeObject>, ghost root: TreeObject, ghost up: map<TreeObject, seq<TreeObject>>)
      requires Rooted(objs, root, up) && o in objs && 1 <= k < |up[o]| && anc == up[o][k - 1]
      requires first == up[o][|up[o]| - 2] && At(Above(up[o])) && channel == NONE
      modifies this`text, this`indent, this`channel, this`log
      ensures At(up[o][..k]) && channel == NONE && log == old(log) + Closes(Above(up[o]), k)
    {
      hide Rooted, At, Closes;
      PathsIn(objs, root, up);
      ghost var p := up[o];
      ghost var j := |p| - 1;
      var c := first;
      while c != anc
        invariant k <= j <= |p| - 1 && c == p[j - 1]
        invariant At(p[..j]) && channel == NONE
        invariant log + Closes(p[..j], k) == old(log) + Closes(Above(p), k)
        decreases j
      {
        ghost var l0 := log;
        ParentOnPath(objs, root, up, o, j - 1);
        assert p[..j][..j - 1] == p[..j - 1];
        EndElement(c, p[..j]);
        ClosesNext(p, j, k);
        ConcatAssoc(l0, [Ended(j - 1, p[j - 1])], Closes(p[..j - 1], k));
        c := c.parentSeq;
        j := j - 1;
      }
      Meet(objs, root, up, o, j - 1, o, k - 1);
      ClosesDone(p[..k], k);
      assert log + [] == log;
    }

    /** The sequences between an object and one of its ancestors, downwards. */
    method Between(first: TreeObject?, anc: TreeObject?, ghost o: TreeObject, ghost k: nat,
                   ghost objs: set<TreeObject>, ghost root: TreeObject, ghost up: map<TreeObject, seq<TreeObject>>)
      returns (list: seq<TreeObject>)
      requires Rooted(objs, root, up) && o in objs && 1 <= k < |up[o]| && anc == up[o][k - 1]
      requires first == up[o][|up[o]| - 2]
      ensures list == up[o][k..|up[o]| - 1]
    {
      hide Rooted;
      PathsIn(objs, root, up);
      ghost var p := up[o];
      ghost var j := |p| - 1;
      list := [];
      var c := first;
      while c != anc
        invariant k <= j <= |p| - 1 && c == p[j - 1]
        invariant list == p[j..|p| - 1]
        decreases j
      {
        ParentOnPath(objs, root, up, o, j - 1);
        list := [c] + list;
        c := c.parentSeq;
        j := j - 1;
      }
      Meet(objs, root, up, o, j - 1, o, k - 1);
    }

    /** Open the sequences of a list, which are those of a path after its first `k`. */
    method GoDown(list: seq<TreeObject>, infos: nat -> Info, ghost o: TreeObject, ghost k: nat,
                  ghost objs: set<TreeObject>, ghost root: TreeObject, ghost up: map<TreeObject, seq<TreeObject>>)
      requires Rooted(objs, root, up) && o in objs && 1 <= k < |up[o]| && list == up[o][k..|up[o]| - 1]
      requires At(up[o][..k]) && channel == NONE
      modifies this`text, this`indent, this`log
      ensures At(Above(up[o])) && log == old(log) + Opens(Above(up[o]), k, infos)
    {
      hide Rooted, At, Opens, Begun;
      PathsIn(objs, root, up);
      ghost var p := up[o];
      OpensDone(p[..k], k, infos);
      var i := 0;
      while i < |list|
        invariant 0 <= i <= |list| && At(p[..k + i])
        invariant log == old(log) + Opens(p[..k + i], k, infos)
      {
        PathFits(objs, root, up, o, k + i);
        assert list[i] == p[k + i] && p[..k + i] + [p[k + i]] == p[..k + i + 1];
        ghost var l0 := log;
        BeginElement(list[i], infos(list[i].key), p[..k + i]);
        OpensNext(p, k + i, k, infos);
        ConcatAssoc(old(log), Opens(p[..k + i], k, infos), Begun(k + i, list[i], infos(list[i].key)));
        i := i + 1;
      }
    }

    /** Close the current case, and the sequences that do not hold the next one. */
    method Leave(o: TreeObject, anc: TreeObject?, ghost next: TreeObject, ghost k: nat,
                 ghost objs: set<TreeObject>, ghost root: TreeObject, ghost up: map<TreeObject, seq<TreeObject>>)
      requires Rooted(objs, root, up) && o in objs && next in objs && o.kind == Case
      requires 1 <= k < |up[o]| && k <= |up[next]| && up[o][..k] == up[next][..k] && anc == up[o][k - 1]
      requires At(up[o]) && channel == NONE
      modifies this`text, this`indent, this`channel, this`log
      ensures At(up[next][..k]) && channel == NONE && log == old(log) + Closes(up[o], k)
    {
      hide Rooted, At, Closes;
      PathsIn(objs, root, up);
      ghost var l0, p := log, up[o];
      PathNotEmpty(objs, root, up, o);
      ParentOnPath(objs, root, up, o, |p| - 1);
      EndElement(o, p);
      assert l0 + [] + [Ended(|p| - 1, o)] == l0 + [Ended(|p| - 1, o)];
      GoUp(o.parentSeq, anc, o, k, objs, root, up);
      ClosesWhole(p, k);
      ConcatAssoc(l0, [Ended(|p| - 1, o)], Closes(Above(p), k));
    }

    /** Open the sequences that hold a case, and the case. */
    method Enter(o: TreeObject, anc: TreeObject?, infos: nat -> Info, ghost k: nat,
                 ghost objs: set<TreeObject>, ghost root: TreeObject, ghost up: map<TreeObject, seq<TreeObject>>)
      requires Rooted(objs, root, up) && o in objs && 1 <= k < |up[o]| && anc == up[o][k - 1]
      requires At(up[o][..k]) && channel == NONE
      modifies this`text, this`indent, this`log
      ensures At(up[o]) && log == old(log) + Opens(up[o], k, infos)
    {
      hide Rooted, At, Opens, Begun, Fits;
      PathsIn(objs, root, up);
      ghost var l0, p := log, up[o];
      PathNotEmpty(objs, root, up, o);
      ParentOnPath(objs, root, up, o, |p| - 1);
      var list := Between(o.parentSeq, anc, o, k, objs, root, up);
      GoDown(list, infos, o, k, objs, root, up);
      PathFits(objs, root, up, o, |p| - 1);
      assert Above(p) + [o] == p;
      BeginElement(o, infos(o.key), Above(p));
      OpensWhole(p, k, infos);
      ConcatAssoc(l0, Opens(Above(p), k, infos), Begun(|p| - 1, o, infos(o.key)));
    }

    /**
      Move to a test case: close the elements that do not hold it, open those that do, and give the
      place in the file where its texts will go. Other objects are ignored.
     */
    method MoveTo(o: TreeObject, infos: nat -> Info, root: TreeObject,
                  ghost objs: set<TreeObject>, ghost up: map<TreeObject, seq<TreeObject>>)
      returns (ret: int)
      requires Valid(objs, root, up) && o in objs
      modifies this
      ensures Valid(objs, root, up) && isOpen == old(isOpen)
      ensures ret == if !isOpen then -2 else if o.kind != Case then 0 else |text|
      ensures isOpen && o.kind == Case ==> cur == o && channel == NONE
      ensures isOpen && o.kind == Case ==>
                log == old(log) + StdioClosed(old(channel), |old(Path(root, up))|)
                       + Closes(Left(up, old(cur)), Shared(up, old(cur), o)) + Opens(up[o], Shared(up, old(cur), o),
                         infos)
      ensures !(isOpen && o.kind == Case) ==> log == old(log) && cur == old(cur) && channel == old(channel)
    {
      hide Rooted, At, Closes, Opens, Ancestor, Common;
      if !isOpen {
        return -2;
      }
      if o.kind != Case {
        return 0;
      }
      PathsIn(objs, root, up);
      PathStarts(objs, root, up);
      RootApart(objs, root, up, o);
      StdioClose(Path(root, up));
      var anc := CommonAncestor(cur, o, objs, root, up);
      ghost var k := 1;
      if cur != null {
        RootApart(objs, root, up, cur);
        k := AncestorPlace(objs, root, up, cur, o);
        Leave(cur, anc, o, k, objs, root, up);
      } else {
        anc := root;
        assert up[o][..1] == [root];
        NothingToClose(k);
        assert log + [] == log;
      }
      Enter(o, anc, infos, k, objs, root, up);
      cur := o;
      ret := |text|;
    }
  }

  // ----- what each operation writes -----

  function XmlLine(): string {
    "?xml version=\"1.0\" encoding=\"UTF-8\"?>"
  }

  function DoctypeLine(home: string): string {
    "!DOCTYPE OUTPUT SYSTEM \"" + home + "/lib/output.dtd\">"
  }

  function StyleLine(home: string): string {
    "?xml-stylesheet type=\"text/xsl\" href=\"" + home + "/lib/output.xsl\"?>"
  }

  function Preamble(home: string): seq<Token> {
    [Header(XmlLine()), Header(DoctypeLine(home)), Header(StyleLine(home)), OpenResult]
  }

  function Titles(operator: Option<string>, release: Option<string>): seq<Token> {
    (if operator == None then [] else [Single(1, Operated, [], operator.value)])
    + (if release == None then [] else [Single(1, Release, [], release.value)])
  }

  ghost function Switched(channel: int, c: int, depth: nat): seq<Token> {
    if channel == c then [] else StdioClosed(channel, depth) + [OpenStdio(depth, c)]
  }

  ghost function Said(channel: int, c: int, str: string, depth: nat): seq<Token> {
    Switched(channel, c, depth) + [Data(c, str)]
  }

  ghost function Marked(channel: int, field: Field, attrs: string, value: string, depth: nat): seq<Token> {
    StdioClosed(channel, depth) + [Single(depth, field, attrs, value)]
  }

  lemma {:induction false} IndentRight(i: nat)
    ensures Indent(i + 1) == Indent(i) + "  "
  {
    if i > 0 {
      IndentRight(i - 1);
    }
  }

  lemma EscapeNext(s: string, i: nat)
    requires i < |s|
    ensures Escape(s[..i + 1]) == Escape(s[..i]) + EscapeChar(s[i])
  {
    assert s[..i + 1] == s[..i] + [s[i]];
    EscapeAppend(s[..i], [s[i]]);
    assert Escape([s[i]]) == EscapeChar(s[i]) by {
      assert [s[i]][1..] == [];
    }
  }

  /** The path that the run leaves; none before its first case. */
  ghost function Left(up: map<TreeObject, seq<TreeObject>>, cur: TreeObject?): seq<TreeObject> {
    if cur == null || cur !in up then [] else up[cur]
  }

  /** The number of elements that stay open when the run moves to a case: all the common proper ancestors. */
  ghost function Shared(up: map<TreeObject, seq<TreeObject>>, cur: TreeObject?, o: TreeObject): nat
    requires o in up
  {
    if cur == null || cur !in up then 1 else Common(Above(up[cur]), Above(up[o]))
  }

  lemma EmptyFile()
    ensures Render([]) == [] && forall p :: PlaceAfter([], p) == p
  {
  }

  lemma RootFits(objs: set<TreeObject>, root: TreeObject, up: map<TreeObject, seq<TreeObject>>)
    requires Rooted(objs, root, up)
    ensures Fits([], root) && Opened([], NONE) == Inside([])
  {
  }

  lemma OutputEnd()
    ensures Markup(End(0, OutputTag, None)) == "</OUTPUT>"
  {
  }

  lemma RootEnds(objs: set<TreeObject>, root: TreeObject, up: map<TreeObject, seq<TreeObject>>)
    requires Rooted(objs, root, up)
    ensures Advance(End(0, OutputTag, None), Opened([root], NONE)) == Opened([], NONE)
  {
    EndFits([root]);
    assert [root][..0] == [];
  }

  lemma NothingOpen()
    ensures Advance(CloseResult, Opened([], NONE)) == Over
  {
  }

  lemma ClosesNext(p: seq<TreeObject>, j: nat, k: nat)
    requires k < j <= |p|
    ensures Closes(p[..j], k) == [Ended(j - 1, p[j - 1])] + Closes(p[..j - 1], k)
  {
    assert p[..j][..j - 1] == p[..j - 1];
  }

  lemma ClosesDone(p: seq<TreeObject>, k: nat)
    requires |p| <= k
    ensures Closes(p, k) == []
  {
  }

  lemma NothingToClose(k: nat)
    ensures Closes([], k) == []
  {
  }

  lemma ClosesWhole(p: seq<TreeObject>, k: nat)
    requires k < |p|
    ensures Closes(p, k) == [Ended(|p| - 1, p[|p| - 1])] + Closes(Above(p), k)
  {
  }

  lemma OpensDone(p: seq<TreeObject>, k: nat, infos: nat -> Info)
    requires |p| <= k
    ensures Opens(p, k, infos) == []
  {
  }

  lemma OpensNext(p: seq<TreeObject>, i: nat, k: nat, infos: nat -> Info)
    requires k <= i < |p|
    ensures Opens(p[..i + 1], k, infos) == Opens(p[..i], k, infos) + Begun(i, p[i], infos(p[i].key))
  {
    assert p[..i + 1][..i] == p[..i];
  }

  lemma OpensWhole(p: seq<TreeObject>, k: nat, infos: nat -> Info)
    requires k < |p|
    ensures Opens(p, k, infos) == Opens(Above(p), k, infos) + Begun(|p| - 1, p[|p| - 1], infos(p[|p| - 1].key))
  {
  }

  lemma PathFits(objs: set<TreeObject>, root: TreeObject, up: map<TreeObject, seq<TreeObject>>, o: TreeObject, i: nat)
    requires Rooted(objs, root, up) && o in objs && 1 <= i < |up[o]|
    ensures Fits(up[o][..i], up[o][i])
  {
    hide Rooted;
    PathsIn(objs, root, up);
    ParentOnPath(objs, root, up, o, i);
    ParentIsSeq(objs, root, up, up[o][i]);
  }

  lemma ParentIsSeq(objs: set<TreeObject>, root: TreeObject, up: map<TreeObject, seq<TreeObject>>, o: TreeObject)
    requires Rooted(objs, root, up) && o in objs && o.parentSeq != null
    ensures o.parentSeq in objs && o.parentSeq.kind == Seq && TagOf(o) != OutputTag
  {
  }

  /** All the objects of a tree have a path, made of objects of the tree. */
  lemma PathsIn(objs: set<TreeObject>, root: TreeObject, up: map<TreeObject, seq<TreeObject>>)
    requires Rooted(objs, root, up)
    ensures up.Keys == objs && root in objs
    ensures forall o :: o in objs ==> Elements(up[o]) <= objs
  {
    forall o, x | o in objs && x in up[o] ensures x in objs {
      var i :| 0 <= i < |up[o]| && up[o][i] == x;
      PathsAreNested(objs, root, up, o, i);
    }
  }

  lemma RootApart(objs: set<TreeObject>, root: TreeObject, up: map<TreeObject, seq<TreeObject>>, o: TreeObject)
    requires Rooted(objs, root, up) && o in objs && o.kind == Case
    ensures |up[o]| >= 2 && up[o][0] == root
  {
    PathNotEmpty(objs, root, up, o);
    PathNotEmpty(objs, root, up, o.parentSeq);
  }

  lemma {:induction false} CommonPrefix(p: seq<TreeObject>, q: seq<TreeObject>)
    ensures p[..Common(p, q)] == q[..Common(p, q)]
  {
    var k := Common(p, q);
    if k > 0 {
      CommonPrefix(p[1..], q[1..]);
      assert p[..k] == [p[0]] + p[1..][..k - 1] && q[..k] == [q[0]] + q[1..][..k - 1];
    }
  }

  lemma AncestorPlace(objs: set<TreeObject>, root: TreeObject, up: map<TreeObject, seq<TreeObject>>, o1: TreeObject,
                      o2: TreeObject)
    returns (k: nat)
    requires Rooted(objs, root, up) && o1 in objs && o2 in objs && |up[o1]| >= 2 && |up[o2]| >= 2
    ensures k == Shared(up, o1, o2) && 1 <= k < |up[o1]| && k < |up[o2]|
    ensures up[o1][..k] == up[o2][..k]
    ensures Ancestor(up, o1, o2) == up[o1][k - 1] == up[o2][k - 1]
  {
    hide Rooted;
    PathsIn(objs, root, up);
    var p, q := Above(up[o1]), Above(up[o2]);
    PathNotEmpty(objs, root, up, o1);
    PathNotEmpty(objs, root, up, o2);
    k := Common(p, q);
    CommonPrefix(p, q);
    assert p[0] == q[0] == root;
    assert p[..k] == up[o1][..k] && q[..k] == up[o2][..k];
    assert up[o1][..k][k - 1] == up[o2][..k][k - 1];
  }

  lemma CdataNext(depth: nat, s: string, i: nat, start: bool)
    requires i < |s|
    ensures Cdata(depth, s[i..], start)
            == (if start then Indent(depth) else []) + EscapeChar(s[i]) + Cdata(depth, s[i + 1..], s[i] == '\n')
  {
    assert s[i..][1..] == s[i + 1..];
  }

  lemma CdataEnd(depth: nat, s: string, start: bool)
    ensures Cdata(depth, s[|s|..], start) == []
  {
  }

  lemma Regroup<T>(a: seq<T>, b: seq<T>, c: seq<T>, d: seq<T>)
    ensures a + b + c + d == a + (b + (c + d)) == a + (b + c + d)
  {
  }

  lemma RemarkText(depth: nat, note: Note, str: string)
    ensures TokenText(Remark(depth, note, str)) ==
            (Indent(depth) + ("<" + NoteText(note) + ">") + "\n")
            + ((Cdata(depth + 1, str, true) + "\n") + (Indent(depth) + ("</" + NoteText(note) + ">") + "\n"))
  {
    hide Indent, Cdata, NoteText;
  }

  // ----- what may be written where -----

  /** An object may be opened in the last of a path: only the root goes alone, and cases hold nothing. */
  ghost predicate Fits(path: seq<TreeObject>, o: TreeObject)
    reads o`parentSeq
  {
    if path == [] then TagOf(o) == OutputTag else TagOf(o) != OutputTag && path[|path| - 1].kind == Seq
  }

  lemma TopOf(path: seq<TreeObject>)
    requires path != []
    ensures Opened(path, NONE).open == Elems(path)
    ensures Top(Elems(path)) == Object(TagOf(path[|path| - 1]), path[|path| - 1].name)
  {
    assert Elems(path) + [] == Elems(path);
  }

  lemma RemarkFits(path: seq<TreeObject>, note: Note, str: string)
    requires path != []
    ensures Advance(Remark(|path|, note, str), Opened(path, NONE)) == Opened(path, NONE)
  {
    TopOf(path);
  }

  lemma SingleFits(path: seq<TreeObject>, field: Field, attrs: string, value: string)
    requires path != []
    ensures Advance(Single(|path|, field, attrs, value), Opened(path, NONE)) == Opened(path, NONE)
  {
    TopOf(path);
  }

  lemma CloseStdioFits(path: seq<TreeObject>, channel: int)
    requires channel != NONE
    ensures Advance(CloseStdio(|path|), Opened(path, channel)) == Opened(path, NONE)
  {
    hide Elems;
    var es := Elems(path);
    assert (es + [Stdio(channel)])[..|es|] == es && es + [] == es;
  }

  lemma OpenStdioFits(path: seq<TreeObject>, channel: int)
    requires channel != NONE && path != []
    ensures Advance(OpenStdio(|path|, channel), Opened(path, NONE)) == Opened(path, channel)
  {
    TopOf(path);
  }

  lemma DataFits(path: seq<TreeObject>, channel: int, str: string)
    requires channel != NONE
    ensures Advance(Data(channel, str), Opened(path, channel)) == Opened(path, channel)
  {
    hide Elems;
  }

  lemma BeginFits(path: seq<TreeObject>, o: TreeObject, attrs: string)
    requires Fits(path, o)
    ensures Advance(Begin(|path|, TagOf(o), o.name, attrs), Opened(path, NONE)) == Opened(path + [o], NONE)
  {
    assert (path + [o])[..|path|] == path;
    TopOf(path + [o]);
    if path != [] {
      TopOf(path);
    } else {
      assert Elems(path) + [] == [];
    }
  }

  lemma EndFits(path: seq<TreeObject>)
    requires path != []
    ensures Advance(Ended(|path| - 1, path[|path| - 1]), Opened(path, NONE)) == Opened(path[..|path| - 1], NONE)
  {
    TopOf(path);
    var below := path[..|path| - 1];
    assert Elems(path)[..|path| - 1] == Elems(below);
    assert Elems(below) + [] == Elems(below);
  }

  ghost function Elements(path: seq<TreeObject>): set<TreeObject> {
    set o | o in path
  }
}
