/**
  The paths of the tree that an output file is written over, what is done during a test case, and
  what reading the file gives back of it.
 */
module XmlSession {
  import opened Graphs
  import opened Shapes
  import opened Expr
  import opened ExprMeaning
  import opened Unfolding
  import opened TestTree
  import opened Execution
  import opened TreeLoad
  import opened XmlText
  import opened XmlWriter

  // ----- the tree that the loader builds has a path to each of its objects -----

  ghost predicate Below(f: Links, root: nat, k: nat) {
    exists p :: Chain(f, root, p) && Last(p) == k
  }

  ghost function ChainTo(f: Links, root: nat, k: nat): seq<nat>
    requires Below(f, root, k)
  {
    var p :| Chain(f, root, p) && Last(p) == k;
    p
  }

  ghost function Objects(u: Universe, p: seq<nat>): (r: seq<TreeObject>)
    requires forall i :: 0 <= i < |p| ==> p[i] in u.at
    ensures |r| == |p|
    ensures forall i :: 0 <= i < |p| ==> r[i] == u.at[p[i]]
  {
    seq(|p|, i requires 0 <= i < |p| => u.at[p[i]])
  }

  /** An object below the root is the root, or comes right after its parent on its chain. */
  lemma ChainStep(u: Universe, f: Links, root: TreeObject, o: TreeObject)
    requires Treelike(f, root.key) && Family(u, f, root) && o in u.objs && Below(f, root.key, o.key)
    ensures o.parentSeq == null ==> o == root && ChainTo(f, root.key, o.key) == [o.key]
    ensures o.parentSeq != null ==>
              && o.parentSeq in u.objs && Below(f, root.key, o.parentSeq.key) && f[o.parentSeq.key] != []
              && ChainTo(f, root.key, o.key) == ChainTo(f, root.key, o.parentSeq.key) + [o.key]
  {
    hide Treelike;
    var p := ChainTo(f, root.key, o.key);
    if |p| == 1 {
      assert p == [o.key] && u.at[o.key] == u.at[root.key];
    } else {
      var q := Front(p);
      assert o.key in f[Last(q)];
      var parent := u.at[Last(q)];
      assert parent.key == Last(q) && parent in u.objs && o.parentSeq == parent;
      assert Chain(f, root.key, q);
      ChainUnique(f, root.key, q, ChainTo(f, root.key, parent.key));
      assert p == q + [o.key];
    }
  }

  ghost function PathTo(u: Universe, f: Links, root: TreeObject, o: TreeObject): seq<TreeObject>
    requires Below(f, root.key, o.key) && f.Keys == u.at.Keys
  {
    Objects(u, ChainTo(f, root.key, o.key))
  }

  lemma PathStep(u: Universe, f: Links, root: TreeObject, o: TreeObject)
    requires Treelike(f, root.key) && Family(u, f, root) && Realizes(u, f)
    requires f.Keys == u.at.Keys && o in u.objs && Below(f, root.key, o.key)
    ensures o.parentSeq == null ==> o == root && PathTo(u, f, root, o) == [o]
    ensures o.parentSeq != null ==>
              && o.parentSeq in u.objs && o.parentSeq.kind == Seq && Below(f, root.key, o.parentSeq.key)
              && PathTo(u, f, root, o) == PathTo(u, f, root, o.parentSeq) + [o]
  {
    hide Treelike, Realizes, Below, ChainTo;
    ChainStep(u, f, root, o);
    assert u.at[o.key] == o;
    if o.parentSeq != null {
      HolderIsSeq(u, f, o.parentSeq);
    }
  }

  lemma RootFacts(u: Universe, f: Links, root: TreeObject)
    requires Treelike(f, root.key) && Family(u, f, root)
    ensures root in u.objs && root.parentSeq == null && f.Keys == u.at.Keys && Below(f, root.key, root.key)
  {
    assert Chain(f, root.key, [root.key]);
  }

  /** The objects below the root of a loaded tree, with the path to each. */
  lemma LoadedTreeIsRooted(u: Universe, f: Links, root: TreeObject)
    returns (objs: set<TreeObject>, up: map<TreeObject, seq<TreeObject>>)
    requires Treelike(f, root.key) && Family(u, f, root) && Realizes(u, f) && root.kind == Seq
    ensures Rooted(objs, root, up)
    ensures forall o :: o in objs <==> o in u.objs && Below(f, root.key, o.key)
  {
    hide Realizes, Treelike, Family, Below, PathTo;
    RootFacts(u, f, root);
    objs := set o | o in u.objs && Below(f, root.key, o.key);
    up := map o | o in objs :: PathTo(u, f, root, o);
    forall o | o in objs
      ensures o.parentSeq == null ==> o == root && up[o] == [o]
      ensures o.parentSeq != null ==> o.parentSeq in objs && o.parentSeq.kind == Seq && up[o] == up[o.parentSeq] + [o]
    {
      PathStep(u, f, root, o);
    }
  }

  lemma HolderIsSeq(u: Universe, f: Links, o: TreeObject)
    requires Realizes(u, f) && o in u.objs && o.key in f && f[o.key] != []
    ensures o.kind == Seq
  {
  }

  // ----- the texts of a test case -----

  /** What is done during a test case: a text on a channel, or a one-line element. */
  datatype Act = Say(channel: int, text: string) | Mark(field: Field, attrs: string, value: string)

  /** What an act writes, with the section of `channel` open, in an element of that depth. */
  ghost function Done(act: Act, channel: int, depth: nat): seq<Token> {
    match act
    case Say(c, text) => Said(channel, c, text, depth)
    case Mark(field, attrs, value) => Marked(channel, field, attrs, value, depth)
  }

  function Speaking(act: Act): int {
    match act
    case Say(c, _) => c
    case Mark(_, _, _) => NONE
  }

  /** Perform an act in the current test case. */
  method Perform(out: Output, act: Act, ghost objs: set<TreeObject>, ghost root: TreeObject, ghost up: map<TreeObject,
                 seq<TreeObject>>)
    requires out.Valid(objs, root, up) && out.isOpen && (act.Say? ==> act.channel != NONE)
    modifies out`text, out`channel, out`log
    ensures out.Valid(objs, root, up) && out.channel == Speaking(act)
    ensures out.log == old(out.log) + Done(act, old(out.channel), |out.Path(root, up)|)
  {
    hide Rooted, Said, Marked;
    match act {
      case Say(c, text) => var ret := out.WriteStdio(c, text, objs, root, up);
      case Mark(field, attrs, value) => var ret := out.WriteResult(field, attrs, value, objs, root, up);
    }
  }

  /** The lines said by an act, each with its channel. */
  function SaidLines(act: Act, filter: Option<string>): seq<(int, string)> {
    match act
    case Say(c, text) => GivenAll(Heard(c), Pieces(text, '\n'), filter)
    case Mark(_, _, _) => []
  }

  function Lines(acts: seq<Act>, filter: Option<string>): seq<(int, string)> {
    if acts == [] then [] else SaidLines(acts[0], filter) + Lines(acts[1..], filter)
  }

  predicate StartsCase(t: Token) {
    t.Begin? && t.tag == CaseTag
  }

  predicate HasCase(ts: seq<Token>) {
    exists i :: 0 <= i < |ts| && StartsCase(ts[i])
  }

  /** Tokens that neither say anything nor start a test case. */
  predicate Silent(ts: seq<Token>) {
    forall i :: 0 <= i < |ts| ==> !ts[i].Data? && !StartsCase(ts[i])
  }

  /** What is written ends with the first test case that is started. */
  lemma {:induction false} WrittenInTurn(ts: seq<Token>, more: seq<Token>, filter: Option<string>)
    ensures Written(ts + more, filter) == if HasCase(ts)
            then Written(ts, filter) else Written(ts, filter) + Written(more, filter)
    decreases |ts|
  {
    hide Pieces;
    if ts == [] {
      assert ts + more == more;
    } else {
      assert (ts + more)[1..] == ts[1..] + more;
      assert HasCase(ts) <==> StartsCase(ts[0]) || HasCase(ts[1..]) by {
        if HasCase(ts[1..]) {
          var i :| 0 <= i < |ts[1..]| && StartsCase(ts[1..][i]);
          assert StartsCase(ts[i + 1]);
        }
      }
      WrittenInTurn(ts[1..], more, filter);
    }
  }

  lemma HasCaseInTurn(ts: seq<Token>, more: seq<Token>)
    ensures HasCase(ts + more) <==> HasCase(ts) || HasCase(more)
  {
    if HasCase(ts) {
      var i :| 0 <= i < |ts| && StartsCase(ts[i]);
      assert StartsCase((ts + more)[i]);
    }
    if HasCase(more) {
      var i :| 0 <= i < |more| && StartsCase(more[i]);
      assert StartsCase((ts + more)[|ts| + i]);
    }
  }

  lemma {:induction false} SilentWritten(ts: seq<Token>, rest: seq<Token>, filter: Option<string>)
    requires Silent(ts)
    ensures Written(ts + rest, filter) == Written(rest, filter) && !HasCase(ts)
  {
    if ts == [] {
      assert ts + rest == rest;
    } else {
      assert (ts + rest)[1..] == ts[1..] + rest;
      SilentWritten(ts[1..], rest, filter);
    }
  }

  lemma DataWritten(c: int, text: string, rest: seq<Token>, filter: Option<string>)
    ensures Written([Data(c, text)] + rest, filter)
            == GivenAll(Heard(c), Pieces(text, '\n'), filter) + Written(rest, filter)
  {
    assert ([Data(c, text)] + rest)[1..] == rest;
  }

  /** An act writes exactly the lines it says. */
  lemma ActWritten(act: Act, channel: int, depth: nat, filter: Option<string>)
    ensures Written(Done(act, channel, depth), filter) == Lines([act], filter) && !HasCase(Done(act, channel, depth))
  {
    hide Written, Done, SaidLines;
    DoneWritten(act, channel, depth, [], filter);
    NothingWritten(filter);
    assert Done(act, channel, depth) + [] == Done(act, channel, depth);
    assert [act][1..] == [] && Lines([], filter) == [];
    NoCaseDone(act, channel, depth);
  }

  lemma NoCaseDone(act: Act, channel: int, depth: nat)
    ensures !HasCase(Done(act, channel, depth))
  {
  }

  lemma DoneWritten(act: Act, channel: int, depth: nat, more: seq<Token>, filter: Option<string>)
    ensures Written(Done(act, channel, depth) + more, filter) == SaidLines(act, filter) + Written(more, filter)
  {
    hide Written, GivenAll, Pieces, Heard, Switched;
    match act {
      case Say(c, text) =>
        SwitchIsSilent(channel, c, depth);
        ConcatAssoc(Switched(channel, c, depth), [Data(c, text)], more);
        SilentWritten(Switched(channel, c, depth), [Data(c, text)] + more, filter);
        DataWritten(c, text, more, filter);
      case Mark(field, attrs, value) => SilentWritten(Marked(channel, field, attrs, value, depth), more, filter);
    }
  }

  lemma SwitchIsSilent(channel: int, c: int, depth: nat)
    ensures Silent(Switched(channel, c, depth))
  {
  }

  // ----- what is written between test cases -----

  lemma {:induction false} ClosesSilent(p: seq<TreeObject>, k: nat)
    ensures Silent(Closes(p, k))
  {
    if |p| > k {
      ClosesSilent(p[..|p| - 1], k);
    }
  }

  /** Nothing is written before the case that a path leads to. */
  lemma {:induction false} OpensWritten(p: seq<TreeObject>, k: nat, infos: nat -> Info, rest: seq<Token>,
                                        filter: Option<string>)
    requires k < |p| && p[|p| - 1].kind == Case && forall i :: 0 <= i < |p| - 1 ==> p[i].kind == Seq
    ensures Written(Opens(p, k, infos) + rest, filter) == [] && HasCase(Opens(p, k, infos))
  {
    hide Written, Remarks;
    var above, o := p[..|p| - 1], p[|p| - 1];
    OpensSilent(above, k, infos);
    var begin := Begin(|p| - 1, TagOf(o), o.name, infos(o.key).attrs);
    var more := Remarks(|p|, infos(o.key)) + rest;
    assert Opens(p, k, infos) + rest == Opens(above, k, infos) + ([begin] + more);
    SilentWritten(Opens(above, k, infos), [begin] + more, filter);
    CaseWritten([begin] + more, filter);
    assert Opens(p, k, infos)[|Opens(above, k, infos)|] == begin;
  }

  lemma CaseWritten(ts: seq<Token>, filter: Option<string>)
    requires ts != [] && ts[0].Begin? && ts[0].tag == CaseTag
    ensures Written(ts, filter) == []
  {
  }

  lemma {:induction false} OpensSilent(p: seq<TreeObject>, k: nat, infos: nat -> Info)
    requires forall i :: 0 <= i < |p| ==> p[i].kind == Seq
    ensures Silent(Opens(p, k, infos))
  {
    if |p| > k {
      OpensSilent(p[..|p| - 1], k, infos);
    }
  }

  ghost predicate CasePath(p: seq<TreeObject>) {
    p != [] && p[|p| - 1].kind == Case && forall i :: 0 <= i < |p| - 1 ==> p[i].kind == Seq
  }

  lemma NothingWritten(filter: Option<string>)
    ensures Written([], filter) == []
  {
  }

  /** Moving from a test case to another writes no text, and starts a test case. */
  lemma MoveWritten(channel: int, depth: nat, left: seq<TreeObject>, next: seq<TreeObject>, k: nat, infos: nat -> Info,
                    filter: Option<string>)
    requires k < |next| && CasePath(next)
    ensures var ts := StdioClosed(channel, depth) + Closes(left, k) + Opens(next, k, infos);
            Written(ts, filter) == [] && HasCase(ts)
  {
    hide Written, Closes, Opens, HasCase;
    var closing, opening := StdioClosed(channel, depth) + Closes(left, k), Opens(next, k, infos);
    ClosesSilent(left, k);
    SilentWritten(closing, opening, filter);
    OpensWritten(next, k, infos, [], filter);
    assert opening + [] == opening;
    HasCaseInTurn(closing, opening);
  }

  lemma EndWritten(channel: int, depth: nat, ends: seq<Token>, filter: Option<string>)
    requires Silent(ends)
    ensures var ts := StdioClosed(channel, depth) + ends + [CloseResult]; Written(ts, filter) == [] && !HasCase(ts)
  {
    hide Written, HasCase;
    var ts := StdioClosed(channel, depth) + ends + [CloseResult];
    assert ts + [] == ts;
    SilentWritten(ts, [], filter);
    NothingWritten(filter);
  }

  lemma StartWritten(root: TreeObject, info: Info, operator: Option<string>, release: Option<string>, home: string,
                     filter: Option<string>)
    requires root.kind == Seq
    ensures var ts := Preamble(home) + Begun(0, root, info) + Titles(operator, release); Written(ts, filter) == [] && !HasCase(ts)
  {
    hide Written, HasCase;
    var ts := Preamble(home) + Begun(0, root, info) + Titles(operator, release);
    StartIsSilent(root, info, operator, release, home);
    assert ts + [] == ts;
    SilentWritten(ts, [], filter);
    NothingWritten(filter);
  }

  lemma StartIsSilent(root: TreeObject, info: Info, operator: Option<string>, release: Option<string>, home: string)
    requires root.kind == Seq
    ensures Silent(Preamble(home) + Begun(0, root, info) + Titles(operator, release))
  {
    hide XmlLine, DoctypeLine, StyleLine;
    assert Silent(Preamble(home));
    assert Silent(Begun(0, root, info));
    assert Silent(Titles(operator, release));
  }

  // ----- reading back -----

  /** A place in the file where the reader starts right: outside any section. */
  ghost predicate Starts(log: seq<Token>) {
    XmlText.Proper(PlaceAfter(log, Prologue)) && ChannelAt(PlaceAfter(log, Prologue)) == NONE
  }

  /**
    What is read from a place of a well-formed file is what was written from there to the next test case:
    every line, once, in order, on its channel and with its characters.
   */
  lemma CaseReadBack(log: seq<Token>, n: nat, filter: Option<string>)
    requires n <= |log| && Starts(log[..n]) && PlaceAfter(log, Prologue) != Broken
    requires forall i :: 0 <= i < |log| ==> Tame(log[i])
    ensures |Render(log[..n])| <= |Render(log)|
    ensures ReadText(Render(log)[|Render(log[..n])|..], NONE, filter) == Written(log[n..], filter)
  {
    hide Written, Render, PlaceAfter, ReadText, Tame, ChannelAt, XmlText.Proper;
    assert log == log[..n] + log[n..];
    RenderInTurn(log[..n], log[n..]);
    PlaceInTurn(log[..n], log[n..], Prologue);
    assert Render(log)[|Render(log[..n])|..] == Render(log[n..]);
    ReadBack(log[n..], PlaceAfter(log[..n], Prologue), filter);
  }

  lemma NotSpeaking(path: seq<TreeObject>)
    ensures XmlText.Proper(Opened(path, NONE)) && ChannelAt(Opened(path, NONE)) == NONE
  {
    assert Elems(path) + [] == Elems(path);
    ElemsAreObjects(path);
  }

  lemma {:induction false} ElemsAreObjects(path: seq<TreeObject>)
    ensures forall i :: 0 <= i < |path| ==> Elems(path)[i].Object?
  {
    if path != [] {
      ElemsAreObjects(path[..|path| - 1]);
    }
  }

  /** Without line ends in the texts, on the channels that can be read, the lines are the texts themselves. */
  lemma {:induction false} LinesAreTexts(acts: seq<Act>)
    requires forall i :: 0 <= i < |acts| ==> acts[i].Say? && Known(acts[i].channel) && OneLine(acts[i].text)
    ensures |Lines(acts, None)| == |acts|
    ensures forall i :: 0 <= i < |acts| ==> Lines(acts, None)[i] == (acts[i].channel, acts[i].text)
  {
    hide Pieces;
    if acts != [] {
      PiecesWhole(acts[0].text, '\n');
      assert [acts[0].text][1..] == [];
      assert GivenAll(acts[0].channel, [acts[0].text], None) == [(acts[0].channel, acts[0].text)];
      LinesAreTexts(acts[1..]);
    }
  }
}
