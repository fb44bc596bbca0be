/**
  A whole run written to an XML output file. Whatever the order of its test cases, the file is a
  balanced document, and what was said during each visit of a test case is read back from its place.
 */
module XmlRun {
  import opened CText
  import opened Shapes
  import opened TestTree
  import opened XmlText
  import opened XmlBalance
  import opened XmlWriter
  import opened XmlReader
  import opened XmlSession

  /** A step of a run: go to an object, or do something in the current test case. */
  datatype Deed = GoTo(o: TreeObject) | Do(act: Act)

  /** What does not change during a run: what is written of each object by its key, and of the run. */
  datatype Setting = Setting(infos: nat -> Info, operator: Option<string>, release: Option<string>, home: string)

  // ----- what the tokens of a run are like -----

  predicate AllOf(ok: Token -> bool, ts: seq<Token>) {
    forall i :: 0 <= i < |ts| ==> ok(ts[i])
  }

  ghost predicate AllowsObjects(ok: Token -> bool, objs: set<TreeObject>, infos: nat -> Info) {
    && (forall o, d: nat, tag :: o in objs ==> ok(Begin(d, tag, o.name, infos(o.key).attrs)) && ok(End(d, tag, Some(o.name))))
    && (forall o, d: nat, text :: o in objs && infos(o.key).comment == Some(text) ==> ok(Remark(d, Description, text)))
    && (forall o, d: nat, text :: o in objs && infos(o.key).reference == Some(text) ==> ok(Remark(d, Reference, text)))
  }

  ghost predicate AllowsMarkup(ok: Token -> bool) {
    && ok(OpenResult) && ok(CloseResult) && ok(End(0, OutputTag, None))
    && (forall d: nat, c :: ok(OpenStdio(d, c)))
    && (forall d: nat :: ok(CloseStdio(d)))
  }

  ghost predicate AllowsAct(ok: Token -> bool, act: Act) {
    match act
    case Say(c, text) => ok(Data(c, text))
    case Mark(field, attrs, value) => forall d: nat :: ok(Single(d, field, attrs, value))
  }

  predicate AllowsTitles(ok: Token -> bool, operator: Option<string>, release: Option<string>, home: string) {
    && ok(Header(XmlLine())) && ok(Header(DoctypeLine(home))) && ok(Header(StyleLine(home)))
    && (operator.Some? ==> ok(Single(1, Operated, [], operator.value)))
    && (release.Some? ==> ok(Single(1, Release, [], release.value)))
  }

  /** All that may be written in a run over a tree is as `ok` says. */
  ghost predicate Allows(ok: Token -> bool, objs: set<TreeObject>, setting: Setting, deeds: seq<Deed>) {
    && AllowsObjects(ok, objs, setting.infos) && AllowsMarkup(ok)
    && AllowsTitles(ok, setting.operator, setting.release, setting.home)
    && (forall i :: 0 <= i < |deeds| && deeds[i].Do? ==> AllowsAct(ok, deeds[i].act))
  }

  lemma AllInTurn(ok: Token -> bool, a: seq<Token>, b: seq<Token>)
    requires AllOf(ok, a) && AllOf(ok, b)
    ensures AllOf(ok, a + b)
  {
  }

  predicate Among(objs: set<TreeObject>, path: seq<TreeObject>) {
    forall i :: 0 <= i < |path| ==> path[i] in objs
  }

  lemma {:induction false} ClosesAllowed(ok: Token -> bool, objs: set<TreeObject>, infos: nat -> Info,
                                         p: seq<TreeObject>, k: nat)
    requires AllowsObjects(ok, objs, infos) && Among(objs, p)
    ensures AllOf(ok, Closes(p, k))
  {
    if |p| > k {
      ClosesAllowed(ok, objs, infos, p[..|p| - 1], k);
    }
  }

  lemma BegunAllowed(ok: Token -> bool, objs: set<TreeObject>, infos: nat -> Info, depth: nat, o: TreeObject)
    requires AllowsObjects(ok, objs, infos) && o in objs
    ensures AllOf(ok, Begun(depth, o, infos(o.key)))
  {
  }

  lemma {:induction false} OpensAllowed(ok: Token -> bool, objs: set<TreeObject>, infos: nat -> Info,
                                        p: seq<TreeObject>, k: nat)
    requires AllowsObjects(ok, objs, infos) && Among(objs, p)
    ensures AllOf(ok, Opens(p, k, infos))
  {
    hide Begun, AllowsObjects;
    if |p| > k {
      var n := |p| - 1;
      OpensAllowed(ok, objs, infos, p[..n], k);
      BegunAllowed(ok, objs, infos, n, p[n]);
      AllInTurn(ok, Opens(p[..n], k, infos), Begun(n, p[n], infos(p[n].key)));
    }
  }

  lemma DoneAllowed(ok: Token -> bool, act: Act, channel: int, depth: nat)
    requires AllowsMarkup(ok) && AllowsAct(ok, act)
    ensures AllOf(ok, Done(act, channel, depth))
  {
  }

  lemma StartAllowed(ok: Token -> bool, objs: set<TreeObject>, setting: Setting, root: TreeObject)
    requires AllowsObjects(ok, objs, setting.infos) && AllowsMarkup(ok) && root in objs
    requires AllowsTitles(ok, setting.operator, setting.release, setting.home)
    ensures AllOf(ok, Preamble(setting.home) + Begun(0, root, setting.infos(root.key)) + Titles(setting.operator,
            setting.release))
  {
    hide AllowsObjects, Begun, XmlLine, DoctypeLine, StyleLine;
    BegunAllowed(ok, objs, setting.infos, 0, root);
    AllInTurn(ok, Preamble(setting.home), Begun(0, root, setting.infos(root.key)));
    AllInTurn(ok, Preamble(setting.home) + Begun(0, root, setting.infos(root.key)),
      Titles(setting.operator, setting.release));
  }

  lemma PathAmong(objs: set<TreeObject>, root: TreeObject, up: map<TreeObject, seq<TreeObject>>, o: TreeObject)
    requires Rooted(objs, root, up) && o in objs
    ensures o in up && Among(objs, up[o])
  {
    hide Rooted;
    PathsIn(objs, root, up);
    forall i | 0 <= i < |up[o]| ensures up[o][i] in objs {
      assert up[o][i] in Elements(up[o]);
    }
  }

  lemma MoveAllowed(ok: Token -> bool, objs: set<TreeObject>, root: TreeObject, up: map<TreeObject, seq<TreeObject>>,
                    cur: TreeObject?, o: TreeObject, channel: int, depth: nat, infos: nat -> Info)
    requires Rooted(objs, root, up) && o in objs && (cur != null ==> cur in objs)
    requires AllowsObjects(ok, objs, infos) && AllowsMarkup(ok)
    ensures o in up
    ensures AllOf(ok, StdioClosed(channel, depth) + Closes(Left(up, cur), Shared(up, cur, o)) + Opens(up[o],
            Shared(up, cur, o), infos))
  {
    hide Rooted, AllowsObjects, Closes, Opens, Shared;
    PathAmong(objs, root, up, o);
    var k := Shared(up, cur, o);
    if cur != null {
      PathAmong(objs, root, up, cur);
    }
    ClosesAllowed(ok, objs, infos, Left(up, cur), k);
    OpensAllowed(ok, objs, infos, up[o], k);
    AllInTurn(ok, StdioClosed(channel, depth), Closes(Left(up, cur), k));
    AllInTurn(ok, StdioClosed(channel, depth) + Closes(Left(up, cur), k), Opens(up[o], k, infos));
  }

  lemma EndAllowed(ok: Token -> bool, objs: set<TreeObject>, root: TreeObject, up: map<TreeObject, seq<TreeObject>>,
                   cur: TreeObject?, channel: int, depth: nat, infos: nat -> Info)
    requires Rooted(objs, root, up) && (cur != null ==> cur in objs) && AllowsObjects(ok, objs, infos)
             && AllowsMarkup(ok)
    ensures cur != null ==> cur in up
    ensures AllOf(ok, StdioClosed(channel, depth) + (if cur == null
            then [End(0, OutputTag, None)] else Closes(up[cur], 0)) + [CloseResult])
  {
    hide Rooted, AllowsObjects, Closes;
    if cur != null {
      PathAmong(objs, root, up, cur);
      ClosesAllowed(ok, objs, infos, up[cur], 0);
    }
    var ends := if cur == null then [End(0, OutputTag, None)] else Closes(up[cur], 0);
    AllInTurn(ok, StdioClosed(channel, depth), ends);
    AllInTurn(ok, StdioClosed(channel, depth) + ends, [CloseResult]);
  }

  // ----- the visits of a run -----

  predicate Visits(deed: Deed) {
    deed.GoTo? && deed.o.kind == Case
  }

  predicate HasVisit(deeds: seq<Deed>) {
    exists i :: 0 <= i < |deeds| && Visits(deeds[i])
  }

  function ActOf(deed: Deed): seq<Act> {
    if deed.Do? then [deed.act] else []
  }

  /** What is done before the next visit of a test case. */
  function ActsOf(deeds: seq<Deed>): seq<Act> {
    if deeds == [] || Visits(deeds[0]) then [] else ActOf(deeds[0]) + ActsOf(deeds[1..])
  }

  lemma {:induction false} ActsNext(deeds: seq<Deed>, deed: Deed)
    ensures ActsOf(deeds + [deed]) == if HasVisit(deeds) then ActsOf(deeds) else ActsOf(deeds) + ActOf(deed)
    ensures HasVisit(deeds + [deed]) <==> HasVisit(deeds) || Visits(deed)
    decreases |deeds|
  {
    if deeds == [] {
      assert (deeds + [deed])[0] == deed && ([deed])[1..] == [] && deeds + [deed] == [deed];
    } else {
      assert (deeds + [deed])[1..] == deeds[1..] + [deed] && (deeds + [deed])[0] == deeds[0];
      ActsNext(deeds[1..], deed);
      VisitFirst(deeds);
      VisitFirst(deeds + [deed]);
    }
  }

  lemma VisitFirst(deeds: seq<Deed>)
    requires deeds != []
    ensures HasVisit(deeds) <==> Visits(deeds[0]) || HasVisit(deeds[1..])
  {
    if HasVisit(deeds[1..]) {
      var i :| 0 <= i < |deeds[1..]| && Visits(deeds[1..][i]);
      assert Visits(deeds[i + 1]);
    }
  }

  lemma {:induction false} LinesInTurn(a: seq<Act>, b: seq<Act>, filter: Option<string>)
    ensures Lines(a + b, filter) == Lines(a, filter) + Lines(b, filter)
  {
    hide SaidLines;
    if a == [] {
      assert a + b == b;
    } else {
      assert (a + b)[1..] == a[1..] + b;
      LinesInTurn(a[1..], b, filter);
    }
  }

  /** What has been written after the first `n` tokens is what these deeds say. */
  ghost predicate Tells(log: seq<Token>, n: nat, deeds: seq<Deed>) {
    && n <= |log| && Starts(log[..n])
    && (forall filter :: Written(log[n..], filter) == Lines(ActsOf(deeds), filter))
    && (HasCase(log[n..]) <==> HasVisit(deeds))
  }

  /** What one deed writes. */
  ghost predicate Wrote(more: seq<Token>, deed: Deed) {
    && (forall filter :: Written(more, filter) == Lines(ActOf(deed), filter))
    && (HasCase(more) <==> Visits(deed))
  }

  lemma TellsNext(log: seq<Token>, n: nat, deeds: seq<Deed>, more: seq<Token>, deed: Deed)
    requires Tells(log, n, deeds) && Wrote(more, deed)
    ensures Tells(log + more, n, deeds + [deed])
  {
    hide Starts, Written, Lines, HasCase, HasVisit, ActsOf, ActOf;
    assert (log + more)[n..] == log[n..] + more && (log + more)[..n] == log[..n];
    ActsNext(deeds, deed);
    HasCaseInTurn(log[n..], more);
    forall filter ensures Written((log + more)[n..], filter) == Lines(ActsOf(deeds + [deed]), filter) {
      WrittenInTurn(log[n..], more, filter);
      LinesInTurn(ActsOf(deeds), ActOf(deed), filter);
    }
  }

  lemma TellsStart(log: seq<Token>)
    requires Starts(log)
    ensures Tells(log, |log|, [])
  {
    hide Starts;
    assert log[..|log|] == log;
  }

  /** What ends the file tells nothing. */
  lemma TellsEnd(log: seq<Token>, n: nat, deeds: seq<Deed>, more: seq<Token>)
    requires Tells(log, n, deeds) && (forall filter :: Written(more, filter) == []) && !HasCase(more)
    ensures Tells(log + more, n, deeds)
  {
    hide Starts, Written, Lines, HasCase, HasVisit, ActsOf;
    assert (log + more)[n..] == log[n..] + more && (log + more)[..n] == log[..n];
    HasCaseInTurn(log[n..], more);
    forall filter ensures Written((log + more)[n..], filter) == Lines(ActsOf(deeds), filter) {
      WrittenInTurn(log[n..], more, filter);
    }
  }

  // ----- writing a run -----

  ghost predicate Possible(objs: set<TreeObject>, deed: Deed) {
    match deed
    case GoTo(o) => o in objs
    case Do(act) => act.Say? ==> act.channel != NONE
  }

  method Visit(out: Output, o: TreeObject, infos: nat -> Info, root: TreeObject,
               ghost ok: Token -> bool, ghost objs: set<TreeObject>, ghost up: map<TreeObject, seq<TreeObject>>)
    returns (ret: int, ghost more: seq<Token>)
    requires out.Valid(objs, root, up) && out.isOpen && o in objs && o.kind == Case
    requires AllowsObjects(ok, objs, infos) && AllowsMarkup(ok)
    modifies out
    ensures out.Valid(objs, root, up) && out.isOpen && out.log == old(out.log) + more
    ensures AllOf(ok, more) && Wrote(more, GoTo(o)) && more != []
    ensures ret == |out.text| && out.text == Render(out.log) && Starts(out.log)
  {
    hide *;
    ghost var before, cur, channel, depth := out.log, out.cur, out.channel, |out.Path(root, up)|;
    CurrentIn(out, objs, root, up);
    MoveAllowed(ok, objs, root, up, cur, o, channel, depth, infos);
    MoveWrote(objs, root, up, cur, o, channel, depth, infos);
    ghost var k := Shared(up, cur, o);
    more := StdioClosed(channel, depth) + Closes(Left(up, cur), k) + Opens(up[o], k, infos);
    VisitWrites(more, o);
    assert before + more == before + StdioClosed(channel, depth) + Closes(Left(up, cur), k) + Opens(up[o], k, infos);
    ret := out.MoveTo(o, infos, root, objs, up);
    AtStart(out, objs, root, up);
  }

  method DoDeed(out: Output, deed: Deed, infos: nat -> Info, root: TreeObject,
                ghost ok: Token -> bool, ghost objs: set<TreeObject>, ghost up: map<TreeObject, seq<TreeObject>>)
    returns (ret: int, ghost more: seq<Token>)
    requires out.Valid(objs, root, up) && out.isOpen && Possible(objs, deed)
    requires AllowsObjects(ok, objs, infos) && AllowsMarkup(ok) && (deed.Do? ==> AllowsAct(ok, deed.act))
    modifies out
    ensures out.Valid(objs, root, up) && out.isOpen && out.log == old(out.log) + more
    ensures AllOf(ok, more) && Wrote(more, deed)
    ensures Visits(deed) ==> ret == |out.text| && out.text == Render(out.log) && Starts(out.log) && more != []
  {
    hide Output.Valid, AllOf, AllowsObjects, AllowsMarkup, AllowsAct, Closes, Opens, Done, Wrote, Starts, Render;
    match deed {
      case GoTo(o) =>
        if o.kind == Case {
          ret, more := Visit(out, o, infos, root, ok, objs, up);
        } else {
          more := [];
          NothingWrote(o, ok);
          ret := out.MoveTo(o, infos, root, objs, up);
        }
      case Do(act) =>
        more := Done(act, out.channel, |out.Path(root, up)|);
        DoneAllowed(ok, act, out.channel, |out.Path(root, up)|);
        ActWrote(act, out.channel, |out.Path(root, up)|);
        Perform(out, act, objs, root, up);
        ret := 0;
    }
  }

  lemma NothingWrote(o: TreeObject, ok: Token -> bool)
    requires o.kind != Case
    ensures AllOf(ok, []) && Wrote([], GoTo(o)) && !Visits(GoTo(o))
  {
  }

  lemma VisitWrites(more: seq<Token>, o: TreeObject)
    requires o.kind == Case && Wrote(more, GoTo(o))
    ensures more != []
  {
  }

  lemma ActWrote(act: Act, channel: int, depth: nat)
    ensures Wrote(Done(act, channel, depth), Do(act)) && !Visits(Do(act))
  {
    hide Done, Written, Lines, HasCase;
    forall filter ensures Written(Done(act, channel, depth), filter) == Lines([act], filter) {
      ActWritten(act, channel, depth, filter);
    }
    ActWritten(act, channel, depth, None);
  }

  lemma PathToCase(objs: set<TreeObject>, root: TreeObject, up: map<TreeObject, seq<TreeObject>>, o: TreeObject)
    requires Rooted(objs, root, up) && o in objs && o.kind == Case
    ensures o in up && CasePath(up[o])
  {
    PathNotEmpty(objs, root, up, o);
    forall i | 0 <= i < |up[o]| - 1 ensures up[o][i].kind == Seq {
      ParentOnPath(objs, root, up, o, i + 1);
    }
  }

  lemma MoveWrote(objs: set<TreeObject>, root: TreeObject, up: map<TreeObject, seq<TreeObject>>, cur: TreeObject?,
                  o: TreeObject,
                  channel: int, depth: nat, infos: nat -> Info)
    requires Rooted(objs, root, up) && o in objs && o.kind == Case && (cur != null ==> cur in objs && cur.kind == Case)
    ensures o in up
    ensures Wrote(StdioClosed(channel, depth) + Closes(Left(up, cur), Shared(up, cur, o)) + Opens(up[o],
            Shared(up, cur, o), infos), GoTo(o))
  {
    hide Rooted, Written, Closes, Opens, HasCase, Shared, CasePath;
    PathToCase(objs, root, up, o);
    SharedIsShort(objs, root, up, cur, o);
    var k := Shared(up, cur, o);
    var ts := StdioClosed(channel, depth) + Closes(Left(up, cur), k) + Opens(up[o], k, infos);
    forall filter ensures Written(ts, filter) == Lines([], filter) {
      MoveWritten(channel, depth, Left(up, cur), up[o], k, infos, filter);
    }
    MoveWritten(channel, depth, Left(up, cur), up[o], k, infos, None);
  }

  lemma SharedIsShort(objs: set<TreeObject>, root: TreeObject, up: map<TreeObject, seq<TreeObject>>, cur: TreeObject?,
                      o: TreeObject)
    requires Rooted(objs, root, up) && o in objs && o.kind == Case && (cur != null ==> cur in objs && cur.kind == Case)
    ensures o in up && Shared(up, cur, o) < |up[o]|
  {
    hide Rooted;
    PathsIn(objs, root, up);
    RootApart(objs, root, up, o);
    if cur != null {
      RootApart(objs, root, up, cur);
      var k := AncestorPlace(objs, root, up, cur, o);
    }
  }

  lemma AtStart(out: Output, objs: set<TreeObject>, root: TreeObject, up: map<TreeObject, seq<TreeObject>>)
    requires out.Valid(objs, root, up) && out.isOpen && out.channel == NONE
    ensures out.text == Render(out.log) && Starts(out.log)
  {
    hide Render, PlaceAfter, Rooted;
    NotSpeaking(out.Path(root, up));
  }

  /** Deed `i - 1` is a visit, or there is none: from there on, what is said can be read. */
  predicate Marked(deeds: seq<Deed>, i: nat)
    requires i <= |deeds|
  {
    i == 0 || Visits(deeds[i - 1])
  }

  /** What the first `d` deeds have written; `marks` counts the tokens before each deed, and `places` the characters. */
  ghost predicate Kept(log: seq<Token>, deeds: seq<Deed>, d: nat, marks: seq<nat>, places: seq<int>)
    requires d <= |deeds|
  {
    && |marks| == d + 1 && |places| == d
    && (forall i :: 0 <= i <= d && Marked(deeds, i) ==> Tells(log, marks[i], deeds[i..d]))
    && marks[0] == 0
    && (forall i :: 0 <= i < d && Visits(deeds[i]) ==>
          0 < marks[i + 1] <= |log| && places[i] == |Render(log[..marks[i + 1]])|)
  }

  lemma KeptNext(log: seq<Token>, deeds: seq<Deed>, d: nat, marks: seq<nat>, places: seq<int>, more: seq<Token>,
                 ret: int)
    requires d < |deeds| && Kept(log, deeds, d, marks, places) && Wrote(more, deeds[d])
    requires Visits(deeds[d]) ==> ret == |Render(log + more)| && Starts(log + more) && more != []
    ensures Kept(log + more, deeds, d + 1, marks + [|log + more|], places + [ret])
  {
    hide Tells, Wrote, Visits, Render, Starts;
    var marks', places' := marks + [|log + more|], places + [ret];
    forall i | 0 <= i <= d + 1 && Marked(deeds, i) ensures Tells(log + more, marks'[i], deeds[i..d + 1]) {
      if i <= d {
        assert deeds[i..d + 1] == deeds[i..d] + [deeds[d]];
        TellsNext(log, marks[i], deeds[i..d], more, deeds[d]);
      } else {
        TellsStart(log + more);
        assert deeds[i..d + 1] == [];
      }
    }
    forall i | 0 <= i < d + 1 && Visits(deeds[i])
      ensures 0 < marks'[i + 1] <= |log + more| && places'[i] == |Render((log + more)[..marks'[i + 1]])|
    {
      if i < d {
        assert (log + more)[..marks[i + 1]] == log[..marks[i + 1]];
      } else {
        assert (log + more)[..|log + more|] == log + more;
      }
    }
  }

  lemma KeptFirst(log: seq<Token>, deeds: seq<Deed>)
    requires (forall filter :: Written(log, filter) == []) && !HasCase(log)
    ensures Kept(log, deeds, 0, [0], [])
  {
    hide Written, HasCase, Lines;
    assert log[0..] == log && deeds[0..0] == [] && log[..0] == [];
    assert forall filter :: Lines([], filter) == [] by { NothingSaid(); }
  }

  lemma NothingSaid()
    ensures forall filter :: Lines([], filter) == []
  {
  }

  lemma KeptLast(log: seq<Token>, deeds: seq<Deed>, marks: seq<nat>, places: seq<int>, more: seq<Token>)
    requires Kept(log, deeds, |deeds|, marks, places) && (forall filter :: Written(more, filter) == [])
             && !HasCase(more)
    ensures Kept(log + more, deeds, |deeds|, marks, places)
  {
    hide Tells, Visits, Render, Written, HasCase;
    forall i | 0 <= i <= |deeds| && Marked(deeds, i) ensures Tells(log + more, marks[i], deeds[i..|deeds|]) {
      TellsEnd(log, marks[i], deeds[i..|deeds|], more);
    }
    forall i | 0 <= i < |deeds| && Visits(deeds[i])
      ensures 0 < marks[i + 1] <= |log + more| && places[i] == |Render((log + more)[..marks[i + 1]])|
    {
      assert (log + more)[..marks[i + 1]] == log[..marks[i + 1]];
    }
  }

  /** Open a file, write a run to it, and close it. */
  method WriteTokens(out: Output, deeds: seq<Deed>, setting: Setting, root: TreeObject,
                     ghost ok: Token -> bool, ghost objs: set<TreeObject>, ghost up: map<TreeObject, seq<TreeObject>>)
    returns (places: seq<int>, ghost marks: seq<nat>)
    requires out.Valid(objs, root, up) && !out.isOpen && out.name != None
    requires forall i :: 0 <= i < |deeds| ==> Possible(objs, deeds[i])
    requires Allows(ok, objs, setting, deeds)
    modifies out
    ensures out.Valid(objs, root, up) && !out.isOpen
    ensures out.text == Render(out.log) && PlaceAfter(out.log, Prologue) == Over && AllOf(ok, out.log)
    ensures Kept(out.log, deeds, |deeds|, marks, places)
  {
    hide Rooted, AllOf, AllowsObjects, AllowsMarkup, AllowsAct, AllowsTitles, Output.At, Begun, Preamble, Titles,
         Possible;
    hide Kept, Wrote, Closes, Render, PlaceAfter;
    RootIn(objs, root, up);
    StartAllowed(ok, objs, setting, root);
    StartKept(root, setting, deeds);
    var ret := out.OpenFile(setting.infos(root.key), setting.operator, setting.release, setting.home, true, root,
      objs, up);
    places, marks := [], [0];
    var i := 0;
    while i < |deeds|
      invariant 0 <= i <= |deeds| && out.Valid(objs, root, up) && out.isOpen && AllOf(ok, out.log)
      invariant Kept(out.log, deeds, i, marks, places)
    {
      ghost var before, more := out.log, [];
      ret, more := DoDeed(out, deeds[i], setting.infos, root, ok, objs, up);
      AllInTurn(ok, before, more);
      KeptNext(before, deeds, i, marks, places, more, ret);
      places, marks := places + [ret], marks + [|out.log|];
      i := i + 1;
    }
    EndRun(out, deeds, setting.infos, root, marks, places, ok, objs, up);
  }

  lemma RootIn(objs: set<TreeObject>, root: TreeObject, up: map<TreeObject, seq<TreeObject>>)
    requires Rooted(objs, root, up)
    ensures root in objs && root.kind == Seq
  {
  }

  lemma StartKept(root: TreeObject, setting: Setting, deeds: seq<Deed>)
    requires root.kind == Seq
    ensures Kept(Preamble(setting.home) + Begun(0, root, setting.infos(root.key)) + Titles(setting.operator,
            setting.release), deeds, 0, [0], [])
  {
    hide Written, HasCase, Preamble, Begun, Titles, Kept;
    var log := Preamble(setting.home) + Begun(0, root, setting.infos(root.key)) + Titles(setting.operator,
      setting.release);
    forall filter ensures Written(log, filter) == [] {
      StartWritten(root, setting.infos(root.key), setting.operator, setting.release, setting.home, filter);
    }
    StartWritten(root, setting.infos(root.key), setting.operator, setting.release, setting.home, None);
    KeptFirst(log, deeds);
  }

  method EndRun(out: Output, ghost deeds: seq<Deed>, ghost infos: nat -> Info, ghost root: TreeObject,
                ghost marks: seq<nat>,
                ghost places: seq<int>, ghost ok: Token -> bool, ghost objs: set<TreeObject>,
                  ghost up: map<TreeObject, seq<TreeObject>>)
    requires out.Valid(objs, root, up) && out.isOpen && AllOf(ok, out.log)
             && Kept(out.log, deeds, |deeds|, marks, places)
    requires AllowsObjects(ok, objs, infos) && AllowsMarkup(ok)
    modifies out
    ensures out.Valid(objs, root, up) && !out.isOpen
    ensures out.text == Render(out.log) && PlaceAfter(out.log, Prologue) == Over && AllOf(ok, out.log)
    ensures Kept(out.log, deeds, |deeds|, marks, places)
  {
    hide *;
    ghost var before, cur, channel, depth := out.log, out.cur, out.channel, |out.Path(root, up)|;
    CurrentIn(out, objs, root, up);
    EndAllowed(ok, objs, root, up, cur, channel, depth, infos);
    EndKept(before, deeds, marks, places, up, cur, channel, depth);
    ghost var ends := if cur == null then [End(0, OutputTag, None)] else Closes(up[cur], 0);
    ghost var more := StdioClosed(channel, depth) + ends + [CloseResult];
    AllInTurn(ok, before, more);
    assert before + more == before + StdioClosed(channel, depth) + ends + [CloseResult];
    out.CloseFile(objs, root, up);
  }

  lemma CurrentIn(out: Output, objs: set<TreeObject>, root: TreeObject, up: map<TreeObject, seq<TreeObject>>)
    requires out.Valid(objs, root, up)
    ensures Rooted(objs, root, up) && (out.cur != null ==> out.cur in objs && out.cur in up && out.cur.kind == Case)
  {
  }

  lemma EndKept(log: seq<Token>, deeds: seq<Deed>, marks: seq<nat>, places: seq<int>,
                up: map<TreeObject, seq<TreeObject>>, cur: TreeObject?, channel: int, depth: nat)
    requires Kept(log, deeds, |deeds|, marks, places) && (cur != null ==> cur in up)
    ensures var ends := if cur == null then [End(0, OutputTag, None)] else Closes(up[cur], 0);
            Kept(log + (StdioClosed(channel, depth) + ends + [CloseResult]), deeds, |deeds|, marks, places)
  {
    hide Kept, Written, HasCase, Closes;
    if cur != null {
      ClosesSilent(up[cur], 0);
    }
    var ends := if cur == null then [End(0, OutputTag, None)] else Closes(up[cur], 0);
    var more := StdioClosed(channel, depth) + ends + [CloseResult];
    forall filter ensures Written(more, filter) == [] {
      EndWritten(channel, depth, ends, filter);
    }
    EndWritten(channel, depth, ends, None);
    KeptLast(log, deeds, marks, places, more);
  }

  // ----- what a run needs to be read back -----

  /** No string of a token has a NUL, which would be its end. */
  predicate Whole(t: Token) {
    match t
    case Header(line) => NUL !in line
    case Begin(_, _, name, attrs) => NUL !in name && NUL !in attrs
    case End(_, _, comment) => comment == None || NUL !in comment.value
    case Remark(_, _, text) => NUL !in text
    case Single(_, _, attrs, value) => NUL !in attrs && NUL !in value
    case Data(_, text) => NUL !in text
    case _ => true
  }

  predicate Readable(t: Token) {
    Tame(t) && Whole(t)
  }

  lemma {:induction false} WholeEscape(s: string)
    requires NUL !in s
    ensures NUL !in Escape(s)
  {
    if s != [] {
      WholeEscape(s[1..]);
      assert NUL !in EscapeChar(s[0]);
    }
  }

  lemma {:induction false} WholeIndent(depth: nat)
    ensures NUL !in Indent(depth)
  {
    if depth > 0 {
      WholeIndent(depth - 1);
    }
  }

  lemma {:induction false} WholeCdata(depth: nat, s: string, start: bool)
    requires NUL !in s
    ensures NUL !in Cdata(depth, s, start)
    decreases |s|
  {
    WholeIndent(depth);
    if s != [] {
      WholeCdata(depth, s[1..], s[0] == '\n');
      assert NUL !in EscapeChar(s[0]);
    }
  }

  lemma WholeWords(tag: Tag, field: Field, note: Note, channel: int)
    ensures NUL !in TagText(tag) && NUL !in FieldText(field) && NUL !in NoteText(note) && NUL !in ChannelName(channel)
  {
  }

  lemma WholeToken(t: Token)
    requires Whole(t)
    ensures NUL !in TokenText(t)
  {
    hide Indent, Escape, Cdata, TagText, FieldText, NoteText, ChannelName;
    match t {
      case Data(_, text) => WholeEscape(text);
      case Remark(depth, note, text) =>
        WholeIndent(depth);
        WholeCdata(depth + 1, text, true);
        WholeWords(CaseTag, Operated, note, 0);
      case _ =>
        WholeIndent(Depth(t));
        WholeMarkup(t);
    }
  }

  lemma WholeMarkup(t: Token)
    requires Whole(t) && !t.Remark? && !t.Data?
    ensures NUL !in Markup(t)
  {
    hide TagText, FieldText, NoteText, ChannelName;
    match t {
      case Begin(_, tag, _, _) => WholeWords(tag, Operated, Reference, 0);
      case End(_, tag, _) => WholeWords(tag, Operated, Reference, 0);
      case Single(_, field, _, _) => WholeWords(CaseTag, field, Reference, 0);
      case OpenStdio(_, channel) => WholeWords(CaseTag, Operated, Reference, channel);
      case _ =>
    }
  }

  lemma {:induction false} WholeFile(ts: seq<Token>)
    requires AllOf(Whole, ts)
    ensures NoNul(Render(ts))
  {
    hide TokenText, Whole;
    if ts != [] {
      WholeFile(ts[..|ts| - 1]);
      WholeToken(ts[|ts| - 1]);
    }
  }

  // ----- what a run needs to be balanced -----

  /** A tag is never started by a string that has no `<`. */
  predicate Unmarked(s: string) {
    '<' !in s
  }

  ghost predicate UnmarkedObjects(objs: set<TreeObject>, infos: nat -> Info) {
    forall o :: o in objs ==> Unmarked(o.name) && Unmarked(infos(o.key).attrs)
  }

  predicate UnmarkedAct(act: Act) {
    match act
    case Say(_, _) => true
    case Mark(_, attrs, value) => Unmarked(attrs) && Unmarked(value) && (attrs == [] || Blank(attrs[0]))
  }

  lemma UnmarkedIsNeat(s: string)
    requires Unmarked(s)
    ensures NoTagAfter(s)
  {
  }

  lemma ObjectIsNeat(depth: nat, tag: Tag, name: string, attrs: string)
    requires Unmarked(name) && Unmarked(attrs)
    ensures Neat(Begin(depth, tag, name, attrs)) && Neat(End(depth, tag, Some(name)))
  {
    hide NoTagAfter;
    UnmarkedIsNeat(name);
    UnmarkedIsNeat(name + "\"" + attrs);
  }

  lemma SingleIsNeat(depth: nat, field: Field, attrs: string, value: string)
    requires Unmarked(attrs) && Unmarked(value) && (attrs == [] || Blank(attrs[0]))
    ensures Neat(Single(depth, field, attrs, value))
  {
    hide NoTagAfter;
    UnmarkedIsNeat(attrs + ">" + value);
  }

  lemma HeadersAreNeat(home: string)
    requires Unmarked(home)
    ensures Neat(Header(XmlLine())) && Neat(Header(DoctypeLine(home))) && Neat(Header(StyleLine(home)))
  {
    hide XmlLine, DoctypeLine, StyleLine, Unmarked, Neat;
    XmlLineShape();
    HeaderIsNeat(XmlLine());
    DoctypeShape(home);
    HeaderIsNeat(DoctypeLine(home));
    StyleShape(home);
    HeaderIsNeat(StyleLine(home));
  }

  predicate HeaderShape(line: string) {
    line != [] && line[0] in {'?', '!'} && line[|line| - 1] == '>'
  }

  lemma XmlLineShape()
    ensures HeaderShape(XmlLine()) && Unmarked(XmlLine())
  {
  }

  lemma DoctypeShape(home: string)
    requires Unmarked(home)
    ensures HeaderShape(DoctypeLine(home)) && Unmarked(DoctypeLine(home))
  {
  }

  lemma StyleShape(home: string)
    requires Unmarked(home)
    ensures HeaderShape(StyleLine(home)) && Unmarked(StyleLine(home))
  {
  }

  lemma HeaderIsNeat(line: string)
    requires HeaderShape(line) && Unmarked(line)
    ensures Neat(Header(line))
  {
    hide NoTagAfter;
    UnmarkedIsNeat(line);
  }

  /** Strings without a `<` are neat wherever they are written. */
  lemma UnmarkedIsAllowed(objs: set<TreeObject>, setting: Setting, deeds: seq<Deed>)
    requires UnmarkedObjects(objs, setting.infos) && Unmarked(setting.home)
    requires (setting.operator.Some? ==> Unmarked(setting.operator.value))
             && (setting.release.Some? ==> Unmarked(setting.release.value))
    requires forall i :: 0 <= i < |deeds| && deeds[i].Do? ==> UnmarkedAct(deeds[i].act)
    ensures Allows(Neat, objs, setting, deeds)
  {
    hide Unmarked, NoTagAfter, XmlLine, DoctypeLine, StyleLine;
    forall o, d: nat, tag | o in objs
      ensures Neat(Begin(d, tag, o.name, setting.infos(o.key).attrs)) && Neat(End(d, tag, Some(o.name)))
    {
      ObjectIsNeat(d, tag, o.name, setting.infos(o.key).attrs);
    }
    forall i | 0 <= i < |deeds| && deeds[i].Do? ensures AllowsAct(Neat, deeds[i].act) {
      match deeds[i].act {
        case Say(_, _) =>
        case Mark(field, attrs, value) =>
          forall d: nat ensures Neat(Single(d, field, attrs, value)) {
            SingleIsNeat(d, field, attrs, value);
          }
      }
    }
    HeadersAreNeat(setting.home);
    TitlesAreNeat(setting.operator, setting.release);
  }

  lemma TitlesAreNeat(operator: Option<string>, release: Option<string>)
    requires (operator.Some? ==> Unmarked(operator.value)) && (release.Some? ==> Unmarked(release.value))
    ensures operator.Some? ==> Neat(Single(1, Operated, [], operator.value))
    ensures release.Some? ==> Neat(Single(1, Release, [], release.value))
  {
    hide NoTagAfter, Unmarked;
    assert Unmarked([]) by { NothingMarked(); }
    if operator.Some? {
      SingleIsNeat(1, Operated, [], operator.value);
    }
    if release.Some? {
      SingleIsNeat(1, Release, [], release.value);
    }
  }

  lemma NothingMarked()
    ensures Unmarked([])
  {
  }

  // ----- the file of a run -----

  /** The conditions that hold of a run hold of all its tokens. */
  function Held(neat: bool, readable: bool): Token -> bool {
    t => (neat ==> Neat(t)) && (readable ==> Readable(t))
  }

  lemma HeldAllowed(neat: bool, readable: bool, objs: set<TreeObject>, setting: Setting, deeds: seq<Deed>)
    requires neat ==> Allows(Neat, objs, setting, deeds)
    requires readable ==> Allows(Readable, objs, setting, deeds)
    ensures Allows(Held(neat, readable), objs, setting, deeds)
  {
    hide Neat, Readable;
  }

  lemma HeldOf(neat: bool, readable: bool, ts: seq<Token>)
    requires AllOf(Held(neat, readable), ts)
    ensures (neat ==> forall i :: 0 <= i < |ts| ==> Neat(ts[i]))
            && (readable ==> forall i :: 0 <= i < |ts| ==> Tame(ts[i]))
    ensures readable ==> AllOf(Whole, ts)
  {
    hide Neat, Tame, Whole;
  }

  /** Reading the file at the place of each visit gives what was said during it. */
  ghost predicate ReadsBack(text: string, deeds: seq<Deed>, places: seq<int>) {
    && |places| == |deeds|
    && (forall filter :: ReadText(text, NONE, filter) == Lines(ActsOf(deeds), filter))
    && (forall i :: 0 <= i < |deeds| && Visits(deeds[i]) ==> 0 < places[i] <= |text|)
    && (forall i, filter :: 0 <= i < |deeds| && Visits(deeds[i]) ==>
          ReadText(text[places[i]..], NONE, filter) == Lines(ActsOf(deeds[i + 1..]), filter))
  }

  lemma KeptReadsBack(log: seq<Token>, deeds: seq<Deed>, marks: seq<nat>, places: seq<int>)
    requires Kept(log, deeds, |deeds|, marks, places) && PlaceAfter(log, Prologue) != Broken
    requires forall i :: 0 <= i < |log| ==> Tame(log[i])
    ensures ReadsBack(Render(log), deeds, places)
  {
    hide Kept, Visits, Render, ReadText, Lines, ActsOf, Tame, PlaceAfter;
    KeptSize(log, deeds, marks, places);
    forall filter ensures ReadText(Render(log), NONE, filter) == Lines(ActsOf(deeds), filter) {
      StartReadsBack(log, deeds, marks, places, filter);
    }
    forall i | 0 <= i < |deeds| && Visits(deeds[i]) ensures 0 < places[i] <= |Render(log)| {
      VisitReadsBack(log, deeds, marks, places, i, None);
    }
    forall i, filter | 0 <= i < |deeds| && Visits(deeds[i])
      ensures ReadText(Render(log)[places[i]..], NONE, filter) == Lines(ActsOf(deeds[i + 1..]), filter)
    {
      VisitReadsBack(log, deeds, marks, places, i, filter);
    }
  }

  lemma KeptSize(log: seq<Token>, deeds: seq<Deed>, marks: seq<nat>, places: seq<int>)
    requires Kept(log, deeds, |deeds|, marks, places)
    ensures |places| == |deeds|
  {
  }

  lemma StartReadsBack(log: seq<Token>, deeds: seq<Deed>, marks: seq<nat>, places: seq<int>, filter: Option<string>)
    requires Kept(log, deeds, |deeds|, marks, places) && PlaceAfter(log, Prologue) != Broken
    requires forall i :: 0 <= i < |log| ==> Tame(log[i])
    ensures ReadText(Render(log), NONE, filter) == Lines(ActsOf(deeds), filter)
  {
    hide Tells, Visits, Render, ReadText, Lines, ActsOf, Tame, PlaceAfter;
    assert deeds[0..|deeds|] == deeds && Marked(deeds, 0);
    MarkRead(log, 0, deeds, filter);
    assert log[..0] == [] && Render([]) == [] by { EmptyFile(); }
    assert Render(log)[0..] == Render(log);
  }

  lemma VisitReadsBack(log: seq<Token>, deeds: seq<Deed>, marks: seq<nat>, places: seq<int>, i: nat,
                       filter: Option<string>)
    requires Kept(log, deeds, |deeds|, marks, places) && PlaceAfter(log, Prologue) != Broken
    requires (forall i :: 0 <= i < |log| ==> Tame(log[i])) && i < |deeds| && Visits(deeds[i])
    ensures i < |places| && 0 < places[i] <= |Render(log)|
    ensures ReadText(Render(log)[places[i]..], NONE, filter) == Lines(ActsOf(deeds[i + 1..]), filter)
  {
    hide Tells, Visits, Render, ReadText, Lines, ActsOf, Tame, PlaceAfter;
    assert Marked(deeds, i + 1) && deeds[i + 1..|deeds|] == deeds[i + 1..];
    MarkRead(log, marks[i + 1], deeds[i + 1..], filter);
    VisitIsInside(log, marks[i + 1]);
  }

  lemma VisitIsInside(log: seq<Token>, n: nat)
    requires 0 < n <= |log|
    ensures |Render(log[..n])| > 0
  {
    LineEnds(log[n - 1]);
    assert log[..n][n - 1] == log[n - 1];
  }

  lemma LineEnds(t: Token)
    ensures |TokenText(t)| > 0
  {
  }

  lemma MarkRead(log: seq<Token>, n: nat, deeds: seq<Deed>, filter: Option<string>)
    requires Tells(log, n, deeds) && PlaceAfter(log, Prologue) != Broken && forall i :: 0 <= i < |log| ==> Tame(log[i])
    ensures n <= |log| && |Render(log[..n])| <= |Render(log)|
    ensures ReadText(Render(log)[|Render(log[..n])|..], NONE, filter) == Lines(ActsOf(deeds), filter)
  {
    hide Render, ReadText, Lines, ActsOf, Tame, PlaceAfter, Starts, Written;
    CaseReadBack(log, n, filter);
  }

  /**
    Write a run to a file. Whatever the order of the visits, the file is a balanced document when the
    strings written are neat, and it reads back what was said when they are readable.
   */
  method WriteRun(out: Output, deeds: seq<Deed>, setting: Setting, root: TreeObject,
                  ghost objs: set<TreeObject>, ghost up: map<TreeObject, seq<TreeObject>>)
    returns (places: seq<int>)
    requires out.Valid(objs, root, up) && !out.isOpen && out.name != None
    requires forall i :: 0 <= i < |deeds| ==> Possible(objs, deeds[i])
    modifies out
    ensures out.Valid(objs, root, up) && !out.isOpen
    ensures Allows(Neat, objs, setting, deeds) ==> Balanced(out.text)
    ensures Allows(Readable, objs, setting, deeds) ==> NoNul(out.text) && ReadsBack(out.text, deeds, places)
  {
    hide *;
    ghost var neat, readable := Allows(Neat, objs, setting, deeds), Allows(Readable, objs, setting, deeds);
    HeldAllowed(neat, readable, objs, setting, deeds);
    ghost var marks;
    places, marks := WriteTokens(out, deeds, setting, root, Held(neat, readable), objs, up);
    HeldOf(neat, readable, out.log);
    if neat {
      ClosedIsBalanced(out.log);
    }
    if readable {
      WholeFile(out.log);
      KeptReadsBack(out.log, deeds, marks, places);
    }
  }

  /** Write a run to a file, and read back the texts of one of its visits, or those before the first one. */
  method WriteAndRead(out: Output, deeds: seq<Deed>, setting: Setting, root: TreeObject, visit: Option<nat>,
                      filter: Option<string>,
                      ghost objs: set<TreeObject>, ghost up: map<TreeObject, seq<TreeObject>>)
    returns (texts: seq<(int, string)>)
    requires out.Valid(objs, root, up) && !out.isOpen && out.name != None
    requires forall i :: 0 <= i < |deeds| ==> Possible(objs, deeds[i])
    requires Allows(Readable, objs, setting, deeds)
    requires visit.Some? ==> visit.value < |deeds| && Visits(deeds[visit.value])
    modifies out
    ensures texts == Lines(ActsOf(if visit == None then deeds else deeds[visit.value + 1..]), filter)
  {
    hide Rooted, Allows, Readable, ReadText, Lines, ActsOf, NoNul;
    var places := WriteRun(out, deeds, setting, root, objs, up);
    match visit {
      case None => texts := ReadCase(out.text, None, filter);
      case Some(i) =>
        var place: nat := places[i];
        texts := ReadCase(out.text, Some(place), filter);
    }
  }
}
