/**
  What the files of a test suite say, in their own words: what the directives of a script set, which scripts and
  directories there are, what preconditions are given, and which errors there are. What scanning makes of the
  lines is all told from that (core/codegen/codegen_tree_scan.c, core/codegen/codegen_tree_precond.c).
 */
module SuiteText {
  import opened Shapes
  import opened TestTree
  import opened TreeLines

  // ----- directives -----

  function ListOf(d: Directive): seq<Precond> {
    match d
    case Precondition(Some(list)) => list
    case _ => []
  }

  /** The lists of all preconditions, one after the other. */
  function AllLists(ds: seq<Directive>): seq<Precond> {
    if ds == [] then [] else AllLists(ds[..|ds| - 1]) + ListOf(ds[|ds| - 1])
  }

  /** The last malformed list of preconditions is just before place `m`; there is none when that is the start. */
  predicate AfterMalformed(ds: seq<Directive>, m: int) {
    && 0 <= m <= |ds| && (m > 0 ==> ds[m - 1] == Precondition(None))
    && forall k :: m <= k < |ds| ==> ds[k] != Precondition(None)
  }

  predicate FirstLevel(ds: seq<Directive>, k: int) {
    0 <= k < |ds| && SetsLevel(ds[k]) && forall i :: 0 <= i < k ==> !SetsLevel(ds[i])
  }

  /** What directives tell of a test case. */
  ghost predicate Told(ds: seq<Directive>, info: CaseInfo) {
    && (info.breakIfFailed <==> BreakIfFailed in ds)
    && (info.abortIfFailed <==> AbortIfFailed in ds)
    && (forall m :: AfterMalformed(ds, m) ==> info.preconds == AllLists(ds[m..]))
    && (forall k :: FirstLevel(ds, k) ==> info.criticity == ds[k].arg.level)
    && ((forall k :: 0 <= k < |ds| ==> !SetsLevel(ds[k])) ==> info.criticity == 0)
  }

  lemma {:induction false} InfoTold(ds: seq<Directive>)
    ensures Told(ds, InfoOf(ds))
  {
    hide Told, Obey;
    if ds == [] {
      NothingTold();
    } else {
      var front, last := ds[..|ds| - 1], ds[|ds| - 1];
      InfoTold(front);
      LevelSet(front);
      assert ds == front + [last];
      ToldNext(front, last, InfoOf(front));
    }
  }

  lemma NothingTold()
    ensures Told([], NO_INFO)
  {
  }

  lemma {:induction false} ToldNext(front: seq<Directive>, last: Directive, info: CaseInfo)
    requires Told(front, info) && (info.criticity != 0 <==> exists k :: 0 <= k < |front| && SetsLevel(front[k]))
    ensures Told(front + [last], Obey(info, last))
  {
    ListsNext(front, last, info);
    LevelNext(front, last, info);
  }

  lemma {:induction false} ListsNext(front: seq<Directive>, last: Directive, info: CaseInfo)
    requires forall m :: AfterMalformed(front, m) ==> info.preconds == AllLists(front[m..])
    ensures forall m :: AfterMalformed(front + [last], m) ==>
              Obey(info, last).preconds == AllLists((front + [last])[m..])
  {
    var ds := front + [last];
    forall m | AfterMalformed(ds, m) ensures Obey(info, last).preconds == AllLists(ds[m..]) {
      if m == |ds| {
        assert ds[|front|] == Precondition(None) && ds[m..] == [];
      } else {
        assert ds[|front|] != Precondition(None);
        assert forall k :: 0 <= k < |front| ==> ds[k] == front[k];
        assert AfterMalformed(front, m);
        assert ds[m..][..|ds[m..]| - 1] == front[m..];
      }
    }
  }

  lemma {:induction false} LevelNext(front: seq<Directive>, last: Directive, info: CaseInfo)
    requires info.criticity != 0 <==> exists k :: 0 <= k < |front| && SetsLevel(front[k])
    requires forall k :: FirstLevel(front, k) ==> info.criticity == front[k].arg.level
    ensures forall k :: FirstLevel(front + [last], k) ==> Obey(info, last).criticity == (front + [last])[k].arg.level
    ensures var ds := front + [last];
            (forall k :: 0 <= k < |ds| ==> !SetsLevel(ds[k])) ==> Obey(info, last).criticity == 0
  {
    var ds := front + [last];
    assert ds[|front|] == last && forall k :: 0 <= k < |front| ==> ds[k] == front[k];
    forall k | FirstLevel(ds, k) ensures Obey(info, last).criticity == ds[k].arg.level {
      if k < |front| {
        assert FirstLevel(front, k);
      }
    }
  }

  /** What is told of a test case is all that its directives set. */
  lemma {:induction false} ToldOnce(ds: seq<Directive>, a: CaseInfo, b: CaseInfo)
    requires Told(ds, a) && Told(ds, b)
    ensures a == b
  {
    var m := LastMalformed(ds);
    if exists k :: 0 <= k < |ds| && SetsLevel(ds[k]) {
      var k := FirstSet(ds);
    }
  }

  lemma {:induction false} LastMalformed(ds: seq<Directive>) returns (m: nat)
    ensures AfterMalformed(ds, m)
  {
    m := |ds|;
    while m > 0 && ds[m - 1] != Precondition(None)
      invariant m <= |ds| && forall k :: m <= k < |ds| ==> ds[k] != Precondition(None)
    {
      m := m - 1;
    }
  }

  lemma {:induction false} FirstSet(ds: seq<Directive>) returns (k: nat)
    requires exists k :: 0 <= k < |ds| && SetsLevel(ds[k])
    ensures FirstLevel(ds, k)
  {
    k := 0;
    while !SetsLevel(ds[k])
      invariant k < |ds| && forall i :: 0 <= i < k ==> !SetsLevel(ds[i])
      decreases |ds| - k
    {
      k := k + 1;
    }
  }

  /** The errors of the directives of a script are those of each in turn. */
  lemma {:induction false} DirectiveErrorsAt(name: string, ds: seq<Directive>, k: nat)
    requires k < |ds|
    ensures ScriptErrors(name, []) == []
    ensures ScriptErrors(name, ds[..k + 1]) == ScriptErrors(name, ds[..k]) +
              match ds[k]
              case Precondition(None) => [PrecondSyntax(name)]
              case Criticity(Missing) => [MissingCriticity(name)]
              case Criticity(arg) =>
                if exists i :: 0 <= i < k && SetsLevel(ds[i]) then [MultipleCriticity(name)]
                else if arg == Unknown then [UnknownCriticity(name)] else []
              case _ => []
  {
    DirectiveNext(name, ds, k);
    LevelSet(ds[..k]);
    assert forall i :: 0 <= i < k ==> ds[..k][i] == ds[i];
  }

  // ----- lines -----

  /** The system of a tree is the one of the first line that gives one. */
  lemma {:induction false} SystemIs(lines: seq<Line>)
    ensures (forall i :: 0 <= i < |lines| ==> !lines[i].System?) ==> SystemOf(lines) == None
    ensures forall i :: 0 <= i < |lines| && lines[i].System? && (forall j :: 0 <= j < i ==> !lines[j].System?) ==>
              SystemOf(lines) == Some(lines[i].name)
  {
    if lines != [] {
      var front, last := lines[..|lines| - 1], lines[|lines| - 1];
      SystemIs(front);
      SystemGiven(front);
      assert lines == front + [last];
    }
  }

  /** The errors of a file are those of each line in turn. */
  lemma {:induction false} LineErrorsAt(lines: seq<Line>, root: bool, k: nat)
    requires k < |lines|
    ensures FileErrors([], root) == []
    ensures FileErrors(lines[..k + 1], root) == FileErrors(lines[..k], root) +
              match lines[k]
              case Script(name, true, ds) => ScriptErrors(name, ds)
              case Script(name, false, ds) => [NoPackage(name)] + ScriptErrors(name, ds)
              case Branch(_, inner) => FileErrors(inner, false)
              case Lost(name) => [NoScriptFile(name), NoValidObject(name)]
              case System(name) =>
                if root && exists i :: 0 <= i < k && lines[i].System? then [MultipleSystem(name)] else []
              case Other => []
  {
    SystemGiven(lines[..k]);
    assert lines[..k + 1][..k] == lines[..k];
    assert forall i :: 0 <= i < k ==> lines[..k][i] == lines[i];
  }

  /** The lines of all scripts, in the order of the files. */
  function Scripts(lines: seq<Line>): (r: seq<Line>)
    ensures forall k :: 0 <= k < |r| ==> r[k].Script?
  {
    if lines == [] then [] else Scripts(lines[..|lines| - 1]) + LineScripts(lines[|lines| - 1])
  }

  function LineScripts(line: Line): (r: seq<Line>)
    ensures forall k :: 0 <= k < |r| ==> r[k].Script?
  {
    match line
    case Script(_, _, _) => [line]
    case Branch(_, lines) => Scripts(lines)
    case _ => []
  }

  /** The names of all scripts, and of the directories that hold some; a directory comes before what it holds. */
  function TableNames(lines: seq<Line>): seq<string> {
    if lines == [] then [] else TableNames(lines[..|lines| - 1]) + TableName(lines[|lines| - 1])
  }

  function TableName(line: Line): seq<string> {
    match line
    case Script(name, _, _) => [name]
    case Branch(name, lines) => if Scripts(lines) == [] then [] else [name] + TableNames(lines)
    case _ => []
  }

  predicate AllDifferent(names: seq<string>) {
    forall x, y :: 0 <= x < y < |names| ==> names[x] != names[y]
  }

  predicate IsScript(scripts: seq<Line>, name: string) {
    exists y :: 0 <= y < |scripts| && scripts[y].Script? && scripts[y].name == name
  }

  /** The names are all different, and every precondition of a script names a script. */
  predicate WellNamedFiles(name: string, lines: seq<Line>) {
    && AllDifferent([name] + TableNames(lines))
    && forall s, c :: s in Scripts(lines) && s.Script? && c in AllLists(s.directives) ==>
         IsScript(Scripts(lines), c.name)
  }

  // ----- the table -----

  function RowNames(rows: seq<Row>): seq<string> {
    seq(|rows|, x requires 0 <= x < |rows| => rows[x].name)
  }

  /** The lines of the table that are test cases. */
  function CaseRows(rows: seq<Row>): seq<Row> {
    if rows == [] then [] else
      var last := rows[|rows| - 1];
      CaseRows(rows[..|rows| - 1]) + if last.kind == Case then [last] else []
  }

  /** The test case of a script has its name, and what is told of it. */
  ghost predicate StandFor(rows: seq<Row>, scripts: seq<Line>) {
    && |rows| == |scripts|
    && forall k :: 0 <= k < |rows| ==>
         scripts[k].Script? && rows[k].name == scripts[k].name && rows[k].kind == Case && rows[k].slots == []
         && Told(scripts[k].directives, rows[k].info)
  }

  lemma {:induction false} CasesJoined(a: seq<Row>, b: seq<Row>)
    ensures CaseRows(a + b) == CaseRows(a) + CaseRows(b)
  {
    if b == [] {
      assert a + b == a;
    } else {
      CasesJoined(a, b[..|b| - 1]);
      assert (a + b)[..|a + b| - 1] == a + b[..|b| - 1];
    }
  }

  lemma RowNamesJoined(a: seq<Row>, b: seq<Row>)
    ensures RowNames(a + b) == RowNames(a) + RowNames(b)
  {
  }

  lemma FewRows(row: Row)
    ensures RowNames([row]) == [row.name] && RowNames([]) == []
    ensures CaseRows([row]) == (if row.kind == Case then [row] else []) && CaseRows([]) == []
  {
    assert [row][..0] == [];
  }

  /** The table has a line for each name, in order, and its test cases stand for the scripts. */
  lemma {:induction false} RowsNamed(lines: seq<Line>)
    ensures RowNames(ListLines(lines)) == TableNames(lines)
    ensures StandFor(CaseRows(ListLines(lines)), Scripts(lines))
    ensures ListLines(lines) == [] <==> Scripts(lines) == []
    decreases lines, 1
  {
    hide ListLine, LineScripts, TableName, RowNames, CaseRows, Told;
    if lines == [] {
      FewRows(Row([], Case, [], NO_INFO));
    } else {
      var front, last := lines[..|lines| - 1], lines[|lines| - 1];
      RowsNamed(front);
      LineNamed(last);
      CasesJoined(ListLines(front), ListLine(last));
      RowNamesJoined(ListLines(front), ListLine(last));
    }
  }

  lemma {:induction false} LineNamed(line: Line)
    ensures RowNames(ListLine(line)) == TableName(line) && StandFor(CaseRows(ListLine(line)), LineScripts(line))
    ensures ListLine(line) == [] <==> LineScripts(line) == []
    decreases line, 0
  {
    hide ListLines, TableNames, Scripts, FedLines, CaseRows, InfoOf, RowNames, Told;
    FewRows(Row([], Case, [], NO_INFO));
    match line {
      case Script(name, _, ds) =>
        FewRows(ListLine(line)[0]);
        assert ListLine(line) == [ListLine(line)[0]];
        InfoTold(ds);
      case Branch(name, lines) =>
        RowsNamed(lines);
        BelowTop(Row(name, Seq, FedLines(lines), NO_INFO), ListLines(lines));
      case _ =>
    }
  }

  /** A sequence has a slot for each script and for each directory that holds one, in order. */
  lemma {:induction false} SlotsInTurn(lines: seq<Line>, k: nat)
    requires k < |lines|
    ensures FedLines([]) == []
    ensures FedLines(lines[..k + 1]) == FedLines(lines[..k]) +
              match lines[k]
              case Script(name, _, _) => [name]
              case Branch(name, inner) => if Scripts(inner) == [] then [] else [name]
              case _ => []
  {
    assert lines[..k + 1][..k] == lines[..k];
    if lines[k].Branch? {
      RowsNamed(lines[k].lines);
    }
  }

  lemma {:induction false} BelowTop(row: Row, rows: seq<Row>)
    requires row.kind == Seq
    ensures RowNames([row] + rows) == [row.name] + RowNames(rows) && CaseRows([row] + rows) == CaseRows(rows)
  {
    hide CaseRows;
    FewRows(row);
    CasesJoined([row], rows);
  }

  lemma {:induction false} CaseRowsAre(rows: seq<Row>, row: Row)
    ensures row in CaseRows(rows) <==> row in rows && row.kind == Case
  {
    if rows != [] {
      var front, last := rows[..|rows| - 1], rows[|rows| - 1];
      CaseRowsAre(front, row);
      assert rows == front + [last];
    }
  }

  /** A precondition names a test case of the table when it names a script. */
  lemma {:induction false} HasCaseIs(rows: seq<Row>, scripts: seq<Line>, name: string)
    requires StandFor(CaseRows(rows), scripts)
    ensures HasCase(rows, name) <==> IsScript(scripts, name)
  {
    hide CaseRows, Told;
    var cases := CaseRows(rows);
    if HasCase(rows, name) {
      var y :| 0 <= y < |rows| && rows[y].kind == Case && rows[y].name == name;
      CaseRowsAre(rows, rows[y]);
      var k :| 0 <= k < |cases| && cases[k] == rows[y];
      assert scripts[k].name == name;
    }
    if IsScript(scripts, name) {
      var y :| 0 <= y < |scripts| && scripts[y].Script? && scripts[y].name == name;
      CaseRowsAre(rows, cases[y]);
    }
  }

  lemma {:induction false} MalformedFree(ds: seq<Directive>, info: CaseInfo)
    requires Proper(ds) && Told(ds, info)
    ensures info.preconds == AllLists(ds)
  {
    assert AfterMalformed(ds, 0);
    assert ds[0..] == ds;
  }

  lemma {:induction false} CasesNamedIs(rows: seq<Row>, scripts: seq<Line>)
    requires StandFor(CaseRows(rows), scripts)
    requires forall s :: s in scripts ==> s.Script? && Proper(s.directives)
    ensures CasesNamed(rows) <==>
              forall s, c :: s in scripts && s.Script? && c in AllLists(s.directives) ==> IsScript(scripts, c.name)
  {
    hide CaseRows, Told, Proper, HasCase, IsScript, AllLists;
    var cases := CaseRows(rows);
    forall name ensures HasCase(rows, name) <==> IsScript(scripts, name) {
      HasCaseIs(rows, scripts, name);
    }
    forall k | 0 <= k < |cases| ensures cases[k].info.preconds == AllLists(scripts[k].directives) {
      MalformedFree(scripts[k].directives, cases[k].info);
    }
    forall row ensures row in cases <==> row in rows && row.kind == Case {
      CaseRowsAre(rows, row);
    }
    NamedInTurn(rows, scripts);
  }

  lemma {:induction false} NamedInTurn(rows: seq<Row>, scripts: seq<Line>)
    requires |CaseRows(rows)| == |scripts| && forall s :: s in scripts ==> s.Script?
    requires forall name :: HasCase(rows, name) <==> IsScript(scripts, name)
    requires forall k :: 0 <= k < |scripts| ==> CaseRows(rows)[k].info.preconds == AllLists(scripts[k].directives)
    requires forall row :: row in CaseRows(rows) <==> row in rows && row.kind == Case
    ensures CasesNamed(rows) <==>
              forall s, c :: s in scripts && s.Script? && c in AllLists(s.directives) ==> IsScript(scripts, c.name)
  {
    hide CaseRows, HasCase, IsScript, AllLists;
    var cases := CaseRows(rows);
    if CasesNamed(rows) {
      forall s, c | s in scripts && s.Script? && c in AllLists(s.directives) ensures IsScript(scripts, c.name) {
        var k :| 0 <= k < |scripts| && scripts[k] == s;
        assert cases[k] in cases;
        var x :| 0 <= x < |rows| && rows[x] == cases[k];
        var l :| 0 <= l < |rows[x].info.preconds| && rows[x].info.preconds[l] == c;
      }
    }
    if forall s, c :: s in scripts && s.Script? && c in AllLists(s.directives) ==> IsScript(scripts, c.name) {
      forall x, l | 0 <= x < |rows| && rows[x].kind == Case && 0 <= l < |rows[x].info.preconds|
        ensures HasCase(rows, rows[x].info.preconds[l].name)
      {
        assert rows[x] in cases;
        var k :| 0 <= k < |cases| && cases[k] == rows[x];
        assert scripts[k] in scripts;
      }
    }
  }

  lemma {:induction false} ScriptsProper(lines: seq<Line>)
    requires forall i :: 0 <= i < |lines| ==> ProperLine(lines[i])
    ensures forall s :: s in Scripts(lines) ==> s.Script? && Proper(s.directives)
  {
    hide Proper;
    if lines != [] {
      var last := lines[|lines| - 1];
      assert ProperLine(last);
      ScriptsProper(lines[..|lines| - 1]);
      if last.Branch? {
        ScriptsProper(last.lines);
      }
    }
  }

  lemma ApartIsDifferent(rows: seq<Row>)
    ensures NamesApart(rows) <==> AllDifferent(RowNames(rows))
  {
    var names := RowNames(rows);
    assert |names| == |rows| && forall x :: 0 <= x < |rows| ==> names[x] == rows[x].name;
    if NamesApart(rows) {
      forall x, y | 0 <= x < y < |names| ensures names[x] != names[y] {
        assert rows[x].name != rows[y].name;
      }
    }
    if AllDifferent(names) {
      forall x, y | 0 <= x < y < |rows| ensures rows[x].name != rows[y].name {
        assert names[x] != names[y];
      }
    }
  }

  /** The table of a tree, told from its files. */
  lemma {:induction false} TableIs(name: string, lines: seq<Line>)
    ensures RowNames(FileTable(name, lines)) == [name] + TableNames(lines)
    ensures StandFor(CaseRows(FileTable(name, lines)), Scripts(lines))
    ensures ListLines(lines) != [] <==> Scripts(lines) != []
  {
    hide ListLines, TableNames, Scripts, CaseRows, RowNames, StandFor;
    RowsNamed(lines);
    BelowTop(Row(name, Seq, FedLines(lines), NO_INFO), ListLines(lines));
  }

  /** The table of proper files is proper exactly when the files are well named. */
  lemma {:induction false} TableIsProper(name: string, lines: seq<Line>)
    requires ProperFiles(lines)
    ensures ProperTable(FileTable(name, lines)) <==> WellNamedFiles(name, lines)
  {
    hide CasesNamed, FileTable, TableNames, Scripts, CaseRows, StandFor, AllDifferent, NamesApart, RowNames, IsScript,
         ProperLine, Proper, AllLists;
    TableIs(name, lines);
    ScriptsProper(lines);
    CasesNamedIs(FileTable(name, lines), Scripts(lines));
    ApartIsDifferent(FileTable(name, lines));
  }
}
