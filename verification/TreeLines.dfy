/**
  The lines of the tree files and the directives of the test scripts: what they describe, and
  what is wrong with them (core/codegen/codegen_tree_scan.c).
 */
module TreeLines {
  import opened Shapes
  import opened TestTree

  /** The argument of a CRITICITY directive; level 0 is no criticity at all. */
  datatype Level = Missing | Unknown | Known(level: nat)

  /** A directive of a script; the list of a precondition that is not well formed is `None`. */
  datatype Directive =
    | Precondition(list: Option<seq<Precond>>)
    | Criticity(arg: Level)
    | BreakIfFailed
    | AbortIfFailed
    | Note

  /** What the directives of a script set of its test case. */
  datatype CaseInfo = CaseInfo(preconds: seq<Precond>, breakIfFailed: bool, abortIfFailed: bool, criticity: int)

  const NO_INFO := CaseInfo([], false, false, 0)

  /**
    A line of a tree file: a script, a directory with the lines of its own file, a name that is neither,
    a SYSTEM directive, or nothing that matters.
   */
  datatype Line =
    | Script(name: string, packaged: bool, directives: seq<Directive>)
    | Branch(name: string, lines: seq<Line>)
    | Lost(name: string)
    | System(name: string)
    | Other

  // ----- directives -----

  function Obey(info: CaseInfo, d: Directive): CaseInfo {
    match d
    case Precondition(None) => info.(preconds := [])
    case Precondition(Some(list)) => info.(preconds := info.preconds + list)
    case Criticity(Known(level)) => if info.criticity == 0 then info.(criticity := level) else info
    case Criticity(_) => info
    case BreakIfFailed => info.(breakIfFailed := true)
    case AbortIfFailed => info.(abortIfFailed := true)
    case Note => info
  }

  function DirectiveErrors(name: string, info: CaseInfo, d: Directive): seq<TreeError> {
    match d
    case Precondition(None) => [PrecondSyntax(name)]
    case Criticity(Missing) => [MissingCriticity(name)]
    case Criticity(arg) =>
      if info.criticity != 0 then [MultipleCriticity(name)] else if arg == Unknown then [UnknownCriticity(name)] else []
    case _ => []
  }

  /** What the directives of a script come to, and the errors among them. */
  function InfoOf(ds: seq<Directive>): CaseInfo {
    if ds == [] then NO_INFO else Obey(InfoOf(ds[..|ds| - 1]), ds[|ds| - 1])
  }

  function ScriptErrors(name: string, ds: seq<Directive>): seq<TreeError> {
    if ds == [] then [] else
      ScriptErrors(name, ds[..|ds| - 1]) + DirectiveErrors(name, InfoOf(ds[..|ds| - 1]), ds[|ds| - 1])
  }

  predicate SetsLevel(d: Directive) {
    d.Criticity? && d.arg.Known? && d.arg.level > 0
  }

  /** Preconditions are well formed, criticities are known, and none comes after one that sets a level. */
  predicate Proper(ds: seq<Directive>) {
    && (forall k :: 0 <= k < |ds| ==>
          (ds[k].Precondition? ==> ds[k].list != None) && (ds[k].Criticity? ==> ds[k].arg.Known?))
    && (forall i, k :: 0 <= i < k < |ds| && SetsLevel(ds[i]) ==> !ds[k].Criticity?)
  }

  lemma {:induction false} LevelSet(ds: seq<Directive>)
    ensures InfoOf(ds).criticity != 0 <==> exists k :: 0 <= k < |ds| && SetsLevel(ds[k])
  {
    if ds != [] {
      var front, last := ds[..|ds| - 1], ds[|ds| - 1];
      LevelSet(front);
      assert ds == front + [last];
      assert InfoOf(ds).criticity != 0 <==> InfoOf(front).criticity != 0 || SetsLevel(last);
    }
  }

  lemma NoDirectiveErrors(name: string, info: CaseInfo, d: Directive)
    ensures DirectiveErrors(name, info, d) == [] <==>
              && (d.Precondition? ==> d.list != None) && (d.Criticity? ==> d.arg.Known? && info.criticity == 0)
  {
  }

  lemma ProperNext(front: seq<Directive>, last: Directive)
    ensures Proper(front + [last]) <==>
              && Proper(front) && (last.Precondition? ==> last.list != None) && (last.Criticity? ==> last.arg.Known?)
              && (last.Criticity? ==> forall k :: 0 <= k < |front| ==> !SetsLevel(front[k]))
  {
    hide SetsLevel;
    var ds := front + [last];
    assert ds[|front|] == last && forall k :: 0 <= k < |front| ==> ds[k] == front[k];
  }

  lemma {:induction false} NoScriptErrors(name: string, ds: seq<Directive>)
    ensures ScriptErrors(name, ds) == [] <==> Proper(ds)
  {
    if ds != [] {
      hide DirectiveErrors, InfoOf, SetsLevel, Proper;
      var front, last := ds[..|ds| - 1], ds[|ds| - 1];
      NoScriptErrors(name, front);
      LevelSet(front);
      NoDirectiveErrors(name, InfoOf(front), last);
      ProperNext(front, last);
      assert ds == front + [last];
    }
  }

  lemma NoDirectives(name: string, ds: seq<Directive>)
    ensures InfoOf(ds[..0]) == NO_INFO && ScriptErrors(name, ds[..0]) == []
  {
  }

  lemma DirectiveNext(name: string, ds: seq<Directive>, i: nat)
    requires i < |ds|
    ensures InfoOf(ds[..i + 1]) == Obey(InfoOf(ds[..i]), ds[i])
    ensures ScriptErrors(name, ds[..i + 1])
            == ScriptErrors(name, ds[..i]) + DirectiveErrors(name, InfoOf(ds[..i]), ds[i])
  {
    hide Obey, DirectiveErrors;
    assert ds[..i + 1][..i] == ds[..i];
  }

  // ----- lines -----

  /** The system of a tree: the first one that its root file gives. */
  function SystemOf(lines: seq<Line>): Option<string> {
    if lines == [] then None else
      var before := SystemOf(lines[..|lines| - 1]);
      if before != None || !lines[|lines| - 1].System? then before else Some(lines[|lines| - 1].name)
  }

  /** The errors of a line; `given` when the root file, whose line it is, has given a system before. */
  function LineErrors(line: Line, given: bool): seq<TreeError> {
    match line
    case Script(name, packaged, ds) => (if packaged then [] else [NoPackage(name)]) + ScriptErrors(name, ds)
    case Branch(_, lines) => FileErrors(lines, false)
    case Lost(name) => [NoScriptFile(name), NoValidObject(name)]
    case System(name) => if given then [MultipleSystem(name)] else []
    case Other => []
  }

  /** The errors of the lines of a file, which may be that of the root. */
  function FileErrors(lines: seq<Line>, root: bool): seq<TreeError> {
    if lines == [] then [] else
      FileErrors(lines[..|lines| - 1], root)
      + LineErrors(lines[|lines| - 1], root && SystemOf(lines[..|lines| - 1]) != None)
  }

  predicate ProperLine(line: Line) {
    match line
    case Script(_, packaged, ds) => packaged && Proper(ds)
    case Branch(_, lines) => forall i :: 0 <= i < |lines| ==> ProperLine(lines[i])
    case Lost(_) => false
    case _ => true
  }

  /** All that the files name is there, scripts have a package and proper directives, and there is at most one system. */
  predicate ProperFiles(lines: seq<Line>) {
    && (forall i :: 0 <= i < |lines| ==> ProperLine(lines[i]))
    && (forall i, j :: 0 <= i < j < |lines| ==> !(lines[i].System? && lines[j].System?))
  }

  lemma {:induction false} NoLineErrors(line: Line)
    ensures LineErrors(line, false) == [] <==> ProperLine(line)
    decreases line, 0
  {
    match line {
      case Script(name, _, ds) => NoScriptErrors(name, ds);
      case Branch(_, lines) => NoBranchErrors(lines);
      case _ =>
    }
  }

  lemma {:induction false} NoBranchErrors(lines: seq<Line>)
    ensures FileErrors(lines, false) == [] <==> forall i :: 0 <= i < |lines| ==> ProperLine(lines[i])
    decreases lines, 0
  {
    if lines != [] {
      var front, last := lines[..|lines| - 1], lines[|lines| - 1];
      NoBranchErrors(front);
      NoLineErrors(last);
      assert lines == front + [last];
    }
  }

  lemma {:induction false} SystemGiven(lines: seq<Line>)
    ensures SystemOf(lines) != None <==> exists i :: 0 <= i < |lines| && lines[i].System?
  {
    if lines != [] {
      var front, last := lines[..|lines| - 1], lines[|lines| - 1];
      SystemGiven(front);
      assert lines == front + [last];
    }
  }

  /** The files of a tree are scanned without error exactly when they are proper. */
  lemma {:induction false} NoFileErrors(lines: seq<Line>)
    ensures FileErrors(lines, true) == [] <==> ProperFiles(lines)
  {
    if lines != [] {
      var front, last := lines[..|lines| - 1], lines[|lines| - 1];
      NoFileErrors(front);
      SystemGiven(front);
      NoLineErrors(last);
      assert lines == front + [last];
    }
  }

  // ----- the table -----

  /** A line of the item table: the name, the kind, the names of the slots, and what directives have set. */
  datatype Row = Row(name: string, kind: Kind, slots: seq<string>, info: CaseInfo)

  /** The lines of the table that a line of a file stands for; an empty directory stands for none. */
  function ListLine(line: Line): seq<Row> {
    match line
    case Script(name, _, ds) => [Row(name, Case, [], InfoOf(ds))]
    case Branch(name, lines) =>
      if ListLines(lines) == [] then [] else [Row(name, Seq, FedLines(lines), NO_INFO)] + ListLines(lines)
    case _ => []
  }

  function ListLines(lines: seq<Line>): seq<Row> {
    if lines == [] then [] else ListLines(lines[..|lines| - 1]) + ListLine(lines[|lines| - 1])
  }

  /** The names of the slots that the lines of a file stand for. */
  function FedLine(line: Line): seq<string> {
    match line
    case Script(name, _, _) => [name]
    case Branch(name, lines) => if ListLines(lines) == [] then [] else [name]
    case _ => []
  }

  function FedLines(lines: seq<Line>): seq<string> {
    if lines == [] then [] else FedLines(lines[..|lines| - 1]) + FedLine(lines[|lines| - 1])
  }

  /** The table of a tree, from the name and the lines of its root file. */
  function FileTable(name: string, lines: seq<Line>): seq<Row> {
    [Row(name, Seq, FedLines(lines), NO_INFO)] + ListLines(lines)
  }

  predicate NamesApart(rows: seq<Row>) {
    forall x, y :: 0 <= x < y < |rows| ==> rows[x].name != rows[y].name
  }

  predicate HasCase(rows: seq<Row>, name: string) {
    exists y :: 0 <= y < |rows| && rows[y].kind == Case && rows[y].name == name
  }

  predicate CasesNamed(rows: seq<Row>) {
    forall x, k :: 0 <= x < |rows| && rows[x].kind == Case && 0 <= k < |rows[x].info.preconds| ==>
      HasCase(rows, rows[x].info.preconds[k].name)
  }

  /** No two items have the same name, and preconditions name test cases. */
  predicate ProperTable(rows: seq<Row>) {
    NamesApart(rows) && CasesNamed(rows)
  }
}
