/**
  The objects of a test tree, as the tree loader builds and updates them
  (core/codegen/codegen_tree.h).
 */
module TestTree {
  import opened Graphs
  import opened Shapes

  datatype Verdict = Unexecuted | Passed | Failed | Inconclusive | Skip | Executed

  datatype Kind = Case | Seq

  /** One comparison of a precondition list: the verdict must (not) be `value`; `name` is that of a test case. */
  datatype Precond = Precond(name: string, neq: bool, value: Verdict)

  /** What a verdict makes of the run: only a bad verdict breaks or aborts it. */
  function OutcomeOf(verdict: Verdict, breakIfFailed: bool, abortIfFailed: bool): Outcome {
    if verdict != Failed && verdict != Inconclusive then GoOn
    else if abortIfFailed then Abort
    else if breakIfFailed then Break
    else GoOn
  }

  datatype TreeError =
    | NoScriptFile(name: string)
    | NoValidObject(name: string)
    | NoPackage(name: string)
    | PrecondSyntax(name: string)
    | MissingCriticity(name: string)
    | UnknownCriticity(name: string)
    | MultipleCriticity(name: string)
    | MultipleSystem(name: string)
    | MissingScript(name: string)
    | NotACase(name: string, precond: string)
    | MultipleReference(name: string)
    | TargetIsRoot(name: string)
    | Unresolved(name: string)
    | LinkedFromNowhere(name: string)
    | NoTreeNode
    | CircularLink(name: string, through: string)

  /** An entry of the item table, or a child slot of a sequence. */
  class TreeItem {
    const name: string
    const lineno: int
    var obj: TreeObject?
    var links: nat

    constructor (name: string, lineno: int, obj: TreeObject?)
      ensures this.name == name && this.lineno == lineno && this.obj == obj && links == 0
    {
      this.name, this.lineno, this.obj, links := name, lineno, obj, 0;
    }
  }

  /** A test case or a test sequence; `name` is the name of its item in the table. */
  class TreeObject {
    const kind: Kind
    const key: nat
    const name: string
    const hasScript: bool
    const preconds: seq<Precond>
    const breakIfFailed: bool
    const abortIfFailed: bool
    const criticity: int
    var nodes: seq<TreeItem?>
    var parentSeq: TreeObject?
    var endJump: TreeObject?
    var breakJump: TreeObject?
    var enter: nat
    var forceSkip: bool
    var breakpoint: nat
    var verdict: Verdict
    var verdictCriticity: int
    var execCount: nat

    constructor (kind: Kind, key: nat, name: string, hasScript: bool, preconds: seq<Precond>,
                 breakIfFailed: bool, abortIfFailed: bool, criticity: int, nodes: seq<TreeItem?>)
      ensures this.kind == kind && this.key == key && this.name == name && this.hasScript == hasScript
      ensures this.preconds == preconds && this.nodes == nodes
      ensures this.breakIfFailed == breakIfFailed && this.abortIfFailed == abortIfFailed && this.criticity == criticity
      ensures parentSeq == null && endJump == null && breakJump == null && enter == 0
      ensures !forceSkip && breakpoint == 0 && verdict == Unexecuted && verdictCriticity == 0 && execCount == 0
    {
      this.kind, this.key, this.name, this.hasScript, this.preconds := kind, key, name, hasScript, preconds;
      this.breakIfFailed, this.abortIfFailed, this.criticity, this.nodes := breakIfFailed, abortIfFailed, criticity,
        nodes;
      parentSeq, endJump, breakJump, enter := null, null, null, 0;
      forceSkip, breakpoint, verdict, verdictCriticity, execCount := false, 0, Unexecuted, 0, 0;
    }
  }

  class Tree {
    var items: seq<TreeItem>
    var head: TreeItem?
    var stack: seq<TreeObject>
    var errors: seq<TreeError>
    var keycount: nat
    var system: Option<string>

    constructor (items: seq<TreeItem>, head: TreeItem?)
      ensures this.items == items && this.head == head && stack == [] && errors == [] && keycount == 1 && system == None
    {
      this.items, this.head, stack, errors, keycount, system := items, head, [], [], 1, None;
    }
  }

  // ----- the names of items -----

  ghost function Names(items: seq<TreeItem>): (r: seq<string>)
    ensures |r| == |items|
  {
    seq(|items|, i requires 0 <= i < |items| => items[i].name)
  }

  /** The place of the first of the names that is `name`; -1 when there is none. */
  function IndexOf(names: seq<string>, name: string): (r: int)
    ensures r == -1 || (0 <= r < |names| && names[r] == name)
    ensures forall i :: 0 <= i < |names| && (r == -1 || i < r) ==> names[i] != name
  {
    if names == [] then -1
    else if names[0] == name then 0
    else
      var r := IndexOf(names[1..], name);
      if r == -1 then -1 else r + 1
  }

  // ----- the objects of a tree, by key -----

  /** The objects of a tree, each identified by its key, and the child slots they may hold. */
  datatype Universe = Universe(objs: set<TreeObject>, at: map<nat, TreeObject>, slots: set<TreeItem>)

  ghost predicate WellKeyed(u: Universe) {
    && (forall k :: k in u.at ==> u.at[k] in u.objs && u.at[k].key == k)
    && (forall o :: o in u.objs ==> o.key in u.at && u.at[o.key] == o)
  }

  ghost function SlotsOf(o: TreeObject): set<TreeItem>
    reads o`nodes
  {
    set s: TreeItem | s in o.nodes
  }

  /** Every link of an object of `u` leads into `u`; test cases have no links. */
  ghost predicate ClosedUnder(u: Universe)
    reads u.objs`nodes, u.slots`obj
  {
    && WellKeyed(u)
    && (forall o :: o in u.objs ==> SlotsOf(o) <= u.slots)
    && (forall s :: s in u.slots && s.obj != null ==> s.obj in u.objs)
    && (forall o :: o in u.objs && o.kind == Case ==> o.nodes == [])
  }

  ghost function Children(u: Universe, o: TreeObject): set<nat>
    reads o`nodes, u.slots`obj
  {
    set s | s in SlotsOf(o) && s in u.slots && s.obj != null :: s.obj.key
  }

  /** The link graph of the objects in `u`. */
  ghost function LinkGraph(u: Universe): Graph
    reads u.objs`nodes, u.slots`obj
  {
    map k | k in u.at && u.at[k] in u.objs :: Children(u, u.at[k])
  }

  lemma LinkGraphClosed(u: Universe)
    requires ClosedUnder(u)
    ensures Closed(LinkGraph(u))
  {
  }
}
