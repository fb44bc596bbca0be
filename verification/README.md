# TestFarm: verified models of its core

TestFarm loads a tree of test cases, executes it under user control, writes what happens to an XML
file, and waits for events on the equipment under test. This project models the parts of it that
work on linked objects, state machines, text buffers and counters, and proves what each of them is
for. `dafny verify dfyconfig.toml` checks all of it.

## The modules

- **Test tree** (`TestTree`, `TreeLines`, `SuiteText`, `Scanner`, `LinkPhase`, `CircularLinks`, `TreeLoad`, `Execution`,
  `TreeFile`): classes for items, objects and trees with the fields that the loader updates. The files are
  scanned into the item table, references and preconditions are resolved by name, lost and circular links are
  found, and the tree is threaded with its jumps. `Graphs`, `Unfolding` and `Shapes` hold the mathematics:
  reachability and cycles, links that unfold to a tree, the left-to-right order of cases. The main result is
  `LoadFile`, which composes all the steps: from the names, lines and directives of the files alone it says
  exactly when a tree loads, and what the loaded tree is; following its jumps is then walking it from left to
  right. `SuiteText` says what files and directives mean without the functions that the scanner follows.
- **Run control** (`RunModel`, `RunOrder`, `RunBooks`, `RunPace`, `RunControl`): `RunModel` is a state machine
  over numbered test cases. `RunPace` says of each action and reply, on the fields of the session, how far the
  run goes and what is sent on the way, and that a stepped run stops. There are theorems over every sequence
  of events in `RunOrder` (the states, the order of verdicts) and `RunBooks` (breakpoints, the entries of the
  log, execution counters). `RunControl.TestRun` is the object whose methods follow the jumps of a loaded
  tree, each proved to be a step of that machine.
- **Trigger expressions** (`CText`, `Expr`, `ExprEval`, `ExprMeaning`, `ExprCorrect`, `ExprGroup`, `Packing`,
  `Triggers`, `Listener`, `Wait`): the recursive parser that cuts a buffer in place and emits postfix items,
  the stack machine, what an expression means, and that the one computes the other; listeners over
  several arguments; trigger counters; the timed loop.
- **XML output** (`XmlText`, `XmlWriter`, `XmlBalance`, `XmlReader`, `XmlSession`, `XmlFilter`, `XmlRun`): the writer
  keeps a character file; a ghost log of tokens says what the characters stand for. `WriteRun` drives it
  through any run: the document is balanced on its characters, and reading back from the place returned for
  each visit of a case gives what was said during that visit.
- **Flags file** (`Flags`, `FlagLines`, `FlagsFile`, `FlagsTree`): saving flags as differences, parsing the
  file in place, what each line does to which objects, and the round trip, with the names for which it holds.
- **Log viewer** (`Deltas`, `LogView`): incremental time differences against a full computation, under any
  mixture of selections and filters.
- **History** (`History`) and **pipes** (`Pipe`).

## Where the code differs from what one would expect

- After a closing parenthesis the expression parser goes on inside the group, so `a&(b)|c` is compiled as
  `a&(b|c)` (`OrAfterGroup`). `GroupedValue` gives the value of any expression with one group, and
  `OrdinaryWhen` says exactly when it is the one that ordinary precedence would give. What stands between an
  operator and an opening parenthesis is dropped.
- One operator at the very end of an expression is ignored (`x&` is `x`), but inside a packed expression
  it is a syntax error. So listening to several arguments is not always the OR of listening to each;
  `PackedIsAny` says exactly when it is, and `PackingSpoils` gives a case where it is not.
- The preconditions of a case are evaluated on its own last verdict
  (core/codegen/codegen_tree_precond.c:187-208), not on those of the cases they name, though these must exist.
- A manual action is counted as an execution of the current case when another entry of the log is open, or none:
  the counter of a case can exceed the number of its requests (`CountsRequests`, `ActionCountsTwice`).
- A syntax error in one precondition list drops the lists read before it for the same case
  (core/codegen/codegen_tree_precond.c:144-148).
- Names, attributes, the operator and the release are written to the XML file without escaping. The operator
  name `a<b` spoils the file (`OperatorSpoils`), the name `a>b` does not; `FileTags` gives the exact condition,
  string by string. Reading back needs these strings on one line; the texts of a case may be anything.
- In the flags file a name with a blank or a `#`, an empty name and the name `*` lose their flags
  (`BlankSpoils`, `NameSpoils`); `RestoredWhen` says exactly which names are safe.
- The time differences of the log viewer use the presence of a difference as the mark of a selected row. On
  a log with missing or decreasing time stamps a selected row can lose its mark; `RightWhenOrdered` says
  exactly which logs are safe.
- An execution process that announces itself without a system definition starts the first case even when the
  run is to be stepped (`OnNoSystem`); with one, a stepped run waits first (`OnSystem`).
- A breakpoint is only counted as met once until the next reset, whatever the number of jumps back to
  its case; but a user who sets it again arms it again.

## Conventions

The C strings of the sources are character sequences without NUL, or arrays with a NUL at their end
where the code cuts them in place. Characters above 127 are negative for the C code, and so count as
blanks wherever it compares with a space. Arguments marked `ghost` are what the statements of a method
are about: the shape of the tree, the end of a string. A scanned tree (`ValidScan`) is what the scanner
builds, as `ScanRoot` proves: items with an object each, child slots with names and no object yet, no
empty sequence.

## Model

| member | source | states |
|---|---|---|
| `CircularLinks.ObjectCircular` | core/codegen/codegen_tree.c:483-506 | answers true exactly when, without going through an object already entered, a link path from the object comes back to an entered or repeated one; the stack gets the first such path, deepest object first; every `enter` counter is back to its value |
| `CircularLinks.SeqCircular` | core/codegen/codegen_tree.c:281-291 | the same over the slots of a sequence, in order: true exactly when one of its children hits an entered object, and then for the first that does |
| `CircularLinks.ItemCircular` | core/codegen/codegen_tree.c:726-737 | the same through a slot; the object behind a slot on the path is pushed after those deeper |
| `CircularLinks.ObjectUnlink` | core/codegen/codegen_tree.c:237-250 | exactly the slots that hold the target are cleared, all others keep their object |
| `CircularLinks.KillLink` | core/codegen/codegen_tree.c:395-408 | the link graph afterwards is the one before without that one edge |
| `CircularLinks.Search` | core/codegen/codegen_tree.c:920-922 | from the root the search is true exactly when a cycle can be reached from it |
| `CircularLinks.CheckRound` | core/codegen/codegen_tree.c:918-935 | a round that finds a cycle reports the holder of the revisited object as second on the stack and the revisited object as first, cuts the link between them, and that link was on a cycle reachable from the root |
| `CircularLinks.CheckCircular` | core/codegen/codegen_tree.c:917-935 | the repair loop ends; no cycle is reachable from the head afterwards; what was reachable still is; each cut removed an edge of the original graph and added one error naming its two ends |
| `Graphs.HitsIsCycle` | core/codegen/codegen_tree.c:483-506 | a walk from the root that meets itself exists if and only if a cycle is reachable from the root |
| `Graphs.CutEdgeOnCycle` | core/codegen/codegen_tree.c:932-934 | the link killed is an edge of a cycle reachable from the root |
| `Graphs.CutKeepsReachable` | core/codegen/codegen_tree.c:932-934 | cutting the link that closes the first cycle met takes nothing out of reach of the root |
| `Graphs.CycleIsRootLink` | core/codegen/codegen_tree.c:917-935 | where no object is held twice, the only cycle that can be reached from a root goes through the root itself |
| `LinkPhase.TreeRetrieve` | core/codegen/codegen_tree.c:813-827 | the first item of that name in table order, null exactly when there is none |
| `LinkPhase.ItemLink` | core/codegen/codegen_tree.c:669-697 | a slot gets the object of its target only when nothing referred to the target before; the errors are those of a repeated reference, of a reference to the root, or of an unknown name |
| `LinkPhase.SeqLink` | core/codegen/codegen_tree.c:225-234 | after a sequence, every slot up to it that is the first to refer to its target holds it and the target's parent is the holder; all other slots are empty, unreferred objects have no parent, and the errors are exactly those of its slots |
| `LinkPhase.PrecondLink` | core/codegen/codegen_tree_precond.c:160-184 | one error, in order, for each precondition whose name is not that of a test case: the first item of that name decides |
| `LinkPhase.ObjectLink` | core/codegen/codegen_tree.c:379-392 | the same after an object of either kind; a case adds the error of a missing script, and those of its preconditions |
| `LinkPhase.LinkAll` | core/codegen/codegen_tree.c:905-906 | the same after the whole table: link counts, slots, parents and error list are determined by the names, the preconditions and the scripts alone |
| `TreeLoad.NoLinkErrors` | core/codegen/codegen_tree.c:669-697 | linking reports nothing if and only if every reference names an item of its own that is not the root, every case has its script, and every precondition names a test case |
| `TreeLoad.LinkedOnce` | core/codegen/codegen_tree.c:225-234 | with errors or without, no object ends up held by two sequences |
| `TreeLoad.LinksTreelike` | core/codegen/codegen_tree.c:901-939 | without link errors, no object is referred to twice and nothing refers to the root |
| `TreeLoad.RealizedAcyclic` | core/codegen/codegen_tree.c:917-935 | and so no cycle can be reached from the root: the cycle check only fires after a link error |
| `TreeLoad.CheckLost` | core/codegen/codegen_tree.c:890-898 | one error for each item that nothing refers to, unless it is the root or has no line of its own, in table order |
| `TreeLoad.TreeLink` | core/codegen/codegen_tree.c:901-939 | the error list is, in order, that of the references, scripts and preconditions, of the lost items, of a missing root, and one for the circular link cut if any, with its two ends; it is empty if and only if the scanned tree is sound; no cycle can be reached from the head afterwards |
| `Unfolding.ChainUnique` | core/codegen/codegen_tree.c:225-234 | there is only one way down from the root to an object |
| `Unfolding.UnfoldUnfolds` | core/codegen/codegen_tree.c:225-234 | the links below the root unfold to a finite tree |
| `Unfolding.UnfoldDistinct` | core/codegen/codegen_tree.c:225-234 | in which no object occurs twice |
| `Execution.LinkedFamily` | core/codegen/codegen_tree.c:231-232 | every object's `parent_seq` is the sequence that holds it, and the root has none |
| `Execution.ObjectLinkSeq` | core/codegen/codegen_tree.c:411-424 | threading an object gives the whole subtree below it the jumps of the recursive definition and touches nothing else |
| `Execution.SeqLinkSeq` | core/codegen/codegen_tree.c:253-267 | threading the children of a sequence, in order, from each to the next sibling and from the last to where the sequence ends |
| `Execution.Thread` | core/codegen/codegen_tree.c:1035-1036 | a loaded tree becomes ready for execution: every object has its end jump and its break jump |
| `Execution.LoadTree` | core/codegen/codegen_tree.c:1030-1036 | linking succeeds if and only if the scanned tree is sound, preconditions included; the objects below the root then form a tree, each with one holder, threaded |
| `Execution.ObjectExecuted` | core/codegen/codegen_tree.c:561-597 | the verdict and its criticity are recorded on the case alone; after FAILED or INCONCLUSIVE, ABORT_IF_FAILED returns no object whatever BREAK_IF_FAILED is, and BREAK_IF_FAILED alone returns the first case after all those of the sequence that holds the case; in all other cases it is the next case from left to right, null when there is none |
| `Shapes.EndLanding` | core/codegen/codegen_tree.c:253-267 | the end jump of the case at place i in left-to-right order lands on the case at place i + 1, or where the tree ends |
| `Shapes.BreakLanding` | core/codegen/codegen_tree.c:253-267 | the break jump of a case lands on the first case after all those of the sequence that holds it, wherever that sequence stands |
| `Shapes.NextIsLater` | core/codegen/codegen_tree.c:580-596 | whatever the verdict, the next case is strictly later in left-to-right order, or there is none; a good verdict leads to the very next one |
| `Shapes.WalkInOrder` | core/codegen/codegen_tree.c:561-597 | for any verdicts, a walk visits cases in strictly increasing order, so each at most once, and ends |
| `Shapes.WalkVisitsAll` | core/codegen/codegen_tree.c:561-597 | with good verdicts only, the walk from the first case lists all the cases of the tree, left to right |
| `TreeLines.NoScriptErrors` | core/codegen/codegen_tree_scan.c:56-152 | the directives of a script give no error if and only if every precondition list is well formed, every criticity is known, and none comes after one that sets a level |
| `TreeLines.NoFileErrors` | core/codegen/codegen_tree_scan.c:342-364 | the files of a tree are scanned without error if and only if every name in them is a directory or a script, every script has a package and proper directives, and the root file gives one system at most; the files of directories that turn out to be empty count too |
| `SuiteText.InfoTold` | core/codegen/codegen_tree_scan.c:93-152 | the same, of the directives of any script |
| `SuiteText.ToldOnce` | core/codegen/codegen_tree_precond.c:121-150 | and that leaves nothing open: only one case is as the directives say |
| `SuiteText.DirectiveErrorsAt` | core/codegen/codegen_tree_scan.c:93-131 | the error of each directive: a malformed precondition list, a criticity that is missing, one after another that sets a level, one that is unknown; no others |
| `SuiteText.LineErrorsAt` | core/codegen/codegen_tree_scan.c:342-364 | the errors of each line, in order: a script without package and its directives, the files below a directory, the two of a name that is nothing, a system after another in the root file |
| `SuiteText.SystemIs` | core/codegen/codegen_tree_scan.c:74-87 | the system of a tree is the one of the first line of the root file that gives one |
| `SuiteText.SlotsInTurn` | core/codegen/codegen_tree_scan.c:213-257 | a sequence has one slot for each script of its file and for each directory that holds a script somewhere, in order |
| `SuiteText.TableIs` | core/codegen/codegen_tree_scan.c:367-436 | the table has the root, the scripts and the directories that hold one, each directory before what it holds; its test cases stand for all scripts in order, each with what its own directives say |
| `SuiteText.TableIsProper` | core/codegen/codegen_tree_precond.c:160-184 | for proper files, the table has no name twice and all its preconditions name test cases if and only if the names of the files are all different and every list of every script names scripts |
| `Scanner.ScanDirectives` | core/codegen/codegen_tree_scan.c:56-152 | what is told of the case is exactly what its directives say: the precondition lists after the last malformed one, put together; each flag if and only if a directive sets it; the criticity of the first directive that gives one; the errors are added in order |
| `Scanner.ScanScript` | core/codegen/codegen_tree_scan.c:260-339 | a script adds one slot of its name to the open sequence and one test case at the end of the table, with what its directives set, and changes no other line of it; a missing package and bad directives are reported |
| `Scanner.ScanBranch` | core/codegen/codegen_tree_scan.c:213-257 | a directory adds the lines of the table that its files describe, and one slot for its sequence; nothing when it describes none |
| `Scanner.ScanLine` | core/codegen/codegen_tree_scan.c:342-364 | a line adds what it describes; a name that is neither a directory nor a readable script adds two errors and nothing else; a second system in the root file is an error |
| `Scanner.ScanLines` | core/codegen/codegen_tree_scan.c:407-417 | the lines of a file add, in order, the slots, the table lines and the errors that they give rise to |
| `Scanner.ScanFile` | core/codegen/codegen_tree_scan.c:367-436 | a file becomes a sequence after what the table held, followed by what it describes; it is taken off again if and only if it describes nothing; no item, object or slot is there twice |
| `Scanner.TreeRemove` | core/codegen/codegen_tree.c:791-810 | the item is taken off wherever it stands, those after it move one place down, and nothing changes when it is not in the table |
| `Scanner.ScanRoot` | core/codegen/codegen_tree_scan.c:439-467 | the table is the one that the files describe, with the root first and what the directives set; the error list is that of the files, in order; no sequence in the table is empty, and nothing is linked yet |
| `TreeFile.TargetIsMade` | core/codegen/codegen_tree.c:669-697 | without link errors, a slot is linked to the very item that was scanned with it |
| `TreeFile.ScanIsInOrder` | core/codegen/codegen_tree_scan.c:397-401 | and so every sequence comes before what it holds in the table |
| `TreeFile.SoundTable` | core/codegen/codegen_tree.c:669-697 | a table just scanned links without error if and only if no two items have the same name and every precondition names a test case of the table |
| `TreeFile.AllReached` | core/codegen/codegen_tree.c:225-234 | every object of a loaded table can be reached from the root |
| `TreeFile.LoadFile` | core/codegen/codegen_tree.c:988-1048 | from files to a tree: loading succeeds if and only if the files are proper and hold a script, the names in them are all different, and each precondition in any list of any script names a script; with errors in the files nothing is linked; otherwise the objects form a tree that holds the whole table, threaded, with the flags of the flags file |
| `RunControl.NewRun` | core/gui/tree_run.c:732-779 | a run control built on a loaded tree clears counters, verdicts and tripped breakpoints, starts in a fresh session, and its plan says of each case where a break leads |
| `RunControl.NoCaseMissed` | core/gui/tree_run.c:463-483 | every test case of the table has a place in the execution order, and only test cases have one |
| `RunControl.TestRun.SetVerdict` | core/gui/tree_run.c:242-283 | recording a verdict is the step of the session: the current case gets it, with its criticity, and the case that the verdict leads to becomes current; finished when there is none |
| `RunControl.TestRun.Finish` | core/gui/tree_run.c:189-209 | no current object, state finished, the process ended and the log closed, all else unchanged |
| `RunControl.TestRun.Precond` | core/codegen/codegen_tree_precond.c:187-208 | a case may run when it is not skipped and all its conditions hold of its own last verdict |
| `RunControl.TestRun.Proceed` | core/gui/tree_run.c:400-409 | when stepping, wait and stop stepping; otherwise go |
| `RunControl.TestRun.Continue` | core/gui/tree_run.c:412-427 | a verdict ends the run or moves it to the next case |
| `RunControl.TestRun.OutputCase` | core/gui/perl_run.c:175-192 | an entry of the log is opened, and counted as an execution of the case, unless the open entry is that of the case |
| `RunControl.TestRun.Request` | core/gui/perl_run.c:244-258 | a request always opens an entry of its own, counts it, and is sent in it |
| `RunControl.TestRun.ManualAction` | core/gui/tree_run.c:697-700 | a manual action is sent in the entry of the current case, which is opened and counted when it is not the open one |
| `RunControl.TestRun.Simulate` | core/gui/tree_run.c:430-442 | a verdict given without execution counts as one request, and the run goes on with it; ends for every tree though it calls itself through the other operations |
| `RunControl.TestRun.GoStraight` | core/gui/tree_run.c:486-503 | a case that may run is requested, under its breakpoint if it has one; one that may not is skipped |
| `RunControl.TestRun.Pick` | core/gui/tree_run.c:463-483 | the current case stays; without one, the first case of the tree becomes current |
| `RunControl.TestRun.Go` | core/gui/tree_run.c:506-533 | an armed breakpoint trips, and halts the run unless debugging; otherwise the case is dealt with at once |
| `RunControl.TestRun.AbortRun` | core/gui/tree_run.c:289-320 | the process is ended; a case being executed gets an inconclusive verdict; the run is finished |
| `RunControl.TestRun.ResetRun` | core/gui/tree_run.c:347-369 | every breakpoint that was tripped is armed again, every counter and verdict is cleared, nothing is current |
| `RunControl.TestRun.Start` | core/gui/tree_run.c:671-694 | starting spawns the execution process, or resumes the run |
| `RunControl.TestRun.Jump` | core/gui/tree_run.c:819-831 | a waiting run goes to the case of that key; -1 and no change when the key is that of no test case |
| `RunControl.TestRun.Input` | core/gui/tree_run.c:536-551 | a verdict by hand answers a question of the case, or is simulated in one step |
| `RunControl.TestRun.UserAbort` | core/gui/tree_run.c:323-330 | the abort, after a message when a case is being executed |
| `RunControl.TestRun.SetDebug` | core/gui/tree_run.c:88-93 | the debug mode is set or only asked for |
| `RunControl.TestRun.SetBreakpoint` | core/gui/tree_run.c:100-115 | the breakpoint of the case of that key is armed or absent afterwards, never tripped; -1 and no change when the key is that of no test case |
| `RunControl.TestRun.SetSkip` | core/gui/tree_run.c:122-130 | the skip flag of the object of that key, case or sequence, is set, cleared or toggled, and no other; the run only knows of those of cases |
| `RunControl.TestRun.InputRequest` | core/gui/tree_run.c:554-576 | only a running case may ask a question |
| `RunControl.TestRun.GotReply` | core/gui/tree_run.c:579-614 | each kind of reply is the event of the session that it stands for |
| `RunOrder.PlayCoherent` | core/gui/tree_run.c:400-442 | after any sequence of actions enabled by the interface and of replies: waiting, running and asking are about a case; reset, spawn and finished are about none |
| `RunOrder.VerdictsInOrder` | core/gui/tree_run.c:242-283 | without jumps, and when no process announces itself after the run has ended, verdicts between two resets come in execution order, so each case gets at most one |
| `RunPace.OnVerdict` | core/gui/tree_run.c:412-427 | what a verdict leads to: it is recorded; after a bad one, ABORT_IF_FAILED ends the run and BREAK_IF_FAILED goes on after the sequence, otherwise the next case follows; a stepped run then waits there and is no longer stepped, another one goes on |
| `RunPace.GoRuns` | core/gui/tree_run.c:486-533 | how a run goes on that is not stepped: the cases that are to be skipped, or whose preconditions do not hold, each get one entry, one request and a skip verdict; the first one that has an armed breakpoint halts it; the first other one is sent for execution, with the code of its breakpoint if it has one; without any the run is over |
| `RunPace.OnInput` | core/gui/tree_run.c:536-551 | a verdict by hand while the run waits is one entry and one request, and what follows is that of a stepped run; while a case asks, it is the answer and nothing else |
| `RunPace.OnSystem` | core/gui/tree_run.c:608-613 | when the process is ready, a stepped run waits at its first case, with nothing sent; another one goes on from there |
| `RunPace.OnNoSystem` | core/gui/tree_run.c:601-605 | when the process has no system definition, the first case is dealt with even in a stepped run |
| `RunPace.OnStart` | core/gui/tree_run.c:617-694 | starting spawns the process with the stepping asked for, resets the run when that fails, or goes on from where the run waits |
| `RunPace.OnAbort` | core/gui/tree_run.c:289-330 | an abort gives an inconclusive verdict to a case that is executed or asks, and to no other; the run is over, and the process ended |
| `RunPace.OnReset` | core/gui/tree_run.c:347-369 | a reset arms every breakpoint that is set, clears counts and verdicts, and keeps skip flags and the debug mode |
| `RunPace.OnSetting` | core/gui/tree_run.c:88-130 | the settings: jump, breakpoint set, cleared or only asked for, skip flag set, cleared or toggled, debug mode, a question of the case |
| `RunPace.OnManualAction` | core/gui/perl_run.c:305-324 | a manual action is sent in the entry of the current case, opened and counted when it is not the open one |
| `RunPace.AllowedIs` | core/codegen/codegen_tree_precond.c:187-208 | a case may run if and only if it is not to be skipped and its own last verdict is that of each condition without a negation, and of none with one |
| `RunPace.SteppedRunStops` | core/gui/tree_run.c:400-409 | in a stepped run nothing is sent for execution, whatever the user does short of starting or resetting it, until a reply or a verdict by hand comes; then it waits with stepping off, or is over |
| `RunPace.SteppedPlayStops` | core/gui/tree_run.c:400-409 | the same of the events played up to that point |
| `RunBooks.PlayBooks` | core/gui/perl_run.c:175-192 | after any events, manual actions included, each execution counter is the number of entries of the log opened for the case since the last reset, which is that of its requests and of the manual actions that had to open an entry; what is sent is sent in the entry of its case, and the request code for a breakpoint only for a case that has halted since then |
| `RunBooks.CountsRequests` | core/gui/perl_run.c:305-324 | a counter is the number of requests if and only if no manual action on the case had to open an entry |
| `RunBooks.ActionCountsTwice` | core/gui/perl_run.c:305-324 | a manual action while the run waits at a case, and then go: one request, but the counter is 2 |
| `RunBooks.BreakpointsHonoured` | core/gui/tree_run.c:506-533 | with any jumps but no change of breakpoints, each breakpoint halts at most once between two resets, and a case whose breakpoint is armed is not sent for execution before that halt |
| `RunBooks.FreshStart` | core/gui/tree_run.c:212-219 | all these invariants hold when a tree has just been loaded |
| `RunOrder.StepCoherent` | core/gui/tree_gui.c:155-202 | each action that the interface enables in a state, manual actions included, and each reply, keeps the state, the current object and the open entry of the log in agreement |
| `Expr.ExprParse` | core/engine/expr.c:86-139 | parsing in place returns the end of the text, whatever the text, and appends exactly the items of the recursive definition, with the pending operator in its place; nothing outside the text is written |
| `Expr.Scan` | core/engine/expr.c:92-108 | stops at the first operator or parenthesis |
| `Expr.EmitLeft` | core/engine/expr.c:118-123 | emits the first word of the part at hand in upper case, nothing when it is blank |
| `Expr.ExprCompile` | core/engine/expr.c:142-151 | compiles a copy, so the expression itself stays whole |
| `Expr.StrSkipSpaces` | interface/useful/strskip.c:30-35 | the first place that is not a blank; bytes above 127 are blanks for a signed character |
| `Expr.StrSkipChars` | interface/useful/strskip.c:38-43 | the first blank place after a word |
| `ExprEval.Evaluate` | core/engine/expr.c:190-215 | a syntax error exactly when the stack runs short or does not end with one value; otherwise that value |
| `ExprEval.EvalMonotone` | core/engine/expr.c:165-188 | raising more operands never makes a true expression false, nor a correct one wrong |
| `ExprEval.ErrorIsSyntactic` | core/engine/expr.c:165-215 | whether evaluation ends in a syntax error does not depend on the operands |
| `ExprCorrect.ParseWhole` | core/engine/expr.c:86-139 | without parentheses, an expression compiles to the code of its body: one operator at its very end is dropped |
| `ExprCorrect.ParseClosed` | core/engine/expr.c:92-111 | after a closing parenthesis, the rest is compiled inside the group, before the operators pending there |
| `ExprCorrect.CodeEffect` | core/engine/expr.c:125-138 | the stack effect of compiled code with an operator pending: the value of the groups so far is combined below the rest |
| `ExprCorrect.CodeBalance` | core/engine/expr.c:125-138 | each blank member leaves one value too few |
| `ExprCorrect.CompiledValue` | core/engine/expr.c:86-139 | without parentheses, compiling and evaluating gives the OR over the groups between bars of the AND over their members, and a syntax error if and only if a member of the body is blank |
| `ExprGroup.GroupedValue` | core/engine/expr.c:86-139 | an expression with a group in parentheses after any text without: all that follows the group is combined with it before what stands before it; the value is given in terms of the three parts, and it is a syntax error if and only if a member is blank |
| `ExprGroup.LeadingValue` | core/engine/expr.c:86-139 | the same for an expression that begins with a group |
| `ExprGroup.TurnedEffect` | core/engine/expr.c:92-138 | what follows a group only acts on the part of the group from its last bar-separated part of several members on; the earlier ones stay outside |
| `ExprGroup.OrdinaryWhen` | core/engine/expr.c:86-139 | for all expressions of that form and all operands, exactly when the value is that of ordinary precedence |
| `ExprGroup.OrAfterGroup` | core/engine/expr.c:92-111 | `a&(b)` followed by a bar and `c` is compiled to A B C OR AND |
| `ExprMeaning.HoldsIsHeadOrTail` | core/engine/expr.c:125-138 | the meaning by groups and members agrees with reading the expression operator by operator |
| `Packing.PackExpression` | core/engine/listener.c:78-118 | the buffer gets the arguments in parentheses with bars between them, or the only argument, without blanks and with `&` for `,`, ends with a NUL, and never overflows |
| `Packing.PackedAlone` | core/engine/listener.c:90-110 | a single argument loses its blanks, gets `&` for each comma, and is otherwise kept |
| `Packing.PackedValue` | core/engine/listener.c:78-118 | several arguments without parentheses evaluate to the OR of their values, and to a syntax error exactly when one has a blank member |
| `Packing.PackedIsAny` | core/engine/listener.c:78-118 | listening to several arguments is the OR of listening to each alone, whatever is raised, if and only if no argument has a blank member or none is correct alone |
| `Packing.PackingSpoils` | core/engine/listener.c:78-118 | `x&` is accepted alone and makes any packed expression a syntax error |
| `Listener.NewData` | core/engine/listener.c:121-162 | an operand `[!]name[*count]` is in order exactly when its count is a positive number and its trigger is defined; the count is negative after `!` |
| `Listener.NewListener` | core/engine/listener.c:165-187 | a listener is made if and only if every operand of the packed expression is in order |
| `Listener.Check` | core/engine/listener.c:231-242 | the check is the value of the expression, where an operand holds when its trigger has reached its count, or has not after `!` |
| `Listener.CountedOperand` | core/engine/listener.c:59-65 | `name*count` holds when at least so many events of the trigger came, and with a `!` when fewer did; a count that is not a positive number, or an unknown trigger, never holds |
| `Listener.SimpleOperand` | core/engine/listener.c:121-162 | without a count, one event is enough, and with a `!` none must have come |
| `Listener.OperandsFit` | core/engine/expr.c:86-139 | the operands of any text, each followed by a space, take at most one character more than the text |
| `Listener.RaisedTriggers` | core/engine/listener.c:217-228 | the names of the triggers that reached their count, each with a space, always fit the buffer allocated for them |
| `Listener.StaysRaised` | core/engine/listener.c:59-65 | without `!`, a check that is true stays true under any messages; and a syntax error is there at every check or at none |
| `Listener.NegatedFalls` | core/engine/listener.c:62-63 | with `!` it can stop being true |
| `Triggers.UpdateItem` | core/engine/trig.c:315-332 | a trigger counts a message that matches and comes from its peripheral, or from any when it has none |
| `Triggers.Update` | core/engine/trig.c:335-342 | every trigger that the message raises counts one more, the others keep their counter; true exactly when there is one |
| `Triggers.Clear` | core/engine/trig.c:224-244 | exactly the triggers named, in any case of letters, go back to zero; all of them when none is named |
| `Triggers.Retrieve` | core/engine/trig.c:53-57 | the trigger of that name, null exactly when it is not defined |
| `Wait.TvSub` | core/engine/run.c:711-726 | the exact difference in microseconds, normalised; the flag is set exactly when it is zero or negative |
| `Wait.WaitEvent` | core/engine/run.c:119-243 | failure when the call fails or a peripheral does, and nothing counted when the interval elapses; otherwise each trigger counts one more for each whole message that matches it and comes from its peripheral, up to the first peripheral in error |
| `Wait.ExecWait` | core/engine/run.c:772-821 | the outcome is determined by the counters at the start and what each round brings: CONTINUE at the first check where the condition holds by the messages so far, TIMEOUT at the first round past the deadline or without events, an error where the call or a peripheral fails, whichever comes first; each interval given to the blocking call plus the time elapsed is exactly the timeout |
| `Wait.OneOutcome` | core/engine/run.c:772-821 | there is only one outcome for given counters and rounds |
| `Wait.HeardAtNextCheck` | core/engine/run.c:781-821 | a condition made true by the messages of a round ends the wait with CONTINUE at the next check |
| `Wait.HeardIsMatching` | core/engine/run.c:119-155 | the messages counted for a trigger are the whole ones, before any error, from its peripheral or from any, that match it |
| `Wait.NothingMissed` | core/engine/run.c:781-814 | without `!`, a condition that holds at any moment between two checks, even in the middle of a batch of messages, makes the next check end the wait with CONTINUE |
| `XmlWriter.CommonAncestor` | core/output/output_xml.c:383-398 | the lowest object that is properly above both, null when there is none |
| `XmlWriter.Output.StdioClose` | core/output/output_xml.c:171-180 | closes the section of the channel if one is open, at the depth of the open elements |
| `XmlWriter.Output.WriteStdio` | core/output/output_xml.c:183-219 | the text goes to a section of its channel, opened only when the channel changes; the open elements stay the path to the current case |
| `XmlWriter.Output.WriteResult` | core/output/output_xml.c:464-503 | an element on its own line in the current element, outside any section |
| `XmlWriter.Output.BeginElement` | core/output/output_xml.c:237-289 | an element is opened inside the last one, with its remarks, and the indentation is the new depth |
| `XmlWriter.Output.EndElement` | core/output/output_xml.c:292-302 | the element opened last is closed, under its own name |
| `XmlWriter.Output.CdataIndented` | core/output/output_xml.c:153-168 | a remark is escaped, and indented at the start of each of its lines |
| `XmlWriter.Output.OpenFile` | core/output/output_xml.c:330-380 | the four refusals leave all as it was; otherwise the file starts with its header and the root element |
| `XmlWriter.Output.MoveTo` | core/output/output_xml.c:407-461 | exactly the elements not shared by the two paths are closed and opened, innermost first and outermost first; the open elements are then the path to the case; the place returned is the end of what was written |
| `XmlWriter.Output.CloseFile` | core/output/output_xml.c:305-327 | all open elements are closed from the innermost out, and the document is over |
| `XmlRun.WriteRun` | core/output/output_xml.c:330-461 | over any open, (case, text, validation or verdict)*, close run on a tree: if the strings written are neat (no `<` after their first `>`), the characters of the file are a balanced document; if they are readable (names and attributes on one line, no NUL anywhere), reading from the place that was returned for each visit of a case gives every line said during that visit, once, in order, on its channel, and nothing else |
| `XmlRun.WriteAndRead` | core/output/output_xml.c:533-634 | writing such a run and then reading a visit back from its place, with any filter, gives the lines said during it; without a place, those said before the first case |
| `XmlRun.UnmarkedIsAllowed` | core/output/output_xml.c:237-289 | strings without `<` are neat wherever they are written |
| `XmlBalance.TokenTags` | core/output/output_xml.c:237-327 | the characters of one piece of the file open and close exactly what the piece does if and only if what its strings have after their first `>` leaves open what was open |
| `XmlBalance.FileTags` | core/output/output_xml.c:237-327 | while a file is written, the elements that its characters leave open are always those that should be if and only if this holds of every string where it stands |
| `XmlBalance.ClosedIsBalanced` | core/output/output_xml.c:305-327 | a file that has been closed is balanced, read tag by tag from its characters, when no string has a `<` after its first `>`, or at all where a text is written |
| `XmlBalance.SpoiltTitle` | core/output/output_xml.c:357-372 | a `<` with a letter after it in an operator or release name leaves two elements open |
| `XmlBalance.OperatorSpoils` | core/output/output_xml.c:357-372 | with the operator name `a<b` the end tag of the root does not match, whatever else is in the file |
| `XmlBalance.LoneBracketIsNeat` | core/output/output_xml.c:237-302 | a `>` in a name does no harm as long as no `<` follows |
| `XmlText.EscapeRoundTrip` | interface/useful/strxml.c:33-69 | decoding an escaped text gives the text back |
| `XmlText.EscapeHasNoTag` | core/output/output_xml.c:118-150 | an escaped text has no `<`, and has line ends only where the text has |
| `XmlText.TextHeard` | core/output/output_xml.c:612-624 | the escaped lines of a text are read one by one, on its channel, as they were |
| `XmlText.MarkupRead` | core/output/output_xml.c:573-610 | what each kind of tag is for the reader: only STDIO tags set the channel, only end tags clear it, only CASE tags stop |
| `XmlText.ReadBack` | core/output/output_xml.c:564-625 | reading a well-formed file from any place gives exactly the lines written from there to the next case |
| `XmlReader.StrXml` | interface/useful/strxml.c:33-69 | decoding in place gives the decoded text, never longer than the text |
| `XmlReader.ReadTagAt` | core/output/output_xml.c:573-610 | the channel after a tag, or the end of the reading |
| `XmlReader.ReadCase` | core/output/output_xml.c:533-634 | the texts read from an offset are those of the recursive definition; none for an offset of zero or beyond the file; a filter keeps the lines that start with it, without it |
| `XmlReader.Fgets2` | interface/useful/fgets2.c:34-63 | the next whole line and the place after it; an unfinished last line is not a line |
| `XmlSession.LoadedTreeIsRooted` | core/codegen/codegen_tree.c:225-234 | in a loaded tree, every object below the root has its path from it, along the holders |
| `XmlSession.ActWritten` | core/output/output_xml.c:183-219 | what is said by an act is all that the reader can hear of it |
| `XmlSession.CaseReadBack` | core/output/output_xml.c:533-634 | reading a well-formed file from any place outside a section gives what was written from there to the next case |
| `XmlSession.LinesAreTexts` | core/output/output_xml.c:183-219 | for texts of one line on the six known channels these lines are the texts themselves |
| `XmlFilter.ReadFiltered` | core/output/output_xml.c:612-624 | reading any text with a filter gives the lines read without it that start with the filter, without it |
| `XmlFilter.LinesFiltered` | core/output/output_xml.c:612-624 | the same of the lines said in a run |
| `XmlFilter.LinesOfText` | core/output/output_xml.c:183-219 | all lines of a text on one of the six known channels are heard on it, and none on another |
| `XmlFilter.CdataLines` | core/output/output_xml.c:153-168 | a text of several lines is escaped line by line, each that is not empty at the end of the text after two spaces for each level |
| `FlagsFile.LoadObject` | core/codegen/codegen_tree_init.c:121-134 | the qualifier is applied to the object and, when asked for, to all that it holds and to nothing else |
| `FlagsFile.LoadNodes` | core/codegen/codegen_tree_init.c:113-117 | the recursion over the nodes reaches everything within the sequence |
| `FlagsFile.LoadAllObjects` | core/codegen/codegen_tree.c:119-131 | with the wildcard, the qualifier is applied to every object, recursive or not |
| `FlagsFile.LoadLineAt` | core/codegen/codegen_tree_init.c:144-212 | a line, cut into words in place, has the effect of its qualifier on each of its names; comments, unknown qualifiers and unknown names have none |
| `FlagsFile.LoadFlags` | core/codegen/codegen_tree_init.c:215-273 | a file has the effect of its lines, control characters being blanks and the last line needing no end |
| `FlagLines.LineDoes` | core/codegen/codegen_tree_init.c:40-212 | BREAKPOINT, /BREAKPOINT, FORCE_SKIP, /FORCE_SKIP and CLEAR, before a name: the breakpoints of cases and the skip flags of the first item of that name and of all that it holds are set, cleared or left as the word says, and no other object changes; `*` stands for all items |
| `FlagLines.NamesInTurn` | core/codegen/codegen_tree_init.c:179-211 | several names on a line do as one line for each |
| `FlagLines.LinesInTurn` | core/codegen/codegen_tree_init.c:215-273 | the lines of a file do what each does, in order |
| `FlagLines.CommentIgnored` | core/codegen/codegen_tree_init.c:149-151 | what follows a `#` has no effect |
| `FlagsFile.SaveObject` | core/codegen/codegen_tree_init.c:276-303 | a line for a breakpoint, and one for a skip flag that differs from that of the holder |
| `FlagsFile.SaveFlags` | core/codegen/codegen_tree_init.c:306-325 | the lines of all objects in table order; no file when there is nothing to say |
| `TreeFile.SaveAndReload` | core/codegen/codegen_tree_init.c:215-325 | saving the flags of a tree that was loaded, whatever they are, and loading the tree again from the same files restores every skip flag, and every breakpoint as set or not, for names without blanks or `#` and other than `*`; that names are all different is what loading them asks for |
| `Flags.RoundTrip` | core/codegen/codegen_tree_init.c:144-303 | the same of the file itself, for all flags and trees |
| `Flags.RestoredWhen` | core/codegen/codegen_tree_init.c:144-303 | all flags of a tree are restored, whatever they are, if and only if all names are plain (not empty, without blanks or `#`, not `*`); the root's may also contain the word `*` |
| `Flags.NameSpoils` | core/codegen/codegen_tree_init.c:144-303 | the skip flag of an object that is held by a sequence and whose name is not plain is lost: no file at all can set it apart from its holder's |
| `Flags.BlankSpoils` | core/codegen/codegen_tree_init.c:144-303 | for instance that of a test case with the name `a b` |
| `Flags.LoadSavedLine` | core/codegen/codegen_tree_init.c:144-212 | a saved line is parsed back to its qualifier and its object, for the names that keep their flags |
| `Flags.ItemStep` | core/codegen/codegen_tree_init.c:276-303 | after the lines of an item, an object has the flag of its nearest holder saved so far |
| `Flags.InheritedStep` | core/codegen/codegen_tree_init.c:295-302 | an item changes what the objects within it inherit, and nothing else |
| `FlagsTree.LoadedTreeIsShaped` | core/codegen/codegen_tree.c:225-234 | the table of a loaded tree has the places of children and holders on which saving and loading flags relies |
| `LogView.DtCompute` | core/logview/list.c:152-189 | the global difference is the time from the other row, when both have one and it does not go back; the local one likewise, when both rows are from the same interface |
| `LogView.DtUpdate` | core/logview/list.c:220-259 | the row and the next one that has a difference are recomputed, and no other |
| `LogView.Select` | core/logview/list.c:266-279 | the selection of the row changes, and the differences by the incremental update; on a log in order every selected row then shows its time since the nearest selected one before it, or since row 0, and the others none |
| `LogView.RealizeRows` | core/logview/list.c:776-819 | after rebuilding, exactly the rows that had a difference and are not filtered are selected, with the differences computed from all of them; nothing happens when the file cannot be opened |
| `LogView.FilterEvent` | core/logview/list.c:435-549 | hiding or showing an interface, a tag or a case changes exactly its rows, unselects exactly the rows hidden, and every row left selected shows its time since the nearest selected one before it; when the log file cannot be opened, the selection stays and exactly the differences of the rows just hidden are cleared |
| `LogView.NewRows` | core/logview/list.c:357-430 | the rows of a log just read are all shown, none selected, without differences |
| `LogView.ViewLog` | core/logview/list.c:266-549 | after any sequence of clicks on rows and filters, a row is shown exactly when no filter that concerns it was last switched off; every selected row shows its global time since the nearest selected row before it, or since row 0, and its local time when both are from one interface that gives it in order; the others show none |
| `LogView.MaskIs` | core/logview/list.c:435-549 | the filters of a row after any clicks are those of the interface, tag and case it belongs to that were last switched off |
| `LogView.PickedIs` | core/logview/list.c:266-279 | a row is selected if and only if it was clicked on an odd number of times since it was last hidden, or since the start |
| `LogView.HiddenIsNotPicked` | core/logview/list.c:435-549 | a hidden row is never selected |
| `LogView.MarkCase` | core/logview/list.c:532-545 | the rows of a case are those from its first to the one that ends it, or to the end of the log |
| `Deltas.UpdatedIsFull` | core/logview/list.c:220-259 | on an ordered log the incremental update equals the computation from all selected rows |
| `Deltas.FullIsRight` | core/logview/list.c:152-189 | on an ordered log the differences computed from all the selected rows are the times since the nearest selected row before each |
| `Deltas.RightWhenOrdered` | core/logview/list.c:152-189 | the differences are right after every sequence of selections if and only if the time stamps are all there and never go back |
| `Deltas.DisorderShows` | core/logview/list.c:159-162 | otherwise there is a selection of at most two rows that leaves a selected row without its difference |
| `History.ShellHistory.Update` | interface/shell/shell_history.c:80-137 | the list holds the 100 most recently used commands, last first, in exactly the slots in use, each once, with different ids; the event says what happened |
| `History.ShellHistory.First` | interface/shell/shell_history.c:140-144 | using an item again puts it first |
| `History.ShellHistory.Get` | interface/shell/shell_history.c:152-159 | an item of that id, null exactly when there is none |
| `History.RecentIs` | interface/shell/shell_history.c:80-137 | the most recently used commands: each command used, once, in the order of last use |
| `History.UsedFirst` | interface/shell/shell_history.c:80-137 | bounding the list at each use gives the same as bounding it at the end |
| `Pipe.InputPipe.InputGuts` | core/gui/pipe.c:40-69 | after any chunk, the lines notified and the one in the buffer are those of the whole input so far, and the buffer never overflows |
| `Pipe.InputPipe.Input` | core/gui/pipe.c:72-82 | the lines depend on the input alone, not on the chunks it came in |
| `Pipe.PiecesAreLines` | core/gui/pipe.c:40-69 | the lines have no line end, and give the input back when put together |
## Left out

- WriteStdio: does not model a write on the channel -1, which stands for no channel; no caller makes one, and the section it opens would never be closed.
- NewData: the value of a count is an arbitrary function of its text in place of `strtol`, and error messages are only counted.
- RestoredWhen: takes the names of a tree as all different, which loading it makes sure of, and that of its root as having no line end.
- ScanScript: a case is made with what its directives set, where the source fills in an object already in the table; the text of a directive arrives already parsed, a precondition list as `None` when it is not well formed, and so do the outcome of looking for a file and the package of a script.
- ScanLines: comments, blank lines, directives that are ignored with a warning, and the names that stand for paths are not modelled; neither is a directory without a file of its own, which is only warned about.
- PrecondLink: the case that a precondition resolves to is not kept, since nothing reads it.
- VerdictsInOrder: a process that has been ended is taken not to announce itself afterwards.
- SetVerdict: the static step, which only the remote service asks for and which stays at the current case, is not modelled.
- GotReply: the log gets the verdict of each reply, and that of a simulated execution, from the process side; of the log only the entries opened and closed are modelled.
- WriteRun: dates, criticity, counts and the execution counter in the attributes are texts given from outside, and so are the header path, the operator and the release.
- ExecWait: the clock and what the blocking call finds are inputs; an interrupted call is not modelled.
- UpdateItem: the text that a trigger keeps of its last message, and regular expressions; whether a message matches is an input.
- NewRows: filters that are already set when a log is read, and the rows added while it grows.
- Objects of unknown type, warnings, the simulation of dead nodes, and the location of errors in the files.
- Memory: freeing, string duplication and the growth of stacks and line buffers; numbers are unbounded.
- The value of expressions with nested or several groups, beyond the packed form; how they compile is stated by `ExprParse` for every text.
- The execution process, its text protocol, the remote service commands and static stepping.
- Statistics, reports, validation, alias expansion, peripherals, and everything that only shows something on a screen.
- The rendering of time differences as text, and the loading and colouring of the log.
- The callback of the history beyond the kind of event it gets.
