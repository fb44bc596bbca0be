/**
  The breakpoints of a run, and its execution counters, after any sequence of user actions and
  replies of the execution process.
 */
module RunBooks {
  import opened Shapes
  import opened TestTree
  import opened RunModel
  import opened RunOrder

  // ----- the books of execution -----

  /** How often the outputs open an entry of the log for test case `i`. */
  function Openings(out: seq<Output>, i: nat): nat {
    if out == [] then 0 else Openings(out[..|out| - 1], i) + if out[|out| - 1] == Opened(i) then 1 else 0
  }

  function Requests(out: seq<Output>, i: nat): nat {
    if out == [] then 0
    else Requests(out[..|out| - 1], i) + if out[|out| - 1].Request? && out[|out| - 1].place == i then 1 else 0
  }

  /** How many manual actions had to open an entry of the log for test case `i`. */
  function OpeningActions(out: seq<Output>, i: nat): nat {
    if out == [] then 0 else OpeningActions(out[..|out| - 1], i) + if OpensFor(out, |out| - 1, i) then 1 else 0
  }

  predicate OpensFor(out: seq<Output>, k: nat, i: nat) {
    0 < k < |out| && out[k].Action? && out[k].place == i && out[k - 1].Opened?
  }

  /** The test case whose entry in the log is open. */
  function LogCase(out: seq<Output>): Option<nat> {
    if out == [] then None
    else match out[|out| - 1]
      case Opened(i) => Some(i)
      case Closed => None
      case _ => LogCase(out[..|out| - 1])
  }

  /** What is sent to the process is sent while the entry of its test case is open. */
  predicate SentInEntry(out: seq<Output>) {
    forall k :: 0 <= k < |out| && (out[k].Request? || out[k].Action?) ==> LogCase(out[..k]) == Some(out[k].place)
  }

  /** Every entry is opened for a request or for a manual action. */
  ghost predicate EntriesUsed(out: seq<Output>) {
    && (out != [] ==> !out[|out| - 1].Opened?)
    && (forall i: nat :: Openings(out, i) == Requests(out, i) + OpeningActions(out, i))
  }

  /** The breakpoint code is only sent for a test case that has halted before. */
  predicate SentAfterHalt(out: seq<Output>) {
    forall k :: 0 <= k < |out| && out[k].Request? && out[k].code == EXECUTE_AT_BREAKPOINT ==> Halt(out[k].place) in out[..k]
  }

  ghost predicate ProperOutput(out: seq<Output>) {
    SentInEntry(out) && EntriesUsed(out) && SentAfterHalt(out)
  }

  // ----- breakpoints -----

  /** A breakpoint halts at most once, and is then no longer armed. */
  predicate HaltsOnce(p: Plan, s: Session)
    requires InPlan(p, s)
  {
    && (forall k :: 0 <= k < |s.out| && s.out[k].Halt? ==> s.out[k].place < |p| && s.cases[s.out[k].place].breakpoint != 1)
    && (forall k, l :: 0 <= k < l < |s.out| && s.out[k].Halt? && s.out[l].Halt? ==> s.out[k].place != s.out[l].place)
  }

  /** No test case that has a breakpoint was sent for plain execution. */
  predicate NoPlainSend(p: Plan, s: Session)
    requires InPlan(p, s)
  {
    forall k :: 0 <= k < |s.out| && s.out[k].Request? && s.out[k].code == EXECUTE ==>
      s.out[k].place < |p| && s.cases[s.out[k].place].breakpoint == 0
  }

  /** Execution counters count the entries opened; a breakpoint passed has halted. */
  ghost predicate Books(p: Plan, s: Session)
    requires InPlan(p, s)
  {
    && (forall i :: 0 <= i < |p| ==> s.cases[i].execCount == Openings(s.out, i))
    && s.open == LogCase(s.out)
    && (forall i :: 0 <= i < |p| && s.cases[i].breakpoint == 2 ==> Halt(i) in s.out)
    && ProperOutput(s.out)
  }

  /** What an operation keeps of the books and of the breakpoints. */
  ghost predicate Keeps(p: Plan, s: Session, r: Session)
    requires InPlan(p, s) && InPlan(p, r)
  {
    && Books(p, r)
    && (HaltsOnce(p, s) ==> HaltsOnce(p, r))
    && (NoPlainSend(p, s) ==> NoPlainSend(p, r))
  }

  /** Two sessions with the same cases and the same outputs. */
  predicate SameBooks(s: Session, r: Session) {
    s.cases == r.cases && s.open == r.open && s.out == r.out
  }

  // ----- one more output -----

  predicate Plain(o: Output) {
    !o.Opened? && !o.Closed? && !o.Request? && !o.Action?
  }

  lemma Appended(out: seq<Output>, o: Output)
    ensures forall i: nat :: Openings(out + [o], i) == Openings(out, i) + if o == Opened(i) then 1 else 0
    ensures forall i: nat :: Requests(out + [o], i) == Requests(out, i) + if o.Request? && o.place == i then 1 else 0
    ensures forall i: nat :: OpeningActions(out + [o], i) ==
              OpeningActions(out, i) + if o.Action? && o.place == i && out != [] && out[|out| - 1].Opened? then 1 else 0
    ensures LogCase(out + [o]) == if o.Opened? then Some(o.place) else if o.Closed? then None else LogCase(out)
  {
    assert (out + [o])[..|out|] == out;
  }

  lemma SentInEntryAppend(out: seq<Output>, o: Output)
    requires SentInEntry(out) && (o.Request? || o.Action? ==> LogCase(out) == Some(o.place))
    ensures SentInEntry(out + [o])
  {
    assert (out + [o])[..|out|] == out;
    assert forall k :: 0 <= k < |out| ==> (out + [o])[..k] == out[..k];
  }

  lemma SentAppend(out: seq<Output>, o: Output)
    requires SentAfterHalt(out)
    requires o.Request? && o.code == EXECUTE_AT_BREAKPOINT ==> Halt(o.place) in out
    ensures SentAfterHalt(out + [o])
  {
    assert (out + [o])[..|out|] == out;
    assert forall k :: 0 <= k < |out| ==> (out + [o])[..k] == out[..k];
  }

  /** An output that opens nothing; an action only in the entry that is open. */
  lemma ProperAppend(out: seq<Output>, o: Output)
    requires ProperOutput(out) && !o.Opened? && !o.Request? && (o.Action? ==> LogCase(out) == Some(o.place))
    ensures ProperOutput(out + [o]) && LogCase(out + [o]) == if o.Closed? then None else LogCase(out)
    ensures forall i: nat :: Openings(out + [o], i) == Openings(out, i)
  {
    hide SentInEntry, SentAfterHalt, Openings, Requests, OpeningActions, LogCase;
    Appended(out, o);
    SentInEntryAppend(out, o);
    SentAppend(out, o);
  }

  /** A new entry, with what it is opened for. */
  lemma ProperEntry(out: seq<Output>, i: nat, o: Output)
    requires ProperOutput(out) && (o.Request? || o.Action?) && o.place == i
    requires o.Request? && o.code == EXECUTE_AT_BREAKPOINT ==> Halt(i) in out
    ensures ProperOutput(out + [Opened(i)] + [o]) && LogCase(out + [Opened(i)] + [o]) == Some(i)
    ensures forall j: nat :: Openings(out + [Opened(i)] + [o], j) == Openings(out, j) + if j == i then 1 else 0
  {
    hide SentInEntry, SentAfterHalt, Openings, Requests, OpeningActions, LogCase;
    Appended(out, Opened(i));
    Appended(out + [Opened(i)], o);
    SentInEntryAppend(out, Opened(i));
    SentInEntryAppend(out + [Opened(i)], o);
    SentAppend(out, Opened(i));
    SentAppend(out + [Opened(i)], o);
  }

  /** Outputs that are no halts, with the breakpoints left alone. */
  lemma SameBreakpoints(p: Plan, s: Session, more: seq<Output>, r: Session)
    requires InPlan(p, s) && InPlan(p, r) && r.out == s.out + more && forall o :: o in more ==> !o.Halt?
    requires forall i :: 0 <= i < |p| ==> r.cases[i].breakpoint == s.cases[i].breakpoint
    requires forall o :: o in more && o.Request? && o.code == EXECUTE ==> o.place < |p| && s.cases[o.place].breakpoint == 0
    ensures HaltsOnce(p, s) ==> HaltsOnce(p, r)
    ensures NoPlainSend(p, s) ==> NoPlainSend(p, r)
  {
  }

  lemma RequestKeeps(p: Plan, s: Session, i: nat, code: int)
    requires InPlan(p, s) && Books(p, s) && i < |p|
    requires code == EXECUTE_AT_BREAKPOINT ==> Halt(i) in s.out
    requires code == EXECUTE ==> s.cases[i].breakpoint == 0
    ensures Keeps(p, s, SendRequest(p, s, i, code))
  {
    hide ProperOutput, Openings, LogCase, HaltsOnce, NoPlainSend;
    var r := SendRequest(p, s, i, code);
    ProperEntry(s.out, i, Request(i, code));
    assert r.out == s.out + [Opened(i), Request(i, code)];
    SameBreakpoints(p, s, [Opened(i), Request(i, code)], r);
  }

  lemma ActionKeeps(p: Plan, s: Session, i: nat, text: string)
    requires InPlan(p, s) && Books(p, s) && i < |p|
    ensures Keeps(p, s, SendAction(p, s, i, text))
  {
    hide ProperOutput, Openings, LogCase, HaltsOnce, NoPlainSend;
    var r := SendAction(p, s, i, text);
    if s.open == Some(i) {
      ProperAppend(s.out, Action(i, text));
      SameBreakpoints(p, s, [Action(i, text)], r);
    } else {
      ProperEntry(s.out, i, Action(i, text));
      assert r.out == s.out + [Opened(i), Action(i, text)];
      SameBreakpoints(p, s, [Opened(i), Action(i, text)], r);
    }
  }

  /** One more output that sends nothing, with the breakpoints and counters left alone. */
  lemma OutputKeeps(p: Plan, s: Session, o: Output, r: Session)
    requires InPlan(p, s) && InPlan(p, r) && Books(p, s) && r.out == s.out + [o] && !o.Halt? && (Plain(o) || o.Closed?)
    requires r.open == if o.Closed? then None else s.open
    requires forall i :: 0 <= i < |p| ==>
               r.cases[i].breakpoint == s.cases[i].breakpoint && r.cases[i].execCount == s.cases[i].execCount
    ensures Keeps(p, s, r)
  {
    hide ProperOutput, Openings, LogCase, HaltsOnce, NoPlainSend;
    ProperAppend(s.out, o);
    SameBreakpoints(p, s, [o], r);
  }

  lemma VerdictKeeps(p: Plan, s: Session, verdict: Verdict)
    requires ValidPlan(p) && InPlan(p, s) && Books(p, s)
    ensures Keeps(p, s, SetVerdict(p, s, verdict).0)
  {
    hide Books, HaltsOnce, NoPlainSend;
    if s.current.Some? {
      OutputKeeps(p, s, VerdictSet(s.current.value, verdict), SetVerdict(p, s, verdict).0);
    }
  }

  lemma KillKeeps(p: Plan, s: Session)
    requires InPlan(p, s) && Books(p, s)
    ensures Keeps(p, s, Kill(s))
  {
    hide Books, HaltsOnce, NoPlainSend;
    OutputKeeps(p, s, Closed, Kill(s));
  }

  lemma FinishKeeps(p: Plan, s: Session)
    requires InPlan(p, s) && Books(p, s)
    ensures Keeps(p, s, Finish(s))
  {
    hide Books, HaltsOnce, NoPlainSend;
    SameBooksKeep(p, s, s.(current := None, state := Finished));
    KillKeeps(p, s.(current := None, state := Finished));
  }

  lemma HaltKeeps(p: Plan, s: Session, i: nat)
    requires InPlan(p, s) && Books(p, s) && i < |p| && s.cases[i].breakpoint == 1
    ensures Keeps(p, s, Trip(p, s, i))
  {
    hide ProperOutput, Openings, LogCase;
    ProperAppend(s.out, Halt(i));
  }

  lemma {:induction false} GoKeeps(p: Plan, s: Session)
    requires ValidPlan(p) && InPlan(p, s) && Books(p, s)
    ensures Keeps(p, s, Go(p, s))
    decreases Left(p, s), 3
  {
    hide Books, HaltsOnce, NoPlainSend;
    var s1 := Pick(p, s);
    var i := s1.current.value;
    SameBooksKeep(p, s, s1);
    if s1.cases[i].breakpoint == 1 {
      var s2 := Trip(p, s1, i);
      HaltKeeps(p, s1, i);
      if s.debug {
        GoStraightKeeps(p, s2);
      } else {
        SameBooksKeep(p, s2, s2.(state := Waiting));
      }
    } else {
      GoStraightKeeps(p, s1);
    }
  }

  lemma SameBooksKeep(p: Plan, s: Session, r: Session)
    requires InPlan(p, s) && InPlan(p, r) && SameBooks(s, r)
    ensures Books(p, s) <==> Books(p, r)
    ensures HaltsOnce(p, s) <==> HaltsOnce(p, r)
    ensures NoPlainSend(p, s) <==> NoPlainSend(p, r)
  {
  }

  lemma PassedHalt(p: Plan, s: Session, i: nat)
    requires InPlan(p, s) && Books(p, s) && i < |p|
    ensures s.cases[i].breakpoint == 2 ==> Halt(i) in s.out
  {
  }

  lemma {:induction false} GoStraightKeeps(p: Plan, s: Session)
    requires ValidPlan(p) && InPlan(p, s) && s.current.Some? && Books(p, s)
    requires s.cases[s.current.value].breakpoint != 1
    ensures Keeps(p, s, GoStraight(p, s))
    decreases Left(p, s), 2
  {
    hide Books, HaltsOnce, NoPlainSend;
    var i := s.current.value;
    if MayRun(p, s, i) {
      PassedHalt(p, s, i);
      SameBooksKeep(p, s, s.(state := Running));
      RequestKeeps(p, s.(state := Running), i, if s.cases[i].breakpoint != 0 then EXECUTE_AT_BREAKPOINT else EXECUTE);
    } else {
      SimulateKeeps(p, s, Skip);
    }
  }

  lemma {:induction false} SimulateKeeps(p: Plan, s: Session, verdict: Verdict)
    requires ValidPlan(p) && InPlan(p, s) && Books(p, s) && verdict != Unexecuted
    ensures Keeps(p, s, Simulate(p, s, verdict))
    decreases Left(p, s), 1
  {
    hide Books, HaltsOnce, NoPlainSend;
    if s.current.Some? {
      RequestKeeps(p, s, s.current.value, Code(verdict));
      ContinueKeeps(p, SendRequest(p, s, s.current.value, Code(verdict)), verdict);
    }
  }

  lemma {:induction false} ContinueKeeps(p: Plan, s: Session, verdict: Verdict)
    requires ValidPlan(p) && InPlan(p, s) && Books(p, s)
    ensures Keeps(p, s, Continue(p, s, verdict))
    decreases Left(p, s), 0
  {
    hide Books, HaltsOnce, NoPlainSend;
    if s.current.Some? {
      VerdictKeeps(p, s, verdict);
      var (s1, finished) := SetVerdict(p, s, verdict);
      if finished {
        FinishKeeps(p, s1);
      } else {
        ProceedKeeps(p, s1);
      }
    }
  }

  lemma {:induction false} ProceedKeeps(p: Plan, s: Session)
    requires ValidPlan(p) && InPlan(p, s) && Books(p, s)
    ensures Keeps(p, s, Proceed(p, s))
    decreases Left(p, s), 4
  {
    if s.stepping {
      SameBooksKeep(p, s, s.(stepping := false, state := Waiting));
    } else {
      GoKeeps(p, s);
    }
  }

  lemma AbortKeeps(p: Plan, s: Session)
    requires ValidPlan(p) && InPlan(p, s) && Books(p, s)
    ensures Keeps(p, s, AbortRun(p, s))
  {
    hide Books, HaltsOnce, NoPlainSend;
    KillKeeps(p, s);
    if s.state == Running || s.state == Asking {
      VerdictKeeps(p, Kill(s), Inconclusive);
      FinishKeeps(p, SetVerdict(p, Kill(s), Inconclusive).0);
    } else {
      FinishKeeps(p, Kill(s));
    }
  }

  lemma UserAbortKeeps(p: Plan, s: Session)
    requires ValidPlan(p) && InPlan(p, s) && Books(p, s) && Enabled(p, s, UserAbort)
    ensures Keeps(p, s, Step(p, s, UserAbort))
  {
    hide Books, HaltsOnce, NoPlainSend;
    if s.state == Running || s.state == Asking {
      var s1 := s.(out := s.out + [Message(USER_ABORT)]);
      OutputKeeps(p, s, Message(USER_ABORT), s1);
      AbortKeeps(p, s1);
    } else {
      AbortKeeps(p, s);
    }
  }

  /** Every event other than setting a breakpoint keeps the books and the breakpoints in order. */
  lemma StepKeeps(p: Plan, s: Session, e: Event)
    requires ValidPlan(p) && Coherent(p, s) && Books(p, s) && !e.SetBreakpoint?
    ensures Keeps(p, s, Step(p, s, e))
  {
    hide Books, HaltsOnce, NoPlainSend;
    if Enabled(p, s, e) {
      match e {
        case Start(step, spawned) =>
          SameBooksKeep(p, s, s.(stepping := step));
          if s.state == Resetting {
            ResetKeeps(p, s.(stepping := step, state := Spawning));
            SameBooksKeep(p, s, s.(stepping := step, state := Spawning));
          } else {
            GoKeeps(p, s.(stepping := step));
          }
        case UserInput(v) =>
          if s.state == Asking {
            AnswerKeeps(p, s, v);
          } else {
            SameBooksKeep(p, s, s.(stepping := true));
            SimulateKeeps(p, s.(stepping := true), v);
          }
        case UserAbort => UserAbortKeeps(p, s);
        case GotSpawnFailed => AbortKeeps(p, s);
        case UserReset => ResetKeeps(p, Kill(s));
        case ManualAction(text) => ActionKeeps(p, s, s.current.value, text);
        case SetSkip(i, value) => SkipKeeps(p, s, e);
        case GotVerdict(v) => ContinueKeeps(p, s, v);
        case GotSystem =>
          SameBooksKeep(p, s, Pick(p, s));
          ProceedKeeps(p, Pick(p, s));
        case GotNoSystem =>
          SameBooksKeep(p, s, Pick(p, s));
          GoKeeps(p, Pick(p, s));
        case Jump(i) => SameBooksKeep(p, s, s.(current := Some(i)));
        case SetDebug(on) => SameBooksKeep(p, s, s.(debug := on));
        case GotInputRequest => SameBooksKeep(p, s, s.(state := Asking));
      }
    }
  }

  lemma ResetKeeps(p: Plan, s: Session)
    requires InPlan(p, s) && s.open == None
    ensures Keeps(p, s, ResetRun(p, s)) && HaltsOnce(p, ResetRun(p, s)) && NoPlainSend(p, ResetRun(p, s))
  {
  }

  lemma AnswerKeeps(p: Plan, s: Session, v: Verdict)
    requires InPlan(p, s) && Books(p, s)
    ensures Keeps(p, s, s.(state := Running, out := s.out + [Answer(v)]))
  {
    OutputKeeps(p, s, Answer(v), s.(state := Running, out := s.out + [Answer(v)]));
  }

  lemma SkipKeeps(p: Plan, s: Session, e: Event)
    requires ValidPlan(p) && InPlan(p, s) && Books(p, s) && e.SetSkip? && Enabled(p, s, e)
    ensures Keeps(p, s, Step(p, s, e))
  {
  }

  lemma BreakpointKeepsBooks(p: Plan, s: Session, e: Event)
    requires ValidPlan(p) && InPlan(p, s) && Books(p, s) && e.SetBreakpoint?
    ensures Books(p, Step(p, s, e))
  {
  }

  /**
    After any events at all, the execution counters count the entries of the log opened since the last
    reset, one for each request and one for each manual action that found another entry open or none;
    what is sent is sent in the entry of its test case, and the breakpoint code only after a halt.
   */
  lemma {:induction false} PlayBooks(p: Plan, s: Session, events: seq<Event>)
    requires ValidPlan(p) && Coherent(p, s) && Books(p, s)
    ensures Books(p, Play(p, s, events))
    decreases |events|
  {
    if events != [] {
      if events[0].SetBreakpoint? {
        BreakpointKeepsBooks(p, s, events[0]);
      } else {
        StepKeeps(p, s, events[0]);
      }
      StepCoherent(p, s, events[0]);
      PlayBooks(p, Step(p, s, events[0]), events[1..]);
    }
  }

  /** A counter is the number of requests if and only if no manual action had to open an entry. */
  lemma CountsRequests(p: Plan, s: Session, i: nat)
    requires InPlan(p, s) && Books(p, s) && i < |p|
    ensures s.cases[i].execCount == Requests(s.out, i) <==> forall k: nat :: !OpensFor(s.out, k, i)
  {
    NoOpeningActions(s.out, i);
  }

  lemma {:induction false} NoOpeningActions(out: seq<Output>, i: nat)
    ensures OpeningActions(out, i) == 0 <==> forall k: nat :: !OpensFor(out, k, i)
  {
    if out != [] {
      var front := out[..|out| - 1];
      NoOpeningActions(front, i);
      assert forall k: nat :: k < |front| ==> (OpensFor(front, k, i) <==> OpensFor(out, k, i));
    }
  }

  /** Two test cases without preconditions, and a breakpoint on the second one. */
  function TwoCases(): (p: Plan)
    ensures ValidPlan(p)
  {
    var spec := CaseSpec([], false, false, 2);
    [spec, spec]
  }

  function AtFirst(): (s: Session)
    ensures Fresh(TwoCases(), s)
  {
    Session(Resetting, false, None, false, None,
      [CaseState(false, 0, Unexecuted, 0), CaseState(false, 1, Unexecuted, 0)], [])
  }

  /** The run, once the first test case has passed: it has halted before the second one. */
  function AtSecond(): (s: Session)
    ensures InPlan(TwoCases(), s)
  {
    Session(Waiting, false, Some(1), false, Some(0),
      [CaseState(false, 0, Passed, 1), CaseState(false, 2, Unexecuted, 0)],
            [Opened(0), Request(0, EXECUTE), VerdictSet(0, Passed), Halt(1)])
  }

  lemma PlayNext(p: Plan, s: Session, events: seq<Event>)
    requires ValidPlan(p) && InPlan(p, s) && events != []
    ensures Play(p, s, events) == Play(p, Step(p, s, events[0]), events[1..])
  {
  }

  lemma HaltReached()
    ensures Play(TwoCases(), AtFirst(), [Start(false, true), GotSystem, GotVerdict(Passed)]) == AtSecond()
  {
    var p, events := TwoCases(), [Start(false, true), GotSystem, GotVerdict(Passed)];
    PlayNext(p, AtFirst(), events);
    var s1 := AtFirst().(state := Spawning);
    PlayNext(p, s1, events[1..]);
    FirstSent(s1);
    var s2 := OpenedFirst();
    PlayNext(p, s2, events[1..][1..]);
    SecondHalts();
  }

  function OpenedFirst(): (s: Session)
    ensures InPlan(TwoCases(), s)
  {
    AtFirst().(state := Running, current := Some(0), open := Some(0),
               cases := [CaseState(false, 0, Unexecuted, 1), CaseState(false, 1, Unexecuted, 0)],
               out := [Opened(0), Request(0, EXECUTE)])
  }

  lemma FirstSent(s: Session)
    requires s == AtFirst().(state := Spawning)
    ensures Step(TwoCases(), s, GotSystem) == OpenedFirst()
  {
    assert GoStraight(TwoCases(), s.(current := Some(0))) == OpenedFirst();
  }

  lemma SecondHalts()
    ensures Step(TwoCases(), OpenedFirst(), GotVerdict(Passed)) == AtSecond()
  {
    var p := TwoCases();
    var (s1, finished) := SetVerdict(p, OpenedFirst(), Passed);
    assert !finished && s1.current == Some(1);
    assert Go(p, s1) == Trip(p, s1, 1).(state := Waiting);
  }

  /** A manual action while the run waits at a test case, which is then run: one request, but the counter is 2. */
  lemma ActionCountsTwice(text: string)
    ensures var r := Play(TwoCases(), AtSecond(), [ManualAction(text), Start(false, true)]);
            r.state == Running && r.cases[1].execCount == 2 && Requests(r.out, 1) == 1
  {
    var p, s, events := TwoCases(), AtSecond(), [ManualAction(text), Start(false, true)];
    PlayNext(p, s, events);
    var s1 := SendAction(p, s, 1, text);
    PlayNext(p, s1, events[1..]);
    Appended(s.out, Opened(1));
    Appended(s.out + [Opened(1)], Action(1, text));
    NoRequestYet();
    assert GoStraight(p, s1) == SendRequest(p, s1.(state := Running), 1, EXECUTE_AT_BREAKPOINT);
    Appended(s1.out, Opened(1));
    Appended(s1.out + [Opened(1)], Request(1, EXECUTE_AT_BREAKPOINT));
  }

  lemma NoRequestYet()
    ensures Requests(AtSecond().out, 1) == 0
  {
    var out := AtSecond().out;
    assert out == [] + [Opened(0)] + [Request(0, EXECUTE)] + [VerdictSet(0, Passed)] + [Halt(1)];
    Appended([], Opened(0));
    Appended([] + [Opened(0)], Request(0, EXECUTE));
    Appended([] + [Opened(0)] + [Request(0, EXECUTE)], VerdictSet(0, Passed));
    Appended([] + [Opened(0)] + [Request(0, EXECUTE)] + [VerdictSet(0, Passed)], Halt(1));
  }

  /**
    With any jumps but no change of breakpoints, a breakpoint halts the run at most once between two
    resets, and a test case that has one is never sent for execution before it has halted.
   */
  lemma {:induction false} BreakpointsHonoured(p: Plan, s: Session, events: seq<Event>)
    requires ValidPlan(p) && Coherent(p, s) && Books(p, s) && HaltsOnce(p, s) && NoPlainSend(p, s)
    requires forall e :: e in events ==> !e.SetBreakpoint?
    ensures HaltsOnce(p, Play(p, s, events)) && NoPlainSend(p, Play(p, s, events))
            && SentAfterHalt(Play(p, s, events).out)
    decreases |events|
  {
    if events != [] {
      StepKeeps(p, s, events[0]);
      StepCoherent(p, s, events[0]);
      BreakpointsHonoured(p, Step(p, s, events[0]), events[1..]);
    }
  }

  /** All of this holds of a freshly loaded tree. */
  lemma FreshStart(p: Plan, s: Session)
    requires Fresh(p, s)
    ensures Coherent(p, s) && Ordered(s) && Books(p, s) && HaltsOnce(p, s) && NoPlainSend(p, s)
  {
  }
}
