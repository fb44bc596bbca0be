/**
  How far a run goes at each action and reply: which test case it stops at, in which state, and what it
  sends on the way; and that a stepped run stops once. Everything is said of the fields of the session.
 */
module RunPace {
  import opened Shapes
  import opened TestTree
  import opened RunModel
  import opened RunOrder

  // ----- where a run stops -----

  /** The run is over. */
  function Over(s: Session): Session {
    s.(state := Finished, current := None, open := None, out := s.out + [Closed])
  }

  /** The run waits at test case `i`, and is no longer stepped. */
  function WaitingAt(s: Session, i: nat): Session {
    s.(state := Waiting, stepping := false, current := Some(i))
  }

  /** A test case is executed when it is not to be skipped and its own last verdict meets its preconditions. */
  predicate Allowed(spec: CaseSpec, c: CaseState) {
    && !c.skip
    && forall k :: 0 <= k < |spec.preconds| ==> ((c.verdict == spec.preconds[k].value) <==> !spec.preconds[k].neq)
  }

  predicate Halts(s: Session, k: nat)
    requires k < |s.cases|
  {
    s.cases[k].breakpoint == 1 && !s.debug
  }

  predicate StopsAt(p: Plan, s: Session, k: nat)
    requires k < |p| == |s.cases|
  {
    Halts(s, k) || Allowed(p[k], s.cases[k])
  }

  /** A breakpoint that is met counts as passed. */
  function Met(c: CaseState): CaseState {
    if c.breakpoint == 1 then c.(breakpoint := 2) else c
  }

  function MetOutput(s: Session, k: nat): seq<Output>
    requires k < |s.cases|
  {
    if s.cases[k].breakpoint == 1 then [Halt(k)] else []
  }

  /** What is written for the test cases skipped from place `i` to place `j`. */
  function Skipped(s: Session, i: nat, j: nat): seq<Output>
    requires i <= j <= |s.cases|
    decreases j - i
  {
    if i == j then [] else MetOutput(s, i) + [Opened(i), Request(i, 3), VerdictSet(i, Skip)] + Skipped(s, i + 1, j)
  }

  function SkippedCase(c: CaseState): CaseState {
    CaseState(c.skip, Met(c).breakpoint, Skip, c.execCount + 1)
  }

  /** The cases when those from place `i` to place `j` have been skipped. */
  predicate SkippedCases(s: Session, i: nat, j: nat, r: Session) {
    && |r.cases| == |s.cases|
    && forall k :: 0 <= k < |s.cases| && k != j ==>
         r.cases[k] == if i <= k < j then SkippedCase(s.cases[k]) else s.cases[k]
  }

  /** The run has skipped the test cases from place `i` on, and stopped at place `j`, or at the end. */
  predicate RunsTo(p: Plan, s: Session, i: nat, j: nat, r: Session)
    requires |p| == |s.cases|
  {
    && i <= j <= |p| && (forall k :: i <= k < j ==> !StopsAt(p, s, k)) && SkippedCases(s, i, j, r)
    && r.stepping == s.stepping && r.debug == s.debug
    && if j == |p| then
         r.state == Finished && r.current == None && r.open == None && r.out == s.out + Skipped(s, i, j) + [Closed]
       else
         && StopsAt(p, s, j) && r.current == Some(j)
         && if Halts(s, j) then
              && r.state == Waiting && r.cases[j] == Met(s.cases[j])
              && r.open == (if i < j then Some(j - 1) else s.open) && r.out == s.out + Skipped(s, i, j) + [Halt(j)]
            else
              && r.state == Running && r.open == Some(j)
              && r.cases[j] == Met(s.cases[j]).(execCount := s.cases[j].execCount + 1)
              && r.out == s.out + Skipped(s, i, j) + MetOutput(s, j)
                          + [Opened(j), Request(j, if s.cases[j].breakpoint == 0 then -1 else -2)]
  }

  /** The run skips test cases from place `i` on, and stops somewhere. */
  ghost predicate RunsFrom(p: Plan, s: Session, i: nat, r: Session)
    requires |p| == |s.cases|
  {
    exists j :: RunsTo(p, s, i, j, r)
  }

  lemma AllowedIs(p: Plan, s: Session, i: nat)
    requires InPlan(p, s) && i < |p|
    ensures MayRun(p, s, i) <==> Allowed(p[i], s.cases[i])
  {
  }

  /** A test case skipped, in a session where its breakpoint, if armed, has been met. */
  function AfterSkip(s: Session, i: nat): Session
    requires i < |s.cases|
  {
    s.(cases := s.cases[i := SkippedCase(s.cases[i])], open := Some(i),
       out := s.out + MetOutput(s, i) + [Opened(i), Request(i, 3), VerdictSet(i, Skip)])
  }

  lemma SkipNext(p: Plan, i: nat)
    requires ValidPlan(p) && i < |p|
    ensures NextOf(p, i, Skip) == i + 1
  {
  }

  /** The session when the breakpoint of the current test case, if armed, has been met. */
  function MetSession(s: Session, i: nat): Session
    requires i < |s.cases|
  {
    s.(cases := s.cases[i := Met(s.cases[i])], out := s.out + MetOutput(s, i))
  }

  /** Going on with the current test case, when it does not halt. */
  lemma {:induction false} GoOnWith(p: Plan, s: Session, i: nat)
    requires ValidPlan(p) && InPlan(p, s) && s.current == Some(i) && !Halts(s, i)
    ensures Go(p, s) == GoStraight(p, MetSession(s, i))
    ensures InPlan(p, MetSession(s, i)) && (Allowed(p[i], Met(s.cases[i])) <==> Allowed(p[i], s.cases[i]))
  {
    assert s.cases[i := s.cases[i]] == s.cases && s.out + [] == s.out;
  }

  /** The current test case is executed. */
  lemma {:induction false} GoExecutes(p: Plan, s: Session, i: nat)
    requires ValidPlan(p) && InPlan(p, s) && s.current == Some(i) && !Halts(s, i) && Allowed(p[i], s.cases[i])
    ensures RunsTo(p, s, i, i, Go(p, s))
  {
    GoOnWith(p, s, i);
    var m := MetSession(s, i);
    AllowedIs(p, m, i);
    assert s.out + [] == s.out;
  }

  lemma {:induction false} GoHalts(p: Plan, s: Session, i: nat)
    requires ValidPlan(p) && InPlan(p, s) && s.current == Some(i) && Halts(s, i)
    ensures RunsTo(p, s, i, i, Go(p, s))
  {
    assert s.out + [] == s.out;
  }

  /** The current test case is skipped, and what comes next depends on stepping. */
  lemma {:induction false} GoSkips(p: Plan, s: Session, i: nat)
    requires ValidPlan(p) && InPlan(p, s) && s.current == Some(i) && !StopsAt(p, s, i)
    ensures InPlan(p, AfterSkip(s, i))
    ensures Go(p, s) ==
            if i + 1 == |p| then Over(AfterSkip(s, i))
            else if s.stepping then WaitingAt(AfterSkip(s, i), i + 1)
            else Go(p, AfterSkip(s, i).(current := Some(i + 1)))
  {
    hide Allowed, ValidPlan, Go, Continue, AfterSkip;
    GoOnWith(p, s, i);
    var m := MetSession(s, i);
    AllowedIs(p, m, i);
    var r := SendRequest(p, m, i, 3);
    assert GoStraight(p, m) == Continue(p, r, Skip);
    ContinueIs(p, r, i, Skip);
    SkipNext(p, i);
    SkippedIs(p, s, i);
  }

  lemma SkippedIs(p: Plan, s: Session, i: nat)
    requires InPlan(p, s) && i < |p| && InPlan(p, MetSession(s, i))
    ensures InPlan(p, AfterSkip(s, i)) && AfterSkip(s, i).stepping == s.stepping
    ensures Given(SendRequest(p, MetSession(s, i), i, 3), i, Skip) == AfterSkip(s, i)
  {
    var r := SendRequest(p, MetSession(s, i), i, 3);
    assert Given(r, i, Skip).out == AfterSkip(s, i).out;
    assert Given(r, i, Skip).cases == AfterSkip(s, i).cases;
  }

  /** Test case `i` has got a verdict. */
  function Given(s: Session, i: nat, v: Verdict): Session
    requires i < |s.cases|
  {
    s.(cases := s.cases[i := s.cases[i].(verdict := v)], out := s.out + [VerdictSet(i, v)])
  }

  lemma {:induction false} ContinueIs(p: Plan, s: Session, i: nat, v: Verdict)
    requires ValidPlan(p) && InPlan(p, s) && s.current == Some(i)
    ensures var g, next := Given(s, i, v), NextOf(p, i, v);
            && InPlan(p, g.(current := if next < |p| then Some(next) else None))
            && Continue(p, s, v) ==
               if next == |p| then Over(g)
               else if s.stepping then WaitingAt(g, next)
               else Go(p, g.(current := Some(next)))
  {
    hide ValidPlan;
    assert GiveVerdict(p, s, i, v) == Given(s, i, v);
  }

  lemma {:induction false} GoRuns(p: Plan, s: Session, i: nat) returns (j: nat)
    requires ValidPlan(p) && InPlan(p, s) && s.current == Some(i) && !s.stepping
    ensures RunsTo(p, s, i, j, Go(p, s))
    decreases |p| - i
  {
    hide Allowed;
    if Halts(s, i) {
      GoHalts(p, s, i);
      j := i;
    } else if Allowed(p[i], s.cases[i]) {
      GoExecutes(p, s, i);
      j := i;
    } else {
      GoSkips(p, s, i);
      if i + 1 == |p| {
        j := i + 1;
        SkippedOne(p, s, i);
      } else {
        j := GoRuns(p, AfterSkip(s, i).(current := Some(i + 1)), i + 1);
        RunsOn(p, s, i, j, Go(p, s));
      }
    }
  }

  lemma {:induction false} GoRunsFrom(p: Plan, s: Session, i: nat)
    requires ValidPlan(p) && InPlan(p, s) && s.current == Some(i) && !s.stepping
    ensures RunsFrom(p, s, i, Go(p, s))
  {
    hide RunsTo, ValidPlan, InPlan;
    var j := GoRuns(p, s, i);
  }

  lemma {:induction false} SkippedOne(p: Plan, s: Session, i: nat)
    requires InPlan(p, s) && i + 1 == |p| && !StopsAt(p, s, i)
    ensures RunsTo(p, s, i, i + 1, Over(AfterSkip(s, i)))
  {
    hide Allowed;
    assert Skipped(s, i + 1, i + 1) == [];
  }

  lemma {:induction false} SkippedSame(s: Session, a: Session, i: nat, j: nat)
    requires i <= j <= |s.cases| == |a.cases| && forall k :: i <= k < j ==> a.cases[k] == s.cases[k]
    ensures Skipped(a, i, j) == Skipped(s, i, j)
    decreases j - i
  {
    if i < j {
      SkippedSame(s, a, i + 1, j);
    }
  }

  lemma {:induction false} RunsOn(p: Plan, s: Session, i: nat, j: nat, r: Session)
    requires InPlan(p, s) && i + 1 < |p| && !StopsAt(p, s, i)
    requires RunsTo(p, AfterSkip(s, i).(current := Some(i + 1)), i + 1, j, r)
    ensures RunsTo(p, s, i, j, r)
  {
    hide Allowed, Skipped;
    var a := AfterSkip(s, i).(current := Some(i + 1));
    SkippedSame(s, a, i + 1, j);
    SkippedFirst(s, i, j);
    var first, rest := MetOutput(s, i) + [Opened(i), Request(i, 3), VerdictSet(i, Skip)], Skipped(s, i + 1, j);
    assert a.out == s.out + first;
    assert a.out + rest == s.out + (first + rest);
    assert forall k :: i + 1 <= k < j ==> (StopsAt(p, a, k) <==> StopsAt(p, s, k));
  }

  lemma SkippedFirst(s: Session, i: nat, j: nat)
    requires i < j <= |s.cases|
    ensures Skipped(s, i, j) == MetOutput(s, i) + [Opened(i), Request(i, 3), VerdictSet(i, Skip)] + Skipped(s, i + 1, j)
  {
  }

  // ----- what a verdict leads to -----

  predicate Bad(v: Verdict) {
    v == Failed || v == Inconclusive
  }

  /** What follows when test case `i`, in session `s`, has got the verdict `v`. */
  ghost predicate Follows(p: Plan, s: Session, i: nat, v: Verdict, r: Session)
    requires |p| == |s.cases| && i < |p|
  {
    var g := Given(s, i, v);
    var next := if Bad(v) && p[i].abortIfFailed then |p| else if Bad(v) && p[i].breakIfFailed then p[i].breakTo
                else i + 1;
    if next >= |p| then r == Over(g)
    else if s.stepping then r == WaitingAt(g, next)
    else RunsFrom(p, g.(current := Some(next)), next, r)
  }

  lemma {:induction false} VerdictFollows(p: Plan, s: Session, i: nat, v: Verdict)
    requires ValidPlan(p) && InPlan(p, s) && s.current == Some(i)
    ensures Follows(p, s, i, v, Continue(p, s, v))
  {
    hide RunsFrom;
    ContinueIs(p, s, i, v);
    var g, next := Given(s, i, v), NextOf(p, i, v);
    assert next == if Bad(v) && p[i].abortIfFailed then |p| else if Bad(v) && p[i].breakIfFailed then p[i].breakTo
                   else i + 1;
    if next < |p| && !s.stepping {
      GoRunsFrom(p, g.(current := Some(next)), next);
    }
  }

  // ----- actions and replies -----

  /** A verdict that the process replies is that of the current test case. */
  lemma {:induction false} OnVerdict(p: Plan, s: Session, v: Verdict)
    requires ValidPlan(p) && InPlan(p, s) && v != Unexecuted
    ensures match s.current
            case None => Step(p, s, GotVerdict(v)) == s
            case Some(i) => Follows(p, s, i, v, Step(p, s, GotVerdict(v)))
  {
    hide Follows;
    if s.current.Some? {
      VerdictFollows(p, s, s.current.value, v);
    }
  }

  /** A verdict by hand while the run waits is that of one request, and the run is then stepped. */
  lemma {:induction false} OnInput(p: Plan, s: Session, v: Verdict, i: nat)
    requires ValidPlan(p) && InPlan(p, s) && s.current == Some(i) && v in {Passed, Failed, Inconclusive}
    ensures s.state == Waiting ==>
              var code := if v == Passed then 0 else if v == Failed then 1 else 2;
              var sent := s.(stepping := true, open := Some(i), out := s.out + [Opened(i), Request(i, code)],
                             cases := s.cases[i := s.cases[i].(execCount := s.cases[i].execCount + 1)]);
              Follows(p, sent, i, v, Step(p, s, UserInput(v)))
    ensures s.state == Asking ==> Step(p, s, UserInput(v)) == s.(state := Running, out := s.out + [Answer(v)])
  {
    hide Follows;
    if s.state == Waiting {
      var sent := SendRequest(p, s.(stepping := true), i, Code(v));
      assert s.out + [Opened(i)] + [Request(i, Code(v))] == s.out + [Opened(i), Request(i, Code(v))];
      VerdictFollows(p, sent, i, v);
    }
  }

  /** When the process is ready, a stepped run waits at its test case; otherwise it goes on from there. */
  lemma {:induction false} OnSystem(p: Plan, s: Session)
    requires ValidPlan(p) && InPlan(p, s)
    ensures var i := if s.current == None then 0 else s.current.value;
            var r := Step(p, s, GotSystem);
            if s.stepping then r == WaitingAt(s, i)
            else RunsFrom(p, s.(current := Some(i)), i, r)
  {
    hide RunsFrom;
    if !s.stepping {
      var i: nat := if s.current == None then 0 else s.current.value;
      GoRunsFrom(p, s.(current := Some(i)), i);
    }
  }

  /** The run goes on from place `i`, whose test case is dealt with even when the run is stepped. */
  ghost predicate GoesOn(p: Plan, s: Session, i: nat, r: Session)
    requires |p| == |s.cases| && i < |p|
  {
    if !s.stepping then RunsFrom(p, s, i, r)
    else if StopsAt(p, s, i) then RunsTo(p, s, i, i, r)
    else if i + 1 == |p| then r == Over(AfterSkip(s, i))
    else r == WaitingAt(AfterSkip(s, i), i + 1)
  }

  lemma {:induction false} GoGoesOn(p: Plan, s: Session, i: nat)
    requires ValidPlan(p) && InPlan(p, s) && s.current == Some(i)
    ensures GoesOn(p, s, i, Go(p, s))
  {
    hide RunsTo, RunsFrom, Allowed;
    if !s.stepping {
      GoRunsFrom(p, s, i);
    } else if Halts(s, i) {
      GoHalts(p, s, i);
    } else if Allowed(p[i], s.cases[i]) {
      GoExecutes(p, s, i);
    } else {
      GoSkips(p, s, i);
    }
  }

  lemma {:induction false} OnNoSystem(p: Plan, s: Session)
    requires ValidPlan(p) && InPlan(p, s)
    ensures var i := if s.current == None then 0 else s.current.value;
            GoesOn(p, s.(current := Some(i)), i, Step(p, s, GotNoSystem))
  {
    hide GoesOn;
    var i: nat := if s.current == None then 0 else s.current.value;
    GoGoesOn(p, s.(current := Some(i)), i);
  }

  /** What a reset leaves: breakpoints are armed again, and nothing has been executed. */
  ghost predicate IsReset(s: Session, r: Session) {
    && r.state == Resetting && !r.stepping && r.current == None && r.debug == s.debug && r.out == []
    && |r.cases| == |s.cases|
    && forall k :: 0 <= k < |s.cases| ==>
         r.cases[k] == CaseState(s.cases[k].skip, if s.cases[k].breakpoint == 0 then 0 else 1, Unexecuted, 0)
  }

  /** Starting spawns the process, or goes on from where the run waits. */
  lemma {:induction false} OnStart(p: Plan, s: Session, step: bool, spawned: bool)
    requires ValidPlan(p) && InPlan(p, s) && (step ==> !s.debug)
    ensures var r := Step(p, s, Start(step, spawned));
            && (s.state == Resetting && spawned ==> r == s.(state := Spawning, stepping := step))
            && (s.state == Resetting && !spawned ==> IsReset(s, r) && r.open == s.open)
            && (s.state == Waiting && s.current.Some? ==>
                  GoesOn(p, s.(stepping := step), s.current.value, r))
  {
    hide GoesOn;
    if s.state == Waiting && s.current.Some? {
      GoGoesOn(p, s.(stepping := step), s.current.value);
    }
  }

  /** An abort by the user, or by the end of the process: a test case being executed is inconclusive. */
  ghost predicate IsAborted(s: Session, notice: seq<Output>, r: Session) {
    && r.state == Finished && r.current == None && r.open == None && r.stepping == s.stepping && r.debug == s.debug
    && if (s.state == Running || s.state == Asking) && s.current.Some? && s.current.value < |s.cases| then
         var i := s.current.value;
         && r.cases == s.cases[i := s.cases[i].(verdict := Inconclusive)]
         && r.out == s.out + notice + [Closed, VerdictSet(i, Inconclusive), Closed]
       else
         r.cases == s.cases && r.out == s.out + notice + [Closed, Closed]
  }

  lemma {:induction false} OnAbort(p: Plan, s: Session)
    requires ValidPlan(p) && Coherent(p, s)
    ensures s.state in {Spawning, Running, Asking} ==>
              IsAborted(s, if s.state == Spawning then [] else [Message("*** USER ABORT ***")], Step(p, s, UserAbort))
    ensures IsAborted(s, [], Step(p, s, GotSpawnFailed))
  {
    Aborted(p, s);
    if s.state == Running || s.state == Asking {
      var m := s.(out := s.out + [Message(USER_ABORT)]);
      Aborted(p, m);
      assert m.out + [] == s.out + [Message(USER_ABORT)];
    }
  }

  lemma {:induction false} Aborted(p: Plan, s: Session)
    requires ValidPlan(p) && Coherent(p, s)
    ensures IsAborted(s, [], AbortRun(p, s))
  {
    var out := s.out;
    assert out + [] == out;
    if s.state == Running || s.state == Asking {
      var i := s.current.value;
      assert out + [Closed] + [VerdictSet(i, Inconclusive)] + [Closed]
             == out + [Closed, VerdictSet(i, Inconclusive), Closed];
    } else {
      assert out + [Closed] + [Closed] == out + [Closed, Closed];
    }
  }

  lemma {:induction false} OnReset(p: Plan, s: Session)
    requires ValidPlan(p) && InPlan(p, s)
    ensures s.state != Spawning && s.state != Running ==>
              IsReset(s, Step(p, s, UserReset)) && Step(p, s, UserReset).open == None
  {
  }

  /** The other actions and replies. */
  lemma {:induction false} OnSetting(p: Plan, s: Session, i: nat, value: int, on: bool)
    requires ValidPlan(p) && InPlan(p, s) && i < |p|
    ensures s.state == Waiting ==> Step(p, s, Event.Jump(i)) == s.(current := Some(i))
    ensures var was := s.cases[i].breakpoint;
            Step(p, s, SetBreakpoint(i, value)) ==
            s.(cases := s.cases[i := s.cases[i].(breakpoint := if value > 0 || (value < 0 && was > 0) then 1 else 0)])
    ensures Step(p, s, SetSkip(i, value)) ==
            s.(cases := s.cases[i := s.cases[i].(skip := value > 0 || (value < 0 && !s.cases[i].skip))])
    ensures s.state == Resetting || s.state == Finished ==> Step(p, s, SetDebug(on)) == s.(debug := on)
    ensures Step(p, s, GotInputRequest) == if s.state == Running && s.current.Some? then s.(state := Asking) else s
  {
  }

  lemma {:induction false} OnManualAction(p: Plan, s: Session, text: string)
    requires ValidPlan(p) && Coherent(p, s) && (s.state == Waiting || s.state == Asking)
    ensures var i, r := s.current.value, Step(p, s, ManualAction(text));
            if s.open == Some(i) then r == s.(out := s.out + [Action(i, text)])
            else r == s.(open := Some(i), out := s.out + [Opened(i), Action(i, text)],
                         cases := s.cases[i := s.cases[i].(execCount := s.cases[i].execCount + 1)])
  {
    assert s.out + [Opened(s.current.value)] + [Action(s.current.value, text)]
           == s.out + [Opened(s.current.value), Action(s.current.value, text)];
  }

  // ----- a stepped run -----

  /** Nothing has been sent for execution since these outputs. */
  predicate SendsNothing(before: seq<Output>, after: seq<Output>) {
    before <= after && forall k :: |before| <= k < |after| && after[k].Request? ==> after[k].code >= 0
  }

  /** An event that neither starts nor resets the run, nor makes it go on without asking. */
  predicate Quiet(e: Event) {
    !e.Start? && !e.UserReset? && !e.GotNoSystem?
  }

  /** A reply or a verdict that the run would go on with. */
  predicate Decides(s: Session, e: Event) {
    match e
    case GotSystem => true
    case GotVerdict(v) => v != Unexecuted && s.current.Some?
    case UserInput(v) => s.state == Waiting && v in {Passed, Failed, Inconclusive}
    case _ => false
  }

  lemma {:induction false} FollowsStepped(p: Plan, s: Session, i: nat, v: Verdict, r: Session)
    requires |p| == |s.cases| && i < |p| && s.stepping && Follows(p, s, i, v, r)
    ensures SendsNothing(s.out, r.out) && (r.current.Some? ==> r.state == Waiting && !r.stepping)
    ensures r.current == None ==> r.stepping
  {
  }

  /** A quiet event in a stepped run sends nothing, and one that decides makes it wait, unless it ends. */
  lemma {:induction false} StepWhenStepping(p: Plan, s: Session, e: Event)
    requires ValidPlan(p) && Coherent(p, s) && s.stepping && Quiet(e)
    ensures SendsNothing(s.out, Step(p, s, e).out)
    ensures if Decides(s, e) && Step(p, s, e).current.Some?
            then Step(p, s, e).state == Waiting && !Step(p, s, e).stepping
            else Step(p, s, e).stepping
  {
    hide Follows, ValidPlan;
    match e {
      case GotVerdict(v) =>
        if v != Unexecuted {
          OnVerdict(p, s, v);
          if s.current.Some? {
            FollowsStepped(p, s, s.current.value, v, Step(p, s, e));
          }
        }
      case UserInput(v) => InputWhenStepping(p, s, v);
      case GotSystem => OnSystem(p, s);
      case UserAbort => OnAbort(p, s);
      case GotSpawnFailed => OnAbort(p, s);
      case _ =>
    }
  }

  lemma {:induction false} InputWhenStepping(p: Plan, s: Session, v: Verdict)
    requires ValidPlan(p) && Coherent(p, s)
    ensures var r := Step(p, s, UserInput(v));
            && SendsNothing(s.out, r.out)
            && (Decides(s, UserInput(v)) && r.current.Some? ==> r.state == Waiting && !r.stepping)
            && (s.stepping && !(Decides(s, UserInput(v)) && r.current.Some?) ==> r.stepping)
  {
    hide Follows;
    var r := Step(p, s, UserInput(v));
    if v in {Passed, Failed, Inconclusive} && s.current.Some? {
      var i := s.current.value;
      OnInput(p, s, v, i);
      if s.state == Waiting {
        var code := if v == Passed then 0 else if v == Failed then 1 else 2;
        var sent := s.(stepping := true, open := Some(i), out := s.out + [Opened(i), Request(i, code)],
                       cases := s.cases[i := s.cases[i].(execCount := s.cases[i].execCount + 1)]);
        FollowsStepped(p, sent, i, v, r);
        assert SendsNothing(s.out, sent.out);
        assert forall k :: 0 <= k < |sent.out| ==> r.out[k] == sent.out[k];
      }
    }
  }

  /** The run stays stepped, and sends nothing for execution, until a reply or a verdict makes it wait. */
  ghost predicate StopsOnce(p: Plan, s: Session, events: seq<Event>)
    requires ValidPlan(p) && InPlan(p, s)
    decreases |events|
  {
    s.stepping && (events == [] ||
      var r := Step(p, s, events[0]);
      && SendsNothing(s.out, r.out)
      && if Decides(s, events[0]) && r.current.Some? then r.state == Waiting && !r.stepping
         else StopsOnce(p, r, events[1..]))
  }

  /** So it is in every stepped run, whatever the user does short of starting or resetting it. */
  lemma {:induction false} SteppedRunStops(p: Plan, s: Session, events: seq<Event>)
    requires ValidPlan(p) && Coherent(p, s) && s.stepping && forall e :: e in events ==> Quiet(e)
    ensures StopsOnce(p, s, events)
    decreases |events|
  {
    hide SendsNothing, Decides, Quiet, ValidPlan;
    if events != [] {
      StepWhenStepping(p, s, events[0]);
      StepCoherent(p, s, events[0]);
      var r := Step(p, s, events[0]);
      if !(Decides(s, events[0]) && r.current.Some?) {
        SteppedRunStops(p, r, events[1..]);
      }
    }
  }
  /** The events played until it waits. */
  lemma {:induction false} SteppedPlayStops(p: Plan, s: Session, events: seq<Event>) returns (k: nat)
    requires ValidPlan(p) && Coherent(p, s) && s.stepping && forall e :: e in events ==> Quiet(e)
    ensures k <= |events|
    ensures var r := Play(p, s, events[..k]);
            SendsNothing(s.out, r.out) && if r.stepping then k == |events| else r.state == Waiting
    decreases |events|
  {
    hide SendsNothing, Decides, Quiet, ValidPlan;
    if events == [] {
      k := 0;
      SendsAll(s.out, s.out, s.out);
    } else {
      var e := events[0];
      StepWhenStepping(p, s, e);
      StepCoherent(p, s, e);
      var r := Step(p, s, e);
      k := 0;
      if r.stepping {
        k := SteppedPlayStops(p, r, events[1..]);
        SendsAll(s.out, r.out, Play(p, r, events[1..][..k]).out);
      }
      k := k + 1;
      assert events[..k][1..] == events[1..][..k - 1];
    }
  }

  lemma SendsAll(a: seq<Output>, b: seq<Output>, c: seq<Output>)
    ensures SendsNothing(a, a)
    ensures SendsNothing(a, b) && SendsNothing(b, c) ==> SendsNothing(a, c)
  {
  }
}
