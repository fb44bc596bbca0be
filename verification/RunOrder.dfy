/**
  What holds of a run after any sequence of user actions and replies of the execution process:
  which test case is current in which state, and the order of the verdicts.
 */
module RunOrder {
  import opened Shapes
  import opened TestTree
  import opened RunModel

  // ----- which test case is current in which state -----

  predicate Coherent(p: Plan, s: Session) {
    && InPlan(p, s)
    && (s.state in {Waiting, Running, Asking} ==> s.current.Some?)
    && (s.state in {Resetting, Spawning, Finished} ==> s.current == None && s.open == None)
  }

  lemma {:induction false} GoCoherent(p: Plan, s: Session)
    requires ValidPlan(p) && InPlan(p, s)
    ensures Coherent(p, Go(p, s))
    decreases Left(p, s), 3
  {
    var s1 := Pick(p, s);
    var i := s1.current.value;
    if s1.cases[i].breakpoint == 1 {
      var s2 := Trip(p, s1, i);
      GoStraightCoherent(p, s2);
    } else {
      GoStraightCoherent(p, s1);
    }
  }

  lemma {:induction false} GoStraightCoherent(p: Plan, s: Session)
    requires ValidPlan(p) && InPlan(p, s) && s.current.Some?
    ensures Coherent(p, GoStraight(p, s))
    decreases Left(p, s), 2
  {
    if !MayRun(p, s, s.current.value) {
      SimulateCoherent(p, s, Skip);
    }
  }

  lemma {:induction false} SimulateCoherent(p: Plan, s: Session, verdict: Verdict)
    requires ValidPlan(p) && InPlan(p, s) && s.current.Some?
    ensures Coherent(p, Simulate(p, s, verdict))
    decreases Left(p, s), 1
  {
    ContinueCoherent(p, SendRequest(p, s, s.current.value, Code(verdict)), verdict);
  }

  lemma {:induction false} ContinueCoherent(p: Plan, s: Session, verdict: Verdict)
    requires ValidPlan(p) && InPlan(p, s) && s.current.Some?
    ensures Coherent(p, Continue(p, s, verdict))
    decreases Left(p, s), 0
  {
    var (s1, finished) := SetVerdict(p, s, verdict);
    if !finished && !s1.stepping {
      GoCoherent(p, s1);
    }
  }

  lemma StepCoherent(p: Plan, s: Session, e: Event)
    requires ValidPlan(p) && Coherent(p, s)
    ensures Coherent(p, Step(p, s, e))
  {
    if Enabled(p, s, e) {
      match e {
        case Start(step, spawned) => GoCoherent(p, s.(stepping := step));
        case UserInput(v) =>
          if s.state == Waiting {
            SimulateCoherent(p, s.(stepping := true), v);
          }
        case GotVerdict(v) =>
          if s.current.Some? {
            ContinueCoherent(p, s, v);
          }
        case GotSystem => GoCoherent(p, Pick(p, s));
        case GotNoSystem => GoCoherent(p, Pick(p, s));
        case _ =>
      }
    }
  }

  /** Whatever the user does and the process replies, waiting and running are always about a test case. */
  lemma {:induction false} PlayCoherent(p: Plan, s: Session, events: seq<Event>)
    requires ValidPlan(p) && Coherent(p, s)
    ensures Coherent(p, Play(p, s, events))
    decreases |events|
  {
    if events != [] {
      StepCoherent(p, s, events[0]);
      PlayCoherent(p, Step(p, s, events[0]), events[1..]);
    }
  }

  // ----- the order of verdicts -----

  /** Verdicts are given in execution order, to each test case at most once. */
  predicate InOrder(out: seq<Output>) {
    forall k, l :: 0 <= k < l < |out| && out[k].VerdictSet? && out[l].VerdictSet? ==> out[k].place < out[l].place
  }

  predicate AllBelow(out: seq<Output>, bound: nat) {
    forall k :: 0 <= k < |out| && out[k].VerdictSet? ==> out[k].place < bound
  }

  /** The place of the current test case, or of the first one to be run. */
  function Reached(s: Session): nat {
    match s.current
    case None => 0
    case Some(i) => i
  }

  /** The test cases with a verdict come before the current one, or before the first one to be run. */
  predicate Ahead(s: Session) {
    InOrder(s.out) && AllBelow(s.out, Reached(s))
  }

  predicate Ordered(s: Session) {
    && InOrder(s.out)
    && (s.current.Some? || s.state == Resetting || s.state == Spawning ==> Ahead(s))
  }

  lemma NoVerdictAppended(out: seq<Output>, o: Output)
    requires !o.VerdictSet?
    ensures InOrder(out + [o]) <==> InOrder(out)
    ensures forall bound: nat :: AllBelow(out + [o], bound) <==> AllBelow(out, bound)
  {
    assert forall k :: 0 <= k < |out| ==> (out + [o])[k] == out[k];
  }

  lemma VerdictAppended(out: seq<Output>, i: nat, verdict: Verdict)
    requires InOrder(out) && AllBelow(out, i)
    ensures InOrder(out + [VerdictSet(i, verdict)])
            && forall j: nat :: i < j ==> AllBelow(out + [VerdictSet(i, verdict)], j)
  {
  }

  lemma RequestOrdered(out: seq<Output>, i: nat, code: int)
    ensures InOrder(out + [Opened(i)] + [Request(i, code)]) <==> InOrder(out)
    ensures forall bound: nat :: AllBelow(out + [Opened(i)] + [Request(i, code)], bound) <==> AllBelow(out, bound)
  {
    NoVerdictAppended(out, Opened(i));
    NoVerdictAppended(out + [Opened(i)], Request(i, code));
  }

  lemma {:induction false} GoOrdered(p: Plan, s: Session)
    requires ValidPlan(p) && InPlan(p, s) && Ahead(s)
    ensures Ordered(Go(p, s))
    decreases Left(p, s), 3
  {
    hide InOrder, AllBelow;
    var s1 := Pick(p, s);
    var i := s1.current.value;
    NoVerdictAppended(s1.out, Halt(i));
    if s1.cases[i].breakpoint == 1 {
      GoStraightOrdered(p, Trip(p, s1, i));
    } else {
      GoStraightOrdered(p, s1);
    }
  }

  lemma {:induction false} GoStraightOrdered(p: Plan, s: Session)
    requires ValidPlan(p) && InPlan(p, s) && s.current.Some? && Ahead(s)
    ensures Ordered(GoStraight(p, s))
    decreases Left(p, s), 2
  {
    hide InOrder, AllBelow;
    if MayRun(p, s, s.current.value) {
      RequestOrdered(s.out, s.current.value, if s.cases[s.current.value].breakpoint != 0
        then EXECUTE_AT_BREAKPOINT else EXECUTE);
    } else {
      SimulateOrdered(p, s, Skip);
    }
  }

  lemma {:induction false} SimulateOrdered(p: Plan, s: Session, verdict: Verdict)
    requires ValidPlan(p) && InPlan(p, s) && s.current.Some? && Ahead(s)
    ensures Ordered(Simulate(p, s, verdict))
    decreases Left(p, s), 1
  {
    hide InOrder, AllBelow;
    RequestOrdered(s.out, s.current.value, Code(verdict));
    ContinueOrdered(p, SendRequest(p, s, s.current.value, Code(verdict)), verdict);
  }

  lemma {:induction false} ContinueOrdered(p: Plan, s: Session, verdict: Verdict)
    requires ValidPlan(p) && InPlan(p, s) && s.current.Some? && Ahead(s)
    ensures Ordered(Continue(p, s, verdict))
    decreases Left(p, s), 0
  {
    hide InOrder, AllBelow;
    var (s1, finished) := SetVerdict(p, s, verdict);
    VerdictAppended(s.out, s.current.value, verdict);
    NoVerdictAppended(s1.out, Closed);
    if !finished && !s1.stepping {
      GoOrdered(p, s1);
    }
  }

  /** The user does not jump, and the process, killed when the run ends, does not announce itself after that. */
  predicate Straightforward(s: Session, e: Event) {
    !e.Jump? && (e.GotSystem? || e.GotNoSystem? ==> s.state != Finished)
  }

  ghost predicate StraightRun(p: Plan, s: Session, events: seq<Event>)
    requires ValidPlan(p) && InPlan(p, s)
    decreases |events|
  {
    events != [] ==> Straightforward(s, events[0]) && StraightRun(p, Step(p, s, events[0]), events[1..])
  }

  lemma AbortOrdered(p: Plan, s: Session)
    requires ValidPlan(p) && InPlan(p, s) && Ordered(s) && (s.state == Running || s.state == Asking ==> s.current.Some?)
    ensures Ordered(AbortRun(p, s))
  {
    NoVerdictAppended(s.out, Closed);
    if s.state == Running || s.state == Asking {
      NoVerdictAppended(SetVerdict(p, Kill(s), Inconclusive).0.out, Closed);
    } else {
      NoVerdictAppended(Kill(s).out, Closed);
    }
  }

  lemma ActionOrdered(p: Plan, s: Session, i: nat, text: string)
    requires ValidPlan(p) && InPlan(p, s) && i < |p| && Ordered(s)
    ensures Ordered(SendAction(p, s, i, text))
  {
    hide InOrder, AllBelow;
    var s1 := if s.open == Some(i) then s else OpenCase(p, s, i);
    NoVerdictAppended(s.out, Opened(i));
    NoVerdictAppended(s1.out, Action(i, text));
  }

  lemma StepOrdered(p: Plan, s: Session, e: Event)
    requires ValidPlan(p) && Coherent(p, s) && Ordered(s) && Straightforward(s, e)
    ensures Ordered(Step(p, s, e))
  {
    hide InOrder, AllBelow;
    if Enabled(p, s, e) {
      match e {
        case Start(step, spawned) =>
          NothingInOrder();
          if s.state == Waiting {
            GoOrdered(p, s.(stepping := step));
          }
        case UserInput(v) =>
          NoVerdictAppended(s.out, Answer(v));
          if s.state == Waiting {
            SimulateOrdered(p, s.(stepping := true), v);
          }
        case UserAbort =>
          NoVerdictAppended(s.out, Message(USER_ABORT));
          AbortOrdered(p, if s.state == Running || s.state == Asking
            then s.(out := s.out + [Message(USER_ABORT)]) else s);
        case GotSpawnFailed => AbortOrdered(p, s);
        case UserReset => NothingInOrder();
        case ManualAction(text) => ActionOrdered(p, s, s.current.value, text);
        case GotVerdict(v) =>
          if s.current.Some? {
            ContinueOrdered(p, s, v);
          }
        case GotSystem => GoOrdered(p, Pick(p, s));
        case GotNoSystem => GoOrdered(p, Pick(p, s));
        case _ =>
      }
    }
  }

  lemma NothingInOrder()
    ensures InOrder([]) && forall bound: nat :: AllBelow([], bound)
  {
  }

  /** Without jumps, between two resets every test case gets at most one verdict, in execution order. */
  lemma {:induction false} VerdictsInOrder(p: Plan, s: Session, events: seq<Event>)
    requires ValidPlan(p) && Coherent(p, s) && Ordered(s) && StraightRun(p, s, events)
    ensures InOrder(Play(p, s, events).out)
    decreases |events|
  {
    if events != [] {
      StepOrdered(p, s, events[0]);
      StepCoherent(p, s, events[0]);
      VerdictsInOrder(p, Step(p, s, events[0]), events[1..]);
    }
  }
}
