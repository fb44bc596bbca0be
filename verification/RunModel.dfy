/**
  The run control of a test suite as a state machine over its test cases, numbered in
  execution order (core/gui/tree_run.c, core/gui/perl_run.c).
 */
module RunModel {
  import opened Shapes
  import opened TestTree

  datatype RunState = Resetting | Spawning | Waiting | Running | Asking | Finished

  /** The fixed part of a test case: `breakTo` is the place after the last case of its sequence. */
  datatype CaseSpec = CaseSpec(preconds: seq<Precond>, breakIfFailed: bool, abortIfFailed: bool, breakTo: nat)

  type Plan = seq<CaseSpec>

  datatype CaseState = CaseState(skip: bool, breakpoint: nat, verdict: Verdict, execCount: nat)

  /** The execution request codes: run, and run under a breakpoint. */
  const EXECUTE := -1
  const EXECUTE_AT_BREAKPOINT := -2

  /** What the run control lets the outside see; `Opened` and `Closed` are about the entries of the log. */
  datatype Output =
    | Opened(place: nat)
    | Closed
    | Request(place: nat, code: int)
    | Action(place: nat, text: string)
    | Message(text: string)
    | VerdictSet(place: nat, verdict: Verdict)
    | Halt(place: nat)
    | Answer(verdict: Verdict)

  const USER_ABORT := "*** USER ABORT ***"

  /** `open` is the test case whose entry in the log is open, and `out` holds the outputs since the last reset. */
  datatype Session = Session(state: RunState, stepping: bool, current: Option<nat>, debug: bool, open: Option<nat>,
                             cases: seq<CaseState>, out: seq<Output>)

  predicate ValidPlan(p: Plan) {
    |p| > 0 && forall i :: 0 <= i < |p| ==> i < p[i].breakTo <= |p|
  }

  predicate InPlan(p: Plan, s: Session) {
    && |s.cases| == |p|
    && (s.current.Some? ==> s.current.value < |p|)
    && (s.open.Some? ==> s.open.value < |p|)
    && (forall i :: 0 <= i < |p| ==> s.cases[i].breakpoint <= 2)
  }

  function NextOf(p: Plan, i: nat, verdict: Verdict): (j: nat)
    requires ValidPlan(p) && i < |p|
    ensures i < j <= |p|
  {
    match OutcomeOf(verdict, p[i].breakIfFailed, p[i].abortIfFailed)
    case GoOn => i + 1
    case Break => p[i].breakTo
    case Abort => |p|
  }

  function Code(v: Verdict): int {
    match v
    case Unexecuted => -1
    case Passed => 0
    case Failed => 1
    case Inconclusive => 2
    case Skip => 3
    case Executed => 4
  }

  predicate PrecondHolds(c: Precond, verdict: Verdict) {
    if c.neq then verdict != c.value else verdict == c.value
  }

  predicate MayRun(p: Plan, s: Session, i: nat)
    requires InPlan(p, s) && i < |p|
  {
    !s.cases[i].skip && forall k :: 0 <= k < |p[i].preconds| ==> PrecondHolds(p[i].preconds[k], s.cases[i].verdict)
  }

  // ----- the operations -----

  /** Open an entry of the log for test case `i`. */
  function OpenCase(p: Plan, s: Session, i: nat): (r: Session)
    requires InPlan(p, s) && i < |p|
    ensures InPlan(p, r) && r.state == s.state && r.current == s.current && r.stepping == s.stepping
            && r.debug == s.debug
  {
    s.(cases := s.cases[i := s.cases[i].(execCount := s.cases[i].execCount + 1)], open := Some(i),
      out := s.out + [Opened(i)])
  }

  /** A request opens an entry whichever one is open. */
  lemma OpenAnyway(p: Plan, s: Session, i: nat)
    requires InPlan(p, s) && i < |p|
    ensures OpenCase(p, s.(open := None), i) == OpenCase(p, s, i)
  {
  }

  function SendRequest(p: Plan, s: Session, i: nat, code: int): (r: Session)
    requires InPlan(p, s) && i < |p|
    ensures InPlan(p, r) && r.current == s.current
  {
    var s1 := OpenCase(p, s, i);
    s1.(out := s1.out + [Request(i, code)])
  }

  /** Send a manual action, in the entry of test case `i`, which is opened unless it is the open one. */
  function SendAction(p: Plan, s: Session, i: nat, text: string): (r: Session)
    requires InPlan(p, s) && i < |p|
    ensures InPlan(p, r)
  {
    var s1 := if s.open == Some(i) then s else OpenCase(p, s, i);
    s1.(out := s1.out + [Action(i, text)])
  }

  /** End the execution process, and the log. */
  function Kill(s: Session): Session {
    s.(open := None, out := s.out + [Closed])
  }

  function GiveVerdict(p: Plan, s: Session, i: nat, verdict: Verdict): (r: Session)
    requires InPlan(p, s) && i < |p|
    ensures InPlan(p, r) && r.stepping == s.stepping
  {
    s.(cases := s.cases[i := s.cases[i].(verdict := verdict)], out := s.out + [VerdictSet(i, verdict)])
  }

  /** Record a verdict and move on; the flag tells that there is nothing left to execute. */
  function SetVerdict(p: Plan, s: Session, verdict: Verdict): (r: (Session, bool))
    requires ValidPlan(p) && InPlan(p, s)
    ensures InPlan(p, r.0)
  {
    match s.current
    case None => (s, true)
    case Some(i) =>
      var s1 := GiveVerdict(p, s, i, verdict);
      var j := NextOf(p, i, verdict);
      if j < |p| then (s1.(current := Some(j)), false) else (s1, true)
  }

  function Finish(s: Session): Session {
    Kill(s.(current := None, state := Finished))
  }

  function Left(p: Plan, s: Session): nat
    requires InPlan(p, s)
  {
    match s.current
    case None => |p|
    case Some(i) => |p| - i
  }

  function Proceed(p: Plan, s: Session): (r: Session)
    requires ValidPlan(p) && InPlan(p, s)
    ensures InPlan(p, r)
    decreases Left(p, s), 4
  {
    if s.stepping then s.(stepping := false, state := Waiting) else Go(p, s)
  }

  function Continue(p: Plan, s: Session, verdict: Verdict): (r: Session)
    requires ValidPlan(p) && InPlan(p, s)
    ensures InPlan(p, r)
    decreases Left(p, s), 0
  {
    if s.current == None then s else
      var (s1, finished) := SetVerdict(p, s, verdict);
      if finished then Finish(s1) else Proceed(p, s1)
  }

  function Simulate(p: Plan, s: Session, verdict: Verdict): (r: Session)
    requires ValidPlan(p) && InPlan(p, s)
    ensures InPlan(p, r)
    decreases Left(p, s), 1
  {
    match s.current
    case None => s
    case Some(i) => Continue(p, SendRequest(p, s, i, Code(verdict)), verdict)
  }

  function GoStraight(p: Plan, s: Session): (r: Session)
    requires ValidPlan(p) && InPlan(p, s) && s.current.Some?
    ensures InPlan(p, r)
    decreases Left(p, s), 2
  {
    var i := s.current.value;
    if MayRun(p, s, i) then
      SendRequest(p, s.(state := Running), i, if s.cases[i].breakpoint != 0 then EXECUTE_AT_BREAKPOINT else EXECUTE)
    else
      Simulate(p, s, Skip)
  }

  /** The current test case, or the first one. */
  function Pick(p: Plan, s: Session): (r: Session)
    requires ValidPlan(p) && InPlan(p, s)
    ensures InPlan(p, r) && r.current.Some? && Left(p, r) <= Left(p, s)
  {
    if s.current == None then s.(current := Some(0)) else s
  }

  /** The breakpoint of test case `i` is met. */
  function Trip(p: Plan, s: Session, i: nat): (r: Session)
    requires InPlan(p, s) && i < |p|
    ensures InPlan(p, r) && r.current == s.current && r.debug == s.debug
  {
    s.(cases := s.cases[i := s.cases[i].(breakpoint := 2)], out := s.out + [Halt(i)])
  }

  function Go(p: Plan, s: Session): (r: Session)
    requires ValidPlan(p) && InPlan(p, s)
    ensures InPlan(p, r)
    decreases Left(p, s), 3
  {
    var s1 := Pick(p, s);
    var i := s1.current.value;
    if s1.cases[i].breakpoint == 1 then
      var s2 := Trip(p, s1, i);
      if s.debug then GoStraight(p, s2) else s2.(state := Waiting)
    else
      GoStraight(p, s1)
  }

  function AbortRun(p: Plan, s: Session): (r: Session)
    requires ValidPlan(p) && InPlan(p, s)
    ensures InPlan(p, r)
  {
    Finish(if s.state == Running || s.state == Asking then SetVerdict(p, Kill(s), Inconclusive).0 else Kill(s))
  }

  function ResetCase(c: CaseState): CaseState {
    CaseState(c.skip, if c.breakpoint != 0 then 1 else 0, Unexecuted, 0)
  }

  function ResetRun(p: Plan, s: Session): (r: Session)
    requires InPlan(p, s)
    ensures InPlan(p, r)
  {
    Session(Resetting, false, None, s.debug, s.open,
      seq(|s.cases|, i requires 0 <= i < |s.cases| => ResetCase(s.cases[i])), [])
  }

  // ----- user actions and process replies -----

  datatype Event =
    | Start(step: bool, spawned: bool)
    | Jump(place: nat)
    | UserInput(verdict: Verdict)
    | UserAbort
    | UserReset
    | ManualAction(text: string)
    | SetBreakpoint(place: nat, value: int)
    | SetSkip(place: nat, value: int)
    | SetDebug(on: bool)
    | GotVerdict(verdict: Verdict)
    | GotInputRequest
    | GotSpawnFailed
    | GotSystem
    | GotNoSystem

  /** The actions the interface offers in each state; replies may come at any time. */
  predicate Enabled(p: Plan, s: Session, e: Event) {
    match e
    case Start(step, _) => (s.state == Resetting || s.state == Waiting) && (step ==> !s.debug)
    case Jump(i) => s.state == Waiting && i < |p|
    case UserInput(v) => (s.state == Waiting || s.state == Asking) && (v == Passed || v == Failed || v == Inconclusive)
    case UserAbort => s.state == Spawning || s.state == Running || s.state == Asking
    case UserReset => s.state != Spawning && s.state != Running
    case ManualAction(_) => s.state == Waiting || s.state == Asking
    case SetBreakpoint(i, _) => i < |p|
    case SetSkip(i, _) => i < |p|
    case SetDebug(_) => s.state == Resetting || s.state == Finished
    case GotVerdict(v) => v != Unexecuted
    case _ => true
  }

  function NewBreakpoint(was: nat, value: int): nat {
    if (if value >= 0 then value else was) != 0 then 1 else 0
  }

  function NewSkip(was: bool, value: int): bool {
    if value < 0 then !was else value != 0
  }

  function PutBreakpoint(p: Plan, s: Session, i: nat, value: int): (r: Session)
    requires InPlan(p, s) && i < |p|
    ensures InPlan(p, r)
  {
    s.(cases := s.cases[i := s.cases[i].(breakpoint := NewBreakpoint(s.cases[i].breakpoint, value))])
  }

  function PutSkip(p: Plan, s: Session, i: nat, value: int): (r: Session)
    requires InPlan(p, s) && i < |p|
    ensures InPlan(p, r)
  {
    s.(cases := s.cases[i := s.cases[i].(skip := NewSkip(s.cases[i].skip, value))])
  }

  function Step(p: Plan, s: Session, e: Event): (r: Session)
    requires ValidPlan(p) && InPlan(p, s)
    ensures InPlan(p, r)
  {
    if !Enabled(p, s, e) then s else
      match e
      case Start(step, spawned) =>
        var s1 := s.(stepping := step);
        if s.state == Resetting then (if spawned then s1.(state := Spawning) else ResetRun(p, s1.(state := Spawning)))
        else Go(p, s1)
      case Jump(i) => s.(current := Some(i))
      case UserInput(v) =>
        if s.state == Asking then s.(state := Running, out := s.out + [Answer(v)])
           else Simulate(p, s.(stepping := true), v)
      case UserAbort =>
        AbortRun(p, if s.state == Running || s.state == Asking then s.(out := s.out + [Message(USER_ABORT)]) else s)
      case UserReset => ResetRun(p, Kill(s))
      case ManualAction(text) => if s.current.Some? then SendAction(p, s, s.current.value, text) else s
      case SetBreakpoint(i, value) => PutBreakpoint(p, s, i, value)
      case SetSkip(i, value) => PutSkip(p, s, i, value)
      case SetDebug(on) => s.(debug := on)
      case GotVerdict(v) => Continue(p, s, v)
      case GotInputRequest => if s.state == Running && s.current.Some? then s.(state := Asking) else s
      case GotSpawnFailed => AbortRun(p, s)
      case GotSystem => Proceed(p, Pick(p, s))
      case GotNoSystem => Go(p, Pick(p, s))
  }

  lemma StepPut(p: Plan, s: Session, i: nat, value: int)
    requires ValidPlan(p) && InPlan(p, s) && i < |p|
    ensures Step(p, s, SetBreakpoint(i, value)) == PutBreakpoint(p, s, i, value)
    ensures Step(p, s, SetSkip(i, value)) == PutSkip(p, s, i, value)
  {
    hide InPlan, ValidPlan;
  }

  lemma StepSpawned(p: Plan, s: Session)
    requires ValidPlan(p) && InPlan(p, s)
    ensures Step(p, s, GotSystem) == Proceed(p, Pick(p, s)) && Step(p, s, GotNoSystem) == Go(p, Pick(p, s))
  {
    hide InPlan, ValidPlan;
  }

  function Play(p: Plan, s: Session, events: seq<Event>): (r: Session)
    requires ValidPlan(p) && InPlan(p, s)
    ensures InPlan(p, r)
    decreases |events|
  {
    if events == [] then s else Play(p, Step(p, s, events[0]), events[1..])
  }

  /** A freshly loaded tree, before anything has been executed. */
  predicate Fresh(p: Plan, s: Session) {
    && InPlan(p, s) && s.state == Resetting && !s.stepping && s.current == None && s.open == None && s.out == []
    && forall i :: 0 <= i < |p| ==> s.cases[i].breakpoint <= 1 && s.cases[i].execCount == 0
  }
}
