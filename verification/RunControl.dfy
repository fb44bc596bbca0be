/**
  The run control object of a test suite (core/gui/tree_run.c, core/gui/perl_run.c), working on the objects of a
  loaded tree. Every operation does exactly what the state machine of `RunModel` does.
 */
module RunControl {
  import opened Graphs
  import opened Shapes
  import opened TestTree
  import opened TreeLoad
  import opened Execution
  import M = RunModel

  // ----- the test cases of a tree, as the state machine numbers them -----

  ghost function CaseStateOf(o: TreeObject): M.CaseState
    reads o`forceSkip, o`breakpoint, o`verdict, o`execCount
  {
    M.CaseState(o.forceSkip, o.breakpoint, o.verdict, o.execCount)
  }

  ghost function CaseStates(cases: seq<TreeObject>): (r: seq<M.CaseState>)
    reads cases`forceSkip, cases`breakpoint, cases`verdict, cases`execCount
    ensures |r| == |cases|
    ensures forall i :: 0 <= i < |cases| ==> r[i] == CaseStateOf(cases[i])
  {
    if cases == [] then [] else [CaseStateOf(cases[0])] + CaseStates(cases[1..])
  }

  /** The objects of the test cases of a tree, in execution order. */
  ghost function CasesOf(u: Universe, places: seq<nat>): (r: seq<TreeObject>)
    requires forall i :: 0 <= i < |places| ==> places[i] in u.at
    ensures |r| == |places|
    ensures forall i :: 0 <= i < |places| ==> r[i] == u.at[places[i]]
  {
    if places == [] then [] else [u.at[places[0]]] + CasesOf(u, places[1..])
  }

  ghost function PlanOf(t: Node, cases: seq<TreeObject>, n: nat): (p: M.Plan)
    requires Distinct(Preorder(t)) && n <= |cases| == |Leaves(t)|
    ensures |p| == n
    ensures forall i :: 0 <= i < n ==>
              p[i] == M.CaseSpec(cases[i].preconds, cases[i].breakIfFailed, cases[i].abortIfFailed,
                NextPlace(t, i, Break))
  {
    if n == 0 then [] else
      var o := cases[n - 1];
      PlanOf(t, cases, n - 1) + [M.CaseSpec(o.preconds, o.breakIfFailed, o.abortIfFailed, NextPlace(t, n - 1, Break))]
  }

  /** The test cases of a tree are the leaves of its shape. */
  lemma {:induction false} LeavesAreCases(u: Universe, f: Links, t: Node)
    requires Realizes(u, f) && Unfolds(f, t)
    ensures forall k :: k in Leaves(t) ==> k in u.at && u.at[k].kind == Case
  {
    if t.kids == [] {
      assert u.at[t.key] in u.objs;
    } else {
      LeavesAreCasesAll(u, f, t.kids);
    }
  }

  lemma {:induction false} LeavesAreCasesAll(u: Universe, f: Links, ts: seq<Node>)
    requires Realizes(u, f) && forall t :: t in ts ==> Unfolds(f, t)
    ensures forall k :: k in LeavesAll(ts) ==> k in u.at && u.at[k].kind == Case
  {
    if ts != [] {
      LeavesAreCases(u, f, ts[0]);
      LeavesAreCasesAll(u, f, ts[1..]);
    }
  }

  lemma CasesMatch(u: Universe, f: Links, t: Node, cases: seq<TreeObject>, plan: M.Plan)
    requires Realizes(u, f) && Unfolds(f, t) && Distinct(Preorder(t))
    requires forall i :: 0 <= i < |Leaves(t)| ==> Leaves(t)[i] in u.at
    requires cases == CasesOf(u, Leaves(t)) && plan == PlanOf(t, cases, |cases|)
    ensures M.ValidPlan(plan) && |plan| == |cases| == |Leaves(t)| && Distinct(cases)
    ensures forall i :: 0 <= i < |cases| ==> cases[i].kind == Case && cases[i] in u.objs && cases[i].key == Leaves(t)[i]
  {
    hide Unfolds, Distinct, PlanOf, CasesOf;
    LeavesAreCases(u, f, t);
    LeavesDistinct(t);
    CasesDistinct(u, Leaves(t), cases);
  }

  lemma CasesDistinct(u: Universe, places: seq<nat>, cases: seq<TreeObject>)
    requires Distinct(places) && WellKeyed(u) && |cases| == |places|
    requires forall i :: 0 <= i < |places| ==> places[i] in u.at && cases[i] == u.at[places[i]]
    ensures Distinct(cases)
  {
    assert forall i :: 0 <= i < |places| ==> cases[i].key == places[i];
  }

  lemma {:induction false} CaseIsLeaf(f: Links, t: Node, k: nat)
    requires Unfolds(f, t) && k in Preorder(t) && k in f && f[k] == []
    ensures k in Leaves(t)
  {
    if t.kids != [] {
      CaseIsLeafAll(f, t.kids, k);
    }
  }

  lemma {:induction false} CaseIsLeafAll(f: Links, ts: seq<Node>, k: nat)
    requires (forall t :: t in ts ==> Unfolds(f, t)) && k in PreorderAll(ts) && k in f && f[k] == []
    ensures k in LeavesAll(ts)
  {
    if k in Preorder(ts[0]) {
      CaseIsLeaf(f, ts[0], k);
    } else {
      CaseIsLeafAll(f, ts[1..], k);
    }
  }

  /** All test cases of the table are in the plan. */
  lemma NoCaseMissed(table: seq<TreeObject>, u: Universe, f: Links, t: Node, cases: seq<TreeObject>)
    requires Realizes(u, f) && Unfolds(f, t) && WholeTable(table, u, t)
    requires |cases| == |Leaves(t)| && forall i :: 0 <= i < |cases| ==> cases[i] in u.objs && cases[i].key == Leaves(t)[i]
    ensures Tabled(table, cases)
  {
    hide Unfolds, Leaves;
    forall o | o in table && o.kind == Case ensures o in cases {
      CaseIsLeaf(f, t, o.key);
      var i :| 0 <= i < |Leaves(t)| && Leaves(t)[i] == o.key;
      assert cases[i] == u.at[o.key];
    }
  }

  /** The test cases are those of the table, whose keys differ and are not 0. */
  ghost predicate Tabled(table: seq<TreeObject>, cases: seq<TreeObject>) {
    && (forall o :: o in cases ==> o in table)
    && (forall o :: o in table && o.kind == Case ==> o in cases)
    && (forall o :: o in table ==> o.key != 0)
    && (forall o, o' :: o in table && o' in table && o.key == o'.key ==> o == o')
  }

  /** The place of the test case of a key; -1 when there is none. */
  ghost function KeyPlace(cases: seq<TreeObject>, key: nat): (r: int)
    ensures r == -1 || (0 <= r < |cases| && cases[r].key == key)
    ensures r == -1 ==> forall i :: 0 <= i < |cases| ==> cases[i].key != key
  {
    if cases == [] then -1
    else if cases[|cases| - 1].key == key then |cases| - 1
    else KeyPlace(cases[..|cases| - 1], key)
  }

  /** The run control of a tree just loaded, which starts in a fresh session. */
  method NewRun(root: TreeObject, table: seq<TreeObject>, ghost u: Universe, ghost f: Links, ghost t: Node)
    returns (run: TestRun)
    requires Ready(u, f, root, t)
    requires WholeTable(table, u, t)
    modifies table`breakpoint, table`execCount, table`verdict, table`verdictCriticity
    ensures fresh(run) && run.root == root && run.table == table
    ensures run.Valid() && run.Loaded() && M.Fresh(run.plan, run.Session()) && Tabled(table, run.cases)
  {
    hide *;
    run := MakeRun(root, table, u, f, t);
    run.ClearRun();
    run.IsFresh();
  }

  method MakeRun(root: TreeObject, table: seq<TreeObject>, ghost u: Universe, ghost f: Links, ghost t: Node)
    returns (run: TestRun)
    requires Ready(u, f, root, t) && WholeTable(table, u, t)
    ensures fresh(run) && run.root == root && run.table == table && run.requestCase == null
    ensures run.Planned() && M.ValidPlan(run.plan) && run.Loaded() && Tabled(table, run.cases)
    ensures forall c :: c in run.cases ==> c in table
  {
    hide Unfolds, Distinct, PlanOf, CasesOf, Jumps;
    LeavesAreCases(u, f, t);
    ghost var cases := CasesOf(u, Leaves(t));
    ghost var plan := PlanOf(t, cases, |cases|);
    CasesMatch(u, f, t, cases, plan);
    NoCaseMissed(table, u, f, t, cases);
    run := new TestRun(root, table, u, f, t, cases, plan);
    RunIsPlanned(run);
  }

  lemma RunIsPlanned(run: TestRun)
    requires Ready(run.u, run.f, run.root, run.t) && Tabled(run.table, run.cases)
    requires forall i :: 0 <= i < |Leaves(run.t)| ==> Leaves(run.t)[i] in run.u.at
    requires run.cases == CasesOf(run.u, Leaves(run.t)) && run.plan == PlanOf(run.t, run.cases, |run.cases|)
    ensures run.Planned() && M.ValidPlan(run.plan) && run.Loaded() && forall c :: c in run.cases ==> c in run.table
  {
    hide PlanOf, CasesOf, Unfolds, Realizes, Threaded, Jumps, Distinct;
    PlanFits(run.u, run.f, run.t, run.cases, run.plan);
  }

  lemma PlanFits(u: Universe, f: Links, t: Node, cases: seq<TreeObject>, plan: M.Plan)
    requires Realizes(u, f) && Unfolds(f, t) && Distinct(Preorder(t))
    requires forall i :: 0 <= i < |Leaves(t)| ==> Leaves(t)[i] in u.at
    requires cases == CasesOf(u, Leaves(t)) && plan == PlanOf(t, cases, |cases|)
    ensures M.ValidPlan(plan) && |plan| == |cases| == |Leaves(t)| && Distinct(cases)
    ensures forall i :: 0 <= i < |cases| ==> cases[i].kind == Case && cases[i] in u.objs && cases[i].key == Leaves(t)[i]
    ensures forall i :: 0 <= i < |cases| ==>
              plan[i] == M.CaseSpec(cases[i].preconds, cases[i].breakIfFailed, cases[i].abortIfFailed,
                NextPlace(t, i, Break))
  {
    hide *;
    CasesMatch(u, f, t, cases, plan);
  }

  /** What the execution process may reply. */
  datatype Reply = VerdictReply(verdict: Verdict, criticity: int) | InputReply | SpawnFailed | NoSystem | System

  class TestRun {
    /** The object of the tree root, and the objects of the item table. */
    const root: TreeObject
    const table: seq<TreeObject>
    var current: TreeObject?
    var state: M.RunState
    var stepping: bool
    var debug: bool
    /** The test case whose entry in the log is open. */
    var requestCase: TreeObject?
    ghost var place: nat
    ghost var openPlace: nat
    ghost var out: seq<M.Output>
    ghost const cases: seq<TreeObject>
    ghost const plan: M.Plan

    /** The plan describes the test cases. */
    ghost predicate Planned() {
      && |plan| == |cases| && Distinct(cases)
      && forall i :: 0 <= i < |cases| ==>
           && cases[i].kind == Case
           && plan[i] == M.CaseSpec(cases[i].preconds, cases[i].breakIfFailed, cases[i].abortIfFailed, plan[i].breakTo)
    }

    ghost predicate Valid()
      reads this, cases`breakpoint
    {
      && Planned() && M.ValidPlan(plan) && |plan| == |cases|
      && (current != null ==> place < |cases| && cases[place] == current)
      && (requestCase != null ==> openPlace < |cases| && cases[openPlace] == requestCase)
      && (forall i :: 0 <= i < |cases| ==> cases[i].breakpoint <= 2)
    }

    ghost function Session(): (s: M.Session)
      requires Valid()
      reads this, cases`forceSkip, cases`breakpoint, cases`verdict, cases`execCount
      ensures M.InPlan(plan, s)
    {
      M.Session(state, stepping, if current == null then None else Some(place), debug,
                if requestCase == null then None else Some(openPlace), CaseStates(cases), out)
    }

    lemma PlanIsValid()
      requires Valid()
      ensures M.ValidPlan(plan) && |plan| == |cases|
    {
    }

    // ----- the tree behind the test cases -----

    ghost const u: Universe
    ghost const f: Links
    ghost const t: Node

    /** The test cases are those of a tree ready for execution, and the plan tells where they break to. */
    ghost predicate Loaded()
      reads u.objs`nodes, u.slots`obj, u.objs`endJump, u.objs`breakJump
    {
      && Ready(u, f, root, t)
      && |cases| == |plan| == |Leaves(t)|
      && (forall i :: 0 <= i < |cases| ==> cases[i] in u.objs && cases[i].key == Leaves(t)[i])
      && (forall i :: 0 <= i < |cases| ==> plan[i].breakTo == NextPlace(t, i, Break))
    }

    constructor (root: TreeObject, table: seq<TreeObject>, ghost u: Universe, ghost f: Links, ghost t: Node,
                 ghost cases: seq<TreeObject>, ghost plan: M.Plan)
      requires |plan| == |cases|
      ensures this.root == root && this.table == table && this.u == u && this.f == f && this.t == t
      ensures this.cases == cases && this.plan == plan
      ensures current == null && requestCase == null && state == M.Resetting && !stepping && !debug && out == []
    {
      this.root, this.table, this.u, this.f, this.t := root, table, u, f, t;
      this.cases, this.plan := cases, plan;
      current, place, state, stepping, debug := null, 0, M.Resetting, false, false;
      requestCase, openPlace, out := null, 0, [];
    }

    // ----- operations on the current test case -----

    /** Open an entry of the log for the current test case, unless it is the open one. */
    method OutputCase()
      requires Valid() && Loaded() && current != null
      modifies this`out, this`requestCase, this`openPlace, current`execCount
      ensures Valid() && Loaded()
      ensures Session() == if old(requestCase) == current
              then old(Session()) else M.OpenCase(plan, old(Session()), place)
    {
      hide TestRun.Loaded, M.InPlan;
      if requestCase != current {
        requestCase, openPlace := current, place;
        current.execCount := current.execCount + 1;
        out := out + [M.Opened(place)];
      }
    }

    method Request(code: int)
      requires Valid() && Loaded() && current != null
      modifies this`out, this`requestCase, this`openPlace, current`execCount
      ensures Valid() && Loaded() && Session() == M.SendRequest(plan, old(Session()), place, code)
    {
      hide TestRun.Loaded, TestRun.Planned, M.ValidPlan, CaseStates, M.InPlan, M.OpenCase;
      M.OpenAnyway(plan, Session(), place);
      requestCase := null;
      OutputCase();
      out := out + [M.Request(place, code)];
    }

    /** A manual action, on the current test case. */
    method ManualAction(text: string)
      requires Valid() && Loaded() && current != null && M.Enabled(plan, Session(), M.ManualAction(text))
      modifies this`out, this`requestCase, this`openPlace, current`execCount
      ensures Valid() && Loaded() && Session() == M.Step(plan, old(Session()), M.ManualAction(text))
    {
      hide TestRun.Loaded, M.ValidPlan, CaseStates, M.InPlan;
      OutputCase();
      out := out + [M.Action(place, text)];
    }

    /** End the execution process, and the log. */
    method Kill()
      requires Valid() && Loaded()
      modifies this`requestCase, this`out
      ensures Valid() && Loaded() && Session() == M.Kill(old(Session()))
    {
      hide TestRun.Loaded, TestRun.Planned, M.ValidPlan, CaseStates, M.InPlan;
      requestCase := null;
      out := out + [M.Closed];
    }

    /** The place a verdict leads to is where the links of the tree lead. */
    lemma NextLinked(i: nat, verdict: Verdict)
      requires Planned() && M.ValidPlan(plan) && Loaded() && i < |cases|
      ensures cases[i].key in Jumps(t, None, None)
      ensures var next := Next(t, cases[i].key, OutcomeOf(verdict, cases[i].breakIfFailed, cases[i].abortIfFailed));
              var j := M.NextOf(plan, i, verdict);
              if j < |cases| then next == Some(cases[j].key) && cases[j].key in u.at
                 && u.at[cases[j].key] == cases[j] else next == None
    {
      hide Threaded, Jumps, Preorder, Realizes, Unfolds;
      var o := OutcomeOf(verdict, cases[i].breakIfFailed, cases[i].abortIfFailed);
      assert NextPlace(t, i, o) == M.NextOf(plan, i, verdict);
      assert WellKeyed(u) by { assert Ready(u, f, root, t); RealizesKeyed(u, f); }
    }

    lemma RealizesKeyed(u: Universe, f: Links)
      requires Realizes(u, f)
      ensures WellKeyed(u)
    {
    }

    method Advance(verdict: Verdict, criticity: int) returns (branch: TreeObject?)
      requires Valid() && Loaded() && current != null
      modifies current`verdict, current`verdictCriticity
      ensures Loaded() && current.verdict == verdict
      ensures current.verdictCriticity == if criticity < 0 then current.criticity else criticity
      ensures var j := M.NextOf(plan, place, verdict);
              branch == if j < |cases| then cases[j] else null
    {
      hide Ready;
      NextLinked(place, verdict);
      branch := ObjectExecuted(current, verdict, criticity, u, f, root, t);
    }

    method Record(verdict: Verdict, criticity: int) returns (branch: TreeObject?)
      requires Valid() && Loaded() && current != null
      modifies current`verdict, current`verdictCriticity
      ensures Valid() && Loaded()
      ensures current.verdictCriticity == if criticity < 0 then current.criticity else criticity
      ensures var s, i := old(Session()), place; Session() == s.(cases := s.cases[i := s.cases[i].(verdict := verdict)])
      ensures var j := M.NextOf(plan, place, verdict);
              branch == if j < |cases| then cases[j] else null
    {
      hide TestRun.Loaded, M.ValidPlan, M.NextOf, CaseStates, M.InPlan;
      ghost var states := CaseStates(cases);
      branch := Advance(verdict, criticity);
      assert CaseStates(cases) == states[place := states[place].(verdict := verdict)];
    }

    /** Give the current test case its verdict. */
    method GiveVerdict(verdict: Verdict, criticity: int) returns (branch: TreeObject?)
      requires Valid() && Loaded() && current != null
      modifies this`out, current`verdict, current`verdictCriticity
      ensures Valid() && Loaded()
      ensures Session() == M.GiveVerdict(plan, old(Session()), place, verdict)
      ensures current.verdictCriticity == if criticity < 0 then current.criticity else criticity
      ensures var j := M.NextOf(plan, place, verdict);
              branch == if j < |cases| then cases[j] else null
    {
      hide TestRun.Loaded, TestRun.Planned, M.ValidPlan, M.NextOf, M.InPlan, CaseStates;
      branch := Record(verdict, criticity);
      out := out + [M.VerdictSet(place, verdict)];
    }

    method SetVerdict(verdict: Verdict, criticity: int) returns (finished: bool)
      requires Valid() && Loaded()
      modifies this`current, this`place, this`out, cases`verdict, cases`verdictCriticity
      ensures Valid() && Loaded() && (Session(), finished) == M.SetVerdict(plan, old(Session()), verdict)
      ensures var o := old(current);
              o != null ==> o.verdictCriticity == if criticity < 0 then o.criticity else criticity
    {
      hide TestRun.Loaded, CaseStates, TestRun.Planned, M.ValidPlan, M.NextOf, M.InPlan, M.GiveVerdict;
      if current == null {
        return true;
      }
      var branch := GiveVerdict(verdict, criticity);
      finished := branch == null;
      if branch != null {
        current, place := branch, M.NextOf(plan, place, verdict);
      }
    }

    method Finish()
      requires Valid() && Loaded()
      modifies this`current, this`state, this`requestCase, this`out
      ensures Valid() && Loaded() && Session() == M.Finish(old(Session()))
    {
      hide TestRun.Loaded, TestRun.Planned, M.ValidPlan, CaseStates;
      current := null;
      state := M.Finished;
      Kill();
    }

    /** The preconditions of the current test case, evaluated on its own last verdict. */
    method Precond() returns (ok: bool)
      requires Valid() && Loaded() && current != null
      ensures Loaded() && ok == M.MayRun(plan, Session(), place)
    {
      hide TestRun.Loaded, M.ValidPlan;
      if current.forceSkip {
        return false;
      }
      var k := 0;
      while k < |current.preconds|
        invariant 0 <= k <= |current.preconds|
        invariant forall l :: 0 <= l < k ==> M.PrecondHolds(current.preconds[l], current.verdict)
      {
        var c := current.preconds[k];
        if c.neq {
          if current.verdict == c.value {
            return false;
          }
        } else if current.verdict != c.value {
          return false;
        }
        k := k + 1;
      }
      ok := true;
    }

    method Proceed()
      requires Valid() && Loaded()
      modifies this, cases`verdict, cases`verdictCriticity, cases`execCount, cases`breakpoint
      ensures Valid() && Loaded() && Session() == M.Proceed(plan, old(Session()))
      decreases M.Left(plan, Session()), 4
    {
      hide TestRun.Loaded, TestRun.Planned, M.ValidPlan, CaseStates, M.Go, M.InPlan;
      if stepping {
        stepping := false;
        state := M.Waiting;
      } else {
        Go();
      }
    }

    method Continue(verdict: Verdict, criticity: int)
      requires Valid() && Loaded()
      modifies this, cases`verdict, cases`verdictCriticity, cases`execCount, cases`breakpoint
      ensures Valid() && Loaded() && Session() == M.Continue(plan, old(Session()), verdict)
      decreases M.Left(plan, Session()), 0
    {
      hide TestRun.Loaded, TestRun.Planned, M.ValidPlan, CaseStates, M.Proceed, M.InPlan;
      if current == null {
        return;
      }
      var finished := SetVerdict(verdict, criticity);
      if finished {
        Finish();
      } else {
        Proceed();
      }
    }

    method Simulate(verdict: Verdict)
      requires Valid() && Loaded()
      modifies this, cases`verdict, cases`verdictCriticity, cases`execCount, cases`breakpoint
      ensures Valid() && Loaded() && Session() == M.Simulate(plan, old(Session()), verdict)
      decreases M.Left(plan, Session()), 1
    {
      hide TestRun.Loaded, M.ValidPlan, CaseStates, M.Continue;
      if current == null || current.kind != Case {
        return;
      }
      Request(M.Code(verdict));
      Continue(verdict, -1);
    }

    method GoStraight()
      requires Valid() && Loaded() && current != null
      modifies this, cases`verdict, cases`verdictCriticity, cases`execCount, cases`breakpoint
      ensures Valid() && Loaded() && Session() == M.GoStraight(plan, old(Session()))
      decreases M.Left(plan, Session()), 2
    {
      hide TestRun.Loaded, TestRun.Planned, M.ValidPlan, M.Simulate, M.InPlan;
      var ok := Precond();
      if ok {
        state := M.Running;
        Request(if current.breakpoint != 0 then M.EXECUTE_AT_BREAKPOINT else M.EXECUTE);
      } else {
        Simulate(Skip);
      }
    }

    /** The first test case of the tree. */
    method FirstCase() returns (first: TreeObject)
      requires Valid() && Loaded()
      ensures Loaded() && |cases| > 0 && first == cases[0]
    {
      first := Seek(root, u, f, Some(t));
      FirstLeafIsFirst(t);
    }

    method Pick()
      requires Valid() && Loaded()
      modifies this`current, this`place
      ensures Valid() && Loaded() && Session() == M.Pick(plan, old(Session()))
    {
      hide TestRun.Loaded, TestRun.Planned, CaseStates;
      if current == null {
        current := FirstCase();
        place := 0;
      }
    }

    method Go()
      requires Valid() && Loaded()
      modifies this, cases`verdict, cases`verdictCriticity, cases`execCount, cases`breakpoint
      ensures Valid() && Loaded() && Session() == M.Go(plan, old(Session()))
      decreases M.Left(plan, Session()), 3
    {
      hide TestRun.Loaded, TestRun.Planned, M.ValidPlan, M.GoStraight, CaseStates, M.Pick, M.Trip, M.InPlan;
      Pick();
      if current.breakpoint == 1 {
        Trip();
        if debug {
          GoStraight();
        } else {
          state := M.Waiting;
        }
      } else {
        GoStraight();
      }
    }

    /** The breakpoint of the current test case is met. */
    method Trip()
      requires Valid() && Loaded() && current != null && current.breakpoint == 1
      modifies this`out, current`breakpoint
      ensures Valid() && Loaded()
      ensures Session() == M.Trip(plan, old(Session()), place)
    {
      hide TestRun.Loaded, M.ValidPlan;
      current.breakpoint := 2;
      out := out + [M.Halt(place)];
    }

    // ----- actions and replies -----

    method AbortRun()
      requires Valid() && Loaded()
      modifies this, cases`verdict, cases`verdictCriticity
      ensures Valid() && Loaded() && Session() == M.AbortRun(plan, old(Session()))
    {
      hide TestRun.Loaded, TestRun.Planned, M.ValidPlan, CaseStates, M.SetVerdict;
      Kill();
      if state == M.Running || state == M.Asking {
        var finished := SetVerdict(Inconclusive, -1);
      }
      Finish();
    }

    /** The breakpoints of all test cases of the table are armed again, and nothing counts as executed. */
    method ResetCounters()
      requires Loaded()
      modifies table`breakpoint, table`execCount
      ensures Loaded()
      ensures forall o :: o in table && o.kind == Case ==>
                o.breakpoint == (if old(o.breakpoint) != 0 then 1 else 0) && o.execCount == 0
    {
      hide TestRun.Loaded;
      for i := 0 to |table|
        invariant Loaded()
        invariant forall j :: 0 <= j < i && table[j].kind == Case ==>
                    table[j].breakpoint == (if old(table[j].breakpoint) != 0 then 1 else 0) && table[j].execCount == 0
        invariant forall o :: o in table && o !in table[..i] ==> o.breakpoint == old(o.breakpoint)
      {
        if table[i].kind == Case {
          if table[i].breakpoint != 0 {
            table[i].breakpoint := 1;
          }
          table[i].execCount := 0;
        }
      }
    }

    method ClearVerdicts()
      requires Loaded()
      modifies table`verdict, table`verdictCriticity
      ensures Loaded()
      ensures forall o :: o in table && o.kind == Case ==> o.verdict == Unexecuted && o.verdictCriticity == 0
    {
      hide TestRun.Loaded;
      for i := 0 to |table|
        invariant Loaded()
        invariant forall j :: 0 <= j < i && table[j].kind == Case ==> table[j].verdict == Unexecuted && table[j].verdictCriticity == 0
      {
        if table[i].kind == Case {
          table[i].verdict := Unexecuted;
          table[i].verdictCriticity := 0;
        }
      }
    }

    lemma IsFresh()
      requires Valid() && state == M.Resetting && !stepping && current == null && requestCase == null && out == []
      requires forall c :: c in cases ==> c.breakpoint <= 1 && c.execCount == 0
      ensures M.Fresh(plan, Session())
    {
      hide M.ValidPlan;
      assert forall i :: 0 <= i < |cases| ==> cases[i] in cases;
    }

    /** Back to the start: the open entry of the log is another matter. */
    method ClearRun()
      requires Planned() && M.ValidPlan(plan) && Loaded() && (forall c :: c in cases ==> c in table)
      requires requestCase != null ==> openPlace < |cases| && cases[openPlace] == requestCase
      modifies this`stepping, this`current, this`state, this`out
      modifies table`breakpoint, table`execCount, table`verdict, table`verdictCriticity
      ensures Valid() && Loaded() && state == M.Resetting && !stepping && current == null && out == []
      ensures forall c :: c in cases ==>
                && c.breakpoint == (if old(c.breakpoint) != 0 then 1 else 0) && c.execCount == 0
                && c.verdict == Unexecuted && c.verdictCriticity == 0
    {
      hide TestRun.Loaded, M.ValidPlan, CaseStates;
      stepping := false;
      current := null;
      ResetCounters();
      state := M.Resetting;
      ClearVerdicts();
      out := [];
    }

    method ResetRun()
      requires Valid() && Loaded() && forall c :: c in cases ==> c in table
      modifies this, table`breakpoint, table`execCount, table`verdict, table`verdictCriticity
      ensures Valid() && Loaded() && Session() == M.ResetRun(plan, old(Session()))
    {
      hide TestRun.Loaded, TestRun.Planned, M.ValidPlan, CaseStates;
      ghost var states := CaseStates(cases);
      ClearRun();
      forall i | 0 <= i < |cases|
        ensures CaseStates(cases)[i] == M.ResetCase(states[i])
      {
        assert cases[i] in table;
      }
    }

    // ----- the actions of the interface -----

    /** Start or resume the run; `spawned` tells whether the execution process could be created. */
    method Start(step: bool, spawned: bool)
      requires Valid() && Loaded() && forall c :: c in cases ==> c in table
      requires M.Enabled(plan, Session(), M.Start(step, spawned))
      modifies this, table`breakpoint, table`execCount, table`verdict, table`verdictCriticity
      modifies cases`breakpoint, cases`execCount, cases`verdict, cases`verdictCriticity
      ensures Valid() && Loaded() && Session() == M.Step(plan, old(Session()), M.Start(step, spawned))
    {
      hide TestRun.Loaded, TestRun.Planned, M.ValidPlan, CaseStates, M.Go, M.ResetRun, M.InPlan;
      stepping := step;
      if state == M.Resetting {
        state := M.Spawning;
        if !spawned {
          ResetRun();
        }
      } else {
        Go();
      }
    }

    /** The object of a key. */
    method Lookup(key: nat) returns (o: TreeObject?)
      requires Valid() && Loaded()
      ensures Valid() && Loaded() && Session() == old(Session())
      ensures o == null ==> key == 0 || forall x :: x in table ==> x.key != key
      ensures o != null ==> o in table && o.key == key && key != 0
    {
      o := null;
      if key == 0 {
        return;
      }
      var i := 0;
      while i < |table|
        invariant 0 <= i <= |table| && forall j :: 0 <= j < i ==> table[j].key != key
      {
        if table[i].key == key {
          return table[i];
        }
        i := i + 1;
      }
    }

    /** The test case of a key; nothing when the key is that of no test case. */
    method LookupCase(key: nat) returns (o: TreeObject?)
      requires Valid() && Loaded() && Tabled(table, cases)
      ensures Valid() && Loaded() && Session() == old(Session())
      ensures var i := KeyPlace(cases, key); if i == -1 then o == null else o == cases[i]
    {
      hide TestRun.Loaded, M.ValidPlan, CaseStates;
      o := Lookup(key);
      if o != null && o.kind != Case {
        o := null;
      }
    }

    method Jump(key: nat) returns (ret: int)
      requires Valid() && Loaded() && Tabled(table, cases) && state == M.Waiting
      modifies this`current, this`place
      ensures Valid() && Loaded()
      ensures var i := KeyPlace(cases, key);
              if i == -1 then ret == -1 && Session() == old(Session())
              else ret == 0 && Session() == M.Step(plan, old(Session()), M.Jump(i))
    {
      hide TestRun.Loaded, M.ValidPlan, CaseStates, Tabled, M.InPlan;
      var o := LookupCase(key);
      if o == null {
        return -1;
      }
      current, place := o, KeyPlace(cases, key);
      ret := 0;
    }

    method Input(verdict: Verdict)
      requires Valid() && Loaded()
      requires M.Enabled(plan, Session(), M.UserInput(verdict))
      modifies this, cases`verdict, cases`verdictCriticity, cases`execCount, cases`breakpoint
      ensures Valid() && Loaded() && Session() == M.Step(plan, old(Session()), M.UserInput(verdict))
    {
      hide TestRun.Loaded, TestRun.Planned, M.ValidPlan, CaseStates, M.Simulate;
      if state == M.Asking {
        state := M.Running;
        out := out + [M.Answer(verdict)];
      } else if state == M.Waiting {
        stepping := true;
        Simulate(verdict);
      }
    }

    method UserAbort()
      requires Valid() && Loaded() && M.Enabled(plan, Session(), M.UserAbort)
      modifies this, cases`verdict, cases`verdictCriticity
      ensures Valid() && Loaded() && Session() == M.Step(plan, old(Session()), M.UserAbort)
    {
      hide TestRun.Loaded, TestRun.Planned, M.ValidPlan, CaseStates, M.AbortRun;
      if state == M.Running || state == M.Asking {
        out := out + [M.Message(M.USER_ABORT)];
      }
      AbortRun();
    }

    method UserReset()
      requires Valid() && Loaded() && (forall c :: c in cases ==> c in table) && M.Enabled(plan, Session(), M.UserReset)
      modifies this, table`breakpoint, table`execCount, table`verdict, table`verdictCriticity
      ensures Valid() && Loaded() && Session() == M.Step(plan, old(Session()), M.UserReset)
    {
      hide TestRun.Loaded, TestRun.Planned, M.ValidPlan, CaseStates, M.ResetRun;
      Kill();
      ResetRun();
    }

    /** Set the debug mode; a negative value only asks for it. */
    method SetDebug(value: int) returns (ret: bool)
      requires Valid() && Loaded() && (value >= 0 ==> M.Enabled(plan, Session(), M.SetDebug(value != 0)))
      modifies this`debug
      ensures Valid() && Loaded() && ret == debug
      ensures Session() == if value >= 0 then M.Step(plan, old(Session()), M.SetDebug(value != 0)) else old(Session())
    {
      hide TestRun.Loaded, TestRun.Planned, M.ValidPlan, CaseStates;
      if value >= 0 {
        debug := value != 0;
      }
      ret := debug;
    }

    method PutBreakpoint(o: TreeObject, value: int, ghost i: nat) returns (ret: int)
      requires Valid() && Loaded() && i < |cases| && o == cases[i]
      modifies o`breakpoint
      ensures Valid() && Loaded() && Session() == M.PutBreakpoint(plan, old(Session()), i, value)
      ensures ret == o.breakpoint
    {
      hide TestRun.Loaded, M.ValidPlan, CaseStates, M.InPlan;
      ghost var states := CaseStates(cases);
      if value >= 0 {
        o.breakpoint := value;
      }
      if o.breakpoint != 0 {
        o.breakpoint := 1;
      }
      ret := o.breakpoint;
      assert CaseStates(cases) == states[i := states[i].(breakpoint := M.NewBreakpoint(states[i].breakpoint, value))];
    }

    /** Set or clear the breakpoint of a test case; a negative value only asks for it. */
    method SetBreakpoint(key: nat, value: int) returns (ret: int)
      requires Valid() && Loaded() && Tabled(table, cases)
      modifies table`breakpoint
      ensures Valid() && Loaded()
      ensures var i := KeyPlace(cases, key);
              if i == -1 then ret == -1 && Session() == old(Session())
              else ret == cases[i].breakpoint && Session() == M.Step(plan, old(Session()), M.SetBreakpoint(i, value))
    {
      hide *;
      var o := LookupCase(key);
      if o == null {
        return -1;
      }
      InTable(KeyPlace(cases, key));
      PlanIsValid();
      M.StepPut(plan, Session(), KeyPlace(cases, key), value);
      ret := PutBreakpoint(o, value, KeyPlace(cases, key));
    }

    lemma InTable(i: nat)
      requires Tabled(table, cases) && i < |cases|
      ensures cases[i] in table
    {
    }

    method PutSkip(o: TreeObject, value: int) returns (ret: int)
      requires Valid() && Loaded() && Tabled(table, cases) && o in table
      modifies o`forceSkip
      ensures Valid() && Loaded()
      ensures var i := KeyPlace(cases, o.key);
              Session() == if i == -1 then old(Session()) else M.PutSkip(plan, old(Session()), i, value)
      ensures o.forceSkip == M.NewSkip(old(o.forceSkip), value) && (ret != 0 <==> o.forceSkip)
    {
      hide TestRun.Loaded, M.ValidPlan, CaseStates, M.InPlan;
      ghost var states, i := CaseStates(cases), KeyPlace(cases, o.key);
      ret := value;
      if value < 0 {
        ret := if o.forceSkip then 0 else 1;
      }
      o.forceSkip := ret != 0;
      assert i != -1 ==> o == cases[i];
      assert CaseStates(cases) == if i == -1
             then states else states[i := states[i].(skip := M.NewSkip(states[i].skip, value))];
    }

    /** Set the skip flag of a test case, or of a sequence, which is nothing to the run; a negative value toggles it. */
    method SetSkip(key: nat, value: int) returns (ret: int)
      requires Valid() && Loaded() && Tabled(table, cases)
      modifies table`forceSkip
      ensures Valid() && Loaded()
      ensures var i := KeyPlace(cases, key);
              Session() == if i == -1 then old(Session()) else M.Step(plan, old(Session()), M.SetSkip(i, value))
      ensures forall o :: o in table && o.key == key && key != 0 ==>
                o.forceSkip == M.NewSkip(old(o.forceSkip), value) && (ret != 0 <==> o.forceSkip)
      ensures forall o :: o in table && o.key != key ==> o.forceSkip == old(o.forceSkip)
      ensures (forall o :: o in table ==> o.key != key) ==> ret == -1
    {
      hide *;
      hide M.NewSkip;
      var o := Lookup(key);
      KeyInTable(key);
      if o == null {
        return -1;
      }
      PlanIsValid();
      if KeyPlace(cases, key) != -1 {
        M.StepPut(plan, Session(), KeyPlace(cases, key), value);
      }
      ret := PutSkip(o, value);
    }

    lemma KeyInTable(key: nat)
      requires Tabled(table, cases)
      ensures KeyPlace(cases, key) != -1 ==> key != 0 && cases[KeyPlace(cases, key)] in table
      ensures forall o, o' :: o in table && o' in table && o.key == o'.key ==> o == o'
    {
    }

    // ----- the replies of the execution process -----

    method InputRequest()
      requires Valid() && Loaded()
      modifies this`state
      ensures Valid() && Loaded() && Session() == M.Step(plan, old(Session()), M.GotInputRequest)
    {
      hide TestRun.Loaded, M.ValidPlan, CaseStates;
      if state == M.Running && current != null && current.kind == Case {
        state := M.Asking;
      }
    }

    /** The execution process is ready, with or without a system definition. */
    method Spawned(system: bool)
      requires Valid() && Loaded()
      modifies this, cases`verdict, cases`verdictCriticity, cases`execCount, cases`breakpoint
      ensures Valid() && Loaded()
              && Session() == M.Step(plan, old(Session()), if system then M.GotSystem else M.GotNoSystem)
    {
      hide *;
      PlanIsValid();
      M.StepSpawned(plan, Session());
      Pick();
      if system {
        Proceed();
      } else {
        Go();
      }
    }

    method GotReply(r: Reply)
      requires Valid() && Loaded() && (r.VerdictReply? ==> r.verdict != Unexecuted)
      modifies this, cases`verdict, cases`verdictCriticity, cases`execCount, cases`breakpoint
      ensures Valid() && Loaded()
      ensures match r
              case VerdictReply(v, _) => Session() == M.Step(plan, old(Session()), M.GotVerdict(v))
              case InputReply => Session() == M.Step(plan, old(Session()), M.GotInputRequest)
              case SpawnFailed => Session() == M.Step(plan, old(Session()), M.GotSpawnFailed)
              case NoSystem => Session() == M.Step(plan, old(Session()), M.GotNoSystem)
              case System => Session() == M.Step(plan, old(Session()), M.GotSystem)
    {
      hide TestRun.Loaded, TestRun.Planned, TestRun.Session, M.ValidPlan, CaseStates, M.Continue, M.AbortRun;
      match r {
        case VerdictReply(verdict, criticity) => Continue(verdict, criticity);
        case InputReply => InputRequest();
        case SpawnFailed => AbortRun();
        case NoSystem => Spawned(false);
        case System => Spawned(true);
      }
    }
  }
}
