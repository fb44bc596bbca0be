/**
  The loop of the WAIT command (core/engine/run.c): check the listener, and block until events
  arrive or the deadline passes. The clock and the events are arbitrary inputs.
 */
module Wait {
  import opened Shapes
  import opened Packing
  import opened Triggers
  import opened Listener

  // ----- clock arithmetic -----

  class Time {
    var sec: int
    var usec: int

    constructor (sec: int, usec: int)
      ensures this.sec == sec && this.usec == usec
    {
      this.sec, this.usec := sec, usec;
    }

    predicate Normal()
      reads this
    {
      0 <= usec < 1000000
    }

    function Micros(): int
      reads this
    {
      sec * 1000000 + usec
    }
  }

  /** The exact difference, and whether it is zero or negative. */
  method TvSub(tv1: Time, tv0: Time) returns (passed: bool)
    requires tv1 != tv0 && tv1.Normal() && tv0.Normal()
    modifies tv1
    ensures tv1.Normal() && tv1.Micros() == old(tv1.Micros()) - tv0.Micros()
    ensures passed <==> tv1.Micros() <= 0
  {
    tv1.sec := tv1.sec - tv0.sec;
    tv1.usec := tv1.usec - tv0.usec;
    if tv1.usec < 0 {
      tv1.sec := tv1.sec - 1;
      tv1.usec := 1000000 + tv1.usec;
    }
    passed := tv1.sec < 0 || (tv1.sec == 0 && tv1.usec == 0);
  }

  // ----- events -----

  /** What a readable peripheral gives: a whole message, a part of one, or an error. */
  datatype Delivery = Whole(message: Message) | Partial | Broken

  /** How a blocking call ends: on an error, at the end of its interval, or with deliveries. */
  datatype Event = SelectError | Expired | Readable(deliveries: seq<Delivery>)

  datatype Code = Failure | Elapsed | Processed

  predicate Fails(event: Event) {
    event == SelectError || (event.Readable? && Broken in event.deliveries)
  }

  /** The whole messages delivered, up to the first peripheral in error. */
  function Messages(ds: seq<Delivery>): seq<Message> {
    if ds == [] then []
    else
      var before, last := Messages(ds[..|ds| - 1]), ds[|ds| - 1];
      if last.Whole? && Broken !in ds[..|ds| - 1] then before + [last.message] else before
  }

  /** The messages that arrive with an event. */
  function Arrived(event: Event): seq<Message> {
    if event.Readable? then Messages(event.deliveries) else []
  }

  lemma {:induction false} MessagesEnd(ds: seq<Delivery>, i: nat)
    requires i < |ds| && ds[i] == Broken
    ensures Messages(ds) == Messages(ds[..i])
  {
    var front := ds[..|ds| - 1];
    if i < |front| {
      MessagesEnd(front, i);
      assert front[..i] == ds[..i] && front[i] == Broken;
    }
  }

  /** The whole messages, before any error, that match the trigger `id` and come from its peripheral, if it has one. */
  ghost function Heard(ds: seq<Delivery>, id: string, periph: Option<nat>): set<int> {
    set k | 0 <= k < |ds| && ds[k].Whole? && (forall j :: 0 <= j < k ==> ds[j] != Broken)
            && (periph == None || periph == Some(ds[k].message.periph)) && id in ds[k].message.matches
  }

  lemma HeardNext(front: seq<Delivery>, last: Delivery, id: string, periph: Option<nat>)
    ensures Heard(front + [last], id, periph) ==
            if last.Whole? && Broken !in front && (periph == None || periph == Some(last.message.periph))
               && id in last.message.matches
            then Heard(front, id, periph) + {|front|} else Heard(front, id, periph)
    ensures |front| !in Heard(front, id, periph)
  {
    var ds := front + [last];
    assert ds[|front|] == last && forall k :: 0 <= k < |front| ==> ds[k] == front[k];
    assert Broken in front <==> exists j :: 0 <= j < |front| && ds[j] == Broken;
  }

  lemma {:induction false} HeardIsMatching(ds: seq<Delivery>, id: string, periph: Option<nat>)
    ensures Matching(Messages(ds), id, periph) == |Heard(ds, id, periph)|
  {
    hide Matching, Heard;
    if ds == [] {
      NoneHeard(id, periph);
    } else {
      var front, last := ds[..|ds| - 1], ds[|ds| - 1];
      HeardIsMatching(front, id, periph);
      assert ds == front + [last];
      HeardNext(front, last, id, periph);
      if last.Whole? {
        MatchingOne(Messages(front), last.message, id, periph);
      }
    }
  }

  lemma NoneHeard(id: string, periph: Option<nat>)
    ensures Matching([], id, periph) == 0 && Heard([], id, periph) == {}
  {
  }

  lemma MatchingOne(messages: seq<Message>, m: Message, id: string, periph: Option<nat>)
    ensures Matching(messages + [m], id, periph)
            == Matching(messages, id, periph)
               + if (periph == None || periph == Some(m.periph)) && id in m.matches then 1 else 0
  {
    assert (messages + [m])[..|messages|] == messages;
  }

  /** Messages are counted by every trigger that they match; those that come after an error are lost. */
  method WaitEvent(trigs: seq<Trig>, event: Event) returns (code: Code)
    requires WellNamed(trigs)
    modifies trigs`state
    ensures code == match event
                    case SelectError => Failure
                    case Expired => Elapsed
                    case Readable(ds) => if Broken in ds then Failure else Processed
    ensures forall i :: 0 <= i < |trigs| ==>
              trigs[i].state == old(trigs[i].state)
                + if event.Readable? then |Heard(event.deliveries, trigs[i].id, trigs[i].periph)| else 0
    ensures CountsOf(trigs) == Counted(trigs, old(CountsOf(trigs)), Arrived(event))
  {
    hide CountsOf, WellNamed, Counted, Matching, Shows, Heard;
    ghost var before := CountsOf(trigs);
    ghost var states := Snapshot(trigs);
    NoneMatching(trigs);
    match event {
      case SelectError => code := Failure;
      case Expired => code := Elapsed;
      case Readable(ds) =>
        code := Process(trigs, ds);
        forall i | 0 <= i < |trigs|
          ensures Matching(Messages(ds), trigs[i].id, trigs[i].periph) == |Heard(ds, trigs[i].id, trigs[i].periph)|
        {
          HeardIsMatching(ds, trigs[i].id, trigs[i].periph);
        }
    }
    CountsAfter(trigs, before, states, Arrived(event));
  }

  lemma NoneMatching(trigs: seq<Trig>)
    ensures forall i :: 0 <= i < |trigs| ==> Matching([], trigs[i].id, trigs[i].periph) == 0
  {
  }

  lemma MatchingNext(messages: seq<Message>, m: Message, trig: Trig)
    ensures Matching(messages + [m], trig.id, trig.periph)
            == Matching(messages, trig.id, trig.periph) + if Raises(trig, m) then 1 else 0
  {
    hide Matching;
    MatchingOne(messages, m, trig.id, trig.periph);
  }

  method Process(trigs: seq<Trig>, ds: seq<Delivery>) returns (code: Code)
    requires WellNamed(trigs)
    modifies trigs`state
    ensures code == if Broken in ds then Failure else Processed
    ensures forall i :: 0 <= i < |trigs| ==>
              trigs[i].state == old(trigs[i].state) + Matching(Messages(ds), trigs[i].id, trigs[i].periph)
  {
    hide WellNamed, Matching, Raises, CountsOf, Messages;
    NoneMatching(trigs);
    NoMessages(ds);
    var k := 0;
    while k < |ds|
      invariant 0 <= k <= |ds| && Broken !in ds[..k]
      invariant forall i :: 0 <= i < |trigs| ==>
                  trigs[i].state == old(trigs[i].state) + Matching(Messages(ds[..k]), trigs[i].id, trigs[i].periph)
    {
      MessagesNext(ds, k);
      match ds[k] {
        case Whole(message) =>
          forall i | 0 <= i < |trigs|
            ensures Matching(Messages(ds[..k]) + [message], trigs[i].id, trigs[i].periph)
                    == Matching(Messages(ds[..k]), trigs[i].id, trigs[i].periph)
                       + if Raises(trigs[i], message) then 1 else 0
          {
            MatchingNext(Messages(ds[..k]), message, trigs[i]);
          }
          var raised := Update(trigs, message);
        case Partial =>
        case Broken =>
          MessagesEnd(ds, k);
          return Failure;
      }
      k := k + 1;
    }
    assert ds[..k] == ds;
    code := Processed;
  }

  lemma NoMessages(ds: seq<Delivery>)
    ensures Messages(ds[..0]) == []
  {
  }

  lemma MessagesNext(ds: seq<Delivery>, k: nat)
    requires k < |ds| && Broken !in ds[..k]
    ensures Messages(ds[..k + 1]) == if ds[k].Whole? then Messages(ds[..k]) + [ds[k].message] else Messages(ds[..k])
  {
    assert ds[..k + 1][..k] == ds[..k];
  }

  // ----- the loop -----

  /** A clock reading, and how the blocking call after it would end. */
  datatype Round = Round(sec: int, usec: int, event: Event)

  datatype Outcome = Continue | Timeout | Error | Waiting

  function Clock(r: Round): int {
    r.sec * 1000000 + r.usec
  }

  predicate Clocks(rounds: seq<Round>) {
    forall i :: 0 <= i < |rounds| ==> 0 <= rounds[i].usec < 1000000
  }

  /** The microseconds left at a round, for a timeout in milliseconds from the time `start`. */
  function Left(timeout: nat, start: int, r: Round): int {
    timeout * 1000 - (Clock(r) - start)
  }

  /**
    A wait that goes on: at each check, by the counters `cs` at that time, the condition did not
    hold; each blocking call was given exactly what was left of the timeout, and ended on events, whose
    messages were counted. The last of `cs` are the counters that the next check will see.
   */
  ghost predicate Pending(trigs: seq<Trig>, str: string, number: Numbers, timeout: nat, start: int, rounds: seq<Round>,
                          cs: seq<Counts>, intervals: seq<int>) {
    && |cs| == |intervals| + 1 <= |rounds| + 1
    && (forall k :: 0 <= k < |intervals| ==> cs[k + 1] == Counted(trigs, cs[k], Arrived(rounds[k].event)))
    && Growing(cs)
    && (forall k :: 0 <= k < |intervals| ==> !Checks(str, Levels(number, cs[k])))
    && forall k :: 0 <= k < |intervals| ==> GoesOn(timeout, start, rounds[k], intervals[k])
  }

  ghost predicate GoesOn(timeout: nat, start: int, r: Round, interval: int) {
    interval == Left(timeout, start, r) > 0 && r.event != Expired && !Fails(r.event)
  }

  /** How a wait ends, on a clock reading or on the blocking call that follows it. */
  ghost predicate EndsOn(outcome: Outcome, timeout: nat, start: int, r: Round, last: seq<int>) {
    var left := Left(timeout, start, r);
    match outcome
    case Timeout => if left <= 0 then last == [] else last == [left] && r.event == Expired
    case Error => left > 0 && last == [left] && Fails(r.event)
    case _ => false
  }

  /** The end of a wait, after `|cs| - 1` whole rounds. */
  ghost predicate Ended(trigs: seq<Trig>, str: string, number: Numbers, timeout: nat, start: int, rounds: seq<Round>,
                        cs: seq<Counts>, intervals: seq<int>, outcome: Outcome)
  {
    var n := |cs| - 1;
    && 0 <= n <= |intervals|
    && Pending(trigs, str, number, timeout, start, rounds, cs, intervals[..n])
    && (outcome == Continue <==> Checks(str, Levels(number, cs[n])))
    && (outcome in {Continue, Waiting} ==> |intervals| == n)
    && (outcome == Waiting ==> n == |rounds|)
    && (outcome in {Timeout, Error} ==> n < |rounds| && EndsOn(outcome, timeout, start, rounds[n], intervals[n..]))
  }

  /**
    Wait through the rounds given. The wait is reported as over exactly when the condition holds at
    a check; it times out only when it does not hold by the counters as they are left.
   */
  method ExecWait(listener: Listener, trigs: seq<Trig>, ghost number: Numbers, timeout: nat, tv0: Time,
                  rounds: seq<Round>)
    returns (outcome: Outcome, intervals: seq<int>, ghost cs: seq<Counts>)
    requires listener.Valid(trigs, number) && tv0.Normal() && Clocks(rounds)
    modifies trigs`state
    ensures Ended(trigs, listener.str, number, timeout, tv0.Micros(), rounds, cs, intervals, outcome)
    ensures Outcomes(trigs, listener.str, number, timeout, tv0.Micros(), old(CountsOf(trigs)), rounds, outcome)
    ensures cs != [] && cs[0] == old(CountsOf(trigs))
    ensures outcome != Error ==> CountsOf(trigs) == cs[|cs| - 1]
  {
    hide CountsOf, WellNamed, Checks, Levels, Clocks, Growing, Pending, Ended, Counted, Arrived, Outcomes;
    var sec, usec := timeout / 1000, (timeout % 1000) * 1000;
    ghost var str, start := listener.str, tv0.Micros();
    intervals, cs := [], [CountsOf(trigs)];
    PendingFirst(trigs, str, number, timeout, start, rounds, cs[0]);
    outcome := Waiting;
    var unblock, expired, error, i := false, false, false, 0;
    while !(unblock || expired || error) && i <= |rounds|
      invariant 0 <= i <= |rounds| + 1 && (i == |rounds| + 1 ==> outcome == Waiting)
      invariant tv0.Micros() == start && tv0.Normal() && listener.Valid(trigs, number)
      invariant cs != [] && cs[0] == old(CountsOf(trigs)) && (outcome != Error ==> cs[|cs| - 1] == CountsOf(trigs))
      invariant outcome == if unblock then Continue else if expired then Timeout else if error then Error else Waiting
      invariant outcome == Waiting && i <= |rounds| ==>
                  Pending(trigs, str, number, timeout, start, rounds, cs, intervals) && |intervals| == i && |cs| == i + 1
      invariant outcome != Waiting || i > |rounds| ==>
                  Ended(trigs, str, number, timeout, start, rounds, cs, intervals, outcome)
      decreases |rounds| + 1 - i, outcome == Waiting
    {
      unblock := Check(listener, trigs, number);
      if unblock {
        outcome := Continue;
        EndsNow(trigs, str, number, timeout, start, rounds, cs, intervals, outcome);
      } else if i == |rounds| {
        EndsNow(trigs, str, number, timeout, start, rounds, cs, intervals, outcome);
        i := i + 1;
      } else {
        var passed, left := Remaining(sec, usec, tv0, rounds, i);
        if passed {
          expired, outcome := true, Timeout;
          EndsNow(trigs, str, number, timeout, start, rounds, cs, intervals, outcome);
        } else {
          if !rounds[i].event.Readable? {
            NothingArrives(trigs, CountsOf(trigs), rounds[i].event);
          }
          var code := WaitEvent(trigs, rounds[i].event);
          match code {
            case Failure =>
              error, outcome := true, Error;
              EndsBlocked(trigs, str, number, timeout, start, rounds, cs, intervals, outcome, left);
            case Elapsed =>
              expired, outcome := true, Timeout;
              EndsBlocked(trigs, str, number, timeout, start, rounds, cs, intervals, outcome, left);
            case Processed =>
              PendingNext(trigs, str, number, timeout, start, rounds, cs, intervals, left, CountsOf(trigs));
              cs := cs + [CountsOf(trigs)];
              i := i + 1;
          }
          intervals := intervals + [left];
        }
      }
    }
    OutcomeIs(trigs, str, number, timeout, start, rounds, cs, intervals, outcome);
  }

  lemma NothingArrives(trigs: seq<Trig>, c: Counts, event: Event)
    requires !event.Readable?
    ensures Counted(trigs, c, Arrived(event)) == c
  {
    AfterNothing(trigs, c);
  }

  lemma PendingFirst(trigs: seq<Trig>, str: string, number: Numbers, timeout: nat, start: int, rounds: seq<Round>, c: Counts)
    ensures Pending(trigs, str, number, timeout, start, rounds, [c], [])
  {
  }

  lemma PendingNext(trigs: seq<Trig>, str: string, number: Numbers, timeout: nat, start: int, rounds: seq<Round>,
                    cs: seq<Counts>, intervals: seq<int>, left: int, c: Counts)
    requires Pending(trigs, str, number, timeout, start, rounds, cs, intervals) && |intervals| < |rounds|
    requires !Checks(str, Levels(number, cs[|cs| - 1])) && c == Counted(trigs, cs[|cs| - 1], Arrived(rounds[|intervals|].event))
    requires GoesOn(timeout, start, rounds[|intervals|], left)
    ensures Pending(trigs, str, number, timeout, start, rounds, cs + [c], intervals + [left])
  {
    hide Checks, Levels, Grows, GoesOn, Counted, Arrived;
    AfterGrows(trigs, cs[|cs| - 1], Arrived(rounds[|intervals|].event));
  }

  /** The wait ends before a blocking call. */
  lemma EndsNow(trigs: seq<Trig>, str: string, number: Numbers, timeout: nat, start: int, rounds: seq<Round>,
                cs: seq<Counts>, intervals: seq<int>, outcome: Outcome)
    requires Pending(trigs, str, number, timeout, start, rounds, cs, intervals) && cs != []
    requires match outcome
             case Continue => Checks(str, Levels(number, cs[|cs| - 1]))
             case Waiting => !Checks(str, Levels(number, cs[|cs| - 1])) && |intervals| == |rounds|
             case Timeout =>
               && !Checks(str, Levels(number, cs[|cs| - 1])) && |intervals| < |rounds|
               && Left(timeout, start, rounds[|intervals|]) <= 0
             case Error => false
    ensures Ended(trigs, str, number, timeout, start, rounds, cs, intervals, outcome)
  {
    hide Checks, Levels, Growing;
    assert intervals[..|intervals|] == intervals && intervals[|intervals|..] == [];
  }

  /** The wait ends with a blocking call. */
  lemma EndsBlocked(trigs: seq<Trig>, str: string, number: Numbers, timeout: nat, start: int, rounds: seq<Round>,
                    cs: seq<Counts>, intervals: seq<int>, outcome: Outcome, left: int)
    requires Pending(trigs, str, number, timeout, start, rounds, cs, intervals) && cs != [] && |intervals| < |rounds|
    requires !Checks(str, Levels(number, cs[|cs| - 1])) && left == Left(timeout, start, rounds[|intervals|]) > 0
    requires (outcome == Timeout && rounds[|intervals|].event == Expired) || (outcome == Error
             && Fails(rounds[|intervals|].event))
    ensures Ended(trigs, str, number, timeout, start, rounds, cs, intervals + [left], outcome)
  {
    hide Checks, Levels, Growing;
    var all := intervals + [left];
    assert all[..|intervals|] == intervals && all[|intervals|..] == [left];
  }

  /** What is left of the timeout at a clock reading, in microseconds. */
  method Remaining(sec: int, usec: int, tv0: Time, rounds: seq<Round>, i: nat) returns (passed: bool, left: int)
    requires tv0.Normal() && 0 <= usec < 1000000 && Clocks(rounds) && i < |rounds|
    ensures left == sec * 1000000 + usec - (Clock(rounds[i]) - tv0.Micros())
    ensures passed <==> left <= 0
  {
    var tv1 := new Time(rounds[i].sec, rounds[i].usec);
    var elapsed := TvSub(tv1, tv0);
    var tv := new Time(sec, usec);
    passed := TvSub(tv, tv1);
    left := tv.Micros();
  }

  // ----- a whole wait -----

  /** All the messages that arrive in some rounds. */
  function AllArrived(rounds: seq<Round>): seq<Message> {
    if rounds == [] then [] else AllArrived(rounds[..|rounds| - 1]) + Arrived(rounds[|rounds| - 1].event)
  }

  /** The condition is met by the counters `c` and the messages of the first `k` rounds. */
  ghost predicate Met(trigs: seq<Trig>, str: string, number: Numbers, c: Counts, rounds: seq<Round>, k: nat)
    requires k <= |rounds|
  {
    Checks(str, Levels(number, Counted(trigs, c, AllArrived(rounds[..k]))))
  }

  /** The clock has reached the deadline. */
  predicate Late(timeout: nat, start: int, r: Round) {
    r.sec * 1000000 + r.usec >= start + timeout * 1000
  }

  predicate InError(event: Event) {
    match event
    case SelectError => true
    case Expired => false
    case Readable(ds) => exists i :: 0 <= i < |ds| && ds[i] == Broken
  }

  /** In the first `k` rounds the condition is not met, the deadline is ahead, and every call ends on deliveries. */
  ghost predicate Standing(trigs: seq<Trig>, str: string, number: Numbers, timeout: nat, start: int, c: Counts,
                           rounds: seq<Round>, k: nat)
    requires k <= |rounds|
  {
    forall j :: 0 <= j < k ==>
      && !Met(trigs, str, number, c, rounds, j) && !Late(timeout, start, rounds[j])
      && rounds[j].event.Readable? && !InError(rounds[j].event)
  }

  /** How a wait must end at round `k`. */
  ghost predicate EndsAt(trigs: seq<Trig>, str: string, number: Numbers, timeout: nat, start: int, c: Counts,
                         rounds: seq<Round>, k: nat, outcome: Outcome)
    requires k <= |rounds|
  {
    if Met(trigs, str, number, c, rounds, k) then outcome == Continue
    else if k == |rounds| then outcome == Waiting
    else if Late(timeout, start, rounds[k]) || rounds[k].event == Expired then outcome == Timeout
    else InError(rounds[k].event) && outcome == Error
  }

  /** The outcome of a wait, from the counters at its start and what the rounds bring. */
  ghost predicate Outcomes(trigs: seq<Trig>, str: string, number: Numbers, timeout: nat, start: int, c: Counts,
                           rounds: seq<Round>, outcome: Outcome)
  {
    exists k :: 0 <= k <= |rounds| && Standing(trigs, str, number, timeout, start, c, rounds, k)
                && EndsAt(trigs, str, number, timeout, start, c, rounds, k, outcome)
  }

  /** There is only one such outcome. */
  lemma OneOutcome(trigs: seq<Trig>, str: string, number: Numbers, timeout: nat, start: int, c: Counts,
                   rounds: seq<Round>, a: Outcome, b: Outcome)
    requires Outcomes(trigs, str, number, timeout, start, c, rounds, a)
    requires Outcomes(trigs, str, number, timeout, start, c, rounds, b)
    ensures a == b
  {
    hide Met, Late, InError;
    var k :| 0 <= k <= |rounds| && Standing(trigs, str, number, timeout, start, c, rounds, k)
             && EndsAt(trigs, str, number, timeout, start, c, rounds, k, a);
    var l :| 0 <= l <= |rounds| && Standing(trigs, str, number, timeout, start, c, rounds, l)
             && EndsAt(trigs, str, number, timeout, start, c, rounds, l, b);
    NotBoth(trigs, str, number, timeout, start, c, rounds, k, l, a);
    NotBoth(trigs, str, number, timeout, start, c, rounds, l, k, b);
  }

  lemma NotBoth(trigs: seq<Trig>, str: string, number: Numbers, timeout: nat, start: int, c: Counts,
                rounds: seq<Round>, k: nat, l: nat, outcome: Outcome)
    requires k <= |rounds| && l <= |rounds| && EndsAt(trigs, str, number, timeout, start, c, rounds, k, outcome)
    requires Standing(trigs, str, number, timeout, start, c, rounds, l)
    ensures l <= k
  {
    hide Met, Late, InError;
  }

  /** The counters at each check are those at the start and all the messages since. */
  lemma {:induction false} CountsAtCheck(trigs: seq<Trig>, rounds: seq<Round>, cs: seq<Counts>, k: nat)
    requires k < |cs| <= |rounds| + 1
    requires forall j :: 0 <= j < |cs| - 1 ==> cs[j + 1] == Counted(trigs, cs[j], Arrived(rounds[j].event))
    ensures cs[k] == Counted(trigs, cs[0], AllArrived(rounds[..k]))
  {
    hide Counted, Arrived;
    if k == 0 {
      AfterNothing(trigs, cs[0]);
      assert AllArrived(rounds[..0]) == [];
    } else {
      CountsAtCheck(trigs, rounds, cs, k - 1);
      assert cs[k - 1 + 1] == Counted(trigs, cs[k - 1], Arrived(rounds[k - 1].event));
      assert rounds[..k][..k - 1] == rounds[..k - 1];
      AfterInTurn(trigs, cs[0], AllArrived(rounds[..k - 1]), Arrived(rounds[k - 1].event));
    }
  }

  lemma OutcomeIs(trigs: seq<Trig>, str: string, number: Numbers, timeout: nat, start: int, rounds: seq<Round>,
                  cs: seq<Counts>, intervals: seq<int>, outcome: Outcome)
    requires Ended(trigs, str, number, timeout, start, rounds, cs, intervals, outcome)
    ensures cs != [] && Outcomes(trigs, str, number, timeout, start, cs[0], rounds, outcome)
  {
    hide Checks, Levels, Counted, Arrived, Growing;
    var n := |cs| - 1;
    forall j | 0 <= j <= n ensures Met(trigs, str, number, cs[0], rounds, j) <==> Checks(str, Levels(number, cs[j])) {
      CountsAtCheck(trigs, rounds, cs, j);
    }
    hide Met;
    forall j | 0 <= j < n
      ensures !Late(timeout, start, rounds[j]) && rounds[j].event.Readable? && !InError(rounds[j].event)
    {
      assert GoesOn(timeout, start, rounds[j], intervals[..n][j]);
    }
    assert Standing(trigs, str, number, timeout, start, cs[0], rounds, n);
    assert EndsAt(trigs, str, number, timeout, start, cs[0], rounds, n, outcome);
  }

  /** A condition that the messages of a round make true ends the wait at the next check, if it gets that far. */
  lemma HeardAtNextCheck(trigs: seq<Trig>, str: string, number: Numbers, timeout: nat, start: int, c: Counts,
                         rounds: seq<Round>, outcome: Outcome, k: nat)
    requires Outcomes(trigs, str, number, timeout, start, c, rounds, outcome) && k < |rounds|
    requires Standing(trigs, str, number, timeout, start, c, rounds, k + 1)
    requires Met(trigs, str, number, c, rounds, k + 1)
    ensures outcome == Continue
  {
    hide Met, Late, InError;
    assert EndsAt(trigs, str, number, timeout, start, c, rounds, k + 1, Continue);
    OneOutcome(trigs, str, number, timeout, start, c, rounds, outcome, Continue);
  }

  /**
    Without `!`, a condition that holds at any moment between two checks, by the counters `c` at that
    moment, is not missed: the next check ends the wait.
   */
  lemma NothingMissed(trigs: seq<Trig>, str: string, number: Numbers, timeout: nat, start: int, rounds: seq<Round>,
                      cs: seq<Counts>, intervals: seq<int>, outcome: Outcome, k: nat, c: Counts)
    requires Ended(trigs, str, number, timeout, start, rounds, cs, intervals, outcome) && k < |cs|
    requires '!' !in str && Grows(c, cs[k]) && Checks(str, Levels(number, c))
    ensures outcome == Continue && k == |cs| - 1
  {
    hide Checks, Levels, Grows;
    var moments := [c, cs[k]];
    assert Growing(moments);
    StaysRaised(str, number, moments, 0, 1);
  }
}
