/**
  Event triggers and their counters (core/engine/trig.c). Whether a message matches the pattern of
  a trigger is an arbitrary input.
 */
module Triggers {
  import opened CText
  import opened Shapes

  /** The counters of the triggers, by name. */
  type Counts = map<string, nat>

  class Trig {
    const id: string
    const periph: Option<nat>
    var state: nat

    constructor (id: string, periph: Option<nat>)
      ensures this.id == id && this.periph == periph && state == 0
    {
      this.id, this.periph, state := id, periph, 0;
    }
  }

  /** The names are those of the triggers, all different. */
  ghost predicate WellNamed(trigs: seq<Trig>) {
    forall i, j :: 0 <= i < j < |trigs| ==> trigs[i].id != trigs[j].id
  }

  ghost function CountsOf(trigs: seq<Trig>): Counts
    reads trigs
  {
    if trigs == [] then map[]
    else CountsOf(trigs[..|trigs| - 1])[trigs[|trigs| - 1].id := trigs[|trigs| - 1].state]
  }

  lemma {:induction false} CountsAt(trigs: seq<Trig>)
    requires WellNamed(trigs)
    ensures forall i :: 0 <= i < |trigs| ==>
              trigs[i].id in CountsOf(trigs) && CountsOf(trigs)[trigs[i].id] == trigs[i].state
    ensures forall id :: id in CountsOf(trigs) ==> exists i :: 0 <= i < |trigs| && trigs[i].id == id
  {
    if trigs != [] {
      var front, last := trigs[..|trigs| - 1], trigs[|trigs| - 1];
      CountsAt(front);
      assert CountsOf(trigs) == CountsOf(front)[last.id := last.state];
      forall i | 0 <= i < |trigs|
        ensures trigs[i].id in CountsOf(trigs) && CountsOf(trigs)[trigs[i].id] == trigs[i].state
      {
        if i < |trigs| - 1 {
          assert front[i] == trigs[i] && trigs[i].id != last.id;
        }
      }
      forall id | id in CountsOf(trigs) ensures exists i :: 0 <= i < |trigs| && trigs[i].id == id {
        if id == last.id {
          assert trigs[|trigs| - 1].id == id;
        } else {
          var i :| 0 <= i < |front| && front[i].id == id;
          assert trigs[i].id == id;
        }
      }
    }
  }

  /** The first trigger of that name. */
  method Retrieve(trigs: seq<Trig>, id: string) returns (trig: Trig?)
    requires WellNamed(trigs)
    ensures trig == null <==> id !in CountsOf(trigs)
    ensures trig != null ==> trig in trigs && trig.id == id && CountsOf(trigs)[id] == trig.state
  {
    CountsAt(trigs);
    trig := null;
    var i := 0;
    while i < |trigs|
      invariant 0 <= i <= |trigs|
      invariant forall j :: 0 <= j < i ==> trigs[j].id != id
    {
      if trigs[i].id == id {
        trig := trigs[i];
        return;
      }
      i := i + 1;
    }
  }

  // ----- counting -----

  /** A message from a peripheral, with the names of the triggers whose pattern it matches. */
  datatype Message = Message(periph: nat, matches: set<string>)

  predicate Raises(trig: Trig, m: Message) {
    (trig.periph == None || trig.periph == Some(m.periph)) && trig.id in m.matches
  }

  /** How many of the messages match the trigger `id`, among those from its peripheral, or from any when it has none. */
  function Matching(messages: seq<Message>, id: string, periph: Option<nat>): nat {
    if messages == [] then 0
    else
      var m := messages[|messages| - 1];
      Matching(messages[..|messages| - 1], id, periph)
      + if (periph == None || periph == Some(m.periph)) && id in m.matches then 1 else 0
  }

  lemma {:induction false} MatchingInTurn(a: seq<Message>, b: seq<Message>, id: string, periph: Option<nat>)
    ensures Matching(a + b, id, periph) == Matching(a, id, periph) + Matching(b, id, periph)
    decreases |b|
  {
    if b == [] {
      assert a + b == a;
    } else {
      assert (a + b)[..|a + b| - 1] == a + b[..|b| - 1];
      MatchingInTurn(a, b[..|b| - 1], id, periph);
    }
  }

  method UpdateItem(trig: Trig, m: Message) returns (raised: bool)
    modifies trig`state
    ensures raised <==> (trig.periph == None || trig.periph == Some(m.periph)) && trig.id in m.matches
    ensures trig.state == old(trig.state) + if raised then 1 else 0
  {
    raised := false;
    if trig.periph == None || trig.periph == Some(m.periph) {
      if trig.id in m.matches {
        trig.state := trig.state + 1;
        raised := true;
      }
    }
  }

  /** Every trigger that the message raises counts one more, and the others keep their counter. */
  method Update(trigs: seq<Trig>, m: Message) returns (raised: bool)
    requires WellNamed(trigs)
    modifies trigs`state
    ensures forall i :: 0 <= i < |trigs| ==>
              trigs[i].state == old(trigs[i].state) + if Raises(trigs[i], m) then 1 else 0
    ensures raised <==> exists i :: 0 <= i < |trigs| && Raises(trigs[i], m)
    ensures Grows(old(CountsOf(trigs)), CountsOf(trigs))
  {
    hide CountsOf, Shows;
    ghost var states := Snapshot(trigs);
    ghost var before := CountsOf(trigs);
    raised := false;
    var i := 0;
    while i < |trigs|
      invariant 0 <= i <= |trigs|
      invariant forall j :: 0 <= j < i ==> trigs[j].state == states[j] + if Raises(trigs[j], m) then 1 else 0
      invariant forall j :: i <= j < |trigs| ==> trigs[j].state == states[j]
      invariant raised <==> exists j :: 0 <= j < i && Raises(trigs[j], m)
    {
      Apart(trigs, i);
      var up := UpdateItem(trigs[i], m);
      raised := raised || up;
      i := i + 1;
    }
    CountsGrow(trigs, before, states);
  }

  lemma Apart(trigs: seq<Trig>, i: nat)
    requires WellNamed(trigs) && i < |trigs|
    ensures forall j :: 0 <= j < |trigs| && j != i ==> trigs[j] != trigs[i]
  {
    assert forall j :: 0 <= j < |trigs| && j != i ==> trigs[j].id != trigs[i].id;
  }

  /** The counters `c` are those of the triggers, which are in these states. */
  ghost predicate Shows(c: Counts, trigs: seq<Trig>, states: seq<nat>) {
    && |states| == |trigs|
    && (forall i :: 0 <= i < |trigs| ==> trigs[i].id in c && c[trigs[i].id] == states[i])
    && forall id :: id in c ==> exists i :: 0 <= i < |trigs| && trigs[i].id == id
  }

  lemma Snapshot(trigs: seq<Trig>) returns (states: seq<nat>)
    requires WellNamed(trigs)
    ensures Shows(CountsOf(trigs), trigs, states)
    ensures |states| == |trigs| && forall i :: 0 <= i < |trigs| ==> states[i] == trigs[i].state
  {
    CountsAt(trigs);
    states := seq(|trigs|, i requires 0 <= i < |trigs| reads trigs => trigs[i].state);
  }

  lemma CountsGrow(trigs: seq<Trig>, c: Counts, states: seq<nat>)
    requires WellNamed(trigs) && Shows(c, trigs, states) && |states| == |trigs|
    requires forall i :: 0 <= i < |trigs| ==> states[i] <= trigs[i].state
    ensures Grows(c, CountsOf(trigs))
  {
    hide CountsOf;
    CountsAt(trigs);
  }

  /** The name is one of the `n` first given, in upper case. */
  predicate Named(id: string, ids: seq<string>, n: nat)
    requires n <= |ids|
  {
    exists k :: 0 <= k < n && Upper(ids[k]) == id
  }

  /** Clear the triggers of the names given, all of them when there is none. */
  method Clear(trigs: seq<Trig>, ids: seq<string>)
    requires WellNamed(trigs)
    modifies trigs`state
    ensures forall i :: 0 <= i < |trigs| ==>
              trigs[i].state == if ids == [] || Named(trigs[i].id, ids, |ids|) then 0 else old(trigs[i].state)
  {
    hide CountsOf;
    if ids == [] {
      var i := 0;
      while i < |trigs|
        invariant 0 <= i <= |trigs|
        invariant forall j :: 0 <= j < i ==> trigs[j].state == 0
      {
        trigs[i].state := 0;
        i := i + 1;
      }
    } else {
      var k := 0;
      while k < |ids|
        invariant 0 <= k <= |ids|
        invariant forall i :: 0 <= i < |trigs| ==>
                    trigs[i].state == if Named(trigs[i].id, ids, k) then 0 else old(trigs[i].state)
      {
        CountsAt(trigs);
        NamedNext(ids, k);
        var trig := Retrieve(trigs, Upper(ids[k]));
        if trig != null {
          trig.state := 0;
        }
        k := k + 1;
      }
    }
  }

  lemma NamedNext(ids: seq<string>, k: nat)
    requires k < |ids|
    ensures forall id :: Named(id, ids, k + 1) <==> Named(id, ids, k) || Upper(ids[k]) == id
  {
    var name := Upper(ids[k]);
    assert Named(name, ids, k + 1);
  }

  // ----- counters over time -----

  /** The peripheral of the first trigger of that name. */
  function PeriphOf(trigs: seq<Trig>, id: string): Option<nat> {
    if trigs == [] then None else if trigs[0].id == id then trigs[0].periph else PeriphOf(trigs[1..], id)
  }

  lemma {:induction false} PeriphAt(trigs: seq<Trig>, i: nat)
    requires WellNamed(trigs) && i < |trigs|
    ensures PeriphOf(trigs, trigs[i].id) == trigs[i].periph
  {
    if i > 0 {
      assert trigs[0].id != trigs[i].id;
      PeriphAt(trigs[1..], i - 1);
    }
  }

  /** The counters when these messages have arrived. */
  function Counted(trigs: seq<Trig>, c: Counts, messages: seq<Message>): (r: Counts)
    ensures r.Keys == c.Keys
  {
    map id | id in c :: c[id] + Matching(messages, id, PeriphOf(trigs, id))
  }

  lemma AfterInTurn(trigs: seq<Trig>, c: Counts, a: seq<Message>, b: seq<Message>)
    ensures Counted(trigs, Counted(trigs, c, a), b) == Counted(trigs, c, a + b)
  {
    hide Matching, PeriphOf;
    forall id | id in c ensures Counted(trigs, Counted(trigs, c, a), b)[id] == Counted(trigs, c, a + b)[id] {
      MatchingInTurn(a, b, id, PeriphOf(trigs, id));
    }
  }

  lemma AfterNothing(trigs: seq<Trig>, c: Counts)
    ensures Counted(trigs, c, []) == c
  {
  }

  lemma AfterGrows(trigs: seq<Trig>, c: Counts, messages: seq<Message>)
    ensures Grows(c, Counted(trigs, c, messages))
  {
    hide Matching, PeriphOf;
  }

  /** The counters of triggers that were in other states before these messages. */
  lemma CountsAfter(trigs: seq<Trig>, c: Counts, states: seq<nat>, messages: seq<Message>)
    requires WellNamed(trigs) && Shows(c, trigs, states) && |states| == |trigs|
    requires forall i :: 0 <= i < |trigs| ==>
               trigs[i].state == states[i] + Matching(messages, trigs[i].id, trigs[i].periph)
    ensures CountsOf(trigs) == Counted(trigs, c, messages)
  {
    hide CountsOf, Matching, PeriphOf;
    CountsAt(trigs);
    var c' := CountsOf(trigs);
    assert c'.Keys == c.Keys;
    forall id | id in c ensures c'[id] == Counted(trigs, c, messages)[id] {
      var i :| 0 <= i < |trigs| && trigs[i].id == id;
      PeriphAt(trigs, i);
    }
  }

  /** The same triggers, none of whose counters has decreased. */
  predicate Grows(c: Counts, c': Counts) {
    c.Keys == c'.Keys && forall id :: id in c ==> c[id] <= c'[id]
  }

  /** The counters at each moment of a time when messages arrive and nothing is cleared. */
  predicate Growing(cs: seq<Counts>) {
    forall i, j :: 0 <= i && j == i + 1 < |cs| ==> Grows(cs[i], cs[j])
  }

  lemma {:induction false} GrowsOverTime(cs: seq<Counts>, i: nat, j: nat)
    requires Growing(cs) && i <= j < |cs|
    ensures Grows(cs[i], cs[j])
    decreases j
  {
    if i < j {
      GrowsOverTime(cs, i, j - 1);
      assert Grows(cs[j - 1], cs[j]);
    }
  }
}
