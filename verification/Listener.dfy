/**
  Event listeners (core/engine/listener.c): the operands of the expression of a WAIT command are
  resolved to triggers, whose counters decide whether the expression holds.
 */
module Listener {
  import opened CText
  import opened Shapes
  import opened Expr
  import opened ExprEval
  import opened ExprMeaning
  import opened ExprCorrect
  import opened Packing
  import opened Triggers

  // ----- what an operand asks for -----

  /** At least `count` events of the trigger; with a negative `count`, fewer than that. */
  datatype Demand = Demand(id: string, count: int)

  /** Read a whole text as a number; None when it has something else at its end. */
  type Numbers = string -> Option<int>

  /** The place of the first star; the length of the text when there is none. */
  function Star(s: string): (k: nat)
    ensures k <= |s|
    ensures k < |s| ==> s[k] == '*'
    ensures '*' !in s[..k]
  {
    if s == [] || s[0] == '*' then 0 else
      assert s[..Star(s[1..]) + 1] == [s[0]] + s[1..][..Star(s[1..])];
      1 + Star(s[1..])
  }

  /** `[!]<trigger>[*<count>]`; None when the count is not a positive number. */
  function Asked(value: string, number: Numbers): Option<Demand> {
    var k := Star(value);
    var count := if k < |value| then number(value[k + 1..]) else Some(1);
    var name := value[..k];
    if count == None || count.value < 1 then None
    else if name != [] && name[0] == '!' then Some(Demand(name[1..], -count.value))
    else Some(Demand(name, count.value))
  }

  /** Whether an operand holds, given the counters. */
  predicate Raised(value: string, number: Numbers, c: Counts) {
    var d := Asked(value, number);
    && d.Some? && d.value.id in c
    && if d.value.count < 0 then c[d.value.id] < -d.value.count else c[d.value.id] >= d.value.count
  }

  lemma {:induction false} StarAt(a: string, b: string)
    requires '*' !in a
    ensures Star(a) == |a| && Star(a + "*" + b) == |a|
  {
    if a == [] {
      assert (a + "*" + b)[0] == '*';
    } else {
      assert (a + "*" + b)[0] == a[0] && (a + "*" + b)[1..] == a[1..] + "*" + b;
      StarAt(a[1..], b);
    }
  }

  /** An operand with a count `t`: at least so many events of the trigger, and with a `!` fewer than that. */
  lemma CountedOperand(name: string, t: string, number: Numbers, c: Counts)
    requires '*' !in name
    ensures (name == [] || name[0] != '!') ==>
              (Raised(name + "*" + t, number, c) <==>
                 number(t).Some? && number(t).value >= 1 && name in c && c[name] >= number(t).value)
    ensures Raised("!" + name + "*" + t, number, c) <==>
              number(t).Some? && number(t).value >= 1 && name in c && c[name] < number(t).value
  {
    StarAt(name, t);
    var v := name + "*" + t;
    assert v[..|name|] == name && v[|name| + 1..] == t;
    StarAt("!" + name, t);
    var w := "!" + name + "*" + t;
    assert w[..|name| + 1] == "!" + name && w[|name| + 2..] == t && ("!" + name)[1..] == name;
  }

  /** Without a count, one event is asked for, and with a `!` none must have come. */
  lemma SimpleOperand(name: string, number: Numbers, c: Counts)
    requires '*' !in name
    ensures (name == [] || name[0] != '!') ==> (Raised(name, number, c) <==> name in c && c[name] >= 1)
    ensures Raised("!" + name, number, c) <==> name in c && c[name] == 0
  {
    StarAt(name, []);
    assert name[..|name|] == name;
    StarAt("!" + name, []);
    assert ("!" + name)[..|name| + 1] == "!" + name && ("!" + name)[1..] == name;
  }

  function Levels(number: Numbers, c: Counts): Valuation {
    v => Raised(v, number, c)
  }

  /** An operand has a good count and names a trigger. */
  predicate Good(item: Item, number: Numbers, c: Counts) {
    item.Operand? ==> Asked(item.value, number).Some? && Asked(item.value, number).value.id in c
  }

  predicate Resolved(items: seq<Item>, number: Numbers, c: Counts) {
    forall i :: 0 <= i < |items| ==> Good(items[i], number, c)
  }

  // ----- listeners -----

  /** An item of the compiled expression, with the trigger and the count of an operand. */
  datatype Entry = Entry(item: Item, trig: Trig?, count: int)

  ghost predicate Attached(e: Entry, trigs: seq<Trig>, number: Numbers) {
    && (e.trig != null <==> e.item.Operand?)
    && (e.trig != null ==> e.trig in trigs && Asked(e.item.value, number) == Some(Demand(e.trig.id, e.count)))
  }

  function Items(list: seq<Entry>): (r: seq<Item>)
    ensures |r| == |list|
    ensures forall i :: 0 <= i < |list| ==> r[i] == list[i].item
  {
    seq(|list|, i requires 0 <= i < |list| => list[i].item)
  }

  class Listener {
    const str: string
    const list: seq<Entry>

    constructor (str: string, list: seq<Entry>)
      ensures this.str == str && this.list == list
    {
      this.str, this.list := str, list;
    }

    /** The list is the compiled expression, each operand with its trigger. */
    ghost predicate Valid(trigs: seq<Trig>, number: Numbers) {
      && WellNamed(trigs)
      && Items(list) == Parse(str, None)
      && forall i :: 0 <= i < |list| ==> Attached(list[i], trigs, number)
    }
  }

  /** Resolve an operand: its trigger if any, its count, and the number of errors. */
  method NewData(trigs: seq<Trig>, value: string, number: Numbers) returns (trig: Trig?, count: int, errors: nat)
    requires WellNamed(trigs)
    ensures errors == 0 <==> Asked(value, number).Some? && Asked(value, number).value.id in CountsOf(trigs)
    ensures errors == 0 ==> trig != null && trig in trigs && Asked(value, number) == Some(Demand(trig.id, count))
  {
    errors, count := 0, 1;
    var star := 0;
    while star < |value| && value[star] != '*'
      invariant 0 <= star <= |value|
      invariant Star(value) == star + Star(value[star..])
    {
      assert value[star..][1..] == value[star + 1..];
      star := star + 1;
    }
    var s := value[..star];
    if star < |value| {
      var n := number(value[star + 1..]);
      match n {
        case None => errors := errors + 1;
        case Some(v) =>
          count := v;
          if count < 1 {
            errors := errors + 1;
          }
      }
    }
    if s != [] && s[0] == '!' {
      count := -count;
      s := s[1..];
    }
    trig := Retrieve(trigs, s);
    if trig == null {
      errors := errors + 1;
    }
  }

  method NewEntry(trigs: seq<Trig>, item: Item, number: Numbers) returns (e: Entry, errors: nat)
    requires WellNamed(trigs)
    ensures errors == 0 <==> Good(item, number, CountsOf(trigs))
    ensures errors == 0 ==> e.item == item && Attached(e, trigs, number)
  {
    e, errors := Entry(item, null, 0), 0;
    if item.Operand? {
      var trig, count;
      trig, count, errors := NewData(trigs, item.value, number);
      e := Entry(item, trig, count);
    }
  }

  /** Resolve all the operands of an expression. */
  method Resolve(trigs: seq<Trig>, items: seq<Item>, number: Numbers) returns (list: seq<Entry>, errcount: nat)
    requires WellNamed(trigs)
    ensures errcount == 0 <==> Resolved(items, number, CountsOf(trigs))
    ensures errcount == 0 ==> Items(list) == items && forall i :: 0 <= i < |list| ==> Attached(list[i], trigs, number)
  {
    hide CountsOf, WellNamed, Good, Attached;
    list, errcount := [], 0;
    var i := 0;
    while i < |items|
      invariant 0 <= i == |list| <= |items|
      invariant errcount == 0 <==> forall j :: 0 <= j < i ==> Good(items[j], number, CountsOf(trigs))
      invariant errcount == 0 ==> forall j :: 0 <= j < i ==> list[j].item == items[j] && Attached(list[j], trigs, number)
    {
      var e, errors := NewEntry(trigs, items[i], number);
      list := list + [e];
      errcount := errcount + errors;
      i := i + 1;
    }
  }

  /** A listener is made exactly when all its operands are good. */
  method NewListener(args: seq<string>, trigs: seq<Trig>, number: Numbers) returns (listener: Listener?)
    requires WellNamed(trigs) && forall i :: 0 <= i < |args| ==> NUL !in args[i]
    ensures listener != null <==> Resolved(Parse(Pack(args), None), number, CountsOf(trigs))
    ensures listener != null ==> listener.str == Pack(args) && listener.Valid(trigs, number)
  {
    hide Parse, Pack, Resolved, Attached, CountsOf, WellNamed;
    var buf, p := PackExpression(args);
    var str := buf[..p];
    PackHasNoNul(args);
    var compiled := new ItemList();
    ExprCompile(compiled, str);
    assert [] + Parse(str, None) == Parse(str, None);
    var list, errcount := Resolve(trigs, compiled.items, number);
    if errcount > 0 {
      return null;
    }
    listener := new Listener(str, list);
  }

  lemma {:induction false} SqueezeHasNoNul(s: string)
    requires NUL !in s
    ensures NUL !in Squeeze(s)
  {
    if s != [] {
      SqueezeHasNoNul(s[1..]);
    }
  }

  lemma {:induction false} PackHasNoNul(args: seq<string>)
    requires forall i :: 0 <= i < |args| ==> NUL !in args[i]
    ensures NUL !in Pack(args) && NUL !in Join(args)
  {
    if args != [] {
      SqueezeHasNoNul(args[0]);
      PackHasNoNul(args[1..]);
    }
  }

  function Abs(i: int): nat {
    if i < 0 then -i else i
  }

  /** Whether the demand of an operand is met. */
  function ItemState(e: Entry): bool
    requires e.trig != null
    reads e.trig
  {
    var state := e.trig.state >= Abs(e.count);
    if e.count < 0 then !state else state
  }

  /** A listener checks that its expression holds, by the counters of the triggers. */
  method Check(listener: Listener, trigs: seq<Trig>, ghost number: Numbers) returns (result: bool)
    requires listener.Valid(trigs, number)
    ensures result <==> Checks(listener.str, Levels(number, CountsOf(trigs)))
  {
    hide Parse, Eval;
    var list := listener.list;
    CountsAt(trigs);
    ghost var c := CountsOf(trigs);
    var levels: map<string, bool> := map[];
    var i := 0;
    while i < |list|
      invariant 0 <= i <= |list|
      invariant forall v :: v in levels ==> levels[v] == Raised(v, number, c)
      invariant forall j :: 0 <= j < i && list[j].item.Operand? ==> list[j].item.value in levels
    {
      if list[i].trig != null {
        assert Attached(list[i], trigs, number);
        levels := levels[list[i].item.value := ItemState(list[i])];
      }
      i := i + 1;
    }
    var h := v => v in levels && levels[v];
    var items := Items(list);
    var error;
    result, error := Evaluate(items, h);
    SameOperands(items, h, Levels(number, c));
  }

  /** Only the values of the operands of an expression count. */
  lemma SameOperands(items: seq<Item>, h: Valuation, h': Valuation)
    requires forall i :: 0 <= i < |items| && items[i].Operand? ==> h(items[i].value) == h'(items[i].value)
    ensures Eval(items, h) == Eval(items, h')
  {
    EvalMonotone(items, h, h');
    EvalMonotone(items, h', h);
    var e, e' := Eval(items, h), Eval(items, h');
    assert e.Some? ==> e'.Some? && (e.value <==> e'.value) by {
      assert e.Some? && e.value ==> e == Some(true);
      assert e'.Some? && e'.value ==> e' == Some(true);
    }
  }

  // ----- the triggers raised -----

  /** The names of the triggers that reached their count, each followed by a space. */
  function RaisedText(list: seq<Entry>): string
    reads set e | e in list && e.trig != null :: e.trig
  {
    if list == [] then []
    else
      var e := list[|list| - 1];
      RaisedText(list[..|list| - 1]) + EntryText(e)
  }

  function EntryText(e: Entry): string
    reads if e.trig == null then {} else {e.trig}
  {
    if e.trig != null && e.trig.state >= Abs(e.count) then e.trig.id + [' '] else []
  }

  /** The space taken by all the operands of an expression, each followed by a space. */
  function Space(items: seq<Item>): nat {
    if items == [] then 0 else Space(items[..|items| - 1]) + ItemSpace(items[|items| - 1])
  }

  function ItemSpace(item: Item): nat {
    match item
    case Operand(value) => |value| + 1
    case Operation(_) => 0
  }

  lemma {:induction false} SpaceAppend(a: seq<Item>, b: seq<Item>)
    ensures Space(a + b) == Space(a) + Space(b)
  {
    if b == [] {
      assert a + b == a;
    } else {
      assert (a + b)[..|a + b| - 1] == a + b[..|b| - 1];
      SpaceAppend(a, b[..|b| - 1]);
    }
  }

  /** The operands of an expression are disjoint parts of it, with something between them. */
  lemma {:induction false} OperandsFit(s: string, op0: Option<Operator>)
    ensures Space(Parse(s, op0)) <= |s| + 1
    decreases |s|
  {
    hide Parse, Emit, RestItems;
    var k := Stop(s);
    if k < |s| && s[k] == '(' {
      ParseOpen(s, op0, k, s[k + 1..]);
      OperandsFit(s[k + 1..], None);
      SpaceAppend(Parse(s[k + 1..], None), EmitOp(op0));
    } else {
      var op1 := if k < |s| && IsOperator(s[k]) then Some(OperatorOf(s[k])) else None;
      var rest := if k < |s| then s[k + 1..] else [];
      ParseSplit(s, op0, k, op1, rest);
      SpaceAppend(Emit(s[..k]), RestItems(rest, op0, op1));
      EmitFits(s[..k]);
      RestFits(rest, op0, op1);
      if rest != [] {
        OperandsFit(rest, op1);
      }
    }
  }

  lemma EmitFits(left: string)
    ensures Space(Emit(left)) <= |left| + 1
  {
    TokenFits(left);
  }

  lemma RestFits(rest: string, op0: Option<Operator>, op1: Option<Operator>)
    ensures Space(RestItems(rest, op0, op1)) == if rest != [] then Space(Parse(rest, op1)) else 0
  {
    hide Parse;
    var parsed := if rest != [] then Parse(rest, op1) else [];
    var first := BindsFirst(op0, op1);
    var before, after := if first then EmitOp(op0) else [], if first then [] else EmitOp(op0);
    SpaceAppend(before, parsed + after);
    SpaceAppend(parsed, after);
  }

  lemma SpaceNext(items: seq<Item>, i: nat)
    requires i < |items|
    ensures Space(items[..i]) + ItemSpace(items[i]) == Space(items[..i + 1]) <= Space(items)
  {
    assert items == items[..i + 1] + items[i + 1..] && items[..i + 1][..i] == items[..i];
    SpaceAppend(items[..i + 1], items[i + 1..]);
  }

  lemma NothingRaised(items: seq<Item>, list: seq<Entry>)
    ensures Space(items[..0]) == 0 && RaisedText(list[..0]) == []
  {
  }

  lemma RaisedNext(list: seq<Entry>, i: nat)
    requires i < |list|
    ensures RaisedText(list[..i + 1]) == RaisedText(list[..i]) + EntryText(list[i])
  {
    assert list[..i + 1][..i] == list[..i];
  }

  lemma DemandFits(value: string, number: Numbers)
    ensures Asked(value, number).Some? ==> |Asked(value, number).value.id| <= |value|
  {
  }

  method PutRaised(buf: array<char>, p: nat, e: Entry, ghost number: Numbers) returns (q: nat)
    requires e.trig != null ==> e.item.Operand? && Asked(e.item.value, number) == Some(Demand(e.trig.id, e.count))
    requires p + ItemSpace(e.item) <= buf.Length
    modifies buf
    ensures q <= p + ItemSpace(e.item)
    ensures buf[..q] == old(buf[..p]) + EntryText(e)
  {
    q := p;
    if e.trig != null && e.trig.state >= Abs(e.count) {
      DemandFits(e.item.value, number);
      q := Put(buf, p, e.trig.id + [' ']);
    }
  }

  /** The text of the raised triggers always fits the buffer allocated for it. */
  method RaisedTriggers(listener: Listener, ghost trigs: seq<Trig>, ghost number: Numbers)
    returns (buf: array<char>, p: nat)
    requires listener.Valid(trigs, number)
    ensures p < buf.Length == |listener.str| + 3 && buf[p] == NUL && buf[..p] == RaisedText(listener.list)
  {
    hide Parse, Asked, Space, ItemSpace, RaisedText, EntryText;
    var list := listener.list;
    buf := new char[|listener.str| + 2 + 1];
    p := 0;
    ghost var items := Items(list);
    OperandsFit(listener.str, None);
    NothingRaised(items, list);
    var i := 0;
    while i < |list|
      invariant 0 <= i <= |list|
      invariant p <= Space(items[..i]) && p < buf.Length - 1
      invariant buf[..p] == RaisedText(list[..i])
    {
      SpaceNext(items, i);
      RaisedNext(list, i);
      assert Attached(list[i], trigs, number);
      p := PutRaised(buf, p, list[i], number);
      i := i + 1;
    }
    assert list[..i] == list;
    buf[p] := NUL;
  }

  method Put(buf: array<char>, p: nat, text: string) returns (q: nat)
    requires p + |text| <= buf.Length
    modifies buf
    ensures q == p + |text| && buf[..q] == old(buf[..p]) + text
  {
    forall k | 0 <= k < |text| {
      buf[p + k] := text[k];
    }
    q := p + |text|;
    assert buf[..q] == old(buf[..p]) + text;
  }

  // ----- listeners over time -----

  /** No operand has a `!`. */
  predicate NoMark(items: seq<Item>) {
    forall i :: 0 <= i < |items| && items[i].Operand? ==> '!' !in items[i].value
  }

  lemma NoMarkAppend(a: seq<Item>, b: seq<Item>)
    requires NoMark(a) && NoMark(b)
    ensures NoMark(a + b)
  {
  }

  lemma {:induction false} OperandChars(s: string, op0: Option<Operator>)
    requires '!' !in s
    ensures NoMark(Parse(s, op0))
    decreases |s|
  {
    hide Parse, NoMark, Emit;
    var k := Stop(s);
    OperationsUnmarked(op0);
    if k < |s| && s[k] == '(' {
      ParseOpen(s, op0, k, s[k + 1..]);
      OperandChars(s[k + 1..], None);
      NoMarkAppend(Parse(s[k + 1..], None), EmitOp(op0));
    } else {
      var op1 := if k < |s| && IsOperator(s[k]) then Some(OperatorOf(s[k])) else None;
      var rest := if k < |s| then s[k + 1..] else [];
      ParseSplit(s, op0, k, op1, rest);
      TokenChars(s[..k]);
      if rest != [] {
        OperandChars(rest, op1);
      }
      var parsed := if rest != [] then Parse(rest, op1) else [];
      var first := BindsFirst(op0, op1);
      var before, after := if first then EmitOp(op0) else [], if first then [] else EmitOp(op0);
      NoMarkAppend(parsed, after);
      NoMarkAppend(before, parsed + after);
      NoMarkAppend(Emit(s[..k]), RestItems(rest, op0, op1));
    }
  }

  lemma OperationsUnmarked(op: Option<Operator>)
    ensures NoMark(EmitOp(op)) && NoMark([])
  {
  }

  lemma TokenChars(s: string)
    requires '!' !in s
    ensures NoMark(Emit(s))
  {
    SkipChars(s);
    WordChars(SkipSpaces(s));
  }

  lemma {:induction false} SkipChars(s: string)
    requires '!' !in s
    ensures '!' !in SkipSpaces(s)
  {
    if s != [] {
      SkipChars(s[1..]);
    }
  }

  lemma {:induction false} WordChars(s: string)
    requires '!' !in s
    ensures '!' !in Word(s)
  {
    if s != [] {
      WordChars(s[1..]);
    }
  }

  /**
    Without `!`, a listener that checks once keeps checking as long as no counter is cleared; and a
    syntax error shows at the first check or never.
   */
  lemma StaysRaised(s: string, number: Numbers, cs: seq<Counts>, i: nat, j: nat)
    requires '!' !in s && Growing(cs) && i <= j < |cs|
    ensures Checks(s, Levels(number, cs[i])) ==> Checks(s, Levels(number, cs[j]))
    ensures Eval(Parse(s, None), Levels(number, cs[i])) == None
            <==> Eval(Parse(s, None), Levels(number, cs[j])) == None
  {
    hide Parse, Eval;
    GrowsOverTime(cs, i, j);
    OperandChars(s, None);
    EvalMonotone(Parse(s, None), Levels(number, cs[i]), Levels(number, cs[j]));
  }

  /** With `!`, a listener can stop checking. */
  lemma NegatedFalls(number: Numbers)
    ensures Checks("!X", Levels(number, map["X" := 0])) && !Checks("!X", Levels(number, map["X" := 1]))
  {
    hide Parse;
    var s := "!X";
    assert s[1..] == "X" && "X"[1..] == "";
    assert Token(s) == s && Upper(s) == s && Body(s) == s;
    assert Star("X") == 1 && Star(s) == 2 && s[..2] == s;
    assert Asked(s, number) == Some(Demand("X", -1));
    forall c: Counts ensures Checks(s, Levels(number, c)) <==> Raised(s, number, c) {
      SingleMember(s, Levels(number, c));
      CompiledValue(s, Levels(number, c));
    }
  }
}
