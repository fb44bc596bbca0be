/**
  The trigger expression compiler and its stack machine (core/engine/expr.c).
 */
module Expr {
  import opened CText
  import opened Shapes

  datatype Operator = And | Or

  datatype Item = Operand(value: string) | Operation(op: Operator)

  function Priority(op: Operator): int {
    match op
    case And => 2
    case Or => 1
  }

  // ----- what the parser emits -----

  predicate IsOperator(c: char) {
    c == '&' || c == '|'
  }

  predicate IsStop(c: char) {
    c == '(' || c == ')' || IsOperator(c)
  }

  function OperatorOf(c: char): Operator {
    if c == '&' then And else Or
  }

  /** The place of the first parenthesis or operator; the length of the text when there is none. */
  function Stop(s: string): (k: nat)
    ensures k <= |s|
  {
    if s == [] || IsStop(s[0]) then 0 else 1 + Stop(s[1..])
  }

  function Emit(left: string): seq<Item> {
    if Token(left) == [] then [] else [Operand(Upper(Token(left)))]
  }

  function EmitOp(op: Option<Operator>): seq<Item> {
    match op
    case None => []
    case Some(o) => [Operation(o)]
  }

  /** The pending operator is emitted before the next operator is dealt with. */
  predicate BindsFirst(op0: Option<Operator>, op1: Option<Operator>) {
    op0.Some? && (op1.None? || Priority(op0.value) >= Priority(op1.value))
  }

  /** The items emitted for a text, with an operator `op0` pending. */
  function Parse(s: string, op0: Option<Operator>): seq<Item>
    decreases 2 * |s| + 1
  {
    var k := Stop(s);
    if k < |s| && s[k] == '(' then
      Parse(s[k + 1..], None) + EmitOp(op0)
    else
      var op1 := if k < |s| && IsOperator(s[k]) then Some(OperatorOf(s[k])) else None;
      Emit(s[..k]) + RestItems(if k < |s| then s[k + 1..] else [], op0, op1)
  }

  /** The items emitted after the first word, given the operator before it and the one after it. */
  function RestItems(rest: string, op0: Option<Operator>, op1: Option<Operator>): seq<Item>
    decreases if rest == [] then 0 else 2 * |rest| + 2
  {
    (if BindsFirst(op0, op1) then EmitOp(op0) else [])
    + ((if rest != [] then Parse(rest, op1) else [])
       + (if BindsFirst(op0, op1) then [] else EmitOp(op0)))
  }

  // ----- the parser -----

  class ItemList {
    var items: seq<Item>

    constructor ()
      ensures items == []
    {
      items := [];
    }
  }

  /** The C string at place `i` of a buffer goes up to the NUL at place `n`. */
  predicate Text(buf: array<char>, i: nat, n: nat)
    reads buf
  {
    i <= n < buf.Length && buf[n] == NUL && forall j :: i <= j < n ==> buf[j] != NUL
  }

  method StrSkipSpaces(buf: array<char>, i: nat, ghost n: nat) returns (j: nat)
    requires Text(buf, i, n)
    ensures i <= j <= n && buf[j..n] == SkipSpaces(buf[i..n])
  {
    ghost var s := buf[i..n];
    j := i;
    while buf[j] != NUL && Blank(buf[j])
      invariant i <= j <= n
      invariant SkipSpaces(s) == SkipSpaces(s[j - i..])
      decreases n - j
    {
      assert s[j - i] == buf[j] && s[j - i..][1..] == s[j + 1 - i..];
      j := j + 1;
    }
    assert s[j - i..] == buf[j..n];
  }

  method StrSkipChars(buf: array<char>, i: nat, ghost n: nat) returns (j: nat)
    requires Text(buf, i, n)
    ensures i <= j <= n && buf[i..j] == Word(buf[i..n])
  {
    hide Word;
    ghost var s := buf[i..n];
    j := i;
    assert s[..0] + Word(s[0..]) == Word(s) by { assert s[0..] == s; }
    while !Blank(buf[j])
      invariant i <= j <= n
      invariant Word(s) == s[..j - i] + Word(s[j - i..])
      decreases n - j
    {
      WordStep(s, j - i);
      j := j + 1;
    }
    WordEnds(s[j - i..]);
    assert s[..j - i] == buf[i..j];
  }

  lemma WordStep(s: string, k: nat)
    requires k < |s| && !Blank(s[k])
    ensures s[..k] + Word(s[k..]) == s[..k + 1] + Word(s[k + 1..])
  {
    assert s[k..][1..] == s[k + 1..];
    assert s[..k] + [s[k]] == s[..k + 1];
  }

  lemma WordEnds(s: string)
    requires s != [] ==> Blank(s[0])
    ensures Word(s) == []
  {
  }

  /** Emit the first word of the text at `left`, which ends at `k`. */
  method EmitLeft(list: ItemList, buf: array<char>, left: nat, ghost k: nat)
    requires Text(buf, left, k)
    modifies list, buf
    ensures list.items == old(list.items) + Emit(old(buf[left..k]))
    ensures forall j :: 0 <= j < buf.Length && (j < left || k <= j) ==> buf[j] == old(buf[j])
  {
    ghost var s := buf[left..k];
    var l := StrSkipSpaces(buf, left, k);
    var e := StrSkipChars(buf, l, k);
    ghost var word := buf[l..e];
    assert word == Token(s);
    buf[e] := NUL;
    assert buf[l..e] == word;
    if buf[l] != NUL {
      list.items := list.items + [Operand(Upper(buf[l..e]))];
    }
  }

  /** Where the first parse step stops, and what it leaves to be parsed. */
  predicate Split(s: string, k: nat, op1: Option<Operator>, rest: string) {
    && k == Stop(s) && (k < |s| ==> s[k] != '(')
    && op1 == (if k < |s| && IsOperator(s[k]) then Some(OperatorOf(s[k])) else None)
    && rest == (if k < |s| then s[k + 1..] else [])
  }

  lemma ParseSplit(s: string, op0: Option<Operator>, k: nat, op1: Option<Operator>, rest: string)
    requires Split(s, k, op1, rest)
    ensures Parse(s, op0) == Emit(s[..k]) + RestItems(rest, op0, op1)
  {
    hide RestItems, Emit, EmitOp, BindsFirst, Stop, IsOperator, OperatorOf;
  }

  lemma ConcatAssoc<T>(a: seq<T>, b: seq<T>, c: seq<T>)
    ensures a + b + c == a + (b + c)
  {
  }

  lemma ParseOpen(s: string, op0: Option<Operator>, k: nat, rest: string)
    requires k == Stop(s) < |s| && s[k] == '(' && rest == s[k + 1..]
    ensures Parse(s, op0) == Parse(rest, None) + EmitOp(op0)
  {
    hide RestItems, Stop, Emit, EmitOp, BindsFirst, IsOperator, OperatorOf;
  }

  lemma StopStep(s: string, i: nat)
    requires i < |s| && i <= Stop(s)
    ensures i < Stop(s) <==> !IsStop(s[i])
  {
    StopAt(s);
  }

  lemma {:induction false} StopAt(s: string)
    ensures forall i :: 0 <= i < Stop(s) ==> !IsStop(s[i])
    ensures Stop(s) < |s| ==> IsStop(s[Stop(s)])
  {
    if s != [] && !IsStop(s[0]) {
      StopAt(s[1..]);
    }
  }

  /** Seek the next parenthesis or operator. */
  method Scan(buf: array<char>, start: nat, ghost n: nat) returns (p: nat, op1: Option<Operator>)
    requires Text(buf, start, n)
    ensures start <= p <= n && p == start + Stop(buf[start..n])
    ensures op1 == if p < n && IsOperator(buf[p]) then Some(OperatorOf(buf[p])) else None
  {
    ghost var s := buf[start..n];
    StopAt(s);
    p, op1 := start, None;
    while op1 == None && buf[p] != NUL && buf[p] != ')' && buf[p] != '('
      invariant start <= p <= n && p - start <= Stop(s)
      invariant op1.Some? ==> p < n && IsOperator(buf[p]) && op1 == Some(OperatorOf(buf[p]))
      decreases op1.None?, n - p
    {
      assert s[p - start] == buf[p];
      if buf[p] == '&' {
        op1 := Some(And);
      }
      if buf[p] == '|' {
        op1 := Some(Or);
      }
      if op1 == None {
        StopStep(s, p - start);
        p := p + 1;
      }
    }
  }

  /** The first part of a text without leading parenthesis: cut it at its first operator, and emit it. */
  method ParseFirst(list: ItemList, buf: array<char>, start: nat, k: nat, op1: Option<Operator>, ghost n: nat)
    returns (p: nat)
    requires Text(buf, start, n) && k <= n - start && k == Stop(buf[start..n])
    requires start + k < n ==> buf[start + k] != '('
    requires op1 == if start + k < n && IsOperator(buf[start + k]) then Some(OperatorOf(buf[start + k])) else None
    modifies list, buf
    ensures list.items == old(list.items) + Emit(old(buf[start..start + k]))
    ensures p == (if start + k < n then start + k + 1 else n)
    ensures forall j :: 0 <= j < buf.Length && (j < start || p <= j) ==> buf[j] == old(buf[j])
  {
    ghost var s := buf[start..n];
    StopAt(s);
    assert s[..k] == buf[start..start + k];
    p := start + k;
    assert p < n ==> s[k] == buf[p];
    if buf[p] == ')' {
      buf[p] := NUL;
      p := p + 1;
    }
    if op1.Some? {
      buf[p] := NUL;
      p := p + 1;
    }
    assert buf[start..start + k] == s[..k];
    EmitLeft(list, buf, start, start + k);
  }

  /**
    Parse the text at place `start`. It is cut into words in place; the place returned is always
    its end.
   */
  method ExprParse(list: ItemList, buf: array<char>, start: nat, op0: Option<Operator>, ghost n: nat) returns (p: nat)
    requires Text(buf, start, n)
    modifies list, buf
    ensures p == n
    ensures list.items == old(list.items) + Parse(old(buf[start..n]), op0)
    ensures forall j :: 0 <= j < buf.Length && (j < start || n <= j) ==> buf[j] == old(buf[j])
    decreases n - start, 1
  {
    hide Emit, IsStop, IsOperator, Parse, RestItems, Stop, BindsFirst, OperatorOf, Blank;
    ghost var s, l0 := buf[start..n], list.items;
    var op1;
    p, op1 := Scan(buf, start, n);
    ghost var k := p - start;
    assert p < n ==> s[k] == buf[p];
    if buf[p] == '(' {
      assert buf[p + 1..n] == s[k + 1..];
      p := ExprParse(list, buf, p + 1, None, n);
      if op0.Some? {
        list.items := list.items + [Operation(op0.value)];
      }
      ParseOpen(s, op0, k, s[k + 1..]);
    } else {
      assert buf[start..p] == s[..k];
      p := ParseFirst(list, buf, start, p - start, op1, n);
      ghost var rest := if k < |s| then s[k + 1..] else [];
      assert buf[p..n] == rest;
      ParseSplit(s, op0, k, op1, rest);
      p := ParseRest(list, buf, p, op0, op1, n);
      ConcatAssoc(l0, Emit(s[..k]), RestItems(rest, op0, op1));
    }
  }

  method ParseRest(list: ItemList, buf: array<char>, start: nat, op0: Option<Operator>, op1: Option<Operator>,
                   ghost n: nat)
    returns (p: nat)
    requires Text(buf, start, n)
    modifies list, buf
    ensures p == n
    ensures list.items == old(list.items) + RestItems(old(buf[start..n]), op0, op1)
    ensures forall j :: 0 <= j < buf.Length && (j < start || n <= j) ==> buf[j] == old(buf[j])
    decreases n - start, if start < n then 2 else 0
  {
    hide Parse;
    p := start;
    var pending := op0;
    if op0.Some? && (op1.None? || Priority(op0.value) >= Priority(op1.value)) {
      list.items := list.items + [Operation(op0.value)];
      pending := None;
    }
    if buf[p] != NUL {
      p := ExprParse(list, buf, p, op1, n);
    }
    if pending.Some? {
      list.items := list.items + [Operation(pending.value)];
    }
  }

  method ExprCompile(list: ItemList, expression: string)
    requires NUL !in expression
    modifies list
    ensures list.items == old(list.items) + Parse(expression, None)
  {
    var n := |expression|;
    var buf := new char[n + 1](i => if 0 <= i < n then expression[i] else NUL);
    assert buf[0..n] == expression;
    var p := ExprParse(list, buf, 0, None, n);
  }
}
