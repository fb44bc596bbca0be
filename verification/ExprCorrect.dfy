/**
  Correctness of the trigger expression compiler: compiling and evaluating an expression without
  parentheses gives its meaning, and a syntax error exactly when a member is blank.
 */
module ExprCorrect {
  import opened CText
  import opened Shapes
  import opened Expr
  import opened ExprEval
  import opened ExprMeaning

  /**
    The items emitted for an expression without parentheses, with `op0` pending, when `tail` is
    emitted right after its last member.
   */
  function Code(s: string, op0: Option<Operator>, tail: seq<Item>): seq<Item>
    decreases |s|
  {
    var k := Stop(s);
    if k == |s| then Emit(s) + EmitOp(op0) + tail
    else
      var op1 := Some(OperatorOf(s[k]));
      if BindsFirst(op0, op1) then Emit(s[..k]) + EmitOp(op0) + Code(Rest(s), op1, tail)
      else Emit(s[..k]) + Code(Rest(s), op1, tail) + EmitOp(op0)
  }

  // ----- the parser emits that code -----

  lemma {:induction false} StopPrefix(a: string, b: string)
    ensures Stop(a) < |a| ==> Stop(a + b) == Stop(a)
    ensures Stop(a) == |a| ==> Stop(a + b) == |a| + Stop(b)
  {
    if a == [] {
      assert a + b == b;
    } else {
      assert (a + b)[0] == a[0] && (a + b)[1..] == a[1..] + b;
      StopPrefix(a[1..], b);
    }
  }

  /** The part of a text up to the closing parenthesis is compiled, and then what follows it. */
  lemma {:induction false} ParseClosed(a: string, r: string, op0: Option<Operator>)
    requires ParenFree(a)
    ensures Parse(a + [')'] + r, op0) == Code(a, op0, if r != [] then Parse(r, None) else [])
    decreases |a|
  {
    hide Parse;
    var tail := if r != [] then Parse(r, None) else [];
    var s := a + [')'] + r;
    assert s == a + ([')'] + r);
    StopPrefix(a, [')'] + r);
    StopAt(a);
    var k := Stop(a);
    assert s[..k] == a[..k];
    if k == |a| {
      assert s[k] == ')' && s[k + 1..] == r && a[..k] == a;
      ParseSplit(s, op0, k, None, r);
      ConcatAssoc(Emit(a), EmitOp(op0), tail);
      assert RestItems(r, op0, None) == EmitOp(op0) + tail;
    } else {
      StopOperator(a);
      var op1, rest := Some(OperatorOf(a[k])), Rest(a) + [')'] + r;
      assert s[k] == a[k] && s[k + 1..] == rest;
      ParseSplit(s, op0, k, op1, rest);
      ParseClosed(Rest(a), r, op1);
      CodeStep(a, op0, tail, rest);
    }
  }

  lemma CodeStep(a: string, op0: Option<Operator>, tail: seq<Item>, rest: string)
    requires Stop(a) < |a| && rest != []
    requires Parse(rest, Some(OperatorOf(a[Stop(a)]))) == Code(Rest(a), Some(OperatorOf(a[Stop(a)])), tail)
    ensures Code(a, op0, tail) == Emit(a[..Stop(a)]) + RestItems(rest, op0, Some(OperatorOf(a[Stop(a)])))
  {
    hide Parse;
    var k := Stop(a);
    var op1 := Some(OperatorOf(a[k]));
    var code := Code(Rest(a), op1, tail);
    if BindsFirst(op0, op1) {
      ConcatAssoc(Emit(a[..k]), EmitOp(op0), code);
      assert RestItems(rest, op0, op1) == EmitOp(op0) + code;
    } else {
      ConcatAssoc(Emit(a[..k]), code, EmitOp(op0));
      assert RestItems(rest, op0, op1) == code + EmitOp(op0);
    }
  }

  /** A whole text is compiled without the operator that ends it. */
  lemma {:induction false} ParseWhole(s: string, op0: Option<Operator>)
    requires ParenFree(s)
    ensures Parse(s, op0) == Code(Body(s), op0, [])
    decreases |s|
  {
    hide Parse;
    StopAt(s);
    var k := Stop(s);
    if k == |s| {
      assert s[..k] == s && Body(s) == s;
      ParseSplit(s, op0, k, None, []);
      assert RestItems([], op0, None) == EmitOp(op0);
      assert Emit(s) + EmitOp(op0) + [] == Emit(s) + EmitOp(op0);
    } else {
      StopOperator(s);
      var op1, rest := Some(OperatorOf(s[k])), Rest(s);
      ParseSplit(s, op0, k, op1, rest);
      BodyStop(s);
      if rest == [] {
        assert Emit(s[..k]) + EmitOp(op0) + [] == Emit(s[..k]) + EmitOp(op0);
        assert RestItems([], op0, op1) == EmitOp(op0);
      } else {
        ParseWhole(rest, op1);
        CodeStep(Body(s), op0, [], rest);
      }
    }
  }

  /** Dropping the last operator keeps the first one in place, unless it is the same. */
  lemma BodyStop(s: string)
    requires ParenFree(s) && Stop(s) < |s|
    ensures Rest(s) == [] ==> Body(s) == s[..Stop(s)] && Stop(Body(s)) == |Body(s)|
    ensures Rest(s) != [] ==>
              && Stop(Body(s)) == Stop(s) < |Body(s)| && Body(s)[Stop(s)] == s[Stop(s)]
              && Body(s)[..Stop(s)] == s[..Stop(s)] && Rest(Body(s)) == Body(Rest(s))
  {
    hide ParenFree, Stop;
    StopOperator(s);
    var n, k, b := |s|, Stop(s), Body(s);
    if IsOperator(s[n - 1]) {
      assert s == b + [s[n - 1]];
      StopPrefix(b, [s[n - 1]]);
      StopBound(b, s, k);
      if Rest(s) != [] {
        assert Rest(s)[|Rest(s)| - 1] == s[n - 1];
        assert b[k + 1..] == Rest(s)[..|Rest(s)| - 1];
      }
    } else {
      assert Rest(s)[|Rest(s)| - 1] == s[n - 1];
    }
  }

  lemma StopBound(b: string, s: string, k: nat)
    requires k == Stop(s) < |s| && |b| == |s| - 1 && b == s[..|s| - 1]
    requires Stop(b) < |b| ==> Stop(b) == k
    ensures k < |b| ==> Stop(b) == k
    ensures k == |b| ==> Stop(b) == |b|
  {
    StopAt(b);
    StopAt(s);
    assert k < |b| ==> b[k] == s[k];
  }

  // ----- what the code does -----

  /** On any non-empty stack, `tail` adds `t` to the top value with an OR. */
  ghost predicate OrsIn(tail: seq<Item>, t: bool, h: Valuation) {
    forall st, y :: Run(tail, st + [y], h) == Some(st + [y || t])
  }

  /** The value that the pending operator `op0` makes of the value `x` below, a group and the others. */
  function Pending(op0: Option<Operator>, x: bool, head: bool, others: bool): bool {
    match op0
    case None => head || others
    case Some(And) => (x && head) || others
    case Some(Or) => x || head || others
  }

  function Beneath(op0: Option<Operator>, x: bool): seq<bool> {
    if op0 == None then [] else [x]
  }

  lemma RunOp(st: seq<bool>, x: bool, y: bool, op: Operator, h: Valuation)
    ensures Run(EmitOp(Some(op)), st + [x] + [y], h) == Some(st + [if op == Or then x || y else x && y])
  {
    var s := st + [x] + [y];
    assert s[..|s| - 2] == st;
    assert Run(EmitOp(Some(op)), s, h) == Exec(Operation(op), s, h) by {
      assert EmitOp(Some(op)) == [Operation(op)] && [Operation(op)][1..] == [];
    }
  }

  lemma RunEmit(st: seq<bool>, piece: string, h: Valuation)
    requires Token(piece) != []
    ensures Run(Emit(piece), st, h) == Some(st + [h(Member(piece))])
  {
    assert Emit(piece)[1..] == [];
  }

  /**
    The stack effect of the code of an expression none of whose members is blank: with nothing
    pending it pushes the value, with an operator pending it combines it into the top of the stack.
   */
  lemma {:induction false} CodeEffect(s: string, op0: Option<Operator>, tail: seq<Item>, t: bool,
                                      st: seq<bool>, x: bool, h: Valuation)
    requires ParenFree(s) && Blanks(s) == 0 && OrsIn(tail, t, h)
    ensures Run(Code(s, op0, tail), st + Beneath(op0, x), h)
            == Some(st + [Pending(op0, x, HeadHolds(s, h), TailHolds(s, h) || t)])
    decreases |s|
  {
    hide Run, Emit, EmitOp, Token, Upper;
    var k := Stop(s);
    var below := st + Beneath(op0, x);
    var y := h(Member(s[..k]));
    RunEmit(below, s[..k], h);
    if k == |s| {
      assert s[..k] == s;
      RunAppend(Emit(s) + EmitOp(op0), tail, below, h);
      RunAppend(Emit(s), EmitOp(op0), below, h);
      LastMember(op0, st, x, y, h);
    } else {
      StopOperator(s);
      var op1 := Some(OperatorOf(s[k]));
      var code := Code(Rest(s), op1, tail);
      if BindsFirst(op0, op1) {
        RunAppend(Emit(s[..k]) + EmitOp(op0), code, below, h);
        RunAppend(Emit(s[..k]), EmitOp(op0), below, h);
        LastMember(op0, st, x, y, h);
        CodeEffect(Rest(s), op1, tail, t, st, Pending(op0, x, y, false), h);
      } else {
        RunAppend(Emit(s[..k]) + code, EmitOp(op0), below, h);
        RunAppend(Emit(s[..k]), code, below, h);
        CodeEffect(Rest(s), op1, tail, t, below, y, h);
        var z := Pending(op1, y, HeadHolds(Rest(s), h), TailHolds(Rest(s), h) || t);
        LastMember(op0, st, x, z, h);
      }
    }
  }

  /** The pending operation, when its second value has just been pushed. */
  lemma LastMember(op0: Option<Operator>, st: seq<bool>, x: bool, y: bool, h: Valuation)
    ensures Run(EmitOp(op0), st + Beneath(op0, x) + [y], h) == Some(st + [Pending(op0, x, y, false)])
  {
    match op0 {
      case None => assert st + [] == st;
      case Some(op) => RunOp(st, x, y, op, h);
    }
  }

  // ----- when a member is blank -----

  lemma {:induction false} CodeBalance(s: string, op0: Option<Operator>, tail: seq<Item>)
    requires ParenFree(s)
    ensures Balance(Code(s, op0, tail)) == 1 - Blanks(s) - (if op0 == None then 0 else 1) + Balance(tail)
    decreases |s|
  {
    var k := Stop(s);
    if k == |s| {
      assert s[..k] == s;
      BalanceAppend(Emit(s) + EmitOp(op0), tail);
      BalanceAppend(Emit(s), EmitOp(op0));
    } else {
      StopOperator(s);
      var op1 := Some(OperatorOf(s[k]));
      var code := Code(Rest(s), op1, tail);
      CodeBalance(Rest(s), op1, tail);
      if BindsFirst(op0, op1) {
        BalanceAppend(Emit(s[..k]) + EmitOp(op0), code);
        BalanceAppend(Emit(s[..k]), EmitOp(op0));
      } else {
        BalanceAppend(Emit(s[..k]) + code, EmitOp(op0));
        BalanceAppend(Emit(s[..k]), code);
      }
    }
  }

  /**
    Compiling and evaluating an expression without parentheses: the OR of its `|`-groups of the AND
    of their `&`-members, and a syntax error exactly when one of them is blank. An operator at the
    very end is ignored.
   */
  lemma CompiledValue(s: string, h: Valuation)
    requires ParenFree(s)
    ensures Eval(Parse(s, None), h) == if NoBlank(Body(s)) then Some(Holds(Body(s), h)) else None
  {
    var b := Body(s);
    ParseWhole(s, None);
    NoBlankIsNoBlanks(b);
    if NoBlank(b) {
      assert OrsIn([], false, h);
      CodeEffect(b, None, [], false, [], false, h);
      HoldsIsHeadOrTail(b, h);
    } else {
      CodeBalance(b, None, []);
      UnbalancedFails(Parse(s, None), h);
    }
  }
}
