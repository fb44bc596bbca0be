/**
  The stack machine that evaluates compiled trigger expressions (core/engine/expr.c).
 */
module ExprEval {
  import opened Shapes
  import opened Expr

  type Valuation = string -> bool

  /** One item on a stack whose top is its last element; an operation needs two values. */
  function Exec(item: Item, st: seq<bool>, h: Valuation): Option<seq<bool>> {
    match item
    case Operand(value) => Some(st + [h(value)])
    case Operation(op) =>
      if |st| < 2 then None else
        var v1, v2 := st[|st| - 1], st[|st| - 2];
        Some(st[..|st| - 2] + [if op == Or then v1 || v2 else v1 && v2])
  }

  function Run(items: seq<Item>, st: seq<bool>, h: Valuation): Option<seq<bool>> {
    if items == [] then Some(st) else
      match Exec(items[0], st, h)
      case None => None
      case Some(st1) => Run(items[1..], st1, h)
  }

  /** The value of an expression; None stands for a syntax error. */
  function Eval(items: seq<Item>, h: Valuation): Option<bool> {
    match Run(items, [], h)
    case Some(st) => if |st| == 1 then Some(st[0]) else None
    case None => None
  }

  lemma {:induction false} RunAppend(a: seq<Item>, b: seq<Item>, st: seq<bool>, h: Valuation)
    ensures Run(a + b, st, h) == match Run(a, st, h) case None => None case Some(st1) => Run(b, st1, h)
  {
    if a == [] {
      assert a + b == b;
    } else {
      assert (a + b)[0] == a[0] && (a + b)[1..] == a[1..] + b;
      match Exec(a[0], st, h) {
        case None =>
        case Some(st1) => RunAppend(a[1..], b, st1, h);
      }
    }
  }

  method Evaluate(items: seq<Item>, h: Valuation) returns (result: bool, error: bool)
    ensures error <==> Eval(items, h) == None
    ensures result <==> Eval(items, h) == Some(true)
  {
    result, error := false, false;
    var stack := new bool[|items|];
    var ptr := 0;
    var i := 0;
    while i < |items|
      invariant 0 <= i <= |items| && 0 <= ptr <= i
      invariant error ==> Run(items, [], h) == None
      invariant !error ==> Run(items, [], h) == Run(items[i..], stack[..ptr], h)
    {
      if !error {
        ghost var st := stack[..ptr];
        assert items[i..][0] == items[i] && items[i..][1..] == items[i + 1..];
        match items[i] {
          case Operand(value) =>
            stack[ptr] := h(value);
            ptr := ptr + 1;
            assert stack[..ptr] == st + [h(value)];
          case Operation(op) =>
            if ptr < 2 {
              error := true;
            } else {
              var v1, v2 := stack[ptr - 1], stack[ptr - 2];
              stack[ptr - 2] := if op == Or then v1 || v2 else v1 && v2;
              ptr := ptr - 1;
              assert stack[..ptr] == st[..|st| - 2] + [stack[ptr - 1]];
            }
        }
      }
      i := i + 1;
    }
    if !error {
      assert items[i..] == [];
      if ptr != 1 {
        error := true;
      } else {
        result := stack[0];
      }
    }
  }

  // ----- how many values an expression leaves -----

  function Balance(items: seq<Item>): int {
    if items == [] then 0 else (if items[0].Operand? then 1 else -1) + Balance(items[1..])
  }

  lemma {:induction false} BalanceAppend(a: seq<Item>, b: seq<Item>)
    ensures Balance(a + b) == Balance(a) + Balance(b)
  {
    if a == [] {
      assert a + b == b;
    } else {
      assert (a + b)[0] == a[0] && (a + b)[1..] == a[1..] + b;
      BalanceAppend(a[1..], b);
    }
  }

  lemma {:induction false} RunBalance(items: seq<Item>, st: seq<bool>, h: Valuation)
    ensures Run(items, st, h).Some? ==> |Run(items, st, h).value| == |st| + Balance(items)
  {
    if items != [] {
      match Exec(items[0], st, h) {
        case None =>
        case Some(st1) => RunBalance(items[1..], st1, h);
      }
    }
  }

  /** An expression can only be evaluated when it has one more operand than it has operations. */
  lemma UnbalancedFails(items: seq<Item>, h: Valuation)
    requires Balance(items) != 1
    ensures Eval(items, h) == None
  {
    RunBalance(items, [], h);
  }

  // ----- evaluation is monotone -----

  ghost predicate Weaker(h: Valuation, h': Valuation, items: seq<Item>) {
    forall i :: 0 <= i < |items| && items[i].Operand? && h(items[i].value) ==> h'(items[i].value)
  }

  predicate Below(st: seq<bool>, st': seq<bool>) {
    |st| == |st'| && forall i :: 0 <= i < |st| ==> (st[i] ==> st'[i])
  }

  lemma {:induction false} RunMonotone(items: seq<Item>, st: seq<bool>, st': seq<bool>, h: Valuation, h': Valuation)
    requires Below(st, st') && Weaker(h, h', items)
    ensures Run(items, st, h).Some? <==> Run(items, st', h').Some?
    ensures Run(items, st, h).Some? ==> Below(Run(items, st, h).value, Run(items, st', h').value)
  {
    if items != [] {
      match Exec(items[0], st, h) {
        case None =>
        case Some(st1) =>
          var st1' := Exec(items[0], st', h').value;
          RunMonotone(items[1..], st1, st1', h, h');
      }
    }
  }

  /** Raising more operands never makes a true expression false, nor a good one bad. */
  lemma EvalMonotone(items: seq<Item>, h: Valuation, h': Valuation)
    requires Weaker(h, h', items)
    ensures Eval(items, h) == None <==> Eval(items, h') == None
    ensures Eval(items, h) == Some(true) ==> Eval(items, h') == Some(true)
  {
    RunMonotone(items, [], [], h, h');
  }

  /** Whether evaluation ends in a syntax error depends on the expression alone. */
  lemma {:induction false} ErrorIsSyntactic(items: seq<Item>, h: Valuation, h': Valuation)
    ensures Eval(items, h) == None <==> Eval(items, h') == None
  {
    SameShape(items, [], [], h, h');
  }

  lemma {:induction false} SameShape(items: seq<Item>, st: seq<bool>, st': seq<bool>, h: Valuation, h': Valuation)
    requires |st| == |st'|
    ensures Run(items, st, h).Some? <==> Run(items, st', h').Some?
    ensures Run(items, st, h).Some? ==> |Run(items, st, h).value| == |Run(items, st', h').value|
  {
    if items != [] {
      match Exec(items[0], st, h) {
        case None =>
        case Some(st1) => SameShape(items[1..], st1, Exec(items[0], st', h').value, h, h');
      }
    }
  }
}
