/**
  Trigger expressions with a group in parentheses (core/engine/expr.c). The parser takes all that
  follows the opening parenthesis for the group, so the precedence is not always the ordinary one.
 */
module ExprGroup {
  import opened CText
  import opened Shapes
  import opened Expr
  import opened ExprEval
  import opened ExprMeaning
  import opened ExprCorrect

  // ----- the items emitted -----

  /** The items emitted for a text without parentheses and an operator, with those of a group after it. */
  function Joined(p: string, op0: Option<Operator>, op1: Option<Operator>, group: seq<Item>): seq<Item>
    decreases |p|
  {
    var k := Stop(p);
    if k == |p| then
      if BindsFirst(op0, op1) then Emit(p) + EmitOp(op0) + (group + EmitOp(op1))
      else Emit(p) + (group + EmitOp(op1)) + EmitOp(op0)
    else
      var op := Some(OperatorOf(p[k]));
      if BindsFirst(op0, op) then Emit(p[..k]) + EmitOp(op0) + Joined(Rest(p), op, op1, group)
      else Emit(p[..k]) + Joined(Rest(p), op, op1, group) + EmitOp(op0)
  }

  predicate NoStop(w: string) {
    forall i :: 0 <= i < |w| ==> !IsStop(w[i])
  }

  lemma {:induction false} StopLater(w: string, s: string)
    requires NoStop(w)
    ensures Stop(w + s) == |w| + Stop(s)
  {
    if w == [] {
      assert w + s == s;
    } else {
      assert (w + s)[0] == w[0] && (w + s)[1..] == w[1..] + s;
      StopLater(w[1..], s);
    }
  }

  /** The text before an opening parenthesis is dropped, and all after it is compiled before the pending operator. */
  lemma ParseOpened(w: string, s: string, op0: Option<Operator>)
    requires NoStop(w)
    ensures Parse(w + (['('] + s), op0) == Parse(s, None) + EmitOp(op0)
  {
    hide Parse;
    var t := w + (['('] + s);
    StopLater(w, ['('] + s);
    assert t[|w|] == '(' && t[|w| + 1..] == s;
    ParseOpen(t, op0, |w|, s);
  }

  lemma {:induction false} ParseJoined(p: string, c: char, t: string, op0: Option<Operator>, group: seq<Item>)
    requires ParenFree(p) && IsOperator(c) && t != []
    requires Parse(t, Some(OperatorOf(c))) == group + EmitOp(Some(OperatorOf(c)))
    ensures Parse(p + ([c] + t), op0) == Joined(p, op0, Some(OperatorOf(c)), group)
    decreases |p|
  {
    hide Parse;
    var s, op1 := p + ([c] + t), Some(OperatorOf(c));
    StopPrefix(p, [c] + t);
    var k := Stop(p);
    if k == |p| {
      assert s[..k] == p && s[k] == c && s[k + 1..] == t;
      ParseSplit(s, op0, k, op1, t);
      RestGrouped(Emit(p), t, op0, op1, group + EmitOp(op1));
    } else {
      StopOperator(p);
      var op, rest := Some(OperatorOf(p[k])), Rest(p) + ([c] + t);
      assert s[..k] == p[..k] && s[k] == p[k] && s[k + 1..] == rest;
      ParseSplit(s, op0, k, op, rest);
      ParseJoined(Rest(p), c, t, op, group);
      RestGrouped(Emit(p[..k]), rest, op0, op, Joined(Rest(p), op, op1, group));
    }
  }

  lemma RestGrouped(first: seq<Item>, rest: string, op0: Option<Operator>, op1: Option<Operator>, items: seq<Item>)
    requires rest != [] && Parse(rest, op1) == items
    ensures first + RestItems(rest, op0, op1)
            == if BindsFirst(op0, op1) then first + EmitOp(op0) + items else first + items + EmitOp(op0)
  {
    hide Parse;
  }

  // ----- what follows the group -----

  /** After the group comes nothing but blanks, or an operator and more. */
  predicate Joins(r: string) {
    ParenFree(r) && Token(r[..Stop(r)]) == []
  }

  /** Nothing follows the group, or just an operator. */
  predicate Ends(r: string) {
    Stop(r) == |r| || Rest(r) == []
  }

  predicate AfterNoBlank(r: string) {
    Ends(r) || NoBlank(Body(Rest(r)))
  }

  /** The value that the text after the group keeps the group for. */
  function Factor(r: string, h: Valuation): bool {
    Ends(r) || r[Stop(r)] == '|' || HeadHolds(Body(Rest(r)), h)
  }

  /** The value that the text after the group adds to it. */
  function Added(r: string, h: Valuation): bool {
    !Ends(r) && (TailHolds(Body(Rest(r)), h) || (r[Stop(r)] == '|' && HeadHolds(Body(Rest(r)), h)))
  }

  function After(r: string): seq<Item> {
    if r != [] then Parse(r, None) else []
  }

  lemma AfterItems(r: string)
    requires Joins(r)
    ensures Ends(r) ==> After(r) == []
    ensures !Ends(r) ==>
              IsOperator(r[Stop(r)]) && ParenFree(Rest(r))
                && After(r) == Code(Body(Rest(r)), Some(OperatorOf(r[Stop(r)])), [])
  {
    hide Parse;
    StopAt(r);
    var k := Stop(r);
    if k == |r| {
      ParseSplit(r, None, k, None, []);
    } else {
      StopOperator(r);
      ParseSplit(r, None, k, Some(OperatorOf(r[k])), Rest(r));
      if Rest(r) != [] {
        ParseWhole(Rest(r), Some(OperatorOf(r[k])));
      }
    }
  }

  /** On any non-empty stack, `tail` makes `(y && u) || t` of the top value `y`. */
  ghost predicate Turns(tail: seq<Item>, u: bool, t: bool, h: Valuation) {
    forall st, y :: Run(tail, st + [y], h) == Some(st + [(y && u) || t])
  }

  lemma BodyParenFree(s: string)
    requires ParenFree(s)
    ensures ParenFree(Body(s))
  {
  }

  lemma AfterTurns(r: string, h: Valuation)
    requires Joins(r) && AfterNoBlank(r)
    ensures Turns(After(r), Factor(r, h), Added(r, h), h)
  {
    hide Run, After, Code, NoBlank, Body, HeadHolds, TailHolds;
    AfterItems(r);
    if Ends(r) {
      assert forall st :: Run([], st, h) == Some(st) by { NothingRun(h); }
    } else {
      var b, op := Body(Rest(r)), Some(OperatorOf(r[Stop(r)]));
      BodyParenFree(Rest(r));
      NoBlankIsNoBlanks(b);
      assert OrsIn([], false, h) by { NothingRun(h); }
      forall st, y
        ensures Run(After(r), st + [y], h) == Some(st + [(y && Factor(r, h)) || Added(r, h)])
      {
        CodeEffect(b, op, [], false, st, y, h);
      }
    }
  }

  lemma NothingRun(h: Valuation)
    ensures forall st :: Run([], st, h) == Some(st)
    ensures OrsIn([], false, h)
  {
  }

  // ----- the value of a group -----

  /** The part of a group that is emitted after its tail, with the value `x` below the pending operator. */
  function Late(s: string, op0: Option<Operator>, x: bool, h: Valuation): bool
    decreases |s|
  {
    var k := Stop(s);
    if k == |s| then false
    else
      var op1, y := Some(OperatorOf(s[k])), h(Member(s[..k]));
      if BindsFirst(op0, op1) then Late(Rest(s), op1, Pending(op0, x, y, false), h)
      else (op0 == Some(Or) && x) || Late(Rest(s), op1, y, h)
  }

  /** A member, the pending operation, and more. */
  lemma ThenMore(first: seq<Item>, op0: Option<Operator>, more: seq<Item>, st: seq<bool>, x: bool, y: bool,
                 h: Valuation)
    requires Run(first, st + Beneath(op0, x), h) == Some(st + Beneath(op0, x) + [y])
    ensures Run(first + EmitOp(op0) + more, st + Beneath(op0, x), h) == Run(more, st + [Pending(op0, x, y, false)], h)
  {
    hide Run, EmitOp;
    RunAppend(first + EmitOp(op0), more, st + Beneath(op0, x), h);
    RunAppend(first, EmitOp(op0), st + Beneath(op0, x), h);
    LastMember(op0, st, x, y, h);
  }

  /** A member and more, before the pending operation. */
  lemma MoreThen(first: seq<Item>, op0: Option<Operator>, more: seq<Item>, below: seq<bool>, h: Valuation)
    requires Run(first, below, h).Some?
    ensures Run(first + more + EmitOp(op0), below, h) ==
            match Run(more, Run(first, below, h).value, h)
            case None => None
            case Some(st1) => Run(EmitOp(op0), st1, h)
  {
    hide Run, EmitOp;
    RunAppend(first + more, EmitOp(op0), below, h);
    RunAppend(first, more, below, h);
  }

  lemma {:induction false} TurnedEffect(s: string, op0: Option<Operator>, tail: seq<Item>, u: bool, t: bool,
                                        st: seq<bool>, x: bool, h: Valuation)
    requires ParenFree(s) && Blanks(s) == 0 && Turns(tail, u, t, h)
    ensures Run(Code(s, op0, tail), st + Beneath(op0, x), h)
            == Some(st + [Late(s, op0, x, h) || (Pending(op0, x, HeadHolds(s, h), TailHolds(s, h)) && u) || t])
    decreases |s|
  {
    hide Run, Emit, EmitOp, Token, Upper;
    var k := Stop(s);
    var below := st + Beneath(op0, x);
    var y := h(Member(s[..k]));
    RunEmit(below, s[..k], h);
    if k == |s| {
      assert s[..k] == s;
      RunAppend(Emit(s) + EmitOp(op0), tail, below, h);
      RunAppend(Emit(s), EmitOp(op0), below, h);
      LastMember(op0, st, x, y, h);
    } else {
      StopOperator(s);
      var op1 := Some(OperatorOf(s[k]));
      var code := Code(Rest(s), op1, tail);
      if BindsFirst(op0, op1) {
        ThenMore(Emit(s[..k]), op0, code, st, x, y, h);
        TurnedEffect(Rest(s), op1, tail, u, t, st, Pending(op0, x, y, false), h);
      } else {
        MoreThen(Emit(s[..k]), op0, code, below, h);
        TurnedEffect(Rest(s), op1, tail, u, t, below, y, h);
        var z := Late(Rest(s), op1, y, h) || (Pending(op1, y, HeadHolds(Rest(s), h), TailHolds(Rest(s), h)) && u) || t;
        LastMember(op0, st, x, z, h);
      }
    }
  }

  predicate Several(g: string) {
    '&' in g
  }

  /** Some group, or `x`, holds that comes before a group of several members. */
  predicate HoldsBefore(gs: seq<string>, x: bool, h: Valuation) {
    gs != [] && ((x && Several(gs[0])) || HoldsBefore(gs[1..], x || GroupHolds(gs[0], h), h))
  }

  /** What stays outside what follows a group: its parts before one of several members. */
  predicate Outside(a: string, h: Valuation) {
    HoldsBefore(Pieces(a, '|'), false, h)
  }

  lemma {:induction false} LateIsBefore(s: string, op0: Option<Operator>, x: bool, h: Valuation)
    requires ParenFree(s)
    ensures var gs := Pieces(s, '|');
            Late(s, op0, x, h) == match op0
                                  case None => HoldsBefore(gs, false, h)
                                  case Some(Or) => HoldsBefore(gs, x, h)
                                  case Some(And) => HoldsBefore(gs[1..], x && GroupHolds(gs[0], h), h)
    decreases |s|
  {
    hide Pieces, GroupHolds, ParenFree;
    GroupsStep(s);
    var k, gs := Stop(s), Pieces(s, '|');
    StopAt(s);
    if k == |s| {
      assert s[..k] == s && [s][1..] == [] && [s] + [] == [s];
      NoSeveral(s);
      GroupMembers(s, s, [], h);
    } else {
      StopOperator(s);
      var y, r := h(Member(s[..k])), Pieces(Rest(s), '|');
      LateIsBefore(Rest(s), Some(OperatorOf(s[k])), if BindsFirst(op0, Some(OperatorOf(s[k])))
        then Pending(op0, x, y, false) else y, h);
      if s[k] == '|' {
        assert gs[0] == s[..k] && gs[1..] == r && [s[..k]] + [] == [s[..k]];
        NoSeveral(s[..k]);
        GroupMembers(s[..k], s[..k], [], h);
      } else {
        GroupMembers(gs[0], s[..k], Pieces(r[0], '&'), h);
        GroupMembers(r[0], Pieces(r[0], '&')[0], Pieces(r[0], '&')[1..], h);
        FirstSeveral(gs[0], s[..k], r[0]);
      }
    }
  }

  lemma NoSeveral(s: string)
    requires forall i :: 0 <= i < |s| ==> !IsStop(s[i])
    ensures !Several(s)
  {
  }

  lemma {:induction false} FirstSeveral(g: string, m: string, rest: string)
    requires Pieces(g, '&') == [m] + Pieces(rest, '&')
    ensures Several(g)
  {
    if '&' !in g {
      PiecesWhole(g, '&');
    }
  }

  // ----- the value of what comes before the group -----

  /** The first group holds, when the operator and the value `g` end the text. */
  predicate HeadWith(gs: seq<string>, op: Operator, g: bool, h: Valuation)
    requires gs != []
  {
    GroupHolds(gs[0], h) && (|gs| == 1 && op == And ==> g)
  }

  predicate TailWith(gs: seq<string>, op: Operator, g: bool, h: Valuation)
    requires gs != []
  {
    if |gs| == 1 then op == Or && g else HeadWith(gs[1..], op, g, h) || TailWith(gs[1..], op, g, h)
  }

  ghost predicate Pushes(items: seq<Item>, g: bool, h: Valuation) {
    forall st :: Run(items, st, h) == Some(st + [g])
  }

  lemma JoinLast(op0: Option<Operator>, op: Operator, group: seq<Item>, g: bool, st: seq<bool>, x: bool, y: bool,
                 h: Valuation)
    requires Pushes(group, g, h)
    ensures BindsFirst(op0, Some(op)) ==>
              Run(EmitOp(op0) + (group + EmitOp(Some(op))), st + Beneath(op0, x) + [y], h)
              == Some(st + [Pending(Some(op), Pending(op0, x, y, false), g, false)])
    ensures !BindsFirst(op0, Some(op)) ==>
              Run(group + EmitOp(Some(op)) + EmitOp(op0), st + Beneath(op0, x) + [y], h)
              == Some(st + [Pending(op0, x, Pending(Some(op), y, g, false), false)])
  {
    hide Run, EmitOp;
    var below, items := st + Beneath(op0, x), group + EmitOp(Some(op));
    if BindsFirst(op0, Some(op)) {
      var z := Pending(op0, x, y, false);
      LastMember(op0, st, x, y, h);
      RunAppend(EmitOp(op0), items, below + [y], h);
      RunAppend(group, EmitOp(Some(op)), st + [z], h);
      LastMember(Some(op), st, z, g, h);
    } else {
      RunAppend(items, EmitOp(op0), below + [y], h);
      RunAppend(group, EmitOp(Some(op)), below + [y], h);
      LastMember(Some(op), below, y, g, h);
      LastMember(op0, st, x, Pending(Some(op), y, g, false), h);
    }
  }

  lemma {:induction false} JoinEffect(p: string, op0: Option<Operator>, op: Operator, group: seq<Item>, g: bool,
                                      st: seq<bool>, x: bool, h: Valuation)
    requires ParenFree(p) && Blanks(p) == 0 && Pushes(group, g, h)
    ensures var gs := Pieces(p, '|');
            Run(Joined(p, op0, Some(op), group), st + Beneath(op0, x), h)
            == Some(st + [Pending(op0, x, HeadWith(gs, op, g, h), TailWith(gs, op, g, h))])
    decreases |p|
  {
    hide Run, Emit, EmitOp, Token, Upper, Pieces, GroupHolds, ParenFree, Pushes;
    GroupsStep(p);
    var k, gs := Stop(p), Pieces(p, '|');
    var below := st + Beneath(op0, x);
    var y := h(Member(p[..k]));
    RunEmit(below, p[..k], h);
    if k == |p| {
      assert p[..k] == p && [p] + [] == [p];
      GroupMembers(p, p, [], h);
      JoinLast(op0, op, group, g, st, x, y, h);
      if BindsFirst(op0, Some(op)) {
        ConcatAssoc(Emit(p), EmitOp(op0), group + EmitOp(Some(op)));
        RunAppend(Emit(p), EmitOp(op0) + (group + EmitOp(Some(op))), below, h);
      } else {
        ConcatAssoc(Emit(p), group + EmitOp(Some(op)), EmitOp(op0));
        RunAppend(Emit(p), group + EmitOp(Some(op)) + EmitOp(op0), below, h);
      }
    } else {
      StopOperator(p);
      var op1, r := Some(OperatorOf(p[k])), Pieces(Rest(p), '|');
      var more := Joined(Rest(p), op1, Some(op), group);
      WithStep(p, op, g, h);
      hide HeadWith, TailWith;
      if BindsFirst(op0, op1) {
        ThenMore(Emit(p[..k]), op0, more, st, x, y, h);
        JoinEffect(Rest(p), op1, op, group, g, st, Pending(op0, x, y, false), h);
      } else {
        MoreThen(Emit(p[..k]), op0, more, below, h);
        JoinEffect(Rest(p), op1, op, group, g, below, y, h);
        LastMember(op0, st, x, Pending(op1, y, HeadWith(r, op, g, h), TailWith(r, op, g, h)), h);
      }
    }
  }

  lemma WithStep(p: string, op: Operator, g: bool, h: Valuation)
    requires ParenFree(p) && Stop(p) < |p|
    ensures var gs, r, y := Pieces(p, '|'), Pieces(Rest(p), '|'), h(Member(p[..Stop(p)]));
            && HeadWith(gs, op, g, h) == (y && (p[Stop(p)] == '&' ==> HeadWith(r, op, g, h)))
            && TailWith(gs, op, g, h) == (TailWith(r, op, g, h) || (p[Stop(p)] != '&' && HeadWith(r, op, g, h)))
  {
    hide Pieces, GroupHolds, ParenFree;
    GroupsStep(p);
    var k, gs, r := Stop(p), Pieces(p, '|'), Pieces(Rest(p), '|');
    assert gs == [gs[0]] + gs[1..] && r == [r[0]] + r[1..];
    if p[k] == '|' {
      assert gs[0] == p[..k] && gs[1..] == r && [p[..k]] + [] == [p[..k]];
      GroupMembers(p[..k], p[..k], [], h);
    } else {
      GroupMembers(gs[0], p[..k], Pieces(r[0], '&'), h);
      GroupMembers(r[0], Pieces(r[0], '&')[0], Pieces(r[0], '&')[1..], h);
    }
  }

  /** One of the groups but the last one holds. */
  predicate EarlierHolds(p: string, h: Valuation) {
    var gs := Pieces(p, '|');
    AnyHolds(gs[..|gs| - 1], h)
  }

  lemma {:induction false} WithIs(gs: seq<string>, op: Operator, g: bool, h: Valuation)
    requires gs != []
    ensures HeadWith(gs, op, g, h) || TailWith(gs, op, g, h)
            <==> if op == Or then AnyHolds(gs, h) || g else AnyHolds(gs[..|gs| - 1], h) || (AnyHolds(gs, h) && g)
  {
    hide GroupHolds;
    if |gs| == 1 {
      assert gs[1..] == [] && gs[..|gs| - 1] == [];
    } else {
      WithIs(gs[1..], op, g, h);
      assert gs[..|gs| - 1][1..] == gs[1..][..|gs[1..]| - 1];
      AnyEarlier(gs[1..], h);
    }
  }

  lemma {:induction false} AnyEarlier(gs: seq<string>, h: Valuation)
    requires gs != []
    ensures AnyHolds(gs[..|gs| - 1], h) ==> AnyHolds(gs, h)
  {
    if |gs| > 1 {
      assert gs[..|gs| - 1][1..] == gs[1..][..|gs[1..]| - 1];
      AnyEarlier(gs[1..], h);
    }
  }

  // ----- an expression with a group -----

  /** The value that is made of a group, with all that follows it. */
  predicate GroupValue(a: string, r: string, h: Valuation) {
    Outside(a, h) || (Holds(a, h) && Factor(r, h)) || Added(r, h)
  }

  lemma GroupPushes(a: string, r: string, h: Valuation)
    requires ParenFree(a) && NoBlank(a) && Joins(r) && AfterNoBlank(r)
    ensures Pushes(Code(a, None, After(r)), GroupValue(a, r, h), h)
  {
    hide Run, After, Code, NoBlank, Outside, Factor, Added, Holds;
    AfterTurns(r, h);
    NoBlankIsNoBlanks(a);
    HoldsIsHeadOrTail(a, h);
    LateIsBefore(a, None, false, h);
    assert Late(a, None, false, h) == Outside(a, h) by { OutsideIs(a, h); }
    forall st ensures Run(Code(a, None, After(r)), st, h) == Some(st + [GroupValue(a, r, h)]) {
      TurnedEffect(a, None, After(r), Factor(r, h), Added(r, h), st, false, h);
      assert st + Beneath(None, false) == st;
    }
  }

  lemma OutsideIs(a: string, h: Valuation)
    ensures Outside(a, h) == HoldsBefore(Pieces(a, '|'), false, h)
  {
  }

  /** A text, an operator, and a group with what follows it; what stands before the parenthesis does not count. */
  function Grouped(p: string, c: char, w: string, a: string, r: string): string {
    p + ([c] + (w + (['('] + (a + [')'] + r))))
  }

  lemma GroupedItems(p: string, c: char, w: string, a: string, r: string)
    requires ParenFree(p) && IsOperator(c) && NoStop(w) && ParenFree(a)
    ensures Parse(Grouped(p, c, w, a, r), None) == Joined(p, None, Some(OperatorOf(c)), Code(a, None, After(r)))
  {
    hide Parse, Code, Joined;
    var t := w + (['('] + (a + [')'] + r));
    ParseClosed(a, r, None);
    ParseOpened(w, a + [')'] + r, Some(OperatorOf(c)));
    ParseJoined(p, c, t, None, Code(a, None, After(r)));
  }

  lemma {:induction false} JoinBalance(p: string, op0: Option<Operator>, op: Operator, group: seq<Item>)
    requires ParenFree(p)
    ensures Balance(Joined(p, op0, Some(op), group)) == Balance(group) - Blanks(p) - (if op0 == None then 0 else 1)
    decreases |p|
  {
    hide ParenFree, Emit, EmitOp;
    var k := Stop(p);
    EmitBalance(p[..k]);
    OpBalance(op0);
    OpBalance(Some(op));
    BalanceAppend(group, EmitOp(Some(op)));
    if k == |p| {
      assert p[..k] == p;
      if BindsFirst(op0, Some(op)) {
        BalanceAppend(Emit(p) + EmitOp(op0), group + EmitOp(Some(op)));
        BalanceAppend(Emit(p), EmitOp(op0));
      } else {
        BalanceAppend(Emit(p) + (group + EmitOp(Some(op))), EmitOp(op0));
        BalanceAppend(Emit(p), group + EmitOp(Some(op)));
      }
    } else {
      StopOperator(p);
      var op1 := Some(OperatorOf(p[k]));
      var more := Joined(Rest(p), op1, Some(op), group);
      JoinBalance(Rest(p), op1, op, group);
      if BindsFirst(op0, op1) {
        BalanceAppend(Emit(p[..k]) + EmitOp(op0), more);
        BalanceAppend(Emit(p[..k]), EmitOp(op0));
      } else {
        BalanceAppend(Emit(p[..k]) + more, EmitOp(op0));
        BalanceAppend(Emit(p[..k]), more);
      }
    }
  }

  lemma EmitBalance(piece: string)
    ensures Balance(Emit(piece)) == if Token(piece) == [] then 0 else 1
  {
  }

  lemma OpBalance(op: Option<Operator>)
    ensures Balance(EmitOp(op)) == if op == None then 0 else -1
  {
  }

  lemma AfterBalance(r: string)
    requires Joins(r)
    ensures Balance(After(r)) == if Ends(r) then 0 else 0 - Blanks(Body(Rest(r)))
  {
    hide After, Code, Body;
    AfterItems(r);
    if !Ends(r) {
      BodyParenFree(Rest(r));
      CodeBalance(Body(Rest(r)), Some(OperatorOf(r[Stop(r)])), []);
    }
  }

  /** What an expression with a group is, with the value `g` of the group and of all that follows it. */
  predicate Combined(p: string, c: char, g: bool, h: Valuation) {
    if c == '&' then EarlierHolds(p, h) || (Holds(p, h) && g) else Holds(p, h) || g
  }

  /**
    The value of an expression that ends with a group, or goes on after it: all that follows is combined
    with the group first. It is a syntax error exactly when a member is blank.
   */
  lemma GroupedValue(p: string, c: char, w: string, a: string, r: string, h: Valuation)
    requires ParenFree(p) && IsOperator(c) && NoStop(w) && ParenFree(a) && Joins(r)
    ensures Eval(Parse(Grouped(p, c, w, a, r), None), h) ==
            if NoBlank(p) && NoBlank(a) && AfterNoBlank(r) then Some(Combined(p, c, GroupValue(a, r, h), h)) else None
  {
    hide Run, Parse, Code, Joined, NoBlank, Holds, After, Balance, Body, GroupValue, Pieces;
    GroupedItems(p, c, w, a, r);
    NoBlankIsNoBlanks(p);
    NoBlankIsNoBlanks(a);
    if !Ends(r) {
      AfterItems(r);
      BodyParenFree(Rest(r));
      NoBlankIsNoBlanks(Body(Rest(r)));
    }
    if NoBlank(p) && NoBlank(a) && AfterNoBlank(r) {
      GroupPushes(a, r, h);
      JoinEffect(p, None, OperatorOf(c), Code(a, None, After(r)), GroupValue(a, r, h), [], false, h);
      WithIs(Pieces(p, '|'), OperatorOf(c), GroupValue(a, r, h), h);
      AnyIsSome(Pieces(p, '|'), h);
      HoldsIsAny(p, h);
      assert [] + Beneath(None, false) == [];
    } else {
      JoinBalance(p, None, OperatorOf(c), Code(a, None, After(r)));
      CodeBalance(a, None, After(r));
      AfterBalance(r);
      UnbalancedFails(Parse(Grouped(p, c, w, a, r), None), h);
    }
  }

  /** The value of an expression that begins with a group. */
  lemma LeadingValue(w: string, a: string, r: string, h: Valuation)
    requires NoStop(w) && ParenFree(a) && Joins(r)
    ensures Eval(Parse(w + (['('] + (a + [')'] + r)), None), h) ==
            if NoBlank(a) && AfterNoBlank(r) then Some(GroupValue(a, r, h)) else None
  {
    hide Run, Parse, Code, NoBlank, Balance, Body, GroupValue, Pieces;
    var items := Code(a, None, After(r));
    ParseClosed(a, r, None);
    ParseOpened(w, a + [')'] + r, None);
    assert items + EmitOp(None) == items;
    assert a + ([')'] + r) == a + [')'] + r;
    assert Parse(w + (['('] + (a + [')'] + r)), None) == items;
    NoBlankIsNoBlanks(a);
    if !Ends(r) {
      AfterItems(r);
      BodyParenFree(Rest(r));
      NoBlankIsNoBlanks(Body(Rest(r)));
    }
    if NoBlank(a) && AfterNoBlank(r) {
      GroupPushes(a, r, h);
      assert Run(items, [], h) == Some([] + [GroupValue(a, r, h)]);
    } else {
      CodeBalance(a, None, After(r));
      AfterBalance(r);
      UnbalancedFails(items, h);
    }
  }

  lemma HoldsIsAny(p: string, h: Valuation)
    ensures Holds(p, h) <==> AnyHolds(Pieces(p, '|'), h)
  {
    AnyIsSome(Pieces(p, '|'), h);
  }

  // ----- ordinary precedence -----

  /** The value with ordinary precedence: `&` binds first, and the group is its own operand. */
  predicate Ordinary(p: string, c: char, a: string, r: string, h: Valuation) {
    Added(r, h) || Combined(p, c, Holds(a, h) && Factor(r, h), h)
  }

  /**
    An expression with a group has its ordinary value if and only if two things do not spoil it: an
    added term without what stands before the group, and a part of the group that escapes the factor after it.
   */
  lemma OrdinaryWhen(p: string, c: char, a: string, r: string, h: Valuation)
    requires IsOperator(c) && ParenFree(a)
    ensures Combined(p, c, GroupValue(a, r, h), h) == Ordinary(p, c, a, r, h) <==>
              && (c == '&' && Added(r, h) ==> Holds(p, h))
              && (Outside(a, h) && !Factor(r, h) && !Added(r, h) ==>
                    if c == '&' then EarlierHolds(p, h) || !Holds(p, h) else Holds(p, h))
  {
    hide Factor, Added, Pieces, GroupHolds;
    HoldsIsAny(p, h);
    HoldsIsAny(a, h);
    AnyEarlier(Pieces(p, '|'), h);
    BeforeHolds(Pieces(a, '|'), false, h);
    OutsideIs(a, h);
  }

  lemma {:induction false} BeforeHolds(gs: seq<string>, x: bool, h: Valuation)
    ensures HoldsBefore(gs, x, h) ==> x || AnyHolds(gs, h)
  {
    hide GroupHolds;
    if gs != [] && !x {
      BeforeHolds(gs[1..], x || GroupHolds(gs[0], h), h);
    }
  }

  /** For instance, `a&(b)|c` is compiled as `a&(b|c)`. */
  lemma OrAfterGroup()
    ensures Parse("a&(b)|c", None) == [Operand("A"), Operand("B"), Operand("C"), Operation(Or), Operation(And)]
  {
    hide Parse;
    assert "a&(b)|c" == Grouped("a", '&', "", "b", "|c");
    GroupedItems("a", '&', "", "b", "|c");
    OneLetter('a');
    OneLetter('b');
    OneLetter('c');
    Capitals();
    assert Stop("|c") == 0 && Rest("|c") == "c" && Body("c") == "c";
    assert ("|c")[..0] == [];
    AfterItems("|c");
  }

  lemma Capitals()
    ensures Upper("a") == "A" && Upper("b") == "B" && Upper("c") == "C"
  {
  }

  lemma OneLetter(c: char)
    requires !IsStop(c) && !Blank(c)
    ensures Emit([c]) == [Operand(Upper([c]))] && Stop([c]) == 1 && [c][..1] == [c]
  {
    assert [c][1..] == [];
  }
}
