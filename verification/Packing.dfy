/**
  Packing the arguments of a WAIT command into one expression (core/engine/listener.c), which
  holds when one of the arguments does.
 */
module Packing {
  import opened CText
  import opened Shapes
  import opened Expr
  import opened ExprEval
  import opened ExprMeaning
  import opened ExprCorrect

  // ----- packing -----

  /** An argument without its blanks, and with `,` for `&`. */
  function Squeeze(s: string): (r: string)
    ensures |r| <= |s|
  {
    if s == [] then []
    else (if Blank(s[0]) then [] else if s[0] == ',' then ['&'] else [s[0]]) + Squeeze(s[1..])
  }

  /** `(a1)|(a2)|...` */
  function Join(args: seq<string>): string {
    if args == [] then []
    else ['('] + Squeeze(args[0]) + [')'] + (if |args| == 1 then [] else ['|'] + Join(args[1..]))
  }

  function Pack(args: seq<string>): string {
    if |args| == 1 then Squeeze(args[0]) else Join(args)
  }

  lemma {:induction false} SqueezeAppend(a: string, b: string)
    ensures Squeeze(a + b) == Squeeze(a) + Squeeze(b)
  {
    if a == [] {
      assert a + b == b;
    } else {
      assert (a + b)[1..] == a[1..] + b;
      SqueezeAppend(a[1..], b);
    }
  }

  /** A single argument loses its blanks, gets `&` for each comma, and is otherwise kept as it is. */
  lemma {:induction false} PackedAlone(a: string, c: char, b: string)
    ensures (forall i :: 0 <= i < |a| ==> !Blank(a[i]) && a[i] != ',') ==> Pack([a]) == a
    ensures Blank(c) ==> Pack([a + [c] + b]) == Pack([a]) + Pack([b])
    ensures Pack([a + "," + b]) == Pack([a]) + "&" + Pack([b])
  {
    hide Squeeze;
    if forall i :: 0 <= i < |a| ==> !Blank(a[i]) && a[i] != ',' {
      SqueezeKeeps(a);
    }
    SqueezeAround(a, c, b);
    SqueezeAround(a, ',', b);
    SqueezeChar(c);
    SqueezeChar(',');
    assert a + [','] + b == a + "," + b && ['&'] == "&";
    assert Squeeze(a) + [] == Squeeze(a);
  }

  lemma SqueezeAround(a: string, c: char, b: string)
    ensures Squeeze(a + [c] + b) == Squeeze(a) + Squeeze([c]) + Squeeze(b)
  {
    SqueezeAppend(a + [c], b);
    SqueezeAppend(a, [c]);
  }

  lemma SqueezeChar(c: char)
    ensures Squeeze([c]) == if Blank(c) then [] else if c == ',' then ['&'] else [c]
  {
    assert [c][1..] == [];
  }

  lemma {:induction false} SqueezeKeeps(s: string)
    requires forall i :: 0 <= i < |s| ==> !Blank(s[i]) && s[i] != ','
    ensures Squeeze(s) == s
  {
    if s != [] {
      SqueezeKeeps(s[1..]);
    }
  }

  function Clause(a: string): string {
    ['|'] + ['('] + Squeeze(a) + [')']
  }

  lemma {:induction false} JoinAppend(args: seq<string>, a: string)
    requires args != []
    ensures Join(args + [a]) == Join(args) + Clause(a)
  {
    hide Squeeze;
    var first := ['('] + Squeeze(args[0]) + [')'];
    assert (args + [a])[1..] == args[1..] + [a];
    if |args| == 1 {
      assert args[1..] + [a] == [a];
      assert Join([a]) == ['('] + Squeeze(a) + [')'] + [];
      assert ['|'] + Join([a]) == Clause(a);
      assert Join(args) == first + [] == first;
    } else {
      JoinAppend(args[1..], a);
      assert ['|'] + (Join(args[1..]) + Clause(a)) == ['|'] + Join(args[1..]) + Clause(a);
      ConcatAssoc(first, ['|'] + Join(args[1..]), Clause(a));
    }
  }

  /** The buffer space reserved for packing. */
  function PackSpace(args: seq<string>): nat {
    if args == [] then 0 else PackSpace(args[..|args| - 1]) + |args[|args| - 1]| + 3
  }

  lemma {:induction false} PackSpacePrefix(args: seq<string>, i: nat)
    requires i < |args|
    ensures PackSpace(args[..i]) + |args[i]| + 3 == PackSpace(args[..i + 1]) <= PackSpace(args)
    decreases |args|
  {
    assert args[..i + 1][..i] == args[..i];
    if i + 1 < |args| {
      PackSpacePrefix(args[..|args| - 1], i);
      assert args[..|args| - 1][..i] == args[..i] && args[..|args| - 1][..i + 1] == args[..i + 1];
    } else {
      assert args[..i + 1] == args;
    }
  }

  /** Append the squeezed argument `s` at place `p`. */
  method PutSqueezed(buf: array<char>, p: nat, s: string) returns (q: nat)
    requires p + |s| <= buf.Length
    modifies buf
    ensures q == p + |Squeeze(s)| && q <= p + |s|
    ensures buf[..q] == old(buf[..p]) + Squeeze(s)
  {
    q := p;
    var i := 0;
    while i < |s|
      invariant 0 <= i <= |s| && q == p + |Squeeze(s[..i])| && q <= p + i
      invariant buf[..q] == old(buf[..p]) + Squeeze(s[..i])
    {
      SqueezeAppend(s[..i], [s[i]]);
      assert s[..i] + [s[i]] == s[..i + 1];
      ghost var before := buf[..q];
      if !Blank(s[i]) {
        if s[i] == ',' {
          buf[q] := '&';
        } else {
          buf[q] := s[i];
        }
        q := q + 1;
        assert buf[..q] == before + [buf[q - 1]];
      }
      i := i + 1;
    }
    assert s[..|s|] == s;
  }

  /** What is packed after the first `i` arguments of several. */
  function Packed(args: seq<string>, i: nat): string
    requires i <= |args|
  {
    if |args| > 1 then Join(args[..i]) else if i == 0 then [] else Squeeze(args[0])
  }

  lemma NothingPacked(args: seq<string>)
    ensures Packed(args, 0) == [] && PackSpace(args[..0]) == 0
  {
  }

  lemma AllPacked(args: seq<string>)
    ensures Packed(args, |args|) == Pack(args)
  {
    assert args[..|args|] == args;
  }

  lemma PackedNext(args: seq<string>, i: nat)
    requires i < |args|
    ensures Packed(args, i + 1) ==
            Packed(args, i) + ((if i > 0 then ['|'] else []) + (if |args| > 1 then ['('] else []) + Squeeze(args[i])
                               + (if |args| > 1 then [')'] else []))
  {
    hide Squeeze;
    assert args[..i + 1] == args[..i] + [args[i]];
    var c := ['('] + Squeeze(args[i]) + [')'];
    if |args| == 1 {
      assert [] + [] + Squeeze(args[0]) + [] == Squeeze(args[0]);
    } else if i == 0 {
      assert args[..0] == [] && args[..1] == [args[0]];
      assert Join([args[0]]) == c + [] == c;
      assert [] + ['('] + Squeeze(args[0]) + [')'] == c;
    } else {
      JoinAppend(args[..i], args[i]);
    }
  }

  method PackArgument(buf: array<char>, p: nat, args: seq<string>, i: nat) returns (q: nat)
    requires i < |args| && p == |Packed(args, i)| && p + |args[i]| + 3 <= buf.Length
    requires buf[..p] == Packed(args, i)
    modifies buf
    ensures q == |Packed(args, i + 1)| && q <= p + |args[i]| + 3
    ensures buf[..q] == Packed(args, i + 1)
  {
    hide Packed, Squeeze;
    q := p;
    ghost var s0 := buf[..p];
    if i > 0 {
      q := PutChar(buf, q, '|');
    }
    ghost var s1 := if i > 0 then ['|'] else [];
    assert buf[..q] == s0 + s1;
    if |args| > 1 {
      q := PutChar(buf, q, '(');
    }
    ghost var s2 := if |args| > 1 then ['('] else [];
    assert buf[..q] == s0 + s1 + s2;
    q := PutSqueezed(buf, q, args[i]);
    if |args| > 1 {
      q := PutChar(buf, q, ')');
    }
    ghost var s4 := if |args| > 1 then [')'] else [];
    assert buf[..q] == s0 + s1 + s2 + Squeeze(args[i]) + s4;
    PackedNext(args, i);
    Regroup(s0, s1, s2, Squeeze(args[i]), s4);
  }

  lemma Regroup(a: string, b: string, c: string, d: string, e: string)
    ensures a + b + c + d + e == a + (b + c + d + e)
  {
  }

  method PutChar(buf: array<char>, p: nat, c: char) returns (q: nat)
    requires p < buf.Length
    modifies buf
    ensures q == p + 1 && buf[..q] == old(buf[..p]) + [c]
  {
    buf[p] := c;
    q := p + 1;
  }

  /** The packed expression fits the buffer, and ends with a NUL. */
  method PackExpression(args: seq<string>) returns (buf: array<char>, p: nat)
    ensures p < buf.Length && buf[p] == NUL && buf[..p] == Pack(args)
  {
    hide Packed, PackSpace;
    buf := new char[PackSpace(args) + 1];
    NothingPacked(args);
    p := 0;
    var i := 0;
    while i < |args|
      invariant 0 <= i <= |args| && buf.Length == PackSpace(args) + 1
      invariant p <= PackSpace(args[..i]) <= PackSpace(args)
      invariant p == |Packed(args, i)| && buf[..p] == Packed(args, i)
    {
      PackSpacePrefix(args, i);
      p := PackArgument(buf, p, args, i);
      i := i + 1;
    }
    AllPacked(args);
    buf[p] := NUL;
  }

  // ----- what a packed expression means -----

  predicate Simple(args: seq<string>) {
    forall i :: 0 <= i < |args| ==> ParenFree(args[i])
  }

  /** No argument has a blank member. */
  predicate AllClean(args: seq<string>) {
    forall i :: 0 <= i < |args| ==> NoBlank(Squeeze(args[i]))
  }

  predicate AnyArgHolds(args: seq<string>, h: Valuation) {
    exists i :: 0 <= i < |args| && Holds(Squeeze(args[i]), h)
  }

  /** What a listener on the expression `s` checks. */
  predicate Checks(s: string, h: Valuation) {
    Eval(Parse(s, None), h) == Some(true)
  }

  lemma {:induction false} SqueezeSimple(s: string)
    requires ParenFree(s)
    ensures ParenFree(Squeeze(s))
  {
    if s != [] {
      assert forall i :: 0 <= i < |s| - 1 ==> s[1..][i] == s[i + 1];
      SqueezeSimple(s[1..]);
    }
  }

  /** What follows the first argument in the compiled form. */
  function Others(args: seq<string>): seq<Item> {
    if args == [] then [] else Parse(Join(args), None) + [Operation(Or)]
  }

  lemma {:induction false} JoinParsed(args: seq<string>)
    requires args != [] && Simple(args)
    ensures Parse(Join(args), None) == Code(Squeeze(args[0]), None, Others(args[1..]))
  {
    hide Parse, Squeeze;
    var a := Squeeze(args[0]);
    SqueezeSimple(args[0]);
    var r := if |args| == 1 then [] else ['|'] + Join(args[1..]);
    var s := Join(args);
    assert s == ['('] + a + [')'] + r;
    assert s[0] == '(' && s[1..] == a + [')'] + r;
    ParseOpen(s, None, 0, s[1..]);
    assert Parse(s[1..], None) + EmitOp(None) == Parse(s[1..], None);
    ParseClosed(a, r, None);
    if |args| > 1 {
      BarParsed(Join(args[1..]));
      assert Join(args[1..])[0] == '(';
      ParseOpen(Join(args[1..]), Some(Or), 0, Join(args[1..])[1..]);
      ParseOpen(Join(args[1..]), None, 0, Join(args[1..])[1..]);
      var p := Parse(Join(args[1..])[1..], None);
      assert p + EmitOp(None) == p;
      assert args[1..] != [];
    }
  }

  lemma BarParsed(s: string)
    requires s != []
    ensures Parse(['|'] + s, None) == Parse(s, Some(Or))
  {
    hide Parse;
    var b := ['|'] + s;
    assert b[1..] == s && b[..0] == [];
    ParseSplit(b, None, 0, Some(Or), s);
    assert Emit([]) == [];
    assert RestItems(s, None, Some(Or)) == Parse(s, Some(Or));
  }

  lemma AnyFromFirst(args: seq<string>, h: Valuation)
    requires args != []
    ensures AnyArgHolds(args, h) <==> Holds(Squeeze(args[0]), h) || AnyArgHolds(args[1..], h)
  {
    hide Holds, Squeeze;
    forall i | 0 <= i < |args| && Holds(Squeeze(args[i]), h)
      ensures Holds(Squeeze(args[0]), h) || AnyArgHolds(args[1..], h)
    {
      if i > 0 {
        assert args[1..][i - 1] == args[i];
      }
    }
    if AnyArgHolds(args[1..], h) {
      var i :| 0 <= i < |args[1..]| && Holds(Squeeze(args[1..][i]), h);
      assert args[1..][i] == args[i + 1];
    }
  }

  lemma {:induction false} JoinEffect(args: seq<string>, st: seq<bool>, h: Valuation)
    requires args != [] && Simple(args) && AllClean(args)
    ensures Run(Parse(Join(args), None), st, h) == Some(st + [AnyArgHolds(args, h)])
    decreases |args|, 1
  {
    hide Parse, Squeeze, Run, Holds, AnyArgHolds, NoBlank;
    var a := Squeeze(args[0]);
    SqueezeSimple(args[0]);
    JoinParsed(args);
    NoBlankIsNoBlanks(a);
    OthersEffect(args, h);
    var t := |args| > 1 && AnyArgHolds(args[1..], h);
    CodeEffect(a, None, Others(args[1..]), t, st, false, h);
    assert st + ExprCorrect.Beneath(None, false) == st;
    HoldsIsHeadOrTail(a, h);
    AnyFromFirst(args, h);
    NoneHolds(h);
  }

  lemma NoneHolds(h: Valuation)
    ensures !AnyArgHolds([], h)
  {
  }

  lemma {:induction false} OthersEffect(args: seq<string>, h: Valuation)
    requires args != [] && Simple(args) && AllClean(args)
    ensures OrsIn(Others(args[1..]), |args| > 1 && AnyArgHolds(args[1..], h), h)
    decreases |args|, 0
  {
    hide Parse, Squeeze, Holds, AnyArgHolds, NoBlank;
    if |args| > 1 {
      var rest := args[1..];
      var t := AnyArgHolds(rest, h);
      forall st: seq<bool>, y: bool ensures Run(Others(rest), st + [y], h) == Some(st + [y || t]) {
        JoinEffect(rest, st + [y], h);
        RunAppend(Parse(Join(rest), None), [Operation(Or)], st + [y], h);
        assert EmitOp(Some(Or)) == [Operation(Or)];
        RunOp(st, y, t, Or, h);
      }
    } else {
      assert Others(args[1..]) == [];
    }
  }

  function AllBlanks(args: seq<string>): nat {
    if args == [] then 0 else Blanks(Squeeze(args[0])) + AllBlanks(args[1..])
  }

  lemma {:induction false} JoinBalance(args: seq<string>)
    requires args != [] && Simple(args)
    ensures Balance(Parse(Join(args), None)) == 1 - AllBlanks(args)
  {
    hide Parse, Squeeze;
    SqueezeSimple(args[0]);
    JoinParsed(args);
    CodeBalance(Squeeze(args[0]), None, Others(args[1..]));
    if |args| > 1 {
      JoinBalance(args[1..]);
      BalanceAppend(Parse(Join(args[1..]), None), [Operation(Or)]);
    }
  }

  lemma {:induction false} CleanIsNoBlanks(args: seq<string>)
    requires Simple(args)
    ensures AllClean(args) <==> AllBlanks(args) == 0
  {
    hide Squeeze, NoBlank;
    if args != [] {
      SqueezeSimple(args[0]);
      NoBlankIsNoBlanks(Squeeze(args[0]));
      CleanIsNoBlanks(args[1..]);
      assert forall i :: 0 <= i < |args| - 1 ==> args[1..][i] == args[i + 1];
      if AllClean(args[1..]) && NoBlank(Squeeze(args[0])) {
        forall i | 0 <= i < |args| ensures NoBlank(Squeeze(args[i])) {
          if i > 0 {
            assert args[1..][i - 1] == args[i];
          }
        }
      }
    }
  }

  /**
    Several arguments packed together: true when one of them holds, and a syntax error exactly when
    one of them has a blank member.
   */
  lemma PackedValue(args: seq<string>, h: Valuation)
    requires |args| >= 2 && Simple(args)
    ensures Eval(Parse(Pack(args), None), h) == if AllClean(args) then Some(AnyArgHolds(args, h)) else None
  {
    hide Parse, Squeeze, AnyArgHolds;
    CleanIsNoBlanks(args);
    if AllClean(args) {
      JoinEffect(args, [], h);
    } else {
      JoinBalance(args);
      UnbalancedFails(Parse(Join(args), None), h);
    }
  }

  // ----- packing against checking each argument alone -----

  /** No argument would be a correct expression alone. */
  predicate AllFaulty(args: seq<string>) {
    forall i :: 0 <= i < |args| ==> !NoBlank(Body(Squeeze(args[i])))
  }

  predicate AnyChecks(args: seq<string>, h: Valuation) {
    exists i :: 0 <= i < |args| && Checks(Pack([args[i]]), h)
  }

  /** An expression without blank members does not end with an operator. */
  lemma CleanBody(s: string)
    requires ParenFree(s) && NoBlank(s)
    ensures Body(s) == s
  {
    NoBlankIsNoBlanks(s);
    CleanEnd(s);
  }

  lemma {:induction false} CleanEnd(s: string)
    requires ParenFree(s) && Blanks(s) == 0
    ensures Body(s) == s
    decreases |s|
  {
    StopAt(s);
    var k := Stop(s);
    if k < |s| {
      StopOperator(s);
      CleanEnd(Rest(s));
      if Rest(s) != [] {
        assert Rest(s)[|Rest(s)| - 1] == s[|s| - 1];
      }
    }
  }

  lemma AloneValue(a: string, h: Valuation)
    requires ParenFree(a)
    ensures Checks(Pack([a]), h) <==> NoBlank(Body(Squeeze(a))) && Holds(Body(Squeeze(a)), h)
  {
    hide Parse, Squeeze, NoBlank, Holds;
    SqueezeSimple(a);
    CompiledValue(Squeeze(a), h);
  }

  lemma {:induction false} HoldsWhenAllRaised(s: string, h: Valuation)
    requires forall v: string :: h(v)
    ensures Holds(s, h)
  {
    var g := Pieces(s, '|')[0];
    assert g in Pieces(s, '|') && GroupHolds(g, h);
  }

  /**
    A listener on several arguments is the OR of the listeners on each of them, whatever is raised,
    if and only if either no argument has a blank member, or all of them are faulty.
   */
  lemma PackedIsAny(args: seq<string>)
    requires |args| >= 2 && Simple(args)
    ensures (forall h :: Checks(Pack(args), h) <==> AnyChecks(args, h)) <==> AllClean(args) || AllFaulty(args)
  {
    hide Parse, Squeeze, NoBlank, Holds, Pack, Eval, Body;
    forall h ensures Checks(Pack(args), h) <==> AllClean(args) && AnyArgHolds(args, h) {
      PackedValue(args, h);
    }
    forall h, i | 0 <= i < |args|
      ensures Checks(Pack([args[i]]), h) <==> NoBlank(Body(Squeeze(args[i]))) && Holds(Body(Squeeze(args[i])), h)
    {
      AloneValue(args[i], h);
    }
    if AllClean(args) {
      forall i | 0 <= i < |args| ensures Body(Squeeze(args[i])) == Squeeze(args[i]) {
        SqueezeSimple(args[i]);
        CleanBody(Squeeze(args[i]));
      }
    } else if !AllFaulty(args) {
      var i :| 0 <= i < |args| && NoBlank(Body(Squeeze(args[i])));
      var h: Valuation := v => true;
      HoldsWhenAllRaised(Body(Squeeze(args[i])), h);
      assert AnyChecks(args, h) && !Checks(Pack(args), h);
    }
  }

  /** An operator at the very end of an argument is ignored when it is alone, and fatal in company. */
  lemma PackingSpoils(h: Valuation)
    requires h("X")
    ensures AnyChecks(["x&", "y"], h) && !Checks(Pack(["x&", "y"]), h)
  {
    hide Parse;
    hide Checks, Pack, Holds, NoBlank, Pieces, Stop, Blanks, Squeeze, Body, Upper, Token;
    var s, args := "x&", ["x&", "y"];
    SpoiltParts(h);
    AloneValue(s, h);
    assert Checks(Pack([args[0]]), h);
    PackedValue(args, h);
    assert !NoBlank(Squeeze(args[0]));
    NoneNeverChecks(Pack(args), h);
  }

  lemma NoneNeverChecks(s: string, h: Valuation)
    requires Eval(Parse(s, None), h) == None
    ensures !Checks(s, h)
  {
  }

  lemma SpoiltParts(h: Valuation)
    requires h("X")
    ensures Squeeze("x&") == "x&" && Body("x&") == "x"
    ensures NoBlank("x") && Holds("x", h) && !NoBlank("x&")
  {
    hide Holds, NoBlank, Pieces;
    var s := "x&";
    assert s[1..] == "&" && "&"[1..] == "" && "x"[1..] == "";
    SingleMember("x", h);
    assert Upper("x") == "X";
    assert Stop(s) == 1 && Rest(s) == "" && Blanks("") == 1;
    NoBlankIsNoBlanks(s);
  }

  lemma SingleMember(s: string, h: Valuation)
    requires '|' !in s && '&' !in s
    ensures Holds(s, h) <==> h(Member(s))
    ensures NoBlank(s) <==> Token(s) != []
  {
    hide Pieces, Token;
    PiecesWhole(s, '|');
    PiecesWhole(s, '&');
    assert forall g :: g in [s] <==> g == s;
    assert GroupHolds(s, h) <==> h(Member(s));
    assert NoBlank(s) <==> forall p :: p in Pieces(s, '&') ==> Token(p) != [];
  }
}
