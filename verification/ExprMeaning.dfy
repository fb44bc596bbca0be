/**
  What a trigger expression without parentheses means: any of its `|`-groups holds, where a group
  holds when all its `&`-members do. The compiled form evaluates to exactly that.
 */
module ExprMeaning {
  import opened CText
  import opened Expr
  import opened ExprEval

  predicate ParenFree(s: string) {
    forall i :: 0 <= i < |s| ==> s[i] != '(' && s[i] != ')'
  }

  // ----- the meaning -----

  /** The pieces of a text between the separators `c`. */
  function Pieces(s: string, c: char): (r: seq<string>)
    ensures |r| > 0
  {
    if s == [] then [[]]
    else
      var r := Pieces(s[1..], c);
      if s[0] == c then [[]] + r else [[s[0]] + r[0]] + r[1..]
  }

  function Member(piece: string): string {
    Upper(Token(piece))
  }

  predicate GroupHolds(group: string, h: Valuation) {
    forall p :: p in Pieces(group, '&') ==> h(Member(p))
  }

  predicate Holds(s: string, h: Valuation) {
    exists g :: g in Pieces(s, '|') && GroupHolds(g, h)
  }

  /** No member of the expression is blank. */
  predicate NoBlank(s: string) {
    forall g, p :: g in Pieces(s, '|') && p in Pieces(g, '&') ==> Token(p) != []
  }

  /** One operator at the very end of an expression is ignored by the parser. */
  function Body(s: string): string {
    if s != [] && IsOperator(s[|s| - 1]) then s[..|s| - 1] else s
  }

  // ----- the same, piece by piece from the left -----

  function Rest(s: string): string
    requires Stop(s) < |s|
  {
    s[Stop(s) + 1..]
  }

  /** The first group holds. */
  function HeadHolds(s: string, h: Valuation): bool
    decreases |s|
  {
    h(Member(s[..Stop(s)])) && (Stop(s) < |s| && s[Stop(s)] == '&' ==> HeadHolds(Rest(s), h))
  }

  /** One of the other groups holds. */
  function TailHolds(s: string, h: Valuation): bool
    decreases |s|
  {
    Stop(s) < |s| && (TailHolds(Rest(s), h) || (s[Stop(s)] != '&' && HeadHolds(Rest(s), h)))
  }

  /** The number of blank members. */
  function Blanks(s: string): nat
    decreases |s|
  {
    (if Token(s[..Stop(s)]) == [] then 1 else 0) + if Stop(s) < |s| then Blanks(Rest(s)) else 0
  }

  lemma {:induction false} PiecesSplit(s: string, c: char, k: nat)
    requires k < |s| && s[k] == c && forall i :: 0 <= i < k ==> s[i] != c
    ensures Pieces(s, c) == [s[..k]] + Pieces(s[k + 1..], c)
  {
    if k == 0 {
      assert s[..0] == [];
    } else {
      PiecesSplit(s[1..], c, k - 1);
      assert s[1..][k..] == s[k + 1..];
      assert [s[0]] + s[1..][..k - 1] == s[..k];
    }
  }

  lemma {:induction false} PiecesWhole(s: string, c: char)
    requires c !in s
    ensures Pieces(s, c) == [s]
  {
    if s != [] {
      PiecesWhole(s[1..], c);
      assert [s[0]] + s[1..] == s;
    }
  }

  /** Without `c` in front, the first piece grows to the left. */
  lemma {:induction false} PiecesPrefix(t: string, s: string, c: char)
    requires c !in t
    ensures Pieces(t + s, c) == [t + Pieces(s, c)[0]] + Pieces(s, c)[1..]
  {
    if t == [] {
      assert t + s == s;
      assert t + Pieces(s, c)[0] == Pieces(s, c)[0];
    } else {
      assert (t + s)[1..] == t[1..] + s && (t + s)[0] == t[0];
      PiecesPrefix(t[1..], s, c);
      assert [t[0]] + (t[1..] + Pieces(s, c)[0]) == t + Pieces(s, c)[0];
    }
  }

  /** The members of the first group, and the other groups, seen from the first operator. */
  lemma GroupsStep(s: string)
    requires ParenFree(s)
    ensures Stop(s) == |s| ==> Pieces(s, '|') == [s] && Pieces(s, '&') == [s]
    ensures Stop(s) < |s| && s[Stop(s)] == '|' ==>
              Pieces(s, '|') == [s[..Stop(s)]] + Pieces(Rest(s), '|') && Pieces(s[..Stop(s)], '&') == [s[..Stop(s)]]
    ensures Stop(s) < |s| && s[Stop(s)] != '|' ==>
              var r := Pieces(Rest(s), '|');
              s[Stop(s)] == '&' && Pieces(s, '|')[1..] == r[1..]
              && Pieces(Pieces(s, '|')[0], '&') == [s[..Stop(s)]] + Pieces(r[0], '&')
  {
    hide Pieces, ParenFree;
    StopAt(s);
    var k := Stop(s);
    if k == |s| {
      PiecesWhole(s, '|');
      PiecesWhole(s, '&');
    } else if s[k] == '|' {
      PiecesSplit(s, '|', k);
      PiecesWhole(s[..k], '&');
    } else {
      StopOperator(s);
      GroupGrows(s, k);
    }
  }

  lemma StopOperator(s: string)
    requires ParenFree(s) && Stop(s) < |s|
    ensures IsOperator(s[Stop(s)]) && ParenFree(Rest(s))
  {
    StopAt(s);
  }

  lemma GroupGrows(s: string, k: nat)
    requires k < |s| && s[k] == '&' && forall i :: 0 <= i < k ==> s[i] != '&' && s[i] != '|'
    ensures Pieces(s, '|')[1..] == Pieces(s[k + 1..], '|')[1..]
    ensures Pieces(Pieces(s, '|')[0], '&') == [s[..k]] + Pieces(Pieces(s[k + 1..], '|')[0], '&')
  {
    hide Pieces;
    var r := Pieces(s[k + 1..], '|');
    var t := s[..k + 1];
    assert s == t + s[k + 1..];
    PiecesPrefix(t, s[k + 1..], '|');
    var g := t + r[0];
    assert g[..k] == s[..k] && g[k + 1..] == r[0];
    PiecesSplit(g, '&', k);
  }

  predicate AnyHolds(gs: seq<string>, h: Valuation) {
    gs != [] && (GroupHolds(gs[0], h) || AnyHolds(gs[1..], h))
  }

  lemma {:induction false} AnyIsSome(gs: seq<string>, h: Valuation)
    ensures AnyHolds(gs, h) <==> exists g :: g in gs && GroupHolds(g, h)
  {
    if gs != [] {
      AnyIsSome(gs[1..], h);
      assert forall g :: g in gs <==> g == gs[0] || g in gs[1..];
    }
  }

  lemma GroupMembers(g: string, p: string, r: seq<string>, h: Valuation)
    requires Pieces(g, '&') == [p] + r
    ensures GroupHolds(g, h) <==> h(Member(p)) && forall q :: q in r ==> h(Member(q))
  {
    assert forall q :: q in [p] + r <==> q == p || q in r;
  }

  lemma {:induction false} HoldsFromLeft(s: string, h: Valuation)
    requires ParenFree(s)
    ensures HeadHolds(s, h) <==> GroupHolds(Pieces(s, '|')[0], h)
    ensures TailHolds(s, h) <==> AnyHolds(Pieces(s, '|')[1..], h)
    decreases |s|
  {
    hide Pieces, GroupHolds;
    GroupsStep(s);
    var k := Stop(s);
    if k == |s| {
      assert s[..k] == s && [s] + [] == [s];
      GroupMembers(s, s, [], h);
    } else {
      HoldsFromLeft(Rest(s), h);
      var r := Pieces(Rest(s), '|');
      if s[k] == '|' {
        assert [s[..k]] + [] == [s[..k]];
        GroupMembers(s[..k], s[..k], [], h);
        assert Pieces(s, '|')[1..] == r;
      } else {
        GroupMembers(Pieces(s, '|')[0], s[..k], Pieces(r[0], '&'), h);
        GroupMembers(r[0], Pieces(r[0], '&')[0], Pieces(r[0], '&')[1..], h);
      }
    }
  }

  lemma HoldsIsHeadOrTail(s: string, h: Valuation)
    requires ParenFree(s)
    ensures Holds(s, h) <==> HeadHolds(s, h) || TailHolds(s, h)
  {
    HoldsFromLeft(s, h);
    AnyIsSome(Pieces(s, '|'), h);
  }

  predicate GroupNoBlank(g: string) {
    forall p :: p in Pieces(g, '&') ==> Token(p) != []
  }

  predicate AllNoBlank(gs: seq<string>) {
    gs == [] || (GroupNoBlank(gs[0]) && AllNoBlank(gs[1..]))
  }

  lemma {:induction false} AllIsEvery(gs: seq<string>)
    ensures AllNoBlank(gs) <==> forall g :: g in gs ==> GroupNoBlank(g)
  {
    if gs != [] {
      AllIsEvery(gs[1..]);
      assert forall g :: g in gs <==> g == gs[0] || g in gs[1..];
    }
  }

  lemma GroupBlanks(g: string, p: string, r: seq<string>)
    requires Pieces(g, '&') == [p] + r
    ensures GroupNoBlank(g) <==> Token(p) != [] && forall q :: q in r ==> Token(q) != []
  {
    assert forall q :: q in [p] + r <==> q == p || q in r;
  }

  lemma {:induction false} BlanksFromLeft(s: string)
    requires ParenFree(s)
    ensures Blanks(s) == 0 <==> AllNoBlank(Pieces(s, '|'))
    decreases |s|
  {
    hide Pieces, GroupNoBlank;
    GroupsStep(s);
    var k := Stop(s);
    var gs := Pieces(s, '|');
    assert gs == [gs[0]] + gs[1..];
    if k == |s| {
      assert s[..k] == s && [s] + [] == [s];
      GroupBlanks(s, s, []);
    } else {
      BlanksFromLeft(Rest(s));
      var r := Pieces(Rest(s), '|');
      if s[k] == '|' {
        assert [s[..k]] + [] == [s[..k]];
        GroupBlanks(s[..k], s[..k], []);
        assert gs[1..] == r;
      } else {
        GroupBlanks(gs[0], s[..k], Pieces(r[0], '&'));
        GroupBlanks(r[0], Pieces(r[0], '&')[0], Pieces(r[0], '&')[1..]);
      }
    }
  }

  lemma NoBlankIsNoBlanks(s: string)
    requires ParenFree(s)
    ensures NoBlank(s) <==> Blanks(s) == 0
  {
    BlanksFromLeft(s);
    AllIsEvery(Pieces(s, '|'));
    assert NoBlank(s) <==> forall g :: g in Pieces(s, '|') ==> GroupNoBlank(g);
  }
}
