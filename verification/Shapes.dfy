/**
  The shape of a linked test tree, and the threading of its nodes: where execution goes
  after a node ends, and where it goes when the node breaks its parent sequence.
 */
module Shapes {
  import opened Graphs

  datatype Option<+T> = None | Some(value: T)

  /** A node and the nodes it links to, in order; a test case links to nothing. */
  datatype Node = Node(key: nat, kids: seq<Node>)

  /** The ordered links of every object, by key. */
  type Links = map<nat, seq<nat>>

  function Keys(ts: seq<Node>): (r: seq<nat>)
    ensures |r| == |ts|
    ensures forall i :: 0 <= i < |ts| ==> r[i] == ts[i].key
  {
    if ts == [] then [] else [ts[0].key] + Keys(ts[1..])
  }

  /** `t` is what the links of its root unfold to. */
  ghost predicate Unfolds(f: Links, t: Node) {
    t.key in f && f[t.key] == Keys(t.kids) && forall k :: k in t.kids ==> Unfolds(f, k)
  }

  function Preorder(t: Node): seq<nat> {
    [t.key] + PreorderAll(t.kids)
  }

  function PreorderAll(ts: seq<Node>): seq<nat> {
    if ts == [] then [] else Preorder(ts[0]) + PreorderAll(ts[1..])
  }

  /** The test cases of a tree, left to right. */
  function Leaves(t: Node): (r: seq<nat>)
    ensures |r| > 0
  {
    if t.kids == [] then [t.key] else LeavesAll(t.kids)
  }

  function LeavesAll(ts: seq<Node>): (r: seq<nat>)
    ensures ts != [] ==> |r| > 0
  {
    if ts == [] then [] else Leaves(ts[0]) + LeavesAll(ts[1..])
  }

  function FirstLeaf(t: Node): nat {
    if t.kids == [] then t.key else FirstLeaf(t.kids[0])
  }

  // ----- threading -----

  /** Where a node leads: to `end` when it ends, to `brk` when it breaks its sequence. */
  datatype Jump = Jump(end: Option<Node>, brk: Option<Node>)

  function Jumps(t: Node, end: Option<Node>, brk: Option<Node>): map<nat, Jump> {
    JumpsAll(t.kids, end)[t.key := Jump(end, brk)]
  }

  function JumpsAll(ts: seq<Node>, end: Option<Node>): map<nat, Jump> {
    if ts == [] then map[]
    else Jumps(ts[0], if |ts| > 1 then Some(ts[1]) else end, end) + JumpsAll(ts[1..], end)
  }

  /** The test case execution reaches by jumping to a node. */
  function Landing(n: Option<Node>): Option<nat> {
    match n
    case None => None
    case Some(t) => Some(FirstLeaf(t))
  }

  // ----- keys, leaves and jumps of one tree -----

  lemma {:induction false} FirstLeafIsFirst(t: Node)
    ensures Leaves(t)[0] == FirstLeaf(t)
  {
    if t.kids != [] {
      FirstLeafIsFirst(t.kids[0]);
    }
  }

  lemma {:induction false} LeavesInPreorder(t: Node)
    ensures forall x :: x in Leaves(t) ==> x in Preorder(t)
  {
    LeavesInPreorderAll(t.kids);
  }

  lemma {:induction false} LeavesInPreorderAll(ts: seq<Node>)
    ensures forall x :: x in LeavesAll(ts) ==> x in PreorderAll(ts)
  {
    if ts != [] {
      LeavesInPreorder(ts[0]);
      LeavesInPreorderAll(ts[1..]);
    }
  }

  lemma {:induction false} JumpKeys(t: Node, end: Option<Node>, brk: Option<Node>)
    ensures forall x :: x in Jumps(t, end, brk) <==> x in Preorder(t)
  {
    JumpKeysAll(t.kids, end);
  }

  lemma {:induction false} JumpKeysAll(ts: seq<Node>, end: Option<Node>)
    ensures forall x :: x in JumpsAll(ts, end) <==> x in PreorderAll(ts)
  {
    if ts != [] {
      JumpKeys(ts[0], if |ts| > 1 then Some(ts[1]) else end, end);
      JumpKeysAll(ts[1..], end);
    }
  }

  lemma DistinctParts(a: seq<nat>, b: seq<nat>)
    requires Distinct(a + b)
    ensures Distinct(a) && Distinct(b)
    ensures forall x :: x in a ==> x !in b
  {
    var c := a + b;
    assert forall i :: 0 <= i < |a| ==> c[i] == a[i];
    assert forall i :: 0 <= i < |b| ==> c[|a| + i] == b[i];
  }

  lemma DistinctConcat(a: seq<nat>, b: seq<nat>)
    requires Distinct(a) && Distinct(b)
    requires forall x :: x in a ==> x !in b
    ensures Distinct(a + b)
  {
    var c := a + b;
    forall i, j | 0 <= i < j < |c|
      ensures c[i] != c[j]
    {
      if i < |a| <= j {
        assert c[i] in a && c[j] in b;
      }
    }
  }

  function After(s: seq<nat>, i: nat, otherwise: Option<nat>): Option<nat> {
    if i < |s| then Some(s[i]) else otherwise
  }

  /** When a test case ends, execution goes on with the next test case in order. */
  lemma {:induction false} EndLanding(t: Node, end: Option<Node>, brk: Option<Node>, i: nat)
    requires Distinct(Preorder(t)) && i < |Leaves(t)|
    ensures Leaves(t)[i] in Jumps(t, end, brk)
    ensures Landing(Jumps(t, end, brk)[Leaves(t)[i]].end) == After(Leaves(t), i + 1, Landing(end))
  {
    if t.kids != [] {
      DistinctParts([t.key], PreorderAll(t.kids));
      EndLandingAll(t.kids, end, i);
      LeavesInPreorderAll(t.kids);
      assert LeavesAll(t.kids)[i] in PreorderAll(t.kids);
    }
  }

  lemma {:induction false} EndLandingAll(ts: seq<Node>, end: Option<Node>, i: nat)
    requires Distinct(PreorderAll(ts)) && i < |LeavesAll(ts)|
    ensures LeavesAll(ts)[i] in JumpsAll(ts, end)
    ensures Landing(JumpsAll(ts, end)[LeavesAll(ts)[i]].end) == After(LeavesAll(ts), i + 1, Landing(end))
  {
    var next := if |ts| > 1 then Some(ts[1]) else end;
    DistinctParts(Preorder(ts[0]), PreorderAll(ts[1..]));
    JumpKeysAll(ts[1..], end);
    JumpKeys(ts[0], next, end);
    var n := |Leaves(ts[0])|;
    if i < n {
      EndLanding(ts[0], next, end, i);
      LeavesInPreorder(ts[0]);
      assert LeavesAll(ts)[i] == Leaves(ts[0])[i];
      if |ts| > 1 {
        FirstLeafIsFirst(ts[1]);
        assert LeavesAll(ts[1..])[0] == Leaves(ts[1])[0];
      }
    } else {
      EndLandingAll(ts[1..], end, i - n);
    }
  }

  // ----- breaking the parent sequence -----

  ghost predicate SubNode(t: Node, s: Node) {
    s == t || exists k :: k in t.kids && SubNode(k, s)
  }

  /** `s` is a sequence of `t` whose test cases take the places from `lo` on. */
  ghost predicate Block(t: Node, s: Node, lo: nat) {
    && SubNode(t, s)
    && lo + |Leaves(s)| <= |Leaves(t)|
    && Leaves(t)[lo..lo + |Leaves(s)|] == Leaves(s)
  }

  /** When a test case breaks, execution goes on after the last test case of its parent `s`. */
  lemma {:induction false} BreakLanding(t: Node, end: Option<Node>, brk: Option<Node>, i: nat)
    returns (s: Node, lo: nat)
    requires Distinct(Preorder(t)) && i < |Leaves(t)| && t.kids != []
    ensures Block(t, s, lo) && lo <= i < lo + |Leaves(s)|
    ensures Leaves(t)[i] in Keys(s.kids)
    ensures Leaves(t)[i] in Jumps(t, end, brk)
    ensures Landing(Jumps(t, end, brk)[Leaves(t)[i]].brk) == After(Leaves(t), lo + |Leaves(s)|, Landing(end))
  {
    DistinctParts([t.key], PreorderAll(t.kids));
    var n, lo' := BreakLandingAll(t.kids, end, i);
    LeavesInPreorderAll(t.kids);
    assert LeavesAll(t.kids)[i] in PreorderAll(t.kids);
    match n {
      case None =>
        s, lo := t, 0;
        assert Leaves(t)[0..|Leaves(t)|] == Leaves(t);
      case Some(d) =>
        s, lo := d, lo';
    }
  }

  /**
    In a list of siblings, leaf `i` is a sibling itself, and breaks to `end`; or its parent `s` lies
    below a sibling, and it breaks past the leaves of `s`.
   */
  ghost predicate BreaksTo(ts: seq<Node>, end: Option<Node>, i: nat, s: Option<Node>, lo: nat) {
    var leaves := LeavesAll(ts);
    && i < |leaves|
    && leaves[i] in JumpsAll(ts, end)
    && var brk := Landing(JumpsAll(ts, end)[leaves[i]].brk);
       match s
       case None => leaves[i] in Keys(ts) && brk == Landing(end)
       case Some(d) =>
         && (exists k :: k in ts && SubNode(k, d))
         && lo <= i < lo + |Leaves(d)| <= |leaves|
         && leaves[lo..lo + |Leaves(d)|] == Leaves(d)
         && leaves[i] in Keys(d.kids)
         && brk == After(leaves, lo + |Leaves(d)|, Landing(end))
  }

  lemma {:induction false} BreakLandingAll(ts: seq<Node>, end: Option<Node>, i: nat) returns (s: Option<Node>, lo: nat)
    requires Distinct(PreorderAll(ts)) && i < |LeavesAll(ts)|
    ensures BreaksTo(ts, end, i, s, lo)
  {
    hide BreaksTo, SubNode;
    var n := |Leaves(ts[0])|;
    DistinctParts(Preorder(ts[0]), PreorderAll(ts[1..]));
    if i >= n {
      s, lo := BreakLandingAll(ts[1..], end, i - n);
      BreaksLater(ts, end, i - n, s, lo);
      lo := lo + n;
    } else if ts[0].kids == [] {
      s, lo := None, 0;
      BreaksHere(ts, end, i);
    } else {
      var next := if |ts| > 1 then Some(ts[1]) else end;
      var d;
      d, lo := BreakLanding(ts[0], next, end, i);
      s := Some(d);
      BreaksFirst(ts, end, i, d, lo);
    }
  }

  lemma BreaksHere(ts: seq<Node>, end: Option<Node>, i: nat)
    requires ts != [] && Distinct(PreorderAll(ts)) && ts[0].kids == [] && i == 0
    ensures BreaksTo(ts, end, i, None, 0)
  {
    DistinctParts(Preorder(ts[0]), PreorderAll(ts[1..]));
    assert Keys(ts)[0] == ts[0].key;
    JumpKeysAll(ts[1..], end);
  }

  lemma BreaksLater(ts: seq<Node>, end: Option<Node>, i: nat, s: Option<Node>, lo: nat)
    requires ts != [] && BreaksTo(ts[1..], end, i, s, lo)
    ensures BreaksTo(ts, end, i + |Leaves(ts[0])|, s, lo + |Leaves(ts[0])|)
  {
    hide SubNode, Leaves, Jumps, JumpsAll;
    var n, rest, leaves := |Leaves(ts[0])|, LeavesAll(ts[1..]), LeavesAll(ts);
    assert leaves == Leaves(ts[0]) + rest;
    assert Keys(ts) == [ts[0].key] + Keys(ts[1..]);
    assert leaves[i + n] == rest[i];
    JumpsLater(ts, end, rest[i]);
    if s.Some? {
      PartLater(ts, s.value);
      SliceLater(Leaves(ts[0]), rest, lo, lo + |Leaves(s.value)|);
    }
  }

  lemma PartLater(ts: seq<Node>, s: Node)
    requires ts != [] && exists k :: k in ts[1..] && SubNode(k, s)
    ensures exists k :: k in ts && SubNode(k, s)
  {
    hide SubNode;
    var k :| k in ts[1..] && SubNode(k, s);
    assert k in ts;
  }

  lemma JumpsLater(ts: seq<Node>, end: Option<Node>, k: nat)
    requires ts != [] && k in JumpsAll(ts[1..], end)
    ensures k in JumpsAll(ts, end) && JumpsAll(ts, end)[k] == JumpsAll(ts[1..], end)[k]
  {
    hide Jumps;
  }

  lemma SliceLater(a: seq<nat>, b: seq<nat>, lo: nat, hi: nat)
    requires lo <= hi <= |b|
    ensures (a + b)[lo + |a|..hi + |a|] == b[lo..hi]
  {
  }

  lemma BreaksFirst(ts: seq<Node>, end: Option<Node>, i: nat, s: Node, lo: nat)
    requires ts != [] && Distinct(PreorderAll(ts)) && i < |Leaves(ts[0])|
    requires Block(ts[0], s, lo) && lo <= i < lo + |Leaves(s)| && Leaves(ts[0])[i] in Keys(s.kids)
    requires var next := if |ts| > 1 then Some(ts[1]) else end;
             && Leaves(ts[0])[i] in Jumps(ts[0], next, end)
             && Landing(Jumps(ts[0], next, end)[Leaves(ts[0])[i]].brk)
                == After(Leaves(ts[0]), lo + |Leaves(s)|, Landing(next))
    ensures BreaksTo(ts, end, i, Some(s), lo)
  {
    hide SubNode;
    var leaves := LeavesAll(ts);
    assert ts[0] in ts && SubNode(ts[0], s);
    assert leaves == Leaves(ts[0]) + LeavesAll(ts[1..]);
    assert leaves[i] == Leaves(ts[0])[i];
    assert leaves[lo..lo + |Leaves(s)|] == Leaves(ts[0])[lo..lo + |Leaves(s)|];
    DistinctParts(Preorder(ts[0]), PreorderAll(ts[1..]));
    LeavesInPreorder(ts[0]);
    JumpKeysAll(ts[1..], end);
    if |ts| > 1 {
      FirstLeafIsFirst(ts[1]);
      assert LeavesAll(ts[1..])[0] == Leaves(ts[1])[0];
    }
    assert leaves[i] in JumpsAll(ts, end);
    assert leaves[i] in Keys(s.kids);
    assert lo + |Leaves(s)| <= |leaves|;
    assert Landing(JumpsAll(ts, end)[leaves[i]].brk) == After(leaves, lo + |Leaves(s)|, Landing(end));
  }

  // ----- walks -----

  datatype Outcome = GoOn | Break | Abort

  /** The test case that follows test case `x` in a whole tree `t`. */
  function Next(t: Node, x: nat, outcome: Outcome): Option<nat>
    requires x in Jumps(t, None, None)
  {
    match outcome
    case GoOn => Landing(Jumps(t, None, None)[x].end)
    case Break => Landing(Jumps(t, None, None)[x].brk)
    case Abort => None
  }

  function Position(s: seq<nat>, x: nat): (i: nat)
    requires x in s
    ensures i < |s| && s[i] == x
  {
    if s[0] == x then 0 else 1 + Position(s[1..], x)
  }

  /** The place of the test case that follows place `i`; the number of test cases when there is none. */
  function NextPlace(t: Node, i: nat, outcome: Outcome): (j: nat)
    requires Distinct(Preorder(t)) && i < |Leaves(t)|
    ensures i < j <= |Leaves(t)|
    ensures outcome == GoOn ==> j == i + 1
    ensures outcome == Abort ==> j == |Leaves(t)|
    ensures Leaves(t)[i] in Jumps(t, None, None)
    ensures Next(t, Leaves(t)[i], outcome) == After(Leaves(t), j, None)
  {
    NextIsLater(t, i, outcome);
    match Next(t, Leaves(t)[i], outcome)
    case None => |Leaves(t)|
    case Some(x) => Position(Leaves(t), x)
  }

  lemma {:induction false} LeavesDistinct(t: Node)
    requires Distinct(Preorder(t))
    ensures Distinct(Leaves(t))
  {
    if t.kids != [] {
      DistinctParts([t.key], PreorderAll(t.kids));
      LeavesDistinctAll(t.kids);
    }
  }

  lemma {:induction false} LeavesDistinctAll(ts: seq<Node>)
    requires Distinct(PreorderAll(ts))
    ensures Distinct(LeavesAll(ts))
  {
    if ts != [] {
      DistinctParts(Preorder(ts[0]), PreorderAll(ts[1..]));
      LeavesDistinct(ts[0]);
      LeavesDistinctAll(ts[1..]);
      LeavesInPreorder(ts[0]);
      LeavesInPreorderAll(ts[1..]);
      DistinctConcat(Leaves(ts[0]), LeavesAll(ts[1..]));
    }
  }

  /** Whatever the outcome, the next test case comes later in the order, or there is none. */
  lemma NextIsLater(t: Node, i: nat, outcome: Outcome)
    requires Distinct(Preorder(t)) && i < |Leaves(t)|
    ensures Leaves(t)[i] in Jumps(t, None, None)
    ensures outcome == GoOn ==> Next(t, Leaves(t)[i], outcome) == After(Leaves(t), i + 1, None)
    ensures match Next(t, Leaves(t)[i], outcome)
            case None => true
            case Some(x) => x in Leaves(t) && i < Position(Leaves(t), x) < |Leaves(t)| && Leaves(t)[Position(Leaves(t), x)] == x
    ensures outcome == GoOn && i + 1 < |Leaves(t)| ==> Position(Leaves(t), Leaves(t)[i + 1]) == i + 1
  {
    EndLanding(t, None, None, i);
    LeavesDistinct(t);
    if outcome == Break && t.kids != [] {
      var s, lo := BreakLanding(t, None, None, i);
    }
  }

  /** The places of the test cases run from place `i` on, each ending with its own outcome. */
  function Walk(t: Node, i: nat, outcome: nat -> Outcome): seq<nat>
    requires Distinct(Preorder(t)) && i <= |Leaves(t)|
    decreases |Leaves(t)| - i
  {
    if i == |Leaves(t)| then [] else [i] + Walk(t, NextPlace(t, i, outcome(i)), outcome)
  }

  /** Every walk visits test cases in order, none of them twice, and so ends. */
  lemma {:induction false} WalkInOrder(t: Node, i: nat, outcome: nat -> Outcome)
    requires Distinct(Preorder(t)) && i <= |Leaves(t)|
    ensures forall k :: 0 <= k < |Walk(t, i, outcome)| ==> i <= Walk(t, i, outcome)[k] < |Leaves(t)|
    ensures forall k, l :: 0 <= k < l < |Walk(t, i, outcome)| ==> Walk(t, i, outcome)[k] < Walk(t, i, outcome)[l]
    ensures |Walk(t, i, outcome)| <= |Leaves(t)| - i
    decreases |Leaves(t)| - i
  {
    if i < |Leaves(t)| {
      WalkInOrder(t, NextPlace(t, i, outcome(i)), outcome);
    }
  }

  /** When every test case passes, the walk visits all of them. */
  lemma {:induction false} WalkVisitsAll(t: Node, i: nat, outcome: nat -> Outcome)
    requires Distinct(Preorder(t)) && i <= |Leaves(t)|
    requires forall k :: outcome(k) == GoOn
    ensures |Walk(t, i, outcome)| == |Leaves(t)| - i
    ensures forall k :: 0 <= k < |Walk(t, i, outcome)| ==> Walk(t, i, outcome)[k] == i + k
    decreases |Leaves(t)| - i
  {
    if i < |Leaves(t)| {
      WalkVisitsAll(t, i + 1, outcome);
    }
  }
}
