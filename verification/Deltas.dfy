/**
  The time differences shown beside the selected rows of a log (core/logview/list.c): what the
  viewer maintains row by row, against a computation from all the selected rows.
 */
module Deltas {
  import opened Shapes

  /** A line of a log; a missing time stamp is -1. */
  datatype Entry = Entry(ts: int, local: int, periph: string, tag: string, done: bool)

  type Log = seq<Entry>

  /** The time since row `since`. */
  datatype Delta = Delta(since: nat, dt: nat)

  /** The global and local differences of a row. */
  datatype Cell = Cell(global: Option<Delta>, local: Option<nat>)

  const BLANK := Cell(None, None)

  /** The differences between two rows, where the time stamps allow. */
  function Compute(log: Log, cur: nat, prev: nat): Cell
    requires cur < |log| && prev < |log|
  {
    Cell(if log[prev].ts >= 0 && log[cur].ts >= log[prev].ts
         then Some(Delta(prev, log[cur].ts - log[prev].ts)) else None,
         if log[prev].periph == log[cur].periph && log[prev].local >= 0 && log[cur].local >= log[prev].local
         then Some(log[cur].local - log[prev].local) else None)
  }

  // ----- the differences, from all the selected rows -----

  /** The nearest selected row before row `i`; row 0 when there is none. */
  function Prev(sel: seq<bool>, i: nat): (j: nat)
    requires i <= |sel|
    ensures j <= i
    ensures j < i || j == 0
  {
    if i == 0 then 0 else if sel[i - 1] then i - 1 else Prev(sel, i - 1)
  }

  function FullCell(log: Log, sel: seq<bool>, i: nat): Cell
    requires |sel| == |log| && i < |log|
  {
    if sel[i] then Compute(log, i, Prev(sel, i)) else BLANK
  }

  function Full(log: Log, sel: seq<bool>): (r: seq<Cell>)
    requires |sel| == |log|
    ensures |r| == |log|
  {
    seq(|log|, i requires 0 <= i < |log| => FullCell(log, sel, i))
  }

  // ----- what the differences are -----

  /** Row `j` is the last selected one before row `i`, or row 0 when there is none. */
  predicate Nearest(sel: seq<bool>, i: nat, j: nat)
    requires i <= |sel|
  {
    || (j < i && sel[j] && forall k :: j < k < i ==> !sel[k])
    || (j == 0 && forall k :: 0 <= k < i ==> !sel[k])
  }

  /** The time from row `j` to row `i`, and the local time when both are from one interface that gives it in order. */
  predicate Measures(log: Log, i: nat, j: nat, c: Cell)
    requires i < |log| && j < |log|
  {
    && c.global.Some? && c.global.value.since == j && c.global.value.dt == log[i].ts - log[j].ts
    && (c.local.Some? <==> log[i].periph == log[j].periph && 0 <= log[j].local <= log[i].local)
    && (c.local.Some? ==> c.local.value == log[i].local - log[j].local)
  }

  /** A selected row has its differences with the nearest selected one before it, the others have none. */
  predicate RightCell(log: Log, sel: seq<bool>, i: nat, c: Cell)
    requires |sel| == |log| && i < |log|
  {
    if sel[i] then exists j :: 0 <= j < |log| && Nearest(sel, i, j) && Measures(log, i, j, c)
    else c.global == None && c.local == None
  }

  lemma {:induction false} PrevIsNearest(sel: seq<bool>, i: nat)
    requires i <= |sel|
    ensures Nearest(sel, i, Prev(sel, i))
  {
    if i > 0 && !sel[i - 1] {
      PrevIsNearest(sel, i - 1);
    }
  }

  lemma FullIsRight(log: Log, sel: seq<bool>)
    requires Ordered(log) && |sel| == |log|
    ensures forall i :: 0 <= i < |log| ==> RightCell(log, sel, i, Full(log, sel)[i])
  {
    hide Prev, Nearest;
    forall i | 0 <= i < |log| ensures RightCell(log, sel, i, Full(log, sel)[i]) {
      PrevIsNearest(sel, i);
      if sel[i] {
        assert Nearest(sel, i, Prev(sel, i)) && Measures(log, i, Prev(sel, i), Full(log, sel)[i]);
      }
    }
  }

  // ----- the differences, as they are maintained -----

  function Has(c: Cell): bool {
    c.global.Some?
  }

  /** The nearest row before `i` that has a difference; row 0 when there is none. */
  function Before(cells: seq<Cell>, i: nat): (j: nat)
    requires i <= |cells|
    ensures j <= i
    ensures j < i || j == 0
  {
    if i == 0 then 0 else if Has(cells[i - 1]) then i - 1 else Before(cells, i - 1)
  }

  /** The first row from `i` on that has a difference; the number of rows when there is none. */
  function After(cells: seq<Cell>, i: nat): (j: nat)
    requires i <= |cells|
    ensures i <= j <= |cells|
    ensures j < |cells| ==> Has(cells[j])
    ensures forall k :: i <= k < j ==> !Has(cells[k])
    decreases |cells| - i
  {
    if i == |cells| || Has(cells[i]) then i else After(cells, i + 1)
  }

  /** What becomes of the differences when row `cur` is selected or unselected. */
  function Updated(log: Log, cells: seq<Cell>, cur: nat, on: bool): (r: seq<Cell>)
    requires |cells| == |log| && cur < |log|
    ensures |r| == |log|
  {
    var prev := Before(cells, cur);
    var c := if on then Compute(log, cur, prev) else BLANK;
    var next := After(cells, cur + 1);
    var r := cells[cur := c];
    if next < |log| then r[next := Compute(log, next, if Has(c) then cur else prev)] else r
  }

  /** Time stamps that are all there, and do not go back. */
  predicate Ordered(log: Log) {
    && (forall i :: 0 <= i < |log| ==> log[i].ts >= 0)
    && (forall i, j :: 0 <= i < j < |log| ==> log[i].ts <= log[j].ts)
  }

  /** Rows have a difference exactly when they are selected. */
  lemma FullHas(log: Log, sel: seq<bool>)
    requires Ordered(log) && |sel| == |log|
    ensures forall i :: 0 <= i < |log| ==> (Has(Full(log, sel)[i]) <==> sel[i])
  {
  }

  lemma {:induction false} BeforeIsPrev(cells: seq<Cell>, sel: seq<bool>, i: nat)
    requires i <= |cells| == |sel| && forall k :: 0 <= k < i ==> (Has(cells[k]) <==> sel[k])
    ensures Before(cells, i) == Prev(sel, i)
  {
    if i > 0 && !sel[i - 1] {
      BeforeIsPrev(cells, sel, i - 1);
    }
  }

  lemma {:induction false} PrevIs(sel: seq<bool>, i: nat, j: nat)
    requires j < i <= |sel| && sel[j] && forall k :: j < k < i ==> !sel[k]
    ensures Prev(sel, i) == j
  {
    if j < i - 1 {
      PrevIs(sel, i - 1, j);
    }
  }

  lemma {:induction false} PrevSame(sel: seq<bool>, sel': seq<bool>, i: nat, lo: nat)
    requires lo <= i <= |sel| == |sel'| && forall k :: lo <= k < i ==> sel[k] == sel'[k]
    requires Prev(sel, lo) == Prev(sel', lo)
    ensures Prev(sel, i) == Prev(sel', i)
  {
    if lo < i && !sel[i - 1] {
      PrevSame(sel, sel', i - 1, lo);
    }
  }

  /** The row before, after a change to row `cur`: of rows up to it, of the next selected one, and of later ones. */
  lemma PrevAfter(sel: seq<bool>, cur: nat, on: bool, next: nat, i: nat)
    requires cur < next <= |sel| && i < |sel| && (next < |sel| ==> sel[next]) && forall k :: cur < k < next ==> !sel[k]
    ensures var sel' := sel[cur := on];
            Prev(sel', i) == if i == next then (if on then cur else Prev(sel, cur))
                             else if sel[i] || i == cur then Prev(sel, i) else Prev(sel', i)
  {
    var sel' := sel[cur := on];
    if i <= cur {
      PrevSame(sel, sel', i, 0);
    } else if i == next {
      if on {
        PrevIs(sel', i, cur);
      } else {
        PrevSkips(sel', i, cur);
        PrevSame(sel, sel', cur, 0);
      }
    } else if i > next {
      PrevIs(sel, next + 1, next);
      PrevIs(sel', next + 1, next);
      PrevSame(sel, sel', i, next + 1);
    }
  }

  /** Changing one row only matters to it and to the next selected one. */
  lemma {:induction false} UpdatedIsFull(log: Log, sel: seq<bool>, cur: nat, on: bool)
    requires Ordered(log) && |sel| == |log| && cur < |log|
    ensures Updated(log, Full(log, sel), cur, on) == Full(log, sel[cur := on])
  {
    hide Ordered, Compute, Prev, Before;
    var cells, sel' := Full(log, sel), sel[cur := on];
    FullHas(log, sel);
    FullHas(log, sel');
    BeforeIsPrev(cells, sel, cur);
    var next := After(cells, cur + 1);
    var updated := Updated(log, cells, cur, on);
    PrevAfter(sel, cur, on, next, cur);
    assert FullCell(log, sel', cur) == if on then Compute(log, cur, Prev(sel, cur)) else BLANK;
    forall i | 0 <= i < |log| ensures updated[i] == Full(log, sel')[i] {
      PrevAfter(sel, cur, on, next, i);
    }
  }

  /** Unselected rows do not matter to the next one. */
  lemma {:induction false} PrevSkips(sel: seq<bool>, i: nat, cur: nat)
    requires cur < i <= |sel| && forall k :: cur <= k < i ==> !sel[k]
    ensures Prev(sel, i) == Prev(sel, cur)
  {
    if cur < i - 1 {
      PrevSkips(sel, i - 1, cur);
    }
  }

  // ----- a sequence of selections -----

  datatype View = View(sel: seq<bool>, cells: seq<Cell>)

  function Start(n: nat): (v: View)
    ensures |v.sel| == |v.cells| == n
  {
    View(seq(n, _ => false), seq(n, _ => BLANK))
  }

  /** Change the selection of rows one after the other. */
  function Toggled(log: Log, rows: seq<nat>): (v: View)
    requires forall k :: 0 <= k < |rows| ==> rows[k] < |log|
    ensures |v.sel| == |v.cells| == |log|
  {
    if rows == [] then Start(|log|)
    else
      var v := Toggled(log, rows[..|rows| - 1]);
      var cur := rows[|rows| - 1];
      View(v.sel[cur := !v.sel[cur]], Updated(log, v.cells, cur, !v.sel[cur]))
  }

  predicate InLog(log: Log, rows: seq<nat>) {
    forall k :: 0 <= k < |rows| ==> rows[k] < |log|
  }

  /** Every selected row has its differences with the one before, and the other rows have none. */
  predicate Right(log: Log, v: View) {
    |v.sel| == |v.cells| == |log| && forall i :: 0 <= i < |log| ==> RightCell(log, v.sel, i, v.cells[i])
  }

  lemma {:induction false} ToggledIsFull(log: Log, rows: seq<nat>)
    requires Ordered(log) && InLog(log, rows)
    ensures Toggled(log, rows).cells == Full(log, Toggled(log, rows).sel)
  {
    hide Ordered, Updated, Full;
    if rows == [] {
      StartIsFull(log);
    } else {
      ToggledIsFull(log, rows[..|rows| - 1]);
      var v := Toggled(log, rows[..|rows| - 1]);
      var cur := rows[|rows| - 1];
      UpdatedIsFull(log, v.sel, cur, !v.sel[cur]);
    }
  }

  lemma ToggledIsRight(log: Log, rows: seq<nat>)
    requires Ordered(log) && InLog(log, rows)
    ensures Right(log, Toggled(log, rows))
  {
    hide Ordered, Toggled, Full, RightCell;
    ToggledIsFull(log, rows);
    FullIsRight(log, Toggled(log, rows).sel);
  }

  lemma StartIsFull(log: Log)
    ensures Start(|log|).cells == Full(log, Start(|log|).sel)
  {
  }

  lemma ToggledOnce(log: Log, i: nat)
    requires i < |log|
    ensures Toggled(log, [i]).sel[i]
    ensures Toggled(log, [i]).cells[i] == Compute(log, i, 0)
    ensures forall k :: 0 <= k < |log| && k != i ==> !Toggled(log, [i]).sel[k] && Toggled(log, [i]).cells[k] == BLANK
  {
    assert [i][..0] == [];
    var v := Start(|log|);
    NoneBefore(v.cells, i);
  }

  lemma {:induction false} NoneBefore(cells: seq<Cell>, i: nat)
    requires i <= |cells| && forall k :: 0 <= k < i ==> !Has(cells[k])
    ensures Before(cells, i) == 0
  {
    if i > 0 {
      NoneBefore(cells, i - 1);
    }
  }

  lemma {:induction false} BeforeIs(cells: seq<Cell>, i: nat, j: nat)
    requires j < i <= |cells| && Has(cells[j]) && forall k :: j < k < i ==> !Has(cells[k])
    ensures Before(cells, i) == j
  {
    if j < i - 1 {
      BeforeIs(cells, i - 1, j);
    }
  }

  /** Without order, some selection leaves a selected row without difference. */
  lemma DisorderShows(log: Log) returns (rows: seq<nat>)
    requires !Ordered(log)
    ensures InLog(log, rows) && !Right(log, Toggled(log, rows))
  {
    hide Right;
    if i :| 0 <= i < |log| && !Has(Compute(log, i, 0)) {
      ToggledOnce(log, i);
      MissingIsNotRight(log, Toggled(log, [i]), i);
      return [i];
    }
    assert forall i :: 0 <= i < |log| ==> Has(Compute(log, i, 0)) && log[i].ts >= log[0].ts >= 0;
    var i, j :| 0 <= i < j < |log| && log[i].ts > log[j].ts;
    rows := [i, j];
    assert rows[..1] == [i];
    ToggledOnce(log, i);
    var v := Toggled(log, [i]);
    assert !v.sel[j] && Has(v.cells[i]);
    BeforeIs(v.cells, j, i);
    var w := Toggled(log, rows);
    assert w.sel == v.sel[j := true] && w.cells == Updated(log, v.cells, j, true);
    assert After(v.cells, j + 1) == |log|;
    assert w.cells[j] == Compute(log, j, i);
    MissingIsNotRight(log, w, j);
  }

  lemma MissingIsNotRight(log: Log, v: View, i: nat)
    requires |v.sel| == |v.cells| == |log| && i < |log| && v.sel[i] && !Has(v.cells[i])
    ensures !Right(log, v)
  {
    hide Nearest;
    assert !RightCell(log, v.sel, i, v.cells[i]);
  }

  /** The differences are right after any sequence of selections exactly when the log is ordered. */
  lemma RightWhenOrdered(log: Log)
    ensures Ordered(log) <==> forall rows: seq<nat> :: InLog(log, rows) ==> Right(log, Toggled(log, rows))
  {
    hide Ordered, Right, Toggled;
    if Ordered(log) {
      forall rows: seq<nat> | InLog(log, rows) ensures Right(log, Toggled(log, rows)) {
        ToggledIsRight(log, rows);
      }
    } else {
      var rows := DisorderShows(log);
    }
  }
}
