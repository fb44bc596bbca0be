/**
  The rows of the log viewer (core/logview/list.c): selecting rows, filtering them, and rebuilding
  the list that is shown.
 */
module LogView {
  import opened Shapes
  import opened Deltas

  datatype Filter = ByPeriph | ByTag | ByCase

  /** The filters that hide a row. */
  datatype Mask = Mask(periph: bool, tag: bool, testCase: bool)

  const NO_MASK := Mask(false, false, false)

  function Put(m: Mask, what: Filter, on: bool): Mask {
    match what
    case ByPeriph => m.(periph := on)
    case ByTag => m.(tag := on)
    case ByCase => m.(testCase := on)
  }

  predicate Hides(m: Mask) {
    m.periph || m.tag || m.testCase
  }

  class Row {
    const index: nat
    const entry: Entry
    var filter: Mask
    var shown: bool
    var selected: bool
    var global: Option<Delta>
    var local: Option<nat>

    constructor (index: nat, entry: Entry)
      ensures this.index == index && this.entry == entry
      ensures filter == NO_MASK && shown && !selected && global == None && local == None
    {
      this.index, this.entry := index, entry;
      filter, shown, selected, global, local := NO_MASK, true, false, None, None;
    }

    predicate Filtered()
      reads this`filter
    {
      Hides(filter)
    }

    function CellOf(): Cell
      reads this`global, this`local
    {
      Cell(global, local)
    }
  }

  /** The rows are those of the log, in order. */
  ghost predicate RowsOf(rows: seq<Row>, log: Log) {
    |rows| == |log| && forall i :: 0 <= i < |rows| ==> rows[i].index == i && rows[i].entry == log[i]
  }

  ghost function Cells(rows: seq<Row>): (r: seq<Cell>)
    reads rows`global, rows`local
    ensures |r| == |rows| && forall i :: 0 <= i < |rows| ==> r[i] == rows[i].CellOf()
  {
    if rows == [] then [] else Cells(rows[..|rows| - 1]) + [rows[|rows| - 1].CellOf()]
  }

  ghost function Masks(rows: seq<Row>): (r: seq<Mask>)
    reads rows`filter
    ensures |r| == |rows| && forall i :: 0 <= i < |rows| ==> r[i] == rows[i].filter
  {
    if rows == [] then [] else Masks(rows[..|rows| - 1]) + [rows[|rows| - 1].filter]
  }

  ghost function Picks(rows: seq<Row>): (r: seq<bool>)
    reads rows`selected
    ensures |r| == |rows| && forall i :: 0 <= i < |rows| ==> r[i] == rows[i].selected
  {
    if rows == [] then [] else Picks(rows[..|rows| - 1]) + [rows[|rows| - 1].selected]
  }

  /** Filtered rows are not shown, and so not selected. */
  ghost predicate Shown(rows: seq<Row>)
    reads rows`filter, rows`shown, rows`selected
  {
    forall i :: 0 <= i < |rows| ==> rows[i].shown == !rows[i].Filtered() && (rows[i].selected ==> rows[i].shown)
  }

  /**
    Every selected row has its difference with the nearest earlier one, as computed from all the
    selected rows; filtered rows are not shown, not selected, and have no difference.
   */
  ghost predicate Coherent(rows: seq<Row>, log: Log)
    reads rows`filter, rows`shown, rows`selected, rows`global, rows`local
  {
    RowsOf(rows, log) && Cells(rows) == Full(log, Picks(rows)) && Shown(rows)
  }

  /** What the rows show: each selected one its differences with the nearest selected one before it. */
  ghost predicate Differences(rows: seq<Row>, log: Log)
    reads rows`selected, rows`global, rows`local
  {
    && |rows| == |log|
    && forall i :: 0 <= i < |rows| ==> RightCell(log, Picks(rows), i, Cell(rows[i].global, rows[i].local))
  }

  lemma CoherentShows(rows: seq<Row>, log: Log)
    requires Coherent(rows, log) && Ordered(log)
    ensures Differences(rows, log)
  {
    hide Ordered, Full, RightCell;
    FullIsRight(log, Picks(rows));
    forall i | 0 <= i < |rows| ensures RightCell(log, Picks(rows), i, Cell(rows[i].global, rows[i].local)) {
      assert Cells(rows)[i] == rows[i].CellOf();
    }
  }

  // ----- differences -----

  /** Give a row its differences with another; those that cannot be computed are left as they are. */
  method DtCompute(cur: Row, prev: Row, ghost log: Log)
    requires cur.index < |log| && prev.index < |log| && cur.entry == log[cur.index] && prev.entry == log[prev.index]
    requires cur.global == None && cur.local == None
    modifies cur`global, cur`local
    ensures cur.CellOf() == Compute(log, cur.index, prev.index)
    ensures cur.global == if 0 <= prev.entry.ts <= cur.entry.ts
                          then Some(Delta(prev.index, cur.entry.ts - prev.entry.ts)) else None
    ensures cur.local == if prev.entry.periph == cur.entry.periph && 0 <= prev.entry.local <= cur.entry.local
                         then Some(cur.entry.local - prev.entry.local) else None
  {
    var globalDt, localDt := -1, -1;
    if prev.entry.ts >= 0 && cur.entry.ts >= prev.entry.ts {
      globalDt := cur.entry.ts - prev.entry.ts;
    }
    if prev.entry.periph == cur.entry.periph {
      if prev.entry.local >= 0 && cur.entry.local >= prev.entry.local {
        localDt := cur.entry.local - prev.entry.local;
      }
    }
    if globalDt >= 0 {
      cur.global := Some(Delta(prev.index, globalDt));
    }
    if localDt >= 0 {
      cur.local := Some(localDt);
    }
  }

  method DtClear(row: Row)
    modifies row`global, row`local
    ensures row.CellOf() == BLANK
  {
    row.global := None;
    row.local := None;
  }

  /** The nearest row before `i` that has a difference; the first row when there is none. */
  method SeekBefore(rows: seq<Row>, i: nat) returns (prev: Row)
    requires i < |rows|
    ensures prev == rows[Before(Cells(rows), i)]
  {
    var k: int := i - 1;
    while k >= 0 && rows[k].global == None
      invariant -1 <= k < i && Before(Cells(rows), i) == Before(Cells(rows), k + 1)
    {
      k := k - 1;
    }
    prev := if k >= 0 then rows[k] else rows[0];
  }

  method SeekAfter(rows: seq<Row>, i: nat) returns (k: nat)
    requires i <= |rows|
    ensures k == Deltas.After(Cells(rows), i)
  {
    k := i;
    while k < |rows| && rows[k].global == None
      invariant i <= k <= |rows| && Deltas.After(Cells(rows), i) == Deltas.After(Cells(rows), k)
    {
      k := k + 1;
    }
  }

  method Refresh(rows: seq<Row>, cur: Row, prev: Row, on: bool, ghost log: Log)
    requires RowsOf(rows, log) && cur in rows && prev in rows
    modifies cur`global, cur`local
    ensures cur.index < |log| && prev.index < |log|
    ensures Cells(rows) == old(Cells(rows))[cur.index := if on then Compute(log, cur.index, prev.index) else BLANK]
  {
    DtClear(cur);
    if on {
      DtCompute(cur, prev, log);
    }
  }

  /** A row has been selected or not: update it, and the next selected one. */
  method DtUpdate(rows: seq<Row>, cur: Row, on: bool, ghost log: Log)
    requires RowsOf(rows, log) && cur in rows
    modifies rows`global, rows`local
    ensures cur.index < |log| == |rows| && Cells(rows) == Updated(log, old(Cells(rows)), cur.index, on)
  {
    hide Compute, Cells, RowsOf, Deltas.Before, Deltas.After;
    RowFacts(rows, log, cur);
    ghost var cells := Cells(rows);
    var prev := SeekBefore(rows, cur.index);
    RowFacts(rows, log, prev);
    var i := SeekAfter(rows, cur.index + 1);
    Refresh(rows, cur, prev, on, log);
    if i < |rows| {
      RowFacts(rows, log, rows[i]);
      Refresh(rows, rows[i], if cur.global != None then cur else prev, true, log);
    }
  }

  lemma RowFacts(rows: seq<Row>, log: Log, row: Row)
    requires RowsOf(rows, log) && row in rows
    ensures |rows| == |log| && row.index < |rows| && rows[row.index] == row
    ensures forall i :: 0 <= i < |rows| ==> rows[i].index == i
  {
  }

  method SetSelected(rows: seq<Row>, cur: Row, state: bool, ghost log: Log)
    requires RowsOf(rows, log) && cur in rows
    modifies cur`selected
    ensures cur.index < |rows| && cur.selected == state && Picks(rows) == old(Picks(rows))[cur.index := state]
    ensures forall i :: 0 <= i < |rows| && rows[i] != cur ==> rows[i].selected == old(rows[i].selected)
  {
    cur.selected := state;
    assert Picks(rows) == old(Picks(rows))[cur.index := state];
  }

  /** Change the selection of a row that is shown. In a log in order, the differences stay right. */
  method Select(rows: seq<Row>, cur: Row, ghost log: Log)
    requires RowsOf(rows, log) && cur in rows && cur.shown
    modifies rows`global, rows`local, cur`selected
    ensures cur.index < |rows| == |log| && Picks(rows) == old(Picks(rows))[cur.index := !old(cur.selected)]
    ensures Cells(rows) == Updated(log, old(Cells(rows)), cur.index, !old(cur.selected))
    ensures Ordered(log) && old(Coherent(rows, log)) ==> Coherent(rows, log) && Differences(rows, log)
  {
    hide Updated, RowsOf, Cells, Picks, Coherent, Ordered, Differences;
    RowFacts(rows, log, cur);
    ghost var sel, cells, state0 := Picks(rows), Cells(rows), Coherent(rows, log);
    var state := !cur.selected;
    PicksShown(rows, log);
    DtUpdate(rows, cur, state, log);
    SetSelected(rows, cur, state, log);
    if Ordered(log) && state0 {
      UpdatedIsFull(log, sel, cur.index, state);
      SelectedCoherent(rows, log, sel, cur.index, state);
      CoherentShows(rows, log);
    }
  }

  lemma PicksShown(rows: seq<Row>, log: Log)
    ensures Coherent(rows, log) ==> |rows| == |log| && Cells(rows) == Full(log, Picks(rows)) && Shown(rows)
  {
  }

  lemma SelectedCoherent(rows: seq<Row>, log: Log, sel: seq<bool>, i: nat, state: bool)
    requires RowsOf(rows, log) && |sel| == |log| && i < |rows| && rows[i].shown
    requires Picks(rows) == sel[i := state] && Cells(rows) == Full(log, sel[i := state])
    requires forall k :: 0 <= k < |rows| ==> rows[k].shown == !rows[k].Filtered() && (sel[k] ==> rows[k].shown)
    ensures Coherent(rows, log)
  {
    hide Full, Cells;
    forall k | 0 <= k < |rows| ensures rows[k].selected ==> rows[k].shown {
      assert rows[k].selected == Picks(rows)[k];
    }
  }

  // ----- showing the list -----

  /** Take all the rows off the list. */
  method ClearStore(rows: seq<Row>)
    modifies rows`shown, rows`selected
    ensures forall i :: 0 <= i < |rows| ==> !rows[i].shown && !rows[i].selected
  {
    var i := 0;
    while i < |rows|
      invariant 0 <= i <= |rows|
      invariant forall k :: 0 <= k < i ==> !rows[k].shown && !rows[k].selected
    {
      rows[i].shown := false;
      rows[i].selected := false;
      i := i + 1;
    }
  }

  /** The rows that stay selected: those that had a difference, and are not filtered. */
  ghost function Kept(rows: seq<Row>, cells: seq<Cell>): (r: seq<bool>)
    requires |cells| == |rows|
    reads rows`filter
    ensures |r| == |rows|
    ensures forall i :: 0 <= i < |rows| ==> (r[i] <==> !rows[i].Filtered() && Has(cells[i]))
  {
    if rows == [] then []
    else
      var n := |rows| - 1;
      Kept(rows[..n], cells[..n]) + [!rows[n].Filtered() && Has(cells[n])]
  }

  /** Rows `i` and after are as they were, and those before it are as they must be. */
  ghost predicate ShownUpTo(rows: seq<Row>, log: Log, sel: seq<bool>, cells: seq<Cell>, i: nat)
    requires |rows| == |log| == |sel| == |cells|
    reads rows`filter, rows`shown, rows`selected, rows`global, rows`local
  {
    && (forall k :: 0 <= k < i && k < |rows| ==>
          rows[k].shown == !rows[k].Filtered() && rows[k].selected == sel[k]
            && rows[k].CellOf() == FullCell(log, sel, k))
    && (forall k :: i <= k < |rows| ==> !rows[k].shown && !rows[k].selected && rows[k].CellOf() == cells[k])
  }

  /** Show a row, unless it is filtered, and select it again if it had a difference. */
  method ShowOne(row: Row, prev: Row, ghost log: Log) returns (last: Row)
    requires row.index < |log| && prev.index < |log| && row.entry == log[row.index] && prev.entry == log[prev.index]
    requires !row.shown && !row.selected
    modifies row`shown, row`selected, row`global, row`local
    ensures var kept := !row.Filtered() && Has(old(row.CellOf()));
            && row.shown == !row.Filtered() && row.selected == kept && last == (if kept then row else prev)
            && row.CellOf() == if kept then Compute(log, row.index, prev.index) else old(row.CellOf())
  {
    hide Compute;
    last := prev;
    if !row.Filtered() {
      row.shown := true;
      if row.global != None {
        row.selected := true;
        DtClear(row);
        DtCompute(row, prev, log);
        last := row;
      }
    }
  }

  method ShowRow(row: Row, prev: Row, ghost rows: seq<Row>, ghost i: nat, ghost log: Log, ghost sel: seq<bool>,
                 ghost cells: seq<Cell>)
    returns (last: Row)
    requires RowsOf(rows, log) && |sel| == |cells| == |rows| && i < |rows| && row == rows[i]
             && prev == rows[Prev(sel, i)]
    requires ShownUpTo(rows, log, sel, cells, i)
    requires sel[i] <==> !row.Filtered() && Has(cells[i])
    requires !sel[i] ==> cells[i] == BLANK
    modifies row`shown, row`selected, row`global, row`local
    ensures ShownUpTo(rows, log, sel, cells, i + 1) && last == rows[Prev(sel, i + 1)]
  {
    hide Compute;
    RowsApart(rows, log, i);
    last := ShowOne(row, prev, log);
    assert row.CellOf() == FullCell(log, sel, i);
  }

  lemma RowsApart(rows: seq<Row>, log: Log, i: nat)
    requires RowsOf(rows, log) && i < |rows|
    ensures forall k :: 0 <= k < |rows| && k != i ==> rows[k] != rows[i]
  {
    assert forall k :: 0 <= k < |rows| && k != i ==> rows[k].index != rows[i].index;
  }

  /** Rebuild the list; nothing is done when the log file cannot be opened. */
  method RealizeRows(rows: seq<Row>, opens: bool, ghost log: Log)
    requires RowsOf(rows, log) && |rows| == |log| > 0
    requires forall i :: 0 <= i < |rows| && (rows[i].Filtered() || !Has(rows[i].CellOf())) ==> rows[i].CellOf() == BLANK
    modifies rows`shown, rows`selected, rows`global, rows`local
    ensures opens ==> Coherent(rows, log) && Picks(rows) == Kept(rows, old(Cells(rows)))
    ensures !opens ==> Cells(rows) == old(Cells(rows)) && Picks(rows) == old(Picks(rows))
  {
    if opens {
      ghost var cells, sel := Cells(rows), Kept(rows, Cells(rows));
      ClearStore(rows);
      NoneShown(rows, log, sel, cells);
      ShowRows(rows, log, sel, cells);
      AllShown(rows, log, sel, cells);
    }
  }

  method ShowRows(rows: seq<Row>, ghost log: Log, ghost sel: seq<bool>, ghost cells: seq<Cell>)
    requires RowsOf(rows, log) && |rows| == |log| == |cells| > 0 && sel == Kept(rows, cells)
    requires forall i :: 0 <= i < |cells| && !sel[i] ==> cells[i] == BLANK
    requires ShownUpTo(rows, log, sel, cells, 0)
    modifies rows`shown, rows`selected, rows`global, rows`local
    ensures |sel| == |rows| && ShownUpTo(rows, log, sel, cells, |rows|) && sel == Kept(rows, cells)
  {
    hide *;
    var prev := FirstRow(rows, sel);
    var i := 0;
    while i < |rows|
      invariant 0 <= i <= |rows| == |sel| && prev == rows[Prev(sel, i)]
      invariant ShownUpTo(rows, log, sel, cells, i) && sel == Kept(rows, cells)
    {
      prev := ShowRow(rows[i], prev, rows, i, log, sel, cells);
      i := i + 1;
    }
  }

  method FirstRow(rows: seq<Row>, ghost sel: seq<bool>) returns (row: Row)
    requires |rows| == |sel| > 0
    ensures row == rows[Prev(sel, 0)]
  {
    row := rows[0];
  }

  lemma NoneShown(rows: seq<Row>, log: Log, sel: seq<bool>, cells: seq<Cell>)
    requires |rows| == |log| == |sel| == |cells| && Cells(rows) == cells
    requires forall i :: 0 <= i < |rows| ==> !rows[i].shown && !rows[i].selected
    ensures ShownUpTo(rows, log, sel, cells, 0)
  {
  }

  lemma AllShown(rows: seq<Row>, log: Log, sel: seq<bool>, cells: seq<Cell>)
    requires RowsOf(rows, log) && |sel| == |cells| == |rows| && ShownUpTo(rows, log, sel, cells, |rows|)
    requires sel == Kept(rows, cells)
    ensures Coherent(rows, log) && Picks(rows) == sel
  {
    hide FullCell;
    assert Picks(rows) == sel;
    assert Cells(rows) == Full(log, sel);
  }

  // ----- filters -----

  /** The rows that have this interface, or this tag. */
  predicate Hit(e: Entry, what: Filter, id: string) {
    (what == ByPeriph && e.periph == id) || (what == ByTag && e.tag == id)
  }

  /** The rows of a test case: from its first one to the one that ends it. */
  predicate InCase(log: Log, start: nat, i: nat) {
    start <= i < |log| && forall k :: start <= k < i ==> !log[k].done
  }

  /** Which rows an event on a filter applies to. */
  ghost function Hits(log: Log, what: Filter, id: string, start: nat): (r: seq<bool>)
    ensures |r| == |log|
  {
    seq(|log|, i requires 0 <= i < |log| => if what == ByCase then InCase(log, start, i) else Hit(log[i], what, id))
  }

  ghost function NewMasks(masks: seq<Mask>, what: Filter, hits: seq<bool>, on: bool): (r: seq<Mask>)
    requires |hits| == |masks|
    ensures |r| == |masks|
  {
    seq(|masks|, i requires 0 <= i < |masks| => if hits[i] then Put(masks[i], what, on) else masks[i])
  }

  /** Hiding a row clears its differences. */
  ghost function NewCells(cells: seq<Cell>, hits: seq<bool>, on: bool): (r: seq<Cell>)
    requires |hits| == |cells|
    ensures |r| == |cells|
  {
    seq(|cells|, i requires 0 <= i < |cells| => if hits[i] && on then BLANK else cells[i])
  }

  /** The filter has been set or cleared on the rows of `hits` before row `i`. */
  ghost predicate HalfMarked(rows: seq<Row>, masks: seq<Mask>, cells: seq<Cell>, what: Filter, hits: seq<bool>,
                             on: bool, i: nat)
    requires |masks| == |cells| == |hits| == |rows|
    reads rows`filter, rows`global, rows`local
  {
    forall k :: 0 <= k < |rows| ==>
      && rows[k].filter == (if k < i && hits[k] then Put(masks[k], what, on) else masks[k])
      && rows[k].CellOf() == if k < i && hits[k] && on then BLANK else cells[k]
  }

  lemma NotMarkedYet(rows: seq<Row>, what: Filter, hits: seq<bool>, on: bool, i: nat)
    requires |hits| == |rows| && forall k :: 0 <= k < i && k < |rows| ==> !hits[k]
    ensures HalfMarked(rows, Masks(rows), Cells(rows), what, hits, on, i)
  {
    hide Masks, Cells, Put;
  }

  lemma AllMarked(rows: seq<Row>, masks: seq<Mask>, cells: seq<Cell>, what: Filter, hits: seq<bool>, on: bool, i: nat)
    requires |masks| == |cells| == |hits| == |rows| && HalfMarked(rows, masks, cells, what, hits, on, i)
    requires forall k :: i <= k < |rows| ==> !hits[k]
    ensures Masks(rows) == NewMasks(masks, what, hits, on) && Cells(rows) == NewCells(cells, hits, on)
  {
    hide Masks, Cells, Put;
  }

  /** Set or clear the filter on a row, and clear its differences when it hides it. */
  method MarkRow(row: Row, what: Filter, on: bool, ghost rows: seq<Row>, ghost masks: seq<Mask>, ghost cells: seq<Cell>,
                 ghost hits: seq<bool>, ghost i: nat, ghost log: Log)
    requires RowsOf(rows, log) && |masks| == |cells| == |hits| == |rows| && i < |rows| && row == rows[i] && hits[i]
    requires HalfMarked(rows, masks, cells, what, hits, on, i)
    modifies row`filter, row`global, row`local
    ensures HalfMarked(rows, masks, cells, what, hits, on, i + 1)
  {
    hide Put;
    RowsApart(rows, log, i);
    row.filter := Put(row.filter, what, on);
    if on {
      DtClear(row);
    }
  }

  lemma NotMarked(rows: seq<Row>, masks: seq<Mask>, cells: seq<Cell>, what: Filter, hits: seq<bool>, on: bool, i: nat)
    requires |masks| == |cells| == |hits| == |rows| && HalfMarked(rows, masks, cells, what, hits, on, i)
    requires i < |rows| && !hits[i]
    ensures HalfMarked(rows, masks, cells, what, hits, on, i + 1)
  {
    hide Put;
  }

  /** Set or clear the filter on all the rows of an interface or of a tag. */
  method MarkRows(rows: seq<Row>, what: Filter, id: string, on: bool, ghost log: Log)
    requires RowsOf(rows, log) && |rows| == |log| && what != ByCase
    modifies rows`filter, rows`global, rows`local
    ensures Masks(rows) == NewMasks(old(Masks(rows)), what, Hits(log, what, id, 0), on)
    ensures Cells(rows) == NewCells(old(Cells(rows)), Hits(log, what, id, 0), on)
  {
    hide Hit, HalfMarked, Masks, Cells, NewMasks, NewCells, RowsOf;
    ghost var hits := Hits(log, what, id, 0);
    ghost var masks, cells := Masks(rows), Cells(rows);
    NotMarkedYet(rows, what, hits, on, 0);
    var i := 0;
    while i < |rows|
      invariant 0 <= i <= |rows| && HalfMarked(rows, masks, cells, what, hits, on, i)
    {
      RowEntry(rows, log, i);
      if Hit(rows[i].entry, what, id) {
        MarkRow(rows[i], what, on, rows, masks, cells, hits, i, log);
      } else {
        NotMarked(rows, masks, cells, what, hits, on, i);
      }
      i := i + 1;
    }
    AllMarked(rows, masks, cells, what, hits, on, i);
  }

  lemma RowEntry(rows: seq<Row>, log: Log, i: nat)
    requires RowsOf(rows, log) && i < |rows|
    ensures |rows| == |log| && rows[i].entry == log[i] && rows[i] in rows
  {
  }

  /** Set or clear the filter on the rows of a test case. */
  method MarkCase(rows: seq<Row>, start: nat, on: bool, ghost log: Log)
    requires RowsOf(rows, log) && |rows| == |log| && start < |rows|
    modifies rows`filter, rows`global, rows`local
    ensures Masks(rows) == NewMasks(old(Masks(rows)), ByCase, Hits(log, ByCase, [], start), on)
    ensures Cells(rows) == NewCells(old(Cells(rows)), Hits(log, ByCase, [], start), on)
  {
    hide InCase, HalfMarked, Masks, Cells, NewMasks, NewCells, RowsOf;
    ghost var hits := Hits(log, ByCase, [], start);
    ghost var masks, cells := Masks(rows), Cells(rows);
    BeforeCase(log, start);
    NotMarkedYet(rows, ByCase, hits, on, start);
    var i := start;
    var ended := false;
    while i < |rows| && !ended
      invariant start <= i <= |rows| && HalfMarked(rows, masks, cells, ByCase, hits, on, i)
      invariant if ended then forall k :: i <= k < |rows| ==> !hits[k] else i < |rows| ==> hits[i]
    {
      RowEntry(rows, log, i);
      CaseNext(log, start, i);
      MarkRow(rows[i], ByCase, on, rows, masks, cells, hits, i, log);
      if rows[i].entry.done {
        ended := true;
      }
      i := i + 1;
    }
    AllMarked(rows, masks, cells, ByCase, hits, on, i);
  }

  lemma BeforeCase(log: Log, start: nat)
    requires start < |log|
    ensures InCase(log, start, start) && forall k :: 0 <= k < start ==> !InCase(log, start, k)
  {
  }

  lemma CaseNext(log: Log, start: nat, i: nat)
    requires InCase(log, start, i)
    ensures log[i].done ==> forall k :: i < k < |log| ==> !InCase(log, start, k)
    ensures !log[i].done && i + 1 < |log| ==> InCase(log, start, i + 1)
  {
  }

  /** A row selected stays so as long as no filter hides it. */
  ghost function StillPicked(masks: seq<Mask>, sel: seq<bool>): (r: seq<bool>)
    requires |masks| == |sel|
    ensures |r| == |sel|
  {
    seq(|sel|, i requires 0 <= i < |sel| => sel[i] && !Hides(masks[i]))
  }

  /** An event on an entry of a filter: rows are hidden or shown, and the differences stay right. */
  method FilterEvent(rows: seq<Row>, what: Filter, item: Row, off: bool, opens: bool, ghost log: Log)
    requires Coherent(rows, log) && Ordered(log) && item in rows
    modifies rows`filter, rows`shown, rows`selected, rows`global, rows`local
    ensures |rows| == |log| && item.index < |rows|
    ensures var id := if what == ByPeriph then item.entry.periph else item.entry.tag;
            Masks(rows) == NewMasks(old(Masks(rows)), what, Hits(log, what, id, item.index), off)
    ensures opens ==> Coherent(rows, log) && Picks(rows) == StillPicked(Masks(rows), old(Picks(rows)))
    ensures opens ==> Differences(rows, log)
    ensures var id := if what == ByPeriph then item.entry.periph else item.entry.tag;
            !opens ==> Picks(rows) == old(Picks(rows)) && Cells(rows) == NewCells(old(Cells(rows)), Hits(log, what, id, item.index), off)
  {
    hide Full, Ordered, Cells, Picks, Masks, Hits, NewMasks, NewCells, RowsOf, Shown, Kept, Differences;
    RowFacts(rows, log, item);
    ghost var sel, masks0, cells0 := Picks(rows), Masks(rows), Cells(rows);
    ghost var id := if what == ByPeriph then item.entry.periph else item.entry.tag;
    ghost var hits := Hits(log, what, id, item.index);
    HitsAgree(log, what, id, item.index);
    HiddenUnpicked(rows);
    match what {
      case ByPeriph => MarkRows(rows, what, item.entry.periph, off, log);
      case ByTag => MarkRows(rows, what, item.entry.tag, off, log);
      case ByCase => MarkCase(rows, item.index, off, log);
    }
    MarkedCells(rows, log, sel, masks0, what, hits, off);
    RealizeRows(rows, opens, log);
    if opens {
      KeptArePicked(rows, log, sel, masks0, what, hits, off);
      CoherentShows(rows, log);
    }
  }

  lemma HitsAgree(log: Log, what: Filter, id: string, start: nat)
    ensures what != ByCase ==> Hits(log, what, id, start) == Hits(log, what, id, 0)
    ensures what == ByCase ==> Hits(log, what, id, start) == Hits(log, what, [], start)
  {
  }

  /** After the marking, hidden rows and rows without difference are blank. */
  lemma MarkedCells(rows: seq<Row>, log: Log, sel: seq<bool>, masks0: seq<Mask>, what: Filter, hits: seq<bool>,
                    on: bool)
    requires Ordered(log) && |sel| == |log| == |rows| == |masks0| == |hits|
    requires forall i :: 0 <= i < |rows| && Hides(masks0[i]) ==> !sel[i]
    requires Cells(rows) == NewCells(Full(log, sel), hits, on) && Masks(rows) == NewMasks(masks0, what, hits, on)
    ensures forall i :: 0 <= i < |rows| && (rows[i].Filtered() || !Has(rows[i].CellOf())) ==> rows[i].CellOf() == BLANK
  {
    hide Ordered, Compute, Cells, Masks, Kept, Full, FullCell, NewCells, NewMasks, Hides;
    FullHas(log, sel);
    forall i | 0 <= i < |rows| && (rows[i].Filtered() || !Has(rows[i].CellOf())) ensures rows[i].CellOf() == BLANK {
      MarkedCell(Full(log, sel), sel, masks0, what, hits, on, i);
      UnpickedIsBlank(log, sel, i);
      assert rows[i].CellOf() == Cells(rows)[i] && rows[i].filter == Masks(rows)[i];
    }
  }

  lemma MarkedCell(cells: seq<Cell>, sel: seq<bool>, masks0: seq<Mask>, what: Filter, hits: seq<bool>, on: bool, i: nat)
    requires |sel| == |cells| == |masks0| == |hits| && i < |cells|
    requires Hides(masks0[i]) ==> !sel[i]
    ensures hits[i] && on ==> NewCells(cells, hits, on)[i] == BLANK
    ensures !(hits[i] && on) ==> NewCells(cells, hits, on)[i] == cells[i]
    ensures !(hits[i] && on) && Hides(NewMasks(masks0, what, hits, on)[i]) ==> !sel[i]
  {
  }

  lemma UnpickedIsBlank(log: Log, sel: seq<bool>, i: nat)
    requires |sel| == |log| && i < |log|
    ensures !sel[i] ==> Full(log, sel)[i] == BLANK
  {
  }

  lemma HiddenUnpicked(rows: seq<Row>)
    requires Shown(rows)
    ensures forall i :: 0 <= i < |rows| && Hides(Masks(rows)[i]) ==> !Picks(rows)[i]
  {
    hide Masks, Picks;
    forall i | 0 <= i < |rows| && Hides(Masks(rows)[i]) ensures !Picks(rows)[i] {
      assert rows[i].Filtered();
    }
  }

  /** A row is hidden by a filter that has just been set on it. */
  lemma StillHas(cells: seq<Cell>, masks0: seq<Mask>, what: Filter, hits: seq<bool>, on: bool, i: nat)
    requires |cells| == |masks0| == |hits| && i < |cells|
    ensures !Hides(NewMasks(masks0, what, hits, on)[i]) ==> NewCells(cells, hits, on)[i] == cells[i]
  {
  }

  lemma KeptArePicked(rows: seq<Row>, log: Log, sel: seq<bool>, masks0: seq<Mask>, what: Filter, hits: seq<bool>,
                      on: bool)
    requires Ordered(log) && |sel| == |log| == |rows| == |masks0| == |hits|
    requires Masks(rows) == NewMasks(masks0, what, hits, on)
    ensures Kept(rows, NewCells(Full(log, sel), hits, on)) == StillPicked(Masks(rows), sel)
  {
    hide Ordered, Compute, Cells, Masks, Kept, Full, Hides, NewMasks, NewCells;
    FullHas(log, sel);
    var cells := Full(log, sel);
    var kept, still := Kept(rows, NewCells(cells, hits, on)), StillPicked(Masks(rows), sel);
    forall i | 0 <= i < |rows| ensures kept[i] == still[i] {
      StillHas(cells, masks0, what, hits, on, i);
      assert rows[i].filter == Masks(rows)[i];
    }
  }

  // ----- a log being viewed -----

  /** The rows of a log that has just been read: all shown, none selected. */
  method NewRows(log: Log) returns (rows: seq<Row>)
    ensures fresh(rows) && Coherent(rows, log)
    ensures Masks(rows) == NoMasks(|log|) && Picks(rows) == NoPicks(|log|)
  {
    rows := [];
    var i := 0;
    while i < |log|
      invariant 0 <= i <= |log| && |rows| == i && fresh(rows)
      invariant forall k :: 0 <= k < i ==> rows[k].index == k && rows[k].entry == log[k] && IsNew(rows[k])
    {
      var row := new Row(i, log[i]);
      rows := rows + [row];
      i := i + 1;
    }
    NewIsCoherent(rows, log);
  }

  ghost predicate IsNew(row: Row)
    reads row
  {
    row.filter == NO_MASK && row.shown && !row.selected && row.CellOf() == BLANK
  }

  function NoMasks(n: nat): (r: seq<Mask>)
    ensures |r| == n
  {
    seq(n, _ => NO_MASK)
  }

  function NoPicks(n: nat): (r: seq<bool>)
    ensures |r| == n
  {
    seq(n, _ => false)
  }

  lemma NewIsCoherent(rows: seq<Row>, log: Log)
    requires RowsOf(rows, log) && forall k :: 0 <= k < |rows| ==> IsNew(rows[k])
    ensures Coherent(rows, log) && Masks(rows) == NoMasks(|log|) && Picks(rows) == NoPicks(|log|)
  {
    assert Picks(rows) == NoPicks(|log|) && Masks(rows) == NoMasks(|log|);
    assert Cells(rows) == Full(log, NoPicks(|log|));
  }

  /** What the user does: a click on a row, or on an entry of a filter, which is that of some row. */
  datatype Click = Pick(i: nat) | Switch(what: Filter, i: nat, off: bool)

  datatype State = State(masks: seq<Mask>, picks: seq<bool>)

  predicate OnLog(log: Log, clicks: seq<Click>) {
    forall k :: 0 <= k < |clicks| ==> clicks[k].i < |log|
  }

  /** The entry of the filter that a row has. */
  function IdOf(what: Filter, e: Entry): string {
    if what == ByPeriph then e.periph else e.tag
  }

  /** What a click makes of the filters and of the selection; a row that is not shown cannot be clicked on. */
  ghost function Clicked(log: Log, s: State, click: Click): (r: State)
    requires |s.masks| == |s.picks| == |log| && click.i < |log|
    ensures |r.masks| == |r.picks| == |log|
  {
    match click
    case Pick(i) => if Hides(s.masks[i]) then s else s.(picks := s.picks[i := !s.picks[i]])
    case Switch(what, i, off) =>
      var masks := NewMasks(s.masks, what, Hits(log, what, IdOf(what, log[i]), i), off);
      State(masks, StillPicked(masks, s.picks))
  }

  ghost function Viewed(log: Log, clicks: seq<Click>): (r: State)
    requires OnLog(log, clicks)
    ensures |r.masks| == |r.picks| == |log|
  {
    if clicks == [] then State(NoMasks(|log|), NoPicks(|log|))
    else Clicked(log, Viewed(log, clicks[..|clicks| - 1]), clicks[|clicks| - 1])
  }

  method DoClick(rows: seq<Row>, click: Click, ghost log: Log)
    requires Coherent(rows, log) && Ordered(log) && click.i < |rows|
    modifies rows`filter, rows`shown, rows`selected, rows`global, rows`local
    ensures |rows| == |log| && Coherent(rows, log)
    ensures State(Masks(rows), Picks(rows)) == Clicked(log, State(old(Masks(rows)), old(Picks(rows))), click)
  {
    hide Full, Ordered, Cells, Picks, Masks, Hits, NewMasks, NewCells, Updated;
    RowFacts(rows, log, rows[click.i]);
    RowEntry(rows, log, click.i);
    RowState(rows, log, click.i);
    match click {
      case Pick(i) =>
        if rows[i].shown {
          Select(rows, rows[i], log);
        }
      case Switch(what, i, off) => FilterEvent(rows, what, rows[i], off, true, log);
    }
  }

  lemma RowState(rows: seq<Row>, log: Log, i: nat)
    requires Coherent(rows, log) && i < |rows|
    ensures rows[i].shown == !Hides(Masks(rows)[i]) && rows[i].selected == Picks(rows)[i]
  {
  }

  // ----- what the filters and the selection are, after any clicks -----

  /** The click is on an entry of filter `what` that row `i` belongs to. */
  predicate Concerns(log: Log, click: Click, what: Filter, i: nat)
    requires i < |log|
  {
    && click.Switch? && click.what == what && click.i < |log|
    && match what
       case ByPeriph => log[click.i].periph == log[i].periph
       case ByTag => log[click.i].tag == log[i].tag
       case ByCase => click.i <= i && forall k :: click.i <= k < i ==> !log[k].done
  }

  /** The last click on such an entry has switched it off. */
  predicate SwitchedOff(log: Log, clicks: seq<Click>, what: Filter, i: nat)
    requires i < |log|
  {
    exists k :: 0 <= k < |clicks| && Concerns(log, clicks[k], what, i) && clicks[k].off
                && forall l :: k < l < |clicks| ==> !Concerns(log, clicks[l], what, i)
  }

  predicate Hidden(log: Log, clicks: seq<Click>, i: nat)
    requires i < |log|
  {
    SwitchedOff(log, clicks, ByPeriph, i) || SwitchedOff(log, clicks, ByTag, i) || SwitchedOff(log, clicks, ByCase, i)
  }

  lemma SwitchedOffNext(log: Log, clicks: seq<Click>, click: Click, what: Filter, i: nat)
    requires i < |log|
    ensures SwitchedOff(log, clicks + [click], what, i) <==>
              if Concerns(log, click, what, i) then click.off else SwitchedOff(log, clicks, what, i)
  {
    var all, n := clicks + [click], |clicks|;
    assert all[n] == click && forall k :: 0 <= k < n ==> all[k] == clicks[k];
    if Concerns(log, click, what, i) {
      if click.off {
        assert Concerns(log, all[n], what, i) && all[n].off;
      }
    } else if SwitchedOff(log, clicks, what, i) {
      var k :| 0 <= k < n && Concerns(log, clicks[k], what, i) && clicks[k].off
               && forall l :: k < l < n ==> !Concerns(log, clicks[l], what, i);
      assert Concerns(log, all[k], what, i);
    }
  }

  /** The filters of a row are those last switched off. */
  lemma {:induction false} MaskIs(log: Log, clicks: seq<Click>, i: nat)
    requires OnLog(log, clicks) && i < |log|
    ensures Viewed(log, clicks).masks[i] ==
            Mask(SwitchedOff(log, clicks, ByPeriph, i), SwitchedOff(log, clicks, ByTag, i), SwitchedOff(log, clicks, ByCase, i))
  {
    hide SwitchedOff;
    if clicks == [] {
      NothingOff(log, i);
    } else {
      var front, click := clicks[..|clicks| - 1], clicks[|clicks| - 1];
      assert clicks == front + [click];
      MaskIs(log, front, i);
      SwitchedOffNext(log, front, click, ByPeriph, i);
      SwitchedOffNext(log, front, click, ByTag, i);
      SwitchedOffNext(log, front, click, ByCase, i);
    }
  }

  lemma NothingOff(log: Log, i: nat)
    requires i < |log|
    ensures forall what :: !SwitchedOff(log, [], what, i)
  {
  }

  lemma HiddenIs(log: Log, clicks: seq<Click>, i: nat)
    requires OnLog(log, clicks) && i < |log|
    ensures Hides(Viewed(log, clicks).masks[i]) <==> Hidden(log, clicks, i)
  {
    hide SwitchedOff, Viewed;
    MaskIs(log, clicks, i);
  }

  /** How often row `i` has been clicked on. */
  function Picked(clicks: seq<Click>, i: nat): nat {
    if clicks == [] then 0 else Picked(clicks[..|clicks| - 1], i) + if clicks[|clicks| - 1] == Pick(i) then 1 else 0
  }

  lemma {:induction false} HiddenIsNotPicked(log: Log, clicks: seq<Click>, i: nat)
    requires OnLog(log, clicks) && i < |log|
    ensures Hidden(log, clicks, i) ==> !Viewed(log, clicks).picks[i]
  {
    hide Hidden;
    HiddenIs(log, clicks, i);
    if clicks != [] {
      HiddenIs(log, clicks[..|clicks| - 1], i);
      HiddenIsNotPicked(log, clicks[..|clicks| - 1], i);
    }
  }

  /** What a click does to a row that is not hidden after it. */
  lemma ClickedPick(log: Log, s: State, click: Click, i: nat)
    requires |s.masks| == |s.picks| == |log| && click.i < |log| && i < |log|
    requires !Hides(Clicked(log, s, click).masks[i])
    ensures Clicked(log, s, click).picks[i] == if click == Pick(i) then !s.picks[i] else s.picks[i]
  {
    hide Hits, NewMasks;
  }

  lemma ViewedNext(log: Log, front: seq<Click>, click: Click)
    requires OnLog(log, front + [click])
    ensures OnLog(log, front) && click.i < |log|
    ensures Viewed(log, front + [click]) == Clicked(log, Viewed(log, front), click)
  {
    hide Clicked;
    var all := front + [click];
    assert all[|front|] == click && all[..|front|] == front;
    assert forall k :: 0 <= k < |front| ==> all[k] == front[k];
  }

  lemma PickedNext(clicks: seq<Click>, click: Click, i: nat)
    ensures Picked(clicks + [click], i) == Picked(clicks, i) + if click == Pick(i) then 1 else 0
  {
    assert (clicks + [click])[..|clicks|] == clicks;
  }

  /** A row is selected if and only if it was clicked on an odd number of times since it was last hidden. */
  lemma {:induction false} PickedIs(log: Log, clicks: seq<Click>, i: nat, m: nat)
    requires OnLog(log, clicks) && i < |log| && m <= |clicks|
    requires m == 0 || Hidden(log, clicks[..m], i)
    requires forall l :: m < l <= |clicks| ==> !Hidden(log, clicks[..l], i)
    ensures Viewed(log, clicks).picks[i] <==> Picked(clicks[m..], i) % 2 == 1
  {
    hide Hidden, Viewed, Clicked, Picked, OnLog;
    var n := |clicks|;
    assert clicks[..n] == clicks;
    if m == n {
      assert clicks[m..] == [];
      NotPickedYet(log, clicks, i);
    } else {
      var front, click := clicks[..n - 1], clicks[n - 1];
      forall l | m < l <= |front| ensures !Hidden(log, front[..l], i) {
        assert front[..l] == clicks[..l];
      }
      assert front[..m] == clicks[..m] && clicks == front + [click] && clicks[m..] == front[m..] + [click];
      ViewedNext(log, front, click);
      PickedIs(log, front, i, m);
      PickedNext(front[m..], click, i);
      HiddenIs(log, clicks, i);
      ClickedPick(log, Viewed(log, front), click, i);
    }
  }

  lemma {:induction false} NotPickedYet(log: Log, clicks: seq<Click>, i: nat)
    requires OnLog(log, clicks) && i < |log| && (clicks == [] || Hidden(log, clicks, i))
    ensures !Viewed(log, clicks).picks[i] && Picked([], i) == 0
  {
    hide Hidden;
    if clicks != [] {
      HiddenIsNotPicked(log, clicks, i);
    }
  }

  /**
    Read a log and click on its rows and filters, in any order: the rows selected are those last picked
    and not hidden since, and each has its differences with the nearest selected one before it.
   */
  method ViewLog(log: Log, clicks: seq<Click>) returns (rows: seq<Row>)
    requires Ordered(log) && OnLog(log, clicks)
    ensures |rows| == |log| && Coherent(rows, log) && Differences(rows, log)
    ensures State(Masks(rows), Picks(rows)) == Viewed(log, clicks)
    ensures forall i :: 0 <= i < |rows| ==> rows[i].shown == !Hidden(log, clicks, i)
  {
    hide Ordered, Coherent, Clicked, Masks, Picks, Differences, Hidden, Viewed;
    NothingViewed(log, clicks);
    rows := NewRows(log);
    CoherentSize(rows, log);
    var i := 0;
    while i < |clicks|
      invariant 0 <= i <= |clicks| && fresh(rows) && |rows| == |log| && Coherent(rows, log)
      invariant State(Masks(rows), Picks(rows)) == Viewed(log, clicks[..i])
    {
      NextViewed(log, clicks, i);
      DoClick(rows, clicks[i], log);
      i := i + 1;
    }
    assert clicks[..i] == clicks;
    CoherentShows(rows, log);
    forall k | 0 <= k < |rows| ensures rows[k].shown == !Hidden(log, clicks, k) {
      RowState(rows, log, k);
      HiddenIs(log, clicks, k);
    }
  }

  lemma NothingViewed(log: Log, clicks: seq<Click>)
    requires OnLog(log, clicks)
    ensures Viewed(log, clicks[..0]) == State(NoMasks(|log|), NoPicks(|log|))
  {
  }

  lemma NextViewed(log: Log, clicks: seq<Click>, i: nat)
    requires OnLog(log, clicks) && i < |clicks|
    ensures Viewed(log, clicks[..i + 1]) == Clicked(log, Viewed(log, clicks[..i]), clicks[i])
  {
    hide Clicked;
    assert clicks[..i + 1][..i] == clicks[..i];
  }

  lemma CoherentSize(rows: seq<Row>, log: Log)
    requires Coherent(rows, log)
    ensures |rows| == |log|
  {
  }
}
