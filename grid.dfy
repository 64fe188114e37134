/**
  The grid component (src/lib/grid.ts): per-column flex parsing, column
  ordering by header clicks, the column widths it computes with
  `ColumnWidths.ColumnWidthCalculator`, and resizing by dragging a column's
  resizer.
*/
module Grid {
  import opened Wrappers
  import opened Ordering
  import opened ColumnWidths

  /**
    The `flex` of a column config: absent (or of another type), a number,
    or a string, given here as the parts `split(/\s+/)` yields, each read by
    `Number` (`None` where that gives `NaN`).
  */
  datatype FlexConfig = NoFlex | NumberFlex(value: real) | StringFlex(parts: seq<Option<real>>)

  /** The fields of a column config (lines 8-21) that the modelled code reads. */
  datatype Column = Column(orderBy: bool, descFirst: bool, width: Option<real>, flex: FlexConfig)

  /** `flexs[k] >= 0`: false for a missing part and for `NaN`. */
  predicate UsablePart(parts: seq<Option<real>>, k: nat)
  {
    k < |parts| && parts[k].Some? && parts[k].value >= 0.0
  }

  /** The extend flex of lines 372-382. */
  function ExtendFlex(flex: FlexConfig): real
  {
    match flex
    case NoFlex => 0.0
    case NumberFlex(x) => if x >= 0.0 then x else 0.0
    case StringFlex(parts) => if UsablePart(parts, 0) then parts[0].value else 0.0
  }

  /** The shrink flex of lines 372-382: a string without a usable second part shrinks as it extends. */
  function ShrinkFlex(flex: FlexConfig): real
  {
    match flex
    case NoFlex => 0.0
    case NumberFlex(x) => if x >= 0.0 then x else 0.0
    case StringFlex(parts) => if UsablePart(parts, 1) then parts[1].value else ExtendFlex(flex)
  }

  /**
    The `[baseWidth, extendFlex, shrinkFlex]` entry of one column (lines 366-384):
    its configured width, at least the minimum, or its current width once
    the columns have been resized.
  */
  function FlexEntry(column: Column, minColumnWidth: real, resizedWidth: Option<real>): (e: ColumnFlex)
    ensures e.extend >= 0.0 && e.shrink >= 0.0
    ensures resizedWidth.None? ==> e.base >= minColumnWidth
    ensures resizedWidth.None? && column.width.Some? && column.width.value >= minColumnWidth ==>
      e.base == column.width.value
    ensures resizedWidth.Some? ==> e.base == resizedWidth.value
    ensures column.flex.NumberFlex? ==> e.extend == e.shrink
    ensures column.flex.StringFlex? && !UsablePart(column.flex.parts, 1) ==> e.shrink == e.extend
  {
    var configured := if column.width.Some? then column.width.value else 0.0;
    var base := if resizedWidth.Some? then resizedWidth.value
                else if configured >= minColumnWidth then configured else minColumnWidth;
    ColumnFlex(base, ExtendFlex(column.flex), ShrinkFlex(column.flex))
  }

  /** The entries of all columns, in column order. */
  function FlexEntries(columns: seq<Column>, minColumnWidth: real, resized: Option<seq<real>>): (es: seq<ColumnFlex>)
    requires resized.Some? ==> |resized.value| == |columns|
    ensures |es| == |columns|
  {
    seq(|columns|, k requires 0 <= k < |columns| =>
      FlexEntry(columns[k], minColumnWidth, if resized.Some? then Some(resized.value[k]) else None))
  }

  /** Parsed flexes are never negative: the solver's widths then add up when nothing gets excluded. */
  lemma FlexEntriesNonNegative(columns: seq<Column>, minColumnWidth: real, resized: Option<seq<real>>)
    requires resized.Some? ==> |resized.value| == |columns|
    ensures NonNegativeFlexes(FlexEntries(columns, minColumnWidth, resized))
  {
    var es := FlexEntries(columns, minColumnWidth, resized);
    forall k | 0 <= k < |es|
      ensures es[k].extend >= 0.0 && es[k].shrink >= 0.0
    {
      assert es[k] == FlexEntry(columns[k], minColumnWidth, if resized.Some? then Some(resized.value[k]) else None);
    }
  }

  // ---------------------------------------------------------------------
  // Resizing: moving width between neighbouring columns.

  /** The columns the loop of lines 440-449 may still shrink, from `i` away from the dragged resizer. */
  predicate Ahead(moveLeft: bool, i: int, k: int, n: int)
  {
    if moveLeft then 0 <= k <= i else i <= k < n
  }

  /** How much column `width` gives up of `needShrink` without going under the minimum. */
  function GivenUp(width: real, needShrink: real, minColumnWidth: real): real
  {
    if width - needShrink < minColumnWidth then width - minColumnWidth else needShrink
  }

  /** One turn of the loop: column `i` gives up `shrink`, the column at `expandIndex` receives it. */
  function Moved(ws: seq<real>, i: nat, expandIndex: nat, shrink: real): (r: seq<real>)
    requires i < |ws| && expandIndex < |ws| && i != expandIndex
    ensures |r| == |ws|
  {
    ws[i := ws[i] - shrink][expandIndex := ws[expandIndex] + shrink]
  }

  lemma MovedAt(ws: seq<real>, i: nat, expandIndex: nat, shrink: real)
    requires i < |ws| && expandIndex < |ws| && i != expandIndex
    ensures var r := Moved(ws, i, expandIndex, shrink);
      && r[i] == ws[i] - shrink && r[expandIndex] == ws[expandIndex] + shrink
      && forall k :: 0 <= k < |ws| && k != i && k != expandIndex ==> r[k] == ws[k]
  {
  }

  /** Whether the loop of lines 440-449 runs another turn at column `i`. */
  predicate Running(moveLeft: bool, i: int, n: int, needShrink: real)
  {
    (if moveLeft then i >= 0 else i < n) && needShrink > 0.0
  }

  function Next(moveLeft: bool, i: int): int
  {
    if moveLeft then i - 1 else i + 1
  }

  /**
    The loop of lines 440-449 from column `i` on: each column gives up as
    much of `needShrink` as it can above the minimum, and the column at
    `expandIndex` receives it.
  */
  function ShiftFrom(ws: seq<real>, minColumnWidth: real, moveLeft: bool, i: int, expandIndex: nat, needShrink: real)
    : (r: seq<real>)
    requires expandIndex < |ws| && -1 <= i <= |ws|
    requires if moveLeft then i < expandIndex else expandIndex < i
    decreases if moveLeft then i + 1 else |ws| - i
    ensures |r| == |ws|
  {
    if !Running(moveLeft, i, |ws|, needShrink) then ws
    else
      var shrink := GivenUp(ws[i], needShrink, minColumnWidth);
      ShiftFrom(Moved(ws, i, expandIndex, shrink), minColumnWidth, moveLeft, Next(moveLeft, i), expandIndex, needShrink - shrink)
  }

  function Abs(x: real): real
  {
    if x < 0.0 then -x else x
  }

  /** `resizeColumnByMovementX` on the widths `ws`, for the resizer right of column `index`. */
  function Resized(ws: seq<real>, minColumnWidth: real, movementX: real, index: nat): seq<real>
    requires index + 1 < |ws|
  {
    var moveLeft := movementX < 0.0;
    ShiftFrom(ws, minColumnWidth, moveLeft, if moveLeft then index else index + 1,
              if moveLeft then index + 1 else index, Abs(movementX))
  }

  lemma {:induction false} SumOfUpdate(ws: seq<real>, i: nat, v: real)
    requires i < |ws|
    ensures Sum(ws[i := v]) == Sum(ws) - ws[i] + v
  {
    var n := |ws|;
    if i == n - 1 {
      assert ws[i := v][..n - 1] == ws[..n - 1];
    } else {
      assert ws[i := v][..n - 1] == ws[..n - 1][i := v];
      SumOfUpdate(ws[..n - 1], i, v);
    }
  }

  lemma MovedKeepsSum(ws: seq<real>, i: nat, expandIndex: nat, shrink: real)
    requires i < |ws| && expandIndex < |ws| && i != expandIndex
    ensures Sum(Moved(ws, i, expandIndex, shrink)) == Sum(ws)
  {
    UpdatesCancel(ws, i, expandIndex, shrink);
  }

  lemma UpdatesCancel(ws: seq<real>, i: nat, e: nat, d: real)
    requires i < |ws| && e < |ws| && i != e
    ensures Sum(ws[i := ws[i] - d][e := ws[e] + d]) == Sum(ws)
  {
    SumOfUpdate(ws, i, ws[i] - d);
    SumOfUpdate(ws[i := ws[i] - d], e, ws[e] + d);
  }

  lemma {:induction false} ShiftKeepsSum(ws: seq<real>, minColumnWidth: real, moveLeft: bool, i: int,
                                         expandIndex: nat, needShrink: real)
    requires expandIndex < |ws| && -1 <= i <= |ws|
    requires if moveLeft then i < expandIndex else expandIndex < i
    decreases if moveLeft then i + 1 else |ws| - i
    ensures Sum(ShiftFrom(ws, minColumnWidth, moveLeft, i, expandIndex, needShrink)) == Sum(ws)
  {
    if Running(moveLeft, i, |ws|, needShrink) {
      var shrink := GivenUp(ws[i], needShrink, minColumnWidth);
      MovedKeepsSum(ws, i, expandIndex, shrink);
      ShiftKeepsSum(Moved(ws, i, expandIndex, shrink), minColumnWidth, moveLeft, Next(moveLeft, i), expandIndex, needShrink - shrink);
    }
  }

  /** Only the columns ahead of the loop and the expanding column change. */
  lemma {:induction false} ShiftIsLocal(ws: seq<real>, minColumnWidth: real, moveLeft: bool, i: int,
                                        expandIndex: nat, needShrink: real)
    requires expandIndex < |ws| && -1 <= i <= |ws|
    requires if moveLeft then i < expandIndex else expandIndex < i
    decreases if moveLeft then i + 1 else |ws| - i
    ensures var r := ShiftFrom(ws, minColumnWidth, moveLeft, i, expandIndex, needShrink);
      forall k :: 0 <= k < |ws| && k != expandIndex && !Ahead(moveLeft, i, k, |ws|) ==> r[k] == ws[k]
  {
    if Running(moveLeft, i, |ws|, needShrink) {
      var shrink := GivenUp(ws[i], needShrink, minColumnWidth);
      var moved := Moved(ws, i, expandIndex, shrink);
      MovedAt(ws, i, expandIndex, shrink);
      var next := Next(moveLeft, i);
      ShiftIsLocal(moved, minColumnWidth, moveLeft, next, expandIndex, needShrink - shrink);
      forall k | 0 <= k < |ws| && k != expandIndex && !Ahead(moveLeft, i, k, |ws|)
        ensures !Ahead(moveLeft, next, k, |ws|) && moved[k] == ws[k]
      {
      }
    }
  }

  /**
    Columns ahead of the loop that start at or above the minimum only shrink
    and stay at or above it, and the expanding column gains between 0 and
    `needShrink`.
  */
  lemma {:induction false} ShiftRespectsMinimum(ws: seq<real>, minColumnWidth: real, moveLeft: bool, i: int,
                                                expandIndex: nat, needShrink: real)
    requires expandIndex < |ws| && -1 <= i <= |ws|
    requires if moveLeft then i < expandIndex else expandIndex < i
    requires needShrink >= 0.0
    requires forall k :: Ahead(moveLeft, i, k, |ws|) ==> ws[k] >= minColumnWidth
    decreases if moveLeft then i + 1 else |ws| - i
    ensures var r := ShiftFrom(ws, minColumnWidth, moveLeft, i, expandIndex, needShrink);
      && (forall k :: Ahead(moveLeft, i, k, |ws|) ==> ws[k] >= r[k] >= minColumnWidth)
      && ws[expandIndex] <= r[expandIndex] <= ws[expandIndex] + needShrink
  {
    if Running(moveLeft, i, |ws|, needShrink) {
      var shrink := GivenUp(ws[i], needShrink, minColumnWidth);
      var moved := Moved(ws, i, expandIndex, shrink);
      MovedAt(ws, i, expandIndex, shrink);
      var next := Next(moveLeft, i);
      assert 0.0 <= shrink <= needShrink;
      forall k | Ahead(moveLeft, next, k, |ws|)
        ensures moved[k] == ws[k] && Ahead(moveLeft, i, k, |ws|)
      {
      }
      ShiftRespectsMinimum(moved, minColumnWidth, moveLeft, next, expandIndex, needShrink - shrink);
      ShiftIsLocal(moved, minColumnWidth, moveLeft, next, expandIndex, needShrink - shrink);
      var r := ShiftFrom(moved, minColumnWidth, moveLeft, next, expandIndex, needShrink - shrink);
      assert !Ahead(moveLeft, next, i, |ws|) && i != expandIndex;
      assert r[i] == moved[i];
    }
  }

  /**
    Resizing keeps the total width; it changes only the columns on the
    shrinking side and the expanding one; shrunk columns that were at least
    the minimum stay so; and the expanding column gains between 0 and
    `|movementX|`.
  */
  lemma ResizeMovesWidth(ws: seq<real>, minColumnWidth: real, movementX: real, index: nat)
    requires index + 1 < |ws|
    ensures var r := Resized(ws, minColumnWidth, movementX, index);
      && |r| == |ws|
      && Sum(r) == Sum(ws)
      && (movementX < 0.0 ==> forall k :: index + 1 < k < |ws| ==> r[k] == ws[k])
      && (movementX >= 0.0 ==> forall k :: 0 <= k < index ==> r[k] == ws[k])
    ensures var r := Resized(ws, minColumnWidth, movementX, index);
      movementX < 0.0 && (forall k :: 0 <= k <= index ==> ws[k] >= minColumnWidth) ==>
        (forall k :: 0 <= k <= index ==> ws[k] >= r[k] >= minColumnWidth) &&
        ws[index + 1] <= r[index + 1] <= ws[index + 1] - movementX
    ensures var r := Resized(ws, minColumnWidth, movementX, index);
      movementX >= 0.0 && (forall k :: index + 1 <= k < |ws| ==> ws[k] >= minColumnWidth) ==>
        (forall k :: index + 1 <= k < |ws| ==> ws[k] >= r[k] >= minColumnWidth) &&
        ws[index] <= r[index] <= ws[index] + movementX
  {
    var moveLeft := movementX < 0.0;
    var first := if moveLeft then index else index + 1;
    var expandIndex := if moveLeft then index + 1 else index;
    ShiftKeepsSum(ws, minColumnWidth, moveLeft, first, expandIndex, Abs(movementX));
    ShiftIsLocal(ws, minColumnWidth, moveLeft, first, expandIndex, Abs(movementX));
    if forall k :: Ahead(moveLeft, first, k, |ws|) ==> ws[k] >= minColumnWidth {
      ShiftRespectsMinimum(ws, minColumnWidth, moveLeft, first, expandIndex, Abs(movementX));
    }
  }

  /** A drag that moved nothing changes no width. */
  lemma ZeroMovementKeepsWidths(ws: seq<real>, minColumnWidth: real, index: nat)
    requires index + 1 < |ws|
    ensures Resized(ws, minColumnWidth, 0.0, index) == ws
  {
  }

  /** The loop of lines 440-449 on the copied widths, in place. */
  method ShiftInPlace(widths: array<real>, minColumnWidth: real, moveLeft: bool, first: int,
                      expandIndex: nat, needShrinkAtStart: real)
    requires expandIndex < widths.Length && -1 <= first <= widths.Length
    requires if moveLeft then first < expandIndex else expandIndex < first
    modifies widths
    ensures widths[..] == ShiftFrom(old(widths[..]), minColumnWidth, moveLeft, first, expandIndex, needShrinkAtStart)
  {
    ghost var goal := ShiftFrom(widths[..], minColumnWidth, moveLeft, first, expandIndex, needShrinkAtStart);
    var needShrink := needShrinkAtStart;
    var i := first;
    while (if moveLeft then i >= 0 else i < widths.Length) && needShrink > 0.0
      invariant -1 <= i <= widths.Length
      invariant if moveLeft then i < expandIndex else expandIndex < i
      invariant ShiftFrom(widths[..], minColumnWidth, moveLeft, i, expandIndex, needShrink) == goal
      decreases if moveLeft then i + 1 else widths.Length - i
    {
      var width := widths[i];
      var shrink := needShrink;
      if width - shrink < minColumnWidth {
        shrink := width - minColumnWidth;
      }
      ghost var before := widths[..];
      widths[i] := widths[i] - shrink;
      widths[expandIndex] := widths[expandIndex] + shrink;
      assert widths[..] == Moved(before, i, expandIndex, shrink);
      needShrink := needShrink - shrink;
      if moveLeft {
        i := i - 1;
      } else {
        i := i + 1;
      }
    }
  }

  // ---------------------------------------------------------------------
  // The component.

  /** The order the grid hands its store (`store.setOrder` / `store.clearOrder`). */
  datatype StoreOrder = NoOrder | OrderBy(column: nat, direction: Direction)

  class Grid {
    var columns: seq<Column>
    var minColumnWidth: real
    var orderedColumnIndex: int
    var orderDirection: Direction
    var storeOrder: StoreOrder
    var columnWidths: Option<seq<real>>
    var resizingColumnWidths: Option<seq<real>>
    var columnResized: bool

    /** Property defaults of lines 175-182. */
    constructor(columns: seq<Column>)
      ensures this.columns == columns && minColumnWidth == 64.0
      ensures orderedColumnIndex == -1 && orderDirection == Unordered && storeOrder == NoOrder
      ensures columnWidths == None && resizingColumnWidths == None && !columnResized
    {
      this.columns := columns;
      minColumnWidth := 64.0;
      orderedColumnIndex := -1;
      orderDirection := Unordered;
      storeOrder := NoOrder;
      columnWidths := None;
      resizingColumnWidths := None;
      columnResized := false;
    }

    /** `getOrderIcon`: not the default icon only for the ordered column. */
    function GetOrderIcon(index: int): (icon: string)
      reads this
      ensures icon != "order-default" ==> index == orderedColumnIndex && orderDirection != Unordered
    {
      OrderIcon(index == orderedColumnIndex, orderDirection)
    }

    /**
      `doOrdering`: a click on the header of column `index`; `onResizer`
      says whether it landed on the column's resizer.
    */
    method DoOrdering(onResizer: bool, index: nat)
      requires index < |columns|
      modifies this
      ensures columns == old(columns) && minColumnWidth == old(minColumnWidth)
      ensures columnWidths == old(columnWidths) && resizingColumnWidths == old(resizingColumnWidths)
      ensures columnResized == old(columnResized)
      ensures onResizer || !columns[index].orderBy ==>
        orderedColumnIndex == old(orderedColumnIndex) && orderDirection == old(orderDirection) &&
        storeOrder == old(storeOrder)
      ensures !onResizer && columns[index].orderBy ==>
        && orderedColumnIndex == index
        && orderDirection == (if index == old(orderedColumnIndex)
                              then NextDirection(old(orderDirection), columns[index].descFirst)
                              else FirstDirection(columns[index].descFirst))
        && storeOrder == (if orderDirection == Unordered then NoOrder else OrderBy(index, orderDirection))
    {
      if onResizer {
        return;
      }
      var column := columns[index];
      if !column.orderBy {
        return;
      }
      var direction;
      if index == orderedColumnIndex {
        direction := NextDirection(orderDirection, column.descFirst);
      } else {
        direction := FirstDirection(column.descFirst);
      }
      if direction == Unordered {
        storeOrder := NoOrder;
      } else {
        storeOrder := OrderBy(index, direction);
      }
      orderedColumnIndex := index;
      orderDirection := direction;
    }

    /**
      `updatColumnWidths`, given the measured client width of the head: the
      entries of the columns go through the solver, whose result is kept.
    */
    method UpdateColumnWidths(clientWidth: real)
      requires columnResized ==> columnWidths.Some? && |columnWidths.value| == |columns|
      modifies this
      ensures columnWidths == Solve(AsWritten,
        old(FlexEntries(columns, minColumnWidth, if columnResized then columnWidths else None)),
        clientWidth, minColumnWidth)
      ensures columns == old(columns) && minColumnWidth == old(minColumnWidth) && columnResized == old(columnResized)
      ensures orderedColumnIndex == old(orderedColumnIndex) && orderDirection == old(orderDirection)
      ensures storeOrder == old(storeOrder) && resizingColumnWidths == old(resizingColumnWidths)
    {
      var entries := FlexEntries(columns, minColumnWidth, if columnResized then columnWidths else None);
      var table := new ColumnFlex[|entries|](k requires 0 <= k < |entries| => entries[k]);
      assert table[..] == entries;
      var widths := ColumnWidthCalculator(table, clientWidth, minColumnWidth);
      columnWidths := widths;
    }

    /** `resizeColumnByMovementX`: a drag of the resizer right of column `index` by `movementX`. */
    method ResizeColumnByMovementX(movementX: real, index: nat)
      requires columnWidths.Some? && |columnWidths.value| == |columns| && index + 1 < |columns|
      modifies this
      ensures resizingColumnWidths == Some(Resized(old(columnWidths.value), minColumnWidth, movementX, index))
      ensures columns == old(columns) && minColumnWidth == old(minColumnWidth) && columnResized == old(columnResized)
      ensures orderedColumnIndex == old(orderedColumnIndex) && orderDirection == old(orderDirection)
      ensures storeOrder == old(storeOrder) && columnWidths == old(columnWidths)
    {
      var ws := columnWidths.value;
      var widths := new real[|ws|](k requires 0 <= k < |ws| => ws[k]);
      assert widths[..] == ws;
      var moveLeft := movementX < 0.0;
      ShiftInPlace(widths, minColumnWidth, moveLeft, if moveLeft then index else index + 1,
                   if moveLeft then index + 1 else index, Abs(movementX));
      resizingColumnWidths := Some(widths[..]);
    }

    /**
      The `mouseup` handler of `onStartResize`: commit the dragged widths,
      then resize once more with the mousedown event's own offset, which is 0.
    */
    method EndResize(index: nat)
      requires columnWidths.Some? && |columnWidths.value| == |columns| && index + 1 < |columns|
      requires resizingColumnWidths.Some? ==> |resizingColumnWidths.value| == |columns|
      modifies this
      ensures columnWidths == if old(resizingColumnWidths).Some? then old(resizingColumnWidths) else old(columnWidths)
      ensures resizingColumnWidths == columnWidths
      ensures columnResized
      ensures columns == old(columns) && minColumnWidth == old(minColumnWidth)
      ensures orderedColumnIndex == old(orderedColumnIndex) && orderDirection == old(orderDirection)
      ensures storeOrder == old(storeOrder)
    {
      if resizingColumnWidths.Some? {
        columnWidths := resizingColumnWidths;
        resizingColumnWidths := None;
      }
      ZeroMovementKeepsWidths(columnWidths.value, minColumnWidth, index);
      ResizeColumnByMovementX(0.0, index);
      columnResized := true;
    }
  }
}
