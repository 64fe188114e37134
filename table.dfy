/**
  Column ordering and the rendered-range test of the table component
  (src/components/table.ts). The table names its ordered column, hands the
  order to its store, and announces it with an `orderChange` event.
*/
module Table {
  import opened Wrappers
  import opened Ordering

  /** The fields of a table column that ordering reads; `orderBy` is the key handed to the store. */
  datatype TableColumn = TableColumn(name: string, orderBy: Option<string>, descFirst: bool)

  /** The order held by the store: `store.setOrder(orderBy, direction)` or `store.setOrder(null)`. */
  datatype StoreOrder = NoOrder | OrderBy(key: string, direction: Direction)

  /** One `orderChange` event: the table's order name at emission time and the applied direction. */
  datatype OrderChange = OrderChange(name: Option<string>, direction: Direction)

  /** What the table has told its store and its listeners so far. */
  datatype StoreLog = StoreLog(order: StoreOrder, syncs: nat, events: seq<OrderChange>)

  /** A `setOrder` whose column was not there yet, waiting for the next change of columns. */
  datatype PendingOrder = PendingOrder(columnName: Option<string>, direction: Direction)

  /** `columns.find(col => col.name === columnName)`: the index of the first column with that name. */
  function FindColumn(columns: seq<TableColumn>, columnName: Option<string>): (r: Option<nat>)
    ensures r.Some? <==> columnName.Some? && exists k :: 0 <= k < |columns| && columns[k].name == columnName.value
    ensures r.Some? ==> r.value < |columns| && columns[r.value].name == columnName.value
    ensures r.Some? ==> forall k :: 0 <= k < r.value ==> columns[k].name != columnName.value
  {
    if columnName.None? || |columns| == 0 then None
    else if columns[0].name == columnName.value then Some(0)
    else
      match FindColumn(columns[1..], columnName)
      case None => None
      case Some(k) => Some(k + 1)
  }

  /**
    `applyOrder`: the store orders by the column's key only when it has one
    and the direction is not ''; it is then synced and `orderChange` is emitted.
  */
  function Applied(log: StoreLog, column: TableColumn, direction: Direction, orderName: Option<string>): (r: StoreLog)
    ensures r.order.OrderBy? <==> column.orderBy.Some? && direction != Unordered
    ensures r.order.OrderBy? ==> r.order == OrderBy(column.orderBy.value, direction)
    ensures r.syncs == log.syncs + 1
    ensures r.events == log.events + [OrderChange(orderName, direction)]
  {
    var order := if column.orderBy.Some? && direction != Unordered then OrderBy(column.orderBy.value, direction) else NoOrder;
    StoreLog(order, log.syncs + 1, log.events + [OrderChange(orderName, direction)])
  }

  /** How many of the waiting orders name a column of `columns`. */
  function FoundCount(columns: seq<TableColumn>, pending: seq<PendingOrder>): (n: nat)
    ensures n <= |pending|
  {
    if pending == [] then 0
    else
      var found := if FindColumn(columns, pending[|pending| - 1].columnName).Some? then 1 else 0;
      FoundCount(columns, pending[..|pending| - 1]) + found
  }

  /**
    The deferred `setOrder` callbacks fired, in registration order, once the
    columns change: each one whose column is now there syncs the store and
    emits one event, and the earlier events are kept.
  */
  function Replayed(log: StoreLog, columns: seq<TableColumn>, pending: seq<PendingOrder>, orderName: Option<string>)
    : (r: StoreLog)
    ensures r.syncs == log.syncs + FoundCount(columns, pending)
    ensures |r.events| == |log.events| + FoundCount(columns, pending)
    ensures r.events[..|log.events|] == log.events
    ensures FoundCount(columns, pending) == 0 ==> r == log
  {
    if pending == [] then log
    else
      var n := |pending| - 1;
      var prev := Replayed(log, columns, pending[..n], orderName);
      match FindColumn(columns, pending[n].columnName)
      case None => prev
      case Some(c) =>
        var r := Applied(prev, columns[c], pending[n].direction, orderName);
        assert r.events[..|log.events|] == prev.events[..|log.events|];
        r
  }

  /** `getOrderDirectionIcon`: the header icon of the column named `name`. */
  function OrderDirectionIcon(orderName: Option<string>, orderDirection: Direction, name: string): (icon: string)
    ensures icon == "order-asc" <==> orderName == Some(name) && orderDirection == Asc
    ensures icon == "order-desc" <==> orderName == Some(name) && orderDirection == Desc
    ensures icon == "order-default" <==> orderName != Some(name) || orderDirection == Unordered
  {
    OrderIcon(orderName == Some(name), orderDirection)
  }

  /**
    `getRenderedItem`: the item at `index` of the current data when it lies
    in the rendered range `[startIndex, endIndex)`, and null otherwise.
  */
  function RenderedItem<T>(data: seq<T>, startIndex: nat, endIndex: nat, index: int): (r: Option<T>)
    requires endIndex <= |data|
    ensures r.None? <==> !(startIndex <= index < endIndex)
    ensures r.Some? ==> 0 <= index < |data| && r.value == data[index]
  {
    if startIndex <= index < endIndex then Some(data[index]) else None
  }

  class Table {
    var columns: seq<TableColumn>
    var orderName: Option<string>
    var orderDirection: Direction
    var store: StoreLog
    var pending: seq<PendingOrder>

    constructor(columns: seq<TableColumn>)
      ensures this.columns == columns && orderName == None && orderDirection == Unordered
      ensures store == StoreLog(NoOrder, 0, []) && pending == []
    {
      this.columns := columns;
      orderName := None;
      orderDirection := Unordered;
      store := StoreLog(NoOrder, 0, []);
      pending := [];
    }

    function GetOrderDirectionIcon(name: string): (icon: string)
      reads this
      ensures icon != "order-default" ==> orderName == Some(name) && orderDirection != Unordered
    {
      OrderDirectionIcon(orderName, orderDirection, name)
    }

    /** `applyOrder`. */
    method ApplyOrder(column: TableColumn, direction: Direction)
      modifies this
      ensures store == Applied(old(store), column, direction, orderName)
      ensures columns == old(columns) && orderName == old(orderName) && orderDirection == old(orderDirection)
      ensures pending == old(pending)
    {
      var order := NoOrder;
      if column.orderBy.Some? && direction != Unordered {
        order := OrderBy(column.orderBy.value, direction);
      }
      store := StoreLog(order, store.syncs + 1, store.events + [OrderChange(orderName, direction)]);
    }

    /**
      `setOrder`: name the ordered column and its direction, and apply the
      order now if a column has that name, or when the columns next change.
    */
    method SetOrder(columnName: Option<string>, direction: Direction)
      modifies this
      ensures orderName == columnName && orderDirection == direction && columns == old(columns)
      ensures FindColumn(columns, columnName).Some? ==>
        store == Applied(old(store), columns[FindColumn(columns, columnName).value], direction, columnName) &&
        pending == old(pending)
      ensures FindColumn(columns, columnName).None? ==>
        store == old(store) && pending == old(pending) + [PendingOrder(columnName, direction)]
    {
      orderName := columnName;
      orderDirection := direction;
      var found := FindColumn(columns, columnName);
      if found.Some? {
        ApplyOrder(columns[found.value], direction);
      } else {
        pending := pending + [PendingOrder(columnName, direction)];
      }
    }

    /**
      The columns change: every waiting `setOrder` callback runs once,
      applying its order if its column is now there.
    */
    method SetColumns(newColumns: seq<TableColumn>)
      modifies this
      ensures columns == newColumns && pending == []
      ensures store == Replayed(old(store), newColumns, old(pending), old(orderName))
      ensures orderName == old(orderName) && orderDirection == old(orderDirection)
    {
      columns := newColumns;
      var waiting := pending;
      pending := [];
      var i := 0;
      while i < |waiting|
        invariant 0 <= i <= |waiting|
        invariant columns == newColumns && pending == [] && orderName == old(orderName)
        invariant orderDirection == old(orderDirection)
        invariant store == Replayed(old(store), newColumns, waiting[..i], orderName)
      {
        assert waiting[..i + 1][..i] == waiting[..i];
        var found := FindColumn(columns, waiting[i].columnName);
        if found.Some? {
          ApplyOrder(columns[found.value], waiting[i].direction);
        }
        i := i + 1;
      }
      assert waiting[..i] == waiting;
    }

    /** `clearOrder`. */
    method ClearOrder()
      modifies this
      ensures orderName == None && orderDirection == Unordered
      ensures store == StoreLog(NoOrder, old(store.syncs) + 1, old(store.events))
      ensures columns == old(columns) && pending == old(pending)
    {
      orderName := None;
      orderDirection := Unordered;
      store := StoreLog(NoOrder, store.syncs + 1, store.events);
    }

    /**
      `doOrdering`: a click on the header of column `index`; `onResizer`
      says whether it landed on the column's resizer. The clicked column is
      always found by name, so the order is applied at once.
    */
    method DoOrdering(onResizer: bool, index: nat)
      requires index < |columns|
      modifies this
      ensures columns == old(columns) && pending == old(pending)
      ensures onResizer || columns[index].orderBy.None? ==>
        orderName == old(orderName) && orderDirection == old(orderDirection) && store == old(store)
      ensures !onResizer && columns[index].orderBy.Some? ==>
        && orderName == Some(columns[index].name)
        && orderDirection == (if old(orderName) == Some(columns[index].name)
                              then NextDirection(old(orderDirection), columns[index].descFirst)
                              else FirstDirection(columns[index].descFirst))
        && store == Applied(old(store), columns[FindColumn(columns, orderName).value], orderDirection, orderName)
    {
      if onResizer {
        return;
      }
      var column := columns[index];
      if column.orderBy.None? {
        return;
      }
      var direction;
      if Some(column.name) == orderName {
        direction := NextDirection(orderDirection, column.descFirst);
      } else {
        direction := FirstDirection(column.descFirst);
      }
      assert FindColumn(columns, Some(column.name)).Some?;
      SetOrder(Some(column.name), direction);
    }
  }

  /**
    A click on an orderable column whose name no other column shares hands
    the store that column's key with the new direction, or no order when
    the direction went back to ''.
  */
  lemma ClickOrdersByClickedColumn(columns: seq<TableColumn>, index: nat, direction: Direction)
    requires index < |columns| && columns[index].orderBy.Some?
    requires forall k :: 0 <= k < |columns| && k != index ==> columns[k].name != columns[index].name
    ensures var log := Applied(StoreLog(NoOrder, 0, []), columns[FindColumn(columns, Some(columns[index].name)).value],
                               direction, Some(columns[index].name));
      log.order == (if direction == Unordered then NoOrder else OrderBy(columns[index].orderBy.value, direction))
  {
    var found := FindColumn(columns, Some(columns[index].name));
    assert found == Some(index);
  }
}
