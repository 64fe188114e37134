/**
  The column-ordering direction shared by the grid (src/lib/grid.ts) and the
  table (src/components/table.ts): what a click on a column header does to
  it, and which icon shows it.
*/
module Ordering {

  /** `'asc' | 'desc' | ''`. */
  datatype Direction = Unordered | Asc | Desc

  /** The direction a click gives a column that is not the ordered one. */
  function FirstDirection(descFirst: bool): (d: Direction)
    ensures d != Unordered
    ensures d == Desc <==> descFirst
  {
    if descFirst then Desc else Asc
  }

  /**
    The direction a click gives the ordered column:
    '' -> asc -> desc -> '', or '' -> desc -> asc -> '' when `descFirst`.
  */
  function NextDirection(current: Direction, descFirst: bool): (d: Direction)
    ensures d != current
    ensures current == Unordered ==> d == FirstDirection(descFirst)
    ensures d == Unordered <==> current == (if descFirst then Asc else Desc)
  {
    if descFirst then
      match current
      case Unordered => Desc
      case Desc => Asc
      case Asc => Unordered
    else
      match current
      case Unordered => Asc
      case Asc => Desc
      case Desc => Unordered
  }

  /** Three clicks on the ordered column restore its direction. */
  lemma ThreeClicksRestore(d: Direction, descFirst: bool)
    ensures NextDirection(NextDirection(NextDirection(d, descFirst), descFirst), descFirst) == d
  {
  }

  /** The three directions of the cycle are all different, so the cycle visits every direction. */
  lemma CycleVisitsEveryDirection(d: Direction, descFirst: bool)
    ensures var d1 := NextDirection(d, descFirst);
      var d2 := NextDirection(d1, descFirst);
      {d, d1, d2} == {Unordered, Asc, Desc}
  {
  }

  /**
    The icon of a column header: 'order-asc' or 'order-desc' only for the
    ordered column, with that direction, and 'order-default' otherwise.
  */
  function OrderIcon(isOrdered: bool, direction: Direction): (icon: string)
    ensures icon == "order-asc" <==> isOrdered && direction == Asc
    ensures icon == "order-desc" <==> isOrdered && direction == Desc
    ensures icon == "order-default" <==> !isOrdered || direction.Unordered?
  {
    assert "order-asc"[6] != "order-desc"[6] && |"order-default"| != |"order-asc"| && |"order-default"| != |"order-desc"|;
    if isOrdered && direction == Asc then "order-asc"
    else if isOrdered && direction == Desc then "order-desc"
    else "order-default"
  }
}
