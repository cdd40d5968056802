/** getSortDirection: the direction a column header moves to when activated again. */
module SortDirection {
  import opened Types

  /** none -> asc -> desc -> none. */
  function NextDirection(current: Direction): (next: Direction)
    ensures next != current
    ensures current.None? <==> next.Asc?
    ensures current.Asc? <==> next.Desc?
    ensures current.Desc? <==> next.None?
  {
    if current == Asc then Desc
    else if current == Desc then None
    else Asc
  }

  /** Three steps bring every direction back to itself, and no fewer do. */
  lemma NextDirectionIsThreeCycle(d: Direction)
    ensures NextDirection(NextDirection(NextDirection(d))) == d
    ensures NextDirection(NextDirection(d)) != d
  {
  }
}
