/**
 * useTableSort: the table's current sort. It starts on the row-id field with
 * direction none; activating a column header toggles the sort, and each
 * toggle is reported to the sort listener.
 */
module TableSort {
  import opened Types
  import opened SortDirection

  /**
   * The state a toggle of `key` moves to from `prev`: the key becomes `key`;
   * the direction advances along the cycle when `key` is already sorted, and
   * starts the cycle afresh (at asc) when it is not.
   */
  function Toggled(prev: Sort, key: string): (s: Sort)
    ensures s.key == key
    ensures prev.key == key ==> s.direction == NextDirection(prev.direction)
    ensures prev.key != key ==> s.direction == Asc
  {
    Sort(key, NextDirection(if prev.key != key then None else prev.direction))
  }

  /** Toggling a new key three times goes asc, desc, none; a fourth toggle starts over. */
  lemma ToggleCycle(prev: Sort, key: string)
    requires prev.key != key
    ensures Toggled(prev, key) == Sort(key, Asc)
    ensures Toggled(Toggled(prev, key), key) == Sort(key, Desc)
    ensures Toggled(Toggled(Toggled(prev, key), key), key) == Sort(key, None)
    ensures Toggled(Toggled(Toggled(Toggled(prev, key), key), key), key) == Sort(key, Asc)
  {
  }

  /**
   * Toggling the sorted key three times comes back to the same state, and a
   * toggle never leaves the state as it was.
   */
  lemma ToggleSameKeyThrice(s: Sort)
    ensures Toggled(Toggled(Toggled(s, s.key), s.key), s.key) == s
    ensures forall key :: Toggled(s, key) != s
  {
    NextDirectionIsThreeCycle(s.direction);
  }

  /** The hook's state, with the values handed to the sort listener, oldest first. */
  class SortState {
    const rowIdKey: string
    var currentSort: Sort
    var notices: seq<Sort>

    /** The listener's last value is the stored sort; before any toggle it is the initial sort. */
    predicate Valid()
      reads this
    {
      if notices == [] then currentSort == Sort(rowIdKey, None)
      else currentSort == notices[|notices| - 1]
    }

    /** The initial sort is the row-id field, unsorted. */
    constructor (rowIdKey: string)
      ensures currentSort == Sort(rowIdKey, None)
      ensures notices == []
      ensures Valid()
    {
      this.rowIdKey := rowIdKey;
      currentSort := Sort(rowIdKey, None);
      notices := [];
    }

    /** Moves to the toggled state and notifies the listener once, with that state. */
    method ToggleSort(key: string)
      requires Valid()
      modifies this
      ensures currentSort == Toggled(old(currentSort), key)
      ensures notices == old(notices) + [currentSort]
      ensures Valid()
    {
      var newSort := Toggled(currentSort, key);
      notices := notices + [newSort];
      currentSort := newSort;
    }
  }

  /** Three toggles of a fresh key, as the hook's unit test performs them. */
  method ToggleThreeTimes(rowIdKey: string, key: string) returns (seen: seq<Sort>)
    ensures seen == [Sort(key, Asc), Sort(key, Desc), Sort(key, None)]
  {
    var state := new SortState(rowIdKey);
    state.ToggleSort(key);
    state.ToggleSort(key);
    state.ToggleSort(key);
    seen := state.notices;
  }

  /** Sorting one column and then another starts the second one at asc. */
  method ToggleTwoColumns(rowIdKey: string, first: string, second: string) returns (current: Sort)
    requires second != first
    ensures current == Sort(second, Asc)
  {
    var state := new SortState(rowIdKey);
    state.ToggleSort(first);
    state.ToggleSort(second);
    current := state.currentSort;
  }
}
