/**
 * useTableFilter: a single active-filter cell, initially null, that every
 * apply overwrites and reports to the filter listener.
 */
module TableFilter {
  import opened Types

  class FilterState {
    var activeFilter: Filter
    /** The values handed to the filter listener, oldest first. */
    var notices: seq<Filter>

    /** The active filter is the last one the listener heard of, or null before any apply. */
    predicate Valid()
      reads this
    {
      if notices == [] then activeFilter == NoFilter
      else activeFilter == notices[|notices| - 1]
    }

    constructor ()
      ensures activeFilter == NoFilter
      ensures notices == []
      ensures Valid()
    {
      activeFilter := NoFilter;
      notices := [];
    }

    /** Stores `filter` as it is, null included, and reports it to the listener. */
    method ApplyFilter(filter: Filter)
      modifies this
      ensures activeFilter == filter
      ensures notices == old(notices) + [filter]
      ensures Valid()
    {
      activeFilter := filter;
      notices := notices + [filter];
    }
  }

  /** The last of several applies wins, whatever key or value the earlier ones had. */
  method ApplyTwice(first: Filter, second: Filter) returns (active: Filter, heard: seq<Filter>)
    ensures active == second
    ensures heard == [first, second]
  {
    var state := new FilterState();
    state.ApplyFilter(first);
    state.ApplyFilter(second);
    active, heard := state.activeFilter, state.notices;
  }
}
