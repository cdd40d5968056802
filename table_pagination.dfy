/**
 * useTablePagination: the current page and page size. Changing the page
 * notifies the page listener; changing the page size to a new value resets
 * the page to 0 and then notifies the page-size listener.
 */
module TablePagination {

  /** The page sizes offered to the user; the first one is the initial size. */
  const PageSizes: seq<nat> := [5, 10, 25, 50, 100]

  /** One listener call: the page listener or the page-size listener, with its argument. */
  datatype Notice = PageChanged(page: nat) | PageSizeChanged(pageSize: nat)

  /** How many times the page listener was called. */
  function PageNotices(log: seq<Notice>): (n: nat)
    ensures n <= |log|
  {
    if log == [] then 0
    else (if log[0].PageChanged? then 1 else 0) + PageNotices(log[1..])
  }

  /** Appending one notice adds one to the page-listener count exactly when it is a page notice. */
  lemma {:induction false} PageNoticesAppend(log: seq<Notice>, x: Notice)
    ensures PageNotices(log + [x]) == PageNotices(log) + if x.PageChanged? then 1 else 0
  {
    if log != [] {
      assert (log + [x])[1..] == log[1..] + [x];
      PageNoticesAppend(log[1..], x);
    }
  }

  /** The argument of the last page notice, or `initial` when there is none. */
  function LastPage(log: seq<Notice>, initial: nat): (p: nat)
    ensures p == initial || exists i :: 0 <= i < |log| && log[i] == PageChanged(p)
  {
    if log == [] then initial
    else if log[|log| - 1].PageChanged? then log[|log| - 1].page
    else LastPage(log[..|log| - 1], initial)
  }

  /** The argument of the last page-size notice, or `initial` when there is none. */
  function LastPageSize(log: seq<Notice>, initial: nat): (s: nat)
    ensures s == initial || exists i :: 0 <= i < |log| && log[i] == PageSizeChanged(s)
  {
    if log == [] then initial
    else if log[|log| - 1].PageSizeChanged? then log[|log| - 1].pageSize
    else LastPageSize(log[..|log| - 1], initial)
  }

  class PaginationState {
    var currentPage: nat
    var currentPageSize: nat
    /** Every listener call, in the order the calls happen. */
    var notices: seq<Notice>

    /** The stored page and size are the last values the listeners were given, if any. */
    predicate Valid()
      reads this
    {
      && currentPage == LastPage(notices, 0)
      && currentPageSize == LastPageSize(notices, PageSizes[0])
    }

    /** Page 0 with the first offered page size. */
    constructor ()
      ensures currentPage == 0 && currentPageSize == 5
      ensures notices == []
      ensures Valid()
    {
      currentPage := 0;
      currentPageSize := PageSizes[0];
      notices := [];
    }

    /** Sets the page, without bounds, and tells the page listener. */
    method ChangePage(newPage: nat)
      modifies this
      ensures currentPage == newPage
      ensures currentPageSize == old(currentPageSize)
      ensures notices == old(notices) + [PageChanged(newPage)]
      ensures PageNotices(notices) == PageNotices(old(notices)) + 1
      ensures currentPage == LastPage(notices, 0)
      ensures LastPageSize(notices, PageSizes[0]) == LastPageSize(old(notices), PageSizes[0])
      ensures old(Valid()) ==> Valid()
    {
      currentPage := newPage;
      notices := notices + [PageChanged(newPage)];
      PageNoticesAppend(old(notices), PageChanged(newPage));
      assert notices[..|notices| - 1] == old(notices);
    }

    /**
     * The same size changes nothing and calls no listener. A new size is
     * stored, the page goes back to 0 (which the page listener hears first),
     * and then the page-size listener is told.
     */
    method ChangePageSize(newPageSize: nat)
      requires Valid()
      modifies this
      ensures newPageSize == old(currentPageSize) ==>
        currentPage == old(currentPage) && currentPageSize == old(currentPageSize) && notices == old(notices)
      ensures newPageSize != old(currentPageSize) ==>
        && currentPage == 0
        && currentPageSize == newPageSize
        && notices == old(notices) + [PageChanged(0), PageSizeChanged(newPageSize)]
      ensures PageNotices(notices) == PageNotices(old(notices)) + if newPageSize == old(currentPageSize) then 0 else 1
      ensures Valid()
    {
      if newPageSize == currentPageSize {
        return;
      }
      currentPageSize := newPageSize;
      ChangePage(0);
      ghost var before := notices;
      notices := notices + [PageSizeChanged(newPageSize)];
      PageNoticesAppend(before, PageSizeChanged(newPageSize));
      assert notices[..|notices| - 1] == before;
      assert before[..|before| - 1] == old(notices);
    }
  }

  /** Three page changes reach the page listener three times; the last one is the page shown. */
  method ChangePageThreeTimes() returns (page: nat, pageNotices: nat)
    ensures page == 0 && pageNotices == 3
  {
    var state := new PaginationState();
    state.ChangePage(1);
    state.ChangePage(2);
    state.ChangePage(0);
    page := state.currentPage;
    pageNotices := PageNotices(state.notices);
  }

  /** Choosing the size already in use calls no listener. */
  method KeepPageSize() returns (pageSize: nat, log: seq<Notice>)
    ensures pageSize == 5 && log == []
  {
    var state := new PaginationState();
    state.ChangePageSize(5);
    pageSize := state.currentPageSize;
    log := state.notices;
  }

  /** Moving to page 3 and then choosing 50 rows per page goes back to page 0. */
  method ResizeAfterPaging() returns (page: nat, pageSize: nat, log: seq<Notice>)
    ensures page == 0 && pageSize == 50
    ensures log == [PageChanged(3), PageChanged(0), PageSizeChanged(50)]
  {
    var state := new PaginationState();
    state.ChangePage(3);
    state.ChangePageSize(50);
    page, pageSize, log := state.currentPage, state.currentPageSize, state.notices;
  }
}
