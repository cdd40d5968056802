/**
 * The table component's controller: the sort, filter and pagination state
 * holders wired together, with the view and columns derived from them. A
 * filter update also sends the table back to its first page.
 */
module Table {
  import opened Types
  import opened Records
  import opened TableData
  import opened TableSort
  import opened TableFilter
  import opened TablePagination
  import opened TableColumns
  import opened PaginationBar

  class TableState {
    const data: seq<Record>
    const rowIdKey: string
    const hideRowId: bool
    const sorter: SortState
    const filterer: FilterState
    const pager: PaginationState

    predicate Valid()
      reads this, sorter, filterer, pager
    {
      && sorter.rowIdKey == rowIdKey
      && sorter.Valid()
      && filterer.Valid()
      && pager.Valid()
    }

    /** The rows on screen and the pagination metadata, derived from the current state. */
    function CurrentView(): View
      reads this, sorter, filterer, pager
    {
      DeriveView(data, pager.currentPage, pager.currentPageSize, sorter.currentSort, filterer.activeFilter)
    }

    /** The header columns. */
    function Columns(): seq<Column>
      reads this
    {
      InferColumns(data, rowIdKey, hideRowId)
    }

    /** A fresh table: first page of five, unsorted on the row id, unfiltered. */
    constructor (data: seq<Record>, rowIdKey: string, hideRowId: bool)
      ensures this.data == data && this.rowIdKey == rowIdKey && this.hideRowId == hideRowId
      ensures fresh(sorter) && fresh(filterer) && fresh(pager)
      ensures Valid()
      ensures sorter.currentSort == Sort(rowIdKey, None) && filterer.activeFilter == NoFilter
      ensures pager.currentPage == 0 && pager.currentPageSize == 5
      ensures CurrentView() == DeriveView(data, 0, 5, Sort(rowIdKey, None), NoFilter)
    {
      this.data := data;
      this.rowIdKey := rowIdKey;
      this.hideRowId := hideRowId;
      sorter := new SortState(rowIdKey);
      filterer := new FilterState();
      pager := new PaginationState();
    }

    /** Applies the filter and then moves to page 0; each listener hears its change. */
    method UpdateFilter(filter: Filter)
      requires Valid()
      modifies filterer, pager
      ensures Valid()
      ensures filterer.activeFilter == filter && filterer.notices == old(filterer.notices) + [filter]
      ensures pager.currentPage == 0 && pager.currentPageSize == old(pager.currentPageSize)
      ensures pager.notices == old(pager.notices) + [PageChanged(0)]
      ensures CurrentView() == DeriveView(data, 0, old(pager.currentPageSize), sorter.currentSort, filter)
    {
      filterer.ApplyFilter(filter);
      pager.ChangePage(0);
    }

    /** A column header was activated. */
    method ToggleSort(key: string)
      requires Valid()
      modifies sorter
      ensures Valid()
      ensures sorter.currentSort == Toggled(old(sorter.currentSort), key)
      ensures sorter.notices == old(sorter.notices) + [sorter.currentSort]
      ensures CurrentView() == DeriveView(data, pager.currentPage, pager.currentPageSize, Toggled(old(sorter.currentSort), key), filterer.activeFilter)
    {
      sorter.ToggleSort(key);
    }

    /**
     * A pagination button was pressed: a disabled one does nothing, an
     * enabled one changes the page to the one it asks for.
     */
    method PressButton(button: Button)
      requires Valid()
      modifies pager
      ensures Valid()
      ensures pager.currentPageSize == old(pager.currentPageSize)
      ensures var e := Press(button, old(pager.currentPage), old(CurrentView()).isLastPage);
              && (e.NoEvent? ==> pager.currentPage == old(pager.currentPage) && pager.notices == old(pager.notices))
              && (e.PageEvent? ==> pager.currentPage == e.page && pager.notices == old(pager.notices) + [PageChanged(e.page)])
    {
      var e := Press(button, pager.currentPage, CurrentView().isLastPage);
      if e.PageEvent? {
        pager.ChangePage(e.page);
      }
    }

    /** A page size was picked in the selector. */
    method ChangePageSize(pageSize: nat)
      requires Valid()
      modifies pager
      ensures Valid()
      ensures pageSize != old(pager.currentPageSize) ==>
        && pager.currentPage == 0
        && pager.currentPageSize == pageSize
        && pager.notices == old(pager.notices) + [PageChanged(0), PageSizeChanged(pageSize)]
      ensures pageSize == old(pager.currentPageSize) ==>
        && pager.currentPage == old(pager.currentPage)
        && pager.currentPageSize == old(pager.currentPageSize)
        && pager.notices == old(pager.notices)
      ensures pageSize != old(pager.currentPageSize) ==>
        CurrentView() == DeriveView(data, 0, pageSize, sorter.currentSort, filterer.activeFilter)
      ensures pageSize == old(pager.currentPageSize) ==> CurrentView() == old(CurrentView())
    {
      pager.ChangePageSize(pageSize);
    }
  }

  /**
   * Filtering from a later page: with at least five records, Next takes a
   * fresh table to page 1; a filter then returns it to page 0, whose rows
   * are the first matching records, in data order (no sort is active).
   */
  method FilterFromLaterPage(data: seq<Record>, rowIdKey: string, filter: Filter) returns (pageBefore: nat, v: View)
    requires |data| >= 5
    ensures pageBefore == 1
    ensures v == DeriveView(data, 0, 5, Sort(rowIdKey, None), filter)
    ensures v.rows == FilterData(data, filter)[..Min(5, |FilterData(data, filter)|)]
  {
    var table := new TableState(data, rowIdKey, false);
    FirstPage(data, 5, Sort(rowIdKey, None), NoFilter);
    assert !table.CurrentView().isLastPage;
    table.PressButton(Next);
    pageBefore := table.pager.currentPage;
    assert table.sorter.currentSort == Sort(rowIdKey, None) && table.pager.currentPageSize == 5;
    table.UpdateFilter(filter);
    v := table.CurrentView();
    FirstPageUnsorted(data, rowIdKey, filter, 5);
  }

  /** Unsorted, the first page holds the first matching records in data order. */
  lemma FirstPageUnsorted(data: seq<Record>, rowIdKey: string, filter: Filter, pageSize: nat)
    ensures var filtered := FilterData(data, filter);
            DeriveView(data, 0, pageSize, Sort(rowIdKey, None), filter).rows == filtered[..Min(pageSize, |filtered|)]
  {
    ViewRows(data, 0, pageSize, Sort(rowIdKey, None), filter);
  }
}
