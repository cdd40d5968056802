/**
 * The pagination bar: the "start - end of total" range label and the
 * Previous / Next buttons, with the rules that disable them and the page
 * each one asks for.
 */
module PaginationBar {
  import opened Types
  import opened Records
  import opened TableData

  /** First row number shown, counting from 1. */
  function RangeStart(page: nat, pageSize: nat): (n: nat)
    ensures n == PageStart(page, pageSize) + 1
  {
    page * pageSize + 1
  }

  /** Last row number shown: the end of the page, or the total when the page is cut short. */
  function RangeEnd(page: nat, pageSize: nat, totalItems: nat): (n: nat)
    ensures n <= totalItems
    ensures n <= PageStart(page, pageSize) + pageSize
    ensures n == totalItems || n == PageStart(page, pageSize) + pageSize
  {
    Min((page + 1) * pageSize, totalItems)
  }

  /** The status text, "start - end of total". */
  function RangeLabel(page: nat, pageSize: nat, totalItems: nat): string
  {
    NatToDecimal(RangeStart(page, pageSize)) + " - " + NatToDecimal(RangeEnd(page, pageSize, totalItems))
      + " of " + NatToDecimal(totalItems)
  }

  datatype Button = Previous | Next

  /** What pressing a button does: nothing when it is disabled, otherwise a page-change request. */
  datatype Emitted = NoEvent | PageEvent(page: nat)

  /**
   * Previous is disabled on page 0 and otherwise asks for the page before;
   * Next is disabled on the last page and otherwise asks for the page after.
   */
  function Press(button: Button, page: nat, isLastPage: bool): (e: Emitted)
    ensures button.Previous? ==> (e.NoEvent? <==> page == 0)
    ensures button.Next? ==> (e.NoEvent? <==> isLastPage)
    ensures e.PageEvent? && button.Previous? ==> e.page + 1 == page
    ensures e.PageEvent? && button.Next? ==> e.page == page + 1
  {
    match button
    case Previous => if page == 0 then NoEvent else PageEvent(page - 1)
    case Next => if isLastPage then NoEvent else PageEvent(page + 1)
  }

  /** Next undoes Previous: going back a page and then forward returns to the same page. */
  lemma PreviousThenNext(page: nat, isLastPage: bool)
    requires Press(Previous, page, isLastPage).PageEvent?
    ensures Press(Next, Press(Previous, page, isLastPage).page, false) == PageEvent(page)
  {
  }

  /** Previous undoes Next. */
  lemma NextThenPrevious(page: nat, isLastPage: bool)
    requires Press(Next, page, isLastPage).PageEvent?
    ensures Press(Previous, Press(Next, page, isLastPage).page, false) == PageEvent(page)
  {
  }

  /**
   * On a page that shows rows, the label's range is exactly the rows shown:
   * their count is end - start + 1, the first row is arranged record
   * start - 1 and the last is record end - 1. On an empty page, start
   * exceeds end.
   */
  lemma LabelDescribesRows(data: seq<Record>, page: nat, pageSize: nat, sort: Sort, filter: Filter)
    ensures var v := DeriveView(data, page, pageSize, sort, filter);
            var sorted := Arrange(data, sort, filter);
            var start := RangeStart(page, pageSize);
            var end := RangeEnd(page, pageSize, v.totalItems);
            && (v.rows != [] ==>
                  && end - start + 1 == |v.rows|
                  && v.rows[0] == sorted[start - 1]
                  && v.rows[|v.rows| - 1] == sorted[end - 1])
            && (v.rows == [] ==> end < start)
  {
    var v := DeriveView(data, page, pageSize, sort, filter);
    ViewRows(data, page, pageSize, sort, filter);
    ViewTotalItems(data, page, pageSize, sort, filter, page, pageSize, sort);
    assert |Arrange(data, sort, filter)| == v.totalItems;
    assert PageStart(page, pageSize) == page * pageSize;
  }

  /** Next is enabled exactly when the current page is full. */
  lemma NextEnabledOnFullPage(data: seq<Record>, page: nat, pageSize: nat, sort: Sort, filter: Filter)
    ensures var v := DeriveView(data, page, pageSize, sort, filter);
            Press(Next, page, v.isLastPage).PageEvent? <==> |v.rows| == pageSize
  {
    ViewRows(data, page, pageSize, sort, filter);
  }

  /**
   * When the filtered records fill the last page exactly, Next stays
   * enabled there and leads to a page with no rows, on which it is disabled.
   */
  lemma NextFromFullFinalPage(data: seq<Record>, page: nat, pageSize: nat, sort: Sort, filter: Filter)
    requires pageSize > 0
    requires |FilterData(data, filter)| == (page + 1) * pageSize
    ensures var v := DeriveView(data, page, pageSize, sort, filter);
            Press(Next, page, v.isLastPage) == PageEvent(page + 1)
    ensures var next := DeriveView(data, page + 1, pageSize, sort, filter);
            next.rows == [] && Press(Next, page + 1, next.isLastPage) == NoEvent
  {
    FullFinalPageIsNotLast(data, page, pageSize, sort, filter);
  }

  /** From a page that shows rows, Previous leads to a full page that is not the last. */
  lemma PreviousLeadsToFullPage(data: seq<Record>, page: nat, pageSize: nat, sort: Sort, filter: Filter)
    requires page > 0
    requires DeriveView(data, page, pageSize, sort, filter).rows != []
    ensures var prev := DeriveView(data, page - 1, pageSize, sort, filter);
            |prev.rows| == pageSize && !prev.isLastPage
  {
    ViewRows(data, page, pageSize, sort, filter);
    ViewRows(data, page - 1, pageSize, sort, filter);
    assert (page - 1) * pageSize + pageSize == page * pageSize;
  }

  /** With no rows at all the label reads "1 - 0 of 0". */
  lemma EmptyLabel(pageSize: nat)
    ensures RangeLabel(0, pageSize, 0) == "1 - 0 of 0"
  {
    assert NatToDecimal(1) == "1";
    assert NatToDecimal(0) == "0";
  }

  /** The first page of ten over fifty rows. */
  lemma FirstPageLabel()
    ensures RangeLabel(0, 10, 50) == "1 - 10 of 50"
  {
    assert NatToDecimal(1) == "1";
    assert NatToDecimal(10) == "10";
    assert NatToDecimal(50) == "50";
  }

  /** The second page of ten over fifty rows. */
  lemma SecondPageLabel()
    ensures RangeLabel(1, 10, 50) == "11 - 20 of 50"
  {
    assert NatToDecimal(11) == "11";
    assert NatToDecimal(20) == "20";
    assert NatToDecimal(50) == "50";
  }

  /** A last page cut short: the end is the total. */
  lemma ShortLastPageLabel()
    ensures RangeLabel(4, 10, 45) == "41 - 45 of 45"
  {
    assert NatToDecimal(41) == "41";
    assert NatToDecimal(45) == "45";
  }

  /** The second page of twenty-five over fifty rows. */
  lemma LargerPageLabel()
    ensures RangeLabel(1, 25, 50) == "26 - 50 of 50"
  {
    assert NatToDecimal(26) == "26";
    assert NatToDecimal(50) == "50";
  }
}
