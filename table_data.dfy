/**
 * useTableData: derives what the table shows from the record list and the
 * current page, page size, sort and filter. Three stages, in this order:
 * filter (case-insensitive substring match on the field's string form),
 * sort (sortList), paginate (a slice of at most one page). It also reports
 * whether the page is the last one and how many records passed the filter.
 */
module TableData {
  import opened Types
  import opened Records
  import opened Strings
  import opened ListSort
  import opened Seqs

  /** What the table renders: the current page's rows and pagination metadata. */
  datatype View = View(rows: seq<Record>, isLastPage: bool, totalItems: nat)

  /** A filter takes effect only when both its key and its value are non-empty. */
  predicate IsActive(f: Filter)
  {
    f.Filter? && f.key != "" && f.value != ""
  }

  /** The filter test: the lower-cased field text contains the lower-cased query. */
  predicate Matches(r: Record, key: string, value: string)
  {
    Includes(Lower(Stringify(Get(r, key))), Lower(value))
  }

  /** The filter test as the function value handed to Array.prototype.filter. */
  function MatchTest(key: string, value: string): (test: Record -> bool)
    ensures forall r :: test(r) == Matches(r, key, value)
  {
    r => Matches(r, key, value)
  }

  /** A match means that the lower-cased query occurs somewhere in the lower-cased field text. */
  lemma MatchMeansOccurrence(r: Record, key: string, value: string)
    ensures Matches(r, key, value) ==> exists i :: OccursAt(Lower(Stringify(Get(r, key))), Lower(value), i)
    ensures (exists i :: OccursAt(Lower(Stringify(Get(r, key))), Lower(value), i)) ==> Matches(r, key, value)
  {
    var text, query := Lower(Stringify(Get(r, key))), Lower(value);
    assert Includes(text, query) <==> exists i :: OccursAt(text, query, i);
  }

  /** The match is case-insensitive in the query: a query and its lower-cased form select the same records. */
  lemma MatchIgnoresQueryCase(r: Record, key: string, value: string)
    ensures Matches(r, key, value) == Matches(r, key, Lower(value))
  {
    LowerIdempotent(value);
  }

  /** Stage 1: the records that pass the filter, or all of them when it is inactive. */
  function FilterData(data: seq<Record>, filter: Filter): (r: seq<Record>)
    ensures !IsActive(filter) ==> r == data
  {
    if IsActive(filter) then Keep(data, MatchTest(filter.key, filter.value)) else data
  }

  /**
   * Filtering keeps an order-preserving subsequence of the data, made of
   * exactly the records that pass the filter when it is active.
   */
  lemma FilterDataKeeps(data: seq<Record>, filter: Filter)
    ensures IsSubsequence(FilterData(data, filter), data)
    ensures IsActive(filter) ==>
      forall x :: multiset(FilterData(data, filter))[x] == if Matches(x, filter.key, filter.value) then multiset(data)[x] else 0
  {
    if IsActive(filter) {
      KeepInOrder(data, MatchTest(filter.key, filter.value));
      KeepCounts(data, MatchTest(filter.key, filter.value));
    } else {
      SubsequenceOfItself(data);
    }
  }

  /** Stages 1 and 2: filter, then sort what passed. */
  function Arrange(data: seq<Record>, sort: Sort, filter: Filter): seq<Record>
  {
    SortList(FilterData(data, filter), sort.key, sort.direction)
  }

  /** Array.prototype.slice(from, to) for non-negative bounds. */
  function Slice<T>(s: seq<T>, from: nat, to: nat): (r: seq<T>)
    ensures from < to <= |s| ==> r == s[from..to]
    ensures to <= from || |s| <= from ==> r == []
  {
    var f := Min(from, |s|);
    var t := Min(to, |s|);
    if f < t then s[f..t] else []
  }

  /** Where page `page` starts: page * pageSize. */
  function PageStart(page: nat, pageSize: nat): nat
  {
    page * pageSize
  }

  /** Page `page + 1` starts one page size after page `page`; with no page size every page starts at 0. */
  lemma NextPageStart(page: nat, pageSize: nat)
    ensures pageSize == 0 ==> PageStart(page, pageSize) == 0
    ensures PageStart(page + 1, pageSize) == PageStart(page, pageSize) + pageSize
    ensures (page + 1) * pageSize == PageStart(page, pageSize) + pageSize
  {
  }

  /** The whole pipeline: filter, sort, then cut out page `page`. */
  function DeriveView(data: seq<Record>, page: nat, pageSize: nat, sort: Sort, filter: Filter): View
  {
    var sorted := Arrange(data, sort, filter);
    var start := PageStart(page, pageSize);
    var end := Min(start + pageSize, |sorted|);
    var rows := Slice(sorted, start, end);
    View(rows, |rows| < pageSize, |sorted|)
  }

  /**
   * The rows are the arranged records from position page * pageSize on, at
   * most pageSize of them, and none when the page starts past the end.
   */
  lemma ViewRows(data: seq<Record>, page: nat, pageSize: nat, sort: Sort, filter: Filter)
    ensures var v := DeriveView(data, page, pageSize, sort, filter);
            var sorted := Arrange(data, sort, filter);
            var start := PageStart(page, pageSize);
            && |v.rows| <= pageSize
            && |v.rows| == (if start < |sorted| then Min(pageSize, |sorted| - start) else 0)
            && forall i :: 0 <= i < |v.rows| ==> v.rows[i] == sorted[start + i]
  {
    var sorted := Arrange(data, sort, filter);
    var start := PageStart(page, pageSize);
    var end := Min(start + pageSize, |sorted|);
    var rows := DeriveView(data, page, pageSize, sort, filter).rows;
    assert rows == Slice(sorted, start, end);
    if start < end {
      assert rows == sorted[start..end];
    } else {
      assert rows == [];
    }
  }

  /** Page 0 holds the first pageSize arranged records, or all of them when there are fewer. */
  lemma FirstPage(data: seq<Record>, pageSize: nat, sort: Sort, filter: Filter)
    ensures var sorted := Arrange(data, sort, filter);
            var n := Min(pageSize, |sorted|);
            DeriveView(data, 0, pageSize, sort, filter) == View(sorted[..n], n < pageSize, |sorted|)
  {
    assert PageStart(0, pageSize) == 0;
  }

  /**
   * The page is reported as last exactly when the records run out before
   * the page is full: totalItems < (page + 1) * pageSize.
   */
  lemma ViewIsLastPage(data: seq<Record>, page: nat, pageSize: nat, sort: Sort, filter: Filter)
    ensures var v := DeriveView(data, page, pageSize, sort, filter);
            v.isLastPage <==> v.totalItems < (page + 1) * pageSize
  {
    var v := DeriveView(data, page, pageSize, sort, filter);
    var start := PageStart(page, pageSize);
    ViewRowCount(data, page, pageSize, sort, filter);
    NextPageStart(page, pageSize);
    ShortPage(|v.rows|, v.totalItems, start, pageSize);
  }

  /** A page's row count falls short of the page size exactly when the records end before the page does. */
  lemma ShortPage(rows: nat, n: nat, start: nat, pageSize: nat)
    requires rows == if start < n then Min(pageSize, n - start) else 0
    requires pageSize == 0 ==> start == 0
    ensures rows < pageSize <==> n < start + pageSize
  {
  }

  /** How many rows a page holds, and how the flag and the count relate to the arranged records. */
  lemma ViewRowCount(data: seq<Record>, page: nat, pageSize: nat, sort: Sort, filter: Filter)
    ensures var v := DeriveView(data, page, pageSize, sort, filter);
            var n := |Arrange(data, sort, filter)|;
            var start := PageStart(page, pageSize);
            && |v.rows| == (if start < n then Min(pageSize, n - start) else 0)
            && v.totalItems == n
            && (v.isLastPage <==> |v.rows| < pageSize)
  {
  }

  /**
   * totalItems counts the records that pass the filter; page, page size and
   * sort do not change it.
   */
  lemma ViewTotalItems(data: seq<Record>, page: nat, pageSize: nat, sort: Sort, filter: Filter,
                       page': nat, pageSize': nat, sort': Sort)
    ensures DeriveView(data, page, pageSize, sort, filter).totalItems == |FilterData(data, filter)|
    ensures DeriveView(data, page, pageSize, sort, filter).totalItems
         == DeriveView(data, page', pageSize', sort', filter).totalItems
  {
    var filtered := FilterData(data, filter);
    assert |multiset(Arrange(data, sort, filter))| == |multiset(filtered)|;
    assert |multiset(Arrange(data, sort', filter))| == |multiset(filtered)|;
  }

  /** A page that starts at or past the end is empty and is reported as last. */
  lemma ViewPastTheEnd(data: seq<Record>, page: nat, pageSize: nat, sort: Sort, filter: Filter)
    requires pageSize > 0
    requires page * pageSize >= |FilterData(data, filter)|
    ensures DeriveView(data, page, pageSize, sort, filter).rows == []
    ensures DeriveView(data, page, pageSize, sort, filter).isLastPage
  {
    ViewTotalItems(data, page, pageSize, sort, filter, page, pageSize, sort);
  }

  /** No records: no rows, nothing counted, and a last page whenever pageSize > 0. */
  lemma ViewOfNoData(page: nat, pageSize: nat, sort: Sort, filter: Filter)
    ensures var v := DeriveView([], page, pageSize, sort, filter);
            v.rows == [] && v.totalItems == 0 && (v.isLastPage <==> pageSize > 0)
  {
    var filtered := FilterData([], filter);
    assert |filtered| == 0 by {
      FilterDataKeeps([], filter);
      SubsequenceLength(filtered, []);
    }
  }

  /** Row `offset` of the view is `x`. */
  predicate ShowsAt(v: View, offset: nat, x: Record)
  {
    offset < |v.rows| && v.rows[offset] == x
  }

  /** The page that record `k` falls on. */
  function PageOf(k: nat, pageSize: nat): nat
    requires pageSize > 0
  {
    k / pageSize
  }

  /** The row of its page that record `k` occupies. */
  function OffsetOf(k: nat, pageSize: nat): nat
    requires pageSize > 0
  {
    k % pageSize
  }

  /**
   * Pagination covers the arranged records exactly once: record k is row
   * k % pageSize of page k / pageSize.
   */
  lemma RowOnItsPage(data: seq<Record>, pageSize: nat, sort: Sort, filter: Filter, k: nat)
    requires pageSize > 0
    requires k < |Arrange(data, sort, filter)|
    ensures ShowsAt(DeriveView(data, PageOf(k, pageSize), pageSize, sort, filter), OffsetOf(k, pageSize), Arrange(data, sort, filter)[k])
  {
    DivisionSplits(k, pageSize);
    RowAt(data, PageOf(k, pageSize), pageSize, sort, filter, OffsetOf(k, pageSize));
  }

  /** Row `offset` of a page is the arranged record at the page's start plus `offset`. */
  lemma RowAt(data: seq<Record>, page: nat, pageSize: nat, sort: Sort, filter: Filter, offset: nat)
    requires offset < pageSize
    requires PageStart(page, pageSize) + offset < |Arrange(data, sort, filter)|
    ensures ShowsAt(DeriveView(data, page, pageSize, sort, filter), offset, Arrange(data, sort, filter)[PageStart(page, pageSize) + offset])
  {
    ViewRows(data, page, pageSize, sort, filter);
  }

  lemma DivisionSplits(k: nat, n: nat)
    requires n > 0
    ensures PageStart(PageOf(k, n), n) + OffsetOf(k, n) == k && OffsetOf(k, n) < n
  {
  }

  /**
   * The edge case of the isLastPage rule: when the records fill the page
   * exactly and nothing follows, the page is still reported as not last,
   * and the next page is empty (and last).
   */
  lemma FullFinalPageIsNotLast(data: seq<Record>, page: nat, pageSize: nat, sort: Sort, filter: Filter)
    requires pageSize > 0
    requires |FilterData(data, filter)| == (page + 1) * pageSize
    ensures var v := DeriveView(data, page, pageSize, sort, filter);
            |v.rows| == pageSize && !v.isLastPage
    ensures var next := DeriveView(data, page + 1, pageSize, sort, filter);
            next.rows == [] && next.isLastPage
  {
    ViewTotalItems(data, page, pageSize, sort, filter, page, pageSize, sort);
    ViewIsLastPage(data, page, pageSize, sort, filter);
    ViewRows(data, page, pageSize, sort, filter);
    NextPageStart(page, pageSize);
    ViewPastTheEnd(data, page + 1, pageSize, sort, filter);
  }

  /**
   * Filtering comes before sorting and paging: every row shown comes from
   * the data and, when the filter is active, passes it.
   */
  lemma RowsPassTheFilter(data: seq<Record>, page: nat, pageSize: nat, sort: Sort, filter: Filter)
    ensures var v := DeriveView(data, page, pageSize, sort, filter);
            forall x :: x in v.rows ==> x in data && (IsActive(filter) ==> Matches(x, filter.key, filter.value))
  {
    var v := DeriveView(data, page, pageSize, sort, filter);
    var filtered := FilterData(data, filter);
    var sorted := Arrange(data, sort, filter);
    ViewRows(data, page, pageSize, sort, filter);
    FilterDataKeeps(data, filter);
    forall x | x in v.rows
      ensures x in data && (IsActive(filter) ==> Matches(x, filter.key, filter.value))
    {
      var i :| 0 <= i < |v.rows| && v.rows[i] == x;
      assert x in sorted;
      assert x in multiset(sorted);
      assert x in multiset(filtered);
      if IsActive(filter) {
        assert multiset(filtered)[x] > 0;
      } else {
        assert x in filtered;
      }
      assert x in multiset(data);
    }
  }
}
