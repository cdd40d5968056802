# simpleTable view pipeline, in Dafny

A model of the client-side core of the simpleTable React component.
It covers how the table turns its record list and its state (current page, page size,
sort, filter) into the rows on screen, and how that state changes.

- `sortList` is a stable sort by one field. Direction `none` returns the list itself.
  Otherwise the comparator compares two numbers by subtraction, two strings by
  collation, and treats any other pair as equal; `desc` flips the sign.
- `getSortDirection` is the none → asc → desc → none cycle.
- `useTableData` derives the view: filter (case-insensitive substring of the field's
  string form), then sort, then cut out one page. It reports `rows`, `isLastPage`
  and `totalItems`.
- `useTableSort`, `useTablePagination` and `useTableFilter` are state holders.
  Each calls an optional listener when it changes.
- `useTableColumns` infers the columns from the first record's keys, and can hide
  the row-id column.
- The pagination bar computes the "start - end of total" label, disables Previous
  and Next, and picks the page each button asks for.
- The table controller wires these together. Applying a filter also goes back to page 0.

## How it is modelled

- **Values and records** (`records.dfy`). A record is an ordered list of `Entry(key, value)`,
  so its key order is the order `Object.keys` reports. A value is `Num(int)`, `Str`, `Null`
  or `Undefined`. `Get` is field access; a missing field is `Undefined`. `Stringify` is `String(value)`.
- **Strings** (`strings.dfy`). `toLowerCase` is modelled as ASCII lower-casing.
  `includes` is modelled as a left-to-right substring scan; its result is proved to mean
  "occurs at some position". `localeCompare` is modelled as the lexicographic order on
  character codes, proved antisymmetric and transitive.
- **Sorting** (`stable_sort.dfy`, `sort_list.dfy`). `Array.prototype.toSorted` is a stable
  insertion sort over any comparator (`StableSort.SortBy`).
  - Proved for every comparator: it returns a permutation.
  - Proved of the model for every comparator: already-ordered input comes back unchanged. For a
    consistent comparator this follows from stability; for an inconsistent one it is the
    insertion sort's own behaviour, since ECMA-262 leaves that order implementation-defined.
  - Proved where the comparator is consistent: the output is sorted and the sort is stable.
  - `sortList` is `ListSort.SortList`. Its lemmas connect the generic facts to
    number and string fields.
- **Filtering** (`seqs.dfy`). `Array.prototype.filter` is `Seqs.Keep`. Proved: it keeps exactly the
  passing elements, as many times as they occur, in their original order. The data filter, the
  column filter, and the equality classes that state stability (`StableSort.SameClass`,
  `ListSort.WithValue`) are all defined through it.
- **View derivation** (`table_data.dfy`). `TableData.DeriveView` follows `useTableData` line by line.
  Its lemmas state the slice, the `isLastPage` rule (including its full-final-page edge case),
  `totalItems`, and the order of the three stages.
  `examples_data.dfy` checks the hook's unit-test scenarios against it.
- **State holders** (`table_sort.dfy`, `table_pagination.dfy`, `table_filter.dfy`).
  Each hook is a class whose fields are the hook's state and whose methods are its
  setters. Each listener is a `notices` log field that records every call the listener
  would receive, in order. `Valid()` ties the stored state to that log.
- **Columns** (`table_columns.dfy`). A column is `Column(key, header)`; `header` is the
  source's `label` field, renamed because `label` is a Dafny keyword.
- **Pagination bar** (`pagination_bar.dfy`). The range label arithmetic, and `Press`,
  which gives what a button click emits.
- **Controller** (`table.dfy`). `Table.TableState` owns one instance of each state holder
  and derives the view and columns from them.

## Model

| member | source | states |
|---|---|---|
| Strings.Lower | src/components/Table/hooks/useTableData.ts:14-15 | toLowerCase keeps the length and maps every character through the ASCII case mapping |
| Strings.LowerIdempotent | src/components/Table/hooks/useTableData.ts:14-15 | lower-casing twice is lower-casing once |
| Strings.Includes | src/components/Table/hooks/useTableData.ts:16 | `includes` is true exactly when the query occurs at some position of the text (so the empty query occurs everywhere) |
| Strings.Compare | src/utils/sortList.ts:19 | the collation used by localeCompare returns -1, 0 or 1, and 0 exactly for equal strings |
| Strings.CompareAntisymmetric | src/utils/sortList.ts:19 | swapping the two strings flips the sign of the comparison |
| Strings.CompareTransitive | src/utils/sortList.ts:19 | "at most" under the collation is transitive |
| Records.Get | src/utils/sortList.ts:11-12 | `record[key]` is the value of the first entry with that key, and undefined when there is none |
| Records.NatToDecimal | src/components/Table/hooks/useTableColumns.ts:15 | String(n) for a natural number is a non-empty run of decimal digits with no leading zero: it starts with 0 only for 0 itself |
| Records.DecimalRoundTrip | src/components/Table/hooks/useTableColumns.ts:15 | reading the decimal digits back gives the number: the rendering loses nothing |
| Seqs.KeepCounts | src/components/Table/hooks/useTableData.ts:13-17 | Array.prototype.filter keeps every passing element as often as it occurs and drops every other element |
| Seqs.KeepInOrder | src/components/Table/hooks/useTableData.ts:13-17 | the kept elements form an order-preserving subsequence of the input |
| Seqs.KeepAppend | src/components/Table/hooks/useTableData.ts:13-17 | filtering a concatenation is concatenating the filtered parts |
| Seqs.KeepAgree | src/components/Table/hooks/useTableData.ts:13-17 | two tests that agree on every element keep the same elements |
| Seqs.KeepStep | src/components/Table/hooks/useTableColumns.ts:17 | filtering `[x] + rest` keeps `x` in front exactly when it passes |
| Seqs.SubsequenceLength | src/components/Table/hooks/useTableData.ts:13-17 | a subsequence is never longer than its source |
| StableSort.Insert | src/utils/sortList.ts:10 | one insertion step adds exactly the inserted element to the multiset |
| StableSort.SortBy | src/utils/sortList.ts:10 | toSorted returns a permutation of its input of the same length |
| StableSort.SortBySorted | src/utils/sortList.ts:10 | with a consistent comparator the result is ordered |
| StableSort.SortByStable | src/utils/sortList.ts:10 | the elements comparing equal to any given element keep their input order |
| StableSort.SortByOrderedIdentity | src/utils/sortList.ts:10 | input already ordered under the comparator comes back unchanged; ECMA-262 promises this only for a consistent comparator (through stability), for others it is the model's choice |
| StableSort.InsertSorted | src/utils/sortList.ts:10 | inserting into an ordered sequence keeps it ordered |
| StableSort.InsertSameClass | src/utils/sortList.ts:10 | the inserted element goes after every element that compares equal to it |
| StableSort.InsertOtherClass | src/utils/sortList.ts:10 | inserting an element leaves the order of every other equality class alone |
| StableSort.InsertAppends | src/utils/sortList.ts:10 | an element that no placed element exceeds goes at the end |
| StableSort.SameClassAppend | src/utils/sortList.ts:10 | picking one equality class distributes over concatenation |
| ListSort.CompareValues | src/utils/sortList.ts:13-21 | a pair that is neither two numbers nor two strings compares as equal |
| ListSort.SortList | src/utils/sortList.ts:3-23 | the result is a permutation of the list; direction none and lists of at most one record are returned unchanged |
| ListSort.NumbersConsistent | src/utils/sortList.ts:15-17 | on number fields the comparator is a consistent preorder in either direction |
| ListSort.StringsConsistent | src/utils/sortList.ts:18-20 | on string fields the comparator is a consistent preorder in either direction |
| ListSort.NumbersInOrder | src/utils/sortList.ts:13-16 | the numeric comparator puts `a` first exactly when a <= b for asc and a >= b for desc |
| ListSort.StringsInOrder | src/utils/sortList.ts:13-19 | the string comparator puts `a` first exactly when it collates no later than `b` for asc, no earlier for desc |
| ListSort.SortListNumbers | src/utils/sortList.ts:13-17 | number fields: asc gives non-decreasing values, desc non-increasing ones |
| ListSort.SortListStrings | src/utils/sortList.ts:18-20 | string fields: asc follows the collation order, desc reverses it |
| ListSort.SortListStable | src/utils/sortList.ts:10-22 | records with equal key values keep their input order |
| ListSort.SortListIncomparable | src/utils/sortList.ts:21 | when no two key values are both numbers or both strings, the list comes back unchanged |
| ListSort.SortListElements | src/utils/sortList.ts:10 | every sorted record comes from the input |
| SortDirection.NextDirection | src/utils/getSortDirection.ts:3-7 | none goes to asc, asc to desc, desc to none, each in both directions of the iff, and never to itself |
| SortDirection.NextDirectionIsThreeCycle | src/utils/getSortDirection.ts:3-7 | three steps return to the start; two never do |
| TableData.MatchMeansOccurrence | src/components/Table/hooks/useTableData.ts:14-16 | a record passes the filter exactly when the lower-cased query occurs at some position of the lower-cased field text |
| TableData.MatchIgnoresQueryCase | src/components/Table/hooks/useTableData.ts:15 | a query and its lower-cased form select the same records: the match ignores the case of the query |
| TableData.FilterData | src/components/Table/hooks/useTableData.ts:11-12 | a null filter, or one with an empty key or value, leaves the data as it is |
| TableData.FilterDataKeeps | src/components/Table/hooks/useTableData.ts:11-18 | filtering yields an order-preserving subsequence whose records are exactly the matching ones, with their multiplicity |
| TableData.Slice | src/components/Table/hooks/useTableData.ts:28 | slice(from, to) is the segment between the bounds, and empty when they cross or start past the end |
| TableData.ViewRows | src/components/Table/hooks/useTableData.ts:26-28 | the rows are the arranged records from page * pageSize on, at most pageSize of them, none past the end |
| TableData.ViewRowCount | src/components/Table/hooks/useTableData.ts:26-35 | the row count is min(pageSize, remaining) or 0, totalItems is the arranged count, and isLastPage is rows.length < pageSize |
| TableData.FirstPage | src/components/Table/hooks/useTableData.ts:26-35 | page 0 holds the first min(pageSize, count) arranged records |
| TableData.ViewIsLastPage | src/components/Table/hooks/useTableData.ts:30 | the page is reported last exactly when totalItems < (page + 1) * pageSize |
| TableData.ViewTotalItems | src/components/Table/hooks/useTableData.ts:20-35 | totalItems is the filtered count, whatever the page, page size and sort |
| TableData.ViewPastTheEnd | src/components/Table/hooks/useTableData.ts:26-30 | a page starting at or past the end is empty and reported last |
| TableData.ViewOfNoData | src/components/Table/hooks/useTableData.ts:11-35 | no data gives no rows, totalItems 0, and a last page exactly when pageSize > 0 |
| TableData.RowOnItsPage | src/components/Table/hooks/useTableData.ts:26-28 | arranged record k is row k % pageSize of page k / pageSize: the pages cover the records exactly |
| TableData.RowAt | src/components/Table/hooks/useTableData.ts:26-28 | row `offset` of a page is the arranged record at page start + offset |
| TableData.FullFinalPageIsNotLast | src/components/Table/hooks/useTableData.ts:30 | when the filtered count is exactly (page + 1) * pageSize, that full page is not reported last and the next page is empty and last |
| TableData.RowsPassTheFilter | src/components/Table/hooks/useTableData.ts:11-28 | every row shown comes from the data and, under an active filter, matches it |
| TableDataExamples.OnePageOfTen | src/components/Table/hooks/__tests__/useTableData.test.ts:13-26 | five records on a page of ten: all five rows, and the page is last |
| TableDataExamples.PagesOfTwo | src/components/Table/hooks/__tests__/useTableData.test.ts:28-76 | pages of two over five records hold ids 1-2, 3-4 and 5; only the third is last |
| TableDataExamples.FilterByLi | src/components/Table/hooks/__tests__/useTableData.test.ts:108-122 | the name filter "li" keeps Alice and Charlie, in that order |
| TableDataExamples.FilterByLiPage | src/components/Table/hooks/__tests__/useTableData.test.ts:108-122 | the unsorted page of ten under that filter shows Alice and Charlie |
| TableDataExamples.FilterByAlice | src/components/Table/hooks/__tests__/useTableData.test.ts:124-137 | the name filter "ALICE" keeps exactly the record of Alice, since the match ignores case |
| TableDataExamples.FilterIgnoresCase | src/components/Table/hooks/__tests__/useTableData.test.ts:124-137 | the unsorted page of ten under the filter "ALICE" shows exactly one row, Alice |
| TableDataExamples.FilterByXyz | src/components/Table/hooks/__tests__/useTableData.test.ts:139-152 | the query "xyz" matches no record |
| TableDataExamples.FilterMatchingNothing | src/components/Table/hooks/__tests__/useTableData.test.ts:139-152 | a filter matching nothing gives no rows and a last page |
| TableDataExamples.FilterByE | src/components/Table/hooks/__tests__/useTableData.test.ts:154-171 | the name filter "e" keeps Alice, Charlie and Eve, in data order |
| TableDataExamples.SortByAgeDescending | src/components/Table/hooks/__tests__/useTableData.test.ts:154-171 | sorting those three by age, descending, gives Eve, Charlie, Alice |
| TableDataExamples.FilterSortPaginate | src/components/Table/hooks/__tests__/useTableData.test.ts:154-171 | filter, then sort, then the first page of two: Eve then Charlie, out of 3 items |
| TableSort.Toggled | src/components/Table/hooks/useTableSort.ts:14-22 | a toggle always stores the activated key; the same key advances the direction cycle, a different key starts at asc |
| TableSort.ToggleCycle | src/components/Table/hooks/__tests__/useTableSort.test.ts:50-79 | toggling a new key goes asc, desc, none, then asc again |
| TableSort.ToggleSameKeyThrice | src/components/Table/hooks/useTableSort.ts:14-22 | three toggles of the sorted key return to the same state; no toggle leaves the state unchanged |
| TableSort.SortState.constructor | src/components/Table/hooks/useTableSort.ts:9-12 | the initial sort is the row-id field, direction none, and no listener call has happened |
| TableSort.SortState.ToggleSort | src/components/Table/hooks/useTableSort.ts:14-26 | the stored sort becomes the toggled one and the listener is called once, with exactly that sort |
| TableSort.ToggleThreeTimes | src/components/Table/hooks/__tests__/useTableSort.test.ts:50-79 | three toggles of a new key report asc, desc and none, in that order |
| TableSort.ToggleTwoColumns | src/components/Table/hooks/__tests__/useTableSort.test.ts:81-101 | after sorting one column, activating another sorts it asc |
| TablePagination.PageNoticesAppend | src/components/Table/hooks/useTablePagination.ts:11-14 | one more call adds one to the page-listener count exactly when it is a page call |
| TablePagination.PaginationState.constructor | src/components/Table/hooks/useTablePagination.ts:8-9 | the initial state is page 0 and page size 5, the first offered size |
| TablePagination.PaginationState.ChangePage | src/components/Table/hooks/useTablePagination.ts:11-14 | the page is set without any bound, the size is untouched, and the page listener hears the new page once |
| TablePagination.PaginationState.ChangePageSize | src/components/Table/hooks/useTablePagination.ts:16-22 | the same size changes nothing and calls nobody; a new size is stored with page 0, the page listener hears 0 and then the size listener hears the size |
| TablePagination.ChangePageThreeTimes | src/components/Table/hooks/__tests__/useTablePagination.test.ts:83-105 | three page changes reach the page listener three times and the last page wins |
| TablePagination.KeepPageSize | src/components/Table/hooks/__tests__/useTablePagination.test.ts:56-68 | choosing the current size keeps it and calls no listener |
| TablePagination.ResizeAfterPaging | src/components/Table/hooks/useTablePagination.ts:16-22 | paging to 3 and then resizing to 50 lands on page 0, with listener calls 3, 0, then size 50 |
| TableFilter.FilterState.constructor | src/components/Table/hooks/useTableFilter.ts:7 | the initial active filter is null |
| TableFilter.FilterState.ApplyFilter | src/components/Table/hooks/useTableFilter.ts:9-12 | the active filter becomes exactly the given one, null included, and the listener hears it once |
| TableFilter.ApplyTwice | src/components/Table/hooks/__tests__/useTableFilter.test.ts:78-120 | the last apply wins and the listener heard both, in order |
| TableColumns.NoDataNoColumns | src/components/Table/hooks/useTableColumns.ts:12 | no data gives no columns |
| TableColumns.ColumnsFollowFirstRecord | src/components/Table/hooks/useTableColumns.ts:12-16 | without hiding there is one column per key of the first record, in its order, labelled with the key |
| TableColumns.HidingRemovesOnlyRowId | src/components/Table/hooks/useTableColumns.ts:17 | hiding keeps an order-preserving subsequence that drops exactly the row-id columns |
| TableColumns.OnlyFirstRecordCounts | src/components/Table/hooks/useTableColumns.ts:12 | records after the first do not affect the columns |
| TableColumns.ColumnsOfTheTestData | src/components/Table/hooks/__tests__/useTableColumns.test.ts:10-47 | the test records give columns id, name, age, and name, age once the id is hidden |
| TableColumns.CellsRenderAsStrings | src/components/Table/hooks/__tests__/useTableColumns.test.ts:49-56 | a cell renders 123 as "123" and "test" as itself |
| PaginationBar.RangeEnd | src/components/Table/components/Pagination.tsx:44 | the last row number never exceeds the total or the end of the page, and equals one of them |
| PaginationBar.Press | src/components/Table/components/Pagination.tsx:47-62 | Previous is disabled exactly on page 0 and otherwise asks for the page before; Next is disabled exactly on the last page and otherwise asks for the page after |
| PaginationBar.PreviousThenNext | src/components/Table/components/Pagination.tsx:49-57 | going back a page and then forward returns to the same page |
| PaginationBar.NextThenPrevious | src/components/Table/components/Pagination.tsx:49-57 | going forward a page and then back returns to the same page |
| PaginationBar.LabelDescribesRows | src/components/Table/components/Pagination.tsx:43-45 | on a page with rows the label's range is exactly the rows shown; on an empty page start exceeds end |
| PaginationBar.NextEnabledOnFullPage | src/components/Table/components/Pagination.tsx:58 | Next is enabled exactly when the current page is full |
| PaginationBar.NextFromFullFinalPage | src/components/Table/components/Pagination.tsx:57-58 | from a full final page Next is still enabled and leads to an empty page, where it is disabled |
| PaginationBar.PreviousLeadsToFullPage | src/components/Table/components/Pagination.tsx:49-50 | from a page with rows, Previous leads to a full page that is not the last |
| PaginationBar.EmptyLabel | src/components/Table/components/__tests__/Pagination.test.tsx:175-188 | with no rows the label reads "1 - 0 of 0" |
| PaginationBar.FirstPageLabel | src/components/Table/components/__tests__/Pagination.test.tsx:20-24 | page 0 of ten over fifty reads "1 - 10 of 50" |
| PaginationBar.SecondPageLabel | src/components/Table/components/__tests__/Pagination.test.tsx:26-32 | page 1 of ten over fifty reads "11 - 20 of 50" |
| PaginationBar.ShortLastPageLabel | src/components/Table/components/__tests__/Pagination.test.tsx:34-45 | page 4 of ten over forty-five reads "41 - 45 of 45" |
| PaginationBar.LargerPageLabel | src/components/Table/components/__tests__/Pagination.test.tsx:47-53 | page 1 of twenty-five over fifty reads "26 - 50 of 50" |
| Table.TableState.constructor | src/components/Table/index.tsx:41-52 | a new table starts on page 0 of five, unsorted on the row id, unfiltered |
| Table.TableState.UpdateFilter | src/components/Table/index.tsx:54-57 | applying a filter stores it, tells the filter listener, goes to page 0 and tells the page listener; the view is page 0 under the new filter |
| Table.TableState.ToggleSort | src/components/Table/index.tsx:42 | a header activation toggles the sort and the view is derived with the toggled sort |
| Table.TableState.PressButton | src/components/Table/components/Pagination.tsx:49-58 | a disabled button changes nothing; an enabled one moves to the page it asks for and tells the page listener |
| Table.TableState.ChangePageSize | src/components/Table/components/Pagination.tsx:28-30 | a new page size stores page 0 and that size and notifies the page and then the size; the current size leaves page, size and notices as they were; either way the view is the one derived from the new state |
| Table.FilterFromLaterPage | src/components/Table/index.tsx:54-57 | with at least five records, Next reaches page 1; filtering from there shows the first five matching records, in data order |
| Table.FirstPageUnsorted | src/components/Table/hooks/useTableData.ts:20-28 | unsorted, page 0 holds the first matching records in data order |

## Left out

- React scheduling: `useState` and `useEffect` timing, re-renders and StrictMode double calls. Each hook is a
  plain object with synchronous methods. In particular, the model's columns are available at once,
  not one render later.
- Listeners are not called. Each call a listener would receive is appended to a `notices` log.
  An absent listener and a present one look the same in the model.
- Unicode: `toLowerCase` is ASCII case mapping and `localeCompare` is code-point lexicographic order.
  Neither does locale-specific collation or case folding.
- Floating-point numbers, NaN and Infinity: number fields are integers, and the numeric comparator subtracts them exactly.
- `String()` is modelled only for integers, strings, null and undefined; objects, booleans and floats are not values here.
- Negative and fractional page numbers and page sizes: pages and page sizes are natural numbers.
  `changePage` still accepts any natural number without bounds, as the source does.
- `Object.keys` ordering rules (integer-like keys first): a record is an ordered list of entries,
  and Object.keys is that order.
- ListSort.SortList: the result for an inconsistent comparator (mixed number and string fields) is fixed
  by the insertion-sort model. ECMA-262 leaves it implementation-defined, so the only property the
  standard backs there is permutation; the identity on already-ordered input is a property of the
  model alone. `ListSort.SortListIncomparable` does not depend on it: a comparator that returns 0 for
  every pair is consistent, and stability then keeps the input order.
- Table.TableState.ChangePageSize: the page-size selector's `Number(...)` parsing of the option text
  is not modelled; the method takes the chosen size as a number.
- The column `render` function is modelled by `Records.Stringify` alone; the JSX rendering of rows,
  headers and the filter popover (TableFilter.tsx, TableHead.tsx, TableBody.tsx) is not part of this model.
- The filter popover's apply/clear wiring is not part of this model. Apply emits a filter only when
  both its key and its value are non-empty (TableFilter.tsx:38-39); Clear emits `null` (TableFilter.tsx:50).
  Both reach `Table.TableState.UpdateFilter`, which accepts `NoFilter` for `null`, and the view
  derivation treats that, like any filter with an empty key or value, as inactive.
- `PAGE_SIZES` is the constant `TablePagination.PageSizes`; the select element that offers it is markup.
