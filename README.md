# Customer Transactions dashboard — a Dafny model

The dashboard (`app.js`) loads a list of customers and a list of
transactions. It shows the transactions in a table, ten per page, with
numbered page controls. Two inputs filter the table: a customer-name
substring, which ignores case, and an exact amount. Clicking a row opens a
popup with a line chart of that customer's daily totals.

This project models that behaviour and proves properties of it:

- `wrappers.dfy` — `Option`.
- `sequences.dfy` (`Seqs`) — `Array.prototype.filter` as `Select`, the
  positions it keeps, and `[...new Set(xs)]` as `Distinct`.
- `text.dfy` (`Text`) — `toLowerCase` and `includes`.
- `records.dfy` (`Records`) — the `Customer` and `Transaction` records and
  `customers.find` by id.
- `filtering.dfy` (`Filtering`) — the filter predicate and the filtered view.
- `pagination.dfy` (`Pagination`) — page count, page slice and page controls,
  plus the loop that builds the controls.
- `table.dfy` (`Table`) — the rows `displayData` renders, and the loop that
  renders them.
- `chart.dfy` (`Chart`) — the chart's data for one customer: labels are the
  distinct dates in order of first occurrence, amounts are summed per date.
- `app.dfy` (`App`) — the module-level state as the class `Dashboard`.
  - Its handlers are methods: load, filter, page click, row click, show and
    hide the popup, draw the chart.
  - `Valid()` is the invariant every handler keeps. It has three parts:
    - the view is the full list, or the full list under the last filter
      applied, and the current page is one of its pages (page 1 when it has
      none);
    - the table and the controls render the current page of that view;
    - every chart instance but the current one has been destroyed, each
      exactly once.

Amounts are modelled as integers. The amount input's `parseFloat` result is
an `Option<int>` parameter, where `None` stands for `NaN`. The source's filter
tests `!amountFilter`, so both `NaN` and `0` mean "no amount constraint"; the
model keeps that behaviour and proves it (`ZeroAmountIsNoConstraint`).

## Model

| member | source | states |
|---|---|---|
| Records.FindCustomer | app.js:57-59 | `customers.find` by id. `FindCustomerSpec` and `FindCustomerId` characterize it. |
| Seqs.Select | app.js:84-93 | `Array.prototype.filter`. `SelectSpec`, `SelectMembership`, `SelectedIndicesSpec` and `SelectIsOrderedSubsequence` characterize it. |
| Seqs.Distinct | app.js:117 | `[...new Set(xs)]`. `DistinctSpec` and `DistinctInFirstOccurrenceOrder` characterize it. |
| Text.Lower | app.js:82 | `toLowerCase` on ASCII letters. `LowerKeepsLength` and `LowerIdempotent` characterize it. |
| Text.Includes | app.js:90 | `includes`. `IncludesIffOccurs` and `IncludesEmpty` characterize it. |
| Records.FindCustomerSpec | app.js:57-59 | `find` gives None exactly when no customer has the id. Otherwise it gives the first customer in the list with that id. |
| Records.FindCustomerId | app.js:85-87 | the customer `find` returns carries the id searched for |
| Seqs.SelectSpec | app.js:84-93 | the filtered list is no longer than the input, and every element passes the predicate |
| Seqs.SelectMembership | app.js:84-93 | x is in the filtered list iff x is in the input and passes the predicate |
| Seqs.SelectedIndicesSpec | app.js:84-93 | the kept positions are strictly increasing and in range. A position is kept iff its element passes the predicate. |
| Seqs.SelectIsOrderedSubsequence | app.js:84-93 | element j of the filtered list is the input element at the j-th kept position, so filtering keeps order |
| Seqs.DistinctSpec | app.js:117 | `[...new Set(xs)]` has no repeated element and has the same members as xs |
| Seqs.DistinctInFirstOccurrenceOrder | app.js:117 | the Set spread lists elements in the order of their first occurrence in xs |
| Text.LowerKeepsLength | app.js:82 | lower-casing keeps the length, so the lowered name input is empty iff the input is |
| Text.LowerIdempotent | app.js:82 | a lowered string has no upper-case letter, and lowering it again changes nothing |
| Text.IncludesIffOccurs | app.js:90 | `s.includes(p)` holds iff p occurs in s at some position |
| Text.IncludesEmpty | app.js:90 | every string includes the empty string |
| Filtering.FilterView | app.js:82-93 | the filtered list for a name input and a parsed amount. `FilterViewCharacterization` characterizes it. |
| Filtering.FilterViewCharacterization | app.js:81-93 | the view is the ordered subsequence of all transactions at the kept positions. A position is kept iff its transaction joins a customer, the name input is empty or appears in the lowered name, and the amount filter is NaN, 0 or equal to the amount. |
| Filtering.FilteredJoinCustomers | app.js:85-89 | every transaction in the view has a customer |
| Filtering.FilteredMatchName | app.js:90 | with a non-empty name input, each kept customer's lowered name contains the lowered input |
| Filtering.FilteredMatchAmount | app.js:91 | with an amount filter that parses to a non-zero v, every kept amount is v |
| Filtering.ZeroAmountIsNoConstraint | app.js:91 | an amount input of 0 filters exactly like one that does not parse |
| Filtering.ClearedFiltersKeepJoined | app.js:88-91 | with both inputs empty, every transaction that joins a customer stays in the view. When all join, the view is the full list. |
| Filtering.EmptyNameTestRedundant | app.js:90 | the `!nameFilter` guard adds nothing: an empty needle is included in every lowered name |
| Filtering.FilterIgnoresInputCase | app.js:82 | an input that is already lowered gives the same view as the original, so the case of what is typed does not matter |
| Pagination.PageCount | app.js:153 | the page count is the ceiling of length / 10: enough pages for all items, no empty trailing page, zero pages iff no items |
| Pagination.PageSlice | app.js:49-54 | `filteredTransactions.slice(start, end)` for one page. `PageSliceSpec` characterizes it. |
| Pagination.PageSliceSpec | app.js:49-54 | page p holds items from (p-1)*10 on, at most 10 of them, and none past the end |
| Pagination.PageNonEmptyIffInRange | app.js:49-54 | a page is non-empty iff its number is at most the page count |
| Pagination.PagesArePrefix | app.js:49-54 | pages 1..n laid end to end are the first min(10n, length) items |
| Pagination.PagesCoverView | app.js:49-54 | pages 1..pageCount laid end to end are exactly the view: nothing lost or repeated |
| Pagination.Controls | app.js:154-159 | the list of page controls. `ControlsSpec` and `ExactlyOneActive` characterize it. |
| Pagination.ControlsSpec | app.js:154-159 | there is one control per page. Control k carries number k+1 and is active iff k+1 is the current page. |
| Pagination.ExactlyOneActive | app.js:154-159 | exactly one control is active when the current page is in range, and none otherwise |
| Pagination.BuildControls | app.js:151-169 | the loop of `setupPagination` produces the control list for ceil(length/10) pages |
| Pagination.TwentyThreeItems | app.js:49-54 | 23 items give 3 pages. Page 3 has 3 items, page 2 is items 11..20, and only control 2 is active on page 2. |
| Table.RowsOf | app.js:56-78 | never more rows than transactions on the page |
| Table.RowsCarryTheirCustomer | app.js:57-73 | every rendered row names the customer that `find` gives for its id |
| Table.RowsOfJoined | app.js:56-71 | when every transaction joins, there is one row per transaction, in order, built from its customer |
| Table.RowsSkipUnjoined | app.js:60-77 | the rows are those of the joined transactions only: unjoined ones are skipped, not shown blank |
| Table.RenderRows | app.js:56-78 | the `forEach` loop produces exactly the rows of the page's transactions |
| Chart.Aggregate | app.js:114-122 | the labels and series for one customer. `ChartSeriesShape`, `ChartLabelsAreCustomerDates`, `ChartLabelsInFirstOccurrenceOrder`, `ChartAmountsPerLabel` and `ChartTotal` characterize it. |
| Chart.PerDateSpec | app.js:118-122 | amount i is the sum over the transactions dated label i |
| Chart.DatesMembership | app.js:117 | d is among the mapped dates iff some transaction carries d |
| Chart.PerDistinctDateTotal | app.js:117-122 | the per-distinct-date sums add up to the sum of all the amounts |
| Chart.ChartSeriesShape | app.js:117-122 | one amount per label, and no label repeated |
| Chart.ChartTotal | app.js:114-122 | the series adds up to the customer's total over the full transaction list |
| Chart.ChartLabelsAreCustomerDates | app.js:114-117 | d is a label iff some transaction in the full list has that customer and date d |
| Chart.ChartLabelsInFirstOccurrenceOrder | app.js:117 | labels appear in the order in which each date first occurs among the customer's transactions |
| Chart.ChartAmountsPerLabel | app.js:114-122 | amount i is the sum of the customer's transactions dated label i |
| Chart.TwoDatesExample | app.js:113-122 | two transactions on d1 and one on d2 give labels [d1, d2] and series [a+b, c] |
| App.NoneLive | app.js:125-127 | a log of destroyed chart instances contains no live one |
| App.OnlyNewestLive | app.js:125-128 | when every earlier instance was destroyed, only the newest can be live |
| App.JoinedPagesRenderEveryRow | app.js:56-71 | when all its transactions join, every page of a view renders one row per transaction |
| App.FilteredPagesRenderEveryRow | app.js:84-96 | on a filtered view no row of any page is skipped |
| App.ValidHasOneActivePage | app.js:153-163 | in every state the invariant admits, exactly one page control is active unless the view is empty |
| App.Dashboard.constructor | app.js:13-17 | the initial state has empty lists, page 1, no chart, and the popup hidden |
| App.Dashboard.DisplayData | app.js:46-79 | the table holds the rows of the current page's slice: at most 10 rows |
| App.Dashboard.SetupPagination | app.js:151-169 | the control list is the one for ceil(length/10) pages with the current page active |
| App.Dashboard.Render | app.js:39-40 | after `displayData` and `setupPagination`, the table and controls match the current page. Exactly one control is active iff the page is in range. |
| App.Dashboard.Load | app.js:32-40 | `fetchData` runs once, while the page is 1 (app.js:16, 175). Load stores both lists and shows all transactions as the view. The invariant holds afterwards, and one control is active unless the list is empty. |
| App.Dashboard.Filter | app.js:81-97 | the view becomes the filter of the full list, the page goes back to 1, and the invariant holds. One control is active unless the view is empty. |
| App.Dashboard.ClickPage | app.js:161-166 | the page becomes the clicked one, and the view and the number of controls are unchanged. The clicked control is the only active one. |
| App.Dashboard.DisplayChart | app.js:113-149 | any existing chart is destroyed (counted once) before the new one is created. The new one shows the customer's aggregate over the full list, and exactly one instance is live. |
| App.Dashboard.ShowChartPopup | app.js:99-104 | the popup is visible with the customer's name. The chart is redrawn as above: the old instance moves to the destroyed log and is counted once. |
| App.Dashboard.ClickRow | app.js:67-74 | the popup opens with the name of the customer found for the row's id, and shows that customer's chart. The previous instance, if any, is destroyed and counted once. |
| App.Dashboard.HideChartPopup | app.js:106-109 | the popup is hidden, and nothing else changes. `Valid()` does not read the popup's visibility, so the invariant is kept. |

## Left out

- Fetching over HTTP, JSON decoding and the error branch of `fetchData` (app.js:19-44): network I/O. `Load` takes the two decoded lists as parameters. The case where the customers list is stored and decoding the transactions then fails is not modelled.
- The DOM: elements, `innerHTML`, event registration and CSS classes. They are modelled as the fields `tableRows`, `pageControls`, `popupVisible` and `popupCustomerName`.
- The popup's visibility before the first click comes from the page's markup and stylesheet, which are not part of this model. The constructor starts with it hidden.
- Chart.js rendering and options (type, colours, axis settings): only the data handed to the chart is modelled, plus whether each instance is live.
- Console logging.
- `parseFloat` and floating-point amounts: the parsed amount is a parameter, an integer or `None` for `NaN`. Amounts are integers, so `+` in the chart sums has no rounding.
- `Text.Lower`: only the ASCII letters A-Z are lower-cased. Unicode case mapping in `toLowerCase` is not modelled.
- Event timing and interleaving: each handler runs to completion, one at a time.
- `Dashboard.Load`: requires `currentPage == 1`. `fetchData` is called once, at start-up (app.js:175), before any handler can change the page from its initial 1 (app.js:16). A second load is not modelled.
- `Dashboard.Filter`: the fact that no row of page 1 is skipped is stated separately as `FilteredPagesRenderEveryRow`, not in the method's contract.
