/**
 * The dashboard's module-level state and its event handlers: loading the two
 * collections, filtering, clicking a page control, clicking a table row
 * (which opens the chart popup) and closing the popup.
 */
module App {
  import opened Wrappers
  import opened Seqs
  import opened Text
  import opened Records
  import opened Filtering
  import opened Pagination
  import opened Table
  import opened Chart

  /** `window.chartInstance`: a chart drawn from some data, live until it is destroyed. */
  datatype ChartInstance = ChartInstance(data: ChartData, live: bool)

  function LiveCount(charts: seq<ChartInstance>): nat {
    if charts == [] then 0
    else LiveCount(charts[..|charts| - 1]) + (if charts[|charts| - 1].live then 1 else 0)
  }

  lemma {:induction false} NoneLive(charts: seq<ChartInstance>)
    requires forall k :: 0 <= k < |charts| ==> !charts[k].live
    ensures LiveCount(charts) == 0
    decreases |charts|
  {
    if charts != [] {
      NoneLive(charts[..|charts| - 1]);
    }
  }

  /** When every earlier chart has been destroyed, only the newest one can be live. */
  lemma OnlyNewestLive(retired: seq<ChartInstance>, newest: ChartInstance)
    requires forall k :: 0 <= k < |retired| ==> !retired[k].live
    ensures LiveCount(retired + [newest]) == if newest.live then 1 else 0
  {
    NoneLive(retired);
    assert (retired + [newest])[..|retired|] == retired;
  }

  /** When every transaction of a view joins a customer, no row of any of its pages is skipped. */
  lemma JoinedPagesRenderEveryRow(customers: seq<Customer>, view: seq<Transaction>, page: int)
    requires page >= 1
    requires AllJoined(customers, view)
    ensures |RowsOf(customers, PageSlice(view, page))| == |PageSlice(view, page)|
  {
    PageSliceSpec(view, page);
    RowsOfJoined(customers, PageSlice(view, page));
  }

  /** Every transaction of a filtered view joins a customer, so no row of any of its pages is skipped. */
  lemma FilteredPagesRenderEveryRow(customers: seq<Customer>, transactions: seq<Transaction>,
                                    nameInput: string, amountFilter: Option<int>, page: int)
    requires page >= 1
    ensures var view := FilterView(customers, transactions, nameInput, amountFilter);
      |RowsOf(customers, PageSlice(view, page))| == |PageSlice(view, page)|
  {
    FilteredJoinCustomers(customers, transactions, nameInput, amountFilter);
    JoinedPagesRenderEveryRow(customers, FilterView(customers, transactions, nameInput, amountFilter), page);
  }

  class Dashboard {
    var customers: seq<Customer>
    var transactions: seq<Transaction>
    var filteredTransactions: seq<Transaction>
    var currentPage: int
    /** The rows of the table body. */
    var tableRows: seq<Row>
    /** The items of the pagination list. */
    var pageControls: seq<PageControl>
    /** Whether the chart popup is displayed, and the customer name shown in it. */
    var popupVisible: bool
    var popupCustomerName: string
    var chartInstance: Option<ChartInstance>
    /** How many times a chart instance has been destroyed. */
    var destroyCount: nat
    /** The instances destroyed so far, oldest first. */
    ghost var retired: seq<ChartInstance>
    /** The name input and parsed amount of the last `Filter`, or None since the last `Load`. */
    ghost var lastFilter: Option<(string, Option<int>)>

    /**
     * The filtered view is the full list, or the full list under the last filter
     * applied, and the current page is one of its pages (page 1 when it has none).
     */
    ghost predicate ViewValid()
      reads this`customers, this`transactions, this`filteredTransactions, this`lastFilter, this`currentPage
    {
      && 1 <= currentPage <= (if PageCount(|filteredTransactions|) == 0 then 1 else PageCount(|filteredTransactions|))
      && filteredTransactions == (if lastFilter.None? then transactions
                                  else FilterView(customers, transactions, lastFilter.value.0, lastFilter.value.1))
    }

    /** The table and the pagination list show the current page of the filtered view. */
    ghost predicate RenderValid()
      reads this`customers, this`filteredTransactions, this`currentPage, this`tableRows, this`pageControls
    {
      && currentPage >= 1
      && tableRows == RowsOf(customers, PageSlice(filteredTransactions, currentPage))
      && pageControls == Controls(PageCount(|filteredTransactions|), currentPage)
    }

    /** Every chart instance but the current one has been destroyed, each exactly once. */
    ghost predicate ChartValid()
      reads this`chartInstance, this`destroyCount, this`retired
    {
      && destroyCount == |retired|
      && (forall k :: 0 <= k < |retired| ==> !retired[k].live)
      && (chartInstance.None? ==> retired == [])
      && (chartInstance.Some? ==> chartInstance.value.live)
    }

    ghost predicate Valid()
      reads this`customers, this`transactions, this`filteredTransactions, this`lastFilter, this`currentPage,
            this`tableRows, this`pageControls, this`chartInstance, this`destroyCount, this`retired
    {
      ViewValid() && RenderValid() && ChartValid()
    }

    /** Every chart instance ever created, oldest first. */
    ghost function Charts(): seq<ChartInstance>
      reads this`retired, this`chartInstance
    {
      retired + (if chartInstance.Some? then [chartInstance.value] else [])
    }

    /** The state when the page has loaded and nothing has been fetched yet. */
    constructor ()
      ensures Valid()
      ensures customers == [] && transactions == [] && filteredTransactions == [] && currentPage == 1
      ensures tableRows == [] && pageControls == []
      ensures !popupVisible && chartInstance == None && destroyCount == 0
    {
      customers, transactions, filteredTransactions := [], [], [];
      currentPage := 1;
      tableRows, pageControls := [], [];
      popupVisible, popupCustomerName := false, [];
      chartInstance, destroyCount := None, 0;
      retired, lastFilter := [], None;
    }

    /** `displayData`: clears the table body and renders the current page. */
    method DisplayData()
      requires currentPage >= 1
      modifies this`tableRows
      ensures tableRows == RowsOf(customers, PageSlice(filteredTransactions, currentPage))
      ensures |tableRows| <= ItemsPerPage
    {
      var page := PageSlice(filteredTransactions, currentPage);
      PageSliceSpec(filteredTransactions, currentPage);
      tableRows := RenderRows(customers, page);
    }

    /** `setupPagination`: clears the pagination list and renders one control per page. */
    method SetupPagination()
      modifies this`pageControls
      ensures pageControls == Controls(PageCount(|filteredTransactions|), currentPage)
    {
      pageControls := BuildControls(|filteredTransactions|, currentPage);
    }

    /** `displayData` followed by `setupPagination`, the rendering every handler ends with. */
    method Render()
      requires currentPage >= 1
      modifies this`tableRows, this`pageControls
      ensures RenderValid()
      ensures |tableRows| <= ItemsPerPage
      ensures ActiveCount(pageControls) == if currentPage <= PageCount(|filteredTransactions|) then 1 else 0
    {
      DisplayData();
      SetupPagination();
      ExactlyOneActive(PageCount(|filteredTransactions|), currentPage);
    }

    /**
     * The success path of `fetchData`: store both collections, show all transactions,
     * render. `fetchData` runs once, at start-up, while the page is still 1.
     */
    method Load(fetchedCustomers: seq<Customer>, fetchedTransactions: seq<Transaction>)
      requires ChartValid() && currentPage == 1
      modifies this`customers, this`transactions, this`filteredTransactions, this`lastFilter,
               this`tableRows, this`pageControls
      ensures Valid()
      ensures customers == fetchedCustomers && transactions == fetchedTransactions
      ensures filteredTransactions == fetchedTransactions
      ensures ActiveCount(pageControls) == if filteredTransactions == [] then 0 else 1
    {
      customers := fetchedCustomers;
      transactions := fetchedTransactions;
      filteredTransactions := transactions;
      lastFilter := None;
      Render();
    }

    /**
     * `filterTransactions`, run on every input event of either filter field:
     * recompute the view from the full list, go back to page 1, render.
     */
    method Filter(nameInput: string, amountFilter: Option<int>)
      requires ChartValid()
      modifies this`filteredTransactions, this`lastFilter, this`currentPage, this`tableRows, this`pageControls
      ensures Valid()
      ensures filteredTransactions == FilterView(customers, transactions, nameInput, amountFilter)
      ensures currentPage == 1
      ensures ActiveCount(pageControls) == if filteredTransactions == [] then 0 else 1
    {
      filteredTransactions := FilterView(customers, transactions, nameInput, amountFilter);
      lastFilter := Some((nameInput, amountFilter));
      currentPage := 1;
      Render();
    }

    /** The click handler of page control `page`: show that page and re-render, keeping the view. */
    method ClickPage(page: int)
      requires Valid()
      requires 1 <= page <= |pageControls|
      modifies this`currentPage, this`tableRows, this`pageControls
      ensures Valid()
      ensures currentPage == page
      ensures |pageControls| == |old(pageControls)|
      ensures pageControls[page - 1].active && ActiveCount(pageControls) == 1
    {
      assert ChartValid() && ViewValid();
      assert page <= PageCount(|filteredTransactions|) == |pageControls| by {
        ControlsSpec(PageCount(|filteredTransactions|), currentPage);
      }
      currentPage := page;
      Render();
      assert pageControls[page - 1].active && |pageControls| == |old(pageControls)| by {
        ControlsSpec(PageCount(|filteredTransactions|), page);
      }
    }

    /** `displayChart`: destroy the live chart, if any, then draw the customer's chart from the full list. */
    method DisplayChart(customerId: CustomerId)
      requires ChartValid()
      modifies this`chartInstance, this`destroyCount, this`retired
      ensures ChartValid()
      ensures chartInstance == Some(ChartInstance(Aggregate(transactions, customerId), true))
      ensures old(chartInstance).None? ==> retired == old(retired) && destroyCount == old(destroyCount)
      ensures old(chartInstance).Some? ==>
        && retired == old(retired) + [old(chartInstance).value.(live := false)]
        && destroyCount == old(destroyCount) + 1
      ensures LiveCount(Charts()) == 1
    {
      var data := Aggregate(transactions, customerId);
      if chartInstance.Some? {
        var destroyed := chartInstance.value.(live := false);
        retired := retired + [destroyed];
        destroyCount := destroyCount + 1;
      }
      chartInstance := Some(ChartInstance(data, true));
      OnlyNewestLive(retired, chartInstance.value);
    }

    /** `showChartPopup`: show the popup titled with the customer's name and draw the chart. */
    method ShowChartPopup(customerId: CustomerId, customerName: string)
      requires ChartValid()
      modifies this`popupVisible, this`popupCustomerName, this`chartInstance, this`destroyCount, this`retired
      ensures ChartValid()
      ensures popupVisible && popupCustomerName == customerName
      ensures chartInstance == Some(ChartInstance(Aggregate(transactions, customerId), true))
      ensures old(chartInstance).None? ==> retired == old(retired) && destroyCount == old(destroyCount)
      ensures old(chartInstance).Some? ==>
        && retired == old(retired) + [old(chartInstance).value.(live := false)]
        && destroyCount == old(destroyCount) + 1
      ensures LiveCount(Charts()) == 1
    {
      popupCustomerName := customerName;
      popupVisible := true;
      DisplayChart(customerId);
    }

    /** The click handler of table row k: open the popup for that row's customer. */
    method ClickRow(k: nat)
      requires Valid()
      requires k < |tableRows|
      modifies this`popupVisible, this`popupCustomerName, this`chartInstance, this`destroyCount, this`retired
      ensures Valid()
      ensures popupVisible
      ensures var id := old(tableRows[k].customerId);
        && FindCustomer(customers, id) == Some(Customer(id, popupCustomerName))
        && chartInstance == Some(ChartInstance(Aggregate(transactions, id), true))
      ensures old(chartInstance).None? ==> retired == old(retired) && destroyCount == old(destroyCount)
      ensures old(chartInstance).Some? ==>
        && retired == old(retired) + [old(chartInstance).value.(live := false)]
        && destroyCount == old(destroyCount) + 1
      ensures LiveCount(Charts()) == 1
    {
      var row := tableRows[k];
      RowsCarryTheirCustomer(customers, PageSlice(filteredTransactions, currentPage), k);
      ShowChartPopup(row.customerId, row.customerName);
    }

    /**
     * `hideChartPopup`: hide the popup; the chart instance stays as it is. Valid()
     * does not read the popup's visibility, so the invariant is kept.
     */
    method HideChartPopup()
      modifies this`popupVisible
      ensures !popupVisible
    {
      popupVisible := false;
    }
  }

  /** In every state the invariant admits, exactly one page control is active unless the view is empty. */
  lemma ValidHasOneActivePage(d: Dashboard)
    requires d.Valid()
    ensures ActiveCount(d.pageControls) == if d.filteredTransactions == [] then 0 else 1
  {
    ExactlyOneActive(PageCount(|d.filteredTransactions|), d.currentPage);
  }
}
