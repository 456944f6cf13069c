/**
 * The table renderer (`displayData`): one row per transaction of the current
 * page whose customer is found; a transaction without a customer is skipped.
 */
module Table {
  import opened Wrappers
  import opened Seqs
  import opened Records

  /**
   * A table row: the three cells (name, date, amount) and the customer id and
   * name that its click handler passes to the chart popup.
   */
  datatype Row = Row(customerId: CustomerId, customerName: string, date: string, amount: int)

  function RowFor(c: Customer, t: Transaction): Row {
    Row(c.id, c.name, t.date, t.amount)
  }

  /** The rows rendered for a list of transactions, in order. */
  function RowsOf(customers: seq<Customer>, ts: seq<Transaction>): (rows: seq<Row>)
    ensures |rows| <= |ts|
    decreases |ts|
  {
    if ts == [] then []
    else
      var init := RowsOf(customers, ts[..|ts| - 1]);
      var t := ts[|ts| - 1];
      match FindCustomer(customers, t.customerId)
      case None => init
      case Some(c) => init + [RowFor(c, t)]
  }

  /** Each row carries the id and name of the customer that `find` returns for it. */
  lemma {:induction false} RowsCarryTheirCustomer(customers: seq<Customer>, ts: seq<Transaction>, k: nat)
    requires k < |RowsOf(customers, ts)|
    ensures var row := RowsOf(customers, ts)[k];
      FindCustomer(customers, row.customerId) == Some(Customer(row.customerId, row.customerName))
    decreases |ts|
  {
    var init := ts[..|ts| - 1];
    if k < |RowsOf(customers, init)| {
      RowsCarryTheirCustomer(customers, init, k);
    } else {
      FindCustomerId(customers, ts[|ts| - 1].customerId);
    }
  }

  function HasCustomer(customers: seq<Customer>): Transaction -> bool {
    (t: Transaction) => FindCustomer(customers, t.customerId).Some?
  }

  /**
   * When every transaction joins a customer, nothing is skipped: row k is
   * transaction k with its customer's id and name.
   */
  lemma {:induction false} RowsOfJoined(customers: seq<Customer>, ts: seq<Transaction>)
    requires AllJoined(customers, ts)
    ensures var rows := RowsOf(customers, ts);
      && |rows| == |ts|
      && forall k :: 0 <= k < |ts| ==> rows[k] == RowFor(FindCustomer(customers, ts[k].customerId).value, ts[k])
    decreases |ts|
  {
    if ts != [] {
      RowsOfJoined(customers, ts[..|ts| - 1]);
    }
  }

  /** The rows are exactly those of the transactions that join a customer, in order. */
  lemma {:induction false} RowsSkipUnjoined(customers: seq<Customer>, ts: seq<Transaction>)
    ensures RowsOf(customers, ts) == RowsOf(customers, Select(ts, HasCustomer(customers)))
    decreases |ts|
  {
    if ts != [] {
      var init, t := ts[..|ts| - 1], ts[|ts| - 1];
      assert ts == init + [t];
      RowsSkipUnjoined(customers, init);
      var joined := Select(init, HasCustomer(customers));
      if HasCustomer(customers)(t) {
        assert Select(ts, HasCustomer(customers)) == joined + [t];
        assert (joined + [t])[..|joined|] == joined;
      }
    }
  }

  /** The `forEach` of `displayData`: rows are appended one transaction at a time. */
  method RenderRows(customers: seq<Customer>, ts: seq<Transaction>) returns (rows: seq<Row>)
    ensures rows == RowsOf(customers, ts)
  {
    rows := [];
    for i := 0 to |ts|
      invariant rows == RowsOf(customers, ts[..i])
    {
      assert ts[..i + 1][..i] == ts[..i];
      var customer := FindCustomer(customers, ts[i].customerId);
      if customer.Some? {
        rows := rows + [RowFor(customer.value, ts[i])];
      }
    }
    assert ts[..|ts|] == ts;
  }
}
