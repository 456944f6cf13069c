/**
 * The chart popup's aggregation (`displayChart`): one customer's transactions,
 * taken from the full list, grouped by date in order of first occurrence, with
 * the amounts summed per date.
 */
module Chart {
  import opened Seqs
  import opened Records

  function OfCustomer(id: CustomerId): Transaction -> bool {
    (t: Transaction) => t.customerId == id
  }

  function OnDate(date: string): Transaction -> bool {
    (t: Transaction) => t.date == date
  }

  function OfCustomerOnDate(id: CustomerId, date: string): Transaction -> bool {
    (t: Transaction) => t.customerId == id && t.date == date
  }

  /** `ts.map(t => t.date)`. */
  function Dates(ts: seq<Transaction>): seq<string> {
    if ts == [] then [] else Dates(ts[..|ts| - 1]) + [ts[|ts| - 1].date]
  }

  /** `ts.reduce((sum, t) => sum + t.amount, 0)`. */
  function SumAmounts(ts: seq<Transaction>): int {
    if ts == [] then 0 else SumAmounts(ts[..|ts| - 1]) + ts[|ts| - 1].amount
  }

  /** `labels.map(date => SumAmounts(ts.filter(t => t.date === date)))`. */
  function PerDate(ts: seq<Transaction>, labels: seq<string>): seq<int> {
    if labels == [] then []
    else PerDate(ts, labels[..|labels| - 1]) + [SumAmounts(Select(ts, OnDate(labels[|labels| - 1])))]
  }

  /** Entry i of the series is the sum of the amounts dated labels[i]. */
  lemma {:induction false} PerDateSpec(ts: seq<Transaction>, labels: seq<string>)
    ensures var r := PerDate(ts, labels);
      && |r| == |labels|
      && forall i :: 0 <= i < |labels| ==> r[i] == SumAmounts(Select(ts, OnDate(labels[i])))
  {
    if labels != [] {
      var init := labels[..|labels| - 1];
      PerDateSpec(ts, init);
      forall i | 0 <= i < |init|
        ensures PerDate(ts, labels)[i] == SumAmounts(Select(ts, OnDate(labels[i])))
      {
        assert labels[i] == init[i];
      }
    }
  }

  /** The sum of a series of numbers. */
  function Total(s: seq<int>): int {
    if s == [] then 0 else Total(s[..|s| - 1]) + s[|s| - 1]
  }

  /** What is handed to the chart: `labels` for the x-axis and the `data` series. */
  datatype ChartData = ChartData(labels: seq<string>, amounts: seq<int>)

  function Aggregate(transactions: seq<Transaction>, id: CustomerId): ChartData {
    var mine := Select(transactions, OfCustomer(id));
    var dates := Distinct(Dates(mine));
    ChartData(dates, PerDate(mine, dates))
  }

  lemma DatesSnoc(ts: seq<Transaction>, t: Transaction)
    ensures Dates(ts + [t]) == Dates(ts) + [t.date]
  {
    assert (ts + [t])[..|ts|] == ts;
  }

  lemma SumAmountsSnoc(ts: seq<Transaction>, t: Transaction)
    ensures SumAmounts(ts + [t]) == SumAmounts(ts) + t.amount
  {
    assert (ts + [t])[..|ts|] == ts;
  }

  lemma TotalSnoc(s: seq<int>, x: int)
    ensures Total(s + [x]) == Total(s) + x
  {
    assert (s + [x])[..|s|] == s;
  }

  lemma {:induction false} DatesMembership(ts: seq<Transaction>, d: string)
    ensures d in Dates(ts) <==> exists k :: 0 <= k < |ts| && ts[k].date == d
    decreases |ts|
  {
    if ts != [] {
      var init, t := ts[..|ts| - 1], ts[|ts| - 1];
      assert ts == init + [t];
      DatesMembership(init, d);
      DatesSnoc(init, t);
      if exists k :: 0 <= k < |init| && init[k].date == d {
        var k :| 0 <= k < |init| && init[k].date == d;
        assert ts[k] == init[k];
      }
    }
  }

  /** The sum for one date grows by t's amount exactly when t carries that date. */
  lemma SumOnDateSnoc(ts: seq<Transaction>, t: Transaction, d: string)
    ensures SumAmounts(Select(ts + [t], OnDate(d)))
         == SumAmounts(Select(ts, OnDate(d))) + (if t.date == d then t.amount else 0)
  {
    SelectSnoc(ts, t, OnDate(d));
    if t.date == d {
      SumAmountsSnoc(Select(ts, OnDate(d)), t);
    }
  }

  /** Adding one transaction adds its amount to the total of the distinct labels once if its date is among them. */
  lemma {:induction false} PerDateTotalSnoc(ts: seq<Transaction>, t: Transaction, labels: seq<string>)
    requires forall i, j :: 0 <= i < j < |labels| ==> labels[i] != labels[j]
    ensures Total(PerDate(ts + [t], labels))
         == Total(PerDate(ts, labels)) + (if t.date in labels then t.amount else 0)
    decreases |labels|
  {
    if labels != [] {
      var init, l := labels[..|labels| - 1], labels[|labels| - 1];
      assert labels == init + [l];
      PerDateTotalSnoc(ts, t, init);
      TotalSnoc(PerDate(ts + [t], init), SumAmounts(Select(ts + [t], OnDate(l))));
      TotalSnoc(PerDate(ts, init), SumAmounts(Select(ts, OnDate(l))));
      SumOnDateSnoc(ts, t, l);
      assert t.date in labels <==> t.date in init || t.date == l;
      assert t.date == l ==> t.date !in init;
    }
  }

  /** A date that no transaction carries sums to nothing. */
  lemma {:induction false} SumOnAbsentDate(ts: seq<Transaction>, d: string)
    requires d !in Dates(ts)
    ensures SumAmounts(Select(ts, OnDate(d))) == 0
    decreases |ts|
  {
    if ts != [] {
      var init, t := ts[..|ts| - 1], ts[|ts| - 1];
      assert ts == init + [t];
      DatesSnoc(init, t);
      SumOnAbsentDate(init, d);
      SumOnDateSnoc(init, t, d);
    }
  }

  /** A date seen for the first time adds its one transaction's amount as a new label. */
  lemma NewDateStep(ts: seq<Transaction>, t: Transaction, labels: seq<string>)
    requires labels == Distinct(Dates(ts)) && t.date !in labels
    ensures Total(PerDate(ts + [t], labels + [t.date])) == Total(PerDate(ts + [t], labels)) + t.amount
  {
    assert (labels + [t.date])[..|labels|] == labels;
    TotalSnoc(PerDate(ts + [t], labels), SumAmounts(Select(ts + [t], OnDate(t.date))));
    SumOnDateSnoc(ts, t, t.date);
    DistinctSpec(Dates(ts));
    assert t.date !in Dates(ts);
    SumOnAbsentDate(ts, t.date);
  }

  /** Summing per distinct date loses and duplicates nothing: the per-date sums add up to the total. */
  lemma {:induction false} PerDistinctDateTotal(ts: seq<Transaction>)
    ensures Total(PerDate(ts, Distinct(Dates(ts)))) == SumAmounts(ts)
    decreases |ts|
  {
    if ts != [] {
      var init, t := ts[..|ts| - 1], ts[|ts| - 1];
      assert ts == init + [t];
      var d := Distinct(Dates(init));
      assert Distinct(Dates(ts)) == if t.date in d then d else d + [t.date] by {
        DatesSnoc(init, t);
        DistinctSnoc(Dates(init), t.date);
      }
      assert SumAmounts(ts) == SumAmounts(init) + t.amount by {
        SumAmountsSnoc(init, t);
      }
      assert Total(PerDate(ts, d)) == SumAmounts(init) + (if t.date in d then t.amount else 0) by {
        PerDistinctDateTotal(init);
        DistinctSpec(Dates(init));
        PerDateTotalSnoc(init, t, d);
      }
      if t.date !in d {
        NewDateStep(init, t, d);
      }
    }
  }

  /** There is one amount per label, and no label is repeated. */
  lemma ChartSeriesShape(transactions: seq<Transaction>, id: CustomerId)
    ensures var c := Aggregate(transactions, id);
      && |c.labels| == |c.amounts|
      && forall i, j :: 0 <= i < j < |c.labels| ==> c.labels[i] != c.labels[j]
  {
    var mine := Select(transactions, OfCustomer(id));
    DistinctSpec(Dates(mine));
    PerDateSpec(mine, Distinct(Dates(mine)));
  }

  /** The chart's series adds up to the customer's total over the full transaction list. */
  lemma ChartTotal(transactions: seq<Transaction>, id: CustomerId)
    ensures Total(Aggregate(transactions, id).amounts) == SumAmounts(Select(transactions, OfCustomer(id)))
  {
    PerDistinctDateTotal(Select(transactions, OfCustomer(id)));
  }

  /** The labels are exactly the dates of the customer's transactions in the full list. */
  lemma ChartLabelsAreCustomerDates(transactions: seq<Transaction>, id: CustomerId, d: string)
    ensures d in Aggregate(transactions, id).labels
        <==> exists k :: 0 <= k < |transactions| && transactions[k].customerId == id && transactions[k].date == d
  {
    var mine := Select(transactions, OfCustomer(id));
    var dates := Dates(mine);
    DatesMembership(mine, d);
    DistinctSpec(dates);
    SelectMembership(transactions, OfCustomer(id));
    assert d in Distinct(dates) <==> d in dates;
    if d in dates {
      var j :| 0 <= j < |mine| && mine[j].date == d;
      assert mine[j] in mine;
      var k :| 0 <= k < |transactions| && transactions[k] == mine[j];
    }
    if exists k :: 0 <= k < |transactions| && transactions[k].customerId == id && transactions[k].date == d {
      var k :| 0 <= k < |transactions| && transactions[k].customerId == id && transactions[k].date == d;
      assert transactions[k] in mine;
      var j :| 0 <= j < |mine| && mine[j] == transactions[k];
    }
  }

  /** The labels appear in the order in which their dates first occur among the customer's transactions. */
  lemma ChartLabelsInFirstOccurrenceOrder(transactions: seq<Transaction>, id: CustomerId)
    ensures var dates, labels := Dates(Select(transactions, OfCustomer(id))), Aggregate(transactions, id).labels;
      forall i, j :: 0 <= i < j < |labels| ==>
        labels[i] in dates && labels[j] in dates && FirstIndex(dates, labels[i]) < FirstIndex(dates, labels[j])
  {
    var dates := Dates(Select(transactions, OfCustomer(id)));
    assert Aggregate(transactions, id).labels == Distinct(dates);
    DistinctInFirstOccurrenceOrder(dates);
  }

  /** amounts[i] is the sum of the amounts of the customer's transactions dated labels[i]. */
  lemma ChartAmountsPerLabel(transactions: seq<Transaction>, id: CustomerId)
    ensures var c := Aggregate(transactions, id);
      |c.amounts| == |c.labels| && forall i :: 0 <= i < |c.labels| ==>
        c.amounts[i] == SumAmounts(Select(transactions, OfCustomerOnDate(id, c.labels[i])))
  {
    var c := Aggregate(transactions, id);
    var mine := Select(transactions, OfCustomer(id));
    PerDateSpec(mine, c.labels);
    forall i | 0 <= i < |c.labels|
      ensures c.amounts[i] == SumAmounts(Select(transactions, OfCustomerOnDate(id, c.labels[i])))
    {
      SelectSelect(transactions, OfCustomer(id), OnDate(c.labels[i]), OfCustomerOnDate(id, c.labels[i]));
    }
  }

  lemma PerDateOfTwo(ts: seq<Transaction>, d1: string, d2: string)
    ensures PerDate(ts, [d1, d2]) == [SumAmounts(Select(ts, OnDate(d1))), SumAmounts(Select(ts, OnDate(d2)))]
  {
    assert [d1, d2][..1] == [d1];
    assert [d1][..0] == [];
    PerDateSpec(ts, [d1, d2]);
  }

  /**
   * Two transactions on one date and one on a later date, e.g. amounts 10 and 5
   * on "2024-01-01" and 3 on "2024-01-02", give labels [d1, d2] and series [15, 3].
   */
  lemma {:induction false} TwoDatesExample(id: CustomerId, d1: string, d2: string, a: int, b: int, c: int)
    requires d1 != d2
    ensures var ts := [Transaction(id, d1, a), Transaction(id, d1, b), Transaction(id, d2, c)];
      Aggregate(ts, id) == ChartData([d1, d2], [a + b, c])
  {
    var t0, t1, t2 := Transaction(id, d1, a), Transaction(id, d1, b), Transaction(id, d2, c);
    var ts := [t0, t1, t2];
    calc {
      Aggregate(ts, id);
      ChartData(Distinct(Dates(Select(ts, OfCustomer(id)))),
                PerDate(Select(ts, OfCustomer(id)), Distinct(Dates(Select(ts, OfCustomer(id))))));
      { SelectAll(ts, OfCustomer(id)); }
      ChartData(Distinct(Dates(ts)), PerDate(ts, Distinct(Dates(ts))));
      { ExampleLabels(t0, t1, t2); }
      ChartData([d1, d2], PerDate(ts, [d1, d2]));
      { PerDateOfTwo(ts, d1, d2); }
      ChartData([d1, d2], [SumAmounts(Select(ts, OnDate(d1))), SumAmounts(Select(ts, OnDate(d2)))]);
      { ExampleSum(t0, t1, t2, d1); ExampleSum(t0, t1, t2, d2); }
      ChartData([d1, d2], [a + b, c]);
    }
  }

  lemma ExampleLabels(t0: Transaction, t1: Transaction, t2: Transaction)
    requires t0.date == t1.date != t2.date
    ensures Distinct(Dates([t0, t1, t2])) == [t0.date, t2.date]
  {
    var s0: seq<Transaction> := [];
    var s1 := s0 + [t0];
    var s2 := s1 + [t1];
    var s3 := s2 + [t2];
    DatesSnoc(s0, t0);
    DatesSnoc(s1, t1);
    DatesSnoc(s2, t2);
    DistinctSnoc(Dates(s0), t0.date);
    DistinctSnoc(Dates(s1), t1.date);
    DistinctSnoc(Dates(s2), t2.date);
    assert s3 == [t0, t1, t2];
  }

  lemma ExampleSum(t0: Transaction, t1: Transaction, t2: Transaction, d: string)
    ensures SumAmounts(Select([t0, t1, t2], OnDate(d)))
         == (if t0.date == d then t0.amount else 0) + (if t1.date == d then t1.amount else 0)
          + (if t2.date == d then t2.amount else 0)
  {
    var s0: seq<Transaction> := [];
    var s1 := s0 + [t0];
    var s2 := s1 + [t1];
    var s3 := s2 + [t2];
    SumOnDateSnoc(s0, t0, d);
    SumOnDateSnoc(s1, t1, d);
    SumOnDateSnoc(s2, t2, d);
    assert s3 == [t0, t1, t2];
  }
}
