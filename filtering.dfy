/**
 * The filter engine (`filterTransactions`): the transactions whose customer
 * exists and passes the name test, and whose amount passes the amount test.
 */
module Filtering {
  import opened Wrappers
  import opened Seqs
  import opened Text
  import opened Records

  /**
   * `!nameFilter || name.toLowerCase().includes(nameFilter)`, where needle is
   * the already lower-cased filter text.
   */
  predicate NameMatches(name: string, needle: string) {
    needle == [] || Includes(Lower(name), needle)
  }

  /**
   * `!amountFilter || amount === amountFilter`. The filter is `parseFloat` of
   * the input, None standing for NaN; NaN and 0 are both falsy, so neither
   * constrains the amount.
   */
  predicate AmountMatches(amount: int, amountFilter: Option<int>) {
    amountFilter.None? || amountFilter.value == 0 || amount == amountFilter.value
  }

  /** The callback given to `transactions.filter`. */
  predicate Keep(customers: seq<Customer>, needle: string, amountFilter: Option<int>, t: Transaction) {
    match FindCustomer(customers, t.customerId)
    case None => false
    case Some(c) => NameMatches(c.name, needle) && AmountMatches(t.amount, amountFilter)
  }

  function Keeps(customers: seq<Customer>, needle: string, amountFilter: Option<int>): Transaction -> bool {
    t => Keep(customers, needle, amountFilter, t)
  }

  /** The filtered view for the name input text and the parsed amount filter. */
  function FilterView(customers: seq<Customer>, transactions: seq<Transaction>,
                      nameInput: string, amountFilter: Option<int>): seq<Transaction>
  {
    Select(transactions, Keeps(customers, Lower(nameInput), amountFilter))
  }

  /** The indices of the transactions the filter keeps. */
  function KeptIndices(customers: seq<Customer>, transactions: seq<Transaction>,
                       nameInput: string, amountFilter: Option<int>): seq<nat>
  {
    SelectedIndices(transactions, Keeps(customers, Lower(nameInput), amountFilter))
  }

  /**
   * The filtered view is the ordered subsequence of the transactions at
   * KeptIndices, and an index is kept exactly when its transaction joins a
   * customer, passes the name test and passes the amount test.
   */
  lemma FilterViewCharacterization(customers: seq<Customer>, transactions: seq<Transaction>,
                                   nameInput: string, amountFilter: Option<int>)
    ensures var r, idx := FilterView(customers, transactions, nameInput, amountFilter),
                          KeptIndices(customers, transactions, nameInput, amountFilter);
      && Increasing(idx)
      && |r| == |idx|
      && (forall j :: 0 <= j < |r| ==> idx[j] < |transactions| && r[j] == transactions[idx[j]])
      && (forall k :: 0 <= k < |transactions| ==>
            (k in idx <==>
              var t := transactions[k];
              var c := FindCustomer(customers, t.customerId);
              && c.Some?
              && (nameInput == [] || Includes(Lower(c.value.name), Lower(nameInput)))
              && (amountFilter.None? || amountFilter.value == 0 || t.amount == amountFilter.value)))
  {
    var p := Keeps(customers, Lower(nameInput), amountFilter);
    SelectIsOrderedSubsequence(transactions, p);
    SelectedIndicesSpec(transactions, p);
    LowerKeepsLength(nameInput);
  }

  /** Every transaction in the filtered view joins a customer. */
  lemma FilteredJoinCustomers(customers: seq<Customer>, transactions: seq<Transaction>,
                              nameInput: string, amountFilter: Option<int>)
    ensures AllJoined(customers, FilterView(customers, transactions, nameInput, amountFilter))
  {
    SelectSpec(transactions, Keeps(customers, Lower(nameInput), amountFilter));
  }

  /** With a non-empty name input, every kept customer's lower-cased name contains the lower-cased input. */
  lemma FilteredMatchName(customers: seq<Customer>, transactions: seq<Transaction>,
                          nameInput: string, amountFilter: Option<int>)
    requires nameInput != []
    ensures var r := FilterView(customers, transactions, nameInput, amountFilter);
      forall j :: 0 <= j < |r| ==>
        var c := FindCustomer(customers, r[j].customerId);
        c.Some? && Includes(Lower(c.value.name), Lower(nameInput))
  {
    SelectSpec(transactions, Keeps(customers, Lower(nameInput), amountFilter));
    LowerKeepsLength(nameInput);
  }

  /** With an amount filter that parses to a non-zero number, every kept amount equals it. */
  lemma FilteredMatchAmount(customers: seq<Customer>, transactions: seq<Transaction>,
                            nameInput: string, v: int)
    requires v != 0
    ensures var r := FilterView(customers, transactions, nameInput, Some(v));
      forall j :: 0 <= j < |r| ==> r[j].amount == v
  {
    SelectSpec(transactions, Keeps(customers, Lower(nameInput), Some(v)));
  }

  /** An amount input that parses to 0 filters exactly like one that does not parse. */
  lemma ZeroAmountIsNoConstraint(customers: seq<Customer>, transactions: seq<Transaction>, nameInput: string)
    ensures FilterView(customers, transactions, nameInput, Some(0))
         == FilterView(customers, transactions, nameInput, None)
  {
    var needle := Lower(nameInput);
    SelectPointwise(transactions, Keeps(customers, needle, Some(0)), Keeps(customers, needle, None));
  }

  /**
   * With an empty name input and no amount constraint, the view is every
   * transaction that joins a customer; when all of them join, it is the full
   * list again, as right after loading.
   */
  lemma ClearedFiltersKeepJoined(customers: seq<Customer>, transactions: seq<Transaction>)
    ensures var r := FilterView(customers, transactions, [], None);
      forall k :: 0 <= k < |transactions| && FindCustomer(customers, transactions[k].customerId).Some?
        ==> transactions[k] in r
    ensures (forall k :: 0 <= k < |transactions| ==> FindCustomer(customers, transactions[k].customerId).Some?)
        ==> FilterView(customers, transactions, [], None) == transactions
  {
    var p := Keeps(customers, Lower([]), None);
    SelectMembership(transactions, p);
    if forall k :: 0 <= k < |transactions| ==> FindCustomer(customers, transactions[k].customerId).Some? {
      SelectAll(transactions, p);
    }
  }

  /**
   * The `!nameFilter ||` guard changes nothing: an empty needle is included in
   * every lowered name, so the `includes` test alone would accept it as well.
   */
  lemma EmptyNameTestRedundant(name: string)
    ensures NameMatches(name, []) == Includes(Lower(name), [])
  {
    IncludesEmpty(Lower(name));
  }

  /** The name input is lowered before use, so typing it in upper or lower case gives the same view. */
  lemma FilterIgnoresInputCase(customers: seq<Customer>, transactions: seq<Transaction>,
                               nameInput: string, amountFilter: Option<int>)
    ensures FilterView(customers, transactions, Lower(nameInput), amountFilter)
         == FilterView(customers, transactions, nameInput, amountFilter)
  {
    LowerIdempotent(nameInput);
  }
}
