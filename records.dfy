/** The two collections the dashboard fetches, and the join between them. */
module Records {
  import opened Wrappers

  type CustomerId = int

  /** `{ id, name }` from the customers endpoint. */
  datatype Customer = Customer(id: CustomerId, name: string)

  /** `{ customer_id, date, amount }` from the transactions endpoint; the date is an opaque label. */
  datatype Transaction = Transaction(customerId: CustomerId, date: string, amount: int)

  /** `customers.find(c => c.id === id)`: the first customer with that id, or None. */
  function FindCustomer(customers: seq<Customer>, id: CustomerId): Option<Customer>
    decreases |customers|
  {
    if customers == [] then None
    else if customers[0].id == id then Some(customers[0])
    else FindCustomer(customers[1..], id)
  }

  /**
   * FindCustomer misses exactly when no customer carries the id; otherwise it
   * returns the customer at the first position k that carries it.
   */
  lemma {:induction false} FindCustomerSpec(customers: seq<Customer>, id: CustomerId)
    ensures FindCustomer(customers, id).None? <==> forall k :: 0 <= k < |customers| ==> customers[k].id != id
    ensures FindCustomer(customers, id).Some? ==>
      exists k :: 0 <= k < |customers| && customers[k] == FindCustomer(customers, id).value
        && customers[k].id == id && forall j :: 0 <= j < k ==> customers[j].id != id
    decreases |customers|
  {
    if customers != [] && customers[0].id != id {
      FindCustomerSpec(customers[1..], id);
      if FindCustomer(customers[1..], id).Some? {
        var k :| 0 <= k < |customers| - 1 && customers[1..][k] == FindCustomer(customers[1..], id).value
          && customers[1..][k].id == id && forall j :: 0 <= j < k ==> customers[1..][j].id != id;
        assert customers[k + 1] == FindCustomer(customers, id).value;
        assert forall j :: 0 <= j < k + 1 ==> customers[j].id != id by {
          forall j | 0 <= j < k + 1 ensures customers[j].id != id {
            if j > 0 {
              assert customers[j] == customers[1..][j - 1];
            }
          }
        }
      } else {
        forall k | 0 <= k < |customers| ensures customers[k].id != id {
          if k > 0 {
            assert customers[k] == customers[1..][k - 1];
          }
        }
      }
    } else if customers != [] {
      assert customers[0] == FindCustomer(customers, id).value;
    }
  }

  /** A found customer carries the id that was looked up. */
  lemma {:induction false} FindCustomerId(customers: seq<Customer>, id: CustomerId)
    ensures FindCustomer(customers, id).Some? ==> FindCustomer(customers, id).value.id == id
    decreases |customers|
  {
    if customers != [] && customers[0].id != id {
      FindCustomerId(customers[1..], id);
    }
  }

  /** Every transaction of ts has a customer with its customerId. */
  predicate AllJoined(customers: seq<Customer>, ts: seq<Transaction>) {
    forall k :: 0 <= k < |ts| ==> FindCustomer(customers, ts[k].customerId).Some?
  }
}
