// The customer store. Every operation is a function of the collection it is
// given; module CustomerContext holds the live collection. Lookup passes the
// id argument through parseInt; delete and update compare with `===`.
module Customers {
  import opened Common

  datatype Address = Address(street: string, city: string, state: string, zipCode: string, country: string)

  /** `lastPurchase` is None where the record holds null. */
  datatype Customer = Customer(
    id: int,
    name: string,
    email: string,
    phone: string,
    company: string,
    segment: string,
    industry: string,
    address: Address,
    totalSpent: real,
    lastPurchase: Option<string>,
    notes: string,
    createdAt: string,
    updatedAt: string)

  function Ids(customers: seq<Customer>): seq<int>
  {
    seq(|customers|, i requires 0 <= i < |customers| => customers[i].id)
  }

  /** getCustomerById: the first customer whose id equals parseInt(customerId). */
  function GetCustomerById(customers: seq<Customer>, customerId: IdArg): (r: Option<Customer>)
    ensures r.None? <==> forall i :: 0 <= i < |customers| ==> !MatchesParsed(customers[i].id, customerId)
    ensures r.Some? ==> exists k :: 0 <= k < |customers| && customers[k] == r.value &&
                                    MatchesParsed(customers[k].id, customerId) &&
                                    forall i :: 0 <= i < k ==> !MatchesParsed(customers[i].id, customerId)
  {
    Find(customers, (c: Customer) => MatchesParsed(c.id, customerId))
  }

  /** addCustomer(customer): the caller's fields with a fresh id, no spending
      and no purchase yet, both timestamps equal; appended at the end. */
  function AddCustomer(customers: seq<Customer>, customer: Customer, now: string)
    : (r: (Customer, seq<Customer>))
    ensures r.1 == customers + [r.0]
    ensures r.0 == customer.(id := r.0.id, totalSpent := 0.0, lastPurchase := None,
                             createdAt := now, updatedAt := now)
    ensures forall i :: 0 <= i < |customers| ==> customers[i].id < r.0.id
    ensures |customers| == 0 ==> r.0.id == 1
    ensures |customers| > 0 ==> r.0.id - 1 in Ids(customers)
  {
    var ids := Ids(customers);
    assert forall i :: 0 <= i < |customers| ==> customers[i].id == ids[i];
    var newCustomer := customer.(id := NextId(ids), totalSpent := 0.0, lastPurchase := None,
                                 createdAt := now, updatedAt := now);
    (newCustomer, customers + [newCustomer])
  }

  /** updateCustomer(updatedCustomer): the whole record, stamped, replaces
      every customer with its id; no field is merged. */
  function UpdateCustomer(customers: seq<Customer>, updatedCustomer: Customer, now: string)
    : (r: (Customer, seq<Customer>))
    ensures r.0 == updatedCustomer.(updatedAt := now)
    ensures |r.1| == |customers| && Ids(r.1) == Ids(customers)
    ensures forall i :: 0 <= i < |customers| ==>
      r.1[i] == if customers[i].id == updatedCustomer.id then r.0 else customers[i]
  {
    var stamped := updatedCustomer.(updatedAt := now);
    (stamped, seq(|customers|, i requires 0 <= i < |customers| =>
      if customers[i].id == updatedCustomer.id then stamped else customers[i]))
  }

  /** deleteCustomer(customerId): keep the customers whose id is not `===`
      the argument; the argument is not parsed. */
  function DeleteCustomer(customers: seq<Customer>, customerId: IdArg): (r: seq<Customer>)
    ensures forall x :: x in r <==> x in customers && !StrictlyEquals(x.id, customerId)
    ensures |r| <= |customers|
  {
    Filter(customers, (c: Customer) => !StrictlyEquals(c.id, customerId))
  }

  // ---------------------------------------------------------------------
  // Properties that relate several calls.

  /** An update for an id no customer has leaves the collection as it was. */
  lemma UpdateCustomerNoMatch(customers: seq<Customer>, updatedCustomer: Customer, now: string)
    requires forall i :: 0 <= i < |customers| ==> customers[i].id != updatedCustomer.id
    ensures UpdateCustomer(customers, updatedCustomer, now).1 == customers
  {
    var r := UpdateCustomer(customers, updatedCustomer, now);
    assert r.1 == customers;
  }

  /** A customer id given as text is found by getCustomerById just as the
      number it parses to is. */
  lemma {:induction false} GetCustomerByIdParses(customers: seq<Customer>, k: int)
    ensures GetCustomerById(customers, OtherArg(Some(k))) == GetCustomerById(customers, IntArg(k))
  {
    var text := GetCustomerById(customers, OtherArg(Some(k)));
    var number := GetCustomerById(customers, IntArg(k));
    assert forall i :: 0 <= i < |customers| ==>
      MatchesParsed(customers[i].id, OtherArg(Some(k))) == MatchesParsed(customers[i].id, IntArg(k));
    if text.Some? && number.Some? {
      var a :| 0 <= a < |customers| && customers[a] == text.value &&
               MatchesParsed(customers[a].id, OtherArg(Some(k))) &&
               forall i :: 0 <= i < a ==> !MatchesParsed(customers[i].id, OtherArg(Some(k)));
      var b :| 0 <= b < |customers| && customers[b] == number.value &&
               MatchesParsed(customers[b].id, IntArg(k)) &&
               forall i :: 0 <= i < b ==> !MatchesParsed(customers[i].id, IntArg(k));
      assert a == b;
    }
  }

  /** Deleting keeps the order of what is left: it distributes over
      concatenation. */
  lemma DeleteCustomerAppend(a: seq<Customer>, b: seq<Customer>, customerId: IdArg)
    ensures DeleteCustomer(a + b, customerId) == DeleteCustomer(a, customerId) + DeleteCustomer(b, customerId)
  {
    FilterAppend(a, b, (c: Customer) => !StrictlyEquals(c.id, customerId));
  }

  /** On one customer, delete removes it exactly when its id is `===` the
      argument; with DeleteCustomerAppend this fixes the result, order and
      repetitions included. */
  lemma DeleteCustomerOne(c: Customer, customerId: IdArg)
    ensures DeleteCustomer([c], customerId) == if StrictlyEquals(c.id, customerId) then [] else [c]
  {
  }

  /** With distinct ids, deleting an id in use removes exactly one customer. */
  lemma DeleteCustomerRemovesOne(customers: seq<Customer>, k: nat)
    requires Distinct(Ids(customers))
    requires k < |customers|
    ensures DeleteCustomer(customers, IntArg(customers[k].id)) == customers[..k] + customers[k + 1..]
  {
    forall i | 0 <= i < |customers| && i != k ensures customers[i].id != customers[k].id {
      assert Ids(customers)[i] != Ids(customers)[k];
    }
    FilterRemovesOne(customers, k, (c: Customer) => !StrictlyEquals(c.id, IntArg(customers[k].id)));
  }

  /** Delete keeps a collection in which no id is `===` the argument. */
  lemma DeleteCustomerKeepsOthers(customers: seq<Customer>, customerId: IdArg)
    requires forall i :: 0 <= i < |customers| ==> !StrictlyEquals(customers[i].id, customerId)
    ensures DeleteCustomer(customers, customerId) == customers
  {
    FilterKeepsAll(customers, (c: Customer) => !StrictlyEquals(c.id, customerId));
  }

  /** deleteCustomer with a text id removes nothing, although getCustomerById
      finds the customer with the same argument. */
  lemma DeleteCustomerDoesNotParse(customers: seq<Customer>, k: int)
    ensures DeleteCustomer(customers, OtherArg(Some(k))) == customers
  {
    FilterKeepsAll(customers, (c: Customer) => !StrictlyEquals(c.id, OtherArg(Some(k))));
  }

  /** Deleting the customer with the highest id m, when the one with id m - 1
      stays, lets the next add hand out m again. */
  lemma DeleteMaxThenAddReusesId(customers: seq<Customer>, customer: Customer, now: string)
    requires |customers| > 0
    requires NextId(Ids(customers)) - 2 in Ids(customers)
    ensures var m := NextId(Ids(customers)) - 1;
            AddCustomer(DeleteCustomer(customers, IntArg(m)), customer, now).0.id == m
  {
    var m := NextId(Ids(customers)) - 1;
    var rest := DeleteCustomer(customers, IntArg(m));
    forall i | 0 <= i < |rest| ensures Ids(rest)[i] in Ids(customers) && Ids(rest)[i] != m {
      assert rest[i] in customers;
      var j :| 0 <= j < |customers| && customers[j] == rest[i];
      assert Ids(customers)[j] == rest[i].id;
    }
    var j :| 0 <= j < |customers| && Ids(customers)[j] == m - 1;
    assert customers[j] in rest;
    var k :| 0 <= k < |rest| && rest[k] == customers[j];
    assert Ids(rest)[k] == m - 1;
    NextIdAfterRemovingMax(Ids(customers), Ids(rest));
  }

  /** Adding keeps the customer ids distinct. */
  lemma AddCustomerKeepsIdsDistinct(customers: seq<Customer>, customer: Customer, now: string)
    requires Distinct(Ids(customers))
    ensures Distinct(Ids(AddCustomer(customers, customer, now).1))
  {
    var r := AddCustomer(customers, customer, now);
    assert forall i :: 0 <= i < |customers| ==> Ids(r.1)[i] == Ids(customers)[i];
  }

  /** Deleting keeps the customer ids distinct. */
  lemma DeleteCustomerKeepsIdsDistinct(customers: seq<Customer>, customerId: IdArg)
    requires Distinct(Ids(customers))
    ensures Distinct(Ids(DeleteCustomer(customers, customerId)))
  {
    var key := (c: Customer) => c.id;
    assert DistinctKeys(customers, key) by {
      forall i, j | 0 <= i < j < |customers| ensures key(customers[i]) != key(customers[j]) {
        assert Ids(customers)[i] == customers[i].id && Ids(customers)[j] == customers[j].id;
      }
    }
    FilterKeepsKeysDistinct(customers, (c: Customer) => !StrictlyEquals(c.id, customerId), key);
    var r := DeleteCustomer(customers, customerId);
    forall i, j | 0 <= i < j < |r| ensures Ids(r)[i] != Ids(r)[j] {
      assert key(r[i]) != key(r[j]);
    }
  }
}

// The live customer collection and the operations that replace it.
module CustomerContext {
  import opened Common
  import opened Customers

  class CustomerProvider {
    var customers: seq<Customer>

    ghost predicate Valid()
      reads this
    {
      Distinct(Ids(customers))
    }

    constructor (initial: seq<Customer>)
      requires Distinct(Ids(initial))
      ensures Valid() && customers == initial
    {
      customers := initial;
    }

    method AddCustomer(customer: Customer, now: string) returns (newCustomer: Customer)
      requires Valid()
      modifies this
      ensures Valid()
      ensures (newCustomer, customers) == Customers.AddCustomer(old(customers), customer, now)
    {
      AddCustomerKeepsIdsDistinct(customers, customer, now);
      newCustomer := customer.(id := NextId(Ids(customers)), totalSpent := 0.0, lastPurchase := None,
                               createdAt := now, updatedAt := now);
      customers := customers + [newCustomer];
    }

    method UpdateCustomer(updatedCustomer: Customer, now: string) returns (stamped: Customer)
      requires Valid()
      modifies this
      ensures Valid()
      ensures (stamped, customers) == Customers.UpdateCustomer(old(customers), updatedCustomer, now)
    {
      stamped := updatedCustomer.(updatedAt := now);
      var before := customers;
      customers := seq(|before|, i requires 0 <= i < |before| =>
        if before[i].id == updatedCustomer.id then stamped else before[i]);
      assert Ids(customers) == Ids(before);
    }

    method DeleteCustomer(customerId: IdArg)
      requires Valid()
      modifies this
      ensures Valid()
      ensures customers == Customers.DeleteCustomer(old(customers), customerId)
      ensures forall k :: 0 <= k < |old(customers)| && customerId == IntArg(old(customers)[k].id) ==>
        customers == old(customers)[..k] + old(customers)[k + 1..]
    {
      forall k | 0 <= k < |customers| && customerId == IntArg(customers[k].id)
        ensures Customers.DeleteCustomer(customers, customerId) == customers[..k] + customers[k + 1..]
      {
        DeleteCustomerRemovesOne(customers, k);
      }
      DeleteCustomerKeepsIdsDistinct(customers, customerId);
      customers := Filter(customers, (c: Customer) => !StrictlyEquals(c.id, customerId));
    }
  }
}
